/**
 The sensitive-key classifier: keyword matching behind a regular-expression prefilter and a bounded cache,
 proved to answer what plain matching answers.
 */
module KeyClassifier {
  import opened Options
  import opened Strings
  import opened KeyWords
  import opened Pan

  /** A list of keywords, none of them empty. */
  type Keywords = keywords: seq<string> | forall i | 0 <= i < |keywords| :: |keywords[i]| > 0 witness []

  datatype SensitiveKeyType = Card | Redact | Partial

  const CARD_KEYWORDS: Keywords := [
    "card", "creditcard", "credit_card", "cardnumber", "card_number", "card_num", "cardnum", "card_no",
    "cardno", "cc_number", "ccnumber", "pan"
  ]

  const REDACT_SECRETS: Keywords := ["password", "passwd", "pwd", "secret", "token", "apikey", "api_key"]

  const REDACT_AUTH: Keywords := [
    "auth", "authorization", "authentication", "bearer", "private", "privatekey", "private_key", "jwt"
  ]

  const REDACT_SESSIONS: Keywords := [
    "session_id", "sessionid", "access_token", "accesstoken", "refresh_token", "refreshtoken"
  ]

  const REDACT_CLIENTS: Keywords := ["api_secret", "apisecret", "client_secret", "clientsecret"]

  const REDACT_SIGNING: Keywords := ["signing_key", "signingkey", "webhook_secret", "webhooksecret"]

  const REDACT_KEYWORDS: Keywords := REDACT_SECRETS + REDACT_AUTH + REDACT_SESSIONS + REDACT_CLIENTS + REDACT_SIGNING

  const PARTIAL_CODES: Keywords := ["cvv", "cvv2", "cvc", "cvc2", "security_code", "securitycode"]

  const PARTIAL_NUMBERS: Keywords := ["ssn", "cpf", "cnpj", "rg", "pin", "otp", "mfa", "expiry", "expiration"]

  const PARTIAL_PAPERS: Keywords := ["dob", "birth", "passport", "driver_license", "driverlicense"]

  const PARTIAL_TAXES: Keywords := ["national_id", "nationalid", "tax_id", "taxid", "fiscal"]

  const PARTIAL_KEYWORDS: Keywords := PARTIAL_CODES + PARTIAL_NUMBERS + PARTIAL_PAPERS + PARTIAL_TAXES

  const OWNER_AFFIXES: seq<string> := [
    "my", "our", "user", "users", "client", "customer", "account", "pre", "post", "new", "old", "current",
    "previous", "internal", "external", "default", "temp", "tmp", "raw", "encoded", "hashed", "masked"
  ]

  const VALUE_AFFIXES: seq<string> := [
    "data", "value", "values", "info", "id", "ids", "key", "keys", "code", "codes", "number", "num", "no", "hash",
    "header", "headers", "token", "tokens", "secret", "type", "name", "list"
  ]

  const TEXT_AFFIXES: seq<string> := [
    "field", "fields", "string", "str", "text", "content", "payload", "body", "param", "params", "document",
    "documento", "documentos", "doc", "docs"
  ]

  const PORTUGUESE_AFFIXES: seq<string> := [
    "usuario", "cliente", "conta", "numero", "nro", "codigo", "chave", "dados", "valor", "campo", "texto"
  ]

  const KEY_AFFIXES: set<string> :=
    Members(OWNER_AFFIXES) + Members(VALUE_AFFIXES) + Members(TEXT_AFFIXES) + Members(PORTUGUESE_AFFIXES)

  const SHORT_KEYWORD_MAX_LENGTH: nat := 4
  const KEY_TYPE_CACHE_MAX_SIZE: nat := 5000

  function Members(keywords: seq<string>): set<string> {
    set k | k in keywords
  }

  const KEY_FRAGMENTS: set<string> :=
    KEY_AFFIXES + Members(CARD_KEYWORDS) + Members(REDACT_KEYWORDS) + Members(PARTIAL_KEYWORDS)

  /** The keyword lists, in order of precedence, and the fragments allowed around a short keyword. */
  datatype Lexicon = Lexicon(card: Keywords, redact: Keywords, partial: Keywords, fragments: set<string>)

  const SOURCE_LEXICON: Lexicon := Lexicon(CARD_KEYWORDS, REDACT_KEYWORDS, PARTIAL_KEYWORDS, KEY_FRAGMENTS)

  // ---------------------------------------------------------------- what classifying a key means

  ghost predicate Hit(keyword: string, lowerKey: string, words: seq<string>, fragments: set<string>) {
    if |keyword| <= SHORT_KEYWORD_MAX_LENGTH then exists word :: word in words && Surrounded(word, keyword, fragments)
    else Contains(lowerKey, keyword)
  }

  ghost predicate AnyHit(keywords: seq<string>, lowerKey: string, words: seq<string>, fragments: set<string>) {
    exists keyword :: keyword in keywords && Hit(keyword, lowerKey, words, fragments)
  }

  /** Plain matching: no prefilter, no cache. */
  ghost function Classified(l: Lexicon, key: string): Option<SensitiveKeyType> {
    var lower, words := Lower(key), SplitKeyIntoWords(key);
    if AnyHit(l.card, lower, words, l.fragments) then Some(Card)
    else if AnyHit(l.redact, lower, words, l.fragments) then Some(Redact)
    else if AnyHit(l.partial, lower, words, l.fragments) then Some(Partial)
    else None
  }

  /** A keyword of the list hits the key. */
  ghost predicate HitBy(l: Lexicon, keywords: seq<string>, key: string) {
    exists keyword :: keyword in keywords && Hit(keyword, Lower(key), SplitKeyIntoWords(key), l.fragments)
  }

  /** The type is that of the first list, cards before secrets before the rest, of which some keyword hits. */
  lemma ClassifiedExactly(l: Lexicon, key: string)
    ensures Classified(l, key) == Some(Card) <==> HitBy(l, l.card, key)
    ensures Classified(l, key) == Some(Redact) <==> HitBy(l, l.redact, key) && !HitBy(l, l.card, key)
    ensures Classified(l, key) == Some(Partial) <==>
            HitBy(l, l.partial, key) && !HitBy(l, l.redact, key) && !HitBy(l, l.card, key)
    ensures Classified(l, key) == None <==>
            !HitBy(l, l.card, key) && !HitBy(l, l.redact, key) && !HitBy(l, l.partial, key)
  {
    var lower, words := Lower(key), SplitKeyIntoWords(key);
    assert AnyHit(l.card, lower, words, l.fragments) <==> HitBy(l, l.card, key);
    assert AnyHit(l.redact, lower, words, l.fragments) <==> HitBy(l, l.redact, key);
    assert AnyHit(l.partial, lower, words, l.fragments) <==> HitBy(l, l.partial, key);
  }

  /** Keywords of up to four characters hit within one word between known fragments, longer ones anywhere. */
  lemma HitExactly(keyword: string, lowerKey: string, words: seq<string>, fragments: set<string>)
    ensures |keyword| <= 4 ==> (Hit(keyword, lowerKey, words, fragments) <==>
              exists word, before, after ::
                && word in words && word == before + keyword + after
                && Known(before, fragments) && Known(after, fragments))
    ensures |keyword| > 4 ==> (Hit(keyword, lowerKey, words, fragments) <==> Contains(lowerKey, keyword))
  {
  }

  // ---------------------------------------------------------------- the prefilter

  predicate SameIgnoringCase(key: string, keyword: string, at: nat) {
    at + |keyword| <= |key| && forall i | 0 <= i < |keyword| :: UpperChar(key[at + i]) == UpperChar(keyword[i])
  }

  /** The case-insensitive alternation of all keywords finds one of them somewhere in the key. */
  predicate PatternTest(l: Lexicon, key: string) {
    exists keyword | keyword in l.card + l.redact + l.partial ::
      exists at | 0 <= at <= |key| :: SameIgnoringCase(key, keyword, at)
  }

  lemma OccursInside(s: string, piece: string, at: int, inner: string, offset: int)
    requires OccursAt(s, piece, at) && 0 <= offset && offset + |inner| <= |piece|
    requires piece[offset..offset + |inner|] == inner
    ensures OccursAt(s, inner, at + offset)
  {
    var lo := at + offset;
    forall k | 0 <= k < |inner| ensures s[lo..lo + |inner|][k] == inner[k] {
      assert s[at..at + |piece|][offset + k] == piece[offset..offset + |inner|][k];
    }
  }

  lemma HitOccurs(keyword: string, key: string, fragments: set<string>)
    requires Hit(keyword, Lower(key), SplitKeyIntoWords(key), fragments)
    ensures Contains(Lower(key), keyword)
  {
    if |keyword| <= SHORT_KEYWORD_MAX_LENGTH {
      var word :| word in SplitKeyIntoWords(key) && Surrounded(word, keyword, fragments);
      var before, after :| word == before + keyword + after;
      WordsOccurInKey(key, word);
      var at :| OccursAt(Lower(key), word, at);
      OccursInside(Lower(key), word, at, keyword, |before|);
    }
  }

  /** A key that plain matching classifies always passes the prefilter. */
  lemma PrefilterLosesNothing(l: Lexicon, key: string)
    requires Classified(l, key).Some?
    ensures PatternTest(l, key)
  {
    var keywords := l.card + l.redact + l.partial;
    assert AnyHit(keywords, Lower(key), SplitKeyIntoWords(key), l.fragments);
    var keyword :| keyword in keywords && Hit(keyword, Lower(key), SplitKeyIntoWords(key), l.fragments);
    HitOccurs(keyword, key, l.fragments);
    var at :| OccursAt(Lower(key), keyword, at);
    forall i | 0 <= i < |keyword| ensures UpperChar(key[at + i]) == UpperChar(keyword[i]) {
      assert keyword[i] == Lower(key)[at..at + |keyword|][i] == LowerChar(key[at + i]);
    }
    assert SameIgnoringCase(key, keyword, at);
  }

  // ---------------------------------------------------------------- the code

  method MatchesKeywords(keywords: Keywords, lowerKey: string, words: seq<string>, fragments: set<string>)
    returns (matched: bool)
    ensures matched <==> AnyHit(keywords, lowerKey, words, fragments)
  {
    for i := 0 to |keywords|
      invariant forall k | 0 <= k < i :: !Hit(keywords[k], lowerKey, words, fragments)
    {
      var keyword := keywords[i];
      if |keyword| <= SHORT_KEYWORD_MAX_LENGTH {
        var surrounded := SomeWordHas(words, keyword, fragments);
        if surrounded {
          assert Hit(keyword, lowerKey, words, fragments);
          return true;
        }
      } else if IndexOf(lowerKey, keyword, 0) != -1 {
        assert Hit(keyword, lowerKey, words, fragments);
        return true;
      }
    }
    return false;
  }

  method SomeWordHas(words: seq<string>, keyword: string, fragments: set<string>) returns (found: bool)
    requires keyword != ""
    ensures found <==> exists word :: word in words && Surrounded(word, keyword, fragments)
  {
    for i := 0 to |words|
      invariant forall k | 0 <= k < i :: !Surrounded(words[k], keyword, fragments)
    {
      found := HasKeywordFragment(words[i], keyword, fragments);
      if found {
        return;
      }
    }
    return false;
  }

  /** The prefilter, then the three lists in order of precedence. */
  method ComputeKeyType(l: Lexicon, key: string) returns (keyType: Option<SensitiveKeyType>)
    ensures keyType == Classified(l, key)
  {
    if !PatternTest(l, key) {
      if Classified(l, key).Some? {
        PrefilterLosesNothing(l, key);
      }
      return None;
    }
    var lower, words := Lower(key), SplitKeyIntoWords(key);
    var matched := MatchesKeywords(l.card, lower, words, l.fragments);
    if matched {
      return Some(Card);
    }
    matched := MatchesKeywords(l.redact, lower, words, l.fragments);
    if matched {
      return Some(Redact);
    }
    matched := MatchesKeywords(l.partial, lower, words, l.fragments);
    return if matched then Some(Partial) else None;
  }

  /** The type of a key by its name, and otherwise a card when its value is a card number. */
  ghost function SensitiveType(l: Lexicon, key: string, value: Logged): Option<SensitiveKeyType> {
    if Classified(l, key).Some? then Classified(l, key)
    else if PanValue(value) then Some(Card)
    else None
  }

  /** A field is a card by its key, or by its value when the key says nothing; the other types come from the key. */
  lemma SensitiveTypeExactly(l: Lexicon, key: string, value: Logged)
    ensures SensitiveType(l, key, value) == Some(Card) <==>
            Classified(l, key) == Some(Card) || (Classified(l, key) == None && !value.Other? && AcceptedPan(value.text))
    ensures SensitiveType(l, key, value) == Some(Redact) <==> Classified(l, key) == Some(Redact)
    ensures SensitiveType(l, key, value) == Some(Partial) <==> Classified(l, key) == Some(Partial)
  {
  }

  /** The type of a field's key and value, as `getSensitiveKeyType` finds it when the cache misses. */
  method ComputeSensitiveType(l: Lexicon, key: string, value: Logged) returns (keyType: Option<SensitiveKeyType>)
    ensures keyType == SensitiveType(l, key, value)
  {
    keyType := ComputeKeyType(l, key);
    if keyType.None? {
      var pan := IsPAN(value);
      if pan {
        keyType := Some(Card);
      }
    }
  }

  /** The classifier with its cache; both live as long as the process. */
  class Classifier {
    const lexicon: Lexicon
    var keyTypeCache: map<string, Option<SensitiveKeyType>>

    ghost predicate Valid()
      reads this
    {
      && |keyTypeCache| <= KEY_TYPE_CACHE_MAX_SIZE
      && forall key | key in keyTypeCache :: keyTypeCache[key] == Classified(lexicon, key)
    }

    constructor (lexicon: Lexicon)
      ensures Valid() && this.lexicon == lexicon && keyTypeCache == map[]
    {
      this.lexicon := lexicon;
      keyTypeCache := map[];
    }

    /** The answer never depends on the calls made before; a full cache only stops growing. */
    method ClassifyKey(key: string) returns (keyType: Option<SensitiveKeyType>)
      requires Valid()
      modifies this
      ensures Valid() && keyType == Classified(lexicon, key) && |keyTypeCache| <= 5000
      ensures keyTypeCache == if key in old(keyTypeCache) || |old(keyTypeCache)| >= KEY_TYPE_CACHE_MAX_SIZE
                              then old(keyTypeCache) else old(keyTypeCache)[key := keyType]
    {
      if key in keyTypeCache {
        return keyTypeCache[key];
      }
      keyType := ComputeKeyType(lexicon, key);
      if |keyTypeCache| < KEY_TYPE_CACHE_MAX_SIZE {
        keyTypeCache := keyTypeCache[key := keyType];
      }
    }

    method GetSensitiveKeyType(key: string, value: Logged) returns (keyType: Option<SensitiveKeyType>)
      requires Valid()
      modifies this
      ensures Valid() && keyType == SensitiveType(lexicon, key, value)
    {
      keyType := ClassifyKey(key);
      if keyType.Some? {
        return;
      }
      var pan := IsPAN(value);
      if pan {
        keyType := Some(Card);
      }
    }
  }
}
