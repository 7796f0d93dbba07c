/** Ordinary words that hold a short keyword inside are not sensitive, and a password is redacted. */
module OrdinaryKeys {
  import opened Options
  import opened Strings
  import opened KeyWords
  import opened KeyClassifier
  import opened SourceKeys

  // ---------------------------------------------------------------- beginnings

  predicate ThreeAt(word: string, i: int, a: char, b: char, c: char) {
    0 <= i < |word| - 2 && word[i] == a && word[i + 1] == b && word[i + 2] == c
  }

  /** The word has these three letters in a row somewhere. */
  ghost predicate Begins(word: string, a: char, b: char, c: char) {
    exists i :: ThreeAt(word, i, a, b, c)
  }

  lemma OccurringLetter(word: string, keyword: string, at: int, k: nat)
    requires OccursAt(word, keyword, at) && k < |keyword|
    ensures 0 <= at + k < |word| && word[at + k] == keyword[k]
  {
    assert word[at..at + |keyword|][k] == word[at + k];
  }

  lemma OccurrenceBegins(word: string, keyword: string)
    requires Contains(word, keyword) && |keyword| >= 3
    ensures |keyword| <= |word| && Begins(word, keyword[0], keyword[1], keyword[2])
  {
    var at :| OccursAt(word, keyword, at);
    OccurringLetter(word, keyword, at, 0);
    OccurringLetter(word, keyword, at, 1);
    OccurringLetter(word, keyword, at, 2);
    assert ThreeAt(word, at, keyword[0], keyword[1], keyword[2]);
  }

  /** Three letters in a row in one of the four words below. */
  predicate Ordinary(a: char, b: char, c: char) {
    || (a == 'a' && ((b == 'u' && c == 't') || (b == 'r' && c == 'g') || (b == 'n' && c == 'y')))
    || (a == 'u' && b == 't' && c == 'h') || (a == 't' && b == 'h' && c == 'o')
    || (a == 'h' && ((b == 'o' && c == 'r') || (b == 'a' && c == 'r') || (b == 'i' && c == 'p')))
    || (a == 'c' && ((b == 'h' && c == 'a') || (b == 'o' && c == 'm')))
    || (a == 'r' && b == 'g' && c == 'e') || (a == 's' && b == 'h' && c == 'i')
    || (a == 'i' && ((b == 'p' && c == 'p') || (b == 'n' && c == 'g')))
    || (a == 'p' && ((b == 'p' && c == 'i') || (b == 'i' && c == 'n') || (b == 'a' && c == 'n')))
    || (a == 'o' && b == 'm' && c == 'p') || (a == 'm' && b == 'p' && c == 'a')
  }

  predicate OneOfFour(word: string) {
    word == "author" || word == "charge" || word == "shipping" || word == "company"
  }

  lemma WordsAreOrdinary(word: string, a: char, b: char, c: char)
    requires OneOfFour(word)
    requires Begins(word, a, b, c)
    ensures Ordinary(a, b, c)
  {
  }

  /** The keywords that begin like a stretch of those words. */
  predicate Suspect(keyword: string) {
    || keyword == "auth" || keyword == "authorization" || keyword == "authentication"
    || keyword == "pin" || keyword == "pan"
  }

  predicate Tame(keywords: seq<string>) {
    forall i | 0 <= i < |keywords| ::
      if |keywords[i]| < 3 then keywords[i] == "rg"
      else Ordinary(keywords[i][0], keywords[i][1], keywords[i][2]) ==> Suspect(keywords[i])
  }

  lemma CardsAreTame() ensures Tame(CARD_KEYWORDS) {}

  lemma SecretsAreTame() ensures Tame(REDACT_SECRETS) {}

  lemma AuthIsTame() ensures Tame(REDACT_AUTH) {}

  lemma SessionsAreTame() ensures Tame(REDACT_SESSIONS) {}

  lemma ClientsAreTame() ensures Tame(REDACT_CLIENTS) {}

  lemma SigningIsTame() ensures Tame(REDACT_SIGNING) {}

  lemma CodesAreTame() ensures Tame(PARTIAL_CODES) {}

  lemma NumbersAreTame() ensures Tame(PARTIAL_NUMBERS) {}

  lemma PapersAreTame() ensures Tame(PARTIAL_PAPERS) {}

  lemma TaxesAreTame() ensures Tame(PARTIAL_TAXES) {}

  lemma KeywordIsTame(keyword: string)
    requires keyword in CARD_KEYWORDS || keyword in REDACT_KEYWORDS || keyword in PARTIAL_KEYWORDS
    ensures if |keyword| < 3 then keyword == "rg"
            else Ordinary(keyword[0], keyword[1], keyword[2]) ==> Suspect(keyword)
  {
    if keyword in CARD_KEYWORDS {
      CardsAreTame();
    } else if keyword in REDACT_KEYWORDS {
      SecretsAreTame();
      AuthIsTame();
      SessionsAreTame();
      ClientsAreTame();
      SigningIsTame();
    } else {
      CodesAreTame();
      NumbersAreTame();
      PapersAreTame();
      TaxesAreTame();
    }
  }

  // ---------------------------------------------------------------- what is no fragment

  /** At least two letters, and not the syllable of `author` behind its keyword. */
  predicate Fragmentary(fragments: seq<string>) {
    forall i | 0 <= i < |fragments| :: |fragments[i]| >= 2 && fragments[i] != "or"
  }

  lemma KeywordsAreFragmentary()
    ensures Fragmentary(CARD_KEYWORDS) && Fragmentary(REDACT_KEYWORDS) && Fragmentary(PARTIAL_KEYWORDS)
  {
    assert Fragmentary(REDACT_SECRETS) && Fragmentary(REDACT_AUTH) && Fragmentary(REDACT_SESSIONS);
    assert Fragmentary(REDACT_CLIENTS) && Fragmentary(REDACT_SIGNING);
    assert Fragmentary(PARTIAL_CODES) && Fragmentary(PARTIAL_NUMBERS);
    assert Fragmentary(PARTIAL_PAPERS) && Fragmentary(PARTIAL_TAXES);
  }

  lemma AffixesAreFragmentary()
    ensures Fragmentary(OWNER_AFFIXES) && Fragmentary(VALUE_AFFIXES)
    ensures Fragmentary(TEXT_AFFIXES) && Fragmentary(PORTUGUESE_AFFIXES)
  {
  }

  predicate TooSmall(s: string) {
    |s| == 1 || s == "or"
  }

  lemma NotAmong(s: string, fragments: seq<string>)
    requires Fragmentary(fragments) && TooSmall(s)
    ensures s !in fragments
  {
  }

  lemma NoKeyword(s: string)
    requires TooSmall(s)
    ensures s !in CARD_KEYWORDS && s !in REDACT_KEYWORDS && s !in PARTIAL_KEYWORDS
  {
    KeywordsAreFragmentary();
    NotAmong(s, CARD_KEYWORDS);
    NotAmong(s, REDACT_KEYWORDS);
    NotAmong(s, PARTIAL_KEYWORDS);
  }

  lemma NoAffix(s: string)
    requires TooSmall(s)
    ensures s !in KEY_AFFIXES
  {
    AffixesAreFragmentary();
    NotAmong(s, OWNER_AFFIXES);
    NotAmong(s, VALUE_AFFIXES);
    NotAmong(s, TEXT_AFFIXES);
    NotAmong(s, PORTUGUESE_AFFIXES);
  }

  lemma NoFragment(s: string)
    requires TooSmall(s)
    ensures s !in KEY_FRAGMENTS
  {
    NoKeyword(s);
    NoAffix(s);
  }

  /** A single letter, or that syllable, is no known fragment. */
  lemma Unknown(s: string)
    requires TooSmall(s)
    ensures !Known(s, KEY_FRAGMENTS)
  {
    NoFragment(s);
    if Known(s, KEY_FRAGMENTS) {
      var pieces :| (forall p | p in pieces :: p in KEY_FRAGMENTS) && Join(pieces) == s;
      var at := FirstPiece(s, KEY_FRAGMENTS, pieces);
      NoFragment(s[..at]);
      assert false;
    }
  }

  // ---------------------------------------------------------------- the four words

  /** The keyword inside a word, with what stands behind it. */
  predicate Inside(word: string, keyword: string, after: string) {
    || (word == "author" && keyword == "auth" && after == "or")
    || (word == "charge" && keyword == "rg" && after == "e")
    || (word == "shipping" && keyword == "pin" && after == "g")
    || (word == "company" && keyword == "pan" && after == "y")
  }

  lemma SuspectIsShort(keyword: string)
    requires (keyword == "rg" || Suspect(keyword)) && |keyword| <= 8
    ensures keyword == "rg" || keyword == "auth" || keyword == "pin" || keyword == "pan"
    ensures |keyword| <= SHORT_KEYWORD_MAX_LENGTH
  {
  }

  lemma WordIsPlain(word: string)
    requires OneOfFour(word)
    ensures Plain(word) && 0 < |word| <= 8
  {
  }

  lemma OneWord(word: string)
    requires OneOfFour(word)
    ensures Lower(word) == word && SplitKeyIntoWords(word) == [word] && |word| <= 8
  {
    WordIsPlain(word);
    NoHumps(word);
    PlainKeyIsOneWord(word);
  }

  lemma OnlyInside(word: string, keyword: string, at: int)
    requires OneOfFour(word)
    requires keyword == "rg" || Suspect(keyword)
    requires OccursAt(word, keyword, at)
    ensures Inside(word, keyword, word[at + |keyword|..])
  {
    SuspectIsShort(keyword);
    OccurringLetter(word, keyword, at, 0);
    OccurringLetter(word, keyword, at, 1);
    if keyword == "auth" {
      assert at == 0;
    } else if keyword == "rg" {
      assert at == 3;
    } else if keyword == "pin" {
      assert at == 4;
    } else {
      assert at == 3;
    }
  }

  lemma OccurringIsSuspect(word: string, keyword: string)
    requires OneOfFour(word) && Contains(word, keyword)
    requires keyword in CARD_KEYWORDS || keyword in REDACT_KEYWORDS || keyword in PARTIAL_KEYWORDS
    ensures |keyword| <= |word| && (keyword == "rg" || Suspect(keyword))
  {
    KeywordIsTame(keyword);
    if |keyword| >= 3 {
      OccurrenceBegins(word, keyword);
      WordsAreOrdinary(word, keyword[0], keyword[1], keyword[2]);
    }
  }

  lemma NotSurrounded(word: string, keyword: string)
    requires OneOfFour(word) && (keyword == "rg" || Suspect(keyword))
    ensures !Surrounded(word, keyword, KEY_FRAGMENTS)
  {
    SurroundedSomewhere(word, keyword, KEY_FRAGMENTS);
    forall at ensures !SurroundedAt(word, keyword, KEY_FRAGMENTS, at) {
      if OccursAt(word, keyword, at) {
        OnlyInside(word, keyword, at);
        Unknown(word[at + |keyword|..]);
      }
    }
  }

  lemma OrdinaryWordIsNotHit(word: string, keyword: string)
    requires OneOfFour(word)
    requires keyword in CARD_KEYWORDS || keyword in REDACT_KEYWORDS || keyword in PARTIAL_KEYWORDS
    ensures !Hit(keyword, Lower(word), SplitKeyIntoWords(word), KEY_FRAGMENTS)
  {
    OneWord(word);
    if Contains(word, keyword) {
      OccurringIsSuspect(word, keyword);
      SuspectIsShort(keyword);
      NotSurrounded(word, keyword);
    } else if Hit(keyword, Lower(word), SplitKeyIntoWords(word), KEY_FRAGMENTS) {
      HitOccurs(keyword, word, KEY_FRAGMENTS);
      assert false;
    }
  }

  /** Words in which a short keyword merely occurs are not sensitive. */
  lemma OrdinaryWordsAreNotSensitive(word: string)
    requires word == "author" || word == "charge" || word == "shipping" || word == "company"
    ensures Classified(SOURCE_LEXICON, word) == None
  {
    forall keyword | keyword in CARD_KEYWORDS || keyword in REDACT_KEYWORDS || keyword in PARTIAL_KEYWORDS
      ensures !Hit(keyword, Lower(word), SplitKeyIntoWords(word), KEY_FRAGMENTS)
    {
      OrdinaryWordIsNotHit(word, keyword);
    }
    ClassifiedExactly(SOURCE_LEXICON, word);
  }

  // ---------------------------------------------------------------- a password

  /** Three letters in a row of `password`. */
  predicate PasswordLetters(a: char, b: char, c: char) {
    || (a == 'p' && b == 'a' && c == 's') || (a == 'a' && b == 's' && c == 's') || (a == 's' && b == 's' && c == 'w')
    || (a == 's' && b == 'w' && c == 'o') || (a == 'w' && b == 'o' && c == 'r') || (a == 'o' && b == 'r' && c == 'd')
  }

  lemma PasswordBegins(a: char, b: char, c: char)
    requires Begins("password", a, b, c)
    ensures PasswordLetters(a, b, c)
  {
  }

  predicate NoPasswords(keywords: seq<string>) {
    forall i | 0 <= i < |keywords| ::
      |keywords[i]| >= 3 && !PasswordLetters(keywords[i][0], keywords[i][1], keywords[i][2])
  }

  lemma CardsAreNoPasswords()
    ensures NoPasswords(CARD_KEYWORDS)
  {
  }

  lemma NoCardInPassword(keyword: string)
    requires NoPasswords(CARD_KEYWORDS) && keyword in CARD_KEYWORDS
    ensures !Contains("password", keyword)
  {
    if Contains("password", keyword) {
      OccurrenceBegins("password", keyword);
      PasswordBegins(keyword[0], keyword[1], keyword[2]);
      assert false;
    }
  }

  lemma NoCardHitsPassword()
    ensures !HitBy(SOURCE_LEXICON, CARD_KEYWORDS, "password")
  {
    CardsAreNoPasswords();
    NoHumps("password");
    forall keyword | keyword in CARD_KEYWORDS
      ensures !Hit(keyword, Lower("password"), SplitKeyIntoWords("password"), KEY_FRAGMENTS)
    {
      NoCardInPassword(keyword);
      if Hit(keyword, Lower("password"), SplitKeyIntoWords("password"), KEY_FRAGMENTS) {
        HitOccurs(keyword, "password", KEY_FRAGMENTS);
        assert false;
      }
    }
  }

  lemma PasswordIsAKeyword()
    ensures "password" in REDACT_KEYWORDS
  {
    assert REDACT_SECRETS[0] == "password";
  }

  /** A password is redacted. */
  lemma PasswordIsRedacted()
    ensures Classified(SOURCE_LEXICON, "password") == Some(Redact)
  {
    NoCardHitsPassword();
    PasswordIsAKeyword();
    AffixedKeywordIsSensitive("", "password", "");
    assert "" + "password" + "" == "password";
  }
}
