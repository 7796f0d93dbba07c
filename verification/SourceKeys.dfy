/** What the classifier says of the repository's own keyword and affix lists. */
module SourceKeys {
  import opened Options
  import opened Strings
  import opened KeyWords
  import opened KeyClassifier

  predicate Plain(s: string) {
    forall i | 0 <= i < |s| :: IsWordChar(s[i])
  }

  predicate NoCapital(s: string) {
    forall i | 0 <= i < |s| :: !IsUpper(s[i])
  }

  /** No keyword has a capital, and the short ones have nothing but small letters and digits. */
  predicate Usable(keywords: seq<string>) {
    forall i | 0 <= i < |keywords| ::
      NoCapital(keywords[i]) && (|keywords[i]| <= SHORT_KEYWORD_MAX_LENGTH ==> Plain(keywords[i]))
  }

  predicate AllPlain(affixes: seq<string>) {
    forall i | 0 <= i < |affixes| :: Plain(affixes[i])
  }

  // ---------------------------------------------------------------- the lists

  lemma CardKeywordsAreUsable()
    ensures Usable(CARD_KEYWORDS)
  {
  }

  lemma SecretsAreUsable()
    ensures Usable(REDACT_SECRETS)
  {
  }

  lemma AuthIsUsable()
    ensures Usable(REDACT_AUTH)
  {
  }

  lemma SessionsAreUsable()
    ensures Usable(REDACT_SESSIONS)
  {
  }

  lemma ClientsAreUsable()
    ensures Usable(REDACT_CLIENTS)
  {
  }

  lemma SigningIsUsable()
    ensures Usable(REDACT_SIGNING)
  {
  }

  lemma CodesAreUsable()
    ensures Usable(PARTIAL_CODES)
  {
  }

  lemma NumbersAreUsable()
    ensures Usable(PARTIAL_NUMBERS)
  {
  }

  lemma PapersAreUsable()
    ensures Usable(PARTIAL_PAPERS)
  {
  }

  lemma TaxesAreUsable()
    ensures Usable(PARTIAL_TAXES)
  {
  }

  predicate UsableKeyword(keyword: string) {
    keyword != "" && NoCapital(keyword) && (|keyword| <= SHORT_KEYWORD_MAX_LENGTH ==> Plain(keyword))
  }

  lemma UsableMember(keywords: Keywords, keyword: string)
    requires Usable(keywords) && keyword in keywords
    ensures UsableKeyword(keyword)
  {
  }

  lemma OwnerAffixesArePlain()
    ensures AllPlain(OWNER_AFFIXES)
  {
  }

  lemma ValueAffixesArePlain()
    ensures AllPlain(VALUE_AFFIXES)
  {
  }

  lemma TextAffixesArePlain()
    ensures AllPlain(TEXT_AFFIXES)
  {
  }

  lemma PortugueseAffixesArePlain()
    ensures AllPlain(PORTUGUESE_AFFIXES)
  {
  }

  lemma AffixIsPlain(affix: string)
    requires affix in KEY_AFFIXES
    ensures Plain(affix)
  {
    if affix in OWNER_AFFIXES {
      OwnerAffixesArePlain();
    } else if affix in VALUE_AFFIXES {
      ValueAffixesArePlain();
    } else if affix in TEXT_AFFIXES {
      TextAffixesArePlain();
    } else {
      PortugueseAffixesArePlain();
    }
  }

  lemma KeywordIsUsable(keyword: string)
    requires keyword in CARD_KEYWORDS || keyword in REDACT_KEYWORDS || keyword in PARTIAL_KEYWORDS
    ensures UsableKeyword(keyword)
  {
    if keyword in CARD_KEYWORDS {
      CardKeywordsAreUsable();
      UsableMember(CARD_KEYWORDS, keyword);
    } else if keyword in REDACT_KEYWORDS {
      RedactKeywordIsUsable(keyword);
    } else {
      PartialKeywordIsUsable(keyword);
    }
  }

  lemma RedactKeywordIsUsable(keyword: string)
    requires keyword in REDACT_KEYWORDS
    ensures UsableKeyword(keyword)
  {
    if keyword in REDACT_SECRETS {
      SecretsAreUsable();
      UsableMember(REDACT_SECRETS, keyword);
    } else if keyword in REDACT_AUTH {
      AuthIsUsable();
      UsableMember(REDACT_AUTH, keyword);
    } else if keyword in REDACT_SESSIONS {
      SessionsAreUsable();
      UsableMember(REDACT_SESSIONS, keyword);
    } else if keyword in REDACT_CLIENTS {
      ClientsAreUsable();
      UsableMember(REDACT_CLIENTS, keyword);
    } else {
      SigningIsUsable();
      UsableMember(REDACT_SIGNING, keyword);
    }
  }

  lemma PartialKeywordIsUsable(keyword: string)
    requires keyword in PARTIAL_KEYWORDS
    ensures UsableKeyword(keyword)
  {
    if keyword in PARTIAL_CODES {
      CodesAreUsable();
      UsableMember(PARTIAL_CODES, keyword);
    } else if keyword in PARTIAL_NUMBERS {
      NumbersAreUsable();
      UsableMember(PARTIAL_NUMBERS, keyword);
    } else if keyword in PARTIAL_PAPERS {
      PapersAreUsable();
      UsableMember(PARTIAL_PAPERS, keyword);
    } else {
      TaxesAreUsable();
      UsableMember(PARTIAL_TAXES, keyword);
    }
  }

  // ---------------------------------------------------------------- fused names

  lemma {:induction false} NoHumps(key: string)
    requires NoCapital(key)
    ensures SpaceHumps(key) == key && Lower(key) == key
  {
    if key != "" {
      assert NoCapital(key[1..]);
      NoHumps(key[1..]);
      assert !Hump(key) && SpaceHumps(key) == [key[0]] + "" + key[1..];
    }
  }

  /** A key of small letters and digits is one word. */
  lemma PlainKeyIsOneWord(key: string)
    requires Plain(key) && key != ""
    ensures SplitKeyIntoWords(key) == [key]
  {
    NoHumps(key);
    assert RunLength(key) == |key| == FirstCut(key);
    assert key[..|key|] == key && key[|key|..] == "" && Runs("") == [];
    assert Runs(key) == [key[..|key|]] + Runs(key[|key|..]);
  }

  /** A short keyword between known fragments hits; a long one hits between anything. */
  lemma FusedKeyHits(before: string, keyword: string, after: string, fragments: set<string>)
    requires keyword != "" && NoCapital(before + keyword + after)
    requires |keyword| <= SHORT_KEYWORD_MAX_LENGTH ==>
               Plain(before + keyword + after) && Known(before, fragments) && Known(after, fragments)
    ensures var key := before + keyword + after; Hit(keyword, Lower(key), SplitKeyIntoWords(key), fragments)
  {
    var key := before + keyword + after;
    NoHumps(key);
    if |keyword| <= SHORT_KEYWORD_MAX_LENGTH {
      PlainKeyIsOneWord(key);
      assert Surrounded(key, keyword, fragments);
    } else {
      assert OccursAt(key, keyword, |before|);
    }
  }

  lemma FusedKeyIsClassified(l: Lexicon, before: string, keyword: string, after: string)
    requires Plain(before) && Known(before, l.fragments) && Plain(after) && Known(after, l.fragments)
    requires UsableKeyword(keyword) && (keyword in l.card || keyword in l.redact || keyword in l.partial)
    ensures var key := before + keyword + after;
            && (keyword in l.card ==> Classified(l, key) == Some(Card))
            && (keyword in l.redact && !HitBy(l, l.card, key) ==> Classified(l, key) == Some(Redact))
            && (keyword in l.partial && !HitBy(l, l.card, key) && !HitBy(l, l.redact, key) ==>
                  Classified(l, key) == Some(Partial))
            && Classified(l, key).Some?
  {
    var key := before + keyword + after;
    FusedKeyHits(before, keyword, after, l.fragments);
    assert keyword in l.card ==> HitBy(l, l.card, key);
    assert keyword in l.redact ==> HitBy(l, l.redact, key);
    assert keyword in l.partial ==> HitBy(l, l.partial, key);
    ClassifiedExactly(l, key);
  }

  /**
   With the repository's lists, a keyword with any of the affixes, or none, fused on to either side is sensitive: a
   card keyword makes it a card, a redacted one is redacted unless a card keyword hits too, and one to be shown in
   part is so unless a keyword of the other lists hits.
   */
  lemma AffixedKeywordIsSensitive(before: string, keyword: string, after: string)
    requires before == "" || before in KEY_AFFIXES
    requires after == "" || after in KEY_AFFIXES
    requires keyword in CARD_KEYWORDS || keyword in REDACT_KEYWORDS || keyword in PARTIAL_KEYWORDS
    ensures var key, l := before + keyword + after, SOURCE_LEXICON;
            && (keyword in CARD_KEYWORDS ==> Classified(l, key) == Some(Card))
            && (keyword in REDACT_KEYWORDS && !HitBy(l, CARD_KEYWORDS, key) ==> Classified(l, key) == Some(Redact))
            && (keyword in PARTIAL_KEYWORDS && !HitBy(l, CARD_KEYWORDS, key) && !HitBy(l, REDACT_KEYWORDS, key) ==>
                  Classified(l, key) == Some(Partial))
            && Classified(l, key).Some?
  {
    SideIsPlain(before);
    SideIsPlain(after);
    KeywordIsUsable(keyword);
    FusedKeyIsClassified(SOURCE_LEXICON, before, keyword, after);
  }

  lemma SideIsPlain(side: string)
    requires side == "" || side in KEY_AFFIXES
    ensures Plain(side) && Known(side, KEY_FRAGMENTS)
  {
    if side != "" {
      AffixIsPlain(side);
    }
  }

  /** The classifier of the service. */
  method MakeClassifier() returns (classifier: Classifier)
    ensures classifier.Valid() && classifier.lexicon == SOURCE_LEXICON && fresh(classifier)
  {
    classifier := new Classifier(SOURCE_LEXICON);
  }
}
