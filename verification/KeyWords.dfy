/** The recognisers behind the sensitive-key classifier: known fragments, keyword occurrences, and words. */
module KeyWords {
  import opened Strings

  const MAX_FRAGMENT_LENGTH: nat := 40

  // ---------------------------------------------------------------- fragments

  ghost predicate Composed(s: string, fragments: set<string>) {
    exists pieces: seq<string> :: (forall p | p in pieces :: p in fragments) && Join(pieces) == s
  }

  /** What `isKnownFragment` stands for: nothing, one fragment, or a short chain of fragments. */
  ghost predicate Known(s: string, fragments: set<string>) {
    s == "" || s in fragments || (|s| <= MAX_FRAGMENT_LENGTH && Composed(s, fragments))
  }

  /** The guard on the length, in figures. */
  lemma KnownExactly(s: string, fragments: set<string>)
    ensures Known(s, fragments) <==> s == "" || s in fragments || (|s| <= 40 && Composed(s, fragments))
  {
  }

  method IsKnownFragment(fragment: string, fragments: set<string>) returns (known: bool)
    ensures known <==> Known(fragment, fragments)
    decreases |fragment|
  {
    if fragment == "" || fragment in fragments {
      return true;
    }
    if |fragment| > MAX_FRAGMENT_LENGTH {
      return false;
    }
    var at := 1;
    while at < |fragment|
      invariant 1 <= at <= |fragment|
      invariant forall k | 1 <= k < at :: !(fragment[..k] in fragments && Known(fragment[k..], fragments))
    {
      if fragment[..at] in fragments {
        var rest := IsKnownFragment(fragment[at..], fragments);
        if rest {
          ComposeFrom(fragment, fragments, at);
          return true;
        }
      }
      at := at + 1;
    }
    if Composed(fragment, fragments) {
      var pieces :| (forall p | p in pieces :: p in fragments) && Join(pieces) == fragment;
      var cut := FirstPiece(fragment, fragments, pieces);
      assert false;
    }
    return false;
  }

  lemma ComposeFrom(s: string, fragments: set<string>, at: nat)
    requires at < |s| && s[..at] in fragments && Known(s[at..], fragments)
    ensures Composed(s, fragments)
  {
    var head, tail := s[..at], s[at..];
    assert s == head + tail;
    var pieces: seq<string>;
    if tail in fragments {
      pieces := [tail];
      assert Join(pieces[1..]) == "";
    } else {
      pieces :| (forall p | p in pieces :: p in fragments) && Join(pieces) == tail;
    }
    var all := [head] + pieces;
    assert all[1..] == pieces;
    assert Join(all) == s;
  }

  lemma {:induction false} FirstPiece(s: string, fragments: set<string>, pieces: seq<string>) returns (at: nat)
    requires s != "" && s !in fragments && |s| <= MAX_FRAGMENT_LENGTH
    requires (forall p | p in pieces :: p in fragments) && Join(pieces) == s
    ensures 1 <= at < |s| && s[..at] in fragments && Known(s[at..], fragments)
    decreases |pieces|
  {
    if pieces[0] == "" {
      assert forall p | p in pieces[1..] :: p in pieces;
      at := FirstPiece(s, fragments, pieces[1..]);
    } else {
      at := |pieces[0]|;
      assert s == pieces[0] + Join(pieces[1..]);
      assert s[..at] == pieces[0] && s[at..] == Join(pieces[1..]);
      assert pieces[0] in pieces;
      assert s[..|s|] == s;
      assert forall p | p in pieces[1..] :: p in pieces;
    }
  }

  // ---------------------------------------------------------------- keyword occurrences

  /** The keyword sits in the word with a known fragment on each side. */
  ghost predicate Surrounded(word: string, keyword: string, fragments: set<string>) {
    exists before, after :: word == before + keyword + after && Known(before, fragments) && Known(after, fragments)
  }

  ghost predicate SurroundedAt(word: string, keyword: string, fragments: set<string>, at: int) {
    OccursAt(word, keyword, at) && Known(word[..at], fragments) && Known(word[at + |keyword|..], fragments)
  }

  lemma SurroundedSomewhere(word: string, keyword: string, fragments: set<string>)
    ensures Surrounded(word, keyword, fragments) <==> exists at :: SurroundedAt(word, keyword, fragments, at)
  {
    if before, after :| word == before + keyword + after && Known(before, fragments) && Known(after, fragments) {
      var at := |before|;
      assert word[..at] == before && word[at + |keyword|..] == after;
      assert SurroundedAt(word, keyword, fragments, at);
    }
    if at :| SurroundedAt(word, keyword, fragments, at) {
      assert word == word[..at] + keyword + word[at + |keyword|..];
    }
  }

  method HasKeywordFragment(word: string, keyword: string, fragments: set<string>) returns (found: bool)
    requires keyword != ""
    ensures found <==> Surrounded(word, keyword, fragments)
  {
    SurroundedSomewhere(word, keyword, fragments);
    var from := 0;
    while true
      invariant 0 <= from <= |word| + 1
      invariant forall k | 0 <= k < from :: !SurroundedAt(word, keyword, fragments, k)
      decreases |word| + 1 - from
    {
      var at := if from > |word| then -1 else IndexOf(word, keyword, from);
      if at == -1 {
        return false;
      }
      var before, after := word[..at], word[at + |keyword|..];
      var knownBefore := IsKnownFragment(before, fragments);
      if knownBefore {
        var knownAfter := IsKnownFragment(after, fragments);
        if knownAfter {
          assert SurroundedAt(word, keyword, fragments, at);
          return true;
        }
      }
      from := at + 1;
    }
  }

  // ---------------------------------------------------------------- words

  predicate IsWordChar(c: char) {
    IsLower(c) || '0' <= c <= '9'
  }

  /** A lower-case letter or digit followed by a capital is the hump of a camel-case key. */
  predicate Hump(s: string) {
    |s| >= 2 && IsWordChar(s[0]) && IsUpper(s[1])
  }

  function SpaceHumps(s: string): string {
    if s == "" then "" else [s[0]] + (if Hump(s) then " " else "") + SpaceHumps(s[1..])
  }

  function RunLength(s: string): (n: nat)
    ensures n <= |s|
    ensures forall k | 0 <= k < n :: IsWordChar(s[k])
    ensures n < |s| ==> !IsWordChar(s[n])
  {
    if s == "" || !IsWordChar(s[0]) then 0 else 1 + RunLength(s[1..])
  }

  function FirstCut(s: string): (cut: nat)
    requires s != ""
    ensures 0 < cut <= |s|
  {
    if RunLength(s) == 0 then 1 else RunLength(s)
  }

  /** Splitting at every stretch of other characters, without the empty pieces. */
  function Runs(s: string): seq<string>
    decreases |s|
  {
    if s == "" then []
    else
      var later := Runs(s[FirstCut(s)..]);
      if RunLength(s) == 0 then later else [s[..RunLength(s)]] + later
  }

  function SplitKeyIntoWords(key: string): seq<string> {
    Runs(Lower(SpaceHumps(key)))
  }

  ghost predicate MaximalRun(s: string, lo: int, hi: int) {
    && 0 <= lo < hi <= |s|
    && (forall k | lo <= k < hi :: IsWordChar(s[k]))
    && (lo == 0 || !IsWordChar(s[lo - 1]))
    && (hi == |s| || !IsWordChar(s[hi]))
  }

  lemma ShiftRun(s: string, cut: nat, lo: int, hi: int)
    requires 0 < cut <= |s| && 0 <= lo
    requires lo == 0 ==> !IsWordChar(s[cut - 1])
    ensures MaximalRun(s[cut..], lo, hi) <==> MaximalRun(s, lo + cut, hi + cut)
    ensures MaximalRun(s, lo + cut, hi + cut) ==> s[cut..][lo..hi] == s[lo + cut..hi + cut]
  {
    if MaximalRun(s, lo + cut, hi + cut) {
      forall k | lo <= k < hi ensures IsWordChar(s[cut..][k]) {
        assert IsWordChar(s[k + cut]);
      }
    }
    if MaximalRun(s[cut..], lo, hi) {
      forall k | lo + cut <= k < hi + cut ensures IsWordChar(s[k]) {
        assert IsWordChar(s[cut..][k - cut]);
      }
    }
  }

  lemma {:induction false} RunIsMaximal(s: string, w: string)
    requires w in Runs(s)
    ensures exists lo, hi :: MaximalRun(s, lo, hi) && s[lo..hi] == w
    decreases |s|
  {
    var n, cut := RunLength(s), FirstCut(s);
    if n > 0 && w == s[..n] {
      assert MaximalRun(s, 0, n) && s[0..n] == s[..n];
    } else {
      RunIsMaximal(s[cut..], w);
      var lo, hi :| MaximalRun(s[cut..], lo, hi) && s[cut..][lo..hi] == w;
      assert IsWordChar(s[cut..][lo]);
      ShiftRun(s, cut, lo, hi);
      assert MaximalRun(s, lo + cut, hi + cut);
    }
  }

  lemma RunAtStart(s: string, hi: int)
    requires MaximalRun(s, 0, hi)
    ensures s[0..hi] in Runs(s)
  {
    var n := RunLength(s);
    assert IsWordChar(s[0]);
    assert n >= hi;
    assert n <= hi;
    assert s[..n] in Runs(s);
  }

  lemma LaterRun(s: string, lo: int, hi: int)
    requires MaximalRun(s, lo, hi) && lo > 0
    ensures var cut := FirstCut(s);
            && cut <= lo && MaximalRun(s[cut..], lo - cut, hi - cut)
            && s[cut..][lo - cut..hi - cut] == s[lo..hi]
  {
    var cut := FirstCut(s);
    assert cut <= lo by {
      assert !IsWordChar(s[lo - 1]);
    }
    assert lo == cut ==> !IsWordChar(s[cut - 1]);
    ShiftRun(s, cut, lo - cut, hi - cut);
  }

  lemma RunsContainTail(s: string, w: string)
    requires s != "" && w in Runs(s[FirstCut(s)..])
    ensures w in Runs(s)
  {
  }

  lemma {:induction false} MaximalIsRun(s: string, lo: int, hi: int, w: string)
    requires MaximalRun(s, lo, hi) && w == s[lo..hi]
    ensures w in Runs(s)
    decreases |s|
  {
    if lo == 0 {
      RunAtStart(s, hi);
    } else {
      LaterRun(s, lo, hi);
      var cut := FirstCut(s);
      MaximalIsRun(s[cut..], lo - cut, hi - cut, w);
      RunsContainTail(s, w);
    }
  }

  /** The pieces are exactly the maximal runs of lower-case letters and digits. */
  lemma RunsAreMaximal(s: string, w: string)
    ensures w in Runs(s) <==> exists lo, hi :: MaximalRun(s, lo, hi) && s[lo..hi] == w
  {
    if w in Runs(s) {
      RunIsMaximal(s, w);
    }
    if lo, hi :| MaximalRun(s, lo, hi) && s[lo..hi] == w {
      MaximalIsRun(s, lo, hi, w);
    }
  }

  // ---------------------------------------------------------------- words are pieces of the lowered key

  lemma {:induction false} UnspacedPrefix(key: string, w: string)
    requires ' ' !in w && w <= Lower(SpaceHumps(key))
    ensures w <= Lower(key)
  {
    if w != "" {
      var spaced := SpaceHumps(key);
      var rest := SpaceHumps(key[1..]);
      if Hump(key) {
        assert spaced == [key[0], ' '] + rest;
        assert Lower(spaced)[1] == ' ';
        assert forall k | 0 <= k < |w| :: w[k] == Lower(spaced)[k];
      } else {
        assert spaced == [key[0]] + rest;
        assert w[1..] <= Lower(rest) by {
          assert Lower(spaced)[1..] == Lower(rest);
        }
        UnspacedPrefix(key[1..], w[1..]);
        assert Lower(key)[1..] == Lower(key[1..]);
        assert w == [w[0]] + w[1..];
      }
    }
  }

  lemma LowerSuffix(s: string, k: nat)
    requires k <= |s|
    ensures Lower(s[k..]) == Lower(s)[k..]
  {
  }

  lemma OccursInSuffix(s: string, piece: string, k: nat, at: int)
    requires k <= |s| && k <= at
    ensures OccursAt(s[k..], piece, at - k) <==> OccursAt(s, piece, at)
  {
    if at + |piece| <= |s| {
      assert s[k..][at - k..at - k + |piece|] == s[at..at + |piece|];
    }
  }

  lemma {:induction false} UnspacedPiece(key: string, w: string)
    requires w != "" && ' ' !in w && Contains(Lower(SpaceHumps(key)), w)
    ensures Contains(Lower(key), w)
  {
    var spaced := SpaceHumps(key);
    var at :| OccursAt(Lower(spaced), w, at);
    if at == 0 {
      UnspacedPrefix(key, w);
      assert OccursAt(Lower(key), w, 0);
    } else {
      var rest := SpaceHumps(key[1..]);
      var skipped := if Hump(key) then 2 else 1;
      assert spaced[skipped..] == rest;
      LowerSuffix(spaced, skipped);
      assert Hump(key) ==> Lower(spaced)[1] == ' ';
      assert Lower(spaced)[at] == w[0];
      OccursInSuffix(Lower(spaced), w, skipped, at);
      UnspacedPiece(key[1..], w);
      var before :| OccursAt(Lower(key[1..]), w, before);
      LowerSuffix(key, 1);
      OccursInSuffix(Lower(key), w, 1, before + 1);
    }
  }

  /** A word is never glued together across a separator: it is a contiguous piece of the lowered key. */
  lemma WordsOccurInKey(key: string, w: string)
    requires w in SplitKeyIntoWords(key)
    ensures w != "" && Contains(Lower(key), w)
  {
    var spaced := Lower(SpaceHumps(key));
    RunsAreMaximal(spaced, w);
    var lo, hi :| MaximalRun(spaced, lo, hi) && spaced[lo..hi] == w;
    assert OccursAt(spaced, w, lo);
    UnspacedPiece(key, w);
  }

  // ---------------------------------------------------------------- where a key is cut

  predicate IsLetterOrDigit(c: char) {
    IsWordChar(c) || IsUpper(c)
  }

  /** A small letter or digit before a capital. */
  predicate HumpBetween(before: char, after: char) {
    IsWordChar(before) && IsUpper(after)
  }

  lemma LowerConcat(a: string, b: string)
    ensures Lower(a + b) == Lower(a) + Lower(b)
  {
  }

  /** What is put between two parts of a key. */
  function Gap(a: string, b: string): string {
    if a != "" && b != "" && HumpBetween(a[|a| - 1], b[0]) then " " else ""
  }

  lemma Reassociate(p: string, u: string, g: string, v: string)
    ensures p + (u + g + v) == (p + u) + g + v
  {
  }

  lemma SpaceHead(c: char, b: string)
    ensures SpaceHumps([c] + b) == [c] + Gap([c], b) + SpaceHumps(b)
  {
    assert ([c] + b)[1..] == b;
    assert Hump([c] + b) <==> Gap([c], b) == " ";
  }

  lemma {:induction false} SpaceConcat(a: string, b: string)
    ensures SpaceHumps(a + b) == SpaceHumps(a) + Gap(a, b) + SpaceHumps(b)
    decreases |a|
  {
    if a == "" {
      assert a + b == b;
    } else {
      var rest := a[1..];
      assert a == [a[0]] + rest && a + b == [a[0]] + (rest + b);
      SpaceHead(a[0], rest);
      SpaceHead(a[0], rest + b);
      SpaceConcat(rest, b);
      if rest == "" {
        assert rest + b == b;
      } else {
        assert Gap(a, b) == Gap(rest, b) && Gap([a[0]], rest + b) == Gap([a[0]], rest);
        Reassociate([a[0]] + Gap([a[0]], rest), SpaceHumps(rest), Gap(rest, b), SpaceHumps(b));
      }
    }
  }

  lemma {:induction false} RunLengthConcat(a: string, c: char, b: string)
    requires !IsWordChar(c)
    ensures RunLength(a + [c] + b) == RunLength(a)
  {
    if a == "" {
      assert (a + [c] + b)[0] == c;
    } else {
      RunLengthConcat(a[1..], c, b);
      assert (a + [c] + b)[1..] == a[1..] + [c] + b;
    }
  }

  lemma {:induction false} RunsConcat(a: string, c: char, b: string)
    requires !IsWordChar(c)
    ensures Runs(a + [c] + b) == Runs(a) + Runs(b)
    decreases |a|
  {
    var s := a + [c] + b;
    RunLengthConcat(a, c, b);
    if a == "" {
      assert s[1..] == b && FirstCut(s) == 1;
    } else {
      var cut := FirstCut(a);
      assert FirstCut(s) == cut && s[cut..] == a[cut..] + [c] + b;
      RunsConcat(a[cut..], c, b);
      if RunLength(a) > 0 {
        assert s[..cut] == a[..cut];
      }
    }
  }

  /** A key is cut in two words at every hump. */
  lemma CutAtHump(a: string, b: string)
    requires a != "" && b != "" && HumpBetween(a[|a| - 1], b[0])
    ensures SplitKeyIntoWords(a + b) == SplitKeyIntoWords(a) + SplitKeyIntoWords(b)
  {
    SpaceConcat(a, b);
    assert Gap(a, b) == " ";
    var left, right := SpaceHumps(a), SpaceHumps(b);
    LowerConcat(left + " ", right);
    LowerConcat(left, " ");
    assert Lower(" ") == [' '];
    RunsConcat(Lower(left), ' ', Lower(right));
  }

  /** And at every character that is no letter or digit. */
  lemma CutAtSeparator(a: string, c: char, b: string)
    requires !IsLetterOrDigit(c)
    ensures SplitKeyIntoWords(a + [c] + b) == SplitKeyIntoWords(a) + SplitKeyIntoWords(b)
  {
    var left, right := SpaceHumps(a), SpaceHumps(b);
    SeparatorStays(a, c, b);
    LowerConcat(left + [c], right);
    LowerConcat(left, [c]);
    assert Lower([c]) == [c];
    RunsConcat(Lower(left), c, Lower(right));
  }

  lemma SeparatorStays(a: string, c: char, b: string)
    requires !IsLetterOrDigit(c)
    ensures SpaceHumps(a + [c] + b) == SpaceHumps(a) + [c] + SpaceHumps(b)
  {
    SpaceHead(c, "");
    assert [c] + "" == [c] && SpaceHumps([c]) == [c];
    SpaceConcat(a, [c]);
    SpaceConcat(a + [c], b);
    assert Gap(a, [c]) == "" && Gap(a + [c], b) == "";
  }

  predicate Humpless(key: string) {
    forall i | 0 < i < |key| :: !HumpBetween(key[i - 1], key[i])
  }

  lemma {:induction false} HumplessStays(key: string)
    requires Humpless(key)
    ensures SpaceHumps(key) == key
  {
    if key != "" {
      var rest := key[1..];
      assert forall i | 0 < i < |rest| :: rest[i - 1] == key[i] && rest[i] == key[i + 1];
      HumplessStays(rest);
      assert !Hump(key) && SpaceHumps(key) == [key[0]] + "" + rest;
    }
  }

  /** And nowhere else: letters and digits without a hump are one word, in small letters. */
  lemma NoOtherCut(key: string)
    requires key != "" && Humpless(key) && forall i | 0 <= i < |key| :: IsLetterOrDigit(key[i])
    ensures SplitKeyIntoWords(key) == [Lower(key)]
  {
    HumplessStays(key);
    var lower := Lower(key);
    assert RunLength(lower) == |lower| == FirstCut(lower);
    assert lower[..|lower|] == lower && lower[|lower|..] == "" && Runs("") == [];
    assert Runs(lower) == [lower[..|lower|]] + Runs(lower[|lower|..]);
  }
}
