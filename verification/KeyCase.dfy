/** Renaming the keys of whole JSON trees: camel case to snake case on publish, and back on consume. */
module KeyCase {
  import opened Strings

  // ---------------------------------------------------------------- one key

  function SplitUnderscores(key: string): (parts: seq<string>)
    ensures |parts| > 0
  {
    if key == "" then [""]
    else if key[0] == '_' then [""] + SplitUnderscores(key[1..])
    else
      var rest := SplitUnderscores(key[1..]);
      [[key[0]] + rest[0]] + rest[1..]
  }

  function Capitalize(part: string): string {
    if part == "" then "" else [UpperChar(part[0])] + part[1..]
  }

  function CapitalizeAll(parts: seq<string>): string {
    if parts == [] then "" else Capitalize(parts[0]) + CapitalizeAll(parts[1..])
  }

  /** Every part but the first is capitalized, and the parts are joined. */
  function SnakeCaseKeyToCamelCase(key: string): string {
    var parts := SplitUnderscores(key);
    parts[0] + CapitalizeAll(parts[1..])
  }

  /** Every capital after the first character becomes an underscore and a small letter. */
  function LowerHumps(key: string): string {
    if key == "" then ""
    else (if IsUpper(key[0]) then ['_', LowerChar(key[0])] else [key[0]]) + LowerHumps(key[1..])
  }

  function CamelCaseKeyToSnakeCase(key: string): string {
    if key == "" then "" else [LowerChar(key[0])] + LowerHumps(key[1..])
  }

  /** The same conversion as a left-to-right scan: `raise` says that an underscore was just skipped. */
  function CamelScan(key: string, raise: bool): string {
    if key == "" then ""
    else if key[0] == '_' then CamelScan(key[1..], true)
    else [if raise then UpperChar(key[0]) else key[0]] + CamelScan(key[1..], false)
  }

  lemma {:induction false} SplitIsScan(key: string)
    ensures SnakeCaseKeyToCamelCase(key) == CamelScan(key, false)
    ensures CapitalizeAll(SplitUnderscores(key)) == CamelScan(key, true)
  {
    if key != "" {
      SplitIsScan(key[1..]);
      var parts, rest := SplitUnderscores(key), SplitUnderscores(key[1..]);
      if key[0] == '_' {
        assert parts[1..] == rest;
      } else {
        assert parts[0] == [key[0]] + rest[0] && parts[0][1..] == rest[0] && parts[1..] == rest[1..];
      }
    }
  }

  datatype Direction = ToCamel | ToSnake

  function ConvertKey(d: Direction, key: string): string {
    match d
    case ToCamel => SnakeCaseKeyToCamelCase(key)
    case ToSnake => CamelCaseKeyToSnakeCase(key)
  }

  /** A key that survives the wire: no underscore, no leading capital. */
  predicate WireKey(key: string) {
    '_' !in key && (key == "" || !IsUpper(key[0]))
  }

  lemma {:induction false} ScanHasNoUnderscore(key: string, raise: bool)
    ensures '_' !in CamelScan(key, raise)
  {
    if key != "" {
      ScanHasNoUnderscore(key[1..], true);
      ScanHasNoUnderscore(key[1..], false);
    }
  }

  lemma {:induction false} ScanKeepsPlain(key: string)
    requires '_' !in key
    ensures CamelScan(key, false) == key
  {
    if key != "" {
      ScanKeepsPlain(key[1..]);
    }
  }

  lemma {:induction false} HumpsHaveNoCapital(key: string)
    ensures forall c | c in LowerHumps(key) :: !IsUpper(c)
  {
    if key != "" {
      HumpsHaveNoCapital(key[1..]);
    }
  }

  lemma {:induction false} HumpsKeepSmall(key: string)
    requires forall c | c in key :: !IsUpper(c)
    ensures LowerHumps(key) == key
  {
    if key != "" {
      HumpsKeepSmall(key[1..]);
    }
  }

  lemma {:induction false} ScanUndoesHumps(key: string)
    requires '_' !in key
    ensures CamelScan(LowerHumps(key), false) == key
  {
    if key != "" {
      ScanUndoesHumps(key[1..]);
      var rest := LowerHumps(key[1..]);
      if IsUpper(key[0]) {
        var humps := LowerHumps(key);
        assert humps[0] == '_' && humps[1..] == [LowerChar(key[0])] + rest;
        assert humps[1..][1..] == rest;
      } else {
        assert LowerHumps(key)[1..] == rest;
      }
    }
  }

  /** Converting a converted key changes nothing. */
  lemma ConvertKeyTwice(d: Direction, key: string)
    ensures ConvertKey(d, ConvertKey(d, key)) == ConvertKey(d, key)
  {
    var once := ConvertKey(d, key);
    SplitIsScan(key);
    SplitIsScan(once);
    match d
    case ToCamel =>
      ScanHasNoUnderscore(key, false);
      ScanKeepsPlain(once);
    case ToSnake =>
      if key != "" {
        HumpsHaveNoCapital(key[1..]);
        HumpsKeepSmall(once[1..]);
      }
  }

  /** Snake case and back restores a key exactly when it has no underscore and no leading capital. */
  lemma KeyRoundTrip(key: string)
    ensures ConvertKey(ToCamel, ConvertKey(ToSnake, key)) == key <==> WireKey(key)
  {
    var snake := CamelCaseKeyToSnakeCase(key);
    SplitIsScan(snake);
    ScanHasNoUnderscore(snake, false);
    if key != "" && '_' !in key {
      ScanUndoesHumps(key[1..]);
      assert snake[1..] == LowerHumps(key[1..]);
      assert CamelScan(snake, false) == [LowerChar(key[0])] + key[1..];
    }
  }

  // ---------------------------------------------------------------- what comes out

  /** A character behind the first one in snake case. */
  function SnakePiece(c: char): string {
    if IsUpper(c) then ['_', LowerChar(c)] else [c]
  }

  function SnakePieces(key: string): seq<string> {
    seq(|key|, i requires 0 <= i < |key| => SnakePiece(key[i]))
  }

  lemma {:induction false} HumpsByCharacter(key: string)
    ensures LowerHumps(key) == Join(SnakePieces(key))
  {
    if key != "" {
      HumpsByCharacter(key[1..]);
      assert SnakePieces(key)[1..] == SnakePieces(key[1..]);
    }
  }

  /** The published key: a small first character, and an underscore before each former capital behind it. */
  lemma SnakeByCharacter(key: string)
    requires key != ""
    ensures ConvertKey(ToSnake, key) == [LowerChar(key[0])] + Join(SnakePieces(key[1..]))
    ensures forall c | c in ConvertKey(ToSnake, key) :: !IsUpper(c)
  {
    HumpsByCharacter(key[1..]);
    HumpsHaveNoCapital(key[1..]);
  }

  /** The i-th character in camel case, after `before`. */
  function CamelPiece(before: char, c: char): string {
    if c == '_' then "" else if before == '_' then [UpperChar(c)] else [c]
  }

  function CamelPieces(before: char, key: string): seq<string> {
    seq(|key|, i requires 0 <= i < |key| => CamelPiece(if i == 0 then before else key[i - 1], key[i]))
  }

  lemma {:induction false} ScanByCharacter(before: char, key: string)
    ensures CamelScan(key, before == '_') == Join(CamelPieces(before, key))
    decreases |key|
  {
    if key != "" {
      ScanByCharacter(key[0], key[1..]);
      assert CamelPieces(before, key)[1..] == CamelPieces(key[0], key[1..]);
    }
  }

  /** The consumed key: underscores are gone, and each character behind one is a capital. */
  lemma CamelByCharacter(key: string)
    ensures ConvertKey(ToCamel, key) == Join(CamelPieces(' ', key))
    ensures '_' !in ConvertKey(ToCamel, key)
  {
    SplitIsScan(key);
    ScanByCharacter(' ', key);
    ScanHasNoUnderscore(key, false);
  }

  // ---------------------------------------------------------------- the properties of one object

  /** A JSON value; an object lists its properties in insertion order.  Dates only occur before publishing. */
  datatype Json =
    | Null | Primitive(text: string) | Date(text: string)
    | Arr(items: seq<Json>) | Obj(entries: seq<(string, Json)>)

  type Entries = seq<(string, Json)>

  function Keys(entries: Entries): set<string> {
    if entries == [] then {} else {entries[0].0} + Keys(entries[1..])
  }

  predicate DistinctKeys(entries: Entries) {
    entries == [] || (entries[0].0 !in Keys(entries[1..]) && DistinctKeys(entries[1..]))
  }

  function Values(entries: Entries): set<Json> {
    set e | e in entries :: e.1
  }

  lemma ValuesSplit(entries: Entries)
    requires entries != []
    ensures Values(entries) == {entries[0].1} + Values(entries[1..])
  {
    assert forall e | e in entries :: e == entries[0] || e in entries[1..];
  }

  /** `result[key] = value`: an existing property keeps its place, a new one goes last. */
  function Assign(entries: Entries, key: string, value: Json): (r: Entries)
    ensures Keys(r) == Keys(entries) + {key}
    ensures DistinctKeys(entries) ==> DistinctKeys(r)
    ensures Values(r) <= Values(entries) + {value}
    ensures key !in Keys(entries) ==> r == entries + [(key, value)]
  {
    if entries == [] then [(key, value)]
    else if entries[0].0 == key then [(key, value)] + entries[1..]
    else
      var rest := Assign(entries[1..], key, value);
      assert ([entries[0]] + rest)[1..] == rest;
      ValuesSplit([entries[0]] + rest);
      ValuesSplit(entries);
      [entries[0]] + rest
  }

  function ConvertedKeys(d: Direction, entries: Entries): set<string> {
    set e | e in entries :: ConvertKey(d, e.0)
  }

  /** Assigns the properties in order, each under its converted key. */
  function RenameOnto(d: Direction, result: Entries, entries: Entries): (r: Entries)
    ensures DistinctKeys(result) ==> DistinctKeys(r)
    ensures Keys(r) == Keys(result) + ConvertedKeys(d, entries)
    ensures Values(r) <= Values(result) + Values(entries)
    decreases |entries|
  {
    if entries == [] then result
    else
      assert forall e | e in entries :: e == entries[0] || e in entries[1..];
      RenameOnto(d, Assign(result, ConvertKey(d, entries[0].0), entries[0].1), entries[1..])
  }

  function Rename(d: Direction, entries: Entries): Entries {
    RenameOnto(d, [], entries)
  }

  lemma RenameStep(d: Direction, result: Entries, entries: Entries, i: nat)
    requires i < |entries|
    ensures RenameOnto(d, result, entries[i..])
            == RenameOnto(d, Assign(result, ConvertKey(d, entries[i].0), entries[i].1), entries[i + 1..])
  {
    assert entries[i..][0] == entries[i] && entries[i..][1..] == entries[i + 1..];
  }

  /** The code's loop; a key that two properties share after conversion keeps the later value. */
  method FormatKeys(d: Direction, entries: Entries) returns (result: Entries)
    ensures result == Rename(d, entries)
    ensures DistinctKeys(result) && Keys(result) == ConvertedKeys(d, entries)
  {
    result := [];
    for i := 0 to |entries|
      invariant RenameOnto(d, result, entries[i..]) == Rename(d, entries)
    {
      RenameStep(d, result, entries, i);
      result := Assign(result, ConvertKey(d, entries[i].0), entries[i].1);
    }
  }

  lemma {:induction false} AssignHolds(entries: Entries, key: string, value: Json, e: (string, Json))
    ensures (key, value) in Assign(entries, key, value)
    ensures e in entries && e.0 != key ==> e in Assign(entries, key, value)
  {
    if entries != [] && entries[0].0 != key {
      AssignHolds(entries[1..], key, value, e);
    }
  }

  lemma {:induction false} RenameKeeps(d: Direction, result: Entries, entries: Entries, e: (string, Json))
    requires e in result && forall i | 0 <= i < |entries| :: ConvertKey(d, entries[i].0) != e.0
    ensures e in RenameOnto(d, result, entries)
    decreases |entries|
  {
    if entries != [] {
      AssignHolds(result, ConvertKey(d, entries[0].0), entries[0].1, e);
      RenameKeeps(d, Assign(result, ConvertKey(d, entries[0].0), entries[0].1), entries[1..], e);
    }
  }

  /** No property from the i-th on is renamed to this key. */
  predicate NoneFrom(d: Direction, entries: Entries, i: nat, key: string) {
    forall j | i <= j < |entries| :: ConvertKey(d, entries[j].0) != key
  }

  lemma NoneInTail(d: Direction, entries: Entries, i: nat, key: string)
    requires entries != [] && i > 0 && NoneFrom(d, entries, i, key)
    ensures NoneFrom(d, entries[1..], i - 1, key)
  {
    assert forall j | 0 <= j < |entries[1..]| :: entries[1..][j] == entries[j + 1];
  }

  lemma LastOneWins(d: Direction, result: Entries, entries: Entries)
    requires entries != [] && NoneFrom(d, entries, 1, ConvertKey(d, entries[0].0))
    ensures (ConvertKey(d, entries[0].0), entries[0].1) in RenameOnto(d, result, entries)
  {
    var e := (ConvertKey(d, entries[0].0), entries[0].1);
    NoneInTail(d, entries, 1, e.0);
    AssignHolds(result, e.0, e.1, e);
    RenameKeeps(d, Assign(result, e.0, e.1), entries[1..], e);
  }

  lemma {:induction false} RenameInTwo(d: Direction, result: Entries, a: Entries, b: Entries)
    ensures RenameOnto(d, result, a + b) == RenameOnto(d, RenameOnto(d, result, a), b)
    decreases |a|
  {
    if a == [] {
      assert a + b == b;
    } else {
      assert (a + b)[1..] == a[1..] + b;
      RenameInTwo(d, Assign(result, ConvertKey(d, a[0].0), a[0].1), a[1..], b);
    }
  }

  lemma NoneInSuffix(d: Direction, entries: Entries, i: nat, key: string)
    requires i < |entries| && NoneFrom(d, entries, i + 1, key)
    ensures entries[i..][0] == entries[i] && NoneFrom(d, entries[i..], 1, key)
  {
    assert forall j | 0 <= j < |entries[i..]| :: entries[i..][j] == entries[i + j];
  }

  lemma RenameFrom(d: Direction, entries: Entries, i: nat)
    requires i < |entries|
    ensures Rename(d, entries) == RenameOnto(d, RenameOnto(d, [], entries[..i]), entries[i..])
  {
    assert entries == entries[..i] + entries[i..];
    RenameInTwo(d, [], entries[..i], entries[i..]);
  }

  /** Of the properties that share a converted key the last one's value is kept. */
  lemma LastWins(d: Direction, entries: Entries, i: nat)
    requires i < |entries| && NoneFrom(d, entries, i + 1, ConvertKey(d, entries[i].0))
    ensures (ConvertKey(d, entries[i].0), entries[i].1) in Rename(d, entries)
  {
    NoneInSuffix(d, entries, i, ConvertKey(d, entries[i].0));
    LastOneWins(d, RenameOnto(d, [], entries[..i]), entries[i..]);
    RenameFrom(d, entries, i);
  }

  // ---------------------------------------------------------------- whole trees

  function IndexKey(i: nat): string {
    if i < 10 then [i as char + '0'] else IndexKey(i / 10) + [(i % 10) as char + '0']
  }

  predicate IsObject(v: Json) {
    v.Null? || v.Arr? || v.Obj?
  }

  /** `Object.entries`: an array lists its elements under their indices. */
  function EntriesOf(v: Json): (r: Entries)
    requires v.Arr? || v.Obj?
    ensures forall x | x in Values(r) :: x < v
  {
    if v.Obj? then
      assert forall e | e in v.entries :: e.1 < e && e < v;
      v.entries
    else seq(|v.items|, i requires 0 <= i < |v.items| => (IndexKey(i), v.items[i]))
  }

  function FilterLayer(d: Direction, v: Json): Json
    decreases v, 1
  {
    match v
    case Arr(items) =>
      Arr(seq(|items|, i requires 0 <= i < |items| => if IsObject(items[i]) then ApplyLayer(d, items[i]) else items[i]))
    case Obj(_) => ApplyLayer(d, v)
    case _ => v
  }

  function ApplyLayer(d: Direction, v: Json): Json
    requires IsObject(v)
    decreases v, 0
  {
    if v.Null? then v
    else
      var renamed := Rename(d, EntriesOf(v));
      Obj(seq(|renamed|, i requires 0 <= i < |renamed| =>
        assert renamed[i] in renamed && renamed[i].1 in Values(renamed);
        (renamed[i].0, FilterLayer(d, renamed[i].1))))
  }

  // ---------------------------------------------------------------- facts about keys

  lemma {:induction false} KeyIn(entries: Entries, i: nat)
    requires i < |entries|
    ensures entries[i].0 in Keys(entries)
  {
    if i > 0 {
      KeyIn(entries[1..], i - 1);
    }
  }

  lemma {:induction false} KeyAtSome(entries: Entries, key: string) returns (i: nat)
    requires key in Keys(entries)
    ensures i < |entries| && entries[i].0 == key
  {
    if entries[0].0 == key {
      i := 0;
    } else {
      var j := KeyAtSome(entries[1..], key);
      i := j + 1;
    }
  }

  lemma {:induction false} SameKeys(a: Entries, b: Entries)
    requires |a| == |b| && forall i | 0 <= i < |a| :: a[i].0 == b[i].0
    ensures Keys(a) == Keys(b) && (DistinctKeys(a) <==> DistinctKeys(b))
  {
    if a != [] {
      assert forall i | 0 <= i < |a[1..]| :: a[1..][i].0 == a[i + 1].0 == b[1..][i].0;
      SameKeys(a[1..], b[1..]);
    }
  }

  lemma {:induction false} DistinctConcat(a: Entries, b: Entries)
    ensures Keys(a + b) == Keys(a) + Keys(b)
    ensures DistinctKeys(a + b) <==> DistinctKeys(a) && DistinctKeys(b) && Keys(a) !! Keys(b)
  {
    if a == [] {
      assert a + b == b;
    } else {
      assert (a + b)[1..] == a[1..] + b;
      DistinctConcat(a[1..], b);
    }
  }

  /** The properties under their converted keys, when no two of them collapse. */
  function Converted(d: Direction, entries: Entries): Entries {
    seq(|entries|, i requires 0 <= i < |entries| => (ConvertKey(d, entries[i].0), entries[i].1))
  }

  lemma DistinctHead(result: Entries, entries: Entries)
    requires entries != [] && DistinctKeys(result + entries)
    ensures entries[0].0 !in Keys(result)
    ensures result + [entries[0]] + entries[1..] == result + entries
  {
    DistinctConcat(result, entries);
  }

  lemma ConvertedTail(d: Direction, entries: Entries)
    requires entries != []
    ensures Converted(d, entries)[1..] == Converted(d, entries[1..])
  {
  }

  lemma {:induction false} RenameWithoutCollapse(d: Direction, result: Entries, entries: Entries)
    requires DistinctKeys(result + Converted(d, entries))
    ensures RenameOnto(d, result, entries) == result + Converted(d, entries)
    decreases |entries|
  {
    var converted := Converted(d, entries);
    if entries == [] {
      assert result + converted == result;
    } else {
      DistinctHead(result, converted);
      ConvertedTail(d, entries);
      RenameWithoutCollapse(d, result + [converted[0]], entries[1..]);
    }
  }

  // ---------------------------------------------------------------- a second conversion is a no-op

  lemma {:induction false} RenamedKeysAreFixed(d: Direction, entries: Entries, i: nat)
    requires i < |Rename(d, entries)|
    ensures ConvertKey(d, Rename(d, entries)[i].0) == Rename(d, entries)[i].0
  {
    KeyIn(Rename(d, entries), i);
    var e :| e in entries && ConvertKey(d, e.0) == Rename(d, entries)[i].0;
    ConvertKeyTwice(d, e.0);
  }

  /** The properties with their values converted, under the keys they have. */
  function Inside(d: Direction, entries: Entries): Entries {
    seq(|entries|, i requires 0 <= i < |entries| => (entries[i].0, FilterLayer(d, entries[i].1)))
  }

  lemma ApplyParts(d: Direction, v: Json)
    requires v.Arr? || v.Obj?
    ensures ApplyLayer(d, v) == Obj(Inside(d, Rename(d, EntriesOf(v))))
  {
    assert ApplyLayer(d, v).entries == Inside(d, Rename(d, EntriesOf(v)));
  }

  lemma InsideSameKeys(d: Direction, entries: Entries)
    ensures Keys(Inside(d, entries)) == Keys(entries) && (DistinctKeys(Inside(d, entries)) <==> DistinctKeys(entries))
  {
    SameKeys(Inside(d, entries), entries);
  }

  /** A list of distinct, already converted keys is renamed to itself. */
  lemma RenameFixed(d: Direction, entries: Entries)
    requires DistinctKeys(entries) && forall i | 0 <= i < |entries| :: ConvertKey(d, entries[i].0) == entries[i].0
    ensures Rename(d, entries) == entries
  {
    assert Converted(d, entries) == entries;
    assert [] + entries == entries;
    RenameWithoutCollapse(d, [], entries);
  }

  lemma RenameTwice(d: Direction, entries: Entries)
    ensures var once := Inside(d, Rename(d, entries)); Rename(d, once) == once
  {
    var once := Inside(d, Rename(d, entries));
    InsideSameKeys(d, Rename(d, entries));
    forall i | 0 <= i < |once| ensures ConvertKey(d, once[i].0) == once[i].0 {
      RenamedKeysAreFixed(d, entries, i);
    }
    RenameFixed(d, once);
  }

  lemma RenamedValueIsInside(d: Direction, v: Json, i: nat)
    requires (v.Arr? || v.Obj?) && i < |Rename(d, EntriesOf(v))|
    ensures Rename(d, EntriesOf(v))[i].1 < v
  {
    var renamed := Rename(d, EntriesOf(v));
    assert renamed[i] in renamed && renamed[i].1 in Values(renamed);
  }

  lemma {:induction false} ApplyTwice(d: Direction, v: Json)
    requires IsObject(v)
    ensures ApplyLayer(d, ApplyLayer(d, v)) == ApplyLayer(d, v)
    decreases v, 0
  {
    if !v.Null? {
      var renamed := Rename(d, EntriesOf(v));
      var once := Inside(d, renamed);
      ApplyParts(d, v);
      RenameTwice(d, EntriesOf(v));
      ApplyParts(d, Obj(once));
      var twice := Inside(d, once);
      forall i | 0 <= i < |once| ensures twice[i] == once[i] {
        RenamedValueIsInside(d, v, i);
        FilterTwice(d, renamed[i].1);
      }
      assert twice == once;
    }
  }

  /** Converting a converted tree changes nothing, whatever its keys and however its arrays are nested. */
  lemma {:induction false} FilterTwice(d: Direction, v: Json)
    ensures FilterLayer(d, FilterLayer(d, v)) == FilterLayer(d, v)
    decreases v, 1
  {
    match v
    case Arr(items) =>
      var once := FilterLayer(d, v).items;
      var twice := FilterLayer(d, Arr(once)).items;
      forall i | 0 <= i < |items| ensures twice[i] == once[i] {
        if IsObject(items[i]) {
          ApplyTwice(d, items[i]);
        }
      }
      assert twice == once;
    case Obj(_) => ApplyTwice(d, v);
    case _ =>
  }

  // ---------------------------------------------------------------- arrays inside arrays

  /** The number a string of decimal digits stands for. */
  function NumberOf(s: string): int {
    if s == "" then 0 else 10 * NumberOf(s[..|s| - 1]) + (s[|s| - 1] as int - '0' as int)
  }

  lemma {:induction false} IndexKeyReads(i: nat)
    ensures NumberOf(IndexKey(i)) == i && IndexKey(i) != ""
    ensures forall c | c in IndexKey(i) :: '0' <= c <= '9'
  {
    var key := IndexKey(i);
    if i >= 10 {
      IndexKeyReads(i / 10);
      assert key[..|key| - 1] == IndexKey(i / 10);
    } else {
      assert key[..|key| - 1] == "" && NumberOf("") == 0;
    }
  }

  lemma IndexKeyStays(d: Direction, i: nat)
    ensures ConvertKey(d, IndexKey(i)) == IndexKey(i)
  {
    var key := IndexKey(i);
    IndexKeyReads(i);
    assert forall c | c in key :: !IsUpper(c) && c != '_';
    if d.ToCamel? {
      SplitIsScan(key);
      ScanKeepsPlain(key);
    } else {
      HumpsKeepSmall(key[1..]);
    }
  }

  lemma {:induction false} DistinctIfUnequal(entries: Entries)
    requires forall i, j | 0 <= i < j < |entries| :: entries[i].0 != entries[j].0
    ensures DistinctKeys(entries)
  {
    if entries != [] {
      var rest := entries[1..];
      assert forall i | 0 <= i < |rest| :: rest[i] == entries[i + 1];
      DistinctIfUnequal(rest);
      if entries[0].0 in Keys(rest) {
        var i := KeyAtSome(rest, entries[0].0);
        assert false;
      }
    }
  }

  /** An array directly inside an array becomes an object of its converted elements under their indices. */
  lemma InnerArrayBecomesObject(d: Direction, items: seq<Json>)
    ensures var r := ApplyLayer(d, Arr(items));
            && r.Obj? && |r.entries| == |items|
            && forall i | 0 <= i < |items| :: r.entries[i] == (IndexKey(i), FilterLayer(d, items[i]))
  {
    var entries := EntriesOf(Arr(items));
    forall i, j | 0 <= i < j < |entries| ensures entries[i].0 != entries[j].0 {
      IndexKeyReads(i);
      IndexKeyReads(j);
    }
    DistinctIfUnequal(entries);
    forall i | 0 <= i < |entries| ensures ConvertKey(d, entries[i].0) == entries[i].0 {
      IndexKeyStays(d, i);
    }
    RenameFixed(d, entries);
    ApplyParts(d, Arr(items));
  }

  // ---------------------------------------------------------------- the keys of a converted tree

  /** What a conversion leaves no trace of: capitals in snake case, underscores in camel case. */
  predicate CleanKey(d: Direction, key: string) {
    match d
    case ToCamel => '_' !in key
    case ToSnake => forall c | c in key :: !IsUpper(c)
  }

  /** Every key of every object in the value. */
  predicate CleanKeys(d: Direction, v: Json) {
    match v
    case Arr(items) => forall i | 0 <= i < |items| :: CleanKeys(d, items[i])
    case Obj(entries) => forall i | 0 <= i < |entries| :: CleanKey(d, entries[i].0) && CleanKeys(d, entries[i].1)
    case _ => true
  }

  lemma ConvertedKeyIsClean(d: Direction, key: string)
    ensures CleanKey(d, ConvertKey(d, key))
  {
    if d.ToCamel? {
      CamelByCharacter(key);
    } else if key != "" {
      SnakeByCharacter(key);
    }
  }

  /** At every depth of a converted tree, whatever the tree, the keys are in the target case. */
  lemma {:induction false} FilterCleans(d: Direction, v: Json)
    ensures CleanKeys(d, FilterLayer(d, v))
    decreases v, 1
  {
    match v
    case Arr(items) =>
      forall i | 0 <= i < |items| ensures CleanKeys(d, FilterLayer(d, v).items[i]) {
        if IsObject(items[i]) {
          ApplyCleans(d, items[i]);
        }
      }
    case Obj(_) => ApplyCleans(d, v);
    case _ =>
  }

  lemma {:induction false} ApplyCleans(d: Direction, v: Json)
    requires IsObject(v)
    ensures CleanKeys(d, ApplyLayer(d, v))
    decreases v, 0
  {
    if !v.Null? {
      var renamed := Rename(d, EntriesOf(v));
      ApplyParts(d, v);
      forall i | 0 <= i < |renamed|
        ensures CleanKey(d, Inside(d, renamed)[i].0) && CleanKeys(d, Inside(d, renamed)[i].1)
      {
        RenamedKeyIsClean(d, EntriesOf(v), i);
        RenamedValueIsInside(d, v, i);
        FilterCleans(d, renamed[i].1);
      }
    }
  }

  lemma RenamedKeyIsClean(d: Direction, entries: Entries, i: nat)
    requires i < |Rename(d, entries)|
    ensures CleanKey(d, Rename(d, entries)[i].0)
  {
    KeyIn(Rename(d, entries), i);
    var e :| e in entries && ConvertKey(d, e.0) == Rename(d, entries)[i].0;
    ConvertedKeyIsClean(d, e.0);
  }

  // ---------------------------------------------------------------- the two conversions in a row

  /** Converted on publishing and back on consuming. */
  function Round(v: Json): Json {
    FilterLayer(ToCamel, FilterLayer(ToSnake, v))
  }

  /** Objects have distinct keys. */
  predicate WellFormed(v: Json) {
    match v
    case Arr(items) => forall i | 0 <= i < |items| :: WellFormed(items[i])
    case Obj(entries) => DistinctKeys(entries) && forall i | 0 <= i < |entries| :: WellFormed(entries[i].1)
    case _ => true
  }

  /** No array directly inside an array, and every key survives both conversions. */
  predicate RoundSafe(v: Json) {
    match v
    case Arr(items) => forall i | 0 <= i < |items| :: !items[i].Arr? && RoundSafe(items[i])
    case Obj(entries) => forall i | 0 <= i < |entries| :: WireKey(entries[i].0) && RoundSafe(entries[i].1)
    case _ => true
  }

  lemma {:induction false} SnakeKeepsDistinct(entries: Entries)
    requires DistinctKeys(entries) && forall i | 0 <= i < |entries| :: WireKey(entries[i].0)
    ensures DistinctKeys(Converted(ToSnake, entries))
  {
    if entries != [] {
      var converted, rest := Converted(ToSnake, entries), entries[1..];
      assert converted[1..] == Converted(ToSnake, rest);
      SnakeKeepsDistinct(rest);
      if converted[0].0 in Keys(converted[1..]) {
        var j := KeyAtSome(converted[1..], converted[0].0);
        KeyRoundTrip(entries[0].0);
        KeyRoundTrip(rest[j].0);
        KeyIn(rest, j);
        assert false;
      }
    }
  }

  lemma ObjectStep(d: Direction, entries: Entries)
    requires DistinctKeys(Converted(d, entries))
    ensures FilterLayer(d, Obj(entries)) == Obj(Inside(d, Converted(d, entries)))
  {
    assert [] + Converted(d, entries) == Converted(d, entries);
    RenameWithoutCollapse(d, [], entries);
    ApplyParts(d, Obj(entries));
  }

  function Travelled(entries: Entries): Entries {
    seq(|entries|, i requires 0 <= i < |entries| => (entries[i].0, Round(entries[i].1)))
  }

  lemma KeysComeBack(entries: Entries)
    requires forall i | 0 <= i < |entries| :: WireKey(entries[i].0)
    ensures var back := Converted(ToCamel, Inside(ToSnake, Converted(ToSnake, entries)));
            && |back| == |entries|
            && forall i | 0 <= i < |entries| :: back[i] == (entries[i].0, FilterLayer(ToSnake, entries[i].1))
  {
    forall i | 0 <= i < |entries| ensures ConvertKey(ToCamel, ConvertKey(ToSnake, entries[i].0)) == entries[i].0 {
      KeyRoundTrip(entries[i].0);
    }
  }

  lemma InsideIsTravelled(back: Entries, entries: Entries)
    requires |back| == |entries|
    requires forall i | 0 <= i < |entries| :: back[i] == (entries[i].0, FilterLayer(ToSnake, entries[i].1))
    ensures Inside(ToCamel, back) == Travelled(entries)
  {
  }

  /** With keys that survive, the trip of an object is the trip of its values. */
  lemma ObjectTrip(entries: Entries)
    requires DistinctKeys(entries) && forall i | 0 <= i < |entries| :: WireKey(entries[i].0)
    ensures Round(Obj(entries)) == Obj(Travelled(entries))
  {
    var snake := Inside(ToSnake, Converted(ToSnake, entries));
    assert FilterLayer(ToSnake, Obj(entries)) == Obj(snake) by {
      SnakeKeepsDistinct(entries);
      ObjectStep(ToSnake, entries);
    }
    var back := Converted(ToCamel, snake);
    KeysComeBack(entries);
    assert FilterLayer(ToCamel, Obj(snake)) == Obj(Inside(ToCamel, back)) by {
      SameKeys(back, entries);
      ObjectStep(ToCamel, snake);
    }
    InsideIsTravelled(back, entries);
  }

  /** An array directly inside an array comes back as an object. */
  lemma ArrayTrip(items: seq<Json>)
    ensures Round(Arr(items)).Arr? && |Round(Arr(items)).items| == |items|
    ensures forall i | 0 <= i < |items| ::
              if items[i].Arr? then Round(Arr(items)).items[i].Obj? else Round(Arr(items)).items[i] == Round(items[i])
  {
    var snake := FilterLayer(ToSnake, Arr(items)).items;
    forall i | 0 <= i < |items|
      ensures if items[i].Arr? then Round(Arr(items)).items[i].Obj? else Round(Arr(items)).items[i] == Round(items[i])
    {
      assert snake[i] == if IsObject(items[i]) then ApplyLayer(ToSnake, items[i]) else items[i];
      assert Round(Arr(items)).items[i] == if IsObject(snake[i]) then ApplyLayer(ToCamel, snake[i]) else snake[i];
    }
  }

  lemma {:induction false} SafeTrip(v: Json)
    requires WellFormed(v) && RoundSafe(v)
    ensures Round(v) == v
  {
    match v
    case Arr(items) =>
      ArrayTrip(items);
      forall i | 0 <= i < |items| ensures Round(v).items[i] == items[i] {
        SafeTrip(items[i]);
      }
      assert Round(v).items == items;
    case Obj(entries) =>
      ObjectTrip(entries);
      forall i | 0 <= i < |entries| ensures Travelled(entries)[i] == entries[i] {
        SafeTrip(entries[i].1);
      }
      assert Travelled(entries) == entries;
    case _ =>
  }

  lemma {:induction false} KeysAreFirsts(entries: Entries)
    ensures Keys(entries) == set e | e in entries :: e.0
  {
    if entries != [] {
      KeysAreFirsts(entries[1..]);
      assert forall e | e in entries :: e == entries[0] || e in entries[1..];
    }
  }

  function KeyImage(d: Direction, keys: set<string>): set<string> {
    set k | k in keys :: ConvertKey(d, k)
  }

  lemma FilteredKeys(d: Direction, entries: Entries)
    ensures FilterLayer(d, Obj(entries)).Obj?
    ensures Keys(FilterLayer(d, Obj(entries)).entries) == KeyImage(d, Keys(entries))
  {
    ApplyParts(d, Obj(entries));
    InsideSameKeys(d, Rename(d, entries));
    KeysAreFirsts(entries);
  }

  /** A key of a returned object went through both conversions. */
  lemma KeysThatReturnAreSafe(entries: Entries)
    requires Round(Obj(entries)) == Obj(entries)
    ensures forall i | 0 <= i < |entries| :: WireKey(entries[i].0)
  {
    var snake := FilterLayer(ToSnake, Obj(entries)).entries;
    FilteredKeys(ToSnake, entries);
    FilteredKeys(ToCamel, snake);
    assert Keys(entries) == KeyImage(ToCamel, KeyImage(ToSnake, Keys(entries)));
    forall key | key in Keys(entries) ensures '_' !in key {
      var k :| k in KeyImage(ToSnake, Keys(entries)) && ConvertKey(ToCamel, k) == key;
      SplitIsScan(k);
      ScanHasNoUnderscore(k, false);
    }
    forall i | 0 <= i < |entries| ensures WireKey(entries[i].0) {
      KeyIn(entries, i);
      var k :| k in KeyImage(ToSnake, Keys(entries)) && ConvertKey(ToCamel, k) == entries[i].0;
      var first :| first in Keys(entries) && ConvertKey(ToSnake, first) == k;
      SmallFirst(first);
    }
  }

  /** Without underscores, the key that comes back starts with a small letter or no letter. */
  lemma SmallFirst(key: string)
    requires '_' !in key
    ensures var back := ConvertKey(ToCamel, ConvertKey(ToSnake, key)); back == "" || !IsUpper(back[0])
  {
    SplitIsScan(CamelCaseKeyToSnakeCase(key));
  }

  lemma {:induction false} ReturnedIsSafe(v: Json)
    requires WellFormed(v) && Round(v) == v
    ensures RoundSafe(v)
  {
    match v
    case Arr(items) =>
      ArrayTrip(items);
      forall i | 0 <= i < |items| ensures !items[i].Arr? && RoundSafe(items[i]) {
        assert Round(v).items[i] == items[i];
        ReturnedIsSafe(items[i]);
      }
    case Obj(entries) =>
      KeysThatReturnAreSafe(entries);
      ObjectTrip(entries);
      forall i | 0 <= i < |entries| ensures RoundSafe(entries[i].1) {
        assert Travelled(entries)[i] == entries[i];
        ReturnedIsSafe(entries[i].1);
      }
    case _ =>
  }

  lemma RoundIsIdentityExactly(v: Json)
    requires WellFormed(v)
    ensures Round(v) == v <==> RoundSafe(v)
  {
    if RoundSafe(v) {
      SafeTrip(v);
    }
    if Round(v) == v {
      ReturnedIsSafe(v);
    }
  }

  // ---------------------------------------------------------------- the wire

  /** `JSON.parse(JSON.stringify(v))`: a date becomes a string. */
  function OverJson(v: Json): Json {
    match v
    case Date(text) => Primitive("\"" + text + "\"")
    case Arr(items) => Arr(seq(|items|, i requires 0 <= i < |items| => OverJson(items[i])))
    case Obj(entries) =>
      Obj(seq(|entries|, i requires 0 <= i < |entries| =>
        assert entries[i] in entries; (entries[i].0, OverJson(entries[i].1))))
    case _ => v
  }

  /** What a consumer's callback receives for a published body. */
  function Wire(v: Json): Json {
    FilterLayer(ToCamel, OverJson(FilterLayer(ToSnake, v)))
  }

  predicate DateFree(v: Json) {
    match v
    case Date(_) => false
    case Arr(items) => forall i | 0 <= i < |items| :: DateFree(items[i])
    case Obj(entries) => forall i | 0 <= i < |entries| :: DateFree(entries[i].1)
    case _ => true
  }

  /** No date, no array directly inside an array, and every key survives both conversions. */
  predicate WireSafe(v: Json) {
    DateFree(v) && RoundSafe(v)
  }

  /** JSON text holds no dates and leaves everything else as it is. */
  lemma {:induction false} OverJsonDates(v: Json)
    ensures DateFree(OverJson(v)) && (DateFree(v) ==> OverJson(v) == v)
  {
    match v
    case Arr(items) =>
      var parsed := OverJson(v).items;
      forall i | 0 <= i < |items| ensures DateFree(parsed[i]) && (DateFree(items[i]) ==> parsed[i] == items[i]) {
        OverJsonDates(items[i]);
      }
      assert DateFree(v) ==> parsed == items;
    case Obj(entries) =>
      var parsed := OverJson(v).entries;
      forall i | 0 <= i < |entries|
        ensures DateFree(parsed[i].1) && (DateFree(entries[i].1) ==> parsed[i] == entries[i])
      {
        assert entries[i] in entries;
        OverJsonDates(entries[i].1);
      }
      assert DateFree(v) ==> parsed == entries;
    case _ =>
  }

  /** Converting keys makes no dates. */
  lemma {:induction false} FilterDates(d: Direction, v: Json)
    requires DateFree(v)
    ensures DateFree(FilterLayer(d, v))
    decreases v, 1
  {
    match v
    case Arr(items) =>
      forall i | 0 <= i < |items| ensures DateFree(FilterLayer(d, v).items[i]) {
        if IsObject(items[i]) {
          ApplyDates(d, items[i]);
        }
      }
    case Obj(_) => ApplyDates(d, v);
    case _ =>
  }

  lemma {:induction false} ApplyDates(d: Direction, v: Json)
    requires IsObject(v) && DateFree(v)
    ensures DateFree(ApplyLayer(d, v))
    decreases v, 0
  {
    if !v.Null? {
      var renamed := Rename(d, EntriesOf(v));
      ApplyParts(d, v);
      forall i | 0 <= i < |renamed| ensures DateFree(Inside(d, renamed)[i].1) {
        RenamedValueIsInside(d, v, i);
        var e := RenamedFrom(d, EntriesOf(v), i);
        EntryHasNoDate(v, e);
        FilterDates(d, renamed[i].1);
      }
    }
  }

  lemma EntryHasNoDate(v: Json, e: (string, Json))
    requires (v.Arr? || v.Obj?) && DateFree(v) && e in EntriesOf(v)
    ensures DateFree(e.1)
  {
  }

  lemma RenamedFrom(d: Direction, entries: Entries, i: nat) returns (e: (string, Json))
    requires i < |Rename(d, entries)|
    ensures e in entries && e.1 == Rename(d, entries)[i].1
  {
    var renamed := Rename(d, entries);
    assert renamed[i] in renamed && renamed[i].1 in Values(renamed);
    e :| e in entries && e.1 == renamed[i].1;
  }

  /**
   The callback receives the published body exactly when there is no date in it, no array directly inside an array,
   and every key survives.
   */
  lemma WireIsIdentityExactly(v: Json)
    requires WellFormed(v)
    ensures Wire(v) == v <==> WireSafe(v)
  {
    var snake := FilterLayer(ToSnake, v);
    OverJsonDates(snake);
    if DateFree(v) {
      FilterDates(ToSnake, v);
    }
    if Wire(v) == v {
      FilterDates(ToCamel, OverJson(snake));
    }
    RoundIsIdentityExactly(v);
  }
}
