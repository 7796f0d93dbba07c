/**
 The nested select: a schema tree is flattened into delimited column names, and every row that comes back
 is rebuilt into a tree.  Objects are finite maps, so each loop over entries may run in any order.
 */
module FormattedSelect {
  import opened Options
  import opened Strings

  const DELIMITER: string := ".#@KNEX@#."

  datatype Tree<+V> = Leaf(value: V) | Node(children: map<string, Tree<V>>)

  type Path = ks: seq<string> | |ks| > 0 witness [""]

  // ---------------------------------------------------------------- trees and their leaves

  function Lookup<V>(t: Tree<V>, ks: seq<string>): Option<V>
    decreases |ks|
  {
    match t
    case Leaf(v) => if ks == [] then Some(v) else None
    case Node(children) => if ks != [] && ks[0] in children then Lookup(children[ks[0]], ks[1..]) else None
  }

  /** No node is empty. */
  predicate FullTree<V>(t: Tree<V>) {
    t.Leaf? || (t.children != map[] && forall k | k in t.children :: FullTree(t.children[k]))
  }

  /** No node below the root is empty. */
  predicate Full<V>(children: map<string, Tree<V>>) {
    forall k | k in children :: FullTree(children[k])
  }

  lemma {:induction false} SomeLeaf<V>(t: Tree<V>) returns (ks: seq<string>)
    requires FullTree(t)
    ensures Lookup(t, ks).Some?
    decreases t
  {
    if t.Leaf? {
      ks := [];
    } else {
      var k :| k in t.children;
      var rest := SomeLeaf(t.children[k]);
      ks := [k] + rest;
    }
  }

  /** No leaf sits on the way to another. */
  lemma {:induction false} LeavesArePrefixFree<V>(t: Tree<V>, a: seq<string>, b: seq<string>)
    requires Lookup(t, a).Some? && Lookup(t, b).Some? && a <= b
    ensures a == b
    decreases |a|
  {
    if t.Node? {
      LeavesArePrefixFree(t.children[a[0]], a[1..], b[1..]);
    }
  }

  /** A tree without empty nodes is determined by its leaves. */
  lemma {:induction false} LeavesDetermine<V(!new)>(t: Tree<V>, u: Tree<V>)
    requires FullTree(t) && FullTree(u)
    requires forall ks :: Lookup(t, ks) == Lookup(u, ks)
    ensures t == u
    decreases t
  {
    assert Lookup(t, []) == Lookup(u, []);
    if t.Node? {
      SameLeavesSameChildren(t.children, u.children);
    }
  }

  lemma {:induction false} SameLeavesSameChildren<V(!new)>(a: map<string, Tree<V>>, b: map<string, Tree<V>>)
    requires Full(a) && Full(b)
    requires forall ks :: Lookup(Node(a), ks) == Lookup(Node(b), ks)
    ensures a == b
    decreases Node(a), 0
  {
    ChildKeys(a, b);
    ChildKeys(b, a);
    forall k | k in a ensures a[k] == b[k] {
      forall ks ensures Lookup(a[k], ks) == Lookup(b[k], ks) {
        assert Lookup(Node(a), [k] + ks) == Lookup(Node(b), [k] + ks);
      }
      LeavesDetermine(a[k], b[k]);
    }
  }

  lemma ChildKeys<V(!new)>(a: map<string, Tree<V>>, b: map<string, Tree<V>>)
    requires Full(a)
    requires forall ks :: Lookup(Node(a), ks) == Lookup(Node(b), ks)
    ensures a.Keys <= b.Keys
  {
    forall k | k in a ensures k in b {
      var ks := SomeLeaf(a[k]);
      assert Lookup(Node(a), [k] + ks).Some?;
    }
  }

  // ---------------------------------------------------------------- column names

  /** `[previousPath, key].join(DELIMITER)`, except that an empty previous path counts as none. */
  function PathOf(previous: string, key: string): string {
    if previous != "" then previous + DELIMITER + key else key
  }

  /** The column name of a leaf, built key by key from the path of its parent. */
  function ColumnFrom(previous: string, ks: seq<string>): string
    decreases |ks|
  {
    if ks == [] then previous else ColumnFrom(PathOf(previous, ks[0]), ks[1..])
  }

  function Column(ks: seq<string>): string {
    ColumnFrom("", ks)
  }

  function JoinKeys(ks: Path): string {
    if |ks| == 1 then ks[0] else ks[0] + DELIMITER + JoinKeys(ks[1..])
  }

  /** `name.split(DELIMITER)`. */
  function Split(name: string): Path
    decreases |name|
  {
    var at := IndexOf(name, DELIMITER, 0);
    if at == -1 then [name] else [name[..at]] + Split(name[at + |DELIMITER|..])
  }

  lemma Around(s: string, piece: string, at: int)
    requires OccursAt(s, piece, at)
    ensures s == s[..at] + piece + s[at + |piece|..]
  {
    assert s == s[..at] + s[at..at + |piece|] + s[at + |piece|..];
  }

  lemma {:induction false} JoinSplit(name: string)
    ensures JoinKeys(Split(name)) == name
    decreases |name|
  {
    var at := IndexOf(name, DELIMITER, 0);
    if at != -1 {
      var rest := name[at + |DELIMITER|..];
      JoinSplit(rest);
      Around(name, DELIMITER, at);
      assert Split(name)[0] == name[..at] && Split(name)[1..] == Split(rest);
    }
  }

  /** A key above other keys: no delimiter begins inside it, not even one completed by the next delimiter. */
  predicate InnerKey(k: string) {
    IndexOf(k + DELIMITER, DELIMITER, 0) == |k|
  }

  predicate LeafKey(k: string) {
    IndexOf(k, DELIMITER, 0) == -1
  }

  predicate SplitKeys(ks: Path) {
    LeafKey(ks[|ks| - 1]) && forall i | 0 <= i < |ks| - 1 :: InnerKey(ks[i])
  }

  lemma FirstDelimiter(k: string, rest: string)
    ensures IndexOf(k + DELIMITER + rest, DELIMITER, 0) == |k| <==> InnerKey(k)
    ensures 0 <= IndexOf(k + DELIMITER + rest, DELIMITER, 0) <= |k|
  {
    var short, long := k + DELIMITER, k + DELIMITER + rest;
    assert OccursAt(short, DELIMITER, |k|) && OccursAt(long, DELIMITER, |k|);
    forall at | 0 <= at <= |k| ensures OccursAt(short, DELIMITER, at) <==> OccursAt(long, DELIMITER, at) {
      assert short[at..at + |DELIMITER|] == long[at..at + |DELIMITER|];
    }
  }

  lemma SplitFirst(name: string)
    requires IndexOf(name, DELIMITER, 0) != -1
    ensures var at := IndexOf(name, DELIMITER, 0);
            && 0 <= at && at + |DELIMITER| <= |name|
            && Split(name)[0] == name[..at] && Split(name)[1..] == Split(name[at + |DELIMITER|..]) && |Split(name)| > 1
  {
  }

  lemma SplitJoined(first: string, rest: string)
    ensures var ks := Split(first + DELIMITER + rest);
            if InnerKey(first) then |ks| > 1 && ks[0] == first && ks[1..] == Split(rest) else ks[0] != first
  {
    var name := first + DELIMITER + rest;
    FirstDelimiter(first, rest);
    SplitFirst(name);
    if InnerKey(first) {
      assert name[..|first|] == first && name[|first| + |DELIMITER|..] == rest;
    }
  }

  lemma HeadAndTail(a: Path, b: Path)
    ensures a == b <==> a[0] == b[0] && a[1..] == b[1..]
  {
    assert a == [a[0]] + a[1..] && b == [b[0]] + b[1..];
  }

  /** Splitting a joined name returns its keys exactly when no key contains or helps complete a delimiter. */
  lemma {:induction false} SplitJoinExactly(ks: Path)
    ensures Split(JoinKeys(ks)) == ks <==> SplitKeys(ks)
    decreases |ks|
  {
    if |ks| == 1 {
      if IndexOf(ks[0], DELIMITER, 0) != -1 {
        SplitFirst(ks[0]);
      }
    } else {
      var tail: Path := ks[1..];
      SplitJoinExactly(tail);
      SplitJoined(ks[0], JoinKeys(tail));
      SplitKeysTail(ks);
      HeadAndTail(Split(JoinKeys(ks)), ks);
    }
  }

  lemma SplitKeysTail(ks: Path)
    requires |ks| > 1
    ensures SplitKeys(ks) <==> InnerKey(ks[0]) && SplitKeys(ks[1..])
  {
    var tail: Path := ks[1..];
    assert forall i | 0 <= i < |tail| :: tail[i] == ks[i + 1];
    if SplitKeys(tail) && InnerKey(ks[0]) {
      forall i | 0 <= i < |ks| - 1 ensures InnerKey(ks[i]) {
        assert i > 0 ==> InnerKey(tail[i - 1]);
      }
    }
  }

  /** Leading empty keys above other keys leave no trace in a column name. */
  function DropEmpty(ks: Path): (r: Path)
    ensures |r| <= |ks| && r == ks[|ks| - |r|..]
    ensures |r| == 1 || r[0] != ""
    ensures r == ks || (|ks| > 1 && ks[0] == "")
  {
    if |ks| > 1 && ks[0] == "" then DropEmpty(ks[1..]) else ks
  }

  lemma Reassociate(a: string, d: string, b: string, c: string)
    ensures a + d + b + d + c == a + d + (b + d + c)
  {
  }

  lemma {:induction false} ColumnFromJoins(previous: string, ks: Path)
    requires previous != ""
    ensures ColumnFrom(previous, ks) == previous + DELIMITER + JoinKeys(ks)
    decreases |ks|
  {
    var next := PathOf(previous, ks[0]);
    if |ks| == 1 {
      assert ColumnFrom(next, ks[1..]) == next;
    } else {
      var rest := JoinKeys(ks[1..]);
      ColumnFromJoins(next, ks[1..]);
      Reassociate(previous, DELIMITER, ks[0], rest);
    }
  }

  lemma {:induction false} ColumnJoins(ks: Path)
    ensures Column(ks) == JoinKeys(DropEmpty(ks))
    decreases |ks|
  {
    if |ks| == 1 {
      assert ColumnFrom(ks[0], ks[1..]) == ks[0];
    } else if ks[0] == "" {
      ColumnJoins(ks[1..]);
    } else {
      ColumnFromJoins(ks[0], ks[1..]);
    }
  }

  /** The name of a column below one object, written out. */
  lemma ColumnOfTwo(a: string, b: string)
    requires a != ""
    ensures Column([a, b]) == a + ".#@KNEX@#." + b
  {
    var keys := [a, b];
    assert keys[1..] == [b] && [b][1..] == [];
    assert ColumnFrom("", keys) == ColumnFrom(PathOf("", a), [b]);
    assert ColumnFrom(a, [b]) == ColumnFrom(PathOf(a, b), []);
  }

  // ---------------------------------------------------------------- rebuilding a row

  /**
   The walk along the chunks of one column name: missing objects are created on the way and the value is
   written at the end.  `None` is the exception of writing a property on a value that is not an object.
   */
  function Insert<W>(o: map<string, Tree<W>>, chunks: Path, value: W): Option<map<string, Tree<W>>>
    decreases |chunks|
  {
    if |chunks| == 1 then Some(o[chunks[0] := Leaf(value)])
    else
      var child := if chunks[0] in o then o[chunks[0]] else Node(map[]);
      if child.Leaf? then None
      else
        var below := Insert(child.children, chunks[1..], value);
        if below.None? then None else Some(o[chunks[0] := Node(below.value)])
  }

  lemma {:induction false} InsertAdds<W(!new)>(o: map<string, Tree<W>>, chunks: Path, value: W)
    requires Full(o) && Insert(o, chunks, value).Some?
    ensures var r := Insert(o, chunks, value).value;
            && Full(r) && r != map[] && Lookup(Node(r), chunks) == Some(value)
            && forall ks | Lookup(Node(r), ks).Some? && ks != chunks :: Lookup(Node(o), ks) == Lookup(Node(r), ks)
    decreases |chunks|
  {
    var r := Insert(o, chunks, value).value;
    var k := chunks[0];
    if |chunks| == 1 {
      assert chunks[1..] == [] && Lookup(r[k], []) == Some(value);
      assert Lookup(Node(r), chunks) == Some(value);
      assert chunks == [k];
      forall ks | Lookup(Node(r), ks).Some? && ks != chunks ensures Lookup(Node(o), ks) == Lookup(Node(r), ks) {
        assert ks == [ks[0]] + ks[1..];
      }
    } else {
      var below := if k in o then o[k].children else map[];
      InsertAdds(below, chunks[1..], value);
      assert Lookup(Node(r), chunks) == Lookup(r[k], chunks[1..]) == Some(value);
      forall ks | Lookup(Node(r), ks).Some? && ks != chunks ensures Lookup(Node(o), ks) == Lookup(Node(r), ks) {
        if ks[0] == k {
          assert ks == [k] + ks[1..] && chunks == [k] + chunks[1..];
          assert Lookup(Node(below), ks[1..]).Some?;
        }
      }
    }
  }

  /** No leaf of the object lies on the way to the chunks, nor below them. */
  ghost predicate Apart<W(!new)>(o: map<string, Tree<W>>, chunks: Path) {
    forall ks | Lookup(Node(o), ks).Some? :: !(ks <= chunks) && !(chunks <= ks)
  }

  lemma {:induction false} InsertKeeps<W(!new)>(o: map<string, Tree<W>>, chunks: Path, value: W)
    requires Full(o) && Apart(o, chunks)
    ensures var r := Insert(o, chunks, value);
            r.Some? && forall ks | Lookup(Node(o), ks).Some? :: Lookup(Node(r.value), ks) == Lookup(Node(o), ks)
    decreases |chunks|
  {
    var k := chunks[0];
    if k in o {
      var rest := SomeLeaf(o[k]);
      assert Lookup(Node(o), [k] + rest).Some?;
      assert |chunks| == 1 ==> chunks <= [k] + rest;
      assert o[k].Leaf? ==> [k] + [] <= chunks && Lookup(Node(o), [k] + []).Some?;
    }
    if |chunks| > 1 {
      var below := if k in o then o[k].children else map[];
      forall ks | Lookup(Node(below), ks).Some? ensures !(ks <= chunks[1..]) && !(chunks[1..] <= ks) {
        var longer := [k] + ks;
        assert Lookup(Node(o), longer).Some?;
        assert longer <= chunks <==> ks <= chunks[1..];
        assert chunks <= longer <==> chunks[1..] <= ks;
      }
      InsertKeeps(below, chunks[1..], value);
    }
  }

  /** Everything in the object comes from a column of the row, under the chunks of its name. */
  ghost predicate FromRow<W(!new)>(row: map<string, W>, o: map<string, Tree<W>>) {
    && Full(o)
    && forall ks: Path | Lookup(Node(o), ks).Some? ::
         && JoinKeys(ks) in row && Split(JoinKeys(ks)) == ks
         && Lookup(Node(o), ks) == Some(row[JoinKeys(ks)])
  }

  ghost predicate HoldsColumns<W(!new)>(row: map<string, W>, names: set<string>, o: map<string, Tree<W>>) {
    forall name | name in names && name in row :: Lookup(Node(o), Split(name)) == Some(row[name])
  }

  /** No column name runs through another. */
  predicate PrefixFree<W>(row: map<string, W>) {
    forall a, b | a in row && b in row && Split(a) <= Split(b) :: a == b
  }

  lemma ColumnIsApart<W(!new)>(row: map<string, W>, seen: set<string>, o: map<string, Tree<W>>, name: string)
    requires PrefixFree(row) && name in row && name !in seen
    requires FromRow(map n | n in row && n in seen :: row[n], o)
    ensures Apart(o, Split(name))
  {
    forall ks | Lookup(Node(o), ks).Some? ensures !(ks <= Split(name)) && !(Split(name) <= ks) {
      var path: Path := ks;
      assert JoinKeys(path) in row && JoinKeys(path) in seen && Split(JoinKeys(path)) == path;
    }
  }

  /**
   Rebuilds one row, visiting its columns in any order.  When no column name runs through another, nothing
   fails and nothing is overwritten.
   */
  method ParseValue<W(!new)>(row: map<string, W>) returns (object_: Option<map<string, Tree<W>>>)
    ensures object_.Some? ==> FromRow(row, object_.value)
    ensures PrefixFree(row) ==> object_.Some? && HoldsColumns(row, row.Keys, object_.value)
  {
    var o: map<string, Tree<W>> := map[];
    var entries := row.Keys;
    while entries != {}
      invariant entries <= row.Keys
      invariant FromRow(map n | n in row && n in row.Keys - entries :: row[n], o)
      invariant PrefixFree(row) ==> HoldsColumns(row, row.Keys - entries, o)
      decreases |entries|
    {
      var name :| name in entries;
      var chunks := Split(name);
      ghost var seen := row.Keys - entries;
      if PrefixFree(row) {
        ColumnIsApart(row, seen, o, name);
        InsertKeeps(o, chunks, row[name]);
      }
      JoinSplit(name);
      var next := Insert(o, chunks, row[name]);
      if next.None? {
        return None;
      }
      InsertAdds(o, chunks, row[name]);
      StepFromRow(row, seen, o, name, next.value);
      assert row.Keys - (entries - {name}) == seen + {name};
      o, entries := next.value, entries - {name};
    }
    assert (map n | n in row && n in row.Keys - {} :: row[n]) == row;
    object_ := Some(o);
  }

  lemma StepFromRow<W(!new)>(row: map<string, W>, seen: set<string>, o: map<string, Tree<W>>, name: string,
                             next: map<string, Tree<W>>)
    requires name in row && FromRow(map n | n in row && n in seen :: row[n], o)
    requires Full(next) && JoinKeys(Split(name)) == name
    requires forall ks | Lookup(Node(next), ks).Some? && ks != Split(name) ::
               Lookup(Node(o), ks) == Lookup(Node(next), ks)
    requires Lookup(Node(next), Split(name)) == Some(row[name])
    ensures FromRow(map n | n in row && n in seen + {name} :: row[n], next)
  {
    forall ks: Path | Lookup(Node(next), ks).Some?
      ensures && JoinKeys(ks) in row && JoinKeys(ks) in seen + {name} && Split(JoinKeys(ks)) == ks
              && Lookup(Node(next), ks) == Some(row[JoinKeys(ks)])
    {
      if ks != Split(name) {
        assert Lookup(Node(o), ks).Some?;
      }
    }
  }

  // ---------------------------------------------------------------- flattening a schema

  /** The select has one column for each leaf of the schema, under the leaf's column name. */
  ghost predicate SelectOf<V(!new)>(schema: map<string, Tree<V>>, select: map<string, V>) {
    && (forall ks: Path | Lookup(Node(schema), ks).Some? :: Column(ks) in select)
    && forall name | name in select :: ColumnOf(schema, "", name, select[name])
  }

  ghost predicate ColumnOf<V(!new)>(schema: map<string, Tree<V>>, previous: string, name: string, value: V) {
    exists ks: Path :: Lookup(Node(schema), ks) == Some(value) && name == ColumnFrom(previous, ks)
  }

  /** The columns stand for these leaves below these keys, one column for each leaf. */
  ghost predicate Pairs<V(!new)>(children: map<string, Tree<V>>, keys: set<string>, previous: string,
                                 columns: seq<(string, V)>, leaves: seq<Path>)
  {
    && |leaves| == |columns|
    && (forall i | 0 <= i < |leaves| ::
          && leaves[i][0] in keys
          && Lookup(Node(children), leaves[i]) == Some(columns[i].1) && columns[i].0 == ColumnFrom(previous, leaves[i]))
    && (forall i, j | 0 <= i < j < |leaves| :: leaves[i] != leaves[j])
    && forall ks: Path | ks[0] in keys && Lookup(Node(children), ks).Some? :: ks in leaves
  }

  /** One column for each leaf below the object, under the name that starts with the previous path. */
  ghost predicate OneColumnEach<V(!new)>(children: map<string, Tree<V>>, previous: string, columns: seq<(string, V)>) {
    exists leaves :: Pairs(children, children.Keys, previous, columns, leaves)
  }

  /** `getPath`: pushes the columns below an object onto the shared list. */
  method GetPath<V(!new)>(object_: Tree<V>, previous: string, paths: seq<(string, V)>)
    returns (pushed: seq<(string, V)>)
    requires object_.Node?
    ensures paths <= pushed && OneColumnEach(object_.children, previous, pushed[|paths|..])
    decreases object_, 1
  {
    pushed := paths;
    var entries := object_.children.Keys;
    ghost var columns: seq<(string, V)>, leaves: seq<Path> := [], [];
    while entries != {}
      invariant entries <= object_.children.Keys && pushed == paths + columns
      invariant Pairs(object_.children, object_.children.Keys - entries, previous, columns, leaves)
      decreases |entries|
    {
      var key :| key in entries;
      ghost var seen, added := object_.children.Keys - entries, [];
      pushed, added := PushKey(object_, key, previous, pushed);
      leaves := KeyPushed(object_.children, key, previous, columns, added, seen, leaves);
      OneMore(paths, columns, added, object_.children.Keys, entries, key);
      columns, entries := columns + added, entries - {key};
    }
    assert object_.children.Keys - {} == object_.children.Keys;
    assert pushed[|paths|..] == columns;
  }

  lemma OneMore<V>(paths: seq<V>, columns: seq<V>, added: seq<V>, keys: set<string>, entries: set<string>, key: string)
    requires key in entries && entries <= keys
    ensures (paths + columns) + added == paths + (columns + added)
    ensures keys - (entries - {key}) == keys - entries + {key}
  {
  }

  /** The callback of the loop over the entries. */
  method PushKey<V(!new)>(object_: Tree<V>, key: string, previous: string, paths: seq<(string, V)>)
    returns (pushed: seq<(string, V)>, ghost added: seq<(string, V)>)
    requires object_.Node? && key in object_.children
    ensures pushed == paths + added && Below(object_.children[key], PathOf(previous, key), added)
    decreases object_, 0
  {
    var value := object_.children[key];
    var path := PathOf(previous, key);
    if value.Node? {
      pushed := GetPath(value, path, paths);
      added := pushed[|paths|..];
    } else {
      pushed, added := paths + [(path, value.value)], [(path, value.value)];
    }
  }

  lemma KeyPushed<V(!new)>(children: map<string, Tree<V>>, key: string, previous: string, before: seq<(string, V)>,
                           columns: seq<(string, V)>, seen: set<string>, leaves: seq<Path>)
    returns (more: seq<Path>)
    requires key in children && key !in seen && Pairs(children, seen, previous, before, leaves)
    requires Below(children[key], PathOf(previous, key), columns)
    ensures Pairs(children, seen + {key}, previous, before + columns, more)
  {
    var added := ColumnsOfKey(children, key, previous, columns);
    PairsJoin(children, seen, key, previous, before, leaves, columns, added);
    more := leaves + added;
  }

  /** The columns pushed for one key: those of its subtree, or the key's own. */
  ghost predicate Below<V(!new)>(child: Tree<V>, path: string, columns: seq<(string, V)>) {
    if child.Node? then OneColumnEach(child.children, path, columns) else columns == [(path, child.value)]
  }

  lemma ColumnsOfKey<V(!new)>(children: map<string, Tree<V>>, key: string, previous: string, columns: seq<(string, V)>)
    returns (leaves: seq<Path>)
    requires key in children && Below(children[key], PathOf(previous, key), columns)
    ensures Pairs(children, {key}, previous, columns, leaves)
  {
    if children[key].Node? {
      var path, inner := PathOf(previous, key), children[key].children;
      var below: seq<Path> :| Pairs(inner, inner.Keys, path, columns, below);
      leaves := UnderKey(children, key, previous, columns, below);
    } else {
      var leaf: Path := [key];
      assert leaf[1..] == [] && Lookup(children[key], leaf[1..]) == Some(children[key].value);
      leaves := [leaf];
      forall ks: Path | ks[0] == key && Lookup(Node(children), ks).Some? ensures ks == leaf {
        assert Lookup(children[key], ks[1..]).Some?;
        assert ks == [key] + ks[1..];
      }
    }
  }

  function Prefixed(key: string, leaves: seq<Path>): (r: seq<Path>)
    ensures |r| == |leaves| && forall i | 0 <= i < |r| :: r[i] == [key] + leaves[i]
  {
    seq(|leaves|, i requires 0 <= i < |leaves| => [key] + leaves[i])
  }

  lemma UnderKey<V(!new)>(children: map<string, Tree<V>>, key: string, previous: string, columns: seq<(string, V)>,
                          below: seq<Path>)
    returns (leaves: seq<Path>)
    requires key in children && children[key].Node?
    requires Pairs(children[key].children, children[key].children.Keys, PathOf(previous, key), columns, below)
    ensures Pairs(children, {key}, previous, columns, leaves)
  {
    var child, path := children[key], PathOf(previous, key);
    leaves := Prefixed(key, below);
    forall i | 0 <= i < |leaves|
      ensures leaves[i][0] == key && Lookup(Node(children), leaves[i]) == Some(columns[i].1)
      ensures columns[i].0 == ColumnFrom(previous, leaves[i])
    {
      assert leaves[i][1..] == below[i] && Lookup(child, below[i]) == Some(columns[i].1);
      assert ColumnFrom(previous, leaves[i]) == ColumnFrom(path, below[i]);
    }
    forall i, j | 0 <= i < j < |leaves| ensures leaves[i] != leaves[j] {
      assert leaves[i][1..] == below[i] && leaves[j][1..] == below[j];
    }
    forall ks: Path | ks[0] == key && Lookup(Node(children), ks).Some? ensures ks in leaves {
      assert Lookup(child, ks[1..]).Some?;
      var rest: Path := ks[1..];
      assert rest in below;
      var i :| 0 <= i < |below| && below[i] == rest;
      assert leaves[i] == [key] + rest == ks;
    }
  }

  lemma PairsJoin<V(!new)>(children: map<string, Tree<V>>, keys: set<string>, key: string, previous: string,
                           before: seq<(string, V)>, leaves: seq<Path>, columns: seq<(string, V)>, added: seq<Path>)
    requires key !in keys
    requires Pairs(children, keys, previous, before, leaves) && Pairs(children, {key}, previous, columns, added)
    ensures Pairs(children, keys + {key}, previous, before + columns, leaves + added)
  {
    var all, both := leaves + added, before + columns;
    forall i | 0 <= i < |all|
      ensures all[i][0] in keys + {key}
      ensures Lookup(Node(children), all[i]) == Some(both[i].1) && both[i].0 == ColumnFrom(previous, all[i])
    {
      if i >= |leaves| {
        var j := i - |leaves|;
        assert all[i] == added[j] && both[i] == columns[j];
      }
    }
    forall i, j | 0 <= i < j < |all| ensures all[i] != all[j] {
      if i < |leaves| <= j {
        assert all[i][0] in keys && added[j - |leaves|][0] == key;
      } else if i >= |leaves| {
        assert added[i - |leaves|] != added[j - |leaves|];
      }
    }
  }

  ghost predicate Listed<V(!new)>(schema: map<string, Tree<V>>, columns: seq<(string, V)>) {
    && (forall i | 0 <= i < |columns| :: ColumnOf(schema, "", columns[i].0, columns[i].1))
    && forall ks: Path | Lookup(Node(schema), ks).Some? :: Named(columns, Column(ks))
  }

  predicate Named<V>(columns: seq<(string, V)>, name: string) {
    exists i | 0 <= i < |columns| :: columns[i].0 == name
  }

  lemma ColumnsAreListed<V(!new)>(schema: map<string, Tree<V>>, columns: seq<(string, V)>)
    requires OneColumnEach(schema, "", columns)
    ensures Listed(schema, columns)
  {
    var leaves: seq<Path> :| Pairs(schema, schema.Keys, "", columns, leaves);
    forall i | 0 <= i < |columns| ensures ColumnOf(schema, "", columns[i].0, columns[i].1) {
      assert Lookup(Node(schema), leaves[i]) == Some(columns[i].1) && columns[i].0 == ColumnFrom("", leaves[i]);
    }
    forall ks: Path | Lookup(Node(schema), ks).Some? ensures Named(columns, Column(ks)) {
      assert ks in leaves;
      var i :| 0 <= i < |leaves| && leaves[i] == ks;
      assert columns[i].0 == Column(ks);
    }
  }

  /** `Object.fromEntries`. */
  method FromEntries<V>(entries: seq<(string, V)>) returns (result: map<string, V>)
    ensures forall i | 0 <= i < |entries| :: entries[i].0 in result
    ensures forall name | name in result :: (name, result[name]) in entries
  {
    result := map[];
    for i := 0 to |entries|
      invariant forall j | 0 <= j < i :: entries[j].0 in result
      invariant forall name | name in result :: (name, result[name]) in entries
    {
      result := result[entries[i].0 := entries[i].1];
    }
  }

  /** `formattedSelect`: the columns of the schema as one object. */
  method SelectColumns<V(!new)>(schema: map<string, Tree<V>>) returns (select: map<string, V>)
    ensures SelectOf(schema, select)
  {
    var paths := GetPath(Node(schema), "", []);
    assert paths[0..] == paths;
    ColumnsAreListed(schema, paths);
    select := FromEntries(paths);
    ListedIsSelect(schema, paths, select);
  }

  lemma ListedIsSelect<V(!new)>(schema: map<string, Tree<V>>, columns: seq<(string, V)>, select: map<string, V>)
    requires Listed(schema, columns)
    requires forall i | 0 <= i < |columns| :: columns[i].0 in select
    requires forall name | name in select :: (name, select[name]) in columns
    ensures SelectOf(schema, select)
  {
    forall ks: Path | Lookup(Node(schema), ks).Some? ensures Column(ks) in select {
      assert Named(columns, Column(ks));
    }
    forall name | name in select ensures ColumnOf(schema, "", name, select[name]) {
      var i :| 0 <= i < |columns| && columns[i] == (name, select[name]);
      assert ColumnOf(schema, "", columns[i].0, columns[i].1);
    }
  }

  // ---------------------------------------------------------------- the round trip

  /** Each leaf replaced by its value in the row. */
  function MapTree<V, W>(t: Tree<V>, f: V -> W): Tree<W> {
    match t
    case Leaf(v) => Leaf(f(v))
    case Node(children) => Node(map k | k in children :: MapTree(children[k], f))
  }

  /** The row the database returns for the select: a value `f(c)` for each column expression `c`. */
  function RowOf<V, W>(select: map<string, V>, f: V -> W): map<string, W> {
    map name | name in select :: f(select[name])
  }

  /** Keys above other keys and leaf keys as the splitting needs them, and no empty object. */
  predicate SafeTree<V>(t: Tree<V>) {
    t.Node? ==> forall k | k in t.children ::
                  && SafeTree(t.children[k])
                  && if t.children[k].Leaf? then LeafKey(k) else InnerKey(k) && t.children[k].children != map[]
  }

  /** Moreover no object sits under the empty key at the top, where the path is taken for none. */
  predicate SafeSchema<V>(schema: map<string, Tree<V>>) {
    SafeTree(Node(schema)) && !("" in schema && schema[""].Node?)
  }

  lemma {:induction false} MapTreeLookup<V, W>(t: Tree<V>, f: V -> W, ks: seq<string>)
    ensures Lookup(MapTree(t, f), ks) == if Lookup(t, ks).Some? then Some(f(Lookup(t, ks).value)) else None
    decreases |ks|
  {
    if t.Node? && ks != [] && ks[0] in t.children {
      MapTreeLookup(t.children[ks[0]], f, ks[1..]);
    }
  }

  lemma {:induction false} MapTreeFull<V, W>(t: Tree<V>, f: V -> W)
    ensures FullTree(MapTree(t, f)) <==> FullTree(t)
    decreases t
  {
    if t.Node? {
      var mapped := MapTree(t, f).children;
      assert mapped.Keys == t.children.Keys;
      forall k | k in t.children ensures FullTree(mapped[k]) <==> FullTree(t.children[k]) {
        MapTreeFull(t.children[k], f);
      }
    }
  }

  lemma {:induction false} SafePaths<V>(t: Tree<V>, ks: Path)
    requires SafeTree(t) && Lookup(t, ks).Some?
    ensures SplitKeys(ks)
    decreases |ks|
  {
    var child := t.children[ks[0]];
    if |ks| > 1 {
      SafePaths(child, ks[1..]);
      SplitKeysTail(ks);
    } else {
      assert ks[1..] == [];
    }
  }

  lemma {:induction false} SafeIsFull<V>(t: Tree<V>)
    requires SafeTree(t) && (t.Node? ==> t.children != map[])
    ensures FullTree(t)
    decreases t
  {
    if t.Node? {
      forall k | k in t.children ensures FullTree(t.children[k]) {
        SafeIsFull(t.children[k]);
      }
    }
  }

  /** If all leaf paths split well and no object is empty, the keys are safe. */
  lemma {:induction false} PathsMakeSafe<V(!new)>(t: Tree<V>)
    requires t.Node? ==> Full(t.children)
    requires forall ks: Path | Lookup(t, ks).Some? :: SplitKeys(ks)
    ensures SafeTree(t)
    decreases t
  {
    if t.Node? {
      forall k | k in t.children
        ensures SafeTree(t.children[k])
                && if t.children[k].Leaf? then LeafKey(k) else InnerKey(k) && t.children[k].children != map[]
      {
        var child := t.children[k];
        forall ks: Path | Lookup(child, ks).Some? ensures SplitKeys(ks) && InnerKey(k) {
          var path: Path := [k] + ks;
          assert path[1..] == ks && Lookup(t, path).Some?;
          SplitKeysTail(path);
        }
        PathsMakeSafe(child);
        var rest := SomeLeaf(child);
        if child.Leaf? {
          var path: Path := [k];
          assert path[1..] == [] && Lookup(t, path).Some?;
        } else {
          var path: Path := rest;
          assert InnerKey(k);
        }
      }
    }
  }

  lemma SafeColumn<V(!new)>(schema: map<string, Tree<V>>, ks: Path)
    requires SafeSchema(schema) && Lookup(Node(schema), ks).Some?
    ensures Column(ks) == JoinKeys(ks) && Split(Column(ks)) == ks
  {
    SafePaths(Node(schema), ks);
    ColumnJoins(ks);
    SplitJoinExactly(ks);
    assert |ks| > 1 ==> schema[ks[0]].Node?;
  }

  /** In a safe schema the column names determine the leaves, and no name runs through another. */
  lemma SafeSelectIsPrefixFree<V(!new), W>(schema: map<string, Tree<V>>, select: map<string, V>, f: V -> W)
    requires SafeSchema(schema) && SelectOf(schema, select)
    ensures PrefixFree(RowOf(select, f))
    ensures forall a: Path, b: Path | Lookup(Node(schema), a).Some? && Lookup(Node(schema), b).Some? ::
              Column(a) == Column(b) ==> a == b
  {
    forall a: Path, b: Path | Lookup(Node(schema), a).Some? && Lookup(Node(schema), b).Some?
      ensures Column(a) == Column(b) ==> a == b
    {
      SafeColumn(schema, a);
      SafeColumn(schema, b);
    }
    forall a, b | a in select && b in select && Split(a) <= Split(b) ensures a == b {
      var ka: Path :| Lookup(Node(schema), ka) == Some(select[a]) && a == ColumnFrom("", ka);
      var kb: Path :| Lookup(Node(schema), kb) == Some(select[b]) && b == ColumnFrom("", kb);
      SafeColumn(schema, ka);
      SafeColumn(schema, kb);
      LeavesArePrefixFree(Node(schema), ka, kb);
    }
  }

  lemma SafeRoundTrip<V(!new), W(!new)>(schema: map<string, Tree<V>>, select: map<string, V>, f: V -> W,
        o: map<string, Tree<W>>)
    requires SafeSchema(schema) && SelectOf(schema, select) && FromRow(RowOf(select, f), o)
    requires HoldsColumns(RowOf(select, f), select.Keys, o)
    ensures Node(o) == MapTree(Node(schema), f)
  {
    var row, mapped := RowOf(select, f), MapTree(Node(schema), f).children;
    forall ks ensures Lookup(Node(o), ks) == Lookup(Node(mapped), ks) {
      MapTreeLookup(Node(schema), f, ks);
      if ks != [] {
        var path: Path := ks;
        if Lookup(Node(schema), path).Some? {
          LeafIsHeld(schema, select, f, o, path);
        } else if Lookup(Node(o), path).Some? {
          var name := JoinKeys(path);
          var other: Path :| Lookup(Node(schema), other) == Some(select[name]) && name == ColumnFrom("", other);
          SafeColumn(schema, other);
        }
      }
    }
    assert Full(mapped) by {
      forall k | k in schema ensures FullTree(mapped[k]) {
        SafeIsFull(schema[k]);
        MapTreeFull(schema[k], f);
      }
    }
    SameLeavesSameChildren(o, mapped);
  }

  lemma LeafIsHeld<V(!new), W(!new)>(schema: map<string, Tree<V>>, select: map<string, V>, f: V -> W,
        o: map<string, Tree<W>>, ks: Path)
    requires SafeSchema(schema) && SelectOf(schema, select) && Lookup(Node(schema), ks).Some?
    requires HoldsColumns(RowOf(select, f), select.Keys, o)
    ensures Lookup(Node(o), ks) == Some(f(Lookup(Node(schema), ks).value))
  {
    var name := Column(ks);
    var other: Path :| Lookup(Node(schema), other) == Some(select[name]) && name == ColumnFrom("", other);
    SafeColumn(schema, ks);
    SafeColumn(schema, other);
  }

  lemma ReturnedSchemaIsSafe<V(!new), W(!new)>(schema: map<string, Tree<V>>, select: map<string, V>, f: V -> W,
        o: map<string, Tree<W>>)
    requires SelectOf(schema, select) && FromRow(RowOf(select, f), o) && Node(o) == MapTree(Node(schema), f)
    ensures SafeSchema(schema)
  {
    forall ks: Path | Lookup(Node(schema), ks).Some? ensures SplitKeys(ks) && JoinKeys(ks) in select {
      MapTreeLookup(Node(schema), f, ks);
      SplitJoinExactly(ks);
    }
    assert Full(schema) by {
      forall k | k in schema ensures FullTree(schema[k]) {
        assert o[k] == MapTree(schema[k], f);
        MapTreeFull(schema[k], f);
      }
    }
    PathsMakeSafe(Node(schema));
    NothingUnderTheEmptyKey(schema, select);
  }

  lemma SuffixSplits(ks: Path, n: nat)
    requires SplitKeys(ks) && n < |ks|
    ensures SplitKeys(ks[n..])
  {
    var tail: Path := ks[n..];
    assert forall i | 0 <= i < |tail| :: tail[i] == ks[i + n];
  }

  /** The name of a leaf below an empty top key would be no column of the select. */
  lemma NothingUnderTheEmptyKey<V(!new)>(schema: map<string, Tree<V>>, select: map<string, V>)
    requires SelectOf(schema, select) && Full(schema)
    requires forall ks: Path | Lookup(Node(schema), ks).Some? :: SplitKeys(ks) && JoinKeys(ks) in select
    ensures !("" in schema && schema[""].Node?)
  {
    if "" in schema && schema[""].Node? {
      var rest := SomeLeaf(schema[""]);
      var ks: Path := [""] + rest;
      assert ks[1..] == rest && Lookup(Node(schema), ks).Some?;
      assert |ks| > 1;
      var name := JoinKeys(ks);
      var other: Path :| Lookup(Node(schema), other) == Some(select[name]) && name == ColumnFrom("", other);
      ColumnJoins(other);
      var kept := DropEmpty(other);
      SuffixSplits(other, |other| - |kept|);
      SplitJoinExactly(kept);
      SplitJoinExactly(ks);
      assert false;
    }
  }

  /**
   Flattening a schema, querying, and rebuilding a row gives the schema's own tree with a value at each leaf
   exactly when the schema is safe: no delimiter in or across its keys, no empty object, and no object under
   the empty key at the top.  `o` is what `ParseValue` returned.
   */
  lemma RoundTripExactly<V(!new), W(!new)>(schema: map<string, Tree<V>>, select: map<string, V>, f: V -> W,
        o: map<string, Tree<W>>)
    requires SelectOf(schema, select) && FromRow(RowOf(select, f), o)
    requires PrefixFree(RowOf(select, f)) ==> HoldsColumns(RowOf(select, f), select.Keys, o)
    ensures Node(o) == MapTree(Node(schema), f) <==> SafeSchema(schema)
  {
    if SafeSchema(schema) {
      SafeSelectIsPrefixFree(schema, select, f);
      SafeRoundTrip(schema, select, f, o);
    }
    if Node(o) == MapTree(Node(schema), f) {
      ReturnedSchemaIsSafe(schema, select, f, o);
    }
  }

  /** The order in which the columns are visited does not matter. */
  lemma OrderDoesNotMatter<W(!new)>(row: map<string, W>, a: map<string, Tree<W>>, b: map<string, Tree<W>>)
    requires FromRow(row, a) && FromRow(row, b) && HoldsColumns(row, row.Keys, a) && HoldsColumns(row, row.Keys, b)
    ensures a == b
  {
    forall ks ensures Lookup(Node(a), ks) == Lookup(Node(b), ks) {
      if ks != [] {
        var path: Path := ks;
        assert Lookup(Node(a), path).Some? ==> JoinKeys(path) in row && Split(JoinKeys(path)) == path;
        assert Lookup(Node(b), path).Some? ==> JoinKeys(path) in row && Split(JoinKeys(path)) == path;
      }
    }
    SameLeavesSameChildren(a, b);
  }

  // ---------------------------------------------------------------- resolving a response

  /** What the query resolves with: one row or a list of rows. */
  datatype Response<+R> = Single(row: R) | Rows(rows: seq<R>)

  function RowsOf<R>(response: Response<R>): seq<R> {
    match response
    case Single(row) => [row]
    case Rows(rows) => rows
  }

  function AsTree<W>(row: map<string, W>): map<string, Tree<W>> {
    map name | name in row :: Leaf(row[name])
  }

  ghost predicate Rebuilt<W(!new)>(row: map<string, W>, o: map<string, Tree<W>>) {
    FromRow(row, o) && HoldsColumns(row, row.Keys, o)
  }

  lemma FlatRowIsItself<W(!new)>(row: map<string, W>)
    requires forall name | name in row :: LeafKey(name)
    ensures Rebuilt(row, AsTree(row))
  {
    var o := AsTree(row);
    forall name | name in row ensures Split(name) == [name] && Lookup(Node(o), [name]) == Some(row[name]) {
      assert [name][1..] == [];
    }
    forall ks: Path | Lookup(Node(o), ks).Some?
      ensures JoinKeys(ks) in row && Split(JoinKeys(ks)) == ks && Lookup(Node(o), ks) == Some(row[JoinKeys(ks)])
    {
      assert Lookup(o[ks[0]], ks[1..]).Some?;
      assert ks == [ks[0]] + ks[1..] == [ks[0]];
    }
  }

  /** `transformResponse`: every row is rebuilt, and one that cannot be rebuilt fails the response. */
  method TransformRows<W(!new)>(rows: seq<map<string, W>>) returns (done: Option<seq<map<string, Tree<W>>>>)
    ensures done.Some? ==> |done.value| == |rows| && forall i | 0 <= i < |rows| :: FromRow(rows[i], done.value[i])
    ensures (forall i | 0 <= i < |rows| :: PrefixFree(rows[i])) ==>
              done.Some? && forall i | 0 <= i < |rows| :: Rebuilt(rows[i], done.value[i])
  {
    var trees: seq<map<string, Tree<W>>> := [];
    for n := 0 to |rows|
      invariant |trees| == n
      invariant forall i | 0 <= i < n :: FromRow(rows[i], trees[i])
      invariant forall i | 0 <= i < n && PrefixFree(rows[i]) :: HoldsColumns(rows[i], rows[i].Keys, trees[i])
    {
      var o := ParseValue(rows[n]);
      if o.None? {
        return None;
      }
      trees := trees + [o.value];
    }
    done := Some(trees);
  }

  predicate SameColumns<W>(rows: seq<map<string, W>>) {
    forall i | 0 <= i < |rows| :: rows[i].Keys == rows[0].Keys
  }

  /**
   `resolveWrapper`: the first row alone decides whether the response is rebuilt.  For the rows of one query,
   which share their columns, every row comes back rebuilt either way.
   */
  method Resolve<W(!new)>(data: Response<map<string, W>>) returns (resolved: Option<Response<map<string, Tree<W>>>>)
    ensures var rows := RowsOf(data);
            resolved.Some? ==> resolved.value.Single? == data.Single? && |RowsOf(resolved.value)| == |rows|
    ensures var rows := RowsOf(data);
            SameColumns(rows) && (forall i | 0 <= i < |rows| :: PrefixFree(rows[i])) ==>
              resolved.Some? && forall i | 0 <= i < |rows| :: Rebuilt(rows[i], RowsOf(resolved.value)[i])
  {
    var rows := RowsOf(data);
    var trees: seq<map<string, Tree<W>>>;
    if |rows| == 0 || forall key | key in rows[0] :: LeafKey(key) {
      trees := seq(|rows|, i requires 0 <= i < |rows| => AsTree(rows[i]));
      forall i | 0 <= i < |rows| && SameColumns(rows) ensures Rebuilt(rows[i], trees[i]) {
        FlatRowIsItself(rows[i]);
      }
    } else {
      var done := TransformRows(rows);
      if done.None? {
        return None;
      }
      trees := done.value;
    }
    resolved := Some(if data.Single? then Single(trees[0]) else Rows(trees));
    assert RowsOf(resolved.value) == trees;
  }

  /**
   The whole way round, for a database that answers each selected expression `c` with `answer(c)`: the caller
   gets the schema's tree of answers exactly when the schema is safe.
   */
  method SelectAndRebuild<V(!new), W(!new)>(schema: map<string, Tree<V>>, answer: V -> W)
    returns (object_: Option<map<string, Tree<W>>>)
    ensures object_.Some? && Node(object_.value) == MapTree(Node(schema), answer) <==> SafeSchema(schema)
  {
    var select := SelectColumns(schema);
    object_ := ParseValue(RowOf(select, answer));
    if object_.Some? {
      RoundTripExactly(schema, select, answer, object_.value);
    } else if SafeSchema(schema) {
      SafeSelectIsPrefixFree(schema, select, answer);
    }
  }
}
