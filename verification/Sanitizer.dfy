/**
 The log sanitizer on the heap: copy-on-write masking of a graph of shared, mutable objects, against the
 masking function that copies everything.
 */
module Sanitizer {
  import opened Options
  import opened Pan
  import opened KeyClassifier
  import opened MaskValue

  // ---------------------------------------------------------------- values on the heap

  /** A JavaScript value; a number is given by the text `String` makes of it. */
  datatype Value = Undefined | Null | Bool(flag: bool) | Number(text: string) | Str(text: string) | Ref(node: Node)

  /** A record keeps its keys in insertion order, and one item per key. */
  datatype Shape = Array(items: seq<Value>) | Record(keys: seq<string>, items: seq<Value>)

  /** An array or a plain object.  The rank makes the graph below it acyclic. */
  class Node {
    var shape: Shape
    ghost const rank: nat

    constructor (shape: Shape, ghost rank: nat)
      ensures this.shape == shape && this.rank == rank
    {
      this.shape := shape;
      this.rank := rank;
    }
  }

  ghost predicate In(v: Value, w: set<Node>) {
    v.Ref? ==> v.node in w
  }

  ghost function Rank(v: Value): nat {
    if v.Ref? then v.node.rank + 1 else 0
  }

  /** Everything reachable from the set is in the set, and ranks decrease along references. */
  ghost predicate Closed(w: set<Node>)
    reads w
  {
    forall n | n in w ::
      && (n.shape.Record? ==> |n.shape.keys| == |n.shape.items|)
      && forall v | v in n.shape.items :: In(v, w) && Rank(v) <= n.rank
  }

  /** `===`, under which NaN differs from itself. */
  predicate Identical(a: Value, b: Value) {
    a == b && a != Number("NaN")
  }

  // ---------------------------------------------------------------- values as trees

  datatype Tree =
    | TUndefined | TNull | TBool(flag: bool) | TNumber(text: string) | TString(text: string)
    | TArray(items: seq<Tree>) | TRecord(keys: seq<string>, items: seq<Tree>)

  /** What a value looks like structurally, in the current heap. */
  ghost function TreeOf(v: Value, w: set<Node>): Tree
    requires Closed(w) && In(v, w)
    reads w
    decreases Rank(v), 0, 0
  {
    match v
    case Undefined => TUndefined
    case Null => TNull
    case Bool(flag) => TBool(flag)
    case Number(text) => TNumber(text)
    case Str(text) => TString(text)
    case Ref(node) =>
      var items := TreesOf(node.shape.items, w, node.rank);
      if node.shape.Array? then TArray(items) else TRecord(node.shape.keys, items)
  }

  ghost function TreesOf(vs: seq<Value>, w: set<Node>, rank: nat): (r: seq<Tree>)
    requires Closed(w) && forall v | v in vs :: In(v, w) && Rank(v) <= rank
    reads w
    decreases rank, 1, |vs|
    ensures |r| == |vs|
    ensures forall i | 0 <= i < |vs| :: r[i] == TreeOf(vs[i], w)
  {
    if vs == [] then [] else [TreeOf(vs[0], w)] + TreesOf(vs[1..], w, rank)
  }

  // ---------------------------------------------------------------- the masking function

  const SENSITIVE_SUB_VALUES: set<string> := {"number", "value", "content"}

  function LoggedOf(v: Value): Logged {
    match v
    case Str(text) => Text(text)
    case Number(text) => Numeral(text)
    case _ => Other
  }

  function LoggedTree(t: Tree): Logged {
    match t
    case TString(text) => Text(text)
    case TNumber(text) => Numeral(text)
    case _ => Other
  }

  /** A string or number is masked by the type of its own key or value, or else by the parent's type. */
  ghost function MaskedText(l: Lexicon, key: string, value: Logged, parent: Option<SensitiveKeyType>): Option<string> {
    if value.Other? then None
    else if SensitiveType(l, key, value).Some? then Some(ApplyMask(value.text, SensitiveType(l, key, value).value))
    else if parent.Some? && key in SENSITIVE_SUB_VALUES then Some(ApplyMask(value.text, parent.value))
    else None
  }

  ghost function Inherited(l: Lexicon, key: string, value: Logged, parent: Option<SensitiveKeyType>)
    : Option<SensitiveKeyType>
  {
    if SensitiveType(l, key, value).Some? then SensitiveType(l, key, value) else parent
  }

  /** Masking that always copies: a fresh tree, whatever was masked. */
  ghost function Masked(l: Lexicon, t: Tree, parent: Option<SensitiveKeyType>): Tree
    decreases t, 0
  {
    match t
    case TArray(items) => TArray(seq(|items|, i requires 0 <= i < |items| => Masked(l, items[i], parent)))
    case TRecord(keys, items) =>
      TRecord(keys, seq(|items|, i requires 0 <= i < |items| => MaskedField(l, KeyAt(keys, i), items[i], parent)))
    case _ => t
  }

  function KeyAt(keys: seq<string>, i: nat): string {
    if i < |keys| then keys[i] else ""
  }

  ghost function MaskedField(l: Lexicon, key: string, t: Tree, parent: Option<SensitiveKeyType>): Tree
    decreases t, 1
  {
    var masked := MaskedText(l, key, LoggedTree(t), parent);
    if masked.Some? then TString(masked.value)
    else Masked(l, t, Inherited(l, key, LoggedTree(t), parent))
  }

  /** No number in the tree is NaN. */
  ghost predicate NanFree(t: Tree)
  {
    match t
    case TArray(items) => forall i | 0 <= i < |items| :: NanFree(items[i])
    case TRecord(_, items) => forall i | 0 <= i < |items| :: NanFree(items[i])
    case TNumber(text) => text != "NaN"
    case _ => true
  }

  /** Some field, at any depth, has a mask that changes it. */
  ghost predicate Exposed(l: Lexicon, t: Tree, parent: Option<SensitiveKeyType>)
    decreases t, 0
  {
    match t
    case TArray(items) => exists i | 0 <= i < |items| :: Exposed(l, items[i], parent)
    case TRecord(keys, items) => exists i | 0 <= i < |items| :: ExposedField(l, KeyAt(keys, i), items[i], parent)
    case _ => false
  }

  ghost predicate ExposedField(l: Lexicon, key: string, t: Tree, parent: Option<SensitiveKeyType>)
    decreases t, 1
  {
    var masked := MaskedText(l, key, LoggedTree(t), parent);
    if masked.Some? then t != TString(masked.value) else Exposed(l, t, Inherited(l, key, LoggedTree(t), parent))
  }

  /** Masking leaves a value as it is exactly when no field of it is exposed. */
  lemma {:induction false} UnchangedWhenNothingExposed(l: Lexicon, t: Tree, parent: Option<SensitiveKeyType>)
    ensures Masked(l, t, parent) == t <==> !Exposed(l, t, parent)
    decreases t, 0
  {
    match t
    case TArray(items) =>
      forall i | 0 <= i < |items| ensures Masked(l, items[i], parent) == items[i] <==> !Exposed(l, items[i], parent) {
        UnchangedWhenNothingExposed(l, items[i], parent);
      }
      var masked := Masked(l, t, parent).items;
      assert (forall i | 0 <= i < |items| :: masked[i] == items[i]) <==> masked == items;
    case TRecord(keys, items) =>
      forall i | 0 <= i < |items|
        ensures var key := KeyAt(keys, i);
                MaskedField(l, key, items[i], parent) == items[i] <==> !ExposedField(l, key, items[i], parent)
      {
        UnchangedWhenNothingExposed(l, items[i], Inherited(l, KeyAt(keys, i), LoggedTree(items[i]), parent));
      }
      var masked := Masked(l, t, parent).items;
      assert (forall i | 0 <= i < |items| :: masked[i] == items[i]) <==> masked == items;
    case _ =>
  }

  // ---------------------------------------------------------------- growing worlds

  lemma {:induction false} SameTree(v: Value, a: set<Node>, b: set<Node>)
    requires Closed(a) && Closed(b) && a <= b && In(v, a)
    ensures TreeOf(v, a) == TreeOf(v, b)
    decreases Rank(v)
  {
    if v.Ref? {
      var children := v.node.shape.items;
      forall i | 0 <= i < |children| ensures TreeOf(children[i], a) == TreeOf(children[i], b) {
        SameTree(children[i], a, b);
      }
      assert TreesOf(children, a, v.node.rank) == TreesOf(children, b, v.node.rank);
    }
  }

  // ---------------------------------------------------------------- what the loops maintain

  /** The values show the first of these trees, and may be children of an object of this rank. */
  ghost predicate Showing(vs: seq<Value>, trees: seq<Tree>, rank: nat, w: set<Node>)
    reads w
  {
    && Closed(w)
    && (forall v | v in vs :: In(v, w) && Rank(v) <= rank)
    && |vs| <= |trees| && forall k | 0 <= k < |vs| :: TreeOf(vs[k], w) == trees[k]
  }

  /** Each new child is the old child itself exactly when masking leaves that child as it is. */
  ghost predicate Matching(next: seq<Value>, children: seq<Value>, before: seq<Tree>, masked: seq<Tree>)
    requires |next| <= |children| == |before| == |masked|
  {
    forall k | 0 <= k < |next| :: Identical(next[k], children[k]) <==> masked[k] == before[k] && NanFree(before[k])
  }

  ghost predicate AllIdentical(next: seq<Value>, children: seq<Value>)
    requires |next| <= |children|
  {
    forall k | 0 <= k < |next| :: Identical(next[k], children[k])
  }

  /** After `|next|` children there is no copy yet, or a copy that holds them and the rest of the originals. */
  ghost predicate Copied(items: seq<Value>, next: seq<Value>, sanitized: Option<seq<Value>>)
    requires |next| <= |items|
  {
    if AllIdentical(next, items) then sanitized == None else sanitized == Some(next + items[|next|..])
  }

  lemma {:induction false} SameTrees(vs: seq<Value>, rank: nat, a: set<Node>, b: set<Node>)
    requires Closed(a) && Closed(b) && a <= b && forall v | v in vs :: In(v, a) && Rank(v) <= rank
    ensures TreesOf(vs, a, rank) == TreesOf(vs, b, rank)
  {
    forall i | 0 <= i < |vs| ensures TreeOf(vs[i], a) == TreeOf(vs[i], b) {
      SameTree(vs[i], a, b);
    }
  }

  /** One more child is done, in a larger world. */
  lemma NextChild(items: seq<Value>, next: seq<Value>, result: Value, before: seq<Tree>, masked: seq<Tree>, rank: nat,
                  w: set<Node>, larger: set<Node>)
    requires |next| < |items| == |before| == |masked| && Rank(items[|next|]) <= rank
    requires Showing(next, masked, rank, w) && Matching(next, items, before, masked) && w <= larger
    requires FieldResult(items[|next|], before[|next|], masked[|next|], result, larger)
    ensures Showing(next + [result], masked, rank, larger)
    ensures Matching(next + [result], items, before, masked)
  {
    var more := next + [result];
    forall v | v in more ensures In(v, larger) && Rank(v) <= rank {
    }
    forall k | 0 <= k < |more| ensures TreeOf(more[k], larger) == masked[k] {
      if k < |next| {
        SameTree(next[k], w, larger);
      }
    }
  }

  // ---------------------------------------------------------------- sanitizeObject

  ghost function ShapeOf(v: Value): Shape
    reads if v.Ref? then {v.node} else {}
  {
    if v.Ref? then v.node.shape else Array([])
  }

  /** Where masking leaves a child as it is, the old and the new object hold the very same child. */
  ghost predicate SharesUnchanged(before: seq<Value>, after: seq<Value>, t: seq<Tree>, m: seq<Tree>) {
    && |before| == |after| == |t| == |m|
    && forall i | 0 <= i < |t| && m[i] == t[i] && NanFree(t[i]) :: after[i] == before[i]
  }

  /**
   What sanitizing a value of tree `t` promises, with `m` the masked tree: the result shows `m`; it is the
   value itself exactly when nothing was masked and no number below is NaN; and it shares what it can.
   */
  ghost predicate Result(v: Value, before: Shape, t: Tree, m: Tree, r: Value, w: set<Node>)
    reads w, if r.Ref? then {r.node} else {}
  {
    && FieldResult(v, t, m, r, w)
    && (r != v ==> r.Ref? && ((t.TArray? && m.TArray?) || (t.TRecord? && m.TRecord?))
                   && SharesUnchanged(before.items, r.node.shape.items, t.items, m.items))
  }

  ghost predicate FieldResult(v: Value, t: Tree, m: Tree, r: Value, w: set<Node>)
    reads w
  {
    && Closed(w) && In(r, w) && Rank(r) <= Rank(v) && TreeOf(r, w) == m
    && (Identical(r, v) <==> m == t && NanFree(t))
  }

  lemma MaskedPrimitive(v: Value, masked: string, w: set<Node>)
    requires Closed(w) && (v.Str? || v.Number?)
    ensures FieldResult(v, TreeOf(v, w), TString(masked), Str(masked), w)
  {
  }

  /** The copy is taken at the first child that differs, and written to from then on. */
  method Put(items: seq<Value>, sanitized: Option<seq<Value>>, index: nat, child: Value, ghost next: seq<Value>)
    returns (copy: Option<seq<Value>>)
    requires index == |next| < |items| && Copied(items, next, sanitized)
    ensures Copied(items, next + [child], copy)
  {
    copy := sanitized;
    assert items[index..] == [items[index]] + items[index + 1..];
    assert AllIdentical(next + [child], items) <==> AllIdentical(next, items) && Identical(child, items[index]);
    if !Identical(child, items[index]) {
      if copy.None? {
        assert next == items[..index];
        copy := Some(items);
      }
      assert copy.value == next + items[index..];
      copy := Some(copy.value[index := child]);
    } else {
      assert child == items[index];
    }
    assert copy.Some? ==> copy.value == next + [child] + items[index + 1..];
  }

  lemma ArrayParts(l: Lexicon, v: Value, t: Tree, parent: Option<SensitiveKeyType>, w: set<Node>)
    requires Closed(w) && v.Ref? && v.node in w && v.node.shape.Array? && t == TreeOf(v, w)
    ensures var m := Masked(l, t, parent);
            && t.TArray? && m.TArray? && |v.node.shape.items| == |t.items| == |m.items|
            && Showing(v.node.shape.items, t.items, v.node.rank, w)
            && forall k | 0 <= k < |m.items| :: m.items[k] == Masked(l, t.items[k], parent)
  {
  }

  lemma RecordParts(l: Lexicon, v: Value, t: Tree, parent: Option<SensitiveKeyType>, w: set<Node>)
    requires Closed(w) && v.Ref? && v.node in w && v.node.shape.Record? && t == TreeOf(v, w)
    ensures var m := Masked(l, t, parent);
            && t.TRecord? && m.TRecord? && t.keys == m.keys == v.node.shape.keys
            && |v.node.shape.items| == |t.items| == |m.items| == |t.keys|
            && Showing(v.node.shape.items, t.items, v.node.rank, w)
            && forall k | 0 <= k < |m.items| :: m.items[k] == MaskedField(l, KeyAt(t.keys, k), t.items[k], parent)
  {
  }

  lemma Unchanged(v: Value, t: Tree, m: Tree, next: seq<Value>, w: set<Node>, world: set<Node>)
    requires Closed(w) && v.Ref? && v.node in w && t == TreeOf(v, w) && w <= world
    requires (t.TArray? && m.TArray?) || (t.TRecord? && m.TRecord? && t.keys == m.keys)
    requires |next| == |t.items| == |m.items|
    requires Showing(next, m.items, v.node.rank, world) && Matching(next, v.node.shape.items, t.items, m.items)
    requires AllIdentical(next, v.node.shape.items)
    ensures Result(v, v.node.shape, t, m, v, world)
  {
    SameTree(v, w, world);
    assert m.items == t.items;
  }

  lemma Rebuilt(v: Value, t: Tree, m: Tree, next: seq<Value>, copy: Node, w: set<Node>, world: set<Node>)
    requires Closed(w) && v.Ref? && v.node in w && t == TreeOf(v, w) && copy != v.node
    requires (t.TArray? && m.TArray?) || (t.TRecord? && m.TRecord? && t.keys == m.keys)
    requires |next| == |t.items| == |m.items|
    requires Showing(next, m.items, v.node.rank, world) && Matching(next, v.node.shape.items, t.items, m.items)
    requires !AllIdentical(next, v.node.shape.items)
    requires copy.shape == v.node.shape.(items := next) && copy.rank == v.node.rank
    ensures Result(v, v.node.shape, t, m, Ref(copy), world + {copy})
  {
    SameTrees(next, v.node.rank, world, world + {copy});
    assert TreeOf(Ref(copy), world + {copy}) == m;
  }

  /** `sanitized ?? obj`. */
  method CopyOrSame(v: Value, sanitized: Option<seq<Value>>, ghost t: Tree, ghost m: Tree, ghost next: seq<Value>,
                    ghost w: set<Node>, ghost world: set<Node>)
    returns (r: Value, ghost larger: set<Node>)
    requires Closed(w) && v.Ref? && v.node in w && t == TreeOf(v, w) && w <= world
    requires (t.TArray? && m.TArray?) || (t.TRecord? && m.TRecord? && t.keys == m.keys)
    requires |next| == |t.items| == |m.items| == |v.node.shape.items|
    requires Showing(next, m.items, v.node.rank, world) && Matching(next, v.node.shape.items, t.items, m.items)
    requires Copied(v.node.shape.items, next, sanitized)
    ensures world <= larger && fresh(larger - world)
    ensures Result(v, v.node.shape, t, m, r, larger)
    ensures r != v ==> r.Ref? && fresh(r.node)
  {
    if sanitized.None? {
      Unchanged(v, t, m, next, w, world);
      return v, world;
    }
    var shape := v.node.shape;
    assert sanitized.value == next;
    var copy := new Node(shape.(items := sanitized.value), v.node.rank);
    Rebuilt(v, t, m, next, copy, w, world);
    r, larger := Ref(copy), world + {copy};
  }

  /**
   The sanitizer: `w` holds the objects reachable before, `world` also those allocated on the way.  Nothing is
   modified, so no object that existed before changes.
   */
  method SanitizeObject(v: Value, parent: Option<SensitiveKeyType>, l: Lexicon, ghost w: set<Node>)
    returns (r: Value, ghost world: set<Node>)
    requires Closed(w) && In(v, w)
    ensures w <= world && fresh(world - w)
    ensures Result(v, old(ShapeOf(v)), old(TreeOf(v, w)), Masked(l, old(TreeOf(v, w)), parent), r, world)
    ensures r != v ==> r.Ref? && fresh(r.node)
    decreases Rank(v), 1
  {
    if v.Ref? && v.node.shape.Array? {
      r, world := SanitizeArray(v, parent, l, w);
    } else if v.Ref? {
      r, world := SanitizeRecord(v, parent, l, w);
    } else {
      r, world := v, w;
    }
  }

  /** One turn of the loop, lines 24-30. */
  method MaskItemsTurn(sanitized: Option<seq<Value>>, parent: Option<SensitiveKeyType>, l: Lexicon,
            items: seq<Value>, index: nat, ghost next: seq<Value>, ghost rank: nat,
            ghost before: seq<Tree>, ghost masked: seq<Tree>, ghost w: set<Node>, ghost world: set<Node>)
    returns (copy: Option<seq<Value>>, ghost more: seq<Value>, ghost larger: set<Node>)
    requires index == |next| < |items| == |before| == |masked|
    requires Showing(items, before, rank, w) && w <= world
    requires masked[index] == Masked(l, before[index], parent)
    requires Showing(next, masked, rank, world) && Matching(next, items, before, masked)
    requires Copied(items, next, sanitized)
    ensures world <= larger && fresh(larger - world) && |more| == index + 1
    ensures Showing(more, masked, rank, larger) && Matching(more, items, before, masked)
    ensures Copied(items, more, copy)
    decreases rank, 3
  {
    var item := items[index];
    assert item in items && before[index] == TreeOf(item, w);
    SameTree(item, w, world);
    var child;
    child, larger := SanitizeObject(item, parent, l, world);
    NextChild(items, next, child, before, masked, rank, world, larger);
    copy := Put(items, sanitized, index, child, next);
    more := next + [child];
  }

  /** The loop over the elements, lines 21-31. */
  method MaskItems(items: seq<Value>, parent: Option<SensitiveKeyType>, l: Lexicon,
            ghost rank: nat, ghost before: seq<Tree>, ghost masked: seq<Tree>, ghost w: set<Node>)
    returns (sanitized: Option<seq<Value>>, ghost next: seq<Value>, ghost world: set<Node>)
    requires |items| == |before| == |masked| && Showing(items, before, rank, w)
    requires forall k | 0 <= k < |masked| :: masked[k] == Masked(l, before[k], parent)
    ensures w <= world && fresh(world - w)
    ensures |next| == |items| && Showing(next, masked, rank, world)
    ensures Matching(next, items, before, masked) && Copied(items, next, sanitized)
    decreases rank, 4
  {
    sanitized, next, world := None, [], w;
    for index := 0 to |items|
      invariant |next| == index && w <= world && fresh(world - w)
      invariant Showing(next, masked, rank, world)
      invariant Matching(next, items, before, masked) && Copied(items, next, sanitized)
    {
      sanitized, next, world := MaskItemsTurn(
        sanitized, parent, l, items, index, next, rank, before, masked, w, world);
    }
  }

  method SanitizeArray(v: Value, parent: Option<SensitiveKeyType>, l: Lexicon, ghost w: set<Node>)
    returns (r: Value, ghost world: set<Node>)
    requires Closed(w) && In(v, w) && v.Ref? && v.node.shape.Array?
    ensures w <= world && fresh(world - w)
    ensures Result(v, old(ShapeOf(v)), old(TreeOf(v, w)), Masked(l, old(TreeOf(v, w)), parent), r, world)
    ensures r != v ==> r.Ref? && fresh(r.node)
    decreases Rank(v), 0
  {
    var shape := v.node.shape;
    ghost var rank, t := v.node.rank, TreeOf(v, w);
    ghost var m := Masked(l, t, parent);
    ArrayParts(l, v, t, parent, w);
    var sanitized;
    ghost var next;
    sanitized, next, world := MaskItems(shape.items, parent, l, rank, t.items, m.items, w);
    r, world := CopyOrSame(v, sanitized, t, m, next, w, world);
  }

  predicate IsMaskable(v: Value) {
    v.Str? || v.Number?
  }

  /** The code's test for each of the two masks, in order. */
  method MaskField(key: string, value: Value, parent: Option<SensitiveKeyType>, l: Lexicon)
    returns (masked: Option<string>, keyType: Option<SensitiveKeyType>)
    ensures masked == MaskedText(l, key, LoggedOf(value), parent)
    ensures keyType == SensitiveType(l, key, LoggedOf(value))
  {
    keyType := ComputeSensitiveType(l, key, LoggedOf(value));
    if keyType.Some? && IsMaskable(value) {
      masked := Some(ApplyMask(value.text, keyType.value));
    } else if parent.Some? && key in SENSITIVE_SUB_VALUES && IsMaskable(value) {
      masked := Some(ApplyMask(value.text, parent.value));
    } else {
      masked := None;
    }
  }

  method SanitizeField(key: string, value: Value, parent: Option<SensitiveKeyType>, l: Lexicon, ghost w: set<Node>)
    returns (r: Value, ghost world: set<Node>)
    requires Closed(w) && In(value, w)
    ensures w <= world && fresh(world - w)
    ensures FieldResult(value, old(TreeOf(value, w)), MaskedField(l, key, old(TreeOf(value, w)), parent), r, world)
    decreases Rank(value), 2
  {
    assert LoggedTree(TreeOf(value, w)) == LoggedOf(value);
    var masked, keyType := MaskField(key, value, parent, l);
    if masked.Some? {
      r, world := Str(masked.value), w;
      MaskedPrimitive(value, masked.value, w);
    } else {
      r, world := SanitizeObject(value, if keyType.Some? then keyType else parent, l, w);
    }
  }

  /** One turn of the loop, lines 42-62. */
  method MaskFieldsTurn(key: string, sanitized: Option<seq<Value>>, parent: Option<SensitiveKeyType>, l: Lexicon,
            items: seq<Value>, index: nat, ghost next: seq<Value>, ghost rank: nat,
            ghost before: seq<Tree>, ghost masked: seq<Tree>, ghost w: set<Node>, ghost world: set<Node>)
    returns (copy: Option<seq<Value>>, ghost more: seq<Value>, ghost larger: set<Node>)
    requires index == |next| < |items| == |before| == |masked|
    requires Showing(items, before, rank, w) && w <= world
    requires masked[index] == MaskedField(l, key, before[index], parent)
    requires Showing(next, masked, rank, world) && Matching(next, items, before, masked)
    requires Copied(items, next, sanitized)
    ensures world <= larger && fresh(larger - world) && |more| == index + 1
    ensures Showing(more, masked, rank, larger) && Matching(more, items, before, masked)
    ensures Copied(items, more, copy)
    decreases rank, 3
  {
    var item := items[index];
    assert item in items && before[index] == TreeOf(item, w);
    SameTree(item, w, world);
    var child;
    child, larger := SanitizeField(key, item, parent, l, world);
    NextChild(items, next, child, before, masked, rank, world, larger);
    copy := Put(items, sanitized, index, child, next);
    more := next + [child];
  }

  /** The loop over the keys, lines 40-63. */
  method MaskFields(keys: seq<string>, items: seq<Value>, parent: Option<SensitiveKeyType>, l: Lexicon,
            ghost rank: nat, ghost before: seq<Tree>, ghost masked: seq<Tree>, ghost w: set<Node>)
    returns (sanitized: Option<seq<Value>>, ghost next: seq<Value>, ghost world: set<Node>)
    requires |items| == |before| == |masked| == |keys| && Showing(items, before, rank, w)
    requires forall k {:trigger masked[k]} | 0 <= k < |masked| ::
               masked[k] == MaskedField(l, KeyAt(keys, k), before[k], parent)
    ensures w <= world && fresh(world - w)
    ensures |next| == |items| && Showing(next, masked, rank, world)
    ensures Matching(next, items, before, masked) && Copied(items, next, sanitized)
    decreases rank, 4
  {
    sanitized, next, world := None, [], w;
    for index := 0 to |items|
      invariant |next| == index && w <= world && fresh(world - w)
      invariant Showing(next, masked, rank, world)
      invariant Matching(next, items, before, masked) && Copied(items, next, sanitized)
    {
      sanitized, next, world := MaskFieldsTurn(
        KeyAt(keys, index), sanitized, parent, l, items, index, next, rank, before, masked, w, world);
    }
  }

  method SanitizeRecord(v: Value, parent: Option<SensitiveKeyType>, l: Lexicon, ghost w: set<Node>)
    returns (r: Value, ghost world: set<Node>)
    requires Closed(w) && In(v, w) && v.Ref? && v.node.shape.Record?
    ensures w <= world && fresh(world - w)
    ensures Result(v, old(ShapeOf(v)), old(TreeOf(v, w)), Masked(l, old(TreeOf(v, w)), parent), r, world)
    ensures r != v ==> r.Ref? && fresh(r.node)
    decreases Rank(v), 0
  {
    var shape := v.node.shape;
    ghost var rank, t := v.node.rank, TreeOf(v, w);
    ghost var m := Masked(l, t, parent);
    RecordParts(l, v, t, parent, w);
    var sanitized;
    ghost var next;
    sanitized, next, world := MaskFields(shape.keys, shape.items, parent, l, rank, t.items, m.items, w);
    r, world := CopyOrSame(v, sanitized, t, m, next, w, world);
  }

  // ---------------------------------------------------------------- NaN

  /** NaN differs from itself, so an object holding it is copied even when masking leaves it as it is. */
  lemma NanIsCopied(v: Value, before: Shape, t: Tree, m: Tree, r: Value, w: set<Node>)
    requires v.Ref? && Result(v, before, t, m, r, w)
    ensures m == t ==> (r != v <==> !NanFree(t))
  {
  }

  lemma NanTree(l: Lexicon, parent: Option<SensitiveKeyType>)
    ensures var t := TArray([TNumber("NaN")]); Masked(l, t, parent) == t && !NanFree(t)
  {
    var t := TArray([TNumber("NaN")]);
    assert Masked(l, t.items[0], parent) == t.items[0] && !NanFree(t.items[0]);
    assert Masked(l, t, parent).items == t.items;
  }

  /** So the array `[NaN]`, in which there is nothing to mask, comes back as a new array. */
  method SanitizeNan(parent: Option<SensitiveKeyType>, l: Lexicon) returns (v: Value, r: Value)
    ensures v.Ref? && r.Ref? && r.node != v.node
    ensures r.node.shape == v.node.shape == Array([Number("NaN")])
  {
    var node := new Node(Array([Number("NaN")]), 0);
    v := Ref(node);
    ghost var w, world := {node}, {};
    assert Closed(w);
    ghost var t := TArray([TNumber("NaN")]);
    assert TreeOf(v, w).items == t.items;
    NanTree(l, parent);
    r, world := SanitizeObject(v, parent, l, w);
    NanShape(r, world);
  }

  /** Only an array of NaN looks like one. */
  lemma NanShape(r: Value, w: set<Node>)
    requires Closed(w) && In(r, w) && TreeOf(r, w) == TArray([TNumber("NaN")])
    ensures r.Ref? && r.node.shape == Array([Number("NaN")])
  {
    assert TreeOf(r, w).items[0] == TNumber("NaN");
    assert r.node.shape.items == [Number("NaN")];
  }
}
