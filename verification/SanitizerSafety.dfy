/**
 What a sanitized value shows, place by place.  A place is a path of positions from the root; the field it ends in, if
 it ends in one, has a key; and among the fields on the way some are classified as sensitive.
 */
module SanitizerSafety {
  import opened Options
  import opened Pan
  import opened KeyClassifier
  import opened MaskValue
  import opened Sanitizer

  function Children(t: Tree): seq<Tree> {
    if t.TArray? || t.TRecord? then t.items else []
  }

  /** The value at a path. */
  function Sub(t: Tree, path: seq<nat>): Option<Tree>
    decreases |path|
  {
    if path == [] then Some(t)
    else if path[0] < |Children(t)| then Sub(Children(t)[path[0]], path[1..])
    else None
  }

  /** The key the value at a path is stored under, unless it is the root or an array element. */
  function KeyOf(t: Tree, path: seq<nat>): Option<string> {
    if path == [] then None
    else
      var container := Sub(t, path[..|path| - 1]);
      if container.Some? && container.value.TRecord? then Some(KeyAt(container.value.keys, path[|path| - 1])) else None
  }

  /** How the field at a path is classified, by its key or by a card number in its value. */
  ghost function OwnType(l: Lexicon, t: Tree, path: seq<nat>): Option<SensitiveKeyType> {
    if KeyOf(t, path).None? || Sub(t, path).None? then None
    else
      match Sub(t, path).value
      case TString(text) => SensitiveType(l, KeyOf(t, path).value, Text(text))
      case TNumber(text) => SensitiveType(l, KeyOf(t, path).value, Numeral(text))
      case _ => SensitiveType(l, KeyOf(t, path).value, Other)
  }

  /** The type of the nearest classified field among the first n steps of a path, or the one given from outside. */
  ghost function Nearest(l: Lexicon, t: Tree, parent: Option<SensitiveKeyType>, path: seq<nat>, n: nat)
    : Option<SensitiveKeyType>
    requires n <= |path|
  {
    if n == 0 then parent
    else if OwnType(l, t, path[..n]).Some? then OwnType(l, t, path[..n])
    else Nearest(l, t, parent, path, n - 1)
  }

  /** The mask due to a string or number at a path: its own type's, or under three keys that of what it belongs to. */
  ghost function MaskDue(l: Lexicon, t: Tree, parent: Option<SensitiveKeyType>, path: seq<nat>)
    : Option<SensitiveKeyType>
  {
    if KeyOf(t, path).None? then None
    else if OwnType(l, t, path).Some? then OwnType(l, t, path)
    else
      var key := KeyOf(t, path).value;
      if key == "number" || key == "value" || key == "content" then Nearest(l, t, parent, path, |path| - 1) else None
  }

  ghost predicate ShownAs(due: Option<SensitiveKeyType>, text: string, before: Tree, after: Tree) {
    after == if due.Some? then TString(ApplyMask(text, due.value)) else before
  }

  /** A due mask is there and nothing else is changed, at one place. */
  ghost predicate SafeAt(l: Lexicon, t: Tree, parent: Option<SensitiveKeyType>, m: Tree, path: seq<nat>)
    requires Sub(t, path).Some?
  {
    var before, after := Sub(t, path).value, Sub(m, path);
    && after.Some?
    && match before
       case TString(text) => ShownAs(MaskDue(l, t, parent, path), text, before, after.value)
       case TNumber(text) => ShownAs(MaskDue(l, t, parent, path), text, before, after.value)
       case TArray(items) => after.value.TArray? && |after.value.items| == |items|
       case TRecord(keys, items) => after.value.TRecord? && after.value.keys == keys && |after.value.items| == |items|
       case _ => after.value == before
  }

  ghost predicate Safe(l: Lexicon, t: Tree, parent: Option<SensitiveKeyType>, m: Tree) {
    forall path | Sub(t, path).Some? :: SafeAt(l, t, parent, m, path)
  }

  // ---------------------------------------------------------------- one step into the tree

  lemma {:induction false} SubStep(t: Tree, i: nat, rest: seq<nat>)
    requires i < |Children(t)|
    ensures Sub(t, [i] + rest) == Sub(Children(t)[i], rest)
  {
    assert ([i] + rest)[1..] == rest;
  }

  /** Below a child everything but the outermost parent type is as seen from the child. */
  lemma StepIn(l: Lexicon, t: Tree, i: nat, rest: seq<nat>)
    requires i < |Children(t)| && rest != []
    ensures KeyOf(t, [i] + rest) == KeyOf(Children(t)[i], rest)
    ensures OwnType(l, t, [i] + rest) == OwnType(l, Children(t)[i], rest)
  {
    var path := [i] + rest;
    assert path[..|path| - 1] == [i] + rest[..|rest| - 1];
    SubStep(t, i, rest[..|rest| - 1]);
    SubStep(t, i, rest);
  }

  /** What a child inherits. */
  ghost function Outer(l: Lexicon, t: Tree, parent: Option<SensitiveKeyType>, i: nat): Option<SensitiveKeyType> {
    if OwnType(l, t, [i]).Some? then OwnType(l, t, [i]) else parent
  }

  lemma {:induction false} NearestStep(l: Lexicon, t: Tree, parent: Option<SensitiveKeyType>, i: nat, rest: seq<nat>,
                                       n: nat)
    requires i < |Children(t)| && n <= |rest|
    ensures Nearest(l, t, parent, [i] + rest, n + 1) == Nearest(l, Children(t)[i], Outer(l, t, parent, i), rest, n)
  {
    var path := [i] + rest;
    if n == 0 {
      assert path[..1] == [i];
    } else {
      assert path[..n + 1] == [i] + rest[..n];
      StepIn(l, t, i, rest[..n]);
      NearestStep(l, t, parent, i, rest, n - 1);
    }
  }

  lemma MaskDueStep(l: Lexicon, t: Tree, parent: Option<SensitiveKeyType>, i: nat, rest: seq<nat>)
    requires i < |Children(t)| && rest != []
    ensures MaskDue(l, t, parent, [i] + rest) == MaskDue(l, Children(t)[i], Outer(l, t, parent, i), rest)
  {
    StepIn(l, t, i, rest);
    NearestStep(l, t, parent, i, rest, |rest| - 1);
  }

  /** A child that is an array or object is masked with what it inherits. */
  lemma ContainerStep(l: Lexicon, t: Tree, parent: Option<SensitiveKeyType>, i: nat)
    requires i < |Children(t)| && (Children(t)[i].TArray? || Children(t)[i].TRecord?)
    ensures i < |Children(Masked(l, t, parent))|
    ensures Children(Masked(l, t, parent))[i] == Masked(l, Children(t)[i], Outer(l, t, parent, i))
  {
    SubStep(t, i, []);
    assert [i] + [] == [i] && [i][..0] == [];
  }

  // ---------------------------------------------------------------- the whole tree

  lemma RootIsSafe(l: Lexicon, t: Tree, parent: Option<SensitiveKeyType>)
    ensures SafeAt(l, t, parent, Masked(l, t, parent), [])
  {
  }

  /** What is found at the i-th child of the root. */
  lemma ChildPlace(l: Lexicon, t: Tree, parent: Option<SensitiveKeyType>, i: nat)
    requires i < |Children(t)|
    ensures Sub(t, [i]) == Some(Children(t)[i])
    ensures KeyOf(t, [i]) == if t.TRecord? then Some(KeyAt(t.keys, i)) else None
    ensures Nearest(l, t, parent, [i], 0) == parent
  {
    SubStep(t, i, []);
    assert [i] + [] == [i] && [i][..0] == [];
  }

  lemma ElementIsSafe(l: Lexicon, t: Tree, parent: Option<SensitiveKeyType>, i: nat)
    requires t.TArray? && i < |t.items|
    ensures Sub(t, [i]).Some? && SafeAt(l, t, parent, Masked(l, t, parent), [i])
  {
    var m := Masked(l, t, parent);
    ChildPlace(l, t, parent, i);
    ChildPlace(l, m, parent, i);
    assert MaskDue(l, t, parent, [i]).None?;
    assert m.items[i] == Masked(l, t.items[i], parent);
  }

  lemma SubValueKeys(key: string)
    ensures key in SENSITIVE_SUB_VALUES <==> key == "number" || key == "value" || key == "content"
  {
  }

  lemma FieldMaskDue(l: Lexicon, t: Tree, parent: Option<SensitiveKeyType>, i: nat)
    requires t.TRecord? && i < |t.items| && (t.items[i].TString? || t.items[i].TNumber?)
    ensures MaskDue(l, t, parent, [i]) == var own := SensitiveType(l, KeyAt(t.keys, i), LoggedTree(t.items[i]));
                                          if own.Some? then own
                                          else if KeyAt(t.keys, i) in SENSITIVE_SUB_VALUES then parent
                                          else None
  {
    ChildPlace(l, t, parent, i);
    SubValueKeys(KeyAt(t.keys, i));
  }

  lemma TextFieldIsShown(l: Lexicon, t: Tree, parent: Option<SensitiveKeyType>, i: nat)
    requires t.TRecord? && i < |t.items| && (t.items[i].TString? || t.items[i].TNumber?)
    ensures var after := MaskedField(l, KeyAt(t.keys, i), t.items[i], parent);
            ShownAs(MaskDue(l, t, parent, [i]), t.items[i].text, t.items[i], after)
  {
    FieldMaskDue(l, t, parent, i);
  }

  /** Any other field keeps its shape. */
  lemma OtherFieldKeepsShape(l: Lexicon, key: string, t: Tree, parent: Option<SensitiveKeyType>)
    requires !t.TString? && !t.TNumber?
    ensures var m := MaskedField(l, key, t, parent);
            match t
            case TArray(items) => m.TArray? && |m.items| == |items|
            case TRecord(keys, items) => m.TRecord? && m.keys == keys && |m.items| == |items|
            case _ => m == t
  {
  }

  lemma FieldIsSafe(l: Lexicon, t: Tree, parent: Option<SensitiveKeyType>, i: nat)
    requires t.TRecord? && i < |t.items|
    ensures Sub(t, [i]).Some? && SafeAt(l, t, parent, Masked(l, t, parent), [i])
  {
    var m := Masked(l, t, parent);
    ChildPlace(l, t, parent, i);
    ChildPlace(l, m, parent, i);
    assert Sub(m, [i]) == Some(MaskedField(l, KeyAt(t.keys, i), t.items[i], parent));
    if t.items[i].TString? || t.items[i].TNumber? {
      TextFieldIsShown(l, t, parent, i);
    } else {
      OtherFieldKeepsShape(l, KeyAt(t.keys, i), t.items[i], parent);
    }
  }

  lemma ChildIsSafe(l: Lexicon, t: Tree, parent: Option<SensitiveKeyType>, i: nat)
    requires i < |Children(t)|
    ensures Sub(t, [i]).Some? && SafeAt(l, t, parent, Masked(l, t, parent), [i])
  {
    if t.TArray? {
      ElementIsSafe(l, t, parent, i);
    } else {
      FieldIsSafe(l, t, parent, i);
    }
  }

  lemma {:induction false} PathIsSafe(l: Lexicon, t: Tree, parent: Option<SensitiveKeyType>, path: seq<nat>)
    requires Sub(t, path).Some?
    ensures SafeAt(l, t, parent, Masked(l, t, parent), path)
    decreases |path|
  {
    var m := Masked(l, t, parent);
    if path == [] {
      RootIsSafe(l, t, parent);
    } else if |path| == 1 {
      ChildIsSafe(l, t, parent, path[0]);
      assert path == [path[0]];
    } else {
      var i, rest := path[0], path[1..];
      assert path == [i] + rest;
      ContainerStep(l, t, parent, i);
      PathIsSafe(l, Children(t)[i], Outer(l, t, parent, i), rest);
      MaskDueStep(l, t, parent, i, rest);
      SubStep(t, i, rest);
      SubStep(m, i, rest);
    }
  }

  /** Masking leaves every place with the mask due to it, and nothing else changed. */
  lemma MaskedIsSafe(l: Lexicon, t: Tree, parent: Option<SensitiveKeyType>)
    ensures Safe(l, t, parent, Masked(l, t, parent))
  {
    forall path | Sub(t, path).Some? ensures SafeAt(l, t, parent, Masked(l, t, parent), path) {
      PathIsSafe(l, t, parent, path);
    }
  }

  /** `sanitizeObject(obj)` as a logger calls it. */
  method Sanitize(v: Value, l: Lexicon, ghost w: set<Node>) returns (r: Value, ghost world: set<Node>)
    requires Closed(w) && In(v, w)
    ensures w <= world && fresh(world - w) && Closed(world) && In(r, world)
    ensures Safe(l, old(TreeOf(v, w)), None, TreeOf(r, world))
  {
    MaskedIsSafe(l, TreeOf(v, w), None);
    r, world := SanitizeObject(v, None, l, w);
  }
}
