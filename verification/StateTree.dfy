/** Nested dictionaries, dotted writes into them, and the structural difference of two of them. */
module StateTree {
  import opened Ordering
  import opened Sorting
  import opened Paths
  import Transition

  datatype Tree = None | Flag(b: bool) | Number(n: int) | Word(s: string) | Items(items: seq<Tree>)
    | Dict(fields: map<string, Tree>)

  datatype Outcome = Written(tree: Tree) | Raised

  type Path = seq<string>

  datatype Change = Change(path: Path, before: Tree, after: Tree)

  // Equality

  function Bit(b: bool): int {
    if b then 1 else 0
  }

  /** Python's ==, for which True is 1 and False is 0, at every level. */
  predicate Same(a: Tree, b: Tree)
    decreases a
  {
    match a
    case None => b.None?
    case Flag(x) => (b.Flag? && b.b == x) || (b.Number? && b.n == Bit(x))
    case Number(n) => (b.Number? && b.n == n) || (b.Flag? && Bit(b.b) == n)
    case Word(_) => a == b
    case Items(xs) => b.Items? && |xs| == |b.items| && forall i :: 0 <= i < |xs| ==> Same(xs[i], b.items[i])
    case Dict(m) => b.Dict? && m.Keys == b.fields.Keys && forall k :: k in m ==> Same(m[k], b.fields[k])
  }

  lemma {:induction false} SameReflexive(a: Tree)
    ensures Same(a, a)
    decreases a
  {
    match a
    case Items(xs) =>
      forall i | 0 <= i < |xs|
        ensures Same(xs[i], xs[i])
      {
        SameReflexive(xs[i]);
      }
    case Dict(m) =>
      forall k | k in m
        ensures Same(m[k], m[k])
      {
        SameReflexive(m[k]);
      }
    case _ =>
  }

  /** The value with every flag replaced by its number. */
  function Plain(t: Tree): Tree
    decreases t
  {
    match t
    case Flag(true) => Number(1)
    case Flag(false) => Number(0)
    case Items(xs) => Items(seq(|xs|, i requires 0 <= i < |xs| => Plain(xs[i])))
    case Dict(m) => Dict(map k | k in m :: Plain(m[k]))
    case _ => t
  }

  /** Two values are equal for Python exactly when they are the same up to True for 1 and False for 0;
      in particular that equality is an equivalence. */
  lemma {:induction false} SameIffPlain(a: Tree, b: Tree)
    ensures Same(a, b) <==> Plain(a) == Plain(b)
    decreases a
  {
    if a.Items? && b.Items? && |a.items| == |b.items| {
      forall i | 0 <= i < |a.items|
        ensures Same(a.items[i], b.items[i]) <==> Plain(a).items[i] == Plain(b).items[i]
      {
        SameIffPlain(a.items[i], b.items[i]);
      }
    } else if a.Dict? && b.Dict? && a.fields.Keys == b.fields.Keys {
      forall k | k in a.fields
        ensures Same(a.fields[k], b.fields[k]) <==> Plain(a).fields[k] == Plain(b).fields[k]
      {
        SameIffPlain(a.fields[k], b.fields[k]);
      }
    } else if a.Dict? && b.Dict? {
      assert Plain(a).fields.Keys == a.fields.Keys && Plain(b).fields.Keys == b.fields.Keys;
    }
  }

  // set_path

  /** A write along a path of keys; raises where a parent is missing or is not a dictionary. */
  function SetPath(t: Tree, path: Path, v: Tree): Outcome
    decreases |path|
  {
    if path == [] then Written(v)
    else if !t.Dict? then Raised
    else if |path| == 1 then Written(Dict(t.fields[path[0] := v]))
    else if path[0] !in t.fields then Raised
    else
      match SetPath(t.fields[path[0]], path[1..], v)
      case Raised => Raised
      case Written(child) => Written(Dict(t.fields[path[0] := child]))
  }

  /** The write the repository performs: along a dotted text. */
  function SetDotted(t: Tree, path: string, v: Tree): Outcome {
    SetPath(t, Split(path), v)
  }

  /** Reads along a path. */
  function Lookup(t: Tree, path: Path): Outcome
    decreases |path|
  {
    if path == [] then Written(t)
    else if !t.Dict? || path[0] !in t.fields then Raised
    else Lookup(t.fields[path[0]], path[1..])
  }

  /** A write goes through exactly when every parent on its path is there and is a dictionary. */
  lemma {:induction false} SetPathSucceedsIff(t: Tree, path: Path, v: Tree)
    ensures SetPath(t, path, v).Written? <==> forall k :: 0 <= k < |path| ==> HoldsDict(t, path[..k])
    decreases |path|
  {
    if path != [] {
      assert path[..0] == [];
      if t.Dict? && path[0] in t.fields {
        var rest := path[1..];
        SetPathSucceedsIff(t.fields[path[0]], rest, v);
        forall k | 0 < k < |path|
          ensures HoldsDict(t, path[..k]) <==> HoldsDict(t.fields[path[0]], rest[..k - 1])
        {
          assert path[..k][1..] == rest[..k - 1];
        }
        forall k | 0 <= k < |rest|
          ensures HoldsDict(t, path[..k + 1]) <==> HoldsDict(t.fields[path[0]], rest[..k])
        {
        }
      } else if |path| > 1 {
        assert HoldsDict(t, path[..1]) <==> false;
      }
    }
  }

  predicate HoldsDict(t: Tree, path: Path) {
    Lookup(t, path).Written? && Lookup(t, path).tree.Dict?
  }

  /** A write is read back, and leaves every path that is not above or below it alone. */
  lemma {:induction false} SetPathLookup(t: Tree, path: Path, v: Tree, other: Path)
    requires SetPath(t, path, v).Written?
    ensures Lookup(SetPath(t, path, v).tree, path) == Written(v)
    ensures !(path <= other) && !(other <= path) ==> Lookup(SetPath(t, path, v).tree, other) == Lookup(t, other)
    decreases |path|
  {
    if path != [] {
      var u := SetPath(t, path, v).tree;
      if |path| > 1 {
        var below := if other != [] then other[1..] else [];
        SetPathLookup(t.fields[path[0]], path[1..], v, below);
        if other != [] && other[0] == path[0] {
          assert path <= other <==> path[1..] <= below by {
            assert path == [path[0]] + path[1..] && other == [other[0]] + below;
          }
          assert other <= path <==> below <= path[1..] by {
            assert path == [path[0]] + path[1..] && other == [other[0]] + below;
          }
        }
      } else {
        assert path == [path[0]];
        assert Lookup(u.fields[path[0]], path[1..]) == Written(v);
        if other != [] && other[0] == path[0] {
          assert path <= other;
        }
      }
    }
  }

  // changed_fields

  /** sorted(set(before) | set(after)) */
  function KeysOf(before: map<string, Tree>, after: map<string, Tree>): seq<string> {
    Transition.SortedElements(before.Keys + after.Keys)
  }

  /** dict.get */
  function Get(fields: map<string, Tree>, key: string): Tree {
    if key in fields then fields[key] else None
  }

  function Extend(prefix: string, key: string): string {
    if prefix == "" then key else prefix + "." + key
  }

  type Changes = map<string, (Tree, Tree)>

  function ChangedFields(before: Tree, after: Tree, prefix: string): Changes
    decreases before, 1, 0
  {
    if before.Dict? && after.Dict? then
      ChangedUnder(before, after, KeysOf(before.fields, after.fields), prefix)
    else if !Same(before, after) then map[prefix := (before, after)]
    else map[]
  }

  /** The loop over the keys, updating the collected changes from left to right. */
  function ChangedUnder(before: Tree, after: Tree, keys: seq<string>, prefix: string): Changes
    requires before.Dict? && after.Dict?
    decreases before, 0, |keys|
  {
    if keys == [] then map[]
    else ChangedAt(before, after, keys[0], Extend(prefix, keys[0])) + ChangedUnder(before, after, keys[1..], prefix)
  }

  function ChangedAt(before: Tree, after: Tree, key: string, path: string): Changes
    requires before.Dict? && after.Dict?
    decreases before, 0, 0
  {
    if key !in before.fields || key !in after.fields then
      map[path := (Get(before.fields, key), Get(after.fields, key))]
    else ChangedFields(before.fields[key], after.fields[key], path)
  }

  lemma KeysOfMembers(before: map<string, Tree>, after: map<string, Tree>)
    ensures forall k :: k in KeysOf(before, after) <==> k in before || k in after
    ensures NoDuplicates(KeysOf(before, after))
  {
    Transition.SortedElementsCorrect(before.Keys + after.Keys);
    StrictIsSorted(KeysOf(before, after), Codes);
  }

  /** No recorded change means no difference, whatever the keys look like. */
  lemma {:induction false} NoChangeIffEqual(before: Tree, after: Tree, prefix: string)
    ensures ChangedFields(before, after, prefix) == map[] <==> Same(before, after)
    decreases before, 1, 0
  {
    if before.Dict? && after.Dict? {
      var keys := KeysOf(before.fields, after.fields);
      KeysOfMembers(before.fields, after.fields);
      NoChangeUnder(before, after, keys, prefix);
      SameOnKeys(before.fields, after.fields, keys);
      assert before == Dict(before.fields) && after == Dict(after.fields);
    } else if !Same(before, after) {
      assert prefix in ChangedFields(before, after, prefix);
    }
  }

  lemma SameOnKeys(m: map<string, Tree>, n: map<string, Tree>, keys: seq<string>)
    requires forall k :: k in keys <==> k in m || k in n
    ensures (forall k :: k in keys ==> (k in m && k in n && Same(m[k], n[k]))) <==> Same(Dict(m), Dict(n))
  {
    if forall k :: k in keys ==> (k in m && k in n && Same(m[k], n[k])) {
      assert m.Keys == n.Keys;
    }
  }

  lemma {:induction false} NoChangeUnder(before: Tree, after: Tree, keys: seq<string>, prefix: string)
    requires before.Dict? && after.Dict?
    ensures ChangedUnder(before, after, keys, prefix) == map[]
       <==> forall k :: k in keys ==>
              (k in before.fields && k in after.fields && Same(before.fields[k], after.fields[k]))
    decreases before, 0, |keys|
  {
    if keys != [] {
      var key, path := keys[0], Extend(prefix, keys[0]);
      NoChangeUnder(before, after, keys[1..], prefix);
      assert keys == [key] + keys[1..];
      if key in before.fields && key in after.fields {
        NoChangeIffEqual(before.fields[key], after.fields[key], path);
      } else {
        assert path in ChangedAt(before, after, key, path);
      }
    }
  }

  // The same difference with structured paths

  function Diff(before: Tree, after: Tree): seq<Change>
    decreases before, 1, 0
  {
    if before.Dict? && after.Dict? then DiffUnder(before, after, KeysOf(before.fields, after.fields))
    else if !Same(before, after) then [Change([], before, after)]
    else []
  }

  function DiffUnder(before: Tree, after: Tree, keys: seq<string>): seq<Change>
    requires before.Dict? && after.Dict?
    decreases before, 0, |keys|
  {
    if keys == [] then []
    else Below(keys[0], DiffAt(before, after, keys[0])) + DiffUnder(before, after, keys[1..])
  }

  function DiffAt(before: Tree, after: Tree, key: string): seq<Change>
    requires before.Dict? && after.Dict?
    decreases before, 0, 0
  {
    if key !in before.fields || key !in after.fields then
      [Change([], Get(before.fields, key), Get(after.fields, key))]
    else Diff(before.fields[key], after.fields[key])
  }

  /** The changes of a child, seen from its parent. */
  function Below(key: string, changes: seq<Change>): (r: seq<Change>)
    ensures |r| == |changes|
    ensures forall i :: 0 <= i < |r| ==> r[i] == changes[i].(path := [key] + changes[i].path)
  {
    seq(|changes|, i requires 0 <= i < |changes| => changes[i].(path := [key] + changes[i].path))
  }

  /** What a value holds at a path; None where there is nothing. */
  function Found(t: Tree, path: Path): Tree {
    match Lookup(t, path) case Written(v) => v case Raised => None
  }

  /** A change that tells what either side holds at its path, and that these differ. */
  ghost predicate Tells(c: Change, before: Tree, after: Tree) {
    && c.before == Found(before, c.path) && c.after == Found(after, c.path)
    && (Lookup(before, c.path).Raised? || Lookup(after, c.path).Raised? || !Same(c.before, c.after))
  }

  lemma TellsBelow(c: Change, before: Tree, after: Tree, key: string)
    requires before.Dict? && after.Dict? && key in before.fields && key in after.fields
    requires Tells(c, before.fields[key], after.fields[key])
    ensures Tells(c.(path := [key] + c.path), before, after)
  {
    assert ([key] + c.path)[1..] == c.path;
  }

  lemma TellsHere(before: Tree, after: Tree, key: string)
    requires before.Dict? && after.Dict? && (key !in before.fields || key !in after.fields)
    ensures Tells(Change([key], Get(before.fields, key), Get(after.fields, key)), before, after)
  {
    FoundAtKey(before, key);
    FoundAtKey(after, key);
  }

  lemma FoundAtKey(t: Tree, key: string)
    requires t.Dict?
    ensures Lookup(t, [key]) == if key in t.fields then Written(t.fields[key]) else Raised
  {
    assert [key][1..] == [];
  }

  /** Every recorded change tells what the first value held at its path, what the second one holds there,
      and that these differ. */
  lemma {:induction false} DiffTells(before: Tree, after: Tree)
    ensures forall c :: c in Diff(before, after) ==> Tells(c, before, after)
    decreases before, 1, 0
  {
    if before.Dict? && after.Dict? {
      DiffUnderTells(before, after, KeysOf(before.fields, after.fields));
    }
  }

  lemma {:induction false} DiffUnderTells(before: Tree, after: Tree, keys: seq<string>)
    requires before.Dict? && after.Dict?
    ensures forall c :: c in DiffUnder(before, after, keys) ==> Tells(c, before, after)
    decreases before, 0, |keys|
  {
    hide Tells;
    if keys != [] {
      var key := keys[0];
      DiffUnderTells(before, after, keys[1..]);
      var here := Below(key, DiffAt(before, after, key));
      forall c | c in here
        ensures Tells(c, before, after)
      {
        var i :| 0 <= i < |here| && here[i] == c;
        if key in before.fields && key in after.fields {
          DiffTells(before.fields[key], after.fields[key]);
          TellsBelow(DiffAt(before, after, key)[i], before, after, key);
        } else {
          TellsHere(before, after, key);
          assert [key] + [] == [key];
        }
      }
    }
  }

  // Patching

  /** Writes every recorded "after" at its path, in recording order. */
  function Patch(t: Tree, changes: seq<Change>): Outcome
    decreases |changes|
  {
    if changes == [] then Written(t)
    else
      match SetPath(t, changes[0].path, changes[0].after)
      case Raised => Raised
      case Written(u) => Patch(u, changes[1..])
  }

  /** What patching really produces: a key that disappeared is left behind as None. */
  function Merged(before: Tree, after: Tree): Tree
    decreases before
  {
    if before.Dict? && after.Dict? then
      Dict(map k | k in before.fields.Keys + after.fields.Keys ::
        if k in before.fields && k in after.fields then Merged(before.fields[k], after.fields[k])
        else Get(after.fields, k))
    else if Same(before, after) then before
    else after
  }

  lemma {:induction false} PatchConcat(t: Tree, a: seq<Change>, b: seq<Change>)
    ensures Patch(t, a + b) == match Patch(t, a) case Raised => Raised case Written(u) => Patch(u, b)
    decreases |a|
  {
    if a == [] {
      assert a + b == b;
    } else {
      assert (a + b)[1..] == a[1..] + b;
      var u := SetPath(t, a[0].path, a[0].after);
      if u.Written? {
        PatchConcat(u.tree, a[1..], b);
      }
    }
  }

  /** Patching below a key patches that child. */
  lemma {:induction false} PatchBelow(m: map<string, Tree>, key: string, changes: seq<Change>)
    requires key in m
    ensures Patch(Dict(m), Below(key, changes)) ==
      match Patch(m[key], changes) case Raised => Raised case Written(u) => Written(Dict(m[key := u]))
    decreases |changes|
  {
    if changes == [] {
      assert m[key := m[key]] == m;
    } else {
      var c, below := changes[0], Below(key, changes);
      assert below[0].path == [key] + c.path && below[0].path[1..] == c.path;
      assert below[1..] == Below(key, changes[1..]);
      var u := SetPath(m[key], c.path, c.after);
      if u.Written? {
        assert SetPath(Dict(m), below[0].path, c.after) == Written(Dict(m[key := u.tree]));
        PatchBelow(m[key := u.tree], key, changes[1..]);
        if Patch(u.tree, changes[1..]).Written? {
          var w := Patch(u.tree, changes[1..]).tree;
          assert m[key := u.tree][key := w] == m[key := w];
        }
      }
    }
  }

  /** Patching is total on the differences it is given, and this is what it yields. */
  lemma {:induction false} PatchYieldsMerged(before: Tree, after: Tree)
    ensures Patch(before, Diff(before, after)) == Written(Merged(before, after))
    decreases before, 1, 0
  {
    if before.Dict? && after.Dict? {
      hide Patch;
      var keys := KeysOf(before.fields, after.fields);
      KeysOfMembers(before.fields, after.fields);
      PatchUnder(before, after, keys, before.fields);
      var r := Patch(Dict(before.fields), DiffUnder(before, after, keys)).tree;
      EqualMaps(r.fields, Merged(before, after).fields, keys);
      assert before == Dict(before.fields);
    } else if !Same(before, after) {
      assert Diff(before, after)[1..] == [];
    }
  }

  lemma EqualMaps(m: map<string, Tree>, n: map<string, Tree>, keys: seq<string>)
    requires (forall k :: k in m <==> k in keys) && (forall k :: k in n <==> k in keys)
    requires forall k :: k in keys ==> m[k] == n[k]
    ensures m == n
  {
    assert m.Keys == n.Keys;
  }

  /** Patching one key installs its merged value. */
  lemma PatchKey(before: Tree, after: Tree, key: string, m: map<string, Tree>)
    requires before.Dict? && after.Dict? && (key in before.fields || key in after.fields)
    requires key in before.fields ==> key in m && m[key] == before.fields[key]
    ensures Patch(Dict(m), Below(key, DiffAt(before, after, key)))
         == Written(Dict(m[key := Merged(before, after).fields[key]]))
    decreases before, 0, 0
  {
    var changes := DiffAt(before, after, key);
    if key in before.fields && key in after.fields {
      PatchYieldsMerged(before.fields[key], after.fields[key]);
      PatchBelow(m, key, changes);
    }
  }

  lemma {:induction false} PatchUnder(before: Tree, after: Tree, keys: seq<string>, m: map<string, Tree>)
    requires before.Dict? && after.Dict? && NoDuplicates(keys)
    requires forall k :: k in keys ==> k in before.fields || k in after.fields
    requires forall k :: k in keys && k in before.fields ==> k in m && m[k] == before.fields[k]
    ensures var r := Patch(Dict(m), DiffUnder(before, after, keys));
      && r.Written? && r.tree.Dict?
      && r.tree.fields.Keys == m.Keys + (set k | k in keys)
      && (forall k :: k in m && k !in keys ==> r.tree.fields[k] == m[k])
      && (forall k :: k in keys ==> r.tree.fields[k] == Merged(before, after).fields[k])
    decreases before, 0, |keys|
  {
    hide DiffAt, Below;
    if keys != [] {
      var key, rest := keys[0], keys[1..];
      var value := Merged(before, after).fields[key];
      assert keys == [key] + rest;
      assert key !in rest;
      PatchKey(before, after, key, m);
      PatchConcat(Dict(m), Below(key, DiffAt(before, after, key)), DiffUnder(before, after, rest));
      PatchUnder(before, after, rest, m[key := value]);
    }
  }

  /** No key of before is absent from after, at any level the difference descends to. */
  predicate NothingDropped(before: Tree, after: Tree)
    decreases before
  {
    before.Dict? && after.Dict? ==>
      forall k :: k in before.fields ==> k in after.fields && NothingDropped(before.fields[k], after.fields[k])
  }

  lemma {:induction false} MergedIsAfterIff(before: Tree, after: Tree)
    ensures Same(Merged(before, after), after) <==> NothingDropped(before, after)
    decreases before
  {
    if before.Dict? && after.Dict? {
      forall k | k in before.fields && k in after.fields
        ensures Same(Merged(before.fields[k], after.fields[k]), after.fields[k])
           <==> NothingDropped(before.fields[k], after.fields[k])
      {
        MergedIsAfterIff(before.fields[k], after.fields[k]);
      }
      forall k | k in after.fields
        ensures Same(after.fields[k], after.fields[k])
      {
        SameReflexive(after.fields[k]);
      }
      var m := Merged(before, after);
      if NothingDropped(before, after) {
        assert m.fields.Keys == after.fields.Keys;
      }
      if Same(m, after) {
        forall k | k in before.fields
          ensures k in after.fields && NothingDropped(before.fields[k], after.fields[k])
        {
          assert k in m.fields && Same(m.fields[k], after.fields[k]);
        }
      }
    } else {
      SameReflexive(after);
    }
  }

  /** The round trip: the recorded changes turn before into after exactly when no key was dropped. */
  lemma DiffRoundTripIff(before: Tree, after: Tree)
    ensures var r := Patch(before, Diff(before, after));
      r.Written? && (Same(r.tree, after) <==> NothingDropped(before, after))
  {
    PatchYieldsMerged(before, after);
    MergedIsAfterIff(before, after);
  }

  /** The same keys and the same kinds of leaf, a missing number being None. */
  predicate SameShape(a: Tree, b: Tree)
    decreases a
  {
    match a
    case None => b.None? || b.Number?
    case Number(_) => b.None? || b.Number?
    case Flag(_) => b.Flag?
    case Word(_) => b.Word?
    case Items(xs) => b.Items? && (forall x :: x in xs ==> x.Word?) && (forall y :: y in b.items ==> y.Word?)
    case Dict(m) => b.Dict? && m.Keys == b.fields.Keys && forall k :: k in m ==> SameShape(m[k], b.fields[k])
  }

  /** Between trees of the same shape no key is dropped and Python's equality is equality. */
  lemma {:induction false} SameShapeIsExact(a: Tree, b: Tree)
    requires SameShape(a, b)
    ensures NothingDropped(a, b) && Merged(a, b) == b
    ensures Same(a, b) <==> a == b
    decreases a
  {
    match a
    case Items(xs) =>
      forall i | 0 <= i < |xs| && |xs| == |b.items|
        ensures Same(xs[i], b.items[i]) <==> xs[i] == b.items[i]
      {
        assert xs[i] in xs && b.items[i] in b.items;
      }
    case Dict(m) =>
      forall k | k in m
        ensures NothingDropped(m[k], b.fields[k]) && Merged(m[k], b.fields[k]) == b.fields[k]
        ensures Same(m[k], b.fields[k]) <==> m[k] == b.fields[k]
      {
        SameShapeIsExact(m[k], b.fields[k]);
      }
      assert Merged(a, b).fields == b.fields;
    case _ =>
  }

  // Dotted texts are faithful

  predicate PlainKey(key: string) {
    key != "" && DotFree(key)
  }

  /** Every key at every level is non-empty and contains no dot. */
  predicate PlainKeys(t: Tree)
    decreases t
  {
    t.Dict? ==> forall k :: k in t.fields ==> PlainKey(k) && PlainKeys(t.fields[k])
  }

  function Text(path: Path): string {
    if path == [] then "" else Join(path)
  }

  predicate PlainPath(path: Path) {
    forall k :: k in path ==> PlainKey(k)
  }

  lemma {:induction false} JoinSnoc(path: Path, key: string)
    requires path != []
    ensures Join(path + [key]) == Join(path) + "." + key
  {
    if |path| == 1 {
      assert (path + [key])[1..] == [key];
    } else {
      JoinSnoc(path[1..], key);
      assert (path + [key])[1..] == path[1..] + [key];
    }
  }

  lemma TextExtends(path: Path, key: string)
    requires PlainPath(path)
    ensures Text(path + [key]) == Extend(Text(path), key)
  {
    if path == [] {
      assert path + [key] == [key];
    } else {
      JoinSnoc(path, key);
      TextEmptyIff(path);
    }
  }

  /** Distinct plain paths have distinct texts, so no recorded change overwrites another. */
  lemma TextInjective(p: Path, q: Path)
    requires PlainPath(p) && PlainPath(q) && Text(p) == Text(q)
    ensures p == q
  {
    TextEmptyIff(p);
    TextEmptyIff(q);
    if p != [] {
      JoinInjective(p, q);
    }
  }

  lemma TextEmptyIff(p: Path)
    requires PlainPath(p)
    ensures Text(p) == "" <==> p == []
  {
    if p != [] {
      assert p[0] in p && p[0] != "";
    }
  }

  /** The dictionary a list of changes amounts to, below a prefix. */
  function AsChanges(prefix: Path, changes: seq<Change>): Changes {
    if changes == [] then map[]
    else map[Text(prefix + changes[0].path) := (changes[0].before, changes[0].after)] + AsChanges(prefix, changes[1..])
  }

  lemma {:induction false} AsChangesConcat(prefix: Path, a: seq<Change>, b: seq<Change>)
    ensures AsChanges(prefix, a + b) == AsChanges(prefix, a) + AsChanges(prefix, b)
    decreases |a|
  {
    if a == [] {
      assert a + b == b;
    } else {
      hide Text;
      AsChangesConcat(prefix, a[1..], b);
      var head := map[Text(prefix + a[0].path) := (a[0].before, a[0].after)];
      assert (a + b)[1..] == a[1..] + b;
      MergeAssociates(head, AsChanges(prefix, a[1..]), AsChanges(prefix, b));
    }
  }

  lemma MergeAssociates(a: Changes, b: Changes, c: Changes)
    ensures a + b + c == a + (b + c)
  {
  }

  lemma {:induction false} AsChangesBelow(prefix: Path, key: string, changes: seq<Change>)
    ensures AsChanges(prefix, Below(key, changes)) == AsChanges(prefix + [key], changes)
    decreases |changes|
  {
    if changes != [] {
      assert prefix + ([key] + changes[0].path) == prefix + [key] + changes[0].path;
      assert Below(key, changes)[1..] == Below(key, changes[1..]);
      AsChangesBelow(prefix, key, changes[1..]);
    }
  }

  /** The dictionary the repository builds is the structured difference, path by dotted path. */
  lemma {:induction false} ChangedFieldsIsDiff(before: Tree, after: Tree, prefix: Path)
    requires PlainKeys(before) && PlainKeys(after) && PlainPath(prefix)
    ensures ChangedFields(before, after, Text(prefix)) == AsChanges(prefix, Diff(before, after))
    decreases before, 1, 0
  {
    if before.Dict? && after.Dict? {
      KeysOfMembers(before.fields, after.fields);
      ChangedUnderIsDiff(before, after, KeysOf(before.fields, after.fields), prefix);
    } else if !Same(before, after) {
      assert prefix + [] == prefix;
      assert Diff(before, after)[1..] == [];
    }
  }

  lemma {:induction false} ChangedUnderIsDiff(before: Tree, after: Tree, keys: seq<string>, prefix: Path)
    requires before.Dict? && after.Dict? && PlainKeys(before) && PlainKeys(after) && PlainPath(prefix)
    requires forall k :: k in keys ==> PlainKey(k)
    ensures ChangedUnder(before, after, keys, Text(prefix)) == AsChanges(prefix, DiffUnder(before, after, keys))
    decreases before, 0, |keys|
  {
    if keys != [] {
      var key := keys[0];
      var path := prefix + [key];
      TextExtends(prefix, key);
      ChangedUnderIsDiff(before, after, keys[1..], prefix);
      AsChangesConcat(prefix, Below(key, DiffAt(before, after, key)), DiffUnder(before, after, keys[1..]));
      AsChangesBelow(prefix, key, DiffAt(before, after, key));
      if key in before.fields && key in after.fields {
        ChangedFieldsIsDiff(before.fields[key], after.fields[key], path);
      } else {
        assert path + [] == path;
        assert DiffAt(before, after, key)[1..] == [];
      }
    }
  }

  // Recorded paths never collide

  ghost predicate PathsApart(changes: seq<Change>) {
    forall i, j :: 0 <= i < j < |changes| ==>
      !(changes[i].path <= changes[j].path) && !(changes[j].path <= changes[i].path)
  }

  lemma {:induction false} DiffPathsApart(before: Tree, after: Tree)
    ensures PathsApart(Diff(before, after))
    decreases before, 1, 0
  {
    if before.Dict? && after.Dict? {
      KeysOfMembers(before.fields, after.fields);
      DiffUnderApart(before, after, KeysOf(before.fields, after.fields));
    }
  }

  lemma {:induction false} DiffUnderApart(before: Tree, after: Tree, keys: seq<string>)
    requires before.Dict? && after.Dict? && NoDuplicates(keys)
    ensures PathsApart(DiffUnder(before, after, keys))
    ensures forall c :: c in DiffUnder(before, after, keys) ==> c.path != [] && c.path[0] in keys
    decreases before, 0, |keys|
  {
    if keys != [] {
      var key := keys[0];
      var here, rest := DiffAt(before, after, key), DiffUnder(before, after, keys[1..]);
      DiffUnderApart(before, after, keys[1..]);
      if key in before.fields && key in after.fields {
        DiffPathsApart(before.fields[key], after.fields[key]);
      }
      assert PathsApart(here);
      BelowApart(key, here);
      var b := Below(key, here);
      forall i, j | 0 <= i < |b| && 0 <= j < |rest|
        ensures !(b[i].path <= rest[j].path) && !(rest[j].path <= b[i].path)
      {
        assert rest[j] in rest && b[i].path[0] == key && rest[j].path[0] in keys[1..];
      }
      assert keys == [key] + keys[1..];
    }
  }

  lemma BelowApart(key: string, changes: seq<Change>)
    requires PathsApart(changes)
    ensures PathsApart(Below(key, changes))
  {
    var b := Below(key, changes);
    forall i, j | 0 <= i < j < |b|
      ensures !(b[i].path <= b[j].path) && !(b[j].path <= b[i].path)
    {
      PrefixBelow(key, changes[i].path, changes[j].path);
      PrefixBelow(key, changes[j].path, changes[i].path);
    }
  }

  lemma PrefixBelow(key: string, p: Path, q: Path)
    ensures [key] + p <= [key] + q <==> p <= q
  {
    assert ([key] + p)[1..] == p && ([key] + q)[1..] == q;
  }

  // Writing back along the recorded texts

  /** set_path for every recorded text, in recording order. */
  function PatchDotted(t: Tree, records: seq<(string, Tree)>): Outcome
    decreases |records|
  {
    if records == [] then Written(t)
    else
      match SetDotted(t, records[0].0, records[0].1)
      case Raised => Raised
      case Written(u) => PatchDotted(u, records[1..])
  }

  /** What the recorded dictionary holds for writing back: dotted text and after-value. */
  function Recorded(changes: seq<Change>): (r: seq<(string, Tree)>)
    ensures |r| == |changes|
    ensures forall i :: 0 <= i < |r| ==> r[i] == (Text(changes[i].path), changes[i].after)
  {
    seq(|changes|, i requires 0 <= i < |changes| => (Text(changes[i].path), changes[i].after))
  }

  /** A dotted write along the text of a plain path is the write along the path. */
  lemma DottedWriteIsPathWrite(t: Tree, p: Path, v: Tree)
    requires p != [] && PlainPath(p)
    ensures SetDotted(t, Text(p), v) == SetPath(t, p, v)
  {
    SplitJoin(p);
  }

  ghost predicate PlainChanges(changes: seq<Change>) {
    forall c :: c in changes ==> c.path != [] && PlainPath(c.path)
  }

  lemma {:induction false} PatchDottedIsPatch(t: Tree, changes: seq<Change>)
    requires PlainChanges(changes)
    ensures PatchDotted(t, Recorded(changes)) == Patch(t, changes)
    decreases |changes|
  {
    if changes != [] {
      assert changes[0] in changes;
      DottedWriteIsPathWrite(t, changes[0].path, changes[0].after);
      assert Recorded(changes)[1..] == Recorded(changes[1..]);
      var u := SetPath(t, changes[0].path, changes[0].after);
      if u.Written? {
        PatchDottedIsPatch(u.tree, changes[1..]);
      }
    }
  }

  lemma {:induction false} DiffPathsPlain(before: Tree, after: Tree)
    requires PlainKeys(before) && PlainKeys(after)
    ensures forall c :: c in Diff(before, after) ==> PlainPath(c.path)
    ensures before.Dict? && after.Dict? ==> PlainChanges(Diff(before, after))
    decreases before, 1, 0
  {
    if before.Dict? && after.Dict? {
      KeysOfMembers(before.fields, after.fields);
      DiffUnderPlain(before, after, KeysOf(before.fields, after.fields));
    }
  }

  lemma {:induction false} DiffUnderPlain(before: Tree, after: Tree, keys: seq<string>)
    requires before.Dict? && after.Dict? && PlainKeys(before) && PlainKeys(after)
    requires forall k :: k in keys ==> PlainKey(k)
    ensures PlainChanges(DiffUnder(before, after, keys))
    decreases before, 0, |keys|
  {
    if keys != [] {
      var key := keys[0];
      var here := DiffAt(before, after, key);
      DiffUnderPlain(before, after, keys[1..]);
      if key in before.fields && key in after.fields {
        DiffPathsPlain(before.fields[key], after.fields[key]);
      }
      forall c | c in Below(key, here)
        ensures c.path != [] && PlainPath(c.path)
      {
        var i :| 0 <= i < |here| && Below(key, here)[i] == c;
        assert here[i] in here;
      }
    }
  }

  /** The round trip as it would be performed: set_path along every recorded dotted text turns one
      dictionary into the other exactly when no key was dropped. */
  lemma DottedRoundTripIff(before: Tree, after: Tree)
    requires before.Dict? && after.Dict? && PlainKeys(before) && PlainKeys(after)
    ensures var r := PatchDotted(before, Recorded(Diff(before, after)));
      r.Written? && (Same(r.tree, after) <==> NothingDropped(before, after))
  {
    DiffPathsPlain(before, after);
    PatchDottedIsPatch(before, Diff(before, after));
    DiffRoundTripIff(before, after);
  }
}
