/** A Helm values tree, with the order its keys were written in. */
module Values {
  import opened Text
  import opened Wrappers

  /** Scalars and slice items are given as the text they render to. */
  datatype Value = Null | Scalar(text: string) | Slice(items: seq<string>) | Node(entries: Entries)

  datatype Entries = Nil | Cons(key: string, value: Value, rest: Entries)

  predicate HasKey(e: Entries, key: string) {
    match e
    case Nil => false
    case Cons(k, _, rest) => k == key || HasKey(rest, key)
  }

  function Lookup(e: Entries, key: string): Value
    requires HasKey(e, key)
  {
    if e.key == key then e.value else Lookup(e.rest, key)
  }

  /** No map has a key twice. */
  predicate WellFormed(e: Entries) {
    match e
    case Nil => true
    case Cons(k, v, rest) => !HasKey(rest, k) && (v.Node? ==> WellFormed(v.entries)) && WellFormed(rest)
  }

  /** A leaf: the keys leading to it, and its text; null entries are no leaves. */
  datatype Leaf = Leaf(path: seq<string>, text: string)

  function Under(key: string, leaves: seq<Leaf>): (r: seq<Leaf>)
    ensures |r| == |leaves|
  {
    seq(|leaves|, i requires 0 <= i < |leaves| => Leaf([key] + leaves[i].path, leaves[i].text))
  }

  function EntryLeaves(key: string, value: Value): seq<Leaf>
    decreases value
  {
    match value
    case Null => []
    case Scalar(text) => [Leaf([key], text)]
    case Slice(items) => [Leaf([key], Join(",", items))]
    case Node(entries) => Under(key, Leaves(entries))
  }

  function Leaves(e: Entries): seq<Leaf>
    decreases e
  {
    match e
    case Nil => []
    case Cons(k, v, rest) => EntryLeaves(k, v) + Leaves(rest)
  }

  /** The text at a path, found key by key. */
  function LeafAt(e: Entries, path: seq<string>): Option<string>
    decreases |path|
  {
    if path == [] || !HasKey(e, path[0]) then None
    else
      match Lookup(e, path[0])
      case Null => None
      case Scalar(text) => if |path| == 1 then Some(text) else None
      case Slice(items) => if |path| == 1 then Some(Join(",", items)) else None
      case Node(entries) => LeafAt(entries, path[1..])
  }

  lemma {:induction false} LeavesStartWithKeys(e: Entries)
    ensures forall l :: l in Leaves(e) ==> l.path != [] && HasKey(e, l.path[0])
  {
    if e.Cons? {
      LeavesStartWithKeys(e.rest);
    }
  }

  lemma EntryLeavesStartWith(key: string, value: Value)
    ensures forall l :: l in EntryLeaves(key, value) ==> l.path != [] && l.path[0] == key
  {
  }

  lemma UnderMembership(key: string, leaves: seq<Leaf>, path: seq<string>, text: string)
    requires path != []
    ensures Leaf(path, text) in Under(key, leaves) <==> path[0] == key && Leaf(path[1..], text) in leaves
  {
    var under := Under(key, leaves);
    if Leaf(path, text) in under {
      var i :| 0 <= i < |under| && under[i] == Leaf(path, text);
      assert path[1..] == leaves[i].path;
    }
    if path[0] == key && Leaf(path[1..], text) in leaves {
      var i :| 0 <= i < |leaves| && leaves[i] == Leaf(path[1..], text);
      assert path == [key] + path[1..];
      assert under[i] == Leaf(path, text);
    }
  }

  /** Walking the tree finds exactly the leaves that can be looked up. */
  lemma {:induction false} LeavesAreLookups(e: Entries, path: seq<string>, text: string)
    requires WellFormed(e)
    ensures Leaf(path, text) in Leaves(e) <==> LeafAt(e, path) == Some(text)
  {
    LeavesStartWithKeys(e);
    if e.Cons? && path != [] {
      EntryLeavesStartWith(e.key, e.value);
      LeavesAreLookups(e.rest, path, text);
      if path[0] == e.key {
        LeavesStartWithKeys(e.rest);
        if e.value.Node? {
          UnderMembership(e.key, Leaves(e.value.entries), path, text);
          LeavesAreLookups(e.value.entries, path[1..], text);
        } else {
          assert |path| == 1 ==> path == [e.key];
        }
      } else {
        assert LeafAt(e, path) == LeafAt(e.rest, path);
      }
    }
  }

  ghost predicate DistinctPaths(leaves: seq<Leaf>) {
    forall i, j :: 0 <= i < j < |leaves| ==> leaves[i].path != leaves[j].path
  }

  lemma {:induction false} LeavesAreDistinct(e: Entries)
    requires WellFormed(e)
    ensures DistinctPaths(Leaves(e))
  {
    if e.Cons? {
      var first, rest := EntryLeaves(e.key, e.value), Leaves(e.rest);
      LeavesAreDistinct(e.rest);
      LeavesStartWithKeys(e.rest);
      EntryLeavesStartWith(e.key, e.value);
      if e.value.Node? {
        LeavesAreDistinct(e.value.entries);
        var inner := Leaves(e.value.entries);
        forall i, j | 0 <= i < j < |first|
          ensures first[i].path != first[j].path
        {
          assert first[i].path[1..] == inner[i].path && first[j].path[1..] == inner[j].path;
        }
      }
      forall i, j | 0 <= i < |first| && 0 <= j < |rest|
        ensures first[i].path != rest[j].path
      {
        assert first[i] in first && rest[j] in rest;
      }
    }
  }

  /** One tree, its keys in any order. */
  ghost predicate SameTree(a: Entries, b: Entries) {
    forall path :: LeafAt(a, path) == LeafAt(b, path)
  }
}
