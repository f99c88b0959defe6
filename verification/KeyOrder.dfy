/**
 The order of keys in a values tree: sorted, as a Go template walks its maps, or with one
 leaf moved to the end, as a file may have been written.
 */
module KeyOrder {
  import opened Collections
  import opened StringOrder
  import opened Values
  import opened Wrappers

  // ----- Sorting

  function InsertKey(e: Entries, key: string, value: Value): Entries {
    match e
    case Nil => Cons(key, value, Nil)
    case Cons(k, v, rest) => if Less(key, k) then Cons(key, value, e) else Cons(k, v, InsertKey(rest, key, value))
  }

  function SortedValue(value: Value): Value
    decreases value
  {
    if value.Node? then Node(SortKeys(value.entries)) else value
  }

  /** The keys of every map in ascending order. */
  function SortKeys(e: Entries): Entries
    decreases e
  {
    match e
    case Nil => Nil
    case Cons(key, value, rest) => InsertKey(SortKeys(rest), key, SortedValue(value))
  }

  lemma {:induction false} InsertAdds(e: Entries, key: string, value: Value, other: string)
    requires !HasKey(e, key)
    ensures HasKey(InsertKey(e, key, value), other) <==> HasKey(e, other) || other == key
    ensures HasKey(InsertKey(e, key, value), key) && Lookup(InsertKey(e, key, value), key) == value
    ensures HasKey(e, other) ==> Lookup(InsertKey(e, key, value), other) == Lookup(e, other)
  {
    hide Less;
    if e.Cons? && !Less(key, e.key) {
      InsertAdds(e.rest, key, value, other);
    }
  }

  lemma {:induction false} InsertIsWellFormed(e: Entries, key: string, value: Value)
    requires WellFormed(e) && !HasKey(e, key) && (value.Node? ==> WellFormed(value.entries))
    ensures WellFormed(InsertKey(e, key, value))
  {
    hide Less;
    if e.Cons? && !Less(key, e.key) {
      InsertIsWellFormed(e.rest, key, value);
      InsertAdds(e.rest, key, value, e.key);
    }
  }

  lemma {:induction false} InsertedLeaves(e: Entries, key: string, value: Value)
    ensures |Leaves(InsertKey(e, key, value))| == |Leaves(e)| + |EntryLeaves(key, value)|
  {
    hide Less, EntryLeaves;
    if e.Cons? && !Less(key, e.key) {
      InsertedLeaves(e.rest, key, value);
    }
  }

  lemma {:induction false} SortedLeafCount(e: Entries)
    ensures |Leaves(SortKeys(e))| == |Leaves(e)|
  {
    hide InsertKey;
    if e.Cons? {
      SortedLeafCount(e.rest);
      InsertedLeaves(SortKeys(e.rest), e.key, SortedValue(e.value));
      if e.value.Node? {
        SortedLeafCount(e.value.entries);
      }
    }
  }

  lemma {:induction false} SortedLookup(e: Entries, key: string)
    requires WellFormed(e)
    ensures HasKey(SortKeys(e), key) <==> HasKey(e, key)
    ensures HasKey(e, key) ==> Lookup(SortKeys(e), key) == SortedValue(Lookup(e, key))
  {
    hide InsertKey;
    if e.Cons? {
      SortedLookup(e.rest, e.key);
      SortedLookup(e.rest, key);
      InsertAdds(SortKeys(e.rest), e.key, SortedValue(e.value), key);
    }
  }

  lemma {:induction false} SortedIsWellFormed(e: Entries)
    requires WellFormed(e)
    ensures WellFormed(SortKeys(e))
  {
    hide InsertKey;
    if e.Cons? {
      SortedIsWellFormed(e.rest);
      SortedLookup(e.rest, e.key);
      if e.value.Node? {
        SortedIsWellFormed(e.value.entries);
      }
      InsertIsWellFormed(SortKeys(e.rest), e.key, SortedValue(e.value));
    }
  }

  lemma {:induction false} SortedLeafAt(e: Entries, path: seq<string>)
    requires WellFormed(e)
    ensures LeafAt(SortKeys(e), path) == LeafAt(e, path)
    decreases |path|
  {
    hide SortKeys;
    if path != [] {
      SortedLookup(e, path[0]);
      if HasKey(e, path[0]) && Lookup(e, path[0]).Node? {
        LookupIsWellFormed(e, path[0]);
        SortedLeafAt(Lookup(e, path[0]).entries, path[1..]);
      }
    }
  }

  /** Sorting keeps the tree. */
  lemma SortKeepsTheTree(e: Entries)
    requires WellFormed(e)
    ensures WellFormed(SortKeys(e)) && SameTree(e, SortKeys(e)) && |Leaves(SortKeys(e))| == |Leaves(e)|
  {
    SortedIsWellFormed(e);
    SortedLeafCount(e);
    forall path ensures LeafAt(e, path) == LeafAt(SortKeys(e), path) {
      SortedLeafAt(e, path);
    }
  }

  ghost predicate Ascending(e: Entries) {
    e.Cons? ==>
      && (e.rest.Cons? ==> Less(e.key, e.rest.key))
      && (e.value.Node? ==> Ascending(e.value.entries))
      && Ascending(e.rest)
  }

  lemma {:induction false} InsertAscends(e: Entries, key: string, value: Value)
    requires Ascending(e) && !HasKey(e, key) && (value.Node? ==> Ascending(value.entries))
    ensures Ascending(InsertKey(e, key, value))
    ensures var inserted := InsertKey(e, key, value);
            inserted.Cons? && (inserted.key == key || (e.Cons? && inserted.key == e.key))
  {
    hide Less;
    if e.Cons? {
      LessTotal(key, e.key);
      if !Less(key, e.key) {
        InsertAscends(e.rest, key, value);
      }
    }
  }

  lemma {:induction false} SortAscends(e: Entries)
    requires WellFormed(e)
    ensures Ascending(SortKeys(e))
  {
    hide InsertKey, Less;
    if e.Cons? {
      SortAscends(e.rest);
      SortedLookup(e.rest, e.key);
      if e.value.Node? {
        SortAscends(e.value.entries);
      }
      InsertAscends(SortKeys(e.rest), e.key, SortedValue(e.value));
    }
  }

  /** Paths key by key. */
  predicate PathBefore(p: seq<string>, q: seq<string>) {
    if q == [] then false
    else if p == [] then true
    else if p[0] != q[0] then Less(p[0], q[0])
    else PathBefore(p[1..], q[1..])
  }

  lemma {:induction false} PathBeforeIsAsymmetric(p: seq<string>, q: seq<string>)
    ensures !(PathBefore(p, q) && PathBefore(q, p))
    decreases |p|
  {
    hide Less;
    if p != [] && q != [] {
      LessTotal(p[0], q[0]);
      if p[0] == q[0] {
        PathBeforeIsAsymmetric(p[1..], q[1..]);
      }
    }
  }

  lemma {:induction false} FirstIsLeast(e: Entries, key: string)
    requires Ascending(e) && e.Cons? && HasKey(e.rest, key)
    ensures Less(e.key, key)
  {
    hide Less;
    if e.rest.key != key {
      FirstIsLeast(e.rest, key);
      LessTransitive(e.key, e.rest.key, key);
    }
  }

  ghost predicate InOrder(leaves: seq<Leaf>) {
    forall i, j :: 0 <= i < j < |leaves| ==> PathBefore(leaves[i].path, leaves[j].path)
  }

  lemma UnderInOrder(key: string, leaves: seq<Leaf>)
    requires InOrder(leaves)
    ensures InOrder(Under(key, leaves))
  {
    hide Less;
    var under := Under(key, leaves);
    forall i, j | 0 <= i < j < |under|
      ensures PathBefore(under[i].path, under[j].path)
    {
      assert under[i].path[1..] == leaves[i].path && under[j].path[1..] == leaves[j].path;
    }
  }

  /** A sorted tree is walked in the order of its paths. */
  lemma {:induction false} AscendingLeaves(e: Entries)
    requires Ascending(e)
    ensures InOrder(Leaves(e))
  {
    hide Less;
    if e.Cons? {
      var first, rest := EntryLeaves(e.key, e.value), Leaves(e.rest);
      AscendingLeaves(e.rest);
      if e.value.Node? {
        AscendingLeaves(e.value.entries);
        UnderInOrder(e.key, Leaves(e.value.entries));
      }
      LeavesStartWithKeys(e.rest);
      EntryLeavesStartWith(e.key, e.value);
      forall i, j | 0 <= i < |first| && 0 <= j < |rest|
        ensures PathBefore(first[i].path, rest[j].path)
      {
        assert first[i] in first && rest[j] in rest;
        FirstIsLeast(e, rest[j].path[0]);
        LessTotal(e.key, rest[j].path[0]);
      }
    }
  }

  lemma {:induction false} OrderedLeavesAreUnique(a: seq<Leaf>, b: seq<Leaf>)
    requires InOrder(a) && InOrder(b) && forall l :: l in a <==> l in b
    ensures a == b
  {
    hide PathBefore;
    SomeMember(a);
    SomeMember(b);
    if a != [] && b != [] {
      assert a[0] in b && b[0] in a;
      PathBeforeIsAsymmetric(a[0].path, b[0].path);
      assert a[0] == b[0];
      forall l ensures l in a[1..] <==> l in b[1..] {
        PathBeforeIsAsymmetric(a[0].path, a[0].path);
        assert l in a <==> l == a[0] || l in a[1..];
        assert l in b <==> l == b[0] || l in b[1..];
        assert l in a <==> l in b;
      }
      OrderedLeavesAreUnique(a[1..], b[1..]);
      assert a == [a[0]] + a[1..] && b == [b[0]] + b[1..];
    }
  }

  /** However a tree was written, sorted it has the same leaves in the same order. */
  lemma SortedLeavesAreDetermined(a: Entries, b: Entries)
    requires WellFormed(a) && WellFormed(b) && SameTree(a, b)
    ensures Leaves(SortKeys(a)) == Leaves(SortKeys(b))
  {
    hide SortKeys, Leaves, LeafAt;
    SortKeepsTheTree(a);
    SortKeepsTheTree(b);
    SortAscends(a);
    SortAscends(b);
    AscendingLeaves(SortKeys(a));
    AscendingLeaves(SortKeys(b));
    forall l ensures l in Leaves(SortKeys(a)) <==> l in Leaves(SortKeys(b)) {
      LeavesAreLookups(SortKeys(a), l.path, l.text);
      LeavesAreLookups(SortKeys(b), l.path, l.text);
      assert LeafAt(a, l.path) == LeafAt(b, l.path);
    }
    OrderedLeavesAreUnique(Leaves(SortKeys(a)), Leaves(SortKeys(b)));
  }

  // ----- Moving one leaf to the end

  function Without(e: Entries, key: string): Entries {
    match e
    case Nil => Nil
    case Cons(k, v, rest) => if k == key then Without(rest, key) else Cons(k, v, Without(rest, key))
  }

  function Append(e: Entries, key: string, value: Value): Entries {
    match e
    case Nil => Cons(key, value, Nil)
    case Cons(k, v, rest) => Cons(k, v, Append(rest, key, value))
  }

  /** The same tree, written so that the leaf at the path comes last. */
  function MoveLast(e: Entries, path: seq<string>): Entries
    requires LeafAt(e, path).Some?
    decreases |path|
  {
    var value := Lookup(e, path[0]);
    Append(Without(e, path[0]), path[0],
           if value.Node? then Node(MoveLast(value.entries, path[1..])) else value)
  }

  lemma {:induction false} WithoutKeepsOthers(e: Entries, key: string, other: string)
    ensures HasKey(Without(e, key), other) <==> HasKey(e, other) && other != key
    ensures HasKey(e, other) && other != key ==> Lookup(Without(e, key), other) == Lookup(e, other)
  {
    if e.Cons? {
      WithoutKeepsOthers(e.rest, key, other);
    }
  }

  lemma {:induction false} WithoutIsWellFormed(e: Entries, key: string)
    requires WellFormed(e)
    ensures WellFormed(Without(e, key)) && !HasKey(Without(e, key), key)
  {
    if e.Cons? {
      WithoutIsWellFormed(e.rest, key);
      WithoutKeepsOthers(e.rest, key, e.key);
    }
  }

  lemma {:induction false} AppendAdds(e: Entries, key: string, value: Value, other: string)
    requires !HasKey(e, key)
    ensures HasKey(Append(e, key, value), other) <==> HasKey(e, other) || other == key
    ensures HasKey(Append(e, key, value), key) && Lookup(Append(e, key, value), key) == value
    ensures HasKey(e, other) ==> Lookup(Append(e, key, value), other) == Lookup(e, other)
  {
    if e.Cons? {
      AppendAdds(e.rest, key, value, other);
    }
  }

  lemma {:induction false} AppendIsWellFormed(e: Entries, key: string, value: Value)
    requires WellFormed(e) && !HasKey(e, key) && (value.Node? ==> WellFormed(value.entries))
    ensures WellFormed(Append(e, key, value))
  {
    if e.Cons? {
      AppendIsWellFormed(e.rest, key, value);
      AppendAdds(e.rest, key, value, e.key);
    }
  }

  lemma {:induction false} AppendedLeaves(e: Entries, key: string, value: Value)
    ensures Leaves(Append(e, key, value)) == Leaves(e) + EntryLeaves(key, value)
  {
    if e.Cons? {
      AppendedLeaves(e.rest, key, value);
    }
  }

  lemma {:induction false} LookupIsWellFormed(e: Entries, key: string)
    requires WellFormed(e) && HasKey(e, key) && Lookup(e, key).Node?
    ensures WellFormed(Lookup(e, key).entries)
  {
    if e.key != key {
      LookupIsWellFormed(e.rest, key);
    }
  }

  lemma {:induction false} MoveLastKeepsTheTree(e: Entries, moved: seq<string>, path: seq<string>)
    requires WellFormed(e) && LeafAt(e, moved).Some?
    ensures WellFormed(MoveLast(e, moved))
    ensures LeafAt(MoveLast(e, moved), path) == LeafAt(e, path)
    decreases |moved|
  {
    var key := moved[0];
    var value := Lookup(e, key);
    var others := Without(e, key);
    WithoutIsWellFormed(e, key);
    if value.Node? {
      LookupIsWellFormed(e, key);
      MoveLastKeepsTheTree(value.entries, moved[1..], if path == [] then [] else path[1..]);
    }
    var placed := if value.Node? then Node(MoveLast(value.entries, moved[1..])) else value;
    AppendIsWellFormed(others, key, placed);
    if path != [] {
      WithoutKeepsOthers(e, key, path[0]);
      AppendAdds(others, key, placed, path[0]);
    }
  }

  lemma {:induction false} MoveLastMovesLast(e: Entries, moved: seq<string>)
    requires LeafAt(e, moved).Some?
    ensures Leaves(MoveLast(e, moved)) != []
    ensures Leaves(MoveLast(e, moved))[|Leaves(MoveLast(e, moved))| - 1] == Leaf(moved, LeafAt(e, moved).value)
    decreases |moved|
  {
    var key := moved[0];
    var value := Lookup(e, key);
    assert moved == [key] + moved[1..];
    if value.Node? {
      MoveLastMovesLast(value.entries, moved[1..]);
      AppendedLeaves(Without(e, key), key, Node(MoveLast(value.entries, moved[1..])));
    } else {
      assert moved[1..] == [];
      AppendedLeaves(Without(e, key), key, value);
    }
  }
}
