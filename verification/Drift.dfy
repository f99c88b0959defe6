/**
 The two-way check between values.yaml and values.schema.json (deploy/chart/tools/schema-drift.py):
 keys of the values that no schema property covers, and properties no value stands for.
 */
module Drift {
  import opened Text
  import opened Values
  import opened Wrappers

  // ----- Schemas

  /** A branch that is no JSON object has no part of its own, and is given as the empty schema. */
  datatype Schema = Schema(properties: Option<Props>, allOf: Branches, anyOf: Branches, oneOf: Branches)

  datatype Props = End | Prop(key: string, schema: Schema, rest: Props)

  datatype Branches = Done | Branch(schema: Schema, rest: Branches)

  predicate Declares(props: Props, key: string) {
    match props
    case End => false
    case Prop(k, _, rest) => k == key || Declares(rest, key)
  }

  function Declared(props: Props, key: string): Schema
    requires Declares(props, key)
  {
    if props.key == key then props.schema else Declared(props.rest, key)
  }

  /** No object of the schema has a property twice. */
  predicate DistinctProps(props: Props) {
    props.Prop? ==> !Declares(props.rest, props.key) && DistinctProps(props.rest)
  }

  predicate WellFormedSchema(schema: Schema)
    decreases schema
  {
    && (schema.properties.Some? ==> WellFormedProps(schema.properties.value))
    && WellFormedBranches(schema.allOf) && WellFormedBranches(schema.anyOf) && WellFormedBranches(schema.oneOf)
  }

  predicate WellFormedProps(props: Props)
    decreases props
  {
    props.Prop? ==> !Declares(props.rest, props.key) && WellFormedSchema(props.schema) && WellFormedProps(props.rest)
  }

  predicate WellFormedBranches(branches: Branches)
    decreases branches
  {
    branches.Branch? ==> WellFormedSchema(branches.schema) && WellFormedBranches(branches.rest)
  }

  function SizeOfSchema(schema: Schema): nat
    decreases schema
  {
    1 + (if schema.properties.Some? then SizeOfProps(schema.properties.value) else 0)
    + SizeOfBranches(schema.allOf) + SizeOfBranches(schema.anyOf) + SizeOfBranches(schema.oneOf)
  }

  function SizeOfProps(props: Props): nat
    decreases props
  {
    if props.End? then 0 else SizeOfSchema(props.schema) + SizeOfProps(props.rest)
  }

  function SizeOfBranches(branches: Branches): nat
    decreases branches
  {
    if branches.Done? then 0 else SizeOfSchema(branches.schema) + SizeOfBranches(branches.rest)
  }

  // ----- Unwrapping allOf, anyOf and oneOf

  /** Assigning one property: in its place when it is there, at the end when it is new. */
  function Put(props: Props, key: string, schema: Schema): Props {
    match props
    case End => Prop(key, schema, End)
    case Prop(k, s, rest) => if k == key then Prop(k, schema, rest) else Prop(k, s, Put(rest, key, schema))
  }

  function Updated(props: Props, more: Props): Props
    decreases more
  {
    if more.End? then props else Updated(Put(props, more.key, more.schema), more.rest)
  }

  function MergedAfter(merged: Props, branches: Branches): Props
    decreases branches
  {
    if branches.Done? then merged
    else
      MergedAfter(if branches.schema.properties.Some? then Updated(merged, branches.schema.properties.value) else merged,
                  branches.rest)
  }

  function FirstObject(branches: Branches): Option<Schema> {
    if branches.Done? then None
    else if branches.schema.properties.Some? then Some(branches.schema)
    else FirstObject(branches.rest)
  }

  function Unwrapped(node: Schema): Schema {
    if node.properties.Some? then node
    else
      var merged := MergedAfter(End, node.allOf);
      if merged.Prop? then Schema(Some(merged), Done, Done, Done)
      else if FirstObject(node.anyOf).Some? then FirstObject(node.anyOf).value
      else if FirstObject(node.oneOf).Some? then FirstObject(node.oneOf).value
      else node
  }

  method Update(props: Props, more: Props) returns (updated: Props)
    ensures updated == Updated(props, more)
  {
    updated := props;
    var todo := more;
    while todo.Prop?
      invariant Updated(updated, todo) == Updated(props, more)
      decreases todo
    {
      updated := Put(updated, todo.key, todo.schema);
      todo := todo.rest;
    }
  }

  method Unwrap(node: Schema) returns (schema: Schema)
    ensures schema == Unwrapped(node)
  {
    if node.properties.Some? {
      return node;
    }
    var merged := End;
    var todo := node.allOf;
    while todo.Branch?
      invariant MergedAfter(merged, todo) == MergedAfter(End, node.allOf)
      decreases todo
    {
      if todo.schema.properties.Some? {
        merged := Update(merged, todo.schema.properties.value);
      }
      todo := todo.rest;
    }
    if merged.Prop? {
      return Schema(Some(merged), Done, Done, Done);
    }
    for i := 0 to 2
      invariant i > 0 ==> FirstObject(node.anyOf).None?
      invariant i > 1 ==> FirstObject(node.oneOf).None?
    {
      var branches := if i == 0 then node.anyOf else node.oneOf;
      var left := branches;
      while left.Branch?
        invariant FirstObject(left) == FirstObject(branches)
        decreases left
      {
        if left.schema.properties.Some? {
          return left.schema;
        }
        left := left.rest;
      }
    }
    return node;
  }

  lemma {:induction false} PutSets(props: Props, key: string, schema: Schema, other: string)
    ensures Declares(Put(props, key, schema), other) <==> Declares(props, other) || other == key
    ensures Declares(Put(props, key, schema), key) && Declared(Put(props, key, schema), key) == schema
    ensures other != key && Declares(props, other) ==> Declared(Put(props, key, schema), other) == Declared(props, other)
    ensures SizeOfProps(Put(props, key, schema)) <= SizeOfProps(props) + SizeOfSchema(schema)
  {
    if props.Prop? && props.key != key {
      PutSets(props.rest, key, schema, other);
    }
  }

  lemma {:induction false} PutIsWellFormed(props: Props, key: string, schema: Schema)
    requires WellFormedProps(props) && WellFormedSchema(schema)
    ensures WellFormedProps(Put(props, key, schema))
  {
    if props.Prop? && props.key != key {
      PutIsWellFormed(props.rest, key, schema);
      PutSets(props.rest, key, schema, props.key);
    }
  }

  lemma {:induction false} UpdatedSets(props: Props, more: Props, key: string)
    requires DistinctProps(more)
    ensures Declares(Updated(props, more), key) <==> Declares(props, key) || Declares(more, key)
    ensures Declares(more, key) ==> Declared(Updated(props, more), key) == Declared(more, key)
    ensures !Declares(more, key) && Declares(props, key) ==> Declared(Updated(props, more), key) == Declared(props, key)
    decreases more
  {
    if more.Prop? {
      UpdatedSets(Put(props, more.key, more.schema), more.rest, key);
      PutSets(props, more.key, more.schema, key);
    }
  }

  lemma {:induction false} UpdatedSize(props: Props, more: Props)
    ensures SizeOfProps(Updated(props, more)) <= SizeOfProps(props) + SizeOfProps(more)
    decreases more
  {
    if more.Prop? {
      UpdatedSize(Put(props, more.key, more.schema), more.rest);
      PutSets(props, more.key, more.schema, more.key);
    }
  }

  lemma {:induction false} UpdatedIsWellFormed(props: Props, more: Props)
    requires WellFormedProps(props) && WellFormedProps(more)
    ensures WellFormedProps(Updated(props, more))
    decreases more
  {
    if more.Prop? {
      PutIsWellFormed(props, more.key, more.schema);
      UpdatedIsWellFormed(Put(props, more.key, more.schema), more.rest);
    }
  }

  lemma {:induction false} WellFormedIsDistinct(props: Props)
    requires WellFormedProps(props)
    ensures DistinctProps(props)
  {
    if props.Prop? {
      WellFormedIsDistinct(props.rest);
    }
  }

  /** The last branch of a conjunction that declares the property. */
  function LastDeclaring(branches: Branches, key: string): Option<Schema> {
    if branches.Done? then None
    else if LastDeclaring(branches.rest, key).Some? then LastDeclaring(branches.rest, key)
    else if branches.schema.properties.Some? && Declares(branches.schema.properties.value, key)
    then Some(Declared(branches.schema.properties.value, key))
    else None
  }

  /** Merging a conjunction keeps every property of every branch; of two declarations the later stays. */
  lemma {:induction false} MergeKeepsEveryProperty(merged: Props, branches: Branches, key: string)
    requires WellFormedBranches(branches)
    ensures Declares(MergedAfter(merged, branches), key) <==>
      Declares(merged, key) || LastDeclaring(branches, key).Some?
    ensures LastDeclaring(branches, key).Some? ==>
      Declared(MergedAfter(merged, branches), key) == LastDeclaring(branches, key).value
    ensures LastDeclaring(branches, key).None? && Declares(merged, key) ==>
      Declared(MergedAfter(merged, branches), key) == Declared(merged, key)
    decreases branches
  {
    if branches.Branch? {
      if branches.schema.properties.Some? {
        var more := branches.schema.properties.value;
        WellFormedIsDistinct(more);
        UpdatedSets(merged, more, key);
        MergeKeepsEveryProperty(Updated(merged, more), branches.rest, key);
      } else {
        MergeKeepsEveryProperty(merged, branches.rest, key);
      }
    }
  }

  lemma {:induction false} MergedSize(merged: Props, branches: Branches)
    ensures SizeOfProps(MergedAfter(merged, branches)) <= SizeOfProps(merged) + SizeOfBranches(branches)
    decreases branches
  {
    if branches.Branch? {
      if branches.schema.properties.Some? {
        UpdatedSize(merged, branches.schema.properties.value);
        MergedSize(Updated(merged, branches.schema.properties.value), branches.rest);
      } else {
        MergedSize(merged, branches.rest);
      }
    }
  }

  lemma {:induction false} MergedIsWellFormed(merged: Props, branches: Branches)
    requires WellFormedProps(merged) && WellFormedBranches(branches)
    ensures WellFormedProps(MergedAfter(merged, branches))
    decreases branches
  {
    if branches.Branch? {
      if branches.schema.properties.Some? {
        UpdatedIsWellFormed(merged, branches.schema.properties.value);
        MergedIsWellFormed(Updated(merged, branches.schema.properties.value), branches.rest);
      } else {
        MergedIsWellFormed(merged, branches.rest);
      }
    }
  }

  lemma {:induction false} FirstObjectIsInside(branches: Branches)
    requires FirstObject(branches).Some?
    ensures SizeOfSchema(FirstObject(branches).value) <= SizeOfBranches(branches)
    ensures WellFormedBranches(branches) ==> WellFormedSchema(FirstObject(branches).value)
  {
    if branches.schema.properties.None? {
      FirstObjectIsInside(branches.rest);
    }
  }

  /** Unwrapping never makes a schema larger, which is what makes the walk end. */
  lemma UnwrapIsNoLarger(node: Schema)
    ensures SizeOfSchema(Unwrapped(node)) <= SizeOfSchema(node)
    ensures WellFormedSchema(node) ==> WellFormedSchema(Unwrapped(node))
  {
    MergedSize(End, node.allOf);
    if WellFormedSchema(node) {
      MergedIsWellFormed(End, node.allOf);
    }
    if FirstObject(node.anyOf).Some? { FirstObjectIsInside(node.anyOf); }
    if FirstObject(node.oneOf).Some? { FirstObjectIsInside(node.oneOf); }
  }

  lemma {:induction false} DeclaredIsInside(props: Props, key: string)
    requires Declares(props, key)
    ensures SizeOfSchema(Declared(props, key)) <= SizeOfProps(props)
    ensures WellFormedProps(props) ==> WellFormedSchema(Declared(props, key))
  {
    if props.key != key {
      DeclaredIsInside(props.rest, key);
    }
  }

  // ----- What unwrapping gives

  function List(branches: Branches): seq<Schema> {
    if branches.Done? then [] else [branches.schema] + List(branches.rest)
  }

  predicate HasProp(schema: Schema, key: string) {
    schema.properties.Some? && Declares(schema.properties.value, key)
  }

  /** The schema is what the last branch to declare the property says of it. */
  ghost predicate SaidLast(branches: seq<Schema>, key: string, schema: Schema) {
    exists i :: 0 <= i < |branches| && HasProp(branches[i], key)
      && Declared(branches[i].properties.value, key) == schema
      && forall j :: i < j < |branches| ==> !HasProp(branches[j], key)
  }

  /** The schema is the first branch with properties. */
  ghost predicate ObjectFirst(branches: seq<Schema>, schema: Schema) {
    exists i :: 0 <= i < |branches| && branches[i] == schema && schema.properties.Some?
      && forall j :: 0 <= j < i ==> branches[j].properties.None?
  }

  ghost predicate SomeDeclares(branches: seq<Schema>, key: string) {
    exists i :: 0 <= i < |branches| && HasProp(branches[i], key)
  }

  lemma {:induction false} LastDeclaringIsLast(branches: Branches, key: string)
    ensures LastDeclaring(branches, key).Some? <==> SomeDeclares(List(branches), key)
    ensures LastDeclaring(branches, key).Some? ==> SaidLast(List(branches), key, LastDeclaring(branches, key).value)
  {
    if branches.Branch? {
      var rest, list := List(branches.rest), List(branches);
      LastDeclaringIsLast(branches.rest, key);
      assert forall i :: 0 <= i < |rest| ==> list[i + 1] == rest[i];
      if LastDeclaring(branches.rest, key).Some? {
        var i :| 0 <= i < |rest| && HasProp(rest[i], key)
          && Declared(rest[i].properties.value, key) == LastDeclaring(branches, key).value
          && forall j :: i < j < |rest| ==> !HasProp(rest[j], key);
        assert HasProp(list[i + 1], key);
        forall j | i + 1 < j < |list| ensures !HasProp(list[j], key) {
          assert list[j] == rest[j - 1];
        }
      } else {
        forall j | 0 < j < |list| ensures !HasProp(list[j], key) {
          assert list[j] == rest[j - 1];
        }
        if HasProp(list[0], key) {
          assert SaidLast(list, key, Declared(list[0].properties.value, key));
        }
      }
    }
  }

  lemma {:induction false} FirstObjectIsFirst(branches: Branches)
    ensures FirstObject(branches).Some? ==> ObjectFirst(List(branches), FirstObject(branches).value)
    ensures FirstObject(branches).None? ==> forall i :: 0 <= i < |List(branches)| ==> List(branches)[i].properties.None?
  {
    if branches.Branch? {
      var rest, list := List(branches.rest), List(branches);
      FirstObjectIsFirst(branches.rest);
      if branches.schema.properties.Some? {
        assert list[0] == branches.schema;
      } else if FirstObject(branches.rest).Some? {
        var i :| 0 <= i < |rest| && rest[i] == FirstObject(branches.rest).value
          && forall j :: 0 <= j < i ==> rest[j].properties.None?;
        assert list[i + 1] == rest[i];
        assert forall j :: 0 <= j < i + 1 ==> list[j].properties.None?;
      }
    }
  }

  /** Every property some branch declares, each as the last of them says it, and nothing else. */
  ghost predicate Conjunction(branches: seq<Schema>, schema: Schema) {
    && schema.properties.Some?
    && (forall key :: Declares(schema.properties.value, key) <==> SomeDeclares(branches, key))
    && (forall key :: Declares(schema.properties.value, key) ==> SaidLast(branches, key, Declared(schema.properties.value, key)))
  }

  ghost predicate NoProperty(branches: seq<Schema>) {
    forall key :: !SomeDeclares(branches, key)
  }

  ghost predicate NoObject(branches: seq<Schema>) {
    forall i :: 0 <= i < |branches| ==> branches[i].properties.None?
  }

  /**
   A node with properties stays as it is. Any other stands for the conjunction of its
   allOf branches, when these declare anything; else for the first of its anyOf branches
   that has properties; else for the first such oneOf branch; else for itself.
   */
  lemma UnwrapsExactly(node: Schema)
    requires WellFormedSchema(node)
    ensures
      if node.properties.Some? then Unwrapped(node) == node
      else if !NoProperty(List(node.allOf)) then Conjunction(List(node.allOf), Unwrapped(node))
      else if !NoObject(List(node.anyOf)) then ObjectFirst(List(node.anyOf), Unwrapped(node))
      else if !NoObject(List(node.oneOf)) then ObjectFirst(List(node.oneOf), Unwrapped(node))
      else Unwrapped(node) == node
  {
    hide WellFormedBranches, WellFormedProps, MergedAfter, FirstObject, SaidLast, SomeDeclares, LastDeclaring, ObjectFirst;
    var merged := MergedAfter(End, node.allOf);
    forall key
      ensures Declares(merged, key) <==> SomeDeclares(List(node.allOf), key)
      ensures Declares(merged, key) ==> SaidLast(List(node.allOf), key, Declared(merged, key))
    {
      MergeKeepsEveryProperty(End, node.allOf, key);
      LastDeclaringIsLast(node.allOf, key);
    }
    if merged.Prop? {
      assert Declares(merged, merged.key);
    } else {
      assert NoProperty(List(node.allOf));
    }
    FirstObjectIsFirst(node.anyOf);
    FirstObjectIsFirst(node.oneOf);
    FirstHasProperties(List(node.anyOf));
    FirstHasProperties(List(node.oneOf));
  }

  lemma FirstHasProperties(branches: seq<Schema>)
    ensures forall schema :: ObjectFirst(branches, schema) ==> !NoObject(branches)
  {
  }

  // ----- The walk

  datatype Kind = Unvalidated | Dead

  /** A finding names the keys on the way to it. */
  datatype Finding = Finding(kind: Kind, path: seq<string>)

  function Below(key: string, findings: seq<Finding>): (r: seq<Finding>)
    ensures |r| == |findings|
  {
    seq(|findings|, i requires 0 <= i < |findings| => Finding(findings[i].kind, [key] + findings[i].path))
  }

  predicate Has(value: Value, key: string) {
    value.Node? && HasKey(value.entries, key)
  }

  function DriftOfEntry(key: string, value: Value, props: Props): seq<Finding>
    decreases SizeOfProps(props) + 1, 0
  {
    if !Declares(props, key) then [Finding(Unvalidated, [key])]
    else
      DeclaredIsInside(props, key);
      UnwrapIsNoLarger(Declared(props, key));
      Below(key, DriftOf(value, Unwrapped(Declared(props, key))))
  }

  function DriftOfEntries(entries: Entries, props: Props): seq<Finding>
    decreases SizeOfProps(props) + 1, 1, entries
  {
    if entries.Nil? then []
    else DriftOfEntry(entries.key, entries.value, props) + DriftOfEntries(entries.rest, props)
  }

  function DeadProps(value: Value, props: Props): seq<Finding> {
    if props.End? then []
    else (if Has(value, props.key) then [] else [Finding(Dead, [props.key])]) + DeadProps(value, props.rest)
  }

  /** What the walk finds, in its order. */
  function DriftOf(value: Value, schema: Schema): seq<Finding>
    decreases SizeOfSchema(schema), 2
  {
    if schema.properties.None? then []
    else
      (if value.Node? then DriftOfEntries(value.entries, schema.properties.value) else [])
      + DeadProps(value, schema.properties.value)
  }

  /** The value and schema the walk comes to along keys both sides have. */
  function Reach(value: Value, schema: Schema, path: seq<string>): Option<(Value, Schema)>
    decreases |path|
  {
    if path == [] then Some((value, schema))
    else if schema.properties.Some? && Has(value, path[0]) && Declares(schema.properties.value, path[0]) then
      Reach(Lookup(value.entries, path[0]), Unwrapped(Declared(schema.properties.value, path[0])), path[1..])
    else None
  }

  /** From a node it came to, the walk goes on along each key the value and the unwrapped schema share, and no other. */
  lemma {:induction false} ReachGoesOn(value: Value, schema: Schema, path: seq<string>, key: string)
    ensures Reach(value, schema, []) == Some((value, schema))
    ensures var at := Reach(value, schema, path);
            Reach(value, schema, path + [key]) ==
              if at.Some? && Has(at.value.0, key) && HasProp(at.value.1, key) then
                Some((Lookup(at.value.0.entries, key), Unwrapped(Declared(at.value.1.properties.value, key))))
              else None
    decreases |path|
  {
    hide Unwrapped;
    var longer := path + [key];
    if path == [] {
      assert longer[0] == key && longer[1..] == [];
    } else {
      assert longer[0] == path[0] && longer[1..] == path[1..] + [key];
      if schema.properties.Some? && Has(value, path[0]) && Declares(schema.properties.value, path[0]) {
        ReachGoesOn(Lookup(value.entries, path[0]), Unwrapped(Declared(schema.properties.value, path[0])), path[1..], key);
      }
    }
  }

  predicate Differs(kind: Kind, value: Value, schema: Schema, key: string) {
    schema.properties.Some? &&
    match kind
    case Unvalidated => Has(value, key) && !Declares(schema.properties.value, key)
    case Dead => Declares(schema.properties.value, key) && !Has(value, key)
  }

  predicate WellFormedValue(value: Value) {
    value.Node? ==> WellFormed(value.entries)
  }

  lemma BelowMembership(key: string, findings: seq<Finding>, f: Finding)
    ensures f in Below(key, findings) <==>
      f.path != [] && f.path[0] == key && Finding(f.kind, f.path[1..]) in findings
  {
    var below := Below(key, findings);
    if f in below {
      var i :| 0 <= i < |below| && below[i] == f;
      assert f.path[1..] == findings[i].path;
    }
    if f.path != [] && f.path[0] == key && Finding(f.kind, f.path[1..]) in findings {
      var i :| 0 <= i < |findings| && findings[i] == Finding(f.kind, f.path[1..]);
      assert f.path == [key] + f.path[1..];
      assert below[i] == f;
    }
  }

  lemma {:induction false} DeadMembership(value: Value, props: Props, f: Finding)
    ensures f in DeadProps(value, props) <==>
      f.kind.Dead? && |f.path| == 1 && Declares(props, f.path[0]) && !Has(value, f.path[0])
  {
    if props.Prop? {
      DeadMembership(value, props.rest, f);
      assert |f.path| == 1 ==> f.path == [f.path[0]];
    }
  }

  lemma {:induction false} LookupIsWellFormedValue(entries: Entries, key: string)
    requires WellFormed(entries) && HasKey(entries, key)
    ensures WellFormedValue(Lookup(entries, key))
  {
    if entries.key != key {
      LookupIsWellFormedValue(entries.rest, key);
    }
  }

  function Child(props: Props, key: string): Schema
    requires Declares(props, key)
  {
    Unwrapped(Declared(props, key))
  }

  lemma {:induction false} EntriesMembership(entries: Entries, props: Props, f: Finding)
    requires WellFormed(entries)
    ensures f in DriftOfEntries(entries, props) <==>
      && f.path != [] && HasKey(entries, f.path[0])
      && if !Declares(props, f.path[0]) then f == Finding(Unvalidated, [f.path[0]])
         else Finding(f.kind, f.path[1..]) in DriftOf(Lookup(entries, f.path[0]), Child(props, f.path[0]))
    decreases entries
  {
    hide DriftOf, Unwrapped, Below;
    if entries.Cons? {
      EntriesMembership(entries.rest, props, f);
      if Declares(props, entries.key) {
        BelowMembership(entries.key, DriftOf(entries.value, Child(props, entries.key)), f);
      }
    }
  }

  /** The walk reports exactly the key differences at the nodes both sides share. */
  lemma {:induction false} FindingsAreDifferences(value: Value, schema: Schema, f: Finding)
    requires WellFormedValue(value)
    ensures f in DriftOf(value, schema) <==>
      f.path != [] &&
      var at := Reach(value, schema, f.path[..|f.path| - 1]);
      at.Some? && Differs(f.kind, at.value.0, at.value.1, f.path[|f.path| - 1])
    decreases |f.path|
  {
    if schema.properties.Some? {
      var props := schema.properties.value;
      DeadMembership(value, props, f);
      if value.Node? {
        EntriesMembership(value.entries, props, f);
      }
      if |f.path| == 1 {
        assert f.path == [f.path[0]];
        if Has(value, f.path[0]) && Declares(props, f.path[0]) {
          LookupIsWellFormedValue(value.entries, f.path[0]);
          FindingsAreDifferences(Lookup(value.entries, f.path[0]), Child(props, f.path[0]), Finding(f.kind, f.path[1..]));
        }
      } else if |f.path| > 1 {
        var front, rest := f.path[..|f.path| - 1], f.path[1..];
        assert front[1..] == rest[..|rest| - 1] && front[0] == f.path[0];
        if Has(value, f.path[0]) && Declares(props, f.path[0]) {
          LookupIsWellFormedValue(value.entries, f.path[0]);
          FindingsAreDifferences(Lookup(value.entries, f.path[0]), Child(props, f.path[0]), Finding(f.kind, rest));
        }
      }
    } else if f.path != [] {
      assert f.path[..|f.path| - 1] == [] || Reach(value, schema, f.path[..|f.path| - 1]).None?;
    }
  }

  ghost predicate NoDuplicates<T>(s: seq<T>) {
    forall i, j :: 0 <= i < j < |s| ==> s[i] != s[j]
  }

  lemma NoDuplicatesConcat<T>(a: seq<T>, b: seq<T>)
    requires NoDuplicates(a) && NoDuplicates(b) && (forall x :: x in a ==> x !in b)
    ensures NoDuplicates(a + b)
  {
    forall i, j | 0 <= i < j < |a + b| ensures (a + b)[i] != (a + b)[j] {
      if i < |a| <= j {
        assert a[i] in a && b[j - |a|] in b;
      }
    }
  }

  lemma BelowKeepsDistinct(key: string, findings: seq<Finding>)
    requires NoDuplicates(findings)
    ensures NoDuplicates(Below(key, findings))
  {
    var below := Below(key, findings);
    forall i, j | 0 <= i < j < |below| ensures below[i] != below[j] {
      assert below[i].path[1..] == findings[i].path && below[j].path[1..] == findings[j].path;
    }
  }

  lemma {:induction false} DeadIsDistinct(value: Value, props: Props)
    requires DistinctProps(props)
    ensures NoDuplicates(DeadProps(value, props))
  {
    if props.Prop? {
      var first := if Has(value, props.key) then [] else [Finding(Dead, [props.key])];
      DeadIsDistinct(value, props.rest);
      forall f | f in first ensures f !in DeadProps(value, props.rest) {
        DeadMembership(value, props.rest, f);
      }
      NoDuplicatesConcat(first, DeadProps(value, props.rest));
    }
  }

  lemma {:induction false} EntriesAreDistinct(entries: Entries, props: Props)
    requires WellFormed(entries) && WellFormedProps(props)
    ensures NoDuplicates(DriftOfEntries(entries, props))
    decreases SizeOfProps(props) + 1, 0, entries
  {
    if entries.Cons? {
      var rest := DriftOfEntries(entries.rest, props);
      var first := [Finding(Unvalidated, [entries.key])];
      if Declares(props, entries.key) {
        DeclaredIsInside(props, entries.key);
        UnwrapIsNoLarger(Declared(props, entries.key));
        var inner := DriftOf(entries.value, Child(props, entries.key));
        FindingsAreDistinct(entries.value, Child(props, entries.key));
        BelowKeepsDistinct(entries.key, inner);
        first := Below(entries.key, inner);
      }
      EntriesAreDistinct(entries.rest, props);
      forall f | f in first ensures f !in rest {
        EntriesMembership(entries.rest, props, f);
      }
      NoDuplicatesConcat(first, rest);
    }
  }

  /** Nothing is reported twice. */
  lemma {:induction false} FindingsAreDistinct(value: Value, schema: Schema)
    requires WellFormedValue(value) && WellFormedSchema(schema)
    ensures NoDuplicates(DriftOf(value, schema))
    decreases SizeOfSchema(schema), 1
  {
    if schema.properties.Some? {
      var props := schema.properties.value;
      WellFormedIsDistinct(props);
      DeadIsDistinct(value, props);
      if value.Node? {
        EntriesAreDistinct(value.entries, props);
        forall f | f in DriftOfEntries(value.entries, props) ensures f !in DeadProps(value, props) {
          EntriesMembership(value.entries, props, f);
          DeadMembership(value, props, f);
        }
        NoDuplicatesConcat(DriftOfEntries(value.entries, props), DeadProps(value, props));
      }
    }
  }

  ghost predicate KeysAgree(value: Value, schema: Schema) {
    schema.properties.Some? ==> forall key :: Has(value, key) <==> Declares(schema.properties.value, key)
  }

  lemma NoDifferenceMeansAgree(value: Value, schema: Schema)
    requires forall kind, key :: !Differs(kind, value, schema, key)
    ensures KeysAgree(value, schema)
  {
    if schema.properties.Some? {
      forall key: string
        ensures Has(value, key) <==> Declares(schema.properties.value, key)
      {
        assert !Differs(Unvalidated, value, schema, key) && !Differs(Dead, value, schema, key);
      }
    }
  }

  /** Nothing is reported exactly when values and schema have equal keys at every node they share. */
  lemma SilentExactlyWhenEqual(value: Value, schema: Schema)
    requires WellFormedValue(value)
    ensures DriftOf(value, schema) == [] <==>
      forall path :: Reach(value, schema, path).Some? ==>
        KeysAgree(Reach(value, schema, path).value.0, Reach(value, schema, path).value.1)
  {
    hide DriftOf, Reach;
    var findings := DriftOf(value, schema);
    if findings == [] {
      forall path | Reach(value, schema, path).Some?
        ensures KeysAgree(Reach(value, schema, path).value.0, Reach(value, schema, path).value.1)
      {
        forall key: string, kind: Kind
          ensures !Differs(kind, Reach(value, schema, path).value.0, Reach(value, schema, path).value.1, key)
        {
          var f := Finding(kind, path + [key]);
          assert f.path[..|f.path| - 1] == path;
          FindingsAreDifferences(value, schema, f);
        }
        NoDifferenceMeansAgree(Reach(value, schema, path).value.0, Reach(value, schema, path).value.1);
      }
    } else {
      var f := findings[0];
      assert f in findings;
      FindingsAreDifferences(value, schema, f);
      var (v, s) := Reach(value, schema, f.path[..|f.path| - 1]).value;
      assert !KeysAgree(v, s) by {
        assert Has(v, f.path[|f.path| - 1]) != Declares(s.properties.value, f.path[|f.path| - 1]);
      }
    }
  }

  // ----- The report

  /** A key under a dotted path; the empty path is no prefix. */
  function Dot(path: string, key: string): string {
    if path != "" then path + "." + key else key
  }

  function Dotted(path: string, keys: seq<string>): string
    decreases |keys|
  {
    if keys == [] then path else Dotted(Dot(path, keys[0]), keys[1..])
  }

  datatype Printed = Printed(kind: Kind, path: string)

  function Rendered(path: string, findings: seq<Finding>): (r: seq<Printed>)
    ensures |r| == |findings|
  {
    seq(|findings|, i requires 0 <= i < |findings| => Printed(findings[i].kind, Dotted(path, findings[i].path)))
  }

  class Log {
    var findings: seq<Printed>

    constructor ()
      ensures findings == []
    {
      findings := [];
    }
  }

  lemma RenderedBelow(path: string, key: string, findings: seq<Finding>)
    ensures Rendered(path, Below(key, findings)) == Rendered(Dot(path, key), findings)
  {
    hide Dot;
    var below := Below(key, findings);
    forall i | 0 <= i < |findings|
      ensures Rendered(path, below)[i] == Rendered(Dot(path, key), findings)[i]
    {
      assert below[i].path[0] == key && below[i].path[1..] == findings[i].path;
    }
  }

  lemma RenderedOne(path: string, kind: Kind, key: string)
    ensures Rendered(path, [Finding(kind, [key])]) == [Printed(kind, Dot(path, key))]
    ensures Rendered(path, []) == []
  {
    hide Dot;
    assert [key][1..] == [];
    assert Dotted(path, [key]) == Dotted(Dot(path, key), []);
  }

  lemma EntryRendered(path: string, key: string, value: Value, props: Props)
    ensures Rendered(path, DriftOfEntry(key, value, props)) ==
      if Declares(props, key) then Rendered(Dot(path, key), DriftOf(value, Unwrapped(Declared(props, key))))
      else [Printed(Unvalidated, Dot(path, key))]
  {
    hide DriftOf, Unwrapped, Dot, Rendered;
    RenderedOne(path, Unvalidated, key);
    if Declares(props, key) {
      RenderedBelow(path, key, DriftOf(value, Unwrapped(Declared(props, key))));
    }
  }

  /** What the log has after one more part of the walk. */
  lemma OneMore(path: string, before: seq<Printed>, done: seq<Finding>, more: seq<Finding>, rest: seq<Finding>)
    ensures (before + Rendered(path, done)) + Rendered(path, more) == before + Rendered(path, done + more)
    ensures done + (more + rest) == (done + more) + rest
  {
    hide Dotted;
    assert Rendered(path, done + more) == Rendered(path, done) + Rendered(path, more);
  }

  /** Walk appends the findings of its subtree to the shared log, and nothing else. */
  method Walk(values: Value, schema: Schema, path: string, log: Log)
    modifies log
    ensures log.findings == old(log.findings) + Rendered(path, DriftOf(values, schema))
    decreases SizeOfSchema(schema)
  {
    hide Rendered, Dot, Unwrapped, Below, DriftOfEntry, Declares, HasKey, Declared;
    ghost var before := log.findings;
    RenderedOne(path, Dead, "");
    if schema.properties.None? {
      return;
    }
    var props := schema.properties.value;
    ghost var done: seq<Finding> := [];
    if values.Node? {
      var todo := values.entries;
      while todo.Cons?
        invariant DriftOfEntries(values.entries, props) == done + DriftOfEntries(todo, props)
        invariant log.findings == before + Rendered(path, done)
        decreases todo
      {
        var here := Dot(path, todo.key);
        EntryRendered(path, todo.key, todo.value, props);
        if !Declares(props, todo.key) {
          log.findings := log.findings + [Printed(Unvalidated, here)];
        } else {
          DeclaredIsInside(props, todo.key);
          UnwrapIsNoLarger(Declared(props, todo.key));
          var subschema := Unwrap(Declared(props, todo.key));
          Walk(todo.value, subschema, here, log);
        }
        ghost var more := DriftOfEntry(todo.key, todo.value, props);
        OneMore(path, before, done, more, DriftOfEntries(todo.rest, props));
        done := done + more;
        todo := todo.rest;
      }
    }
    ghost var walked := done;
    assert DriftOf(values, schema) == walked + DeadProps(values, props);
    var left := props;
    while left.Prop?
      invariant walked + DeadProps(values, props) == done + DeadProps(values, left)
      invariant log.findings == before + Rendered(path, done)
      decreases left
    {
      RenderedOne(path, Dead, left.key);
      if !values.Node? || !HasKey(values.entries, left.key) {
        log.findings := log.findings + [Printed(Dead, Dot(path, left.key))];
      }
      ghost var more := if Has(values, left.key) then [] else [Finding(Dead, [left.key])];
      OneMore(path, before, done, more, DeadProps(values, left.rest));
      done := done + more;
      left := left.rest;
    }
    assert done + [] == done;
  }

  ghost predicate PlainKeys(keys: seq<string>) {
    forall k :: k in keys ==> k != "" && '.' !in k
  }

  lemma {:induction false} DottedJoins(path: string, keys: seq<string>)
    requires path != ""
    ensures Dotted(path, keys) == Join(".", [path] + keys)
    decreases |keys|
  {
    if keys != [] {
      DottedJoins(Dot(path, keys[0]), keys[1..]);
      assert ([path] + keys)[1..] == keys;
      assert keys == [keys[0]] + keys[1..];
      var joined := [Dot(path, keys[0])] + keys[1..];
      assert joined[1..] == keys[1..];
    }
  }

  /** A printed path tells the keys it was made of, when none is empty or has a dot. */
  lemma PrintedPathsAreKeys(keys: seq<string>)
    requires keys != [] && PlainKeys(keys)
    ensures Split('.', Dotted("", keys)) == keys
  {
    assert keys == [keys[0]] + keys[1..];
    assert keys[0] in keys;
    DottedJoins(keys[0], keys[1..]);
    SplitJoin('.', keys);
  }

  /** So no line of the report is printed twice. */
  lemma PrintedOnce(value: Value, schema: Schema)
    requires WellFormedValue(value) && WellFormedSchema(schema)
    requires forall f :: f in DriftOf(value, schema) ==> PlainKeys(f.path)
    ensures NoDuplicates(Rendered("", DriftOf(value, schema)))
  {
    var findings := DriftOf(value, schema);
    FindingsAreDistinct(value, schema);
    forall i, j | 0 <= i < j < |findings|
      ensures Rendered("", findings)[i] != Rendered("", findings)[j]
    {
      assert findings[i] in findings && findings[j] in findings;
      FindingsAreDifferences(value, schema, findings[i]);
      FindingsAreDifferences(value, schema, findings[j]);
      PrintedPathsAreKeys(findings[i].path);
      PrintedPathsAreKeys(findings[j].path);
    }
  }
}
