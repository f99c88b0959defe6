/**
 The chart's environment passthrough (deploy/chart/templates/_helpers.tpl): how the nested
 config and secret maps become environment variables, what the guards in
 validate-values.yaml rule out, and which of several settings the container sees.
 */
module Passthrough {
  import opened Collections
  import opened KeyOrder
  import opened Text
  import opened Values
  import opened Wrappers

  // ----- Names

  function UpperChar(c: char): char {
    if 'a' <= c <= 'z' then c - ('a' - 'A') else c
  }

  function Upper(t: string): (u: string)
    ensures |u| == |t| && forall i :: 0 <= i < |t| ==> u[i] == UpperChar(t[i])
  {
    seq(|t|, i requires 0 <= i < |t| => UpperChar(t[i]))
  }

  /** The name of a key under a prefix; the empty prefix is no prefix. */
  function EnvName(prefix: string, key: string): string {
    (if prefix == "" then "" else Upper(prefix) + "_") + Upper(key)
  }

  function NameUnder(prefix: string, path: seq<string>): string
    decreases |path|
  {
    if path == [] then prefix else NameUnder(EnvName(prefix, path[0]), path[1..])
  }

  function Name(path: seq<string>): string {
    NameUnder("", path)
  }

  // ----- Flattening

  datatype Line = Line(name: string, text: string)

  function EntryLines(key: string, value: Value, prefix: string): seq<Line>
    decreases value
  {
    match value
    case Node(entries) => EnvLines(entries, EnvName(prefix, key))
    case Slice(items) => [Line(EnvName(prefix, key), Join(",", items))]
    case Scalar(text) => [Line(EnvName(prefix, key), text)]
    case Null => []
  }

  /** The lines toEnvVars writes, before they are read as YAML. */
  function EnvLines(e: Entries, prefix: string): seq<Line>
    decreases e
  {
    match e
    case Nil => []
    case Cons(key, value, rest) => EntryLines(key, value, prefix) + EnvLines(rest, prefix)
  }

  /** Lines read as one map: of lines with one name the last stays. */
  function Yaml(lines: seq<Line>): map<string, string> {
    if lines == [] then map[]
    else
      var last := lines[|lines| - 1];
      Yaml(lines[..|lines| - 1])[last.name := last.text]
  }

  /** The lines of a tree in the order it is given in, read as one map. */
  function Flattened(e: Entries): map<string, string> {
    Yaml(EnvLines(e, ""))
  }

  /** The chart's variables: a template ranges over a map in the order of its keys. */
  function ToEnvVars(e: Entries): map<string, string> {
    Flattened(SortKeys(e))
  }

  function Named(prefix: string, leaves: seq<Leaf>): (lines: seq<Line>)
    ensures |lines| == |leaves|
  {
    seq(|leaves|, i requires 0 <= i < |leaves| => Line(NameUnder(prefix, leaves[i].path), leaves[i].text))
  }

  lemma NamedUnder(prefix: string, key: string, leaves: seq<Leaf>)
    ensures Named(prefix, Under(key, leaves)) == Named(EnvName(prefix, key), leaves)
  {
    hide EnvName;
    var under := Under(key, leaves);
    forall i | 0 <= i < |leaves|
      ensures Named(prefix, under)[i] == Named(EnvName(prefix, key), leaves)[i]
    {
      assert under[i].path[0] == key && under[i].path[1..] == leaves[i].path;
    }
  }

  lemma NamedAlone(prefix: string, key: string, text: string)
    ensures Named(prefix, [Leaf([key], text)]) == [Line(EnvName(prefix, key), text)]
  {
    hide EnvName;
    assert [key][1..] == [];
    assert NameUnder(prefix, [key]) == NameUnder(EnvName(prefix, key), []);
  }

  /** Every leaf gives one line, named by its path alone. */
  lemma {:induction false} LinesFollowLeaves(e: Entries, prefix: string)
    ensures EnvLines(e, prefix) == Named(prefix, Leaves(e))
  {
    hide EnvName, NameUnder, Under, Join;
    if e.Cons? {
      LinesFollowLeaves(e.rest, prefix);
      var first, rest := EntryLeaves(e.key, e.value), Leaves(e.rest);
      assert Named(prefix, first + rest) == Named(prefix, first) + Named(prefix, rest);
      match e.value {
        case Null =>
        case Scalar(text) => NamedAlone(prefix, e.key, text);
        case Slice(items) => NamedAlone(prefix, e.key, Join(",", items));
        case Node(entries) =>
          LinesFollowLeaves(entries, EnvName(prefix, e.key));
          NamedUnder(prefix, e.key, Leaves(entries));
      }
    }
  }

  lemma {:induction false} YamlConcat(a: seq<Line>, b: seq<Line>)
    ensures Yaml(a + b) == Yaml(a) + Yaml(b)
  {
    if b == [] {
      assert a + b == a;
    } else {
      var n := |b| - 1;
      assert (a + b)[..|a + b| - 1] == a + b[..n] && (a + b)[|a + b| - 1] == b[n];
      YamlConcat(a, b[..n]);
      assert Yaml(a + b) == (Yaml(a) + Yaml(b[..n]))[b[n].name := b[n].text];
    }
  }

  /** The last of the lines with a name is the one that stays. */
  lemma {:induction false} YamlKeepsLast(lines: seq<Line>, i: nat)
    requires i < |lines| && forall j :: i < j < |lines| ==> lines[j].name != lines[i].name
    ensures lines[i].name in Yaml(lines) && Yaml(lines)[lines[i].name] == lines[i].text
  {
    if i < |lines| - 1 {
      var front := lines[..|lines| - 1];
      YamlKeepsLast(front, i);
    }
  }

  lemma {:induction false} YamlComesFromLines(lines: seq<Line>, name: string)
    ensures name in Yaml(lines) ==> Line(name, Yaml(lines)[name]) in lines
  {
    if lines != [] && name != lines[|lines| - 1].name {
      YamlComesFromLines(lines[..|lines| - 1], name);
    }
  }

  lemma {:induction false} YamlHasEveryName(lines: seq<Line>, i: nat)
    requires i < |lines|
    ensures lines[i].name in Yaml(lines)
  {
    if i < |lines| - 1 {
      YamlHasEveryName(lines[..|lines| - 1], i);
    }
  }

  ghost predicate DistinctNames(lines: seq<Line>) {
    forall i, j :: 0 <= i < j < |lines| ==> lines[i].name != lines[j].name
  }

  lemma DistinctOneByOne(lines: seq<Line>)
    requires lines != []
    ensures DistinctNames(lines) <==>
      DistinctNames(lines[..|lines| - 1]) && lines[|lines| - 1].name !in Yaml(lines[..|lines| - 1])
  {
    hide Yaml;
    var n := |lines| - 1;
    var front, name := lines[..n], lines[n].name;
    if name in Yaml(front) {
      YamlComesFromLines(front, name);
      var i :| 0 <= i < n && front[i] == Line(name, Yaml(front)[name]);
      assert lines[i].name == lines[n].name;
    } else {
      forall i | 0 <= i < n ensures lines[i].name != name {
        YamlHasEveryName(front, i);
        assert front[i] == lines[i];
      }
      assert forall i :: 0 <= i < n ==> front[i] == lines[i];
    }
  }

  /** A map has as many keys as it was written from lines exactly when no line overwrote another. */
  lemma {:induction false} YamlSize(lines: seq<Line>)
    ensures |Yaml(lines).Keys| <= |lines|
    ensures |Yaml(lines).Keys| == |lines| <==> DistinctNames(lines)
  {
    if lines != [] {
      var front, last := lines[..|lines| - 1], lines[|lines| - 1];
      YamlSize(front);
      DistinctOneByOne(lines);
      assert Yaml(lines).Keys == Yaml(front).Keys + {last.name};
    }
  }

  // ----- The guard against colliding names

  method CountLeaves(e: Entries) returns (count: nat)
    ensures count == |Leaves(e)|
    decreases e
  {
    count := 0;
    var todo := e;
    while todo.Cons?
      invariant todo == e || todo < e
      invariant count + |Leaves(todo)| == |Leaves(e)|
      decreases todo
    {
      match todo.value {
        case Node(entries) =>
          var inner := CountLeaves(entries);
          count := count + inner;
        case Scalar(_) => count := count + 1;
        case Slice(_) => count := count + 1;
        case Null =>
      }
      todo := todo.rest;
    }
  }

  /** The guard: as many names as leaves. */
  predicate CollisionGuard(e: Entries) {
    |ToEnvVars(e).Keys| == |Leaves(e)|
  }

  ghost predicate PathsHaveOwnNames(e: Entries) {
    forall p, q :: LeafAt(e, p).Some? && LeafAt(e, q).Some? && Name(p) == Name(q) ==> p == q
  }

  /** The place of a leaf in the walk over the tree. */
  lemma LeafPlace(e: Entries, path: seq<string>) returns (i: nat)
    requires WellFormed(e) && LeafAt(e, path).Some?
    ensures i < |Leaves(e)| && Leaves(e)[i] == Leaf(path, LeafAt(e, path).value)
    ensures i < |EnvLines(e, "")| && EnvLines(e, "")[i] == Line(Name(path), LeafAt(e, path).value)
  {
    LeavesAreLookups(e, path, LeafAt(e, path).value);
    LinesFollowLeaves(e, "");
    i :| 0 <= i < |Leaves(e)| && Leaves(e)[i] == Leaf(path, LeafAt(e, path).value);
  }

  lemma DistinctNamesSeparatePaths(e: Entries, p: seq<string>, q: seq<string>)
    requires WellFormed(e) && DistinctNames(EnvLines(e, ""))
    requires LeafAt(e, p).Some? && LeafAt(e, q).Some? && Name(p) == Name(q)
    ensures p == q
  {
    hide EnvLines, Leaves, LeafAt, WellFormed, Named, NameUnder;
    var i := LeafPlace(e, p);
    var j := LeafPlace(e, q);
    assert i == j;
  }

  lemma OwnNamesAreDistinct(e: Entries, i: nat, j: nat)
    requires WellFormed(e) && PathsHaveOwnNames(e) && i < j < |EnvLines(e, "")|
    ensures EnvLines(e, "")[i].name != EnvLines(e, "")[j].name
  {
    hide EnvLines, Leaves, LeafAt, WellFormed, NameUnder;
    var leaves := Leaves(e);
    LinesFollowLeaves(e, "");
    LeavesAreDistinct(e);
    assert leaves[i] in leaves && leaves[j] in leaves;
    LeavesAreLookups(e, leaves[i].path, leaves[i].text);
    LeavesAreLookups(e, leaves[j].path, leaves[j].text);
  }

  /** A flattened tree has as many names as leaves exactly when no two leaves flatten to one name. */
  lemma FlattenedSize(e: Entries)
    requires WellFormed(e)
    ensures |Flattened(e).Keys| == |Leaves(e)| <==> PathsHaveOwnNames(e)
  {
    hide EnvLines, Leaves, LeafAt, WellFormed, Yaml, NameUnder;
    LinesFollowLeaves(e, "");
    YamlSize(EnvLines(e, ""));
    if DistinctNames(EnvLines(e, "")) {
      forall p, q | LeafAt(e, p).Some? && LeafAt(e, q).Some? && Name(p) == Name(q)
        ensures p == q
      {
        DistinctNamesSeparatePaths(e, p, q);
      }
    }
    if PathsHaveOwnNames(e) {
      forall i, j | 0 <= i < j < |EnvLines(e, "")|
        ensures EnvLines(e, "")[i].name != EnvLines(e, "")[j].name
      {
        OwnNamesAreDistinct(e, i, j);
      }
    }
  }

  /** The guard refuses exactly the trees in which two leaves flatten to one name. */
  lemma CollisionGuardIsExact(e: Entries)
    requires WellFormed(e)
    ensures CollisionGuard(e) <==> PathsHaveOwnNames(e)
  {
    hide Flattened, Leaves, LeafAt, WellFormed, SortKeys, NameUnder;
    var sorted := SortKeys(e);
    SortKeepsTheTree(e);
    FlattenedSize(sorted);
    assert forall p :: LeafAt(e, p) == LeafAt(sorted, p);
  }

  /** Leaves that share a name also share their text. */
  ghost predicate NamesHaveOneText(e: Entries) {
    forall p, q :: LeafAt(e, p).Some? && LeafAt(e, q).Some? && Name(p) == Name(q) ==> LeafAt(e, p) == LeafAt(e, q)
  }

  lemma GuardGivesOneText(e: Entries)
    requires WellFormed(e) && CollisionGuard(e)
    ensures NamesHaveOneText(e)
  {
    CollisionGuardIsExact(e);
  }

  lemma NameComesFromALeaf(e: Entries, name: string) returns (path: seq<string>)
    requires WellFormed(e) && name in Flattened(e)
    ensures Name(path) == name && LeafAt(e, path) == Some(Flattened(e)[name])
  {
    var lines := EnvLines(e, "");
    LinesFollowLeaves(e, "");
    YamlComesFromLines(lines, name);
    var i :| 0 <= i < |lines| && lines[i] == Line(name, Yaml(lines)[name]);
    path := Leaves(e)[i].path;
    assert Leaves(e)[i] in Leaves(e);
    LeavesAreLookups(e, path, lines[i].text);
  }

  lemma LeafHasItsName(e: Entries, path: seq<string>)
    requires WellFormed(e) && LeafAt(e, path).Some?
    ensures Name(path) in Flattened(e)
    ensures NamesHaveOneText(e) ==> LeafAt(e, path) == Some(Flattened(e)[Name(path)])
  {
    hide EnvLines, Yaml, Leaves, LeafAt, NameUnder, WellFormed;
    var i := LeafPlace(e, path);
    YamlHasEveryName(EnvLines(e, ""), i);
    var from := NameComesFromALeaf(e, Name(path));
  }

  /** The chart's variables depend on the tree alone, for every tree. */
  lemma ChartIgnoresOrder(a: Entries, b: Entries)
    requires WellFormed(a) && WellFormed(b) && SameTree(a, b)
    ensures ToEnvVars(a) == ToEnvVars(b)
  {
    hide SortKeys, Leaves, EnvLines, LeafAt;
    SortedLeavesAreDetermined(a, b);
    LinesFollowLeaves(SortKeys(a), "");
    LinesFollowLeaves(SortKeys(b), "");
  }

  /** And on a tree the guard accepts, each leaf has its own variable. */
  lemma ChartHasEveryLeaf(e: Entries, path: seq<string>)
    requires WellFormed(e) && LeafAt(e, path).Some?
    ensures Name(path) in ToEnvVars(e)
    ensures CollisionGuard(e) ==> LeafAt(e, path) == Some(ToEnvVars(e)[Name(path)])
  {
    hide Flattened, SortKeys, LeafAt, WellFormed, CollisionGuard, NameUnder;
    SortKeepsTheTree(e);
    assert LeafAt(e, path) == LeafAt(SortKeys(e), path);
    LeafHasItsName(SortKeys(e), path);
    if CollisionGuard(e) {
      GuardGivesOneText(e);
      assert forall p :: LeafAt(e, p) == LeafAt(SortKeys(e), p);
      assert NamesHaveOneText(SortKeys(e));
    }
  }

  // ----- The guard against names the kubelet drops

  predicate IsDigit(c: char) {
    '0' <= c <= '9'
  }

  predicate IsUpper(c: char) {
    'A' <= c <= 'Z' || c == '_'
  }

  /** What the chart's guard accepts: upper-case letters, digits and underscores. */
  predicate IsUpperName(name: string) {
    name != "" && IsUpper(name[0]) && forall i :: 0 <= i < |name| ==> IsUpper(name[i]) || IsDigit(name[i])
  }

  /** What the kubelet takes from an envFrom source: any C identifier. */
  predicate IsEnvVarName(name: string) {
    && name != "" && !IsDigit(name[0])
    && forall i :: 0 <= i < |name| ==> IsUpper(name[i]) || IsDigit(name[i]) || 'a' <= name[i] <= 'z'
  }

  predicate SyntaxGuard(e: Entries) {
    forall name :: name in ToEnvVars(e) ==> IsUpperName(name)
  }

  ghost predicate NoLower(t: string) {
    forall i :: 0 <= i < |t| ==> !('a' <= t[i] <= 'z')
  }

  lemma {:induction false} NamesHaveNoLower(prefix: string, path: seq<string>)
    requires NoLower(prefix)
    ensures NoLower(NameUnder(prefix, path))
    decreases |path|
  {
    if path != [] {
      NamesHaveNoLower(EnvName(prefix, path[0]), path[1..]);
    }
  }

  /** The guard accepts a tree exactly when the kubelet takes every name it flattens to. */
  lemma SyntaxGuardIsExact(e: Entries)
    requires WellFormed(e)
    ensures SyntaxGuard(e) <==> forall path :: LeafAt(e, path).Some? ==> IsEnvVarName(Name(path))
  {
    hide Flattened, SortKeys, LeafAt, WellFormed, NameUnder;
    SortKeepsTheTree(e);
    forall path ensures IsUpperName(Name(path)) <==> IsEnvVarName(Name(path)) {
      NamesHaveNoLower("", path);
    }
    forall path | LeafAt(e, path).Some? ensures Name(path) in ToEnvVars(e) {
      ChartHasEveryLeaf(e, path);
    }
    forall name | name in ToEnvVars(e) ensures exists path :: LeafAt(e, path).Some? && Name(path) == name {
      var path := NameComesFromALeaf(SortKeys(e), name);
      assert LeafAt(e, path) == LeafAt(SortKeys(e), path);
    }
  }

  /** ASCII letters, digits and underscores. */
  predicate PlainText(t: string) {
    forall i :: 0 <= i < |t| ==> 'A' <= t[i] <= 'Z' || 'a' <= t[i] <= 'z' || '0' <= t[i] <= '9' || t[i] == '_'
  }

  /** The first character of the first key that has one. */
  function FirstChar(path: seq<string>): Option<char> {
    if path == [] then None else if path[0] != "" then Some(path[0][0]) else FirstChar(path[1..])
  }

  /** Keys of plain characters, the first of which is no digit. */
  predicate PlainPath(path: seq<string>) {
    && (forall i :: 0 <= i < |path| ==> PlainText(path[i]))
    && FirstChar(path).Some? && !('0' <= FirstChar(path).value <= '9')
  }

  /** Upper case: no lower-case letter is left, and only letters change, by their case alone. */
  lemma UpperFolds(t: string)
    ensures NoLower(Upper(t)) && |Upper(t)| == |t|
    ensures forall i :: 0 <= i < |t| ==> Upper(t)[i] == t[i] || ('a' <= t[i] <= 'z' && Upper(t)[i] as int + 32 == t[i] as int)
    ensures NoLower(t) ==> Upper(t) == t
  {
  }

  lemma UpperOfJoined(a: string, b: string)
    ensures Upper(a + "_" + b) == Upper(a) + "_" + Upper(b)
  {
  }

  lemma UpperOfPath(path: seq<string>)
    requires path != []
    ensures Upper(Join("_", path)) ==
      if |path| == 1 then Upper(path[0]) else Upper(path[0]) + "_" + Upper(Join("_", path[1..]))
  {
    hide Upper;
    if |path| > 1 {
      UpperOfJoined(path[0], Join("_", path[1..]));
    }
  }

  lemma {:induction false} NameUnderIsJoined(prefix: string, path: seq<string>)
    requires prefix != "" && NoLower(prefix)
    ensures NameUnder(prefix, path) == if path == [] then prefix else prefix + "_" + Upper(Join("_", path))
    decreases |path|
  {
    hide Upper, Join, NoLower;
    if path != [] {
      var u := Upper(path[0]);
      UpperFolds(prefix);
      UpperFolds(path[0]);
      NoLowerJoined(prefix, u);
      NameUnderIsJoined(prefix + "_" + u, path[1..]);
      UpperOfPath(path);
      assert prefix + "_" + (u + "_" + Upper(Join("_", path[1..]))) == (prefix + "_" + u) + "_" + Upper(Join("_", path[1..]));
    }
  }

  lemma NoLowerJoined(a: string, b: string)
    requires NoLower(a) && NoLower(b)
    ensures NoLower(a + "_" + b)
  {
  }

  /** The name of a leaf is its keys joined by underscores, in upper case. */
  lemma NameIsJoined(path: seq<string>)
    requires path != [] && path[0] != ""
    ensures Name(path) == Upper(Join("_", path))
  {
    hide Upper, Join, NoLower;
    UpperFolds(path[0]);
    assert EnvName("", path[0]) == Upper(path[0]);
    NameUnderIsJoined(Upper(path[0]), path[1..]);
    UpperOfPath(path);
  }

  predicate Allowed(name: string) {
    forall i :: 0 <= i < |name| ==> IsUpper(name[i]) || IsDigit(name[i])
  }

  lemma UpperAllowed(key: string)
    ensures Allowed(Upper(key)) <==> PlainText(key)
  {
    var u := Upper(key);
    forall i | 0 <= i < |key|
      ensures IsUpper(u[i]) || IsDigit(u[i])
         <==> 'A' <= key[i] <= 'Z' || 'a' <= key[i] <= 'z' || '0' <= key[i] <= '9' || key[i] == '_'
    {
    }
  }

  lemma JoinedAllowed(a: string, b: string)
    ensures Allowed(a + "_" + b) <==> Allowed(a) && Allowed(b)
  {
    var t := a + "_" + b;
    assert forall i :: 0 <= i < |a| ==> t[i] == a[i];
    assert forall i :: 0 <= i < |b| ==> t[|a| + 1 + i] == b[i];
    assert t[|a|] == '_';
  }

  lemma EnvNameAllowed(prefix: string, key: string)
    requires NoLower(prefix)
    ensures NoLower(EnvName(prefix, key))
    ensures Allowed(EnvName(prefix, key)) <==> Allowed(prefix) && PlainText(key)
    ensures if prefix != "" then EnvName(prefix, key) != "" && EnvName(prefix, key)[0] == prefix[0]
            else if key != "" then EnvName(prefix, key) != "" && EnvName(prefix, key)[0] == UpperChar(key[0])
            else EnvName(prefix, key) == ""
  {
    hide NoLower, Allowed, PlainText, Upper;
    UpperFolds(prefix);
    UpperFolds(key);
    UpperAllowed(key);
    if prefix != "" {
      NoLowerJoined(prefix, Upper(key));
      JoinedAllowed(prefix, Upper(key));
    } else {
      assert EnvName(prefix, key) == Upper(key);
      EmptyIsAllowed();
    }
  }

  lemma EmptyIsAllowed()
    ensures Allowed("")
  {
  }

  lemma {:induction false} NameAllowed(prefix: string, path: seq<string>)
    requires NoLower(prefix)
    ensures Allowed(NameUnder(prefix, path)) <==> Allowed(prefix) && forall i :: 0 <= i < |path| ==> PlainText(path[i])
    ensures if prefix != "" then NameUnder(prefix, path) != "" && NameUnder(prefix, path)[0] == prefix[0]
            else if FirstChar(path).Some? then NameUnder(prefix, path) != "" && NameUnder(prefix, path)[0] == UpperChar(FirstChar(path).value)
            else NameUnder(prefix, path) == ""
    decreases |path|
  {
    hide Allowed, EnvName, UpperChar, PlainText, NoLower;
    if path != [] {
      EnvNameAllowed(prefix, path[0]);
      NameAllowed(EnvName(prefix, path[0]), path[1..]);
    }
  }

  lemma UpperNameExactly(path: seq<string>)
    ensures IsUpperName(Name(path)) <==> PlainPath(path)
  {
    hide PlainText, NameUnder;
    NameAllowed("", path);
  }

  /** The guard accepts a tree exactly when on the way to each leaf all keys are plain and the first character is no digit. */
  lemma SyntaxGuardByKeys(e: Entries)
    requires WellFormed(e)
    ensures SyntaxGuard(e) <==> forall path :: LeafAt(e, path).Some? ==> PlainPath(path)
  {
    hide Flattened, SortKeys, LeafAt, WellFormed, NameUnder, PlainPath, IsUpperName;
    SortKeepsTheTree(e);
    forall path ensures IsUpperName(Name(path)) <==> PlainPath(path) {
      UpperNameExactly(path);
    }
    forall path | LeafAt(e, path).Some? ensures Name(path) in ToEnvVars(e) {
      ChartHasEveryLeaf(e, path);
    }
    forall name | name in ToEnvVars(e) ensures exists path :: LeafAt(e, path).Some? && Name(path) == name {
      var path := NameComesFromALeaf(SortKeys(e), name);
      assert LeafAt(e, path) == LeafAt(SortKeys(e), path);
    }
  }

  /** The kubelet takes just the names made of letters, digits and underscores that do not start with a digit. */
  lemma EnvVarNamesArePlain(name: string)
    ensures IsEnvVarName(name) <==> name != "" && PlainText(name) && !('0' <= name[0] <= '9')
  {
  }

  // ----- What the container sees

  datatype EnvEntry =
    | Literal(name: string, text: string)
    | Bare(name: string)
    | Reference(name: string, source: string)

  datatype Resolved = Unset | Text(text: string) | Referenced(source: string)

  /** An entry with neither value nor source sets the empty text. */
  function ValueOf(entry: EnvEntry): Resolved {
    match entry
    case Literal(_, text) => Text(text)
    case Bare(_) => Text("")
    case Reference(_, source) => Referenced(source)
  }

  function LastEntry(env: seq<EnvEntry>, name: string): Option<EnvEntry> {
    if env == [] then None
    else if env[|env| - 1].name == name then Some(env[|env| - 1])
    else LastEntry(env[..|env| - 1], name)
  }

  /** The last source with the name, which the kubelet has to take for a variable's. */
  function LastSource(sources: seq<map<string, string>>, name: string): Option<string> {
    if sources == [] then None
    else if IsEnvVarName(name) && name in sources[|sources| - 1] then Some(sources[|sources| - 1][name])
    else LastSource(sources[..|sources| - 1], name)
  }

  /** No entry of the name stands after the one taken, no source with it after the one read. */
  lemma {:induction false} LastEntryIsLast(env: seq<EnvEntry>, name: string, i: nat)
    requires i < |env| && env[i].name == name && forall j :: i < j < |env| ==> env[j].name != name
    ensures LastEntry(env, name) == Some(env[i])
  {
    if i < |env| - 1 {
      LastEntryIsLast(env[..|env| - 1], name, i);
    }
  }

  lemma {:induction false} LastSourceIsLast(sources: seq<map<string, string>>, name: string, i: nat)
    requires i < |sources| && name in sources[i] && forall j :: i < j < |sources| ==> name !in sources[j]
    ensures LastSource(sources, name) == if IsEnvVarName(name) then Some(sources[i][name]) else None
  {
    hide IsEnvVarName;
    if i < |sources| - 1 {
      LastSourceIsLast(sources[..|sources| - 1], name, i);
    } else if !IsEnvVarName(name) {
      DroppedNamesHaveNoSource(sources, name);
    }
  }

  lemma {:induction false} NothingToTake(env: seq<EnvEntry>, sources: seq<map<string, string>>, name: string)
    ensures LastEntry(env, name).None? <==> forall i :: 0 <= i < |env| ==> env[i].name != name
    ensures (forall i :: 0 <= i < |sources| ==> name !in sources[i]) ==> LastSource(sources, name).None?
    decreases |env| + |sources|
  {
    hide IsEnvVarName;
    if env != [] {
      NothingToTake(env[..|env| - 1], [], name);
      assert forall i :: 0 <= i < |env| - 1 ==> env[..|env| - 1][i] == env[i];
    }
    if sources != [] {
      NothingToTake([], sources[..|sources| - 1], name);
      assert forall i :: 0 <= i < |sources| - 1 ==> sources[..|sources| - 1][i] == sources[i];
    }
  }

  /** Kubernetes: env beats envFrom, and within each the later beats the earlier. */
  function Resolve(env: seq<EnvEntry>, sources: seq<map<string, string>>, name: string): Resolved {
    match LastEntry(env, name)
    case Some(entry) => ValueOf(entry)
    case None =>
      match LastSource(sources, name)
      case Some(text) => Text(text)
      case None => Unset
  }

  /** What the chart renders from; extraEnvFrom is given by the contents it refers to. */
  datatype Release = Release(
    chartEnv: seq<EnvEntry>, config: Entries, secret: Entries,
    extraEnv: seq<EnvEntry>, extraEnvFrom: seq<map<string, string>>)

  predicate OverlapGuard(r: Release) {
    forall name :: name in ToEnvVars(r.secret) ==> name !in ToEnvVars(r.config)
  }

  predicate Accepted(r: Release) {
    && OverlapGuard(r)
    && CollisionGuard(r.config) && CollisionGuard(r.secret)
    && SyntaxGuard(r.config) && SyntaxGuard(r.secret)
  }

  predicate Claimed(r: Release, name: string) {
    name in ToEnvVars(r.config) || name in ToEnvVars(r.secret)
  }

  /** The names of one passthrough map, in some order. */
  method KeysOf(variables: map<string, string>) returns (names: seq<string>)
    ensures multiset(names) == multiset(variables.Keys)
  {
    names := [];
    var left := variables.Keys;
    while left != {}
      invariant left <= variables.Keys
      invariant multiset(names) + multiset(left) == multiset(variables.Keys)
      decreases |left|
    {
      ghost var some := Inhabited(left);
      var name :| name in left;
      names := names + [name];
      left := left - {name};
    }
  }

  /** claimedEnvNames: a name claimed twice is listed twice. */
  method ClaimedEnvNames(r: Release) returns (names: seq<string>)
    ensures multiset(names) == multiset(ToEnvVars(r.config).Keys) + multiset(ToEnvVars(r.secret).Keys)
    ensures forall name :: name in names <==> Claimed(r, name)
  {
    names := [];
    for i := 0 to 2
      invariant multiset(names) ==
        (if i > 0 then multiset(ToEnvVars(r.config).Keys) else multiset{}) +
        (if i > 1 then multiset(ToEnvVars(r.secret).Keys) else multiset{})
    {
      var more := KeysOf(ToEnvVars(if i == 0 then r.config else r.secret));
      names := names + more;
    }
    assert forall name :: name in names <==> name in multiset(names);
  }

  function Unclaimed(r: Release, env: seq<EnvEntry>): seq<EnvEntry> {
    if env == [] then []
    else
      var last := env[|env| - 1];
      Unclaimed(r, env[..|env| - 1]) + (if Claimed(r, last.name) then [] else [last])
  }

  method Env(r: Release) returns (env: seq<EnvEntry>)
    ensures env == Unclaimed(r, r.chartEnv) + r.extraEnv
  {
    var claimed := ClaimedEnvNames(r);
    env := [];
    for i := 0 to |r.chartEnv|
      invariant env == Unclaimed(r, r.chartEnv[..i])
    {
      assert r.chartEnv[..i + 1][..i] == r.chartEnv[..i];
      if r.chartEnv[i].name !in claimed {
        env := env + [r.chartEnv[i]];
      }
    }
    assert r.chartEnv[..|r.chartEnv|] == r.chartEnv;
    for i := 0 to |r.extraEnv|
      invariant env == Unclaimed(r, r.chartEnv) + r.extraEnv[..i]
    {
      env := env + [r.extraEnv[i]];
    }
    assert r.extraEnv[..|r.extraEnv|] == r.extraEnv;
  }

  /** envFrom of the container: a ConfigMap, a Secret, then what the user added. */
  function Sources(r: Release): seq<map<string, string>> {
    (if r.config.Cons? then [ToEnvVars(r.config)] else []) +
    (if r.secret.Cons? then [ToEnvVars(r.secret)] else []) +
    r.extraEnvFrom
  }

  function Deployed(r: Release, name: string): Resolved {
    Resolve(Unclaimed(r, r.chartEnv) + r.extraEnv, Sources(r), name)
  }

  lemma {:induction false} LastEntryOfConcat(a: seq<EnvEntry>, b: seq<EnvEntry>, name: string)
    ensures LastEntry(a + b, name) == (if LastEntry(b, name).Some? then LastEntry(b, name) else LastEntry(a, name))
  {
    if b == [] {
      assert a + b == a;
    } else {
      assert (a + b)[..|a + b| - 1] == a + b[..|b| - 1];
      LastEntryOfConcat(a, b[..|b| - 1], name);
    }
  }

  lemma {:induction false} LastSourceOfConcat(a: seq<map<string, string>>, b: seq<map<string, string>>, name: string)
    ensures LastSource(a + b, name) == (if LastSource(b, name).Some? then LastSource(b, name) else LastSource(a, name))
  {
    if b == [] {
      assert a + b == a;
    } else {
      assert (a + b)[..|a + b| - 1] == a + b[..|b| - 1];
      LastSourceOfConcat(a, b[..|b| - 1], name);
    }
  }

  lemma {:induction false} UnclaimedDropsExactly(r: Release, env: seq<EnvEntry>, name: string)
    ensures LastEntry(Unclaimed(r, env), name) == (if Claimed(r, name) then None else LastEntry(env, name))
  {
    if env != [] {
      var last := env[|env| - 1];
      UnclaimedDropsExactly(r, env[..|env| - 1], name);
      LastEntryOfConcat(Unclaimed(r, env[..|env| - 1]), if Claimed(r, last.name) then [] else [last], name);
    }
  }

  function Passed(r: Release, name: string): string
    requires Claimed(r, name)
  {
    if name in ToEnvVars(r.secret) then ToEnvVars(r.secret)[name] else ToEnvVars(r.config)[name]
  }

  /** What a name gets from the sources alone. */
  function FromSources(r: Release, name: string): Resolved {
    if !IsEnvVarName(name) then Unset
    else if LastSource(r.extraEnvFrom, name).Some? then Text(LastSource(r.extraEnvFrom, name).value)
    else if Claimed(r, name) then Text(Passed(r, name))
    else Unset
  }

  lemma {:induction false} DroppedNamesHaveNoSource(sources: seq<map<string, string>>, name: string)
    ensures LastSource(sources, name).Some? ==> IsEnvVarName(name)
  {
    if sources != [] {
      DroppedNamesHaveNoSource(sources[..|sources| - 1], name);
    }
  }

  lemma SourcesResolve(r: Release, name: string)
    ensures Resolve([], Sources(r), name) == FromSources(r, name)
  {
    var config, secret := ToEnvVars(r.config), ToEnvVars(r.secret);
    var a := if r.config.Cons? then [config] else [];
    var b := if r.secret.Cons? then [secret] else [];
    LastSourceOfConcat(a + b, r.extraEnvFrom, name);
    LastSourceOfConcat(a, b, name);
    DroppedNamesHaveNoSource(r.extraEnvFrom, name);
    assert LastSource(a, name) == if IsEnvVarName(name) && name in config then Some(config[name]) else None;
    assert LastSource(b, name) == if IsEnvVarName(name) && name in secret then Some(secret[name]) else None;
  }

  /**
   Every name resolves to the last extraEnv entry; else, when config or secret claims it, to
   what the sources hold; else to the chart's own entry; else to what the sources hold.
   */
  lemma Precedence(r: Release, name: string)
    ensures Deployed(r, name) ==
      if LastEntry(r.extraEnv, name).Some? then ValueOf(LastEntry(r.extraEnv, name).value)
      else if !Claimed(r, name) && LastEntry(r.chartEnv, name).Some? then ValueOf(LastEntry(r.chartEnv, name).value)
      else FromSources(r, name)
  {
    LastEntryOfConcat(Unclaimed(r, r.chartEnv), r.extraEnv, name);
    UnclaimedDropsExactly(r, r.chartEnv, name);
    SourcesResolve(r, name);
  }

  /** On accepted trees every leaf of config and secret arrives, unless extraEnv or extraEnvFrom names it. */
  lemma SettingsArrive(r: Release, path: seq<string>)
    requires WellFormed(r.config) && WellFormed(r.secret) && Accepted(r)
    requires LastEntry(r.extraEnv, Name(path)).None? && LastSource(r.extraEnvFrom, Name(path)).None?
    ensures LeafAt(r.config, path).Some? ==> Deployed(r, Name(path)) == Text(LeafAt(r.config, path).value)
    ensures LeafAt(r.secret, path).Some? ==> Deployed(r, Name(path)) == Text(LeafAt(r.secret, path).value)
  {
    Precedence(r, Name(path));
    if LeafAt(r.config, path).Some? {
      ChartHasEveryLeaf(r.config, path);
      SyntaxGuardIsExact(r.config);
    }
    if LeafAt(r.secret, path).Some? {
      ChartHasEveryLeaf(r.secret, path);
      SyntaxGuardIsExact(r.secret);
    }
  }

  /** Keeping the claimed entries would change exactly the names the chart and the user both set, differently. */
  lemma FilterMattersExactly(r: Release, name: string)
    ensures Resolve(r.chartEnv + r.extraEnv, Sources(r), name) != Deployed(r, name) <==>
      && LastEntry(r.extraEnv, name).None?
      && Claimed(r, name)
      && LastEntry(r.chartEnv, name).Some?
      && ValueOf(LastEntry(r.chartEnv, name).value) != FromSources(r, name)
  {
    LastEntryOfConcat(r.chartEnv, r.extraEnv, name);
    Precedence(r, name);
    SourcesResolve(r, name);
  }
}
