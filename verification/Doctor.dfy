/**
 The values doctor (deploy/chart/tools/values-doctor.py): its own flattening and lookup of a
 setting, against what the chart deploys, and its judgement of disruption budgets.
 */
module Doctor {
  import opened KeyOrder
  import opened Passthrough
  import opened Text
  import opened Values
  import opened Wrappers

  // ----- Looking up a typed value

  /** What stands at a path of keys; a null entry counts as nothing. */
  function ValueAt(value: Value, path: seq<string>): Option<Value>
    decreases |path|
  {
    if path == [] then (if value.Null? then None else Some(value))
    else if value.Node? && HasKey(value.entries, path[0]) then ValueAt(Lookup(value.entries, path[0]), path[1..])
    else None
  }

  /** A leaf is what the lookup finds there as well: a scalar, or a slice as its items joined. */
  lemma {:induction false} LeavesAreFound(e: Entries, path: seq<string>, text: string)
    ensures LeafAt(e, path) == Some(text) <==>
      match ValueAt(Node(e), path)
      case Some(Scalar(t)) => t == text
      case Some(Slice(items)) => text == Join(",", items)
      case Some(Node(_)) => false
      case Some(Null) => false
      case None => false
    decreases |path|
  {
    hide Join;
    if path != [] && HasKey(e, path[0]) {
      var value := Lookup(e, path[0]);
      if value.Node? {
        LeavesAreFound(value.entries, path[1..], text);
      } else if |path| == 1 {
        assert path[1..] == [];
      }
    }
  }

  /** A null entry, like a missing one, is nothing at all. */
  lemma {:induction false} NothingIsFound(e: Entries, path: seq<string>, key: string)
    ensures ValueAt(Node(e), path) != Some(Null)
    ensures var at := ValueAt(Node(e), path);
            ValueAt(Node(e), path + [key]) ==
              if at.Some? && at.value.Node? && HasKey(at.value.entries, key) && !Lookup(at.value.entries, key).Null?
              then Some(Lookup(at.value.entries, key)) else None
    decreases |path|
  {
    var longer := path + [key];
    if path == [] {
      assert longer[0] == key && longer[1..] == [];
    } else {
      assert longer[0] == path[0] && longer[1..] == path[1..] + [key];
      if HasKey(e, path[0]) {
        var value := Lookup(e, path[0]);
        if value.Node? {
          NothingIsFound(value.entries, path[1..], key);
        } else if |path| == 1 {
          assert path[1..] == [];
        }
      }
    }
  }

  method Get(values: Value, path: string, default: Option<Value>) returns (found: Option<Value>)
    ensures found ==
      if ValueAt(values, Split('.', path)).Some? then ValueAt(values, Split('.', path)) else default
  {
    var parts := Split('.', path);
    var node := values;
    for i := 0 to |parts|
      invariant ValueAt(values, parts) == ValueAt(node, parts[i..])
    {
      if !node.Node? || !HasKey(node.entries, parts[i]) {
        return default;
      }
      node := Lookup(node.entries, parts[i]);
    }
    assert parts[|parts|..] == [];
    return if node.Null? then default else Some(node);
  }

  // ----- Flattening, the second time

  /** The doctor uppercases a joined name; the chart joins uppercased parts. */
  lemma SameName(prefix: string, key: string)
    ensures (if prefix != "" then Upper(prefix + "_" + key) else Upper(key)) == EnvName(prefix, key)
  {
    assert Upper(prefix + "_" + key) == Upper(prefix) + "_" + Upper(key);
  }

  /** The variables of one entry. */
  lemma EntryVariables(key: string, value: Value, prefix: string)
    ensures Yaml(EntryLines(key, value, prefix)) ==
      match value
      case Node(entries) => Yaml(EnvLines(entries, EnvName(prefix, key)))
      case Slice(items) => map[EnvName(prefix, key) := Join(",", items)]
      case Scalar(text) => map[EnvName(prefix, key) := text]
      case Null => map[]
    ensures Yaml([]) == map[]
  {
    hide EnvName, Join;
    var lines := EntryLines(key, value, prefix);
    assert |lines| == 1 ==> lines[..0] == [];
  }

  lemma EntryStep(done: seq<Line>, todo: Entries, prefix: string)
    requires todo.Cons?
    ensures done + EnvLines(todo, prefix) ==
      (done + EntryLines(todo.key, todo.value, prefix)) + EnvLines(todo.rest, prefix)
    ensures Yaml(done + EntryLines(todo.key, todo.value, prefix)) ==
      Yaml(done) + Yaml(EntryLines(todo.key, todo.value, prefix))
  {
    hide Yaml, EntryLines;
    YamlConcat(done, EntryLines(todo.key, todo.value, prefix));
  }

  /** Filling the dict gives the lines of the tree in the file's order, read as one map. */
  method Flatten(node: Entries, prefix: string) returns (out: map<string, string>)
    ensures out == Yaml(EnvLines(node, prefix))
    decreases node
  {
    hide EntryLines, EnvName, Upper, Join, Yaml;
    out := map[];
    var todo := node;
    ghost var done: seq<Line> := [];
    EntryVariables("", Null, prefix);
    while todo.Cons?
      invariant todo == node || todo < node
      invariant EnvLines(node, prefix) == done + EnvLines(todo, prefix)
      invariant out == Yaml(done)
      decreases todo
    {
      var name := if prefix != "" then Upper(prefix + "_" + todo.key) else Upper(todo.key);
      SameName(prefix, todo.key);
      EntryVariables(todo.key, todo.value, prefix);
      EntryStep(done, todo, prefix);
      match todo.value {
        case Node(entries) =>
          var inner := Flatten(entries, name);
          out := out + inner;
        case Slice(items) => out := out[name := Join(",", items)];
        case Scalar(text) => out := out[name := text];
        case Null =>
      }
      done := done + EntryLines(todo.key, todo.value, prefix);
      todo := todo.rest;
    }
    assert done + [] == done;
  }

  // ----- Whether the order of keys in the file shows

  lemma SameTreeSameFlattening(a: Entries, b: Entries)
    requires WellFormed(a) && WellFormed(b) && SameTree(a, b) && NamesHaveOneText(a)
    ensures Flattened(b) == Flattened(a)
  {
    hide Flattened, LeafAt, WellFormed, NameUnder;
    assert forall p :: LeafAt(a, p) == LeafAt(b, p);
    forall name | name in Flattened(a)
      ensures name in Flattened(b)
    {
      var p := NameComesFromALeaf(a, name);
      LeafHasItsName(b, p);
    }
    forall name | name in Flattened(b)
      ensures name in Flattened(a) && Flattened(a)[name] == Flattened(b)[name]
    {
      var q := NameComesFromALeaf(b, name);
      LeafHasItsName(a, q);
    }
  }

  /** When leaves of one name agree, the doctor's flattening gives the chart's variables under any order of keys. */
  lemma SameTreeSameVariables(a: Entries, b: Entries)
    requires WellFormed(a) && WellFormed(b) && SameTree(a, b) && NamesHaveOneText(a)
    ensures Flattened(b) == ToEnvVars(a)
  {
    hide Flattened, LeafAt, WellFormed, NameUnder, SortKeys;
    SortKeepsTheTree(a);
    assert forall p :: LeafAt(a, p) == LeafAt(SortKeys(a), p);
    SameTreeSameFlattening(a, b);
    SameTreeSameFlattening(a, SortKeys(a));
  }

  /** Of leaves that share a name, the one written last in the file gives the name its text. */
  lemma LastWriterWins(e: Entries, path: seq<string>)
    requires WellFormed(e) && LeafAt(e, path).Some?
    ensures WellFormed(MoveLast(e, path)) && SameTree(e, MoveLast(e, path))
    ensures Name(path) in Flattened(MoveLast(e, path))
    ensures Some(Flattened(MoveLast(e, path))[Name(path)]) == LeafAt(e, path)
  {
    var b := MoveLast(e, path);
    forall p ensures LeafAt(e, p) == LeafAt(b, p) {
      MoveLastKeepsTheTree(e, path, p);
    }
    MoveLastKeepsTheTree(e, path, path);
    MoveLastMovesLast(e, path);
    LinesFollowLeaves(b, "");
    YamlKeepsLast(EnvLines(b, ""), |Leaves(b)| - 1);
  }

  /** The doctor sees the chart's variables, whatever the order in the file, exactly when leaves of one name agree. */
  lemma OrderShowsExactly(a: Entries)
    requires WellFormed(a)
    ensures (forall b :: WellFormed(b) && SameTree(a, b) ==> Flattened(b) == ToEnvVars(a)) <==> NamesHaveOneText(a)
  {
    hide Flattened, LeafAt, WellFormed, NameUnder, SortKeys, MoveLast;
    if NamesHaveOneText(a) {
      forall b | WellFormed(b) && SameTree(a, b) ensures Flattened(b) == ToEnvVars(a) {
        SameTreeSameVariables(a, b);
      }
    } else {
      var p, q :| LeafAt(a, p).Some? && LeafAt(a, q).Some? && Name(p) == Name(q) && LeafAt(a, p) != LeafAt(a, q);
      LastWriterWins(a, p);
      LastWriterWins(a, q);
      assert Flattened(MoveLast(a, p)) != Flattened(MoveLast(a, q));
    }
  }

  /** On a tree the collision guard accepts, flattening gives the chart's variables under any order of keys. */
  method FlattenAnyOrder(node: Entries, ghost chart: Entries) returns (out: map<string, string>)
    requires WellFormed(node) && WellFormed(chart) && SameTree(chart, node) && CollisionGuard(chart)
    ensures out == ToEnvVars(chart)
  {
    out := Flatten(node, "");
    GuardGivesOneText(chart);
    SameTreeSameVariables(chart, node);
  }

  // ----- The setting in force

  /** A setting from extraEnv or the passthrough, or else the typed value. */
  datatype Judged = Given(text: string) | Typed(value: Option<Value>)

  function FirstLiteral(env: seq<EnvEntry>, name: string): Option<string> {
    if env == [] then None
    else if env[0].Literal? && env[0].name == name then Some(env[0].text)
    else FirstLiteral(env[1..], name)
  }

  /** The setting the doctor judges, for one file with its extraEnv, config, secret and typed values. */
  method Effective(extraEnv: seq<EnvEntry>, config: Entries, secret: Entries, values: Value,
                   path: string, name: string, default: Option<Value>) returns (judged: Judged)
    ensures judged == Believed(extraEnv, config, secret, values, path, name, default)
  {
    for i := 0 to |extraEnv|
      invariant FirstLiteral(extraEnv, name) == FirstLiteral(extraEnv[i..], name)
    {
      if extraEnv[i].Literal? && extraEnv[i].name == name {
        return Given(extraEnv[i].text);
      }
    }
    for i := 0 to 2
      invariant FirstLiteral(extraEnv, name) == None
      invariant i > 0 ==> name !in Flattened(config)
      invariant i > 1 ==> name !in Flattened(secret)
    {
      var flat := Flatten(if i == 0 then config else secret, "");
      if name in flat {
        return Given(flat[name]);
      }
    }
    var typed := Get(values, path, default);
    return Typed(typed);
  }

  function Believed(extraEnv: seq<EnvEntry>, config: Entries, secret: Entries, values: Value,
                    path: string, name: string, default: Option<Value>): Judged
  {
    if FirstLiteral(extraEnv, name).Some? then Given(FirstLiteral(extraEnv, name).value)
    else if name in Flattened(config) then Given(Flattened(config)[name])
    else if name in Flattened(secret) then Given(Flattened(secret)[name])
    else
      var typed := ValueAt(values, Split('.', path));
      Typed(if typed.Some? then typed else default)
  }

  lemma {:induction false} FirstLiteralIsThere(env: seq<EnvEntry>, name: string)
    ensures FirstLiteral(env, name).Some? <==> exists text :: Literal(name, text) in env
    ensures FirstLiteral(env, name).Some? ==> Literal(name, FirstLiteral(env, name).value) in env
  {
    if env != [] {
      FirstLiteralIsThere(env[1..], name);
      assert forall e :: e in env <==> e == env[0] || e in env[1..];
    }
  }

  /** No literal entry of the name stands before the one taken. */
  lemma {:induction false} FirstLiteralIsFirst(env: seq<EnvEntry>, name: string, i: nat)
    requires i < |env| && env[i].Literal? && env[i].name == name
    requires forall j :: 0 <= j < i ==> !(env[j].Literal? && env[j].name == name)
    ensures FirstLiteral(env, name) == Some(env[i].text)
  {
    if i > 0 {
      assert !(env[0].Literal? && env[0].name == name);
      FirstLiteralIsFirst(env[1..], name, i - 1);
    }
  }

  /** The first literal entry; without one config, then secret; without those the typed value or its default. */
  lemma BelievesExactly(extraEnv: seq<EnvEntry>, config: Entries, secret: Entries, values: Value,
                        path: string, name: string, default: Option<Value>, i: nat)
    ensures i < |extraEnv| && extraEnv[i].Literal? && extraEnv[i].name == name
            && (forall j :: 0 <= j < i ==> !(extraEnv[j].Literal? && extraEnv[j].name == name)) ==>
      Believed(extraEnv, config, secret, values, path, name, default) == Given(extraEnv[i].text)
    ensures (forall j :: 0 <= j < |extraEnv| ==> !(extraEnv[j].Literal? && extraEnv[j].name == name)) ==>
      Believed(extraEnv, config, secret, values, path, name, default) ==
        if name in Flattened(config) then Given(Flattened(config)[name])
        else if name in Flattened(secret) then Given(Flattened(secret)[name])
        else if ValueAt(values, Split('.', path)).Some? then Typed(ValueAt(values, Split('.', path)))
        else Typed(default)
  {
    hide Flattened, ValueAt, Split;
    FirstLiteralIsThere(extraEnv, name);
    if i < |extraEnv| && extraEnv[i].Literal? && extraEnv[i].name == name
       && forall j :: 0 <= j < i ==> !(extraEnv[j].Literal? && extraEnv[j].name == name) {
      FirstLiteralIsFirst(extraEnv, name, i);
    }
  }

  lemma {:induction false} LastEntryIsThere(env: seq<EnvEntry>, name: string)
    ensures LastEntry(env, name).Some? <==> exists i :: 0 <= i < |env| && env[i].name == name
    ensures LastEntry(env, name).Some? ==> LastEntry(env, name).value in env && LastEntry(env, name).value.name == name
  {
    if env != [] {
      var front := env[..|env| - 1];
      LastEntryIsThere(front, name);
      if LastEntry(front, name).Some? {
        var i :| 0 <= i < |front| && front[i].name == name;
        assert env[i].name == name;
      }
    }
  }

  /** Whether the deciding entry of extraEnv, its last with the name, shows the doctor its text. */
  predicate ExtraEnvShows(r: Release, name: string) {
    match LastEntry(r.extraEnv, name)
    case None => true
    case Some(Literal(_, text)) => FirstLiteral(r.extraEnv, name) == Some(text)
    case Some(Reference(_, _)) => false
    case Some(Bare(_)) =>
      match FirstLiteral(r.extraEnv, name)
      case Some(text) => text == ""
      case None => Claimed(r, name) && Passed(r, name) == ""
  }

  /**
   For a setting the user made, on accepted trees and with no extraEnvFrom source for it, the
   doctor judges the text the container gets exactly when the last extraEnv entry shows it.
   */
  lemma JudgesTheDeployment(r: Release, config: Entries, secret: Entries, values: Value,
                            path: string, name: string, default: Option<Value>)
    requires WellFormed(r.config) && WellFormed(config) && SameTree(r.config, config)
    requires WellFormed(r.secret) && WellFormed(secret) && SameTree(r.secret, secret)
    requires Accepted(r) && LastSource(r.extraEnvFrom, name).None?
    requires LastEntry(r.extraEnv, name).Some? || Claimed(r, name)
    ensures
      var judged := Believed(r.extraEnv, config, secret, values, path, name, default);
      (judged.Given? && Deployed(r, name) == Resolved.Text(judged.text)) <==> ExtraEnvShows(r, name)
  {
    hide WellFormed, ValueAt, Split, Flattened, SortKeys, LeafAt, CollisionGuard;
    GuardGivesOneText(r.config);
    GuardGivesOneText(r.secret);
    SameTreeSameVariables(r.config, config);
    SameTreeSameVariables(r.secret, secret);
    Precedence(r, name);
    FirstLiteralIsThere(r.extraEnv, name);
    LastEntryIsThere(r.extraEnv, name);
  }

  /** One entry for the name, a literal one, is enough. */
  lemma {:induction false} OneLiteralShows(r: Release, name: string)
    requires forall i, j :: 0 <= i < j < |r.extraEnv| ==> r.extraEnv[i].name != name || r.extraEnv[j].name != name
    requires forall i :: 0 <= i < |r.extraEnv| && r.extraEnv[i].name == name ==> r.extraEnv[i].Literal?
    ensures ExtraEnvShows(r, name)
  {
    FirstLiteralIsThere(r.extraEnv, name);
    LastEntryIsThere(r.extraEnv, name);
  }

  // ----- Disruption budgets

  /** minAvailable or maxUnavailable, as parsed; percentages are exact rationals. */
  datatype Budget = Absent | Count(count: int) | Percent(percent: real) | Unparsable

  function Floor(x: real): int {
    x.Floor
  }

  function Ceiling(x: real): int {
    -(-x).Floor
  }

  predicate BlocksEviction(budget: Budget, replicas: int, isMin: bool) {
    match budget
    case Absent => false
    case Unparsable => false
    case Percent(percent) =>
      if isMin then Ceiling(percent * replicas as real / 100.0) >= replicas
      else Floor(percent * replicas as real / 100.0) <= 0
    case Count(count) => if isMin then count >= replicas else count <= 0
  }

  /** A number of replicas a minimum is content with. */
  ghost predicate Suffices(budget: Budget, replicas: int, kept: int) {
    (budget.Count? && kept >= budget.count) || (budget.Percent? && kept as real >= budget.percent * replicas as real / 100.0)
  }

  /** A number of replicas a maximum lets go. */
  ghost predicate Permits(budget: Budget, replicas: int, gone: int) {
    (budget.Count? && gone <= budget.count) || (budget.Percent? && gone as real <= budget.percent * replicas as real / 100.0)
  }

  /** A minimum blocks exactly when keeping all replicas but one does not suffice, a maximum when letting one go is not permitted; no budget, or none that can be read, never blocks. */
  lemma BlocksExactlyWhenNoneMayGo(budget: Budget, replicas: int)
    ensures budget.Count? || budget.Percent? ==>
      && (BlocksEviction(budget, replicas, true) <==> !Suffices(budget, replicas, replicas - 1))
      && (BlocksEviction(budget, replicas, false) <==> !Permits(budget, replicas, 1))
    ensures budget.Absent? || budget.Unparsable? ==> forall isMin :: !BlocksEviction(budget, replicas, isMin)
  {
    if budget.Percent? {
      var share := budget.percent * replicas as real / 100.0;
      assert Ceiling(share) >= replicas <==> share > (replicas - 1) as real;
      assert Floor(share) <= 0 <==> share < 1.0;
    }
  }

  lemma FloorBelowOne(y: real)
    ensures (y / 100.0).Floor <= 0 <==> y < 100.0
  {
    assert y / 100.0 < 1.0 <==> y < 100.0;
  }

  /** A minimum of p percent blocks exactly when the rest of the replicas is less than one whole replica. */
  lemma MinPercentBlocksExactly(p: real, replicas: int)
    ensures BlocksEviction(Percent(p), replicas, true) <==> (100.0 - p) * replicas as real < 100.0
  {
    var needed := p * replicas as real / 100.0;
    assert (100.0 - p) * replicas as real == 100.0 * (replicas as real - needed);
  }

  /** A maximum of p percent blocks exactly when it is less than one whole replica. */
  lemma MaxPercentBlocksExactly(p: real, replicas: int)
    ensures BlocksEviction(Percent(p), replicas, false) <==> p * replicas as real < 100.0
  {
    FloorBelowOne(p * replicas as real);
  }

  /** Keeping p percent available and giving up the other 100 - p percent block alike. */
  lemma MinAndMaxAgree(p: real, replicas: int)
    ensures BlocksEviction(Percent(p), replicas, true) <==> BlocksEviction(Percent(100.0 - p), replicas, false)
  {
    MinPercentBlocksExactly(p, replicas);
    MaxPercentBlocksExactly(100.0 - p, replicas);
  }

  /** Growing never makes a percentage from 0 to 100 block. */
  lemma MoreReplicasNeverBlock(p: real, fewer: nat, more: nat, isMin: bool)
    requires 0.0 <= p <= 100.0 && fewer <= more
    requires !BlocksEviction(Percent(p), fewer, isMin)
    ensures !BlocksEviction(Percent(p), more, isMin)
  {
    if isMin {
      MinAndMaxAgree(p, fewer);
      MinAndMaxAgree(p, more);
    }
    var q := if isMin then 100.0 - p else p;
    MaxPercentBlocksExactly(q, fewer);
    MaxPercentBlocksExactly(q, more);
    assert q * (more - fewer) as real >= 0.0;
  }
}
