/**
 The summary made of a govulncheck stream (analyze in tools/govulncheck-report/report.go)
 and the rows shown of it (render.go): one fixed result, whatever order Go walks its maps
 in and whatever its sort does with equal elements.
 */
module VulnSummary {
  import opened Collections
  import opened Govulncheck
  import opened StringOrder
  import opened Wrappers

  datatype Summary = Summary(
    scannerError: bool, exitCode: int, findingCount: nat, fixableCount: nat, calledCount: nat,
    parseErrors: seq<string>, scannerVersion: string, goVersion: string, findings: seq<Finding>)

  // ----- The order of the report

  /** The comparison handed to sort.Slice: most actionable first, then ID, then module. */
  predicate Before(a: Finding, b: Finding) {
    if a.level != b.level then a.level.Rank() > b.level.Rank()
    else if a.id != b.id then Less(a.id, b.id)
    else Less(a.mod, b.mod)
  }

  lemma BeforeIsStrictOrder(a: Finding, b: Finding, c: Finding)
    ensures !(Before(a, b) && Before(b, a)) && !Before(a, a)
    ensures Before(a, b) || Before(b, a) || (a.level == b.level && a.id == b.id && a.mod == b.mod)
    ensures Before(a, b) && Before(b, c) ==> Before(a, c)
    ensures !Before(b, a) && !Before(c, b) ==> !Before(c, a)
  {
    LessTotal(a.id, b.id);
    LessTotal(b.id, c.id);
    LessTotal(a.id, c.id);
    LessTotal(a.mod, b.mod);
    LessTotal(b.mod, c.mod);
    LessTotal(a.mod, c.mod);
    if Less(a.id, b.id) && Less(b.id, c.id) { LessTransitive(a.id, b.id, c.id); }
    if Less(a.mod, b.mod) && Less(b.mod, c.mod) { LessTransitive(a.mod, b.mod, c.mod); }
    if Less(c.id, a.id) && Less(a.id, b.id) { LessTransitive(c.id, a.id, b.id); }
    if Less(b.id, c.id) && Less(c.id, a.id) { LessTransitive(b.id, c.id, a.id); }
    if Less(c.mod, a.mod) && Less(a.mod, b.mod) { LessTransitive(c.mod, a.mod, b.mod); }
    if Less(b.mod, c.mod) && Less(c.mod, a.mod) { LessTransitive(b.mod, c.mod, a.mod); }
  }

  /** What any correct sort guarantees: nothing stands before something it comes after. */
  ghost predicate Sorted(fs: seq<Finding>) {
    forall i, j :: 0 <= i < j < |fs| ==> !Before(fs[j], fs[i])
  }

  ghost predicate StrictlySorted(fs: seq<Finding>) {
    forall i, j :: 0 <= i < j < |fs| ==> Before(fs[i], fs[j])
  }

  ghost predicate SameMembers(a: seq<Finding>, b: seq<Finding>) {
    forall f :: f in a <==> f in b
  }

  lemma {:induction false} StrictlySortedIsUnique(a: seq<Finding>, b: seq<Finding>)
    requires StrictlySorted(a) && StrictlySorted(b) && SameMembers(a, b)
    ensures a == b
  {
    hide Before;
    if a == [] {
      SomeMember(b);
    } else {
      assert a[0] in b && b != [];
      assert b[0] in a;
      var i :| 0 <= i < |b| && b[i] == a[0];
      var j :| 0 <= j < |a| && a[j] == b[0];
      BeforeIsStrictOrder(a[0], b[0], a[0]);
      assert a[0] == b[0];
      forall f ensures f in a[1..] <==> f in b[1..] {
        BeforeIsStrictOrder(a[0], a[0], a[0]);
        assert f in a <==> f in b;
        assert f in a[1..] ==> f != a[0];
        assert f in b[1..] ==> f != b[0];
        assert f in a <==> f == a[0] || f in a[1..];
        assert f in b <==> f == b[0] || f in b[1..];
      }
      StrictlySortedIsUnique(a[1..], b[1..]);
      assert a == [a[0]] + a[1..] && b == [b[0]] + b[1..];
    }
  }

  // ----- Listing the entries of the merge

  function OwnKey(f: Finding): string {
    Key(f.id, f.mod)
  }

  /** Every entry stands under its own key. */
  ghost predicate Keyed(m: map<string, Finding>) {
    forall key :: key in m ==> OwnKey(m[key]) == key
  }

  /** The entries walked in some order of their keys, each once. */
  ghost predicate Walks(m: map<string, Finding>, order: seq<string>, fs: seq<Finding>) {
    && |order| == |fs|
    && (forall i, j :: 0 <= i < j < |order| ==> order[i] != order[j])
    && (forall key :: key in order <==> key in m)
    && (forall i :: 0 <= i < |order| ==> order[i] in m && fs[i] == m[order[i]])
  }

  /** The one sorted list of the entries. */
  ghost predicate Listed(m: map<string, Finding>, fs: seq<Finding>) {
    StrictlySorted(fs) && forall f :: f in fs <==> exists key :: key in m && m[key] == f
  }

  lemma WalkMembers(m: map<string, Finding>, order: seq<string>, fs: seq<Finding>)
    requires Walks(m, order, fs) && Keyed(m)
    ensures forall f :: f in fs <==> exists key :: key in m && m[key] == f
    ensures forall i, j :: 0 <= i < j < |fs| ==> fs[i] != fs[j]
  {
    forall f | exists key :: key in m && m[key] == f
      ensures f in fs
    {
      var key :| key in m && m[key] == f;
      assert key in order;
      var i :| 0 <= i < |order| && order[i] == key;
      assert fs[i] == f;
    }
    forall i, j | 0 <= i < j < |fs|
      ensures fs[i] != fs[j]
    {
      assert OwnKey(fs[i]) == order[i] && OwnKey(fs[j]) == order[j];
    }
  }

  lemma {:induction false} DistinctCountsOnce(fs: seq<Finding>)
    requires forall i, j :: 0 <= i < j < |fs| ==> fs[i] != fs[j]
    ensures forall f :: multiset(fs)[f] <= 1
  {
    if fs != [] {
      var n := |fs| - 1;
      DistinctCountsOnce(fs[..n]);
      assert fs == fs[..n] + [fs[n]];
      assert fs[n] !in fs[..n];
    }
  }

  lemma CountedOnceIsDistinct(fs: seq<Finding>)
    requires forall f :: multiset(fs)[f] <= 1
    ensures forall i, j :: 0 <= i < j < |fs| ==> fs[i] != fs[j]
  {
    forall i, j | 0 <= i < j < |fs|
      ensures fs[i] != fs[j]
    {
      var early, late := fs[..j], fs[j..];
      assert fs == early + late;
      assert early[i] in multiset(early) && late[0] in multiset(late);
      assert multiset(fs)[fs[i]] == multiset(early)[fs[i]] + multiset(late)[fs[i]];
    }
  }

  /** Whatever the walk and whatever the sort, the result is the one sorted list. */
  lemma AnyCorrectSortLists(m: map<string, Finding>, order: seq<string>, walked: seq<Finding>, sorted: seq<Finding>)
    requires Keyed(m) && Walks(m, order, walked)
    requires multiset(sorted) == multiset(walked) && Sorted(sorted)
    ensures Listed(m, sorted)
  {
    hide Before, Key;
    WalkMembers(m, order, walked);
    DistinctCountsOnce(walked);
    CountedOnceIsDistinct(sorted);
    forall f ensures f in sorted <==> f in walked {
      assert f in sorted <==> f in multiset(sorted);
      assert f in walked <==> f in multiset(walked);
    }
    forall i, j | 0 <= i < j < |sorted|
      ensures Before(sorted[i], sorted[j])
    {
      BeforeIsStrictOrder(sorted[i], sorted[j], sorted[i]);
      assert sorted[i] in walked && sorted[j] in walked;
      assert OwnKey(sorted[i]) != OwnKey(sorted[j]);
    }
  }

  lemma ListedIsUnique(m: map<string, Finding>, a: seq<Finding>, b: seq<Finding>)
    requires Listed(m, a) && Listed(m, b)
    ensures a == b
  {
    StrictlySortedIsUnique(a, b);
  }

  // ----- Sorting: any algorithm would do

  function Insert(f: Finding, fs: seq<Finding>): seq<Finding> {
    if fs == [] || !Before(fs[0], f) then [f] + fs else [fs[0]] + Insert(f, fs[1..])
  }

  /** A finding put before all it does not come after. */
  lemma FrontSorts(f: Finding, fs: seq<Finding>)
    requires Sorted(fs) && (fs != [] ==> !Before(fs[0], f))
    ensures Sorted([f] + fs)
  {
    hide Before;
    var all := [f] + fs;
    forall i, j | 0 <= i < j < |all|
      ensures !Before(all[j], all[i])
    {
      if i == 0 {
        assert j - 1 > 0 ==> !Before(fs[j - 1], fs[0]);
        BeforeIsStrictOrder(f, fs[0], fs[j - 1]);
      }
    }
  }

  lemma {:induction false} InsertSorts(f: Finding, fs: seq<Finding>)
    requires Sorted(fs)
    ensures Sorted(Insert(f, fs)) && multiset(Insert(f, fs)) == multiset(fs) + multiset{f}
  {
    hide Before;
    if fs == [] || !Before(fs[0], f) {
      FrontSorts(f, fs);
    } else {
      var rest := Insert(f, fs[1..]);
      InsertSorts(f, fs[1..]);
      assert fs == [fs[0]] + fs[1..];
      if rest != [] {
        assert rest[0] in multiset(rest);
        assert rest[0] == f || rest[0] in fs[1..];
        BeforeIsStrictOrder(fs[0], f, f);
      }
      FrontSorts(fs[0], rest);
    }
  }

  method SortSlice(fs: seq<Finding>) returns (sorted: seq<Finding>)
    ensures Sorted(sorted) && multiset(sorted) == multiset(fs)
  {
    sorted := [];
    for n := 0 to |fs|
      invariant Sorted(sorted) && multiset(sorted) == multiset(fs[..n])
    {
      InsertSorts(fs[n], sorted);
      sorted := Insert(fs[n], sorted);
      assert fs[..n + 1] == fs[..n] + [fs[n]];
    }
    assert fs[..|fs|] == fs;
  }

  // ----- Counting

  function Count(fs: seq<Finding>, chosen: Finding -> bool): nat {
    if fs == [] then 0
    else Count(fs[..|fs| - 1], chosen) + if chosen(fs[|fs| - 1]) then 1 else 0
  }

  /** The keys of the entries that are chosen. */
  function ChosenKeys(m: map<string, Finding>, chosen: Finding -> bool): set<string> {
    set key | key in m && chosen(m[key])
  }

  lemma {:induction false} CountIsCardinality(fs: seq<Finding>, chosen: Finding -> bool, keys: set<string>)
    requires forall i, j :: 0 <= i < j < |fs| ==> OwnKey(fs[i]) != OwnKey(fs[j])
    requires forall key :: key in keys <==> exists f :: f in fs && chosen(f) && OwnKey(f) == key
    ensures Count(fs, chosen) == |keys|
  {
    hide Key;
    if fs == [] {
      assert keys == {};
    } else {
      var n := |fs| - 1;
      var before, last := fs[..n], fs[n];
      assert fs == before + [last];
      var rest := keys - {OwnKey(last)};
      forall key ensures key in rest <==> exists f :: f in before && chosen(f) && OwnKey(f) == key {
        if f :| f in before && chosen(f) && OwnKey(f) == key {
          assert f in fs;
        }
      }
      CountIsCardinality(before, chosen, rest);
      assert OwnKey(last) in keys <==> chosen(last) by {
        if OwnKey(last) in keys {
          var f :| f in fs && chosen(f) && OwnKey(f) == OwnKey(last);
        } else {
          assert last in fs;
        }
      }
    }
  }

  lemma ListedCounts(m: map<string, Finding>, fs: seq<Finding>, chosen: Finding -> bool)
    requires Keyed(m) && Listed(m, fs)
    ensures Count(fs, chosen) == |ChosenKeys(m, chosen)|
  {
    hide Key, Before;
    forall i, j | 0 <= i < j < |fs|
      ensures OwnKey(fs[i]) != OwnKey(fs[j])
    {
      assert fs[i] in fs && fs[j] in fs;
      BeforeIsStrictOrder(fs[i], fs[j], fs[i]);
    }
    forall key ensures key in ChosenKeys(m, chosen) <==> exists f :: f in fs && chosen(f) && OwnKey(f) == key {
      if key in ChosenKeys(m, chosen) {
        assert m[key] in fs;
      }
      if f :| f in fs && chosen(f) && OwnKey(f) == key {
        var k :| k in m && m[k] == f;
        assert k == key;
      }
    }
    CountIsCardinality(fs, chosen, ChosenKeys(m, chosen));
  }

  predicate Fixable(f: Finding) {
    f.fixedVersion != ""
  }

  predicate IsCalled(f: Finding) {
    f.level.Called?
  }

  predicate Any(f: Finding) {
    true
  }

  lemma {:induction false} CountAny(fs: seq<Finding>)
    ensures Count(fs, Any) == |fs|
  {
    if fs != [] {
      CountAny(fs[..|fs| - 1]);
    }
  }

  lemma ListedLength(m: map<string, Finding>, fs: seq<Finding>)
    requires Keyed(m) && Listed(m, fs)
    ensures |fs| == |m|
  {
    CountAny(fs);
    ListedCounts(m, fs, Any);
    assert ChosenKeys(m, Any) == m.Keys;
  }

  // ----- The analysis

  /** One merged entry, updated in place through the map that points to it. */
  class Cell {
    var id: string
    var mod: string
    var version: string
    var fixedVersion: string
    var reachability: string
    var trace: string
    var summary: string
    var level: Level

    constructor (f: Finding)
      ensures Value() == f
    {
      id, mod, version, fixedVersion := f.id, f.mod, f.version, f.fixedVersion;
      reachability, trace, summary, level := f.reachability, f.trace, f.summary, f.level;
    }

    function Value(): Finding
      reads this
    {
      Finding(id, mod, version, fixedVersion, reachability, trace, summary, level)
    }

    /** A further finding for the same key. */
    method Absorb(raw: RawFinding, d: Description)
      modifies this
      ensures Value() == MergeInto(old(Value()), raw, d)
    {
      if d.level.Rank() > level.Rank() {
        level := d.level;
        reachability := d.level.Name();
        trace := d.trace;
      }
      if fixedVersion == "" {
        fixedVersion := raw.fixedVersion;
      }
      if version == "" {
        version := d.version;
      }
    }
  }

  /** The map of cells holds the entries of m, no two keys sharing a cell. */
  ghost predicate Holds(cells: map<string, Cell>, m: map<string, Finding>)
    reads cells.Values
  {
    && cells.Keys == m.Keys
    && (forall key :: key in cells ==> cells[key].Value() == m[key])
    && (forall a, b :: a in cells && b in cells && a != b ==> cells[a] != cells[b])
  }

  /** A finding whose key is already there changes that key's cell and no other. */
  method AbsorbAt(cells: map<string, Cell>, key: string, raw: RawFinding, d: Description, ghost m: map<string, Finding>)
    requires Holds(cells, m) && key in cells
    modifies cells[key]
    ensures Holds(cells, m[key := MergeInto(m[key], raw, d)])
  {
    hide MergeInto, Describe;
    cells[key].Absorb(raw, d);
    assert forall k :: k in cells && k != key ==> cells[k] != cells[key];
  }

  method MergeOne(cells: map<string, Cell>, raw: RawFinding, osvs: map<string, OsvEntry>, ghost m: map<string, Finding>)
      returns (next: map<string, Cell>)
    requires Holds(cells, m)
    modifies cells.Values
    ensures Holds(next, MergedWith(m, raw, osvs))
    ensures forall key :: key in next ==> next[key] in cells.Values || fresh(next[key])
  {
    hide Describe, Summarize, MergeInto, FirstEntry, Key;
    var osv := OsvOf(raw, osvs);
    var d := Describe(raw, osv);
    var key := Key(raw.osv, d.mod);
    if key !in cells {
      var cell := new Cell(FirstEntry(raw, osv));
      next := cells[key := cell];
    } else {
      AbsorbAt(cells, key, raw, d, m);
      next := cells;
    }
  }

  method Merge(raws: seq<RawFinding>, osvs: map<string, OsvEntry>) returns (cells: map<string, Cell>)
    ensures Holds(cells, Merged(raws, osvs))
  {
    hide MergedWith, Holds;
    cells := map[];
    assert Holds(cells, map[]) by {
      NothingHeld(cells);
    }
    for n := 0 to |raws|
      invariant Holds(cells, Merged(raws[..n], osvs))
      invariant forall key :: key in cells ==> fresh(cells[key])
    {
      assert raws[..n + 1][..n] == raws[..n];
      cells := MergeOne(cells, raws[n], osvs, Merged(raws[..n], osvs));
    }
    assert raws[..|raws|] == raws;
  }

  lemma NothingHeld(cells: map<string, Cell>)
    requires cells == map[]
    ensures Holds(cells, map[])
  {
  }

  /** Go walks a map in an order of its own. */
  method Collect(cells: map<string, Cell>, ghost m: map<string, Finding>) returns (walked: seq<Finding>, ghost order: seq<string>)
    requires Holds(cells, m)
    ensures Walks(m, order, walked)
  {
    walked, order := [], [];
    var left := cells.Keys;
    while left != {}
      invariant left <= cells.Keys
      invariant |order| == |walked|
      invariant forall i, j :: 0 <= i < j < |order| ==> order[i] != order[j]
      invariant forall key :: key in order <==> key in cells && key !in left
      invariant forall i :: 0 <= i < |order| ==> order[i] in m && walked[i] == m[order[i]]
      decreases left
    {
      ghost var some := Inhabited(left);
      var key :| key in left;
      left := left - {key};
      walked, order := walked + [cells[key].Value()], order + [key];
    }
  }

  function Decoded(stream: Stream): map<string, Finding> {
    Merged(RawFindings(stream.messages), OsvByID(Osvs(stream.messages)))
  }

  /** What the summary of a stream is. */
  ghost predicate Summarizes(stream: Stream, exitCode: int, s: Summary) {
    var entries := Decoded(stream);
    var configs := Configs(stream.messages);
    && Listed(entries, s.findings)
    && s.exitCode == exitCode
    && s.findingCount == |entries|
    && s.fixableCount == |ChosenKeys(entries, Fixable)|
    && s.calledCount == |ChosenKeys(entries, IsCalled)|
    && s.parseErrors == (if stream.broken.Some? then [stream.broken.value] else [])
    && (if configs == [] then s.scannerVersion == "" && s.goVersion == ""
        else s.scannerVersion == configs[|configs| - 1].scannerVersion && s.goVersion == configs[|configs| - 1].goVersion)
    && (s.scannerError <==>
          || stream.broken.Some? || configs == []
          || (exitCode != 0 && exitCode != 3)
          || (exitCode == 3 && entries == map[]))
  }

  lemma {:induction false} MergedEntriesNameTheirLevel(raws: seq<RawFinding>, osvs: map<string, OsvEntry>)
    ensures forall key :: key in Merged(raws, osvs) ==> Merged(raws, osvs)[key].reachability == Merged(raws, osvs)[key].level.Name()
  {
    hide Describe, Summarize, Key;
    if raws != [] {
      MergedEntriesNameTheirLevel(raws[..|raws| - 1], osvs);
    }
  }

  lemma MergedIsKeyed(raws: seq<RawFinding>, osvs: map<string, OsvEntry>)
    ensures Keyed(Merged(raws, osvs))
  {
    hide Merged, Key;
    EntriesAreDistinct(raws, osvs);
  }

  lemma ListedNames(raws: seq<RawFinding>, osvs: map<string, OsvEntry>, fs: seq<Finding>)
    requires Listed(Merged(raws, osvs), fs)
    ensures forall f :: f in fs ==> f.reachability == f.level.Name()
  {
    hide Merged, Before;
    MergedEntriesNameTheirLevel(raws, osvs);
  }

  method Route(stream: Stream) returns (configs: seq<ConfigMessage>, osvs: map<string, OsvEntry>, raws: seq<RawFinding>)
    ensures configs == Configs(stream.messages)
    ensures osvs == OsvByID(Osvs(stream.messages))
    ensures raws == RawFindings(stream.messages)
  {
    configs, osvs, raws := [], map[], [];
    for n := 0 to |stream.messages|
      invariant configs == Configs(stream.messages[..n])
      invariant osvs == OsvByID(Osvs(stream.messages[..n]))
      invariant raws == RawFindings(stream.messages[..n])
    {
      var m := stream.messages[n];
      assert stream.messages[..n + 1][..n] == stream.messages[..n];
      if m.config.Some? {
        configs := configs + [m.config.value];
      } else if m.osv.Some? && m.osv.value.id != "" {
        var before := Osvs(stream.messages[..n]);
        assert (before + [m.osv.value])[..|before|] == before;
        osvs := osvs[m.osv.value.id := m.osv.value];
      } else if m.finding.Some? && m.finding.value.osv != "" {
        raws := raws + [m.finding.value];
      }
    }
    assert stream.messages[..|stream.messages|] == stream.messages;
  }

  method CountFindings(out: seq<Finding>) returns (fixable: nat, called: nat)
    requires forall f :: f in out ==> f.reachability == f.level.Name()
    ensures fixable == Count(out, Fixable) && called == Count(out, IsCalled)
  {
    fixable, called := 0, 0;
    for n := 0 to |out|
      invariant fixable == Count(out[..n], Fixable) && called == Count(out[..n], IsCalled)
    {
      assert out[..n + 1][..n] == out[..n];
      assert out[n] in out;
      if out[n].fixedVersion != "" {
        fixable := fixable + 1;
      }
      if out[n].reachability == Called.Name() {
        called := called + 1;
      }
    }
    assert out[..|out|] == out;
  }

  method Analyze(stream: Stream, exitCode: int) returns (s: Summary)
    ensures Summarizes(stream, exitCode, s)
  {
    hide Describe, Summarize, Key, Before, Merged, OsvByID, Osvs, RawFindings, Configs, Listed, Walks, Sorted, Holds, Keyed, ChosenKeys, Count;
    var parseErrors := if stream.broken.Some? then [stream.broken.value] else [];
    var configs, osvs, raws := Route(stream);
    ghost var entries := Decoded(stream);
    var cells := Merge(raws, osvs);
    var walked, order := Collect(cells, entries);
    var out := SortSlice(walked);
    MergedIsKeyed(raws, osvs);
    AnyCorrectSortLists(entries, order, walked, out);
    ListedLength(entries, out);
    ListedCounts(entries, out, Fixable);
    ListedCounts(entries, out, IsCalled);
    ListedNames(raws, osvs, out);
    var fixable, called := CountFindings(out);
    var cfg := LastConfig(configs);
    s := Summary(
      |parseErrors| > 0 || configs == [] || (exitCode != 0 && exitCode != 3) || (exitCode == 3 && |out| == 0),
      exitCode, |out|, fixable, called, parseErrors, cfg.scannerVersion, cfg.goVersion, out);
  }

  /**
   Two runs over streams with the same messages of each kind, in the same order within a
   kind, give one summary: neither the interleaving nor the map order nor the sort shows.
   */
  lemma SummaryIsDetermined(a: Stream, b: Stream, exitCode: int, s: Summary, t: Summary)
    requires Summarizes(a, exitCode, s) && Summarizes(b, exitCode, t)
    requires Configs(a.messages) == Configs(b.messages) && Osvs(a.messages) == Osvs(b.messages)
    requires RawFindings(a.messages) == RawFindings(b.messages) && a.broken == b.broken
    ensures s == t
  {
    ListedIsUnique(Decoded(a), s.findings, t.findings);
  }

  /** The keys with a finding that knows a fix. */
  ghost function FixableKeys(raws: seq<RawFinding>, osvs: map<string, OsvEntry>): set<string> {
    set key | key in KeysOf(raws, osvs) && exists raw :: raw in Group(raws, osvs, key) && raw.fixedVersion != ""
  }

  /** The keys with a finding whose vulnerable symbol is called. */
  ghost function CalledKeys(raws: seq<RawFinding>, osvs: map<string, OsvEntry>): set<string> {
    set key | key in KeysOf(raws, osvs)
      && exists raw :: raw in Group(raws, osvs, key) && Describe(raw, OsvOf(raw, osvs)).level.Called?
  }

  /** The counts are numbers of groups: of all keys, of those with a fix, of those with a called finding. */
  lemma CountsAreOfGroups(stream: Stream, exitCode: int, s: Summary)
    requires Summarizes(stream, exitCode, s)
    ensures var raws, osvs := RawFindings(stream.messages), OsvByID(Osvs(stream.messages));
            && s.findingCount == |KeysOf(raws, osvs)|
            && s.fixableCount == |FixableKeys(raws, osvs)|
            && s.calledCount == |CalledKeys(raws, osvs)|
  {
    hide Describe, Merged, KeyOf, KeysOf, Group, OsvByID, Osvs, RawFindings, Key, Listed, Represents;
    var raws, osvs := RawFindings(stream.messages), OsvByID(Osvs(stream.messages));
    var entries := Merged(raws, osvs);
    MergedKeys(raws, osvs);
    assert entries.Keys == KeysOf(raws, osvs);
    forall key | key in entries
      ensures Fixable(entries[key]) <==> key in FixableKeys(raws, osvs)
      ensures IsCalled(entries[key]) <==> key in CalledKeys(raws, osvs)
    {
      MergeRefinesGroupBy(raws, osvs, key);
      GroupDecides(entries[key], Group(raws, osvs, key), osvs);
    }
    assert ChosenKeys(entries, Fixable) == FixableKeys(raws, osvs);
    assert ChosenKeys(entries, IsCalled) == CalledKeys(raws, osvs);
  }

  lemma GroupDecides(f: Finding, group: seq<RawFinding>, osvs: map<string, OsvEntry>)
    requires Represents(f, group, osvs)
    ensures Fixable(f) <==> exists raw :: raw in group && raw.fixedVersion != ""
    ensures IsCalled(f) <==> exists raw :: raw in group && Describe(raw, OsvOf(raw, osvs)).level.Called?
  {
    hide Describe, Summarize;
    if IsCalled(f) {
      var i :| 0 <= i < |group| && DescriptionAt(group, osvs, i).level == f.level;
      assert group[i] in group;
    }
    if raw :| raw in group && Describe(raw, OsvOf(raw, osvs)).level.Called? {
      var i :| 0 <= i < |group| && group[i] == raw;
      assert DescriptionAt(group, osvs, i).level.Rank() <= f.level.Rank();
    }
  }

  // ----- The counts as numbers of pairs

  /** The vulnerability and module a finding is about. */
  function PairOf(raw: RawFinding, osvs: map<string, OsvEntry>): (string, string) {
    (raw.osv, Describe(raw, OsvOf(raw, osvs)).mod)
  }

  function PairsOf(raws: seq<RawFinding>, osvs: map<string, OsvEntry>): set<(string, string)> {
    set raw | raw in raws :: PairOf(raw, osvs)
  }

  function FixablePairs(raws: seq<RawFinding>, osvs: map<string, OsvEntry>): set<(string, string)> {
    set raw | raw in raws && raw.fixedVersion != "" :: PairOf(raw, osvs)
  }

  function CalledPairs(raws: seq<RawFinding>, osvs: map<string, OsvEntry>): set<(string, string)> {
    set raw | raw in raws && Describe(raw, OsvOf(raw, osvs)).level.Called? :: PairOf(raw, osvs)
  }

  function KeyOfPair(pair: (string, string)): string {
    Key(pair.0, pair.1)
  }

  lemma {:induction false} GroupMembers(raws: seq<RawFinding>, osvs: map<string, OsvEntry>, key: string)
    ensures forall raw :: raw in Group(raws, osvs, key) <==> raw in raws && KeyOf(raw, osvs) == key
  {
    hide KeyOf;
    if raws != [] {
      var n := |raws| - 1;
      GroupMembers(raws[..n], osvs, key);
      assert raws == raws[..n] + [raws[n]];
    }
  }

  /** Pairs with NUL-free IDs and their keys are equally many. */
  lemma {:induction false} AsManyPairsAsKeys(pairs: set<(string, string)>, keys: set<string>)
    requires forall pair :: pair in pairs ==> '\0' !in pair.0 && KeyOfPair(pair) in keys
    requires forall key :: key in keys ==> exists pair :: pair in pairs && KeyOfPair(pair) == key
    ensures |pairs| == |keys|
    decreases |pairs|
  {
    hide Key;
    if pairs == {} {
      assert keys == {};
    } else {
      var pair := Inhabited(pairs);
      var fewer, left := pairs - {pair}, keys - {KeyOfPair(pair)};
      forall other | other in fewer ensures KeyOfPair(other) in left {
        KeysSeparatePairs(pair.0, pair.1, other.0, other.1);
      }
      AsManyPairsAsKeys(fewer, left);
      assert pairs == fewer + {pair} && keys == left + {KeyOfPair(pair)};
    }
  }

  lemma PairsMatchKeys(raws: seq<RawFinding>, osvs: map<string, OsvEntry>)
    requires forall raw :: raw in raws ==> '\0' !in raw.osv
    ensures |PairsOf(raws, osvs)| == |KeysOf(raws, osvs)|
    ensures |FixablePairs(raws, osvs)| == |FixableKeys(raws, osvs)|
    ensures |CalledPairs(raws, osvs)| == |CalledKeys(raws, osvs)|
  {
    hide Key, Group, Describe;
    forall key ensures forall raw :: raw in Group(raws, osvs, key) <==> raw in raws && KeyOf(raw, osvs) == key {
      GroupMembers(raws, osvs, key);
    }
    assert forall raw :: KeyOf(raw, osvs) == KeyOfPair(PairOf(raw, osvs));
    AsManyPairsAsKeys(PairsOf(raws, osvs), KeysOf(raws, osvs));
    AsManyPairsAsKeys(FixablePairs(raws, osvs), FixableKeys(raws, osvs));
    AsManyPairsAsKeys(CalledPairs(raws, osvs), CalledKeys(raws, osvs));
  }

  /** With NUL-free IDs the counts are numbers of pairs: of all, of those with a fix, of those with a called finding. */
  lemma CountsAreOfPairs(stream: Stream, exitCode: int, s: Summary)
    requires Summarizes(stream, exitCode, s)
    requires forall raw :: raw in RawFindings(stream.messages) ==> '\0' !in raw.osv
    ensures var raws, osvs := RawFindings(stream.messages), OsvByID(Osvs(stream.messages));
            && s.findingCount == |PairsOf(raws, osvs)|
            && s.fixableCount == |FixablePairs(raws, osvs)|
            && s.calledCount == |CalledPairs(raws, osvs)|
  {
    hide PairsOf, FixablePairs, CalledPairs, KeysOf, FixableKeys, CalledKeys, Summarizes;
    CountsAreOfGroups(stream, exitCode, s);
    PairsMatchKeys(RawFindings(stream.messages), OsvByID(Osvs(stream.messages)));
  }

  /** Which pairs are counted: those some finding of the stream is about, has a fix for, or calls. */
  lemma PairsAreOfFindings(raws: seq<RawFinding>, osvs: map<string, OsvEntry>, id: string, mod: string)
    ensures (id, mod) in PairsOf(raws, osvs) <==>
      exists raw :: raw in raws && raw.osv == id && IsModule(raw, OsvOf(raw, osvs), mod)
    ensures (id, mod) in FixablePairs(raws, osvs) <==>
      exists raw :: raw in raws && raw.osv == id && IsModule(raw, OsvOf(raw, osvs), mod) && raw.fixedVersion != ""
    ensures (id, mod) in CalledPairs(raws, osvs) <==>
      exists raw :: raw in raws && raw.osv == id && IsModule(raw, OsvOf(raw, osvs), mod) && CallsSymbol(raw)
  {
    hide Describe, IsModule, CallsSymbol, OsvOf;
    forall raw | raw in raws
      ensures IsModule(raw, OsvOf(raw, osvs), mod) <==> PairOf(raw, osvs).1 == mod
      ensures CallsSymbol(raw) <==> Describe(raw, OsvOf(raw, osvs)).level.Called?
    {
      ModuleIsDetermined(raw, OsvOf(raw, osvs), mod);
      DescribesExactly(raw, OsvOf(raw, osvs));
    }
  }

  // ----- The order of the list

  /** How far the report puts a reachability ahead of another. */
  predicate MoreActionable(a: Level, b: Level) {
    (a == Called && b != Called) || (a == Imported && b == Required)
  }

  /** The list is by reachability, most actionable first, then ascending by ID, then ascending by module. */
  lemma SummaryIsOrdered(stream: Stream, exitCode: int, s: Summary, i: nat, j: nat)
    requires Summarizes(stream, exitCode, s) && i < j < |s.findings|
    ensures
      var a, b := s.findings[i], s.findings[j];
      if a.level != b.level then MoreActionable(a.level, b.level)
      else if a.id != b.id then Earlier(a.id, b.id)
      else Earlier(a.mod, b.mod)
  {
    hide Less, Earlier;
    var a, b := s.findings[i], s.findings[j];
    assert Before(a, b);
    LessIsEarlier(a.id, b.id);
    LessIsEarlier(a.mod, b.mod);
  }

  // ----- What is shown

  function FixableOf(findings: seq<Finding>): seq<Finding> {
    if findings == [] then []
    else
      var before, last := FixableOf(findings[..|findings| - 1]), findings[|findings| - 1];
      if Fixable(last) then before + [last] else before
  }

  method FixableOnly(findings: seq<Finding>) returns (out: seq<Finding>)
    ensures out == FixableOf(findings)
  {
    out := [];
    for n := 0 to |findings|
      invariant out == FixableOf(findings[..n])
    {
      assert findings[..n + 1][..n] == findings[..n];
      if findings[n].fixedVersion != "" {
        out := out + [findings[n]];
      }
    }
    assert findings[..|findings|] == findings;
  }

  method CountCalled(findings: seq<Finding>) returns (count: nat)
    requires forall f :: f in findings ==> f.reachability == f.level.Name()
    ensures count == Count(findings, IsCalled)
  {
    count := 0;
    for n := 0 to |findings|
      invariant count == Count(findings[..n], IsCalled)
    {
      assert findings[..n + 1][..n] == findings[..n] && findings[n] in findings;
      if findings[n].reachability == Called.Name() {
        count := count + 1;
      }
    }
    assert findings[..|findings|] == findings;
  }

  /** The findings a render mode lists. */
  function Shown(findings: seq<Finding>, fixableMode: bool): seq<Finding> {
    if fixableMode then FixableOf(findings) else findings
  }

  /** The rows of the table; a limit of zero or less shows all. */
  function Rows(shown: seq<Finding>, maxRows: int): seq<Finding> {
    if maxRows > 0 && |shown| > maxRows then shown[..maxRows] else shown
  }

  /** The fixable findings are those with a fix, still in order. */
  lemma {:induction false} FixableKeepsOrder(findings: seq<Finding>)
    requires StrictlySorted(findings)
    ensures StrictlySorted(FixableOf(findings))
    ensures forall f :: f in FixableOf(findings) <==> f in findings && Fixable(f)
  {
    hide Before, Fixable;
    if findings != [] {
      var n := |findings| - 1;
      FixableKeepsOrder(findings[..n]);
      assert findings == findings[..n] + [findings[n]];
      var out := FixableOf(findings);
      forall i, j | 0 <= i < j < |out|
        ensures Before(out[i], out[j])
      {
        assert j == |out| - 1 && Fixable(findings[n]) ==> out[i] in findings[..n];
      }
    }
  }

  /** A mode shows all findings or those with a fix; a positive limit cuts the rows after the first so many. */
  lemma RowsAreTheFirst(findings: seq<Finding>, fixableMode: bool, maxRows: int)
    requires StrictlySorted(findings)
    ensures var shown := Shown(findings, fixableMode);
            && (forall f :: f in shown <==> f in findings && (fixableMode ==> f.fixedVersion != ""))
            && Rows(shown, maxRows) <= shown
            && |Rows(shown, maxRows)| == (if 0 < maxRows < |shown| then maxRows else |shown|)
  {
    hide Before;
    FixableKeepsOrder(findings);
  }

  /** In both modes, if a row that was cut is Called, so is every row shown. */
  lemma CutKeepsTheMostActionable(stream: Stream, exitCode: int, s: Summary, fixableMode: bool, maxRows: int, row: nat, cut: nat)
    requires Summarizes(stream, exitCode, s)
    requires var shown := Shown(s.findings, fixableMode); row < |Rows(shown, maxRows)| <= cut < |shown|
    requires IsCalled(Shown(s.findings, fixableMode)[cut])
    ensures IsCalled(Rows(Shown(s.findings, fixableMode), maxRows)[row])
  {
    FixableKeepsOrder(s.findings);
    var shown := Shown(s.findings, fixableMode);
    assert Before(shown[row], shown[cut]);
  }
}
