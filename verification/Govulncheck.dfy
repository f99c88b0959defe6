/**
 The govulncheck report (tools/govulncheck-report/report.go): what one message stream
 says, finding by finding, and what is said of each (vulnerability, module) pair.
 */
module Govulncheck {
  import opened Shorten
  import opened Text
  import opened Wrappers

  datatype Level = Required | Imported | Called
  {
    function Rank(): nat {
      match this
      case Required => 0
      case Imported => 1
      case Called => 2
    }

    function Name(): string {
      match this
      case Required => "Required"
      case Imported => "Imported"
      case Called => "Called"
    }
  }

  datatype Frame = Frame(mod: string, version: string, pkg: string, fn: string, receiver: string)

  datatype RawFinding = RawFinding(osv: string, fixedVersion: string, trace: seq<Frame>)

  /** affected lists the package names of the entry. */
  datatype OsvEntry = OsvEntry(id: string, summary: string, details: string, affected: seq<string>)

  datatype ConfigMessage = ConfigMessage(scannerVersion: string, goVersion: string)

  datatype Message = Message(config: Option<ConfigMessage>, osv: Option<OsvEntry>, finding: Option<RawFinding>)

  /** The decoded messages, and the error that ended them early, if any. */
  datatype Stream = Stream(messages: seq<Message>, broken: Option<string>)

  datatype Finding = Finding(
    id: string, mod: string, version: string, fixedVersion: string,
    reachability: string, trace: string, summary: string, level: Level)

  const NO_OSV := OsvEntry("", "", "", [])
  const NO_CONFIG := ConfigMessage("", "")

  // ----- Routing: a message counts as the first kind it qualifies for

  function Configs(messages: seq<Message>): seq<ConfigMessage> {
    if messages == [] then []
    else
      var before, m := Configs(messages[..|messages| - 1]), messages[|messages| - 1];
      if m.config.Some? then before + [m.config.value] else before
  }

  predicate IsOsv(m: Message) {
    m.config.None? && m.osv.Some? && m.osv.value.id != ""
  }

  predicate IsFinding(m: Message) {
    m.config.None? && !IsOsv(m) && m.finding.Some? && m.finding.value.osv != ""
  }

  function Osvs(messages: seq<Message>): seq<OsvEntry> {
    if messages == [] then []
    else
      var before, m := Osvs(messages[..|messages| - 1]), messages[|messages| - 1];
      if IsOsv(m) then before + [m.osv.value] else before
  }

  function RawFindings(messages: seq<Message>): seq<RawFinding> {
    if messages == [] then []
    else
      var before, m := RawFindings(messages[..|messages| - 1]), messages[|messages| - 1];
      if IsFinding(m) then before + [m.finding.value] else before
  }

  /** A later entry of the same ID replaces an earlier one. */
  function OsvByID(osvs: seq<OsvEntry>): map<string, OsvEntry> {
    if osvs == [] then map[]
    else
      var last := osvs[|osvs| - 1];
      OsvByID(osvs[..|osvs| - 1])[last.id := last]
  }

  function LastConfig(configs: seq<ConfigMessage>): ConfigMessage {
    if configs == [] then NO_CONFIG else configs[|configs| - 1]
  }

  // ----- One finding

  datatype Description = Description(mod: string, version: string, level: Level, trace: string)

  function FallbackModule(osv: OsvEntry): string {
    FirstNonEmpty(osv.affected, "unknown")
  }

  function FirstNonEmpty(names: seq<string>, default: string): string {
    if names == [] then default
    else if names[0] != "" then names[0]
    else FirstNonEmpty(names[1..], default)
  }

  /** The search itself: the first affected package with a name. */
  method FindFallbackModule(osv: OsvEntry) returns (mod: string)
    ensures mod == FallbackModule(osv)
    ensures (mod == "unknown" && forall name :: name in osv.affected ==> name == "")
         || (exists i :: 0 <= i < |osv.affected| && osv.affected[i] == mod != "" && forall j :: 0 <= j < i ==> osv.affected[j] == "")
  {
    for n := 0 to |osv.affected|
      invariant forall j :: 0 <= j < n ==> osv.affected[j] == ""
      invariant FallbackModule(osv) == FirstNonEmpty(osv.affected[n..], "unknown")
    {
      if osv.affected[n] != "" {
        return osv.affected[n];
      }
    }
    mod := "unknown";
  }

  function LastPathSegment(path: string): string {
    var pieces := Split('/', path);
    pieces[|pieces| - 1]
  }

  function SymbolLabel(f: Frame): string {
    var name := if f.receiver != "" then f.receiver + "." + f.fn else f.fn;
    var pkg := LastPathSegment(f.pkg);
    if pkg != "" then pkg + "." + name else name
  }

  function Describe(raw: RawFinding, osv: OsvEntry): Description {
    if raw.trace == [] then Description(FallbackModule(osv), "", Required, "")
    else
      var vuln := raw.trace[0];
      var mod := if vuln.mod == "" then FallbackModule(osv) else vuln.mod;
      if vuln.fn != "" then Description(mod, vuln.version, Called, SymbolLabel(vuln))
      else if vuln.pkg != "" then Description(mod, vuln.version, Imported, "")
      else Description(mod, vuln.version, Required, "")
  }

  // ----- What is said of a finding, in terms of the finding alone

  /** The vulnerable symbol itself is in a call stack. */
  predicate CallsSymbol(raw: RawFinding) {
    raw.trace != [] && raw.trace[0].fn != ""
  }

  /** Its package is imported, the symbol not called. */
  predicate ImportsPackage(raw: RawFinding) {
    raw.trace != [] && raw.trace[0].fn == "" && raw.trace[0].pkg != ""
  }

  /** The first package the entry names, or the word for none. */
  ghost predicate FirstNamed(names: seq<string>, mod: string) {
    || (mod == "unknown" && forall i :: 0 <= i < |names| ==> names[i] == "")
    || (mod != "" && exists i :: 0 <= i < |names| && names[i] == mod && forall j :: 0 <= j < i ==> names[j] == "")
  }

  ghost predicate IsModule(raw: RawFinding, osv: OsvEntry, mod: string) {
    if raw.trace != [] && raw.trace[0].mod != "" then mod == raw.trace[0].mod else FirstNamed(osv.affected, mod)
  }

  /** The last piece of a path: what follows its last slash. */
  predicate IsLastSegment(path: string, segment: string) {
    && '/' !in segment
    && (path == segment
        || (|segment| < |path| && path[|path| - |segment| - 1] == '/' && path[|path| - |segment|..] == segment))
  }

  /** Package, receiver and function, those there are, joined by dots. */
  ghost predicate IsLabel(f: Frame, text: string) {
    exists segment :: IsLastSegment(f.pkg, segment)
      && text == (if segment == "" then "" else segment + ".") + (if f.receiver == "" then "" else f.receiver + ".") + f.fn
  }

  ghost predicate HasLabel(raw: RawFinding, text: string) {
    raw.trace != [] && IsLabel(raw.trace[0], text)
  }

  lemma {:induction false} FirstNonEmptyIsFirst(names: seq<string>)
    ensures FirstNamed(names, FirstNonEmpty(names, "unknown"))
  {
    if names != [] && names[0] == "" {
      var rest, mod := names[1..], FirstNonEmpty(names[1..], "unknown");
      FirstNonEmptyIsFirst(rest);
      if !(forall i :: 0 <= i < |rest| ==> rest[i] == "") || mod != "unknown" {
        var i :| 0 <= i < |rest| && rest[i] == mod && forall j :: 0 <= j < i ==> rest[j] == "";
        assert names[i + 1] == mod;
        assert forall j :: 0 <= j < i + 1 ==> names[j] == "";
      }
    } else if names != [] {
      assert names[0] == FirstNonEmpty(names, "unknown");
    }
  }

  lemma {:induction false} LastPieceIsLastSegment(path: string)
    ensures IsLastSegment(path, LastPathSegment(path))
  {
    if path != "" {
      var rest, segment := path[1..], LastPathSegment(path[1..]);
      LastPieceIsLastSegment(rest);
      assert path == [path[0]] + rest;
      if rest == segment {
        SplitWithoutSeparator('/', rest);
      } else {
        SlashMeansMore(rest, |rest| - |segment| - 1);
        assert LastPathSegment(path) == segment;
      }
    }
  }

  lemma {:induction false} SlashMeansMore(path: string, i: nat)
    requires i < |path| && path[i] == '/'
    ensures |Split('/', path)| > 1
  {
    if path[0] != '/' {
      SlashMeansMore(path[1..], i - 1);
    }
  }

  /** The description of a finding: level, module, version and label, each from the finding's own first frame. */
  lemma DescribesExactly(raw: RawFinding, osv: OsvEntry)
    ensures var d := Describe(raw, osv);
            && (d.level == Called <==> CallsSymbol(raw))
            && (d.level == Imported <==> ImportsPackage(raw))
            && (d.level == Required <==> !CallsSymbol(raw) && !ImportsPackage(raw))
            && IsModule(raw, osv, d.mod)
            && d.version == (if raw.trace == [] then "" else raw.trace[0].version)
            && (if CallsSymbol(raw) then HasLabel(raw, d.trace) else d.trace == "")
  {
    hide FirstNonEmpty, FirstNamed, IsLastSegment, LastPathSegment;
    FirstNonEmptyIsFirst(osv.affected);
    if raw.trace != [] {
      var f := raw.trace[0];
      LastPieceIsLastSegment(f.pkg);
      var segment := LastPathSegment(f.pkg);
      assert SymbolLabel(f) ==
        (if segment == "" then "" else segment + ".") + (if f.receiver == "" then "" else f.receiver + ".") + f.fn;
    }
  }

  /** At most one module, and one label, is meant. */
  lemma ModuleIsDetermined(raw: RawFinding, osv: OsvEntry, mod: string)
    ensures IsModule(raw, osv, mod) <==> mod == Describe(raw, osv).mod
  {
    DescribesExactly(raw, osv);
    hide Describe;
    if IsModule(raw, osv, mod) && FirstNamed(osv.affected, mod) && FirstNamed(osv.affected, Describe(raw, osv).mod) {
      FirstNamedIsUnique(osv.affected, mod, Describe(raw, osv).mod);
    }
  }

  lemma FirstNamedIsUnique(names: seq<string>, a: string, b: string)
    requires FirstNamed(names, a) && FirstNamed(names, b)
    ensures a == b
  {
    if exists i :: 0 <= i < |names| && names[i] != "" {
      var i :| 0 <= i < |names| && names[i] == a != "" && forall j :: 0 <= j < i ==> names[j] == "";
      var k :| 0 <= k < |names| && names[k] == b != "" && forall j :: 0 <= j < k ==> names[j] == "";
      assert i == k;
    }
  }

  /** The text of an entry, shortened to 200 characters; the panic case cannot arise there. */
  function Summarize(osv: OsvEntry): string {
    match ShortenTo(if osv.summary == "" then osv.details else osv.summary, 200)
    case Some(text) => text
    case None => ""
  }

  /** The summary of an entry, or without one its details, in at most 200 characters; all of its words when they fit. */
  lemma SummarizesExactly(osv: OsvEntry)
    ensures var text, r := if osv.summary != "" then osv.summary else osv.details, Summarize(osv);
            && |r| <= 200 && Normal(r)
            && (|Join(" ", Fields(text))| <= 200 ==> Fields(r) == Fields(text))
            && (|Join(" ", Fields(text))| > 200 ==> |r| == 200 && r[..197] <= Join(" ", Fields(text)) && r[197..] == "...")
  {
    hide Fields, Normal;
    var text := if osv.summary != "" then osv.summary else osv.details;
    ShortenIsNormalForm(text, 200);
    ShortenKeepsTheWords(text, 200, Summarize(osv));
  }

  // ----- Keys

  function Key(osv: string, mod: string): string {
    osv + "\0" + mod
  }

  /** Two pairs share a key exactly when cutting both at every NUL gives the same pieces. */
  lemma KeysEqualIffPiecesEqual(a: string, m: string, b: string, n: string)
    ensures Key(a, m) == Key(b, n) <==> Split('\0', a) + Split('\0', m) == Split('\0', b) + Split('\0', n)
  {
    SplitAtSeparator('\0', a, m);
    SplitAtSeparator('\0', b, n);
    JoinSplit('\0', Key(a, m));
    JoinSplit('\0', Key(b, n));
    assert "\0" == ['\0'];
  }

  lemma KeysSeparatePairs(a: string, m: string, b: string, n: string)
    requires '\0' !in a && '\0' !in b
    ensures Key(a, m) == Key(b, n) <==> a == b && m == n
  {
    if Key(a, m) == Key(b, n) {
      KeysEqualIffPiecesEqual(a, m, b, n);
      SplitWithoutSeparator('\0', a);
      SplitWithoutSeparator('\0', b);
      var x, y := [a] + Split('\0', m), [b] + Split('\0', n);
      assert x[0] == y[0];
      assert Key(a, m)[|a| + 1..] == m && Key(b, n)[|b| + 1..] == n;
    }
  }

  lemma NulConfusesKeys(a: string, b: string, m: string)
    ensures Key(a + "\0" + b, m) == Key(a, b + "\0" + m)
  {
  }

  // ----- The merge, one finding after the other

  function OsvOf(raw: RawFinding, osvs: map<string, OsvEntry>): OsvEntry {
    if raw.osv in osvs then osvs[raw.osv] else NO_OSV
  }

  function KeyOf(raw: RawFinding, osvs: map<string, OsvEntry>): string {
    Key(raw.osv, Describe(raw, OsvOf(raw, osvs)).mod)
  }

  function FirstEntry(raw: RawFinding, osv: OsvEntry): Finding {
    var d := Describe(raw, osv);
    Finding(raw.osv, d.mod, d.version, raw.fixedVersion, d.level.Name(), d.trace, Summarize(osv), d.level)
  }

  function MergeInto(f: Finding, raw: RawFinding, d: Description): Finding {
    var raised := if d.level.Rank() > f.level.Rank() then f.(level := d.level, reachability := d.level.Name(), trace := d.trace) else f;
    raised.(
      fixedVersion := if f.fixedVersion == "" then raw.fixedVersion else f.fixedVersion,
      version := if f.version == "" then d.version else f.version)
  }

  /** The entries after one more finding. */
  function MergedWith(before: map<string, Finding>, raw: RawFinding, osvs: map<string, OsvEntry>): map<string, Finding> {
    var osv, key := OsvOf(raw, osvs), KeyOf(raw, osvs);
    before[key := if key in before then MergeInto(before[key], raw, Describe(raw, osv)) else FirstEntry(raw, osv)]
  }

  function Merged(raws: seq<RawFinding>, osvs: map<string, OsvEntry>): map<string, Finding> {
    if raws == [] then map[] else MergedWith(Merged(raws[..|raws| - 1], osvs), raws[|raws| - 1], osvs)
  }

  // ----- The group-by it refines

  /** The findings with one key, in order. */
  function Group(raws: seq<RawFinding>, osvs: map<string, OsvEntry>, key: string): seq<RawFinding> {
    if raws == [] then []
    else
      var before, raw := Group(raws[..|raws| - 1], osvs, key), raws[|raws| - 1];
      if KeyOf(raw, osvs) == key then before + [raw] else before
  }

  function KeysOf(raws: seq<RawFinding>, osvs: map<string, OsvEntry>): set<string> {
    set raw | raw in raws :: KeyOf(raw, osvs)
  }

  function DescriptionAt(group: seq<RawFinding>, osvs: map<string, OsvEntry>, i: nat): Description
    requires i < |group|
  {
    Describe(group[i], OsvOf(group[i], osvs))
  }

  /** The value of the first finding for which it is not empty, or the empty string. */
  ghost predicate FirstFilled(group: seq<RawFinding>, value: RawFinding -> string, chosen: string) {
    || (chosen == "" && forall i :: 0 <= i < |group| ==> value(group[i]) == "")
    || (chosen != "" && exists i :: 0 <= i < |group| && value(group[i]) == chosen
                          && forall j :: 0 <= j < i ==> value(group[j]) == "")
  }

  /** No finding of the group reaches deeper than the first one at this level, which gives the trace. */
  ghost predicate FirstDeepest(group: seq<RawFinding>, osvs: map<string, OsvEntry>, level: Level, trace: string) {
    && (forall i :: 0 <= i < |group| ==> DescriptionAt(group, osvs, i).level.Rank() <= level.Rank())
    && exists i :: 0 <= i < |group|
         && DescriptionAt(group, osvs, i).level == level && DescriptionAt(group, osvs, i).trace == trace
         && forall j :: 0 <= j < i ==> DescriptionAt(group, osvs, j).level.Rank() < level.Rank()
  }

  /** What is said of a group: identity and summary of its first finding, the rest picked from all. */
  ghost predicate Represents(f: Finding, group: seq<RawFinding>, osvs: map<string, OsvEntry>) {
    && group != []
    && f.id == group[0].osv && f.mod == DescriptionAt(group, osvs, 0).mod
    && f.summary == Summarize(OsvOf(group[0], osvs))
    && FirstFilled(group, (raw: RawFinding) => raw.fixedVersion, f.fixedVersion)
    && FirstFilled(group, (raw: RawFinding) => Describe(raw, OsvOf(raw, osvs)).version, f.version)
    && FirstDeepest(group, osvs, f.level, f.trace)
    && f.reachability == f.level.Name()
  }

  lemma FirstFilledExtends(group: seq<RawFinding>, raw: RawFinding, value: RawFinding -> string, chosen: string)
    requires FirstFilled(group, value, chosen)
    ensures FirstFilled(group + [raw], value, if chosen == "" then value(raw) else chosen)
  {
    var longer := group + [raw];
    if chosen == "" {
      if value(raw) != "" {
        assert longer[|group|] == raw;
      }
    } else {
      var i :| 0 <= i < |group| && value(group[i]) == chosen && forall j :: 0 <= j < i ==> value(group[j]) == "";
      assert value(longer[i]) == chosen && forall j :: 0 <= j < i ==> value(longer[j]) == "";
    }
  }

  lemma FirstDeepestExtends(group: seq<RawFinding>, raw: RawFinding, osvs: map<string, OsvEntry>, level: Level, trace: string)
    requires FirstDeepest(group, osvs, level, trace)
    ensures var d := Describe(raw, OsvOf(raw, osvs));
            if d.level.Rank() > level.Rank()
            then FirstDeepest(group + [raw], osvs, d.level, d.trace)
            else FirstDeepest(group + [raw], osvs, level, trace)
  {
    var longer := group + [raw];
    var d := Describe(raw, OsvOf(raw, osvs));
    assert forall k {:trigger DescriptionAt(longer, osvs, k)} :: 0 <= k < |group| ==>
      DescriptionAt(longer, osvs, k) == DescriptionAt(group, osvs, k);
    assert DescriptionAt(longer, osvs, |group|) == d;
    if d.level.Rank() <= level.Rank() {
      var i :| 0 <= i < |group|
        && DescriptionAt(group, osvs, i).level == level && DescriptionAt(group, osvs, i).trace == trace
        && forall j :: 0 <= j < i ==> DescriptionAt(group, osvs, j).level.Rank() < level.Rank();
      assert DescriptionAt(longer, osvs, i).level == level && DescriptionAt(longer, osvs, i).trace == trace;
    }
  }

  lemma MergeRepresents(f: Finding, group: seq<RawFinding>, osvs: map<string, OsvEntry>, raw: RawFinding)
    requires Represents(f, group, osvs)
    ensures Represents(MergeInto(f, raw, Describe(raw, OsvOf(raw, osvs))), group + [raw], osvs)
  {
    hide Describe, Summarize, FirstFilled, FirstDeepest;
    FirstFilledExtends(group, raw, (r: RawFinding) => r.fixedVersion, f.fixedVersion);
    FirstFilledExtends(group, raw, (r: RawFinding) => Describe(r, OsvOf(r, osvs)).version, f.version);
    FirstDeepestExtends(group, raw, osvs, f.level, f.trace);
    assert (group + [raw])[0] == group[0];
  }

  lemma FirstRepresents(raw: RawFinding, osvs: map<string, OsvEntry>)
    ensures Represents(FirstEntry(raw, OsvOf(raw, osvs)), [raw], osvs)
  {
    hide Describe, Summarize;
    var d := DescriptionAt([raw], osvs, 0);
  }

  /** The one-pass merge is a group-by: an entry for each key that occurs, representing all findings with that key. */
  lemma {:induction false} MergeRefinesGroupBy(raws: seq<RawFinding>, osvs: map<string, OsvEntry>, key: string)
    ensures key in Merged(raws, osvs) <==> Group(raws, osvs, key) != []
    ensures key in Merged(raws, osvs) ==> Represents(Merged(raws, osvs)[key], Group(raws, osvs, key), osvs)
  {
    hide Describe, Summarize, Represents, MergeInto, FirstEntry, KeyOf;
    if raws != [] {
      var before, raw := raws[..|raws| - 1], raws[|raws| - 1];
      MergeRefinesGroupBy(before, osvs, key);
      if KeyOf(raw, osvs) == key {
        if key in Merged(before, osvs) {
          MergeRepresents(Merged(before, osvs)[key], Group(before, osvs, key), osvs, raw);
        } else {
          FirstRepresents(raw, osvs);
          assert [] + [raw] == [raw];
        }
      }
    }
  }

  lemma {:induction false} MergedKeys(raws: seq<RawFinding>, osvs: map<string, OsvEntry>)
    ensures Merged(raws, osvs).Keys == KeysOf(raws, osvs)
  {
    hide Describe, Summarize, MergeInto, FirstEntry, KeyOf;
    if raws != [] {
      var n := |raws| - 1;
      MergedKeys(raws[..n], osvs);
      assert raws == raws[..n] + [raws[n]];
    }
  }

  /** A trace is given exactly for the findings at the deepest level. */
  lemma TraceExactlyWhenCalled(raw: RawFinding, osv: OsvEntry)
    ensures Describe(raw, osv).trace != "" <==> Describe(raw, osv).level.Called?
  {
    hide Split, FirstNonEmpty;
  }

  lemma EntryTraceExactlyWhenCalled(raws: seq<RawFinding>, osvs: map<string, OsvEntry>, key: string)
    requires key in Merged(raws, osvs)
    ensures Merged(raws, osvs)[key].trace != "" <==> Merged(raws, osvs)[key].level.Called?
  {
    hide Describe, Summarize, Merged;
    MergeRefinesGroupBy(raws, osvs, key);
    var f, group := Merged(raws, osvs)[key], Group(raws, osvs, key);
    assert Represents(f, group, osvs);
    var i :| 0 <= i < |group| && DescriptionAt(group, osvs, i).level == f.level && DescriptionAt(group, osvs, i).trace == f.trace;
    TraceExactlyWhenCalled(group[i], OsvOf(group[i], osvs));
  }

  /** An entry stands under its own key, so two entries never share ID and module. */
  lemma {:induction false} EntriesAreDistinct(raws: seq<RawFinding>, osvs: map<string, OsvEntry>)
    ensures forall key :: key in Merged(raws, osvs) ==> Key(Merged(raws, osvs)[key].id, Merged(raws, osvs)[key].mod) == key
  {
    hide Describe, Summarize, Key;
    if raws != [] {
      EntriesAreDistinct(raws[..|raws| - 1], osvs);
    }
  }

  // ----- What is said of a pair, in terms of its findings alone

  function VersionOf(raw: RawFinding): string {
    if raw.trace == [] then "" else raw.trace[0].version
  }

  lemma FirstFilledAlike(group: seq<RawFinding>, a: RawFinding -> string, b: RawFinding -> string, chosen: string)
    requires FirstFilled(group, a, chosen) && forall i :: 0 <= i < |group| ==> a(group[i]) == b(group[i])
    ensures FirstFilled(group, b, chosen)
  {
    if chosen != "" {
      var i :| 0 <= i < |group| && a(group[i]) == chosen && forall j :: 0 <= j < i ==> a(group[j]) == "";
      assert b(group[i]) == chosen && forall j :: 0 <= j < i ==> b(group[j]) == "";
    }
  }

  /** The first finding of the group that calls the symbol gives the label. */
  ghost predicate FirstCall(group: seq<RawFinding>, text: string) {
    exists i :: 0 <= i < |group| && CallsSymbol(group[i]) && HasLabel(group[i], text)
      && forall j :: 0 <= j < i ==> !CallsSymbol(group[j])
  }

  /**
   The entry of a pair is as reachable as its most reachable finding, with the label of
   the first finding that calls the symbol and the first version and fix there is.
   */
  lemma EntryReflectsItsFindings(raws: seq<RawFinding>, osvs: map<string, OsvEntry>, key: string)
    requires key in Merged(raws, osvs)
    ensures
      var f, group := Merged(raws, osvs)[key], Group(raws, osvs, key);
      && (f.reachability == "Called" <==> exists raw :: raw in group && CallsSymbol(raw))
      && (f.reachability == "Imported" <==>
            (forall raw :: raw in group ==> !CallsSymbol(raw)) && exists raw :: raw in group && ImportsPackage(raw))
      && (f.reachability == "Required" <==> forall raw :: raw in group ==> !CallsSymbol(raw) && !ImportsPackage(raw))
      && (if f.reachability == "Called" then FirstCall(group, f.trace) else f.trace == "")
      && group != [] && f.id == group[0].osv && IsModule(group[0], OsvOf(group[0], osvs), f.mod)
      && FirstFilled(group, VersionOf, f.version)
      && FirstFilled(group, (raw: RawFinding) => raw.fixedVersion, f.fixedVersion)
  {
    hide Describe, Summarize, Merged, Group, FirstFilled, IsModule, HasLabel, CallsSymbol, ImportsPackage, KeyOf;
    MergeRefinesGroupBy(raws, osvs, key);
    var f, group := Merged(raws, osvs)[key], Group(raws, osvs, key);
    forall i | 0 <= i < |group|
      ensures var d := DescriptionAt(group, osvs, i);
              && (d.level == Called <==> CallsSymbol(group[i])) && (d.level == Imported <==> ImportsPackage(group[i]))
              && (if CallsSymbol(group[i]) then HasLabel(group[i], d.trace) else d.trace == "")
              && IsModule(group[i], OsvOf(group[i], osvs), d.mod) && d.version == VersionOf(group[i])
    {
      DescribesExactly(group[i], OsvOf(group[i], osvs));
    }
    FirstFilledAlike(group, (raw: RawFinding) => Describe(raw, OsvOf(raw, osvs)).version, VersionOf, f.version);
    LevelOfGroup(group, osvs, f.level, f.trace);
  }

  lemma LevelOfGroup(group: seq<RawFinding>, osvs: map<string, OsvEntry>, level: Level, trace: string)
    requires FirstDeepest(group, osvs, level, trace)
    requires forall i :: 0 <= i < |group| ==>
      && (DescriptionAt(group, osvs, i).level == Called <==> CallsSymbol(group[i]))
      && (DescriptionAt(group, osvs, i).level == Imported <==> ImportsPackage(group[i]))
      && (if CallsSymbol(group[i]) then HasLabel(group[i], DescriptionAt(group, osvs, i).trace)
          else DescriptionAt(group, osvs, i).trace == "")
    ensures level == Called <==> exists raw :: raw in group && CallsSymbol(raw)
    ensures level == Imported <==>
      (forall raw :: raw in group ==> !CallsSymbol(raw)) && exists raw :: raw in group && ImportsPackage(raw)
    ensures if level == Called then FirstCall(group, trace) else trace == ""
  {
    hide Describe, HasLabel, CallsSymbol, ImportsPackage, DescriptionAt;
    var i :| 0 <= i < |group|
      && DescriptionAt(group, osvs, i).level == level && DescriptionAt(group, osvs, i).trace == trace
      && forall j :: 0 <= j < i ==> DescriptionAt(group, osvs, j).level.Rank() < level.Rank();
    assert group[i] in group;
    forall raw | raw in group
      ensures CallsSymbol(raw) ==> level == Called
      ensures ImportsPackage(raw) ==> level != Required
    {
      var k :| 0 <= k < |group| && group[k] == raw;
      assert DescriptionAt(group, osvs, k).level.Rank() <= level.Rank();
    }
    if level == Called {
      forall j | 0 <= j < i ensures !CallsSymbol(group[j]) {
        assert DescriptionAt(group, osvs, j).level.Rank() < level.Rank();
      }
    }
  }

  // ----- What routing gives

  /** Each kind of message is kept in order; one message counts as the first kind it qualifies for. */
  lemma {:induction false} RoutingIsExact(a: seq<Message>, m: Message, b: seq<Message>)
    ensures Configs([]) == [] && Osvs([]) == [] && RawFindings([]) == []
    ensures Configs(a + b) == Configs(a) + Configs(b)
    ensures Osvs(a + b) == Osvs(a) + Osvs(b)
    ensures RawFindings(a + b) == RawFindings(a) + RawFindings(b)
    ensures
      if m.config.Some? then Configs([m]) == [m.config.value] && Osvs([m]) == [] && RawFindings([m]) == []
      else if m.osv.Some? && m.osv.value.id != "" then Configs([m]) == [] && Osvs([m]) == [m.osv.value] && RawFindings([m]) == []
      else if m.finding.Some? && m.finding.value.osv != "" then
        Configs([m]) == [] && Osvs([m]) == [] && RawFindings([m]) == [m.finding.value]
      else Configs([m]) == [] && Osvs([m]) == [] && RawFindings([m]) == []
  {
    assert [m][..0] == [];
    if b == [] {
      assert a + b == a;
    } else {
      var n := |b| - 1;
      assert (a + b)[..|a + b| - 1] == a + b[..n];
      RoutingIsExact(a, m, b[..n]);
    }
  }

  /** A finding is described with the last entry of its ID, or with none. */
  lemma {:induction false} EntryIsTheLast(osvs: seq<OsvEntry>, id: string)
    ensures if id in OsvByID(osvs) then
              exists i :: 0 <= i < |osvs| && osvs[i] == OsvByID(osvs)[id] && osvs[i].id == id
                && forall j :: i < j < |osvs| ==> osvs[j].id != id
            else forall i :: 0 <= i < |osvs| ==> osvs[i].id != id
  {
    if osvs != [] {
      var n := |osvs| - 1;
      EntryIsTheLast(osvs[..n], id);
      if osvs[n].id != id && id in OsvByID(osvs) {
        var i :| 0 <= i < n && osvs[..n][i] == OsvByID(osvs[..n])[id] && osvs[..n][i].id == id
          && forall j :: i < j < n ==> osvs[..n][j].id != id;
        assert osvs[i] == OsvByID(osvs)[id];
        assert forall j :: i < j < n ==> osvs[j] == osvs[..n][j];
      } else if osvs[n].id != id {
        assert forall j :: 0 <= j < n ==> osvs[j] == osvs[..n][j];
      }
    }
  }
}
