/**
 Between Harbor and Clair (pkg/scanner/transformer.go): the chain of layers sent to
 Clair for a manifest, and the report made of the layer Clair answers with.
 */
module Transformer {
  import opened Collections
  import opened Harbor
  import opened Text

  type Byte = b: int | 0 <= b < 256

  /** SHA-256 stays abstract: any function from text to bytes. */
  type Hash = string -> seq<Byte>

  const MEDIA_TYPE_IMAGE_CONFIG := "application/vnd.docker.container.image.v1+json"

  datatype Descriptor = Descriptor(mediaType: string, digest: string)

  datatype Vulnerability = Vulnerability(
    name: string, description: string, link: string, severity: string, fixedBy: string)

  datatype Feature = Feature(name: string, version: string, vulnerabilities: seq<Vulnerability>)

  datatype Layer = Layer(
    name: string, parentName: string, path: string, headers: map<string, string>,
    format: string, features: seq<Feature>)

  // ----- Layer chain

  const HEX_DIGITS := "0123456789abcdef"

  /** The %x verb: two lower-case digits a byte. */
  function Hex(bytes: seq<Byte>): string {
    if bytes == [] then ""
    else [HEX_DIGITS[bytes[0] / 16], HEX_DIGITS[bytes[0] % 16]] + Hex(bytes[1..])
  }

  lemma {:induction false} HexInjective(a: seq<Byte>, b: seq<Byte>)
    requires Hex(a) == Hex(b)
    ensures a == b
  {
    if a != [] && b != [] {
      assert Hex(a)[0] == Hex(b)[0] && Hex(a)[1] == Hex(b)[1];
      assert Hex(a)[2..] == Hex(a[1..]) && Hex(b)[2..] == Hex(b[1..]);
      HexDigitsDiffer(a[0] / 16, b[0] / 16);
      HexDigitsDiffer(a[0] % 16, b[0] % 16);
      HexInjective(a[1..], b[1..]);
      assert a == [a[0]] + a[1..] && b == [b[0]] + b[1..];
    }
  }

  lemma HexDigitsDiffer(i: nat, j: nat)
    requires i < 16 && j < 16 && HEX_DIGITS[i] == HEX_DIGITS[j]
    ensures i == j
  {
    assert forall k :: 0 <= k < 10 ==> HEX_DIGITS[k] == ('0' as int + k) as char;
    assert forall k :: 10 <= k < 16 ==> HEX_DIGITS[k] == ('a' as int + k - 10) as char;
  }

  /** The digests of the references that are not an image configuration, in order. */
  function Digests(references: seq<Descriptor>): seq<string> {
    if references == [] then []
    else
      var last := references[|references| - 1];
      var before := Digests(references[..|references| - 1]);
      if last.mediaType == MEDIA_TYPE_IMAGE_CONFIG then before else before + [last.digest]
  }

  /** Every digest followed by a dash. */
  function Chain(digests: seq<string>): string {
    if digests == [] then "" else Chain(digests[..|digests| - 1]) + digests[|digests| - 1] + "-"
  }

  function LayerName(sha: Hash, digests: seq<string>): string {
    Hex(sha(Chain(digests)))
  }

  function BlobURL(endpoint: string, repository: string, digest: string): string {
    endpoint + "/v2/" + repository + "/blobs/" + digest
  }

  function LayerFor(sha: Hash, req: ScanRequest, digests: seq<string>): Layer
    requires digests != []
  {
    var n := |digests|;
    Layer(
      LayerName(sha, digests),
      if n > 1 then LayerName(sha, digests[..n - 1]) else "",
      BlobURL(req.registry.url, req.artifact.repository, digests[n - 1]),
      map["Connection" := "close", "Authorization" := req.registry.authorization],
      "Docker", [])
  }

  /** One layer a digest, each standing for all digests up to it. */
  function LayersFor(sha: Hash, req: ScanRequest, digests: seq<string>): (layers: seq<Layer>)
    ensures |layers| == |digests|
  {
    if digests == [] then [] else LayersFor(sha, req, digests[..|digests| - 1]) + [LayerFor(sha, req, digests)]
  }

  lemma {:induction false} LayerAt(sha: Hash, req: ScanRequest, digests: seq<string>, i: nat)
    requires i < |digests|
    ensures LayersFor(sha, req, digests)[i] == LayerFor(sha, req, digests[..i + 1])
  {
    var n := |digests| - 1;
    if i == n {
      assert digests[..i + 1] == digests;
    } else {
      LayerAt(sha, req, digests[..n], i);
      assert digests[..n][..i + 1] == digests[..i + 1];
    }
  }

  function LayersOf(sha: Hash, req: ScanRequest, references: seq<Descriptor>): (layers: seq<Layer>)
    ensures |layers| == |Digests(references)|
  {
    LayersFor(sha, req, Digests(references))
  }

  /** What one more reference adds: nothing when it is a configuration, else one digest and one layer. */
  lemma OneMoreReference(sha: Hash, req: ScanRequest, references: seq<Descriptor>, n: nat)
    requires n < |references|
    ensures var before, after := Digests(references[..n]), Digests(references[..n + 1]);
            if references[n].mediaType == MEDIA_TYPE_IMAGE_CONFIG then after == before
            else
              && after == before + [references[n].digest]
              && after[..|after| - 1] == before
              && Chain(after) == Chain(before) + references[n].digest + "-"
              && LayersFor(sha, req, after) == LayersFor(sha, req, before) + [LayerFor(sha, req, after)]
              && (before != [] ==> LayersFor(sha, req, before)[|before| - 1].name == LayerName(sha, before))
  {
    hide Hex;
    var before, after := Digests(references[..n]), Digests(references[..n + 1]);
    assert references[..n + 1][..n] == references[..n];
    if references[n].mediaType != MEDIA_TYPE_IMAGE_CONFIG {
      assert after[..|after| - 1] == before;
      if before != [] {
        LayerAt(sha, req, before, |before| - 1);
        assert before[..|before|] == before;
      }
    }
  }

  method ToClairLayers(sha: Hash, req: ScanRequest, references: seq<Descriptor>) returns (layers: seq<Layer>)
    ensures layers == LayersOf(sha, req, references)
  {
    assert Digests([]) == [] && Chain([]) == "";
    hide Digests, Chain, LayersFor, Hex, BlobURL;
    layers := [];
    var shaChain := "";
    for n := 0 to |references|
      invariant shaChain == Chain(Digests(references[..n]))
      invariant layers == LayersOf(sha, req, references[..n])
    {
      var d := references[n];
      OneMoreReference(sha, req, references, n);
      if d.mediaType == MEDIA_TYPE_IMAGE_CONFIG {
        continue;
      }
      shaChain := shaChain + d.digest + "-";
      var l := Layer(
        Hex(sha(shaChain)), "", BlobURL(req.registry.url, req.artifact.repository, d.digest),
        map["Connection" := "close", "Authorization" := req.registry.authorization],
        "Docker", []);
      if |layers| > 0 {
        l := l.(parentName := layers[|layers| - 1].name);
      }
      layers := layers + [l];
    }
    assert references[..|references|] == references;
  }

  /** Configuration descriptors change nothing, wherever they stand in the list. */
  lemma {:induction false} ConfigChangesNothing(before: seq<Descriptor>, config: Descriptor, after: seq<Descriptor>)
    requires config.mediaType == MEDIA_TYPE_IMAGE_CONFIG
    ensures Digests(before + [config] + after) == Digests(before + after)
  {
    var with, without := before + [config] + after, before + after;
    if after == [] {
      assert with[..|with| - 1] == before && without == before;
    } else {
      var rest := after[..|after| - 1];
      assert with[..|with| - 1] == before + [config] + rest;
      assert without[..|without| - 1] == before + rest;
      ConfigChangesNothing(before, config, rest);
    }
  }

  /** Each layer's parent is the layer before it; the first has none. */
  lemma LayersAreChained(sha: Hash, req: ScanRequest, references: seq<Descriptor>, i: nat)
    requires i < |Digests(references)|
    ensures var layers := LayersOf(sha, req, references);
            layers[i].parentName == if i == 0 then "" else layers[i - 1].name
  {
    var digests := Digests(references);
    LayerAt(sha, req, digests, i);
    if i > 0 {
      LayerAt(sha, req, digests, i - 1);
      assert digests[..i + 1][..i] == digests[..i - 1 + 1];
    }
  }

  /** An image built on another reuses the names and parents of all its layers. */
  lemma SharedBaseSharesNames(sha: Hash, base: ScanRequest, baseRefs: seq<Descriptor>, image: ScanRequest, imageRefs: seq<Descriptor>, i: nat)
    requires Digests(baseRefs) <= Digests(imageRefs)
    requires i < |Digests(baseRefs)|
    ensures LayersOf(sha, base, baseRefs)[i].name == LayersOf(sha, image, imageRefs)[i].name
    ensures LayersOf(sha, base, baseRefs)[i].parentName == LayersOf(sha, image, imageRefs)[i].parentName
  {
    var a, b := Digests(baseRefs), Digests(imageRefs);
    LayerAt(sha, base, a, i);
    LayerAt(sha, image, b, i);
    assert a[..i + 1] == b[..i + 1];
  }

  /** The digests of a list are those of its parts; one reference has one, unless it is an image configuration. */
  lemma {:induction false} DigestsAreExact(a: seq<Descriptor>, d: Descriptor, b: seq<Descriptor>)
    ensures Digests([]) == []
    ensures Digests(a + b) == Digests(a) + Digests(b)
    ensures Digests([d]) == if d.mediaType == "application/vnd.docker.container.image.v1+json" then [] else [d.digest]
  {
    assert [d][..0] == [];
    if b == [] {
      assert a + b == a;
    } else {
      var n := |b| - 1;
      assert (a + b)[..|a + b| - 1] == a + b[..n];
      DigestsAreExact(a, d, b[..n]);
    }
  }

  lemma {:induction false} ChainIsJoined(digests: seq<string>)
    requires digests != []
    ensures Chain(digests) == Join("-", digests) + "-"
  {
    var n := |digests| - 1;
    if n == 0 {
      assert Chain(digests[..0]) == "";
    } else {
      ChainIsJoined(digests[..n]);
      JoinOneMore("-", digests[..n], digests[n]);
      assert digests == digests[..n] + [digests[n]];
    }
  }

  lemma {:induction false} JoinOneMore(sep: string, pieces: seq<string>, last: string)
    requires pieces != []
    ensures Join(sep, pieces + [last]) == Join(sep, pieces) + sep + last
  {
    if |pieces| > 1 {
      JoinOneMore(sep, pieces[1..], last);
      assert (pieces + [last])[1..] == pieces[1..] + [last];
    } else {
      assert (pieces + [last])[1..] == [last];
    }
  }

  /** What Clair is told of the layer of one digest: where to fetch it, with which token, under which hash. */
  lemma LayersFetchTheirDigests(sha: Hash, req: ScanRequest, references: seq<Descriptor>, i: nat)
    requires i < |Digests(references)|
    ensures var digests, l := Digests(references), LayersOf(sha, req, references)[i];
            && l.name == Hex(sha(Join("-", digests[..i + 1]) + "-"))
            && l.path == req.registry.url + "/v2/" + req.artifact.repository + "/blobs/" + digests[i]
            && l.headers == map["Connection" := "close", "Authorization" := req.registry.authorization]
            && l.format == "Docker" && l.features == []
  {
    var digests := Digests(references);
    LayerAt(sha, req, digests, i);
    ChainIsJoined(digests[..i + 1]);
  }

  /** The parts of all digests, cut at every dash. */
  function Parts(digests: seq<string>): seq<string> {
    if digests == [] then []
    else Parts(digests[..|digests| - 1]) + Split('-', digests[|digests| - 1])
  }

  lemma {:induction false} SplitOfChain(digests: seq<string>, rest: string)
    ensures Split('-', Chain(digests) + rest) == Parts(digests) + Split('-', rest)
  {
    if digests == [] {
      assert Chain(digests) + rest == rest;
    } else {
      var n := |digests| - 1;
      var before, last := digests[..n], digests[n];
      calc {
        Split('-', Chain(digests) + rest);
        { assert Chain(digests) + rest == Chain(before) + (last + "-" + rest); }
        Split('-', Chain(before) + (last + "-" + rest));
        { SplitOfChain(before, last + "-" + rest); }
        Parts(before) + Split('-', last + "-" + rest);
        { SplitAtSeparator('-', last, rest); }
        Parts(before) + (Split('-', last) + Split('-', rest));
        Parts(digests) + Split('-', rest);
      }
    }
  }

  /** Two chains are the same text exactly when cutting every digest at its dashes gives the same parts. */
  lemma ChainsEqualIffPartsEqual(a: seq<string>, b: seq<string>)
    ensures Chain(a) == Chain(b) <==> Parts(a) == Parts(b)
  {
    SplitOfChain(a, "");
    SplitOfChain(b, "");
    assert Chain(a) + "" == Chain(a) && Chain(b) + "" == Chain(b);
    JoinSplit('-', Chain(a));
    JoinSplit('-', Chain(b));
    var sa, sb := Split('-', Chain(a)), Split('-', Chain(b));
    assert sa[..|sa| - 1] == Parts(a) && sb[..|sb| - 1] == Parts(b);
  }

  ghost predicate Collision(sha: Hash, x: string, y: string) {
    x != y && sha(x) == sha(y)
  }

  lemma LayerNameEquality(sha: Hash, a: seq<string>, b: seq<string>)
    ensures LayerName(sha, a) == LayerName(sha, b)
       <==> Parts(a) == Parts(b) || Collision(sha, Chain(a), Chain(b))
  {
    ChainsEqualIffPartsEqual(a, b);
    if LayerName(sha, a) == LayerName(sha, b) {
      HexInjective(sha(Chain(a)), sha(Chain(b)));
    }
  }

  ghost predicate DashFree(digests: seq<string>) {
    forall d :: d in digests ==> '-' !in d
  }

  lemma {:induction false} PartsOfDashFree(digests: seq<string>)
    requires DashFree(digests)
    ensures Parts(digests) == digests
  {
    if digests != [] {
      var n := |digests| - 1;
      PartsOfDashFree(digests[..n]);
      SplitWithoutSeparator('-', digests[n]);
      assert digests == digests[..n] + [digests[n]];
    }
  }

  /** Two layers carry one name exactly when the digests up to them, cut at dashes, agree, or SHA-256 collides. */
  lemma NamesIdentifyParts(sha: Hash, reqA: ScanRequest, refsA: seq<Descriptor>, i: nat, reqB: ScanRequest, refsB: seq<Descriptor>, j: nat)
    requires i < |Digests(refsA)| && j < |Digests(refsB)|
    ensures var a, b := Digests(refsA)[..i + 1], Digests(refsB)[..j + 1];
            LayersOf(sha, reqA, refsA)[i].name == LayersOf(sha, reqB, refsB)[j].name
            <==> Parts(a) == Parts(b) || Collision(sha, Chain(a), Chain(b))
  {
    LayerAt(sha, reqA, Digests(refsA), i);
    LayerAt(sha, reqB, Digests(refsB), j);
    LayerNameEquality(sha, Digests(refsA)[..i + 1], Digests(refsB)[..j + 1]);
  }

  /** For digests without dashes, as all sha256 digests are, a name identifies its position and its prefix of digests. */
  lemma NamesIdentifyPrefixes(sha: Hash, reqA: ScanRequest, refsA: seq<Descriptor>, i: nat, reqB: ScanRequest, refsB: seq<Descriptor>, j: nat)
    requires i < |Digests(refsA)| && j < |Digests(refsB)|
    requires DashFree(Digests(refsA)) && DashFree(Digests(refsB))
    ensures var a, b := Digests(refsA)[..i + 1], Digests(refsB)[..j + 1];
            LayersOf(sha, reqA, refsA)[i].name == LayersOf(sha, reqB, refsB)[j].name
            <==> (i == j && a == b) || Collision(sha, Chain(a), Chain(b))
  {
    var a, b := Digests(refsA)[..i + 1], Digests(refsB)[..j + 1];
    NamesIdentifyParts(sha, reqA, refsA, i, reqB, refsB, j);
    PartsOfDashFree(a);
    PartsOfDashFree(b);
    assert a == b ==> |a| == |b|;
  }

  /** A digest with a dash, which the OCI digest grammar allows, passes for two layers whatever the hash. */
  lemma DashedDigestsShareAName(sha: Hash, one: string, two: string)
    ensures LayerName(sha, [one, two]) == LayerName(sha, [one + "-" + two])
  {
    var both, dashed := [one, two], [one + "-" + two];
    assert both[..1] == [one] && both[..1][..0] == [] && dashed[..0] == [];
    assert Chain(both[..1]) == one + "-";
    assert Chain(both) == one + "-" + two + "-";
    assert Chain(dashed) == one + "-" + two + "-";
  }

  // ----- Report

  function LowerChar(c: char): char {
    if 'A' <= c <= 'Z' then (c as int + 32) as char else c
  }

  function ToLower(s: string): string {
    seq(|s|, i requires 0 <= i < |s| => LowerChar(s[i]))
  }

  function ToHarborSeverity(clairSeverity: string): (s: Severity)
    ensures SEV_UNKNOWN <= s <= SEV_CRITICAL
  {
    var sev := ToLower(clairSeverity);
    if sev == "negligible" then SEV_NEGLIGIBLE
    else if sev == "low" then SEV_LOW
    else if sev == "medium" then SEV_MEDIUM
    else if sev == "high" then SEV_HIGH
    else if sev == "critical" then SEV_CRITICAL
    else SEV_UNKNOWN
  }

  function ToLinks(link: string): seq<string> {
    if link == "" then [] else [link]
  }

  function ItemOf(f: Feature, v: Vulnerability): VulnerabilityItem {
    VulnerabilityItem(
      v.name, f.name, f.version, v.fixedBy, ToHarborSeverity(v.severity), v.description, ToLinks(v.link))
  }

  function FeatureItems(f: Feature): seq<VulnerabilityItem> {
    seq(|f.vulnerabilities|, i requires 0 <= i < |f.vulnerabilities| => ItemOf(f, f.vulnerabilities[i]))
  }

  function ItemsOf(features: seq<Feature>): seq<VulnerabilityItem> {
    if features == [] then []
    else ItemsOf(features[..|features| - 1]) + FeatureItems(features[|features| - 1])
  }

  /** The largest severity of the items, None when there are none. */
  function Worst(items: seq<VulnerabilityItem>): (s: Severity)
    ensures SEV_NONE <= s
  {
    if items == [] then SEV_NONE
    else
      var n := |items| - 1;
      var before := Worst(items[..n]);
      if items[n].severity > before then items[n].severity else before
  }

  lemma {:induction false} WorstIsMaximum(items: seq<VulnerabilityItem>)
    ensures forall v :: v in items ==> v.severity <= Worst(items)
    ensures Worst(items) == SEV_NONE || exists v :: v in items && v.severity == Worst(items)
  {
    if items != [] {
      var n := |items| - 1;
      WorstIsMaximum(items[..n]);
      assert items == items[..n] + [items[n]];
      if Worst(items[..n]) != SEV_NONE {
        var v :| v in items[..n] && v.severity == Worst(items[..n]);
        assert v in items;
      }
    }
  }

  lemma {:induction false} WorstOfConcat(a: seq<VulnerabilityItem>, b: seq<VulnerabilityItem>)
    ensures Worst(a + b) == if Worst(b) > Worst(a) then Worst(b) else Worst(a)
  {
    if b == [] {
      assert a + b == a;
    } else {
      var n := |b| - 1;
      WorstOfConcat(a, b[..n]);
      assert (a + b)[..|a + b| - 1] == a + b[..n];
    }
  }

  lemma WorstOfOneMore(features: seq<Feature>, n: nat)
    requires n < |features|
    ensures Worst(ItemsOf(features[..n + 1])) ==
      var before, sev := Worst(ItemsOf(features[..n])), Worst(FeatureItems(features[n]));
      if sev > before then sev else before
  {
    hide Worst, FeatureItems;
    assert features[..n + 1][..n] == features[..n];
    WorstOfConcat(ItemsOf(features[..n]), FeatureItems(features[n]));
  }

  /**
   The overall severity, in two stages: the worst of each feature is counted in a map,
   then the largest key is picked in whatever order the map is walked.
   */
  method ToComponentsOverview(layer: Layer) returns (overall: Severity)
    ensures overall == Worst(ItemsOf(layer.features))
  {
    assert Worst(ItemsOf([])) == SEV_NONE;
    hide Worst, ItemsOf, FeatureItems;
    var vulnMap: map<Severity, int> := map[];
    ghost var worst := SEV_NONE;
    for n := 0 to |layer.features|
      invariant worst == Worst(ItemsOf(layer.features[..n]))
      invariant forall k :: k in vulnMap ==> k <= worst
      invariant worst == SEV_NONE || worst in vulnMap
    {
      var sev := FeatureSeverity(layer.features[n]);
      WorstOfOneMore(layer.features, n);
      worst := if sev > worst then sev else worst;
      vulnMap := vulnMap[sev := if sev in vulnMap then vulnMap[sev] + 1 else 1];
    }
    assert layer.features[..|layer.features|] == layer.features;
    overall := LargestKey(vulnMap.Keys, worst);
  }

  /** The first stage, one feature. */
  method FeatureSeverity(f: Feature) returns (sev: Severity)
    ensures sev == Worst(FeatureItems(f))
  {
    sev := SEV_NONE;
    for m := 0 to |f.vulnerabilities|
      invariant sev == Worst(FeatureItems(f)[..m])
    {
      var temp := ToHarborSeverity(f.vulnerabilities[m].severity);
      assert FeatureItems(f)[..m + 1][..m] == FeatureItems(f)[..m];
      if temp > sev {
        sev := temp;
      }
    }
    assert FeatureItems(f)[..|f.vulnerabilities|] == FeatureItems(f);
  }

  /** The second stage: the keys come in any order. */
  method LargestKey(keys: set<Severity>, ghost worst: Severity) returns (overall: Severity)
    requires SEV_NONE <= worst && forall k :: k in keys ==> k <= worst
    requires worst == SEV_NONE || worst in keys
    ensures overall == worst
  {
    overall := SEV_NONE;
    var left := keys;
    while left != {}
      invariant left <= keys
      invariant SEV_NONE <= overall <= worst
      invariant worst == overall || worst in left
      decreases left
    {
      ghost var some := Inhabited(left);
      var k :| k in left;
      left := left - {k};
      if k > overall {
        overall := k;
      }
    }
  }

  method ToVulnerabilityItems(layer: Layer) returns (items: seq<VulnerabilityItem>)
    ensures items == ItemsOf(layer.features)
  {
    items := [];
    for n := 0 to |layer.features|
      invariant items == ItemsOf(layer.features[..n])
    {
      var f := layer.features[n];
      for m := 0 to |f.vulnerabilities|
        invariant items == ItemsOf(layer.features[..n]) + FeatureItems(f)[..m]
      {
        items := items + [ItemOf(f, f.vulnerabilities[m])];
        assert FeatureItems(f)[..m + 1] == FeatureItems(f)[..m] + [FeatureItems(f)[m]];
      }
      assert FeatureItems(f)[..|f.vulnerabilities|] == FeatureItems(f);
      assert layer.features[..n + 1][..n] == layer.features[..n];
    }
    assert layer.features[..|layer.features|] == layer.features;
  }

  const SCANNER := Scanner("Clair", "CoreOS", "2.x")

  function ReportOf(generatedAt: int, artifact: Artifact, layer: Layer): ScanReport {
    var items := ItemsOf(layer.features);
    ScanReport(generatedAt, artifact, SCANNER, Worst(items), items)
  }

  method ToHarborScanReport(generatedAt: int, artifact: Artifact, layer: Layer) returns (report: ScanReport)
    ensures report == ReportOf(generatedAt, artifact, layer)
  {
    var severity := ToComponentsOverview(layer);
    var items := ToVulnerabilityItems(layer);
    report := ScanReport(generatedAt, artifact, SCANNER, severity, items);
  }

  lemma {:induction false} ItemsAreNamed(features: seq<Feature>)
    ensures forall v :: v in ItemsOf(features) ==> SEV_UNKNOWN <= v.severity <= SEV_CRITICAL
  {
    if features != [] {
      ItemsAreNamed(features[..|features| - 1]);
    }
  }

  /** The overall severity is None exactly when the report lists nothing, and every severity in it has a name. */
  lemma OverallAgreesWithItems(generatedAt: int, artifact: Artifact, layer: Layer)
    ensures var r := ReportOf(generatedAt, artifact, layer);
            && AllNamed(r)
            && (r.severity == SEV_NONE <==> r.vulnerabilities == [])
            && (r.vulnerabilities != [] ==> exists v :: v in r.vulnerabilities && v.severity == r.severity)
            && (forall v :: v in r.vulnerabilities ==> v.severity <= r.severity)
  {
    var r := ReportOf(generatedAt, artifact, layer);
    ItemsAreNamed(layer.features);
    WorstIsMaximum(r.vulnerabilities);
    if r.vulnerabilities != [] {
      assert r.vulnerabilities[0] in r.vulnerabilities;
    }
  }

  lemma {:induction false} ItemsMembership(features: seq<Feature>, v: VulnerabilityItem)
    ensures v in ItemsOf(features) <==> exists f :: f in features && v in FeatureItems(f)
  {
    if features != [] {
      var n := |features| - 1;
      ItemsMembership(features[..n], v);
      assert features == features[..n] + [features[n]];
    }
  }

  /** The order in which Clair lists the features does not change the overall severity. */
  lemma OverallIgnoresFeatureOrder(a: seq<Feature>, b: seq<Feature>)
    requires multiset(a) == multiset(b)
    ensures Worst(ItemsOf(a)) == Worst(ItemsOf(b))
  {
    var x, y := ItemsOf(a), ItemsOf(b);
    forall v ensures v in x <==> v in y {
      ItemsMembership(a, v);
      ItemsMembership(b, v);
      assert forall f :: f in a <==> f in multiset(a);
      assert forall f :: f in b <==> f in multiset(b);
    }
    WorstIsMaximum(x);
    WorstIsMaximum(y);
  }

  // ----- The report, in terms of the layer alone

  predicate OtherCase(c: char, d: char) {
    ('A' <= c <= 'Z' && d as int == c as int + 32) || ('A' <= d <= 'Z' && c as int == d as int + 32)
  }

  /** Equal but for the case of ASCII letters. */
  predicate EqualFold(a: string, b: string) {
    |a| == |b| && forall i :: 0 <= i < |a| ==> a[i] == b[i] || OtherCase(a[i], b[i])
  }

  /** The severity a Clair name stands for: one of the five ratings in any case, unknown for all else. */
  predicate Rated(name: string, s: Severity) {
    || (s == SEV_CRITICAL && EqualFold(name, "critical"))
    || (s == SEV_HIGH && EqualFold(name, "high"))
    || (s == SEV_MEDIUM && EqualFold(name, "medium"))
    || (s == SEV_LOW && EqualFold(name, "low"))
    || (s == SEV_NEGLIGIBLE && EqualFold(name, "negligible"))
    || (s == SEV_UNKNOWN && !EqualFold(name, "critical") && !EqualFold(name, "high") && !EqualFold(name, "medium")
          && !EqualFold(name, "low") && !EqualFold(name, "negligible"))
  }

  lemma FoldsTo(name: string, word: string)
    requires forall i :: 0 <= i < |word| ==> 'a' <= word[i] <= 'z'
    ensures ToLower(name) == word <==> EqualFold(name, word)
  {
    if |name| == |word| {
      forall i | 0 <= i < |name|
        ensures ToLower(name)[i] == word[i] <==> name[i] == word[i] || OtherCase(name[i], word[i])
      {
      }
    }
  }

  lemma SeverityIsRated(name: string, s: Severity)
    ensures Rated(name, s) <==> s == ToHarborSeverity(name)
  {
    hide ToLower, EqualFold;
    FoldsTo(name, "critical");
    FoldsTo(name, "high");
    FoldsTo(name, "medium");
    FoldsTo(name, "low");
    FoldsTo(name, "negligible");
    assert |"critical"| == 8 && |"high"| == 4 && |"medium"| == 6 && |"low"| == 3 && |"negligible"| == 10;
  }

  /** The vulnerabilities of the first n features, counted. */
  function Offset(features: seq<Feature>, n: nat): nat
    requires n <= |features|
  {
    if n == 0 then 0 else Offset(features, n - 1) + |features[n - 1].vulnerabilities|
  }

  /** What an item has to say of a vulnerability of a feature. */
  predicate Tells(item: VulnerabilityItem, f: Feature, v: Vulnerability) {
    && item.id == v.name && item.pkg == f.name && item.version == f.version
    && item.fixVersion == v.fixedBy && item.description == v.description
    && item.links == (if v.link == "" then [] else [v.link])
    && Rated(v.severity, item.severity)
  }

  lemma {:induction false} OffsetOfPrefix(features: seq<Feature>, m: nat, n: nat)
    requires n <= m <= |features|
    ensures Offset(features[..m], n) == Offset(features, n)
  {
    if n > 0 {
      OffsetOfPrefix(features, m, n - 1);
    }
  }

  lemma {:induction false} ItemCount(features: seq<Feature>)
    ensures |ItemsOf(features)| == Offset(features, |features|)
  {
    hide ItemOf;
    if features != [] {
      ItemCount(features[..|features| - 1]);
      OffsetOfPrefix(features, |features| - 1, |features| - 1);
    }
  }

  lemma {:induction false} ItemAt(features: seq<Feature>, i: nat, j: nat)
    requires i < |features| && j < |features[i].vulnerabilities|
    ensures Offset(features, i) + j < |ItemsOf(features)|
    ensures ItemsOf(features)[Offset(features, i) + j] == ItemOf(features[i], features[i].vulnerabilities[j])
  {
    hide ItemOf;
    var n := |features| - 1;
    ItemCount(features[..n]);
    OffsetOfPrefix(features, n, n);
    if i < n {
      ItemAt(features[..n], i, j);
      OffsetOfPrefix(features, n, i);
    }
  }

  /** In order, one item for each vulnerability of each feature, telling of it what Clair told. */
  ghost predicate ListsAll(items: seq<VulnerabilityItem>, features: seq<Feature>) {
    && |items| == Offset(features, |features|)
    && forall i, j :: 0 <= i < |features| && 0 <= j < |features[i].vulnerabilities| ==> TellsAt(items, features, i, j)
  }

  ghost predicate TellsAt(items: seq<VulnerabilityItem>, features: seq<Feature>, i: nat, j: nat)
    requires i < |features| && j < |features[i].vulnerabilities|
  {
    && Offset(features, i) + j < |items|
    && Tells(items[Offset(features, i) + j], features[i], features[i].vulnerabilities[j])
  }

  /** The report lists every vulnerability of the layer, and names the artifact and the time it was given. */
  lemma ReportListsEveryVulnerability(generatedAt: int, artifact: Artifact, layer: Layer)
    ensures var r := ReportOf(generatedAt, artifact, layer);
            r.generatedAt == generatedAt && r.artifact == artifact && ListsAll(r.vulnerabilities, layer.features)
  {
    hide Rated, ItemsOf, Worst, Offset, ToHarborSeverity;
    var features, items := layer.features, ItemsOf(layer.features);
    ItemCount(features);
    forall i, j | 0 <= i < |features| && 0 <= j < |features[i].vulnerabilities|
      ensures TellsAt(items, features, i, j)
    {
      var v := features[i].vulnerabilities[j];
      ItemAt(features, i, j);
      SeverityIsRated(v.severity, ToHarborSeverity(v.severity));
    }
    assert ListsAll(items, features);
  }

  lemma {:induction false} ItemsComeFromFeatures(features: seq<Feature>, k: nat) returns (i: nat, j: nat)
    requires k < |ItemsOf(features)|
    ensures i < |features| && j < |features[i].vulnerabilities|
    ensures ItemsOf(features)[k] == ItemOf(features[i], features[i].vulnerabilities[j])
  {
    hide ItemOf;
    var n := |features| - 1;
    var before := ItemsOf(features[..n]);
    if k < |before| {
      i, j := ItemsComeFromFeatures(features[..n], k);
    } else {
      i, j := n, k - |before|;
    }
  }

  /** A vulnerability of the layer rated s. */
  ghost predicate HasRated(features: seq<Feature>, s: Severity) {
    exists i, j :: 0 <= i < |features| && 0 <= j < |features[i].vulnerabilities| && Rated(features[i].vulnerabilities[j].severity, s)
  }

  ghost predicate NoVulnerability(features: seq<Feature>) {
    forall i :: 0 <= i < |features| ==> features[i].vulnerabilities == []
  }

  /** No vulnerability of the layer is rated worse than the report; one is rated just so, unless there is none at all. */
  lemma OverallIsTheWorstVulnerability(generatedAt: int, artifact: Artifact, layer: Layer)
    ensures var overall := ReportOf(generatedAt, artifact, layer).severity;
            && (forall s :: HasRated(layer.features, s) ==> s <= overall)
            && (if NoVulnerability(layer.features) then overall == SEV_NONE else HasRated(layer.features, overall))
  {
    hide Rated, ItemsOf, Worst, ToHarborSeverity;
    var features, items := layer.features, ItemsOf(layer.features);
    OverallAgreesWithItems(generatedAt, artifact, layer);
    forall s | HasRated(features, s)
      ensures s <= Worst(items)
    {
      var i, j :| 0 <= i < |features| && 0 <= j < |features[i].vulnerabilities| && Rated(features[i].vulnerabilities[j].severity, s);
      ItemAt(features, i, j);
      SeverityIsRated(features[i].vulnerabilities[j].severity, s);
      assert items[Offset(features, i) + j] in items;
    }
    if items == [] {
      forall i | 0 <= i < |features| ensures features[i].vulnerabilities == [] {
        if features[i].vulnerabilities != [] {
          ItemAt(features, i, 0);
        }
      }
    } else {
      var k :| 0 <= k < |items| && items[k].severity == Worst(items);
      var i, j := ItemsComeFromFeatures(features, k);
      SeverityIsRated(features[i].vulnerabilities[j].severity, Worst(items));
    }
  }
}
