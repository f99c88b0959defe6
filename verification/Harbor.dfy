/**
 The records the adapter exchanges with Harbor, the scan job it stores, and the
 JSON form in which a job is kept in Redis (pkg/harbor/model.go, pkg/job/job.go).
 */
module Harbor {
  import opened Wrappers

  /** A Go int: only the values 1..7 have a name, 0 is the zero value of a report that was never filled in. */
  type Severity = int

  const SEV_NONE: Severity := 1
  const SEV_UNKNOWN: Severity := 2
  const SEV_NEGLIGIBLE: Severity := 3
  const SEV_LOW: Severity := 4
  const SEV_MEDIUM: Severity := 5
  const SEV_HIGH: Severity := 6
  const SEV_CRITICAL: Severity := 7

  /** The severityToString table; a missing key reads as the empty string. */
  function SeverityName(s: Severity): string {
    if s == SEV_NONE then "None"
    else if s == SEV_UNKNOWN then "Unknown"
    else if s == SEV_NEGLIGIBLE then "Negligible"
    else if s == SEV_LOW then "Low"
    else if s == SEV_MEDIUM then "Medium"
    else if s == SEV_HIGH then "High"
    else if s == SEV_CRITICAL then "Critical"
    else ""
  }

  /** The stringToSeverity table; a missing key reads as zero. */
  function SeverityOfName(name: string): Severity {
    if name == "Unknown" then SEV_UNKNOWN
    else if name == "None" then SEV_NONE
    else if name == "Negligible" then SEV_NEGLIGIBLE
    else if name == "Low" then SEV_LOW
    else if name == "Medium" then SEV_MEDIUM
    else if name == "High" then SEV_HIGH
    else if name == "Critical" then SEV_CRITICAL
    else 0
  }

  /** The two tables undo each other on exactly the eight values the program can hold. */
  lemma SeverityRoundTrip(s: Severity)
    ensures SeverityOfName(SeverityName(s)) == s <==> 0 <= s <= SEV_CRITICAL
  {
    // The first letters tell the seven names apart, "None" and "Negligible" by their second.
    assert SeverityName(s) == "" || SeverityName(s)[0] in {'N', 'U', 'L', 'M', 'H', 'C'};
    assert "None"[1] != "Negligible"[1];
  }

  /** The names themselves, and the order of the severities they stand for. */
  lemma SeverityNamesAre()
    ensures SeverityName(1) == "None" && SeverityName(2) == "Unknown" && SeverityName(3) == "Negligible"
    ensures SeverityName(4) == "Low" && SeverityName(5) == "Medium" && SeverityName(6) == "High" && SeverityName(7) == "Critical"
    ensures forall s :: SeverityName(s) == "" <==> !(1 <= s <= 7)
    ensures forall name :: SeverityOfName(name) == 0 || SeverityName(SeverityOfName(name)) == name
  {
  }

  datatype Registry = Registry(url: string, authorization: string)

  datatype Artifact = Artifact(repository: string, digest: string, mimeType: string)

  datatype ScanRequest = ScanRequest(registry: Registry, artifact: Artifact)

  datatype Scanner = Scanner(name: string, vendor: string, version: string)

  datatype VulnerabilityItem = VulnerabilityItem(
    id: string, pkg: string, version: string, fixVersion: string,
    severity: Severity, description: string, links: seq<string>)

  datatype ScanReport = ScanReport(
    generatedAt: int, artifact: Artifact, scanner: Scanner,
    severity: Severity, vulnerabilities: seq<VulnerabilityItem>)

  /** The zero value of a report, which every job carries until its scan has answered. */
  const EMPTY_REPORT :=
    ScanReport(0, Artifact("", "", ""), Scanner("", "", ""), 0, [])

  /** A Go int as well; Other is any value outside the four declared constants. */
  datatype Status = Pending | Running | Finished | Failed | Other(code: int)

  datatype ScanJob = ScanJob(id: string, status: Status, error: string, report: ScanReport)

  // ----- JSON form: severities become names, fields marked omitempty vanish when empty

  datatype ArtifactJson = ArtifactJson(repository: string, digest: string, mimeType: Option<string>)

  datatype ItemJson = ItemJson(
    id: string, pkg: string, version: string, fixVersion: Option<string>,
    severity: string, description: string, links: seq<string>)

  datatype ReportJson = ReportJson(
    generatedAt: int, artifact: ArtifactJson, scanner: Scanner,
    severity: string, vulnerabilities: seq<ItemJson>)

  datatype JobJson = JobJson(id: string, status: Status, error: string, report: ReportJson)

  function OmitEmpty(s: string): Option<string> {
    if s == "" then None else Some(s)
  }

  function OrEmpty(s: Option<string>): string {
    match s
    case None => ""
    case Some(v) => v
  }

  function EncodeItem(i: VulnerabilityItem): ItemJson {
    ItemJson(i.id, i.pkg, i.version, OmitEmpty(i.fixVersion), SeverityName(i.severity), i.description, i.links)
  }

  function DecodeItem(j: ItemJson): VulnerabilityItem {
    VulnerabilityItem(j.id, j.pkg, j.version, OrEmpty(j.fixVersion), SeverityOfName(j.severity), j.description, j.links)
  }

  function EncodeReport(r: ScanReport): ReportJson {
    ReportJson(
      r.generatedAt,
      ArtifactJson(r.artifact.repository, r.artifact.digest, OmitEmpty(r.artifact.mimeType)),
      r.scanner, SeverityName(r.severity),
      seq(|r.vulnerabilities|, i requires 0 <= i < |r.vulnerabilities| => EncodeItem(r.vulnerabilities[i])))
  }

  function DecodeReport(j: ReportJson): ScanReport {
    ScanReport(
      j.generatedAt,
      Artifact(j.artifact.repository, j.artifact.digest, OrEmpty(j.artifact.mimeType)),
      j.scanner, SeverityOfName(j.severity),
      seq(|j.vulnerabilities|, i requires 0 <= i < |j.vulnerabilities| => DecodeItem(j.vulnerabilities[i])))
  }

  function EncodeJob(job: ScanJob): JobJson {
    JobJson(job.id, job.status, job.error, EncodeReport(job.report))
  }

  function DecodeJob(j: JobJson): ScanJob {
    ScanJob(j.id, j.status, j.error, DecodeReport(j.report))
  }

  /** A severity that its name gives back: one of the seven named ones, or zero, which has the empty name. */
  ghost predicate Survives(s: Severity) {
    0 <= s <= SEV_CRITICAL
  }

  ghost predicate AllSurvive(r: ScanReport) {
    && Survives(r.severity)
    && forall i :: 0 <= i < |r.vulnerabilities| ==> Survives(r.vulnerabilities[i].severity)
  }

  /** Every severity of a report is one of the seven named ones. */
  ghost predicate AllNamed(r: ScanReport) {
    && SEV_NONE <= r.severity <= SEV_CRITICAL
    && forall i :: 0 <= i < |r.vulnerabilities| ==> SEV_NONE <= r.vulnerabilities[i].severity <= SEV_CRITICAL
  }

  /** Writing a job to the store and reading it back loses nothing exactly when every severity in it is one of 0 to 7. */
  lemma JobRoundTrip(job: ScanJob)
    ensures DecodeJob(EncodeJob(job)) == job <==> AllSurvive(job.report)
  {
    var r := job.report;
    var back := DecodeReport(EncodeReport(r));
    SeverityRoundTrip(r.severity);
    forall i | 0 <= i < |r.vulnerabilities|
      ensures back.vulnerabilities[i] == r.vulnerabilities[i] <==> Survives(r.vulnerabilities[i].severity)
    {
      SeverityRoundTrip(r.vulnerabilities[i].severity);
    }
    if AllSurvive(r) {
      assert back.vulnerabilities == r.vulnerabilities;
    } else if Survives(r.severity) {
      var i :| 0 <= i < |r.vulnerabilities| && !Survives(r.vulnerabilities[i].severity);
      assert back.vulnerabilities[i] != r.vulnerabilities[i];
    }
  }
}
