/**
 Runs that happen: the bounds over all runs are reached, and each way the system can go
 wrong has a run that goes there.
 */
module LifecycleWitnesses {
  import opened Harbor
  import opened Lifecycle
  import opened LifecycleInvariant
  import opened LifecycleProgress
  import opened LifecycleTheorems
  import opened Protocol
  import opened Redis
  import opened Transformer
  import opened Worker
  import opened Wrappers
  import Pool

  // ----- The two steps from 200 to 500, in every state

  /**
   A SET of Finished that is applied although it reports an error: the poller gets the
   report, and the worker goes on to mark the job failed.
   */
  lemma UnheardFinishShowsTheReport(cfg: Config, s: State, id: string, message: string) returns (e: Event)
    requires Inv(cfg, s) && id in s.jobs && Live(EntryOf(cfg, s, id), s.now)
    requires s.jobs[id].point.Writing? && s.jobs[id].point.update.MarkFinished?
    ensures e.Work? && e.id == id && e.fate == Unheard(message) && Enabled(cfg, s, e)
    ensures var s' := Apply(cfg, s, e);
            && id in s'.jobs && s'.jobs[id].unheard
            && s'.jobs[id].point == Reading(MarkFailed("updating scan job: " + message))
            && OwnReport(s.jobs[id]).Some?
            && PollResponse(cfg, s', id, Delivered) == Report(OwnReport(s.jobs[id]).value)
  {
    hide Inv, Apply, Enabled, At, ReportOf, Digests, LayersFor, PollResponse;
    var content := s.jobs[id].content;
    HeldRecord(cfg, s, id);
    InvMeansAt(cfg, s, id);
    e := WriteStep(cfg, s, id, MarkFinished, content, s.jobs[id].writes, Unheard(message));
    var after := Reading(MarkFailed("updating scan job: " + message));
    PollOf(cfg, Apply(cfg, s, e), id, after, MarkFinished.Of(content), s.jobs[id].writes + 1);
    AtShows(cfg, Apply(cfg, s, e), id, after, MarkFinished.Of(content), s.jobs[id].writes + 1);
  }

  /** While the record lives, what a worker is about to write is that record, changed. */
  lemma HeldRecord(cfg: Config, s: State, id: string)
    requires Inv(cfg, s) && id in s.jobs && s.jobs[id].point.Writing? && Live(EntryOf(cfg, s, id), s.now)
    ensures var j := s.jobs[id];
            && j.point.record == j.point.update.Of(j.content) && AllSurvive(j.content.report)
            && (j.point.update.MarkFinished? ==>
                  OwnReport(j).Some? && j.content == RunningJob(id).(report := OwnReport(j).value))
  {
    hide Pool.Conserved, CallBound, WriteBound, Carries, Plausible;
    assert JobInv(cfg, id, s.jobs[id], EntryOf(cfg, s, id), s.now, s.clair);
  }

  lemma AtShows(cfg: Config, s: State, id: string, p: Point, content: ScanJob, writes: nat)
    requires At(cfg, s, id, p, content, writes)
    ensures id in s.jobs && s.jobs[id].point == p && s.jobs[id].writes == writes && Live(EntryOf(cfg, s, id), s.now)
  {
  }

  /** Its failure update, when it gets through, replaces whatever the poller was told before. */
  lemma FailureIsShown(cfg: Config, s: State, id: string) returns (read: Event, write: Event)
    requires Inv(cfg, s) && id in s.jobs && Live(EntryOf(cfg, s, id), s.now)
    requires s.jobs[id].point.Reading? && s.jobs[id].point.update.MarkFailed?
    ensures read.Work? && write.Work? && read.id == write.id == id && read.fate == write.fate == Delivered
    ensures Enabled(cfg, s, read) && Enabled(cfg, Apply(cfg, s, read), write)
    ensures var s' := Apply(cfg, Apply(cfg, s, read), write);
            && id in s'.jobs && s'.jobs[id].point == Ended
            && PollResponse(cfg, s', id, Delivered) == InternalError(s.jobs[id].point.update.message)
  {
    hide JobInv, Inv, EncodeJob, DecodeJob, ReportOf;
    var content, update := s.jobs[id].content, s.jobs[id].point.update;
    InvMeansAt(cfg, s, id);
    read := ReadStep(cfg, s, id, update, content, s.jobs[id].writes);
    var mid := Apply(cfg, s, read);
    write := WriteStep(cfg, mid, id, update, content, s.jobs[id].writes, Delivered);
    PollOf(cfg, Apply(cfg, mid, write), id, Ended, update.Of(content), s.jobs[id].writes + 1);
  }

  // ----- Building runs

  datatype Run = Run(states: seq<State>, events: seq<Event>)
  {
    ghost predicate Holds(cfg: Config) {
      |states| == |events| + 1 && IsRun(cfg, states, events)
    }

    function Last(): State
      requires states != []
    {
      states[|states| - 1]
    }

    ghost predicate Continues(earlier: Run) {
      earlier.states <= states && earlier.events <= events
    }
  }

  lemma Then(cfg: Config, run: Run, e: Event) returns (longer: Run)
    requires run.Holds(cfg) && Enabled(cfg, run.Last(), e)
    ensures longer.Holds(cfg) && longer.Continues(run)
    ensures longer == Run(run.states + [Apply(cfg, run.Last(), e)], run.events + [e])
  {
    hide Enabled, Apply, Init;
    longer := Run(run.states + [Apply(cfg, run.Last(), e)], run.events + [e]);
    assert forall i :: 0 <= i < |run.states| ==> longer.states[i] == run.states[i];
  }

  /** Where a worker is, with a live record of known content. */
  ghost predicate At(cfg: Config, s: State, id: string, p: Point, content: ScanJob, writes: nat) {
    && id in s.jobs && s.jobs[id].point == p && s.jobs[id].content == content && s.jobs[id].writes == writes
    && (p.Active() ==> id in s.pool.running)
    && content.id == id && AllSurvive(content.report)
    && Live(EntryOf(cfg, s, id), s.now) && EntryOf(cfg, s, id).value.document == Json(EncodeJob(content))
    && ExpirySeconds(cfg.ttlNanos) > 0
  }

  lemma InvMeansAt(cfg: Config, s: State, id: string)
    requires Inv(cfg, s) && id in s.jobs && Live(EntryOf(cfg, s, id), s.now)
    ensures At(cfg, s, id, s.jobs[id].point, s.jobs[id].content, s.jobs[id].writes)
  {
    hide Pool.Conserved, CallBound, WriteBound, Faithful;
    assert JobInv(cfg, id, s.jobs[id], EntryOf(cfg, s, id), s.now, s.clair);
    assert PlaceFits(s, id);
  }

  lemma ReadStep(cfg: Config, s: State, id: string, u: Update, content: ScanJob, writes: nat) returns (e: Event)
    requires At(cfg, s, id, Reading(u), content, writes)
    ensures e.Work? && e.id == id && e.fate == Delivered && Enabled(cfg, s, e)
    ensures At(cfg, Apply(cfg, s, e), id, Writing(u, u.Of(content)), content, writes)
    ensures SameBut(cfg, s, Apply(cfg, s, e), id)
  {
    hide EncodeJob, DecodeJob, AllSurvive;
    e := Work(id, Stored(Value(Json(EncodeJob(content)))), Delivered);
    JobRoundTrip(content);
    assert CanWork(cfg, id, s.now, ViewOf(cfg, s, id), e.answer, e.fate);
    var v := AfterCall(cfg, id, s.now, ViewOf(cfg, s, id), e.answer, e.fate);
    assert v.job.point == Writing(u, u.Of(content));
  }

  /** What a worker's own step leaves alone. */
  ghost predicate SameBut(cfg: Config, s: State, s': State, id: string) {
    && s'.now == s.now && id in s.jobs && id in s'.jobs
    && s'.jobs[id].request == s.jobs[id].request && s'.jobs[id].unheard == s.jobs[id].unheard
    && EntryOf(cfg, s', id) == EntryOf(cfg, s, id)
  }

  lemma WriteStep(cfg: Config, s: State, id: string, u: Update, content: ScanJob, writes: nat, fate: Fate) returns (e: Event)
    requires At(cfg, s, id, Writing(u, u.Of(content)), content, writes) && !fate.Refused?
    requires AllSurvive(u.Of(content).report)
    ensures e.Work? && e.id == id && e.fate == fate && Enabled(cfg, s, e)
    ensures var result := if fate.Delivered? then Ok(()) else Err("updating scan job: " + fate.message);
            At(cfg, Apply(cfg, s, e), id, AfterWrite(u, result), u.Of(content), writes + 1)
    ensures var s' := Apply(cfg, s, e);
            && s'.now == s.now && s'.jobs[id].request == s.jobs[id].request
            && EntryOf(cfg, s', id).value.expiresAt == s.now + TtlMillis(cfg.ttlNanos)
            && (s'.jobs[id].unheard <==> s.jobs[id].unheard || (u.MarkFinished? && fate.Unheard?))
  {
    hide EncodeJob, DecodeJob, AllSurvive;
    e := Work(id, Stored(if fate.Delivered? then Okay else Error(fate.message)), fate);
    assert CanWork(cfg, id, s.now, ViewOf(cfg, s, id), e.answer, e.fate);
    var v := AfterCall(cfg, id, s.now, ViewOf(cfg, s, id), e.answer, e.fate);
    assert v.job.content == u.Of(content) && v.job.writes == writes + 1;
  }

  lemma PollOf(cfg: Config, s: State, id: string, p: Point, content: ScanJob, writes: nat)
    requires At(cfg, s, id, p, content, writes)
    ensures PollResponse(cfg, s, id, Delivered) == ReportResponse(Ok(Some(content)))
  {
    hide EncodeJob, DecodeJob, AllSurvive;
    JobRoundTrip(content);
  }

  /** A scan call answered: the record stays. */
  lemma ScanStep(cfg: Config, s: State, id: string, p: Point, content: ScanJob, writes: nat, answer: Answer)
    requires At(cfg, s, id, p, content, writes) && (p.Fetching? || p.Posting? || p.Asking?) && p.Active()
    requires Fits(CallAt(cfg, id, s.jobs[id].request, p), answer)
    requires Resume(cfg, id, s.jobs[id].request, p, answer).Active()
    ensures var e := Work(id, answer, Delivered);
            && Enabled(cfg, s, e)
            && At(cfg, Apply(cfg, s, e), id, Resume(cfg, id, s.jobs[id].request, p, answer), content, writes)
            && SameBut(cfg, s, Apply(cfg, s, e), id)
  {
    hide EncodeJob, DecodeJob, AllSurvive, LayersOf, ReportOf;
    assert CanWork(cfg, id, s.now, ViewOf(cfg, s, id), answer, Delivered);
  }

  /** An update made as late as it can be: one expiry period passes, then the record is read and written. */
  lemma LateUpdate(cfg: Config, run: Run, id: string, u: Update, content: ScanJob, writes: nat, fate: Fate) returns (longer: Run)
    requires run.Holds(cfg) && At(cfg, run.Last(), id, Reading(u), content, writes) && !fate.Refused?
    requires AllSurvive(u.Of(content).report)
    requires EntryOf(cfg, run.Last(), id).value.expiresAt == run.Last().now + TtlMillis(cfg.ttlNanos)
    ensures longer.Holds(cfg) && longer.Continues(run)
    ensures var result := if fate.Delivered? then Ok(()) else Err("updating scan job: " + fate.message);
            At(cfg, longer.Last(), id, AfterWrite(u, result), u.Of(content), writes + 1)
    ensures var s, s' := run.Last(), longer.Last();
            && s'.now == s.now + TtlMillis(cfg.ttlNanos)
            && s'.jobs[id].request == s.jobs[id].request
            && EntryOf(cfg, s', id).value.expiresAt == s'.now + TtlMillis(cfg.ttlNanos)
            && (s'.jobs[id].unheard <==> s.jobs[id].unheard || (u.MarkFinished? && fate.Unheard?))
  {
    hide Apply, Enabled, At, AllSurvive, TtlMillis;
    TickStep(cfg, run.Last(), id, Reading(u), content, writes, TtlMillis(cfg.ttlNanos));
    longer := Then(cfg, run, Tick(TtlMillis(cfg.ttlNanos)));
    var read := ReadStep(cfg, longer.Last(), id, u, content, writes);
    longer := Then(cfg, longer, read);
    var write := WriteStep(cfg, longer.Last(), id, u, content, writes, fate);
    longer := Then(cfg, longer, write);
  }

  lemma TickStep(cfg: Config, s: State, id: string, p: Point, content: ScanJob, writes: nat, elapsed: nat)
    requires At(cfg, s, id, p, content, writes) && s.now + elapsed <= EntryOf(cfg, s, id).value.expiresAt
    ensures Enabled(cfg, s, Tick(elapsed)) && At(cfg, Apply(cfg, s, Tick(elapsed)), id, p, content, writes)
    ensures var s' := Apply(cfg, s, Tick(elapsed));
            s'.now == s.now + elapsed && s'.jobs == s.jobs && EntryOf(cfg, s', id) == EntryOf(cfg, s, id)
  {
  }

  /** A job created, its caller waiting to hand it over. */
  ghost predicate Waiting(cfg: Config, s: State, id: string, request: ScanRequest) {
    && id in s.jobs && s.jobs[id] == NewJob(id, request, 0).(caller := Submitting, writes := 1)
    && id in s.pool.offered && s.pool.dispatching && s.pool.held == None
    && s.now == 0 && EntryOf(cfg, s, id) == Some(Entry(Json(EncodeJob(PendingJob(id))), TtlMillis(cfg.ttlNanos)))
    && ExpirySeconds(cfg.ttlNanos) > 0
  }

  lemma CreateStep(cfg: Config, id: string, request: ScanRequest, start: State)
    requires start == State(0, map[], {}, map[], Pool.NEW) && ExpirySeconds(cfg.ttlNanos) > 0
    ensures Enabled(cfg, start, Request(id, request))
    ensures var asked := Apply(cfg, start, Request(id, request));
            asked.now == 0 && Enabled(cfg, asked, Create(id, Delivered)) && Waiting(cfg, Apply(cfg, asked, Create(id, Delivered)), id, request)
  {
    hide EncodeJob, TtlMillis;
  }

  lemma ReceiveStep(cfg: Config, s: State, id: string, request: ScanRequest)
    requires Waiting(cfg, s, id, request)
    ensures Enabled(cfg, s, Receive(id)) && Enabled(cfg, Apply(cfg, s, Receive(id)), Spawn)
    ensures var s' := Apply(cfg, Apply(cfg, s, Receive(id)), Spawn);
            && At(cfg, s', id, Reading(MarkRunning), PendingJob(id), 1)
            && s'.now == 0 && s'.jobs[id].request == request && !s'.jobs[id].unheard
            && EntryOf(cfg, s', id).value.expiresAt == TtlMillis(cfg.ttlNanos)
  {
    hide EncodeJob, TtlMillis;
  }

  /** A job's first four steps: asked for, created, received, started. */
  lemma Started(cfg: Config, id: string, request: ScanRequest) returns (run: Run)
    requires ExpirySeconds(cfg.ttlNanos) > 0
    ensures run.Holds(cfg) && |run.events| == 4
    ensures run.events[1] == Create(id, Delivered) && run.states[1].now == 0
    ensures At(cfg, run.Last(), id, Reading(MarkRunning), PendingJob(id), 1)
    ensures var s := run.Last();
            && s.now == 0 && s.jobs[id].request == request && !s.jobs[id].unheard
            && EntryOf(cfg, s, id).value.expiresAt == TtlMillis(cfg.ttlNanos)
  {
    hide Apply, Enabled, At, Waiting, TtlMillis;
    var start := State(0, map[], {}, map[], Pool.NEW);
    CreateStep(cfg, id, request, start);
    run := Run([start], []);
    run := Then(cfg, run, Request(id, request));
    run := Then(cfg, run, Create(id, Delivered));
    ReceiveStep(cfg, run.Last(), id, request);
    run := Then(cfg, run, Receive(id));
    run := Then(cfg, run, Spawn);
  }

  // ----- The bounds are reached

  /** A scan with as long between writes as the expiry allows, up to its last update. */
  lemma Scanned(cfg: Config, id: string, request: ScanRequest, digest: string, layer: Layer, at: int) returns (run: Run)
    requires ExpirySeconds(cfg.ttlNanos) > 0
    ensures run.Holds(cfg) && |run.events| >= 4 && run.events[1] == Create(id, Delivered) && run.states[1].now == 0
    ensures var s := run.Last();
            && At(cfg, s, id, Reading(MarkFinished), RunningJob(id).(report := ReportOf(at, request.artifact, layer)), 3)
            && s.now == 2 * TtlMillis(cfg.ttlNanos) && !s.jobs[id].unheard
            && EntryOf(cfg, s, id).value.expiresAt == 3 * TtlMillis(cfg.ttlNanos)
  {
    hide Apply, Enabled, At, TtlMillis, ReportOf, AllSurvive, IsRun, EntryOf;
    var references := [Descriptor("", digest)];
    var layers := LayersOf(cfg.sha, request, references);
    OneLayer(cfg, request, digest);
    var report := ReportOf(at, request.artifact, layer);
    ReportSurvives(at, request.artifact, layer);
    run := Started(cfg, id, request);
    run := LateUpdate(cfg, run, id, MarkRunning, PendingJob(id), 1, Delivered);
    var content := RunningJob(id);
    run := ScanThen(cfg, run, id, Fetching, content, 2, Manifest(references));
    run := ScanThen(cfg, run, id, Posting(layers, 0), content, 2, Accepted);
    run := ScanThen(cfg, run, id, Asking(layers[0].name), content, 2, LayerIs(Some(layer), at));
    run := LateUpdate(cfg, run, id, AddReport(report), content, 2, Delivered);
  }

  lemma OneLayer(cfg: Config, request: ScanRequest, digest: string)
    ensures |LayersOf(cfg.sha, request, [Descriptor("", digest)])| == 1
  {
    var references := [Descriptor("", digest)];
    assert references[..0] == [] && Digests(references) == [digest];
  }

  lemma ReportSurvives(at: int, artifact: Artifact, layer: Layer)
    ensures AllSurvive(ReportOf(at, artifact, layer)) && AllSurvive(EMPTY_REPORT)
  {
    hide ReportOf;
    OverallAgreesWithItems(at, artifact, layer);
  }

  lemma ScanThen(cfg: Config, run: Run, id: string, p: Point, content: ScanJob, writes: nat, answer: Answer) returns (longer: Run)
    requires run.Holds(cfg) && At(cfg, run.Last(), id, p, content, writes) && (p.Fetching? || p.Posting? || p.Asking?) && p.Active()
    requires Fits(CallAt(cfg, id, run.Last().jobs[id].request, p), answer)
    requires Resume(cfg, id, run.Last().jobs[id].request, p, answer).Active()
    ensures longer.Holds(cfg) && longer.Continues(run)
    ensures At(cfg, longer.Last(), id, Resume(cfg, id, run.Last().jobs[id].request, p, answer), content, writes)
    ensures SameBut(cfg, run.Last(), longer.Last(), id)
  {
    hide Apply, Enabled, At, Resume, Fits, CallAt, SameBut;
    ScanStep(cfg, run.Last(), id, p, content, writes, answer);
    longer := Then(cfg, run, Work(id, answer, Delivered));
  }

  lemma PollStep(cfg: Config, s: State, id: string)
    ensures Enabled(cfg, s, Poll(id, Delivered)) && Apply(cfg, s, Poll(id, Delivered)) == s
  {
  }

  /** One expiry period later the last record written is still there. */
  lemma LastMoment(cfg: Config, run: Run, id: string, p: Point, content: ScanJob, writes: nat) returns (longer: Run)
    requires run.Holds(cfg) && At(cfg, run.Last(), id, p, content, writes)
    requires EntryOf(cfg, run.Last(), id).value.expiresAt == run.Last().now + TtlMillis(cfg.ttlNanos)
    ensures longer.Holds(cfg) && longer.Continues(run)
    ensures At(cfg, longer.Last(), id, p, content, writes)
    ensures longer.Last().now == run.Last().now + TtlMillis(cfg.ttlNanos)
    ensures longer.Last().jobs == run.Last().jobs
  {
    hide Apply, Enabled, At, TtlMillis;
    TickStep(cfg, run.Last(), id, p, content, writes, TtlMillis(cfg.ttlNanos));
    longer := Then(cfg, run, Tick(TtlMillis(cfg.ttlNanos)));
  }

  /** Four writes land, and the record is there four expiry periods after it was created. */
  lemma FourWritesHappen(cfg: Config, id: string, request: ScanRequest, digest: string, layer: Layer, at: int) returns (run: Run)
    requires ExpirySeconds(cfg.ttlNanos) > 0
    ensures run.Holds(cfg) && |run.events| >= 4 && run.events[1] == Create(id, Delivered)
    ensures var s := run.Last();
            && id in s.jobs && !s.jobs[id].unheard && s.jobs[id].writes == 4
            && Live(EntryOf(cfg, s, id), s.now) && s.now == run.states[1].now + 4 * TtlMillis(cfg.ttlNanos)
  {
    hide Apply, Enabled, At, TtlMillis, ReportOf, AllSurvive, IsRun, EntryOf;
    var finishing := RunningJob(id).(report := ReportOf(at, request.artifact, layer));
    ReportSurvives(at, request.artifact, layer);
    run := Scanned(cfg, id, request, digest, layer, at);
    run := LateUpdate(cfg, run, id, MarkFinished, finishing, 3, Delivered);
    run := LastMoment(cfg, run, id, Ended, MarkFinished.Of(finishing), 4);
    AtShows(cfg, run.Last(), id, Ended, MarkFinished.Of(finishing), 4);
  }

  /** Up to the first of the two polls. */
  lemma ReportIsTold(cfg: Config, id: string, request: ScanRequest, digest: string, layer: Layer, at: int, message: string)
      returns (run: Run, i: nat)
    requires ExpirySeconds(cfg.ttlNanos) > 0
    ensures run.Holds(cfg) && |run.events| >= 4 && run.events[1] == Create(id, Delivered) && run.states[1].now == 0
    ensures i < |run.events| && run.events[i] == Poll(id, Delivered)
    ensures PollResponse(cfg, run.states[i], id, Delivered) == Report(ReportOf(at, request.artifact, layer))
    ensures var s, finishing := run.Last(), RunningJob(id).(report := ReportOf(at, request.artifact, layer));
            && At(cfg, s, id, Reading(MarkFailed("updating scan job: " + message)), MarkFinished.Of(finishing), 4)
            && s.jobs[id].unheard && s.now == 3 * TtlMillis(cfg.ttlNanos)
            && EntryOf(cfg, s, id).value.expiresAt == 4 * TtlMillis(cfg.ttlNanos)
  {
    hide Apply, Enabled, At, TtlMillis, ReportOf, AllSurvive, PollResponse, IsRun, EntryOf;
    var finishing := RunningJob(id).(report := ReportOf(at, request.artifact, layer));
    ReportSurvives(at, request.artifact, layer);
    run := Scanned(cfg, id, request, digest, layer, at);
    run := LateUpdate(cfg, run, id, MarkFinished, finishing, 3, Unheard(message));
    i := |run.events|;
    PollOf(cfg, run.Last(), id, Reading(MarkFailed("updating scan job: " + message)), MarkFinished.Of(finishing), 4);
    PollStep(cfg, run.Last(), id);
    run := Then(cfg, run, Poll(id, Delivered));
  }

  /**
   After a SET of Finished that reported an error and was applied: a poller is told the
   report and later the error, a fifth write lands, and the record is there five expiry
   periods after it was created.
   */
  lemma FiveWritesHappen(cfg: Config, id: string, request: ScanRequest, digest: string, layer: Layer, at: int, message: string)
      returns (run: Run, i: nat, j: nat)
    requires ExpirySeconds(cfg.ttlNanos) > 0
    ensures run.Holds(cfg) && |run.events| >= 4 && run.events[1] == Create(id, Delivered)
    ensures i < j < |run.events| && run.events[i] == run.events[j] == Poll(id, Delivered)
    ensures PollResponse(cfg, run.states[i], id, Delivered) == Report(ReportOf(at, request.artifact, layer))
    ensures PollResponse(cfg, run.states[j], id, Delivered) == InternalError("updating scan job: " + message)
    ensures var s := run.Last();
            && id in s.jobs && s.jobs[id].unheard && s.jobs[id].writes == 5
            && Live(EntryOf(cfg, s, id), s.now) && s.now == run.states[1].now + 5 * TtlMillis(cfg.ttlNanos)
  {
    hide Apply, Enabled, At, TtlMillis, ReportOf, AllSurvive, PollResponse, IsRun, EntryOf;
    var finished := MarkFinished.Of(RunningJob(id).(report := ReportOf(at, request.artifact, layer)));
    var failing := MarkFailed("updating scan job: " + message);
    ReportSurvives(at, request.artifact, layer);
    run, i := ReportIsTold(cfg, id, request, digest, layer, at, message);
    run := LateUpdate(cfg, run, id, failing, finished, 4, Delivered);
    j := |run.events|;
    PollOf(cfg, run.Last(), id, Ended, failing.Of(finished), 5);
    PollStep(cfg, run.Last(), id);
    run := Then(cfg, run, Poll(id, Delivered));
    run := LastMoment(cfg, run, id, Ended, failing.Of(finished), 5);
    AtShows(cfg, run.Last(), id, Ended, failing.Of(finished), 5);
  }

  /** A worker started later than one expiry period after its job was created takes the process down. */
  lemma LateStartCrashes(cfg: Config, id: string, request: ScanRequest, late: nat) returns (run: Run)
    requires ExpirySeconds(cfg.ttlNanos) > 0 && late > TtlMillis(cfg.ttlNanos)
    ensures run.Holds(cfg) && |run.events| == 6 && run.events[4] == Tick(late)
    ensures id in run.Last().jobs && run.Last().jobs[id].point.Crashed?
  {
    hide Apply, TtlMillis, Enabled, JobsFit, PoolFits;
    run := Started(cfg, id, request);
    ExpiryStep(cfg, run.Last(), id, late);
    run := Then(cfg, run, Tick(late));
    RunKeepsInv(cfg, run.states, run.events, |run.events|);
    LateUpdateKillsTheProcess(cfg, run.Last(), id);
    run := Then(cfg, run, Work(id, Stored(Nil), Delivered));
  }

  lemma ExpiryStep(cfg: Config, s: State, id: string, late: nat)
    requires At(cfg, s, id, Reading(MarkRunning), PendingJob(id), 1)
    requires s.now + late > EntryOf(cfg, s, id).value.expiresAt
    ensures Enabled(cfg, s, Tick(late))
    ensures var s' := Apply(cfg, s, Tick(late));
            id in s'.jobs && s'.jobs[id].point.Reading? && !Live(EntryOf(cfg, s', id), s'.now)
  {
  }
}
