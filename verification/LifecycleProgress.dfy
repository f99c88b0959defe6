/**
 Progress: how many calls a worker makes, when every worker settles its record, and what
 a scan slower than the expiry does instead.
 */
module LifecycleProgress {
  import opened Harbor
  import opened Lifecycle
  import opened LifecycleInvariant
  import opened LifecycleTheorems
  import opened Protocol
  import opened Redis
  import opened Transformer
  import opened Wrappers
  import Pool

  // ----- Workers end

  function WorkCount(events: seq<Event>, id: string): nat {
    if events == [] then 0
    else
      var last := events[|events| - 1];
      WorkCount(events[..|events| - 1], id) + if last.Work? && last.id == id then 1 else 0
  }

  lemma StepCounts(cfg: Config, s: State, e: Event, id: string)
    requires Enabled(cfg, s, e) && id in Apply(cfg, s, e).jobs
    ensures Apply(cfg, s, e).jobs[id].steps ==
      (if id in s.jobs then s.jobs[id].steps else 0) + (if e.Work? && e.id == id then 1 else 0)
  {
  }

  lemma {:induction false} StepsAreCalls(cfg: Config, states: seq<State>, events: seq<Event>, k: nat, id: string)
    requires IsRun(cfg, states, events) && k < |states|
    ensures WorkCount(events[..k], id) == if id in states[k].jobs then states[k].jobs[id].steps else 0
  {
    if k > 0 {
      StepsAreCalls(cfg, states, events, k - 1, id);
      assert events[..k][..k - 1] == events[..k - 1];
      var s, e := states[k - 1], events[k - 1];
      assert Enabled(cfg, s, e) && states[k - 1 + 1] == Apply(cfg, s, e);
      JobsStay(cfg, s, e, id);
      if id in states[k].jobs {
        StepCounts(cfg, s, e, id);
      }
    }
  }

  lemma JobsStay(cfg: Config, s: State, e: Event, id: string)
    requires Enabled(cfg, s, e)
    ensures id in s.jobs || (e.Work? && e.id == id) ==> id in Apply(cfg, s, e).jobs
  {
  }

  /** In any run, a worker makes at most ten calls beside one a layer. */
  lemma CallsAreBounded(cfg: Config, states: seq<State>, events: seq<Event>, k: nat, id: string)
    requires IsRun(cfg, states, events) && k < |states| && id in states[k].jobs
    ensures WorkCount(events[..k], id) <= 10 + |Layers(cfg, states[k].jobs[id])|
  {
    StepsAreCalls(cfg, states, events, k, id);
    RunKeepsInv(cfg, states, events, k);
    var s := states[k];
    assert JobInv(cfg, id, s.jobs[id], EntryOf(cfg, s, id), s.now, s.clair);
    assert s.jobs[id].point.Posting? ==> s.jobs[id].point.next < |Layers(cfg, s.jobs[id])|;
  }

  /** A worker that is not done can always make its next call. */
  lemma NeverStuck(cfg: Config, s: State, id: string) returns (answer: Answer)
    requires Inv(cfg, s) && id in s.jobs && s.jobs[id].point.Active()
    ensures Enabled(cfg, s, Work(id, answer, Delivered))
  {
    var v := ViewOf(cfg, s, id);
    var call := CallAt(cfg, id, v.job.request, v.job.point);
    answer := if call.Store? then Stored(Serve(v.entry, s.now, cfg.ttlNanos, call.command, Delivered).1) else Failure("");
    assert PlaceFits(s, id);
  }

  lemma ActiveMeansFewerCalls(cfg: Config, id: string, j: Job, clair: set<Link>)
    requires History(cfg, id, j, clair) && j.point.Active()
    ensures j.steps < 10 + |Layers(cfg, j)|
  {
    hide Plausible, AllSurvive, WriteBound, Layers, OwnReport;
  }

  /** A worker that has made that many calls is done, and makes no other. */
  lemma CallsRunOut(cfg: Config, states: seq<State>, events: seq<Event>, k: nat, id: string)
    requires IsRun(cfg, states, events) && k < |states| && id in states[k].jobs
    requires WorkCount(events[..k], id) >= 10 + |Layers(cfg, states[k].jobs[id])|
    ensures !states[k].jobs[id].point.Active()
    ensures k < |events| && events[k].Work? ==> events[k].id != id
  {
    hide Layers, CanWork, Apply;
    StepsAreCalls(cfg, states, events, k, id);
    RunKeepsInv(cfg, states, events, k);
    JobHistory(cfg, states[k], id);
    if states[k].jobs[id].point.Active() {
      ActiveMeansFewerCalls(cfg, id, states[k].jobs[id], states[k].clair);
    }
    if k < |events| && events[k].Work? && events[k].id == id {
      RunningMeansActive(states[k], id);
    }
  }

  lemma JobHistory(cfg: Config, s: State, id: string)
    requires Inv(cfg, s) && id in s.jobs
    ensures History(cfg, id, s.jobs[id], s.clair)
  {
    hide History, PoolFits, Faithful;
    assert JobInv(cfg, id, s.jobs[id], EntryOf(cfg, s, id), s.now, s.clair);
  }

  // ----- Workers settle their records

  /**
   A step of a healthy run: the process is not killed, no store command fails, a manifest
   lists a layer, Clair's reply has one, and each worker reaches the store within one
   expiry of its last write.
   */
  ghost predicate Healthy(s: State, e: Event) {
    && !e.Die?
    && (e.Work? ==>
          && e.fate.Delivered?
          && (e.answer.Manifest? ==> exists d :: d in e.answer.references && d.mediaType != MEDIA_TYPE_IMAGE_CONFIG)
          && (e.answer.LayerIs? ==> e.answer.layer.Some?))
  }

  ghost predicate Timely(cfg: Config, s: State, e: Event) {
    e.Work? && e.id in s.jobs && (s.jobs[e.id].point.Reading? || s.jobs[e.id].point.Writing?) ==>
      s.now <= s.jobs[e.id].lastWrite + TtlMillis(cfg.ttlNanos)
  }

  /** The record a worker leaves behind: its own report, or its own failure. */
  ghost predicate Settled(id: string, j: Job) {
    match j.failure
    case None => OwnReport(j).Some? && j.content == ScanJob(id, Finished, "", OwnReport(j).value)
    case Some(message) => j.content.status.Failed? && j.content.error == message
  }

  ghost predicate Sound(id: string, j: Job) {
    && !j.point.Crashed? && !j.point.Lost? && !j.caller.Gone?
    && (j.writes > 0 ==> Faithful(id, j))
    && (j.point.Ended? ==> Settled(id, j))
  }

  ghost predicate AllSound(s: State) {
    forall id :: id in s.jobs ==> Sound(id, s.jobs[id])
  }

  lemma CallStaysSound(cfg: Config, id: string, now: nat, v: View, answer: Answer)
    requires JobInv(cfg, id, v.job, v.entry, now, v.clair) && Sound(id, v.job)
    requires CanWork(cfg, id, now, v, answer, Delivered) && v.job.caller.Answered?
    requires v.job.point.Reading? || v.job.point.Writing? ==> now <= v.job.lastWrite + TtlMillis(cfg.ttlNanos)
    requires answer.Manifest? ==> exists d :: d in answer.references && d.mediaType != MEDIA_TYPE_IMAGE_CONFIG
    requires answer.LayerIs? ==> answer.layer.Some?
    ensures Sound(id, AfterCall(cfg, id, now, v, answer, Delivered).job)
  {
    hide Digests, LayersFor, ReportOf, CallBound, WriteBound;
    var j := v.job;
    if j.point.Reading? || j.point.Writing? {
      assert Live(v.entry, now);
    }
    CallStaysFaithful(cfg, id, now, v, answer, Delivered);
    CrashesExactlyWhen(cfg, id, j.request, j.point, answer);
    var w := AfterCall(cfg, id, now, v, answer, Delivered).job;
    assert OwnReport(w) == OwnReport(j) || j.point.Asking?;
  }

  lemma StepStaysSound(cfg: Config, s: State, e: Event)
    requires Inv(cfg, s) && AllSound(s)
    requires Enabled(cfg, s, e) && Healthy(s, e) && Timely(cfg, s, e)
    ensures AllSound(Apply(cfg, s, e))
  {
    hide JobInv, AfterCall, AfterCreate, Pool.Conserved, ParentClosed;
    var s' := Apply(cfg, s, e);
    if e.Work? {
      RunningMeansActive(s, e.id);
      CallersFit(cfg, s, e.id);
      CallStaysSound(cfg, e.id, s.now, ViewOf(cfg, s, e.id), e.answer);
    } else if e.Create? {
      CreateStaysSound(cfg, s, e.id, e.fate);
    } else if e.Spawn? {
      StartStaysSound(cfg, s);
    }
  }

  lemma CreateStaysSound(cfg: Config, s: State, id: string, fate: Fate)
    requires Inv(cfg, s) && AllSound(s) && Enabled(cfg, s, Create(id, fate))
    ensures Sound(id, Apply(cfg, s, Create(id, fate)).jobs[id])
  {
    CallersFit(cfg, s, id);
  }

  lemma StartStaysSound(cfg: Config, s: State)
    requires Inv(cfg, s) && AllSound(s) && Enabled(cfg, s, Spawn)
    ensures Sound(s.pool.held.value, Apply(cfg, s, Spawn).jobs[s.pool.held.value])
  {
    var id := s.pool.held.value;
    assert PlaceFits(s, id);
    CallersFit(cfg, s, id);
    assert Sound(id, s.jobs[id]);
  }

  /**
   In a healthy run no worker ever panics or is lost; and once it ends, its record says
   Finished with its own report or Failed with its own failure, until it expires.
   */
  lemma {:induction false} WorkersSettle(cfg: Config, states: seq<State>, events: seq<Event>, k: nat)
    requires IsRun(cfg, states, events) && k < |states|
    requires forall i :: 0 <= i < k ==> Healthy(states[i], events[i]) && Timely(cfg, states[i], events[i])
    ensures AllSound(states[k])
  {
    hide Inv, AllSound, Healthy, Timely, Enabled, Apply;
    if k == 0 {
      NobodyUnsound(cfg, states, events);
    } else {
      WorkersSettle(cfg, states, events, k - 1);
      RunKeepsInv(cfg, states, events, k - 1);
      StepStaysSound(cfg, states[k - 1], events[k - 1]);
    }
  }

  lemma NobodyUnsound(cfg: Config, states: seq<State>, events: seq<Event>)
    requires IsRun(cfg, states, events)
    ensures AllSound(states[0])
  {
  }

  lemma EndedMeansSettled(cfg: Config, states: seq<State>, events: seq<Event>, k: nat, id: string)
    requires IsRun(cfg, states, events) && k < |states|
    requires forall i :: 0 <= i < k ==> Healthy(states[i], events[i]) && Timely(cfg, states[i], events[i])
    requires id in states[k].jobs
    ensures var j := states[k].jobs[id];
            && !j.point.Crashed? && !j.point.Lost?
            && (j.point.Ended? && states[k].now <= j.lastWrite + TtlMillis(cfg.ttlNanos) ==>
                  Readable(cfg, states[k], id) == Some(j.content) && Settled(id, j))
  {
    WorkersSettle(cfg, states, events, k);
    RunKeepsInv(cfg, states, events, k);
    var s := states[k];
    assert Sound(id, s.jobs[id]);
    assert JobInv(cfg, id, s.jobs[id], EntryOf(cfg, s, id), s.now, s.clair);
    ReadableIsContent(cfg, s, id);
  }

  // ----- And when they do not

  /** A worker about to read a record that is no longer there. */
  ghost predicate TooLate(cfg: Config, s: State, id: string) {
    && PoolFits(s)
    && id in s.jobs && s.jobs[id].point.Reading?
    && !Live(EntryOf(cfg, s, id), s.now)
  }

  /**
   A worker that comes back to the store after its record has expired takes the process
   down: its update dereferences the missing job, and with it every job still waiting,
   handed over or running is lost.
   */
  lemma LateUpdateKillsTheProcess(cfg: Config, s: State, id: string)
    requires TooLate(cfg, s, id)
    ensures Enabled(cfg, s, Work(id, Stored(Nil), Delivered))
    ensures var s' := Apply(cfg, s, Work(id, Stored(Nil), Delivered));
            && id in s'.jobs && s'.jobs[id].point.Crashed? && Readable(cfg, s', id) == None && s'.pool == Pool.NEW
            && forall other :: other in s.jobs && other != id ==>
                 && other in s'.jobs
                 && (s.jobs[other].point.Active() || s.jobs[other].point.Idle? ==> s'.jobs[other].point.Lost?)
  {
    hide Pool.Conserved, DecodeJob, EncodeJob;
    assert PlaceFits(s, id) && id in s.pool.running;
    var w := AfterCall(cfg, id, s.now, ViewOf(cfg, s, id), Stored(Nil), Delivered);
    assert w.job.point.Crashed? && w.entry == EntryOf(cfg, s, id);
    var s' := Apply(cfg, s, Work(id, Stored(Nil), Delivered));
    assert s' == AllKilled(WithView(cfg, s, id, w));
    assert EntryOf(cfg, s', id) == EntryOf(cfg, s, id);
  }

  /** Between its first and its second update a worker is scanning. */
  ghost predicate Scanning(p: Point) {
    p.Fetching? || (p.Posting? && p.next < |p.layers|) || p.Asking?
  }

  /**
   A scan that takes longer than one expiry after the job's last write leads there,
   whatever the registry and Clair reply and whenever: each further reply panics at once,
   lets the scan go on, or brings the worker to an update that comes too late.
   */
  lemma SlowScanIsTooLate(cfg: Config, s: State, id: string, answer: Answer, fate: Fate)
    requires Inv(cfg, s) && id in s.jobs && Scanning(s.jobs[id].point)
    requires s.now > s.jobs[id].lastWrite + TtlMillis(cfg.ttlNanos)
    requires Fits(CallAt(cfg, id, s.jobs[id].request, s.jobs[id].point), answer)
    ensures Enabled(cfg, s, Work(id, answer, fate))
    ensures var s' := Apply(cfg, s, Work(id, answer, fate));
            && id in s'.jobs
            && var p := Resume(cfg, id, s.jobs[id].request, s.jobs[id].point, answer);
               && s'.jobs[id].point == p
               && (p.Crashed? || p.Reading? || Scanning(p))
               && (p.Reading? ==> TooLate(cfg, s', id))
               && (Scanning(p) ==> s'.now > s'.jobs[id].lastWrite + TtlMillis(cfg.ttlNanos))
  {
    hide JobInv, Resume, Fits, CallAt, Inv, Apply;
    ScanIsLate(cfg, s, id);
    ScanReply(cfg, id, s.now, ViewOf(cfg, s, id), answer, fate);
    WorkKeepsInv(cfg, s, id, answer, fate);
    ReplyArrives(cfg, s, id, answer, fate);
    InvFitsPool(cfg, Apply(cfg, s, Work(id, answer, fate)));
  }

  lemma InvFitsPool(cfg: Config, s: State)
    requires Inv(cfg, s)
    ensures PoolFits(s)
  {
  }

  lemma ScanIsLate(cfg: Config, s: State, id: string)
    requires Inv(cfg, s) && id in s.jobs && Scanning(s.jobs[id].point)
    requires s.now > s.jobs[id].lastWrite + TtlMillis(cfg.ttlNanos)
    ensures id in s.pool.running && !Live(EntryOf(cfg, s, id), s.now)
  {
    hide History, Faithful, Pool.Conserved;
    assert PlaceFits(s, id);
    assert JobInv(cfg, id, s.jobs[id], EntryOf(cfg, s, id), s.now, s.clair);
  }

  /** A reply to a scanning worker changes neither its record nor the time of its last write. */
  lemma ScanReply(cfg: Config, id: string, now: nat, v: View, answer: Answer, fate: Fate)
    requires Scanning(v.job.point) && Fits(CallAt(cfg, id, v.job.request, v.job.point), answer)
    ensures CanWork(cfg, id, now, v, answer, fate)
    ensures var w := AfterCall(cfg, id, now, v, answer, fate);
            && w.entry == v.entry && w.job.lastWrite == v.job.lastWrite
            && w.job.point == Resume(cfg, id, v.job.request, v.job.point, answer)
            && (w.job.point.Crashed? || w.job.point.Reading? || Scanning(w.job.point))
  {
    hide ReportOf, LayersOf;
  }

  lemma ReplyArrives(cfg: Config, s: State, id: string, answer: Answer, fate: Fate)
    requires Enabled(cfg, s, Work(id, answer, fate))
    ensures var s', w := Apply(cfg, s, Work(id, answer, fate)), AfterCall(cfg, id, s.now, ViewOf(cfg, s, id), answer, fate);
            && id in s'.jobs && s'.now == s.now && EntryOf(cfg, s', id) == w.entry
            && s'.jobs[id].lastWrite == w.job.lastWrite
            && s'.jobs[id].point == w.job.point
  {
    hide CanWork, AfterCall;
  }
}
