/**
 What a worker comes to: a failure has a cause that says so, and a worker that meets none
 makes every call of its scan and finishes with its own report.
 */
module LifecycleOutcomes {
  import opened Harbor
  import opened Lifecycle
  import opened LifecycleInvariant
  import opened LifecycleProgress
  import opened LifecycleTheorems
  import opened Protocol
  import opened Redis
  import opened Transformer
  import opened Wrappers
  import Pool

  // ----- Failures

  /** The answer is an error, and this is the message made of it. */
  ghost predicate Explains(p: Point, answer: Answer, message: string) {
    match answer
    case Failure(error) =>
      || (p.Fetching? && message == "preparing layers: " + error)
      || (p.Posting? && message == error)
      || (p.Asking? && message == "getting layer " + p.name + ": " + error)
    case Stored(Error(error)) =>
      || (p.Reading? && message == error)
      || (p.Writing? && message == "updating scan job: " + error)
    case Stored(Value(document)) => document.Malformed? && p.Reading? && message == "invalid character"
    case Stored(_) => false
    case Manifest(_) => false
    case Accepted => false
    case LayerIs(_, _) => false
  }

  lemma CallFails(cfg: Config, id: string, now: nat, v: View, answer: Answer, fate: Fate)
    requires CanWork(cfg, id, now, v, answer, fate)
    ensures var w := AfterCall(cfg, id, now, v, answer, fate).job;
            w.failure == v.job.failure || (w.failure.Some? && Explains(v.job.point, answer, w.failure.value))
  {
    hide EncodeJob, DecodeJob, LayersOf, ReportOf;
    var w := AfterCall(cfg, id, now, v, answer, fate).job;
    if w.point.Reading? && w.point.update.MarkFailed? {
      assert w.point == Resume(cfg, id, v.job.request, v.job.point, answer);
    }
  }

  lemma StepFails(cfg: Config, s: State, e: Event, id: string, message: string)
    requires Enabled(cfg, s, e) && id in Apply(cfg, s, e).jobs && Apply(cfg, s, e).jobs[id].failure == Some(message)
    requires !(id in s.jobs && s.jobs[id].failure == Some(message))
    ensures e.Work? && e.id == id && id in s.jobs && Explains(s.jobs[id].point, e.answer, message)
  {
    hide CanWork, AfterCall, AfterCreate, Explains;
    if e.Work? {
      CallFails(cfg, e.id, s.now, ViewOf(cfg, s, e.id), e.answer, e.fate);
    } else if e.Create? {
      CreateKeepsFailure(cfg, e.id, s.now, ViewOf(cfg, s, e.id), e.fate);
    }
  }

  lemma CreateKeepsFailure(cfg: Config, id: string, now: nat, v: View, fate: Fate)
    ensures AfterCreate(cfg, id, now, v, fate).job.failure == v.job.failure
  {
  }

  /** A worker fails only on an error it was answered with, and with a message made of that error. */
  lemma {:induction false} FailuresHaveCauses(cfg: Config, states: seq<State>, events: seq<Event>, k: nat, id: string) returns (i: nat)
    requires IsRun(cfg, states, events) && k < |states|
    requires id in states[k].jobs && states[k].jobs[id].failure.Some?
    ensures i < k && events[i].Work? && events[i].id == id && id in states[i].jobs
    ensures Explains(states[i].jobs[id].point, events[i].answer, states[k].jobs[id].failure.value)
  {
    hide Explains, Enabled, Apply;
    i := k - 1;
    if id in states[i].jobs && states[i].jobs[id].failure == states[k].jobs[id].failure {
      i := FailuresHaveCauses(cfg, states, events, k - 1, id);
    } else {
      StepFails(cfg, states[i], events[i], id, states[k].jobs[id].failure.value);
    }
  }

  /** So a record that says Failed tells of an error its own worker was answered with. */
  lemma FailedTellsItsCause(cfg: Config, states: seq<State>, events: seq<Event>, k: nat, id: string) returns (i: nat)
    requires IsRun(cfg, states, events) && k < |states| && id in states[k].jobs
    requires var r := Readable(cfg, states[k], id); r.Some? && r.value.status.Failed?
    ensures i < k && events[i].Work? && events[i].id == id && id in states[i].jobs
    ensures Explains(states[i].jobs[id].point, events[i].answer, Readable(cfg, states[k], id).value.error)
  {
    hide Explains, EntryMatches, Carries, CallBound, WriteBound, Faithful, PoolFits;
    RunKeepsInv(cfg, states, events, k);
    var s := states[k];
    assert JobInv(cfg, id, s.jobs[id], EntryOf(cfg, s, id), s.now, s.clair);
    ReadableIsContent(cfg, s, id);
    i := FailuresHaveCauses(cfg, states, events, k, id);
  }

  // ----- Success

  /** Without a failure, the calls made are exactly those up to the point reached. */
  ghost predicate Counted(cfg: Config, j: Job) {
    j.failure == None ==>
      && (j.point.Idle? || j.point.Active() ==> j.steps == CallBound(cfg, j))
      && (j.point.Ended? ==> j.steps == 8 + |Layers(cfg, j)|)
  }

  lemma CallCounts(cfg: Config, id: string, now: nat, v: View, answer: Answer, fate: Fate)
    requires History(cfg, id, v.job, v.clair) && CanWork(cfg, id, now, v, answer, fate) && Counted(cfg, v.job)
    ensures Counted(cfg, AfterCall(cfg, id, now, v, answer, fate).job)
  {
    hide EncodeJob, DecodeJob, LayersFor, Digests, ReportOf, Plausible, AllSurvive, WriteBound;
    var j, w := v.job, AfterCall(cfg, id, now, v, answer, fate).job;
    assert w.references == j.references ==> Layers(cfg, w) == Layers(cfg, j);
    assert w.failure == None ==> j.failure == None;
  }

  /** What a step that is not the job's own call does to it, as far as calls are counted. */
  lemma OtherStep(cfg: Config, s: State, e: Event, id: string)
    requires Enabled(cfg, s, e) && id in Apply(cfg, s, e).jobs && !(e.Work? && e.id == id)
    ensures var j' := Apply(cfg, s, e).jobs[id];
            if id in s.jobs then
              var j := s.jobs[id];
              && j'.failure == j.failure && j'.steps == j.steps && j'.references == j.references && j'.request == j.request
              && (j'.point == j.point || j'.point.Lost? || j'.point == Reading(MarkRunning))
              && (j'.point != j.point && j'.point.Reading? ==> e.Spawn? && s.pool.held == Some(id))
            else j'.point.Idle? && j'.steps == 0
  {
    hide CanWork, AfterCall;
  }

  lemma HeldIsIdle(s: State, id: string)
    requires PoolFits(s) && s.pool.held == Some(id)
    ensures id in s.jobs && s.jobs[id].point.Idle?
  {
    hide Pool.Conserved;
    assert PlaceFits(s, id);
  }

  lemma CountCarries(cfg: Config, j: Job, j': Job)
    requires Counted(cfg, j)
    requires j'.failure == j.failure && j'.steps == j.steps && j'.references == j.references && j'.request == j.request
    requires j'.point == j.point || j'.point.Lost? || (j.point.Idle? && j'.point == Reading(MarkRunning))
    ensures Counted(cfg, j')
  {
    hide LayersOf;
    assert Layers(cfg, j') == Layers(cfg, j);
  }

  lemma StepCounted(cfg: Config, s: State, e: Event, id: string)
    requires Inv(cfg, s) && Enabled(cfg, s, e) && id in Apply(cfg, s, e).jobs
    requires id in s.jobs ==> Counted(cfg, s.jobs[id])
    ensures Counted(cfg, Apply(cfg, s, e).jobs[id])
  {
    hide Enabled, Apply, JobsFit, PoolFits, CallBound;
    if e.Work? && e.id == id {
      WorkCounted(cfg, s, e, id);
    } else {
      OtherStep(cfg, s, e, id);
      if id in s.jobs {
        if s.pool.held == Some(id) { HeldIsIdle(s, id); }
        CountCarries(cfg, s.jobs[id], Apply(cfg, s, e).jobs[id]);
      } else {
        IdleCounts(cfg, Apply(cfg, s, e).jobs[id]);
      }
    }
  }

  lemma IdleCounts(cfg: Config, j: Job)
    requires j.point.Idle? && j.steps == 0
    ensures Counted(cfg, j)
  {
    hide Layers;
  }

  lemma WorkCounted(cfg: Config, s: State, e: Event, id: string)
    requires Inv(cfg, s) && Enabled(cfg, s, e) && e.Work? && e.id == id
    requires id in s.jobs ==> Counted(cfg, s.jobs[id])
    ensures id in Apply(cfg, s, e).jobs && Counted(cfg, Apply(cfg, s, e).jobs[id])
  {
    hide History, CanWork, AfterCall, PoolFits, CallBound, Layers;
    JobHistory(cfg, s, id);
    CallCounts(cfg, id, s.now, ViewOf(cfg, s, id), e.answer, e.fate);
  }

  lemma {:induction false} AlwaysCounted(cfg: Config, states: seq<State>, events: seq<Event>, k: nat, id: string)
    requires IsRun(cfg, states, events) && k < |states| && id in states[k].jobs
    ensures Counted(cfg, states[k].jobs[id])
  {
    hide Counted, Inv, Enabled, Apply;
    if k > 0 {
      if id in states[k - 1].jobs {
        AlwaysCounted(cfg, states, events, k - 1, id);
      }
      RunKeepsInv(cfg, states, events, k - 1);
      StepCounted(cfg, states[k - 1], events[k - 1], id);
    }
  }

  /** A delivered command of a worker is answered with an error, or with bytes that are no job, never. */
  lemma DeliveredIsNoError(cfg: Config, s: State, e: Event)
    requires Inv(cfg, s) && Enabled(cfg, s, e) && e.Work? && e.fate.Delivered?
    ensures e.answer.Stored? ==> !e.answer.reply.Error? && e.answer.reply != Value(Malformed)
  {
    hide History, Faithful, Pool.Conserved;
    RunningMeansActive(s, e.id);
    CallersFit(cfg, s, e.id);
    assert JobInv(cfg, e.id, s.jobs[e.id], EntryOf(cfg, s, e.id), s.now, s.clair);
  }

  /** A run in which a worker meets no error, up to some point. */
  ghost predicate Unhindered(cfg: Config, states: seq<State>, events: seq<Event>, k: nat, id: string)
    requires IsRun(cfg, states, events) && k < |states|
  {
    && (forall i :: 0 <= i < k ==> Healthy(states[i], events[i]) && Timely(cfg, states[i], events[i]))
    && (forall i :: 0 <= i < k && events[i].Work? && events[i].id == id ==> !events[i].answer.Failure?)
  }

  lemma UnhinderedNeverFails(cfg: Config, states: seq<State>, events: seq<Event>, k: nat, id: string)
    requires IsRun(cfg, states, events) && k < |states| && id in states[k].jobs && Unhindered(cfg, states, events, k, id)
    ensures states[k].jobs[id].failure == None
  {
    hide Inv, Enabled, Apply;
    if states[k].jobs[id].failure.Some? {
      var i := FailuresHaveCauses(cfg, states, events, k, id);
      assert Healthy(states[i], events[i]);
      RunKeepsInv(cfg, states, events, i);
      DeliveredIsNoError(cfg, states[i], events[i]);
    }
  }

  /**
   A worker that meets no error and is never late finishes, however many layers there
   are: it asks for the manifest, has every layer accepted, asks for the last one and
   makes its three updates, eight calls beside one per layer, and its record is then
   Finished with the report of Clair's answer.
   */
  lemma UnhinderedWorkersFinish(cfg: Config, states: seq<State>, events: seq<Event>, k: nat, id: string)
    requires IsRun(cfg, states, events) && k < |states| && id in states[k].jobs && Unhindered(cfg, states, events, k, id)
    requires states[k].jobs[id].point.Ended?
    ensures var j := states[k].jobs[id];
            && j.clairReply.Some? && ChainAccepted(cfg, j, states[k].clair)
            && j.content == ScanJob(id, Finished, "", ReportOf(j.clairReply.value.1, j.request.artifact, j.clairReply.value.0))
            && (states[k].now <= j.lastWrite + TtlMillis(cfg.ttlNanos) ==> Readable(cfg, states[k], id) == Some(j.content))
            && WorkCount(events[..k], id) == 8 + |Layers(cfg, j)|
  {
    hide Healthy, Timely, Enabled, Apply, Readable, ReportOf, CallBound;
    UnhinderedNeverFails(cfg, states, events, k, id);
    WorkersSettle(cfg, states, events, k);
    assert Sound(id, states[k].jobs[id]);
    EndedMeansSettled(cfg, states, events, k, id);
    RunKeepsInv(cfg, states, events, k);
    JobHistory(cfg, states[k], id);
    AlwaysCounted(cfg, states, events, k, id);
    StepsAreCalls(cfg, states, events, k, id);
  }
}
