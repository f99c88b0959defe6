/** What holds over whole runs of the system, however its steps interleave. */
module LifecycleTheorems {
  import opened Harbor
  import opened Lifecycle
  import opened LifecycleInvariant
  import opened Protocol
  import opened Redis
  import opened Transformer
  import opened Worker
  import opened Wrappers
  import Pool

  /** The record a reader would get for a job, if any. */
  function Readable(cfg: Config, s: State, id: string): Option<ScanJob> {
    var e := EntryOf(cfg, s, id);
    if Live(e, s.now) && e.value.document.Json? then Some(DecodeJob(e.value.document.job)) else None
  }

  lemma ReadableIsContent(cfg: Config, s: State, id: string)
    requires Inv(cfg, s) && id in s.jobs
    ensures Readable(cfg, s, id) == if Live(EntryOf(cfg, s, id), s.now) then Some(s.jobs[id].content) else None
  {
    assert JobInv(cfg, id, s.jobs[id], EntryOf(cfg, s, id), s.now, s.clair);
    JobRoundTrip(s.jobs[id].content);
  }

  // ----- A job's own report

  /** A stored record that says Finished holds the report made of Clair's answer for its own request. */
  lemma FinishedHoldsItsOwnReport(cfg: Config, states: seq<State>, events: seq<Event>, k: nat, id: string)
    requires IsRun(cfg, states, events) && k < |states| && id in states[k].jobs
    requires var r := Readable(cfg, states[k], id); r.Some? && r.value.status.Finished?
    ensures var j := states[k].jobs[id];
            var record := Readable(cfg, states[k], id).value;
            && j.clairReply.Some?
            && record == ScanJob(id, Finished, "", ReportOf(j.clairReply.value.1, j.request.artifact, j.clairReply.value.0))
            && ChainAccepted(cfg, j, states[k].clair)
  {
    RunKeepsInv(cfg, states, events, k);
    var s := states[k];
    assert JobInv(cfg, id, s.jobs[id], EntryOf(cfg, s, id), s.now, s.clair);
    ReadableIsContent(cfg, s, id);
  }

  /** No step changes a key but the one of the job whose record it creates or updates. */
  lemma OnlyOwnKeyChanges(cfg: Config, s: State, e: Event, key: string)
    requires Enabled(cfg, s, e)
    requires EntryAt(Apply(cfg, s, e).db, key) != EntryAt(s.db, key)
    ensures (e.Create? || e.Work?) && key == JobKey(cfg.namespace, e.id)
  {
  }

  /** In every state of every run, the store calls of a worker go to its own job's key, reads and writes. */
  lemma UpdatesGoToOwnKey(cfg: Config, states: seq<State>, events: seq<Event>, k: nat, id: string)
    requires IsRun(cfg, states, events) && k < |states|
    requires id in states[k].jobs && states[k].jobs[id].point.Active()
    ensures var call := CallAt(cfg, id, states[k].jobs[id].request, states[k].jobs[id].point);
            call.Store? ==> call.key == JobKey(cfg.namespace, id)
  {
    RunKeepsInv(cfg, states, events, k);
    var s := states[k];
    assert JobInv(cfg, id, s.jobs[id], EntryOf(cfg, s, id), s.now, s.clair);
  }

  // ----- What stays of a job

  /** A job once created keeps its identity, and what was unheard stays so. */
  ghost predicate Continues(j: Job, j': Job) {
    && j'.request == j.request
    && !j'.caller.Creating?
    && j'.createdAt == j.createdAt
    && (j.unheard ==> j'.unheard)
    && (!j.point.Idle? ==> !j'.point.Idle?)
  }

  lemma CallContinues(cfg: Config, id: string, now: nat, v: View, answer: Answer, fate: Fate)
    requires CanWork(cfg, id, now, v, answer, fate) && !v.job.caller.Creating?
    ensures Continues(v.job, AfterCall(cfg, id, now, v, answer, fate).job)
  {
  }

  lemma StepContinues(cfg: Config, s: State, e: Event, id: string)
    requires Enabled(cfg, s, e) && id in s.jobs && !s.jobs[id].caller.Creating?
    ensures var s' := Apply(cfg, s, e);
            id in s'.jobs && Continues(s.jobs[id], s'.jobs[id])
  {
    hide CanWork, AfterCall, AfterCreate;
    if e.Work? && e.id in s.jobs && !s.jobs[e.id].caller.Creating? {
      CallContinues(cfg, e.id, s.now, ViewOf(cfg, s, e.id), e.answer, e.fate);
    }
  }

  // ----- Records only move forward

  /** What may follow a record at the same key: a report once there stays, a terminal status too. */
  ghost predicate Advances(a: ScanJob, b: ScanJob, unheard: bool) {
    && a.id == b.id
    && (a.report == b.report || a.report == EMPTY_REPORT)
    && match a.status
       case Pending => true
       case Running => !b.status.Pending?
       case Finished => b == a || (unheard && b.status.Failed? && b.report == a.report)
       case Failed => b == a
       case Other(_) => false
  }

  /** And a record that is gone stays gone. */
  ghost predicate Forward(a: Option<ScanJob>, b: Option<ScanJob>, unheard: bool) {
    b.None? || (a.Some? && Advances(a.value, b.value, unheard))
  }

  lemma CallAdvances(cfg: Config, id: string, now: nat, v: View, answer: Answer, fate: Fate)
    requires JobInv(cfg, id, v.job, v.entry, now, v.clair)
    requires CanWork(cfg, id, now, v, answer, fate)
    requires Live(v.entry, now)
    ensures var w := AfterCall(cfg, id, now, v, answer, fate);
            Advances(v.job.content, w.job.content, w.job.unheard)
  {
    if v.job.point.Writing? {
      var u := v.job.point.update;
      assert Before(id, v.job, u) && v.job.point.record == u.Of(v.job.content);
    }
  }

  lemma WorkShows(cfg: Config, s: State, id: string, answer: Answer, fate: Fate)
    requires Enabled(cfg, s, Work(id, answer, fate))
    ensures var s' := Apply(cfg, s, Work(id, answer, fate));
            var w := AfterCall(cfg, id, s.now, ViewOf(cfg, s, id), answer, fate);
            && s'.now == s.now && EntryOf(cfg, s', id) == w.entry && id in s'.jobs
            && s'.jobs[id].content == w.job.content && s'.jobs[id].unheard == w.job.unheard
  {
  }

  lemma WorkForward(cfg: Config, s: State, id: string, answer: Answer, fate: Fate)
    requires Inv(cfg, s) && Enabled(cfg, s, Work(id, answer, fate))
    ensures var s' := Apply(cfg, s, Work(id, answer, fate));
            id in s'.jobs && Forward(Readable(cfg, s, id), Readable(cfg, s', id), s'.jobs[id].unheard)
  {
    hide History, Faithful, CallerFits, EntryMatches;
    var s' := Apply(cfg, s, Work(id, answer, fate));
    assert Inv(cfg, s') by {
      WorkKeepsInv(cfg, s, id, answer, fate);
    }
    WorkShows(cfg, s, id, answer, fate);
    ReadableIsContent(cfg, s, id);
    ReadableIsContent(cfg, s', id);
    var v := ViewOf(cfg, s, id);
    assert JobInv(cfg, id, v.job, v.entry, s.now, v.clair);
    if Live(AfterCall(cfg, id, s.now, v, answer, fate).entry, s.now) {
      LiveBefore(cfg, id, s.now, v, answer, fate);
      CallAdvances(cfg, id, s.now, v, answer, fate);
    }
  }

  lemma LiveBefore(cfg: Config, id: string, now: nat, v: View, answer: Answer, fate: Fate)
    requires CanWork(cfg, id, now, v, answer, fate) && Live(AfterCall(cfg, id, now, v, answer, fate).entry, now)
    ensures Live(v.entry, now)
  {
  }

  lemma OtherwiseUnchanged(cfg: Config, s: State, e: Event, id: string)
    requires Enabled(cfg, s, e) && id in s.jobs && !s.jobs[id].caller.Creating?
    requires e.Work? ==> e.id != id
    ensures var s' := Apply(cfg, s, e);
            && id in s'.jobs && EntryOf(cfg, s', id) == EntryOf(cfg, s, id) && s.now <= s'.now
            && s'.jobs[id].content == s.jobs[id].content && s'.jobs[id].unheard == s.jobs[id].unheard
  {
    hide CanWork;
    if EntryOf(cfg, Apply(cfg, s, e), id) != EntryOf(cfg, s, id) {
      OnlyOwnKeyChanges(cfg, s, e, JobKey(cfg.namespace, id));
      JobKeyInjective(cfg.namespace, e.id, id);
    }
  }

  lemma RecordFollowsItself(cfg: Config, s: State, id: string, unheard: bool)
    requires Inv(cfg, s) && id in s.jobs
    ensures Forward(Readable(cfg, s, id), Readable(cfg, s, id), unheard)
  {
    ReadableIsContent(cfg, s, id);
    assert JobInv(cfg, id, s.jobs[id], EntryOf(cfg, s, id), s.now, s.clair);
  }

  lemma StepForward(cfg: Config, s: State, e: Event, id: string)
    requires Inv(cfg, s) && Enabled(cfg, s, e)
    requires id in s.jobs && !s.jobs[id].caller.Creating? && id in Apply(cfg, s, e).jobs
    ensures var s' := Apply(cfg, s, e);
            Forward(Readable(cfg, s, id), Readable(cfg, s', id), s'.jobs[id].unheard)
  {
    hide JobInv;
    if e.Work? && e.id == id {
      WorkForward(cfg, s, id, e.answer, e.fate);
    } else {
      OtherwiseUnchanged(cfg, s, e, id);
      RecordFollowsItself(cfg, s, id, s.jobs[id].unheard);
    }
  }

  lemma ForwardTransitive(a: Option<ScanJob>, b: Option<ScanJob>, c: Option<ScanJob>, early: bool, late: bool)
    requires Forward(a, b, early) && Forward(b, c, late) && (early ==> late)
    ensures Forward(a, c, late)
  {
  }

  /** What has become of a job since an earlier state. */
  ghost predicate Since(cfg: Config, start: State, s: State, id: string)
    requires id in start.jobs
  {
    && id in s.jobs && Continues(start.jobs[id], s.jobs[id])
    && Forward(Readable(cfg, start, id), Readable(cfg, s, id), s.jobs[id].unheard)
  }

  lemma SinceItself(cfg: Config, s: State, id: string)
    requires Inv(cfg, s) && id in s.jobs && !s.jobs[id].caller.Creating?
    ensures Since(cfg, s, s, id)
  {
    RecordFollowsItself(cfg, s, id, s.jobs[id].unheard);
  }

  lemma SinceStep(cfg: Config, start: State, s: State, e: Event, id: string)
    requires Inv(cfg, s) && Enabled(cfg, s, e)
    requires id in start.jobs && Since(cfg, start, s, id)
    ensures Since(cfg, start, Apply(cfg, s, e), id)
  {
    var s' := Apply(cfg, s, e);
    StepContinues(cfg, s, e, id);
    StepForward(cfg, s, e, id);
    ForwardTransitive(Readable(cfg, start, id), Readable(cfg, s, id), Readable(cfg, s', id),
                      s.jobs[id].unheard, s'.jobs[id].unheard);
  }

  /**
   Along a run, from the moment a job's record was written: its record only moves
   forward, keeps its report, and never comes back once expired.
   */
  lemma {:induction false} RecordsOnlyAdvance(cfg: Config, states: seq<State>, events: seq<Event>, i: nat, k: nat, id: string)
    requires IsRun(cfg, states, events) && i <= k < |states|
    requires id in states[i].jobs && !states[i].jobs[id].caller.Creating?
    ensures Since(cfg, states[i], states[k], id)
    decreases k
  {
    hide Inv, Since;
    if i == k {
      RunKeepsInv(cfg, states, events, i);
      SinceItself(cfg, states[i], id);
    } else {
      RecordsOnlyAdvance(cfg, states, events, i, k - 1, id);
      RunKeepsInv(cfg, states, events, k - 1);
      SinceStep(cfg, states[i], states[k - 1], events[k - 1], id);
    }
  }

  // ----- What pollers see

  function Rank(r: Response): nat {
    match r
    case Found => 0
    case Report(_) => 1
    case InternalError(_) => 2
    case NotFound => 3
  }

  /** Two answers in the order a poller got them. */
  ghost predicate Follows(a: Response, b: Response, unheard: bool) {
    && Rank(a) <= Rank(b)
    && (Rank(a) == Rank(b) ==> a == b)
    && (a.Report? && b.InternalError? ==> unheard)
  }

  /** The index of the first answer of at least a rank. */
  function FirstOf(answers: seq<Response>, rank: nat): (n: nat)
    ensures n <= |answers|
  {
    if answers == [] || Rank(answers[0]) >= rank then 0 else 1 + FirstOf(answers[1..], rank)
  }

  lemma {:induction false} FirstOfSplits(answers: seq<Response>, rank: nat, x: nat)
    requires forall i, j :: 0 <= i <= j < |answers| ==> Rank(answers[i]) <= Rank(answers[j])
    requires x < |answers|
    ensures x < FirstOf(answers, rank) <==> Rank(answers[x]) < rank
  {
    if Rank(answers[0]) < rank && x > 0 {
      FirstOfSplits(answers[1..], rank, x - 1);
    }
  }

  lemma {:induction false} FirstOfMonotone(answers: seq<Response>, a: nat, b: nat)
    requires a <= b
    ensures FirstOf(answers, a) <= FirstOf(answers, b)
  {
    if answers != [] && Rank(answers[0]) < a {
      FirstOfMonotone(answers[1..], a, b);
    }
  }

  /**
   302s, then 200s with one body, then 500s with one message, then 404s; 200s and 500s
   together only when the SET of Finished had been applied although it reported an error.
   */
  ghost predicate Orderly(answers: seq<Response>, unheard: bool) {
    exists p: nat, m: nat, q: nat :: p <= m <= q <= |answers| && InPhases(answers, p, m, q) && (unheard || p == m || m == q)
  }

  ghost predicate InPhases(answers: seq<Response>, p: nat, m: nat, q: nat)
    requires p <= m <= q <= |answers|
  {
    && (forall x :: 0 <= x < p ==> answers[x] == Found)
    && (forall x :: p <= x < m ==> answers[x].Report? && answers[x] == answers[p])
    && (forall x :: m <= x < q ==> answers[x].InternalError? && answers[x] == answers[m])
    && (forall x :: q <= x < |answers| ==> answers[x] == NotFound)
  }

  lemma OrderlyIfPairwise(answers: seq<Response>, unheard: bool)
    requires forall i, j :: 0 <= i <= j < |answers| ==> Follows(answers[i], answers[j], unheard)
    ensures Orderly(answers, unheard)
  {
    var p, m, q := FirstOf(answers, 1), FirstOf(answers, 2), FirstOf(answers, 3);
    forall x | 0 <= x < |answers|
      ensures x < p <==> Rank(answers[x]) < 1
      ensures x < m <==> Rank(answers[x]) < 2
      ensures x < q <==> Rank(answers[x]) < 3
    {
      FirstOfSplits(answers, 1, x);
      FirstOfSplits(answers, 2, x);
      FirstOfSplits(answers, 3, x);
    }
    FirstOfMonotone(answers, 1, 2);
    FirstOfMonotone(answers, 2, 3);
    assert InPhases(answers, p, m, q);
    if p < m < q {
      assert Follows(answers[p], answers[m], unheard);
    }
  }

  lemma ResponseOf(cfg: Config, s: State, id: string)
    requires Inv(cfg, s) && id in s.jobs
    ensures PollResponse(cfg, s, id, Delivered) == ReportResponse(Ok(Readable(cfg, s, id)))
    ensures Readable(cfg, s, id).Some? ==> !Readable(cfg, s, id).value.status.Other?
  {
    ReadableIsContent(cfg, s, id);
    assert JobInv(cfg, id, s.jobs[id], EntryOf(cfg, s, id), s.now, s.clair);
  }

  /** In any reachable state, what a poll that gets through is told of a job's record. */
  lemma PollTellsTheRecord(cfg: Config, s: State, id: string)
    requires Inv(cfg, s) && id in s.jobs
    ensures var told, r := PollResponse(cfg, s, id, Delivered), Readable(cfg, s, id);
            && (told == NotFound <==> !Live(EntryOf(cfg, s, id), s.now))
            && (told == NotFound <==> r == None)
            && (told == Found <==> r.Some? && (r.value.status == Pending || r.value.status == Running))
            && (r.Some? && r.value.status == Finished ==> told == Report(r.value.report))
            && (r.Some? && r.value.status == Failed ==> told == InternalError(r.value.error))
            && (told.Report? ==> r.Some? && r.value.status == Finished)
            && (told.InternalError? ==> r.Some? && r.value.status == Failed)
  {
    hide EncodeJob, DecodeJob;
    ResponseOf(cfg, s, id);
    ReadableIsContent(cfg, s, id);
  }

  lemma ForwardFollows(a: Option<ScanJob>, b: Option<ScanJob>, unheard: bool)
    requires Forward(a, b, unheard)
    requires a.Some? ==> !a.value.status.Other?
    requires b.Some? ==> !b.value.status.Other?
    ensures Follows(ReportResponse(Ok(a)), ReportResponse(Ok(b)), unheard)
  {
  }

  /** The answers to all polls of an accepted job that reached the store, in order. */
  lemma PollsAreOrderly(cfg: Config, states: seq<State>, events: seq<Event>, from: nat, polls: seq<nat>, id: string)
    requires IsRun(cfg, states, events) && from < |states|
    requires id in states[from].jobs && states[from].jobs[id].caller.Answered?
    requires forall x :: 0 <= x < |polls| ==> from <= polls[x] < |events| && events[polls[x]] == Poll(id, Delivered)
    requires forall x, y :: 0 <= x < y < |polls| ==> polls[x] < polls[y]
    ensures id in states[|events|].jobs
    ensures Orderly(seq(|polls|, x requires 0 <= x < |polls| => PollResponse(cfg, states[polls[x]], id, Delivered)),
                    states[|events|].jobs[id].unheard)
  {
    hide Inv;
    RecordsOnlyAdvance(cfg, states, events, from, |events|, id);
    var unheard := states[|events|].jobs[id].unheard;
    var answers := seq(|polls|, x requires 0 <= x < |polls| => PollResponse(cfg, states[polls[x]], id, Delivered));
    forall x, y | 0 <= x <= y < |answers|
      ensures Follows(answers[x], answers[y], unheard)
    {
      RecordsOnlyAdvance(cfg, states, events, from, polls[x], id);
      RecordsOnlyAdvance(cfg, states, events, polls[x], polls[y], id);
      RecordsOnlyAdvance(cfg, states, events, polls[y], |events|, id);
      RunKeepsInv(cfg, states, events, polls[x]);
      RunKeepsInv(cfg, states, events, polls[y]);
      ResponseOf(cfg, states[polls[x]], id);
      ResponseOf(cfg, states[polls[y]], id);
      ForwardFollows(Readable(cfg, states[polls[x]], id), Readable(cfg, states[polls[y]], id), states[polls[y]].jobs[id].unheard);
    }
    OrderlyIfPairwise(answers, unheard);
  }

  // ----- How long a record lives

  /** At most four writes land on a job's key, five when its SET of Finished was applied although it reported an error. */
  lemma WritesAreBounded(cfg: Config, states: seq<State>, events: seq<Event>, k: nat, id: string)
    requires IsRun(cfg, states, events) && k < |states| && id in states[k].jobs
    ensures states[k].jobs[id].writes <= if states[k].jobs[id].unheard then 5 else 4
  {
    RunKeepsInv(cfg, states, events, k);
    var s := states[k];
    assert JobInv(cfg, id, s.jobs[id], EntryOf(cfg, s, id), s.now, s.clair);
  }

  lemma {:induction false} SpanIsProduct(n: nat, ttl: nat)
    ensures Span(n, ttl) == n * ttl
  {
    if n > 0 {
      SpanIsProduct(n - 1, ttl);
    }
  }

  lemma ExpiryBound(cfg: Config, id: string, j: Job, e: Option<Entry>, now: nat, clair: set<Link>)
    requires JobInv(cfg, id, j, e, now, clair) && Live(e, now)
    ensures now <= j.createdAt + (if j.unheard then 5 else 4) * TtlMillis(cfg.ttlNanos)
  {
    hide Faithful, Plausible, Carries, AllSurvive, CallBound, CallerFits, EncodeJob, TtlMillis;
    var ttl := TtlMillis(cfg.ttlNanos);
    assert j.writes <= WriteBound(j) <= if j.unheard then 5 else 4;
    SpanMonotone(j.writes - 1, if j.unheard then 4 else 3, ttl);
    SpanIsProduct(3, ttl);
    SpanIsProduct(4, ttl);
  }

  lemma CreateDatesJob(cfg: Config, s: State, id: string, fate: Fate)
    requires Inv(cfg, s) && Enabled(cfg, s, Create(id, fate))
    ensures var s' := Apply(cfg, s, Create(id, fate));
            && id in s'.jobs && !s'.jobs[id].caller.Creating?
            && (Readable(cfg, s', id).Some? ==> s'.jobs[id].createdAt == s.now)
  {
    assert JobInv(cfg, id, s.jobs[id], EntryOf(cfg, s, id), s.now, s.clair);
  }

  /** A record created at step i is gone four expiry periods later, in that one case five. */
  lemma RecordsExpire(cfg: Config, states: seq<State>, events: seq<Event>, i: nat, k: nat, id: string)
    requires IsRun(cfg, states, events) && i < |events| && i < k < |states|
    requires events[i].Create? && events[i].id == id
    requires id in states[k].jobs && Live(EntryOf(cfg, states[k], id), states[k].now)
    ensures states[k].now <= states[i].now + (if states[k].jobs[id].unheard then 5 else 4) * TtlMillis(cfg.ttlNanos)
  {
    RunKeepsInv(cfg, states, events, i);
    CreateDatesJob(cfg, states[i], id, events[i].fate);
    RecordsOnlyAdvance(cfg, states, events, i + 1, k, id);
    RunKeepsInv(cfg, states, events, k);
    ReadableIsContent(cfg, states[k], id);
    assert JobInv(cfg, id, states[k].jobs[id], EntryOf(cfg, states[k], id), states[k].now, states[k].clair);
    ExpiryBound(cfg, id, states[k].jobs[id], EntryOf(cfg, states[k], id), states[k].now, states[k].clair);
  }

  // ----- Clair

  /** A layer is posted only when Clair has its parent, and the report is asked for the last layer of a chain Clair has. */
  lemma ParentsBeforeChildren(cfg: Config, states: seq<State>, events: seq<Event>, i: nat)
    requires IsRun(cfg, states, events) && i < |events| && events[i].Work?
    ensures var s, id := states[i], events[i].id;
            && ParentClosed(s.clair)
            && s.jobs[id].point.Active()
            && match CallAt(cfg, id, s.jobs[id].request, s.jobs[id].point)
               case ScanLayer(l) => l.parentName == "" || exists p :: p in s.clair && p.name == l.parentName
               case GetLayer(name) =>
                 ChainAccepted(cfg, s.jobs[id], s.clair)
                 && name == Layers(cfg, s.jobs[id])[|Layers(cfg, s.jobs[id])| - 1].name
               case _ => true
  {
    hide Faithful, Plausible, CallBound, WriteBound, EntryMatches, CallerFits;
    RunKeepsInv(cfg, states, events, i);
    var s, id := states[i], events[i].id;
    var j := s.jobs[id];
    assert JobInv(cfg, id, j, EntryOf(cfg, s, id), s.now, s.clair);
    if j.point.Posting? {
      var n := j.point.next;
      LayersAreChained(cfg.sha, j.request, j.references.value, n);
      if n > 0 {
        assert LinkOf(Layers(cfg, j)[n - 1]) in s.clair;
      }
    }
  }

  // ----- The pool

  lemma SubmittedOnce(s: State, id: string)
    requires PoolFits(s) && (id in s.jobs ==> CallerFits(s.jobs[id]))
    ensures s.pool.submitted[id] <= 1
  {
    var p := s.pool;
    assert PlaceFits(s, id);
    assert p.submitted[id] == p.offered[id] + Pool.Held(p)[id] + p.running[id] + p.done[id];
    assert Pool.Held(p)[id] == if p.held == Some(id) then 1 else 0;
  }

  /** Workers submitted are waiting, held by the dispatcher, running or done, each in one place and once. */
  lemma PoolConserves(cfg: Config, states: seq<State>, events: seq<Event>, k: nat)
    requires IsRun(cfg, states, events) && k < |states|
    ensures Pool.Conserved(states[k].pool)
    ensures forall id :: states[k].pool.submitted[id] <= 1
  {
    RunKeepsInv(cfg, states, events, k);
    forall id ensures states[k].pool.submitted[id] <= 1 {
      if id in states[k].jobs {
        CallersFit(cfg, states[k], id);
      }
      SubmittedOnce(states[k], id);
    }
  }

  /** No worker's Task starts twice. */
  lemma TasksStartOnce(cfg: Config, states: seq<State>, events: seq<Event>, i: nat, k: nat)
    requires IsRun(cfg, states, events) && i < k < |events| && events[i].Spawn? && events[k].Spawn?
    ensures states[i].pool.held != states[k].pool.held
  {
    var id := states[i].pool.held.value;
    RunKeepsInv(cfg, states, events, i);
    RunKeepsInv(cfg, states, events, k);
    assert PlaceFits(states[i], id) && PlaceFits(states[k], id);
    RecordsOnlyAdvance(cfg, states, events, i + 1, k, id);
  }

  lemma BecomesAnswered(cfg: Config, s: State, e: Event, id: string)
    requires Enabled(cfg, s, e) && id in Apply(cfg, s, e).jobs && Apply(cfg, s, e).jobs[id].caller.Answered?
    requires !(id in s.jobs && s.jobs[id].caller.Answered?)
    ensures e == Receive(id) && id in s.pool.offered
  {
  }

  lemma OnlyCreateSubmits(cfg: Config, s: State, e: Event, id: string)
    requires Enabled(cfg, s, e)
    requires id in Apply(cfg, s, e).jobs && Apply(cfg, s, e).jobs[id].caller.Submitting?
    requires !(id in s.jobs && s.jobs[id].caller.Submitting?)
    ensures e.Create? && e.id == id
  {
  }

  lemma BecomesSubmitting(cfg: Config, s: State, id: string, fate: Fate)
    requires Inv(cfg, s) && Enabled(cfg, s, Create(id, fate))
    requires Apply(cfg, s, Create(id, fate)).jobs[id].caller.Submitting?
    ensures Readable(cfg, Apply(cfg, s, Create(id, fate)), id) == Some(PendingJob(id))
  {
    assert JobInv(cfg, id, s.jobs[id], EntryOf(cfg, s, id), s.now, s.clair);
    JobRoundTrip(PendingJob(id));
  }

  lemma {:induction false} SubmittedAfterCreate(cfg: Config, states: seq<State>, events: seq<Event>, k: nat, id: string) returns (c: nat)
    requires IsRun(cfg, states, events) && k < |states|
    requires id in states[k].jobs && states[k].jobs[id].caller.Submitting?
    ensures c < k && events[c].Create? && events[c].id == id && Readable(cfg, states[c + 1], id) == Some(PendingJob(id))
  {
    hide JobInv, Readable;
    if id in states[k - 1].jobs && states[k - 1].jobs[id].caller.Submitting? {
      c := SubmittedAfterCreate(cfg, states, events, k - 1, id);
    } else {
      c := k - 1;
      RunKeepsInv(cfg, states, events, c);
      OnlyCreateSubmits(cfg, states[c], events[c], id);
      BecomesSubmitting(cfg, states[c], id, events[c].fate);
    }
  }

  lemma OfferedIsSubmitting(cfg: Config, s: State, id: string)
    requires Inv(cfg, s) && id in s.pool.offered
    ensures id in s.jobs && s.jobs[id].caller.Submitting?
  {
    hide JobInv, Pool.Conserved;
    assert PlaceFits(s, id) && s.pool.offered[id] > 0;
  }

  /** A job whose ID was returned had its record created, and after that its worker received. */
  lemma {:induction false} AnsweredAfterCreateAndReceive(cfg: Config, states: seq<State>, events: seq<Event>, k: nat, id: string)
      returns (c: nat, r: nat)
    requires IsRun(cfg, states, events) && k < |states|
    requires id in states[k].jobs && states[k].jobs[id].caller.Answered?
    ensures c < r < k && events[r] == Receive(id)
    ensures events[c].Create? && events[c].id == id && Readable(cfg, states[c + 1], id) == Some(PendingJob(id))
  {
    hide JobInv, Readable, Inv, Apply, Enabled, EncodeJob, DecodeJob;
    if id in states[k - 1].jobs && states[k - 1].jobs[id].caller.Answered? {
      c, r := AnsweredAfterCreateAndReceive(cfg, states, events, k - 1, id);
    } else {
      r := k - 1;
      BecomesAnswered(cfg, states[r], events[r], id);
      RunKeepsInv(cfg, states, events, r);
      OfferedIsSubmitting(cfg, states[r], id);
      c := SubmittedAfterCreate(cfg, states, events, r, id);
    }
  }

  // ----- Shutdown

  /** Shutdown waits for nothing: it is possible once whoever runs, and leaves everyone where they are. */
  lemma ShutdownDoesNotWait(cfg: Config, s: State)
    ensures Enabled(cfg, s, Shutdown) <==> !s.pool.stopping
    ensures Enabled(cfg, s, Shutdown) ==> Apply(cfg, s, Shutdown) == s.(pool := s.pool.(stopping := true))
  {
  }

  /** After it, a waiting worker can be received just as before, as long as the dispatcher has not left. */
  lemma ReceiveAfterShutdown(cfg: Config, s: State, id: string)
    requires Inv(cfg, s) && Enabled(cfg, s, Shutdown)
    ensures Enabled(cfg, Apply(cfg, s, Shutdown), Receive(id))
       <==> s.pool.dispatching && s.pool.held == None && id in s.pool.offered
  {
    hide JobInv, Pool.Conserved;
    assert PlaceFits(s, id);
  }

  /** The process dies of this step. */
  ghost predicate Kills(cfg: Config, s: State, e: Event)
    requires Enabled(cfg, s, e)
  {
    e.Die? || (e.Work? && AfterCall(cfg, e.id, s.now, ViewOf(cfg, s, e.id), e.answer, e.fate).job.point.Crashed?)
  }

  ghost predicate KilledBetween(cfg: Config, states: seq<State>, events: seq<Event>, i: nat, k: nat)
    requires IsRun(cfg, states, events) && k < |states|
  {
    exists j :: i < j < k && Kills(cfg, states[j], events[j])
  }

  /** A submitter the dispatcher has left behind: still blocked in Run, or gone with its process. */
  ghost predicate Stranded(s: State, id: string, killed: bool) {
    id in s.jobs && if killed then s.jobs[id].caller.Gone? else s.jobs[id].caller.Submitting? && !s.pool.dispatching
  }

  lemma CallKeepsCaller(cfg: Config, id: string, now: nat, v: View, answer: Answer, fate: Fate)
    requires CanWork(cfg, id, now, v, answer, fate)
    ensures AfterCall(cfg, id, now, v, answer, fate).job.caller == v.job.caller
  {
  }

  lemma StrandedStays(cfg: Config, s: State, e: Event, id: string, killed: bool)
    requires Inv(cfg, s) && Enabled(cfg, s, e) && Stranded(s, id, killed)
    ensures Stranded(Apply(cfg, s, e), id, killed || Kills(cfg, s, e))
    ensures !killed ==> !e.Receive?
  {
    hide JobInv, CanWork, AfterCall, AfterCreate, Pool.Conserved;
    assert PlaceFits(s, id);
    if e.Work? {
      CallKeepsCaller(cfg, e.id, s.now, ViewOf(cfg, s, e.id), e.answer, e.fate);
    }
  }

  /**
   Whoever is still waiting when the dispatcher leaves is never answered: they stay
   blocked until the process dies, and exactly then are gone.
   */
  lemma {:induction false} LeftBehind(cfg: Config, states: seq<State>, events: seq<Event>, i: nat, k: nat, id: string)
    requires IsRun(cfg, states, events) && i < k < |states| && events[i].Exit?
    requires id in states[i].jobs && states[i].jobs[id].caller.Submitting?
    ensures Stranded(states[k], id, KilledBetween(cfg, states, events, i, k))
  {
    hide Inv, Kills, Stranded, Enabled, Apply;
    if k == i + 1 {
      ExitStrands(cfg, states[i], id, events[i]);
    } else {
      LeftBehind(cfg, states, events, i, k - 1, id);
      RunKeepsInv(cfg, states, events, k - 1);
      StrandedStays(cfg, states[k - 1], events[k - 1], id, KilledBetween(cfg, states, events, i, k - 1));
    }
  }

  lemma ExitStrands(cfg: Config, s: State, id: string, e: Event)
    requires Enabled(cfg, s, e) && e.Exit? && id in s.jobs && s.jobs[id].caller.Submitting?
    ensures Stranded(Apply(cfg, s, e), id, false)
  {
  }

  /** And between that and the next death of the process nobody is received at all. */
  lemma {:induction false} NobodyReceived(cfg: Config, states: seq<State>, events: seq<Event>, i: nat, k: nat)
    requires IsRun(cfg, states, events) && i < k < |states| && events[i].Exit?
    requires !KilledBetween(cfg, states, events, i, k)
    ensures !states[k].pool.dispatching && (k < |events| ==> !events[k].Receive?)
  {
    if k > i + 1 {
      NobodyReceived(cfg, states, events, i, k - 1);
      StaysClosed(cfg, states[k - 1], events[k - 1]);
    }
  }

  lemma StaysClosed(cfg: Config, s: State, e: Event)
    requires Enabled(cfg, s, e) && !s.pool.dispatching && !Kills(cfg, s, e)
    ensures !Apply(cfg, s, e).pool.dispatching
  {
    hide CanWork, AfterCall, AfterCreate;
  }
}
