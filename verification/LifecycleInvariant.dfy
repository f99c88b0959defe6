/** What every reachable state keeps: an inductive invariant of the whole system. */
module LifecycleInvariant {
  import opened Harbor
  import opened Lifecycle
  import opened Protocol
  import opened Redis
  import opened Transformer
  import opened Worker
  import opened Wrappers
  import Pool

  /** n expiry periods. */
  function Span(n: nat, ttl: nat): nat {
    if n == 0 then 0 else ttl + Span(n - 1, ttl)
  }

  lemma {:induction false} SpanMonotone(m: nat, n: nat, ttl: nat)
    requires m <= n
    ensures Span(m, ttl) <= Span(n, ttl)
    decreases n - m
  {
    if m < n {
      SpanMonotone(m + 1, n, ttl);
    }
  }

  function OwnReport(j: Job): Option<ScanReport> {
    match j.clairReply
    case None => None
    case Some((layer, at)) => Some(ReportOf(at, j.request.artifact, layer))
  }

  function Layers(cfg: Config, j: Job): seq<Layer> {
    match j.references
    case None => []
    case Some(references) => LayersOf(cfg.sha, j.request, references)
  }

  function RunningJob(id: string): ScanJob {
    PendingJob(id).(status := Running)
  }

  /**
   What the record says at each point of its worker, as long as no write has been
   missed. A record held for writing is the one still in the store, changed.
   */
  ghost predicate Faithful(id: string, j: Job) {
    match j.point
    case Idle => j.content == PendingJob(id)
    case Reading(u) => Before(id, j, u)
    case Writing(u, record) => Before(id, j, u) && record == u.Of(j.content)
    case Fetching => j.content == RunningJob(id)
    case Posting(_, _) => j.content == RunningJob(id)
    case Asking(_) => j.content == RunningJob(id)
    case _ => true
  }

  ghost predicate Before(id: string, j: Job, u: Update) {
    match u
    case MarkRunning => j.content == PendingJob(id)
    case AddReport(_) => j.content == RunningJob(id)
    case MarkFinished => OwnReport(j).Some? && j.content == RunningJob(id).(report := OwnReport(j).value)
    case MarkFailed(_) => !j.content.status.Failed? && (j.content.status.Finished? ==> j.unheard)
  }

  /** What a record can say at all. */
  ghost predicate Plausible(id: string, j: Job) {
    var c := j.content;
    && c.id == id
    && (c.report == EMPTY_REPORT || Some(c.report) == OwnReport(j))
    && match c.status
       case Pending => c == PendingJob(id)
       case Running => c.error == ""
       case Finished => c.error == "" && Some(c.report) == OwnReport(j)
       case Failed => Some(c.error) == j.failure
       case Other(_) => false
  }

  /** The most writes that can have landed at a point, and the most calls that can have been made. */
  function WriteBound(j: Job): nat {
    match j.point
    case Idle => 1
    case Reading(u) => UpdateBound(j, u)
    case Writing(u, _) => UpdateBound(j, u)
    case Fetching => 2
    case Posting(_, _) => 2
    case Asking(_) => 2
    case _ => if j.unheard then 5 else 4
  }

  function UpdateBound(j: Job, u: Update): nat {
    match u
    case MarkRunning => 1
    case AddReport(_) => 2
    case MarkFinished => 3
    case MarkFailed(_) => if j.unheard then 4 else 3
  }

  function CallBound(cfg: Config, j: Job): nat {
    var n := |Layers(cfg, j)|;
    match j.point
    case Idle => 0
    case Reading(u) => ReadBound(n, u)
    case Writing(u, _) => ReadBound(n, u) + 1
    case Fetching => 2
    case Posting(_, next) => 3 + next
    case Asking(_) => 3 + n
    case _ => 10 + n
  }

  function ReadBound(layers: nat, u: Update): nat {
    match u
    case MarkRunning => 0
    case AddReport(_) => 4 + layers
    case MarkFinished => 6 + layers
    case MarkFailed(_) => 8 + layers
  }

  ghost predicate AcceptedUpTo(cfg: Config, j: Job, n: nat, clair: set<Link>) {
    n <= |Layers(cfg, j)| && forall k :: 0 <= k < n ==> LinkOf(Layers(cfg, j)[k]) in clair
  }

  /** The whole chain is with Clair, and the layer asked for was its last. */
  ghost predicate ChainAccepted(cfg: Config, j: Job, clair: set<Link>) {
    Layers(cfg, j) != [] && AcceptedUpTo(cfg, j, |Layers(cfg, j)|, clair)
  }

  /** What a worker carries, point by point. */
  ghost predicate Carries(cfg: Config, j: Job, clair: set<Link>) {
    match j.point
    case Reading(u) => Holding(j, u)
    case Writing(u, record) => Holding(j, u)
    case Posting(layers, next) =>
      j.references.Some? && layers == Layers(cfg, j) && next < |layers| && AcceptedUpTo(cfg, j, next, clair)
    case Asking(name) =>
      j.references.Some? && ChainAccepted(cfg, j, clair) && name == Layers(cfg, j)[|Layers(cfg, j)| - 1].name
    case _ => true
  }

  ghost predicate Holding(j: Job, u: Update) {
    match u
    case MarkRunning => true
    case AddReport(report) => OwnReport(j) == Some(report)
    case MarkFinished => true
    case MarkFailed(message) => j.failure == Some(message)
  }

  /** Scanning is not yet over: no report, no failure. */
  predicate Early(p: Point) {
    p.Idle? || p.Fetching? || p.Posting? || p.Asking? || ((p.Reading? || p.Writing?) && p.update.MarkRunning?)
  }

  predicate Failing(p: Point) {
    (p.Reading? || p.Writing?) && p.update.MarkFailed?
  }

  ghost predicate History(cfg: Config, id: string, j: Job, clair: set<Link>) {
    && Plausible(id, j)
    && AllSurvive(j.content.report)
    && Carries(cfg, j, clair)
    && (j.point.Writing? ==> j.point.record.id == id)
    && (Early(j.point) ==> j.clairReply == None)
    && (j.point.Active() && !Failing(j.point) ==> j.failure == None)
    && (j.point.Idle? || j.point.Fetching? || ((j.point.Reading? || j.point.Writing?) && j.point.update.MarkRunning?) ==> j.references == None)
    && (j.clairReply.Some? ==> ChainAccepted(cfg, j, clair))
    && (j.point.Idle? ==> j.failure == None && !j.unheard)
    && j.writes <= WriteBound(j)
    && j.steps <= CallBound(cfg, j)
  }

  /** The entry at a job's key is the last record written, with the expiry of that write. */
  ghost predicate EntryMatches(cfg: Config, j: Job, e: Option<Entry>, now: nat) {
    var ttl := TtlMillis(cfg.ttlNanos);
    && (e.Some? <==> j.writes > 0)
    && j.createdAt <= j.lastWrite <= now
    && (e.Some? ==>
          && ExpirySeconds(cfg.ttlNanos) > 0
          && e.value == Entry(Json(EncodeJob(j.content)), j.lastWrite + ttl)
          && j.lastWrite <= j.createdAt + Span(j.writes - 1, ttl))
  }

  ghost predicate CallerFits(j: Job) {
    && (j.caller.Creating? ==> j.point.Idle? && j.writes == 0)
    && (j.caller.Rejected? ==> j.point.Idle? || j.point.Lost?)
    && (j.caller.Submitting? ==> j.point.Idle? && j.writes == 1)
    && (j.caller.Answered? ==> j.writes > 0)
    && (j.caller.Gone? ==> j.point.Lost?)
  }

  ghost predicate JobInv(cfg: Config, id: string, j: Job, e: Option<Entry>, now: nat, clair: set<Link>) {
    && History(cfg, id, j, clair)
    && EntryMatches(cfg, j, e, now)
    && CallerFits(j)
    && (Live(e, now) ==> Faithful(id, j))
  }

  /** Where the pool has a worker is where its job says it is. */
  ghost predicate PlaceFits(s: State, id: string) {
    && s.pool.offered[id] == (if id in s.jobs && s.jobs[id].caller.Submitting? then 1 else 0)
    && s.pool.running[id] == (if id in s.jobs && s.jobs[id].point.Active() then 1 else 0)
    && s.pool.done[id] <= (if id in s.jobs && s.jobs[id].point.Ended? then 1 else 0)
    && (s.pool.held == Some(id) <==> id in s.jobs && s.jobs[id].caller.Answered? && s.jobs[id].point.Idle?)
  }

  ghost predicate PoolFits(s: State) {
    && Pool.Conserved(s.pool)
    && forall id :: PlaceFits(s, id)
  }

  ghost predicate JobsFit(cfg: Config, s: State) {
    forall id :: id in s.jobs ==> JobInv(cfg, id, s.jobs[id], EntryOf(cfg, s, id), s.now, s.clair)
  }

  ghost predicate Inv(cfg: Config, s: State) {
    && JobsFit(cfg, s)
    && ParentClosed(s.clair)
    && PoolFits(s)
  }

  // ----- One job

  lemma LaterKeepsJob(cfg: Config, id: string, j: Job, e: Option<Entry>, now: nat, clair: set<Link>, now': nat, clair': set<Link>)
    requires JobInv(cfg, id, j, e, now, clair)
    requires now <= now' && clair <= clair'
    ensures JobInv(cfg, id, j, e, now', clair')
  {
  }

  lemma KillKeepsHistory(cfg: Config, id: string, j: Job, clair: set<Link>)
    requires History(cfg, id, j, clair)
    ensures History(cfg, id, Killed(j), clair)
  {
    assert Layers(cfg, Killed(j)) == Layers(cfg, j);
    assert OwnReport(Killed(j)) == OwnReport(j);
    if j.point.Posting? {
      assert CallBound(cfg, j) <= CallBound(cfg, Killed(j));
    }
  }

  lemma KillKeepsJob(cfg: Config, id: string, j: Job, e: Option<Entry>, now: nat, clair: set<Link>)
    requires JobInv(cfg, id, j, e, now, clair)
    ensures JobInv(cfg, id, Killed(j), e, now, clair)
  {
    hide History;
    KillKeepsHistory(cfg, id, j, clair);
  }

  lemma CreateKeepsJob(cfg: Config, id: string, now: nat, v: View, fate: Fate)
    requires JobInv(cfg, id, v.job, v.entry, now, v.clair)
    requires v.job.caller.Creating?
    ensures var w := AfterCreate(cfg, id, now, v, fate);
            JobInv(cfg, id, w.job, w.entry, now, w.clair)
  {
  }

  lemma {:induction false} LastLayerAccepted(cfg: Config, j: Job, n: nat, clair: set<Link>, clair': set<Link>)
    requires AcceptedUpTo(cfg, j, n, clair) && n < |Layers(cfg, j)|
    requires clair + {LinkOf(Layers(cfg, j)[n])} <= clair'
    ensures AcceptedUpTo(cfg, j, n + 1, clair')
  {
  }

  /** A call moves the record and its worker together, unless the write could not land. */
  lemma CallStaysFaithful(cfg: Config, id: string, now: nat, v: View, answer: Answer, fate: Fate)
    requires History(cfg, id, v.job, v.clair) && EntryMatches(cfg, v.job, v.entry, now)
    requires CanWork(cfg, id, now, v, answer, fate)
    requires Faithful(id, v.job)
    requires CallAt(cfg, id, v.job.request, v.job.point).Store? ==> Live(v.entry, now)
    ensures Faithful(id, AfterCall(cfg, id, now, v, answer, fate).job)
  {
    hide Digests, LayersFor, ReportOf, Plausible, CallBound, WriteBound;
    JobRoundTrip(v.job.content);
  }

  lemma ReadKeepsHistory(cfg: Config, id: string, now: nat, v: View, answer: Answer, fate: Fate)
    requires JobInv(cfg, id, v.job, v.entry, now, v.clair)
    requires v.job.point.Reading?
    requires CanWork(cfg, id, now, v, answer, fate)
    ensures var w := AfterCall(cfg, id, now, v, answer, fate);
            History(cfg, id, w.job, w.clair)
  {
    hide Digests, LayersFor, ReportOf, Faithful;
    var w := AfterCall(cfg, id, now, v, answer, fate).job;
    assert Layers(cfg, w) == Layers(cfg, v.job);
    assert OwnReport(w) == OwnReport(v.job);
    assert w.content == v.job.content && w.writes == v.job.writes;
  }

  /** The record about to be written is as plausible as the one it replaces. */
  lemma WritePlausible(id: string, j: Job)
    requires j.point.Writing? && Faithful(id, j) && Plausible(id, j) && AllSurvive(j.content.report)
    requires Holding(j, j.point.update)
    ensures Plausible(id, j.(content := j.point.record))
    ensures AllSurvive(j.point.record.report)
  {
    if OwnReport(j).Some? {
      var (layer, at) := j.clairReply.value;
      OverallAgreesWithItems(at, j.request.artifact, layer);
    }
  }

  lemma WriteKeepsHistory(cfg: Config, id: string, now: nat, v: View, answer: Answer, fate: Fate)
    requires JobInv(cfg, id, v.job, v.entry, now, v.clair)
    requires v.job.point.Writing?
    requires CanWork(cfg, id, now, v, answer, fate)
    ensures var w := AfterCall(cfg, id, now, v, answer, fate);
            History(cfg, id, w.job, w.clair)
  {
    hide Digests, LayersFor, ReportOf;
    var j := v.job;
    var w := AfterCall(cfg, id, now, v, answer, fate).job;
    assert Layers(cfg, w) == Layers(cfg, j);
    assert OwnReport(w) == OwnReport(j);
    if w.writes > j.writes {
      WritePlausible(id, j);
    }
    assert w.content == j.content || w.content == j.point.record;
    assert Plausible(id, w);
  }

  lemma ScanCallKeepsHistory(cfg: Config, id: string, now: nat, v: View, answer: Answer, fate: Fate)
    requires JobInv(cfg, id, v.job, v.entry, now, v.clair)
    requires v.job.point.Fetching? || v.job.point.Posting? || v.job.point.Asking?
    requires CanWork(cfg, id, now, v, answer, fate)
    ensures var w := AfterCall(cfg, id, now, v, answer, fate);
            History(cfg, id, w.job, w.clair)
  {
    hide Digests, LayersFor, ReportOf, Faithful;
    var j := v.job;
    var w := AfterCall(cfg, id, now, v, answer, fate);
    if j.point.Asking? && answer.LayerIs? && answer.layer.Some? {
      OverallAgreesWithItems(answer.at, j.request.artifact, answer.layer.value);
    }
    if j.point.Posting? && answer.Accepted? {
      LastLayerAccepted(cfg, j, j.point.next, v.clair, w.clair);
    }
  }

  lemma CallKeepsHistory(cfg: Config, id: string, now: nat, v: View, answer: Answer, fate: Fate)
    requires JobInv(cfg, id, v.job, v.entry, now, v.clair)
    requires CanWork(cfg, id, now, v, answer, fate)
    ensures var w := AfterCall(cfg, id, now, v, answer, fate);
            History(cfg, id, w.job, w.clair)
  {
    if v.job.point.Reading? {
      ReadKeepsHistory(cfg, id, now, v, answer, fate);
    } else if v.job.point.Writing? {
      WriteKeepsHistory(cfg, id, now, v, answer, fate);
    } else {
      ScanCallKeepsHistory(cfg, id, now, v, answer, fate);
    }
  }

  lemma CallKeepsEntry(cfg: Config, id: string, now: nat, v: View, answer: Answer, fate: Fate)
    requires JobInv(cfg, id, v.job, v.entry, now, v.clair)
    requires CanWork(cfg, id, now, v, answer, fate)
    ensures var w := AfterCall(cfg, id, now, v, answer, fate);
            EntryMatches(cfg, w.job, w.entry, now)
  {
    hide History, Faithful, CallerFits, Resume, EncodeJob, DecodeJob, LayersOf, ReportOf;
    var ttl := TtlMillis(cfg.ttlNanos);
    if v.job.writes > 0 {
      assert Span(v.job.writes, ttl) == ttl + Span(v.job.writes - 1, ttl);
    }
  }

  lemma CallKeepsJob(cfg: Config, id: string, now: nat, v: View, answer: Answer, fate: Fate)
    requires JobInv(cfg, id, v.job, v.entry, now, v.clair)
    requires v.job.caller.Answered?
    requires CanWork(cfg, id, now, v, answer, fate)
    ensures var w := AfterCall(cfg, id, now, v, answer, fate);
            JobInv(cfg, id, w.job, w.entry, now, w.clair) && v.clair <= w.clair
  {
    CallKeepsHistory(cfg, id, now, v, answer, fate);
    CallKeepsEntry(cfg, id, now, v, answer, fate);
    var w := AfterCall(cfg, id, now, v, answer, fate);
    if Live(w.entry, now) {
      assert Live(v.entry, now);
      CallStaysFaithful(cfg, id, now, v, answer, fate);
    }
  }

  // ----- The system

  /** A step of one job leaves every other job's key alone. */
  lemma OtherEntriesUnchanged(cfg: Config, s: State, id: string, v: View, other: string)
    requires other != id
    ensures EntryOf(cfg, WithView(cfg, s, id, v), other) == EntryOf(cfg, s, other)
  {
    JobKeyInjective(cfg.namespace, id, other);
  }

  lemma ViewKeepsJobs(cfg: Config, s: State, id: string, v: View)
    requires JobsFit(cfg, s) && id in s.jobs
    requires JobInv(cfg, id, v.job, v.entry, s.now, v.clair) && s.clair <= v.clair
    ensures JobsFit(cfg, WithView(cfg, s, id, v))
  {
    var s' := WithView(cfg, s, id, v);
    forall other | other in s'.jobs
      ensures JobInv(cfg, other, s'.jobs[other], EntryOf(cfg, s', other), s'.now, s'.clair)
    {
      if other == id {
        assert EntryOf(cfg, s', id) == v.entry;
      } else {
        OtherEntriesUnchanged(cfg, s, id, v, other);
        LaterKeepsJob(cfg, other, s.jobs[other], EntryOf(cfg, s, other), s.now, s.clair, s.now, v.clair);
      }
    }
  }

  lemma KillKeepsInv(cfg: Config, s: State)
    requires JobsFit(cfg, s) && ParentClosed(s.clair)
    ensures Inv(cfg, AllKilled(s))
  {
    hide JobInv;
    var s' := AllKilled(s);
    forall id | id in s'.jobs
      ensures JobInv(cfg, id, s'.jobs[id], EntryOf(cfg, s', id), s'.now, s'.clair)
    {
      KillKeepsJob(cfg, id, s.jobs[id], EntryOf(cfg, s, id), s.now, s.clair);
    }
  }

  lemma TickKeepsInv(cfg: Config, s: State, elapsed: nat)
    requires Inv(cfg, s)
    ensures Inv(cfg, Apply(cfg, s, Tick(elapsed)))
  {
    var s' := Apply(cfg, s, Tick(elapsed));
    forall id | id in s'.jobs
      ensures JobInv(cfg, id, s'.jobs[id], EntryOf(cfg, s', id), s'.now, s'.clair)
    {
      LaterKeepsJob(cfg, id, s.jobs[id], EntryOf(cfg, s, id), s.now, s.clair, s'.now, s.clair);
    }
    forall id ensures PlaceFits(s', id) {
      assert PlaceFits(s, id);
    }
  }

  lemma NewJobFits(cfg: Config, id: string, request: ScanRequest, now: nat, clair: set<Link>)
    ensures JobInv(cfg, id, NewJob(id, request, now), None, now, clair)
  {
  }

  lemma RequestKeepsInv(cfg: Config, s: State, id: string, request: ScanRequest)
    requires Inv(cfg, s) && Enabled(cfg, s, Request(id, request))
    ensures Inv(cfg, Apply(cfg, s, Request(id, request)))
  {
    hide JobInv;
    var s' := Apply(cfg, s, Request(id, request));
    NewJobFits(cfg, id, request, s.now, s.clair);
    forall other | other in s'.jobs
      ensures JobInv(cfg, other, s'.jobs[other], EntryOf(cfg, s', other), s'.now, s'.clair)
    {
      assert other == id || other in s.jobs;
    }
    assert PlaceFits(s, id);
    PoolFollows(s, s', id);
  }

  /** The pool still fits when one job moves and the pool moves with it. */
  lemma PoolFollows(s: State, s': State, id: string)
    requires PoolFits(s) && Pool.Conserved(s'.pool)
    requires forall other :: other != id ==>
      && (other in s'.jobs <==> other in s.jobs)
      && (other in s.jobs ==> s'.jobs[other] == s.jobs[other])
    requires forall other :: other != id ==> SamePlace(s, s', other)
    requires PlaceFits(s', id)
    ensures PoolFits(s')
  {
    hide Pool.Conserved;
    forall other ensures PlaceFits(s', other) {
      assert PlaceFits(s, other);
      assert other != id ==> SamePlace(s, s', other);
    }
  }

  ghost predicate SamePlace(s: State, s': State, id: string) {
    && s'.pool.offered[id] == s.pool.offered[id]
    && s'.pool.running[id] == s.pool.running[id]
    && s'.pool.done[id] == s.pool.done[id]
    && (s'.pool.held == Some(id) <==> s.pool.held == Some(id))
  }

  /** What the invariant says of one job's caller. */
  lemma CallersFit(cfg: Config, s: State, id: string)
    requires JobsFit(cfg, s) && id in s.jobs
    ensures CallerFits(s.jobs[id])
  {
    assert JobInv(cfg, id, s.jobs[id], EntryOf(cfg, s, id), s.now, s.clair);
  }

  lemma CreateKeepsPool(cfg: Config, s: State, id: string, fate: Fate)
    requires PoolFits(s) && Enabled(cfg, s, Create(id, fate)) && CallerFits(s.jobs[id])
    ensures PoolFits(Apply(cfg, s, Create(id, fate)))
  {
    hide Pool.Conserved;
    var s' := Apply(cfg, s, Create(id, fate));
    Pool.StepConserves(s.pool, Pool.Offer(id));
    assert s'.jobs[id].point.Idle? && (s'.jobs[id].caller.Submitting? || s'.jobs[id].caller.Rejected?);
    assert PlaceFits(s, id);
    PoolFollows(s, s', id);
  }

  lemma CreateKeepsJobs(cfg: Config, s: State, id: string, fate: Fate)
    requires JobsFit(cfg, s) && Enabled(cfg, s, Create(id, fate))
    ensures JobsFit(cfg, Apply(cfg, s, Create(id, fate)))
  {
    hide JobInv;
    var v := ViewOf(cfg, s, id);
    var w := AfterCreate(cfg, id, s.now, v, fate);
    CreateKeepsJob(cfg, id, s.now, v, fate);
    ViewKeepsJobs(cfg, s, id, w);
    SameButJobs(cfg, WithView(cfg, s, id, w), Apply(cfg, s, Create(id, fate)));
  }

  lemma ReceiveKeepsPool(cfg: Config, s: State, id: string)
    requires PoolFits(s) && Enabled(cfg, s, Receive(id)) && CallerFits(s.jobs[id])
    ensures PoolFits(Apply(cfg, s, Receive(id)))
  {
    hide Pool.Conserved;
    assert PlaceFits(s, id) && s.pool.offered[id] > 0;
    Pool.StepConserves(s.pool, Pool.Receive(id));
    PoolFollows(s, Apply(cfg, s, Receive(id)), id);
  }

  lemma ReceiveKeepsJobs(cfg: Config, s: State, id: string)
    requires JobsFit(cfg, s) && Enabled(cfg, s, Receive(id)) && s.jobs[id].caller.Submitting?
    ensures JobsFit(cfg, Apply(cfg, s, Receive(id)))
  {
    hide JobInv;
    var v := ViewOf(cfg, s, id);
    var w := v.(job := v.job.(caller := Answered));
    AnsweredFits(cfg, id, v, s.now);
    ViewKeepsJobs(cfg, s, id, w);
    SameButJobs(cfg, WithView(cfg, s, id, w), Apply(cfg, s, Receive(id)));
  }

  lemma AnsweredFits(cfg: Config, id: string, v: View, now: nat)
    requires JobInv(cfg, id, v.job, v.entry, now, v.clair) && v.job.caller.Submitting?
    ensures JobInv(cfg, id, v.job.(caller := Answered), v.entry, now, v.clair)
  {
    var j := v.job.(caller := Answered);
    assert Layers(cfg, j) == Layers(cfg, v.job) && OwnReport(j) == OwnReport(v.job);
  }

  lemma StartedFits(cfg: Config, id: string, v: View, now: nat)
    requires JobInv(cfg, id, v.job, v.entry, now, v.clair)
    requires v.job.caller.Answered? && v.job.point.Idle?
    ensures JobInv(cfg, id, v.job.(point := Reading(MarkRunning)), v.entry, now, v.clair)
  {
    var j := v.job.(point := Reading(MarkRunning));
    assert Layers(cfg, j) == Layers(cfg, v.job) && OwnReport(j) == OwnReport(v.job);
  }

  lemma SameButJobs(cfg: Config, s: State, s': State)
    requires JobsFit(cfg, s)
    requires s'.jobs == s.jobs && s'.now == s.now && s'.clair == s.clair
    requires forall id :: id in s.jobs ==> EntryOf(cfg, s', id) == EntryOf(cfg, s, id)
    ensures JobsFit(cfg, s')
  {
  }

  lemma SpawnKeepsPool(cfg: Config, s: State)
    requires PoolFits(s) && Enabled(cfg, s, Spawn)
    ensures PoolFits(Apply(cfg, s, Spawn))
  {
    hide Pool.Conserved;
    var id := s.pool.held.value;
    assert PlaceFits(s, id);
    assert s.jobs[id].caller.Answered? && s.jobs[id].point.Idle?;
    Pool.StepConserves(s.pool, Pool.Spawn);
    PoolFollows(s, Apply(cfg, s, Spawn), id);
  }

  lemma SpawnKeepsJobs(cfg: Config, s: State)
    requires JobsFit(cfg, s) && Enabled(cfg, s, Spawn)
    requires var j := s.jobs[s.pool.held.value]; j.caller.Answered? && j.point.Idle?
    ensures JobsFit(cfg, Apply(cfg, s, Spawn))
  {
    hide JobInv;
    var id := s.pool.held.value;
    var v := ViewOf(cfg, s, id);
    var w := v.(job := v.job.(point := Reading(MarkRunning)));
    StartedFits(cfg, id, v, s.now);
    ViewKeepsJobs(cfg, s, id, w);
    SameButJobs(cfg, WithView(cfg, s, id, w), Apply(cfg, s, Spawn));
  }

  /** Posting a layer after its predecessor keeps Clair's layers closed under parents. */
  lemma CallKeepsParents(cfg: Config, id: string, now: nat, v: View, answer: Answer, fate: Fate)
    requires JobInv(cfg, id, v.job, v.entry, now, v.clair) && ParentClosed(v.clair)
    requires CanWork(cfg, id, now, v, answer, fate)
    ensures ParentClosed(AfterCall(cfg, id, now, v, answer, fate).clair)
  {
    hide Faithful, Plausible, CallBound, WriteBound, EntryMatches, CallerFits;
    var j := v.job;
    var clair := AfterCall(cfg, id, now, v, answer, fate).clair;
    if j.point.Posting? {
      var n := j.point.next;
      LayersAreChained(cfg.sha, j.request, j.references.value, n);
      var link := LinkOf(j.point.layers[n]);
      if n > 0 {
        assert LinkOf(Layers(cfg, j)[n - 1]) in v.clair;
      }
      forall l | l in clair
        ensures l.parent == "" || exists p :: p in clair && p.name == l.parent
      {
        if l in v.clair && l.parent != "" {
          var p :| p in v.clair && p.name == l.parent;
          assert p in clair;
        } else if l == link && n > 0 {
          assert LinkOf(Layers(cfg, j)[n - 1]) in clair;
        }
      }
    }
  }

  /** The state after a worker's call, before the pool or the process takes notice of it. */
  function Called(cfg: Config, s: State, id: string, answer: Answer, fate: Fate): State
    requires id in s.jobs && CanWork(cfg, id, s.now, ViewOf(cfg, s, id), answer, fate)
  {
    WithView(cfg, s, id, AfterCall(cfg, id, s.now, ViewOf(cfg, s, id), answer, fate))
  }

  lemma CallKeepsJobs(cfg: Config, s: State, id: string, answer: Answer, fate: Fate)
    requires JobsFit(cfg, s) && ParentClosed(s.clair)
    requires id in s.jobs && s.jobs[id].caller.Answered? && CanWork(cfg, id, s.now, ViewOf(cfg, s, id), answer, fate)
    ensures JobsFit(cfg, Called(cfg, s, id, answer, fate)) && ParentClosed(Called(cfg, s, id, answer, fate).clair)
  {
    var v := ViewOf(cfg, s, id);
    CallKeepsJob(cfg, id, s.now, v, answer, fate);
    CallKeepsParents(cfg, id, s.now, v, answer, fate);
    ViewKeepsJobs(cfg, s, id, AfterCall(cfg, id, s.now, v, answer, fate));
  }

  lemma WorkerMoves(s: State, s': State, id: string, j: Job)
    requires PoolFits(s) && id in s.pool.running && id in s.jobs
    requires s.jobs[id].point.Active() && s.jobs[id].caller.Answered?
    requires s'.jobs == s.jobs[id := j] && j.caller.Answered? && j.point.Active() && s'.pool == s.pool
    ensures PoolFits(s')
  {
    hide Pool.Conserved;
    assert PlaceFits(s, id);
    PoolFollows(s, s', id);
  }

  lemma WorkerEnds(s: State, s': State, id: string, j: Job)
    requires PoolFits(s) && id in s.pool.running && id in s.jobs
    requires s.jobs[id].point.Active() && s.jobs[id].caller.Answered?
    requires s'.jobs == s.jobs[id := j] && j.caller.Answered? && j.point.Ended?
    requires s'.pool == Pool.Apply(s.pool, Pool.Finish(id))
    ensures PoolFits(s')
  {
    hide Pool.Conserved;
    Pool.StepConserves(s.pool, Pool.Finish(id));
    assert PlaceFits(s, id);
    assert s.pool.running[id] == 1 && s.pool.done[id] == 0;
    PoolFollows(s, s', id);
  }

  lemma WorkKeepsPool(cfg: Config, s: State, id: string, answer: Answer, fate: Fate)
    requires PoolFits(s) && Enabled(cfg, s, Work(id, answer, fate)) && s.jobs[id].caller.Answered?
    requires !Called(cfg, s, id, answer, fate).jobs[id].point.Crashed?
    ensures PoolFits(Apply(cfg, s, Work(id, answer, fate)))
  {
    CallMovesOn(cfg, id, s.now, ViewOf(cfg, s, id), answer, fate);
    RunningMeansActive(s, id);
    var j := Called(cfg, s, id, answer, fate).jobs[id];
    if j.point.Ended? {
      WorkerEnds(s, Apply(cfg, s, Work(id, answer, fate)), id, j);
    } else {
      WorkerMoves(s, Apply(cfg, s, Work(id, answer, fate)), id, j);
    }
  }

  lemma CrashKeepsInv(cfg: Config, s: State, id: string, answer: Answer, fate: Fate)
    requires JobsFit(cfg, s) && ParentClosed(s.clair) && Enabled(cfg, s, Work(id, answer, fate))
    requires s.jobs[id].caller.Answered?
    requires Called(cfg, s, id, answer, fate).jobs[id].point.Crashed?
    ensures Inv(cfg, Apply(cfg, s, Work(id, answer, fate)))
  {
    CallKeepsJobs(cfg, s, id, answer, fate);
    KillKeepsInv(cfg, Called(cfg, s, id, answer, fate));
  }

  lemma WorkKeepsJobs(cfg: Config, s: State, id: string, answer: Answer, fate: Fate)
    requires JobsFit(cfg, s) && ParentClosed(s.clair) && Enabled(cfg, s, Work(id, answer, fate))
    requires s.jobs[id].caller.Answered?
    requires !Called(cfg, s, id, answer, fate).jobs[id].point.Crashed?
    ensures var s' := Apply(cfg, s, Work(id, answer, fate));
            JobsFit(cfg, s') && ParentClosed(s'.clair)
  {
    hide JobInv;
    CallKeepsJobs(cfg, s, id, answer, fate);
    SameButJobs(cfg, Called(cfg, s, id, answer, fate), Apply(cfg, s, Work(id, answer, fate)));
  }

  lemma WorkKeepsInv(cfg: Config, s: State, id: string, answer: Answer, fate: Fate)
    requires Inv(cfg, s) && Enabled(cfg, s, Work(id, answer, fate))
    ensures Inv(cfg, Apply(cfg, s, Work(id, answer, fate)))
  {
    RunningMeansActive(s, id);
    CallersFit(cfg, s, id);
    if Called(cfg, s, id, answer, fate).jobs[id].point.Crashed? {
      CrashKeepsInv(cfg, s, id, answer, fate);
    } else {
      WorkKeepsJobs(cfg, s, id, answer, fate);
      WorkKeepsPool(cfg, s, id, answer, fate);
    }
  }

  lemma RunningMeansActive(s: State, id: string)
    requires PoolFits(s) && id in s.pool.running
    ensures id in s.jobs && s.jobs[id].point.Active()
  {
    assert PlaceFits(s, id) && s.pool.running[id] > 0;
  }

  lemma CallMovesOn(cfg: Config, id: string, now: nat, v: View, answer: Answer, fate: Fate)
    requires CanWork(cfg, id, now, v, answer, fate)
    ensures var p := AfterCall(cfg, id, now, v, answer, fate).job.point;
            p.Active() || p.Ended? || p.Crashed?
    ensures AfterCall(cfg, id, now, v, answer, fate).job.caller == v.job.caller
  {
  }

  lemma CreateKeepsInv(cfg: Config, s: State, id: string, fate: Fate)
    requires Inv(cfg, s) && Enabled(cfg, s, Create(id, fate))
    ensures Inv(cfg, Apply(cfg, s, Create(id, fate)))
  {
    CallersFit(cfg, s, id);
    CreateKeepsJobs(cfg, s, id, fate);
    CreateKeepsPool(cfg, s, id, fate);
  }

  lemma ReceiveKeepsInv(cfg: Config, s: State, id: string)
    requires Inv(cfg, s) && Enabled(cfg, s, Receive(id))
    ensures Inv(cfg, Apply(cfg, s, Receive(id)))
  {
    assert PlaceFits(s, id) && s.pool.offered[id] > 0;
    CallersFit(cfg, s, id);
    ReceiveKeepsPool(cfg, s, id);
    ReceiveKeepsJobs(cfg, s, id);
  }

  lemma SpawnKeepsInv(cfg: Config, s: State)
    requires Inv(cfg, s) && Enabled(cfg, s, Spawn)
    ensures Inv(cfg, Apply(cfg, s, Spawn))
  {
    assert PlaceFits(s, s.pool.held.value);
    SpawnKeepsPool(cfg, s);
    SpawnKeepsJobs(cfg, s);
  }

  lemma QuietKeepsInv(cfg: Config, s: State, e: Event)
    requires Inv(cfg, s) && Enabled(cfg, s, e) && (e.Poll? || e.Shutdown? || e.Exit?)
    ensures Inv(cfg, Apply(cfg, s, e))
  {
    hide JobInv, JobsFit;
    if !e.Poll? {
      var s' := Apply(cfg, s, e);
      forall id ensures PlaceFits(s', id) {
        assert PlaceFits(s, id);
      }
      SameButJobs(cfg, s, s');
    }
  }

  lemma KillKeepsAll(cfg: Config, s: State)
    requires Inv(cfg, s)
    ensures Inv(cfg, Apply(cfg, s, Die))
  {
    hide JobInv;
    KillKeepsInv(cfg, s);
  }

  lemma StepKeepsInv(cfg: Config, s: State, e: Event)
    requires Inv(cfg, s) && Enabled(cfg, s, e)
    ensures Inv(cfg, Apply(cfg, s, e))
  {
    hide *;
    match e
    case Tick(elapsed) => TickKeepsInv(cfg, s, elapsed);
    case Request(id, request) => RequestKeepsInv(cfg, s, id, request);
    case Create(id, fate) =>
      CreateKeepsInv(cfg, s, id, fate);
    case Receive(id) =>
      ReceiveKeepsInv(cfg, s, id);
    case Spawn =>
      SpawnKeepsInv(cfg, s);
    case Work(id, answer, fate) => WorkKeepsInv(cfg, s, id, answer, fate);
    case Poll(_, _) => QuietKeepsInv(cfg, s, e);
    case Die => KillKeepsAll(cfg, s);
    case Shutdown => QuietKeepsInv(cfg, s, e);
    case Exit => QuietKeepsInv(cfg, s, e);
  }

  lemma {:induction false} RunKeepsInv(cfg: Config, states: seq<State>, events: seq<Event>, k: nat)
    requires IsRun(cfg, states, events) && k < |states|
    ensures Inv(cfg, states[k])
  {
    if k > 0 {
      RunKeepsInv(cfg, states, events, k - 1);
      StepKeepsInv(cfg, states[k - 1], events[k - 1]);
    }
  }
}
