/**
 Every scan job at once: requests, the work pool, workers, Redis, Clair, pollers and the
 clock, interleaved at every call that leaves the process.
 */
module Lifecycle {
  import opened Harbor
  import opened Protocol
  import opened Redis
  import opened Transformer
  import opened Worker
  import opened Wrappers
  import Pool

  /** The goroutine of the scan request: it creates the record, blocks in Run, then answers with the ID. */
  datatype Caller = Creating | Submitting | Answered | Rejected | Gone

  /**
   A job: its request, where its caller and its worker are, and what has happened to it.
   content is the last record a SET put at its key, unheard whether the SET of Finished
   reported an error and was applied all the same.
   */
  datatype Job = Job(
    request: ScanRequest, caller: Caller, point: Point,
    createdAt: nat, writes: nat, lastWrite: nat, content: ScanJob,
    references: Option<seq<Descriptor>>, clairReply: Option<(Layer, int)>, failure: Option<string>,
    unheard: bool, steps: nat)

  /** A layer as Clair knows it. */
  datatype Link = Link(name: string, parent: string)

  datatype State = State(
    now: nat, db: map<string, Entry>, clair: set<Link>, jobs: map<string, Job>, pool: Pool.State<string>)

  /** The part of a state one job's own steps can touch. */
  datatype View = View(job: Job, entry: Option<Entry>, clair: set<Link>)

  datatype Event =
    | Tick(elapsed: nat)
    | Request(id: string, request: ScanRequest)
    | Create(id: string, fate: Fate)
    | Receive(id: string)
    | Spawn
    | Work(id: string, answer: Answer, fate: Fate)
    | Poll(id: string, fate: Fate)
    | Shutdown
    | Exit
    | Die

  function PendingJob(id: string): ScanJob {
    ScanJob(id, Pending, "", EMPTY_REPORT)
  }

  function NewJob(id: string, request: ScanRequest, now: nat): Job {
    Job(request, Creating, Idle, now, 0, now, PendingJob(id), None, None, None, false, 0)
  }

  function LinkOf(l: Layer): Link {
    Link(l.name, l.parentName)
  }

  // ----- Steps of one job

  function EntryOf(cfg: Config, s: State, id: string): Option<Entry> {
    EntryAt(s.db, JobKey(cfg.namespace, id))
  }

  function ViewOf(cfg: Config, s: State, id: string): View
    requires id in s.jobs
  {
    View(s.jobs[id], EntryOf(cfg, s, id), s.clair)
  }

  function Written(j: Job, now: nat, content: ScanJob): Job {
    j.(writes := j.writes + 1, lastWrite := now, content := content)
  }

  function AfterCreate(cfg: Config, id: string, now: nat, v: View, fate: Fate): View {
    var command := SetNX(Json(EncodeJob(PendingJob(id))));
    var (entry, reply) := Serve(v.entry, now, cfg.ttlNanos, command, fate);
    var job :=
      if Applies(v.entry, now, cfg.ttlNanos, command, fate)
      then Written(v.job.(createdAt := now), now, PendingJob(id))
      else v.job;
    View(job.(caller := if reply.Error? then Rejected else Submitting), entry, v.clair)
  }

  /** A worker's store calls go to its own job's key; in a run they never go to another. */
  predicate CanWork(cfg: Config, id: string, now: nat, v: View, answer: Answer, fate: Fate) {
    && v.job.point.Active()
    && var call := CallAt(cfg, id, v.job.request, v.job.point);
       && Fits(call, answer)
       && (call.Store? ==> call.key == JobKey(cfg.namespace, id))
       && (call.Store? ==> answer == Stored(Serve(v.entry, now, cfg.ttlNanos, call.command, fate).1))
  }

  function AfterCall(cfg: Config, id: string, now: nat, v: View, answer: Answer, fate: Fate): View
    requires CanWork(cfg, id, now, v, answer, fate)
  {
    var j := v.job;
    var call := CallAt(cfg, id, j.request, j.point);
    var after := Resume(cfg, id, j.request, j.point, answer);
    var applied := call.Store? && Applies(v.entry, now, cfg.ttlNanos, call.command, fate);
    var written := if applied then Written(j, now, j.point.record) else j;
    View(
      written.(
        point := after,
        references := if answer.Manifest? then Some(answer.references) else j.references,
        clairReply := if answer.LayerIs? && answer.layer.Some? then Some((answer.layer.value, answer.at)) else j.clairReply,
        failure := if after.Reading? && after.update.MarkFailed? then Some(after.update.message) else j.failure,
        unheard := j.unheard || (applied && fate.Unheard? && j.point.update.MarkFinished?),
        steps := j.steps + 1),
      if call.Store? then Serve(v.entry, now, cfg.ttlNanos, call.command, fate).0 else v.entry,
      // Clair may have kept a layer whose acceptance went unheard.
      if call.ScanLayer? && (answer.Accepted? || fate.Unheard?) then v.clair + {LinkOf(call.layer)} else v.clair)
  }

  // ----- Steps of the system

  function WithView(cfg: Config, s: State, id: string, v: View): State {
    var key := JobKey(cfg.namespace, id);
    s.(jobs := s.jobs[id := v.job],
       db := if v.entry.Some? then s.db[key := v.entry.value] else s.db - {key},
       clair := v.clair)
  }

  /** The process dies: nobody is left waiting or working, and the next process starts with an empty pool. */
  function Killed(j: Job): Job {
    j.(caller := if j.caller.Creating? || j.caller.Submitting? then Gone else j.caller,
       point := if j.point.Active() || j.point.Idle? then Lost else j.point)
  }

  function AllKilled(s: State): State {
    s.(jobs := map id | id in s.jobs :: Killed(s.jobs[id]), pool := Pool.NEW)
  }

  predicate Enabled(cfg: Config, s: State, e: Event) {
    match e
    case Tick(_) => true
    // A fresh UUID: neither a job nor any key in Redis has used it.
    case Request(id, _) => id !in s.jobs && JobKey(cfg.namespace, id) !in s.db
    case Create(id, _) => id in s.jobs && s.jobs[id].caller.Creating?
    case Receive(id) => Pool.Enabled(s.pool, Pool.Receive(id)) && id in s.jobs
    case Spawn => Pool.Enabled(s.pool, Pool.Spawn) && s.pool.held.value in s.jobs
    case Work(id, answer, fate) =>
      id in s.jobs && id in s.pool.running && CanWork(cfg, id, s.now, ViewOf(cfg, s, id), answer, fate)
    case Poll(_, _) => true
    case Shutdown => Pool.Enabled(s.pool, Pool.Shutdown)
    case Exit => Pool.Enabled(s.pool, Pool.Exit)
    case Die => true
  }

  function Apply(cfg: Config, s: State, e: Event): State
    requires Enabled(cfg, s, e)
  {
    match e
    case Tick(elapsed) => s.(now := s.now + elapsed)
    case Request(id, request) => s.(jobs := s.jobs[id := NewJob(id, request, s.now)])
    case Create(id, fate) =>
      var s' := WithView(cfg, s, id, AfterCreate(cfg, id, s.now, ViewOf(cfg, s, id), fate));
      if s'.jobs[id].caller.Submitting? then s'.(pool := Pool.Apply(s.pool, Pool.Offer(id))) else s'
    case Receive(id) =>
      s.(pool := Pool.Apply(s.pool, Pool.Receive(id)), jobs := s.jobs[id := s.jobs[id].(caller := Answered)])
    case Spawn =>
      var id := s.pool.held.value;
      s.(pool := Pool.Apply(s.pool, Pool.Spawn), jobs := s.jobs[id := s.jobs[id].(point := Reading(MarkRunning))])
    case Work(id, answer, fate) =>
      var v := AfterCall(cfg, id, s.now, ViewOf(cfg, s, id), answer, fate);
      var s' := WithView(cfg, s, id, v);
      if v.job.point.Crashed? then AllKilled(s')
      else if v.job.point.Ended? then s'.(pool := Pool.Apply(s.pool, Pool.Finish(id)))
      else s'
    case Poll(_, _) => s
    case Shutdown => s.(pool := Pool.Apply(s.pool, Pool.Shutdown))
    case Exit => s.(pool := Pool.Apply(s.pool, Pool.Exit))
    case Die => AllKilled(s)
  }

  /** Clair never holds a layer without its parent. */
  ghost predicate ParentClosed(clair: set<Link>) {
    forall l :: l in clair ==> l.parent == "" || exists p :: p in clair && p.name == l.parent
  }

  /** Redis may hold anything at the start, and Clair any closed set of layers. */
  ghost predicate Init(s: State) {
    s.jobs == map[] && s.pool == Pool.NEW && ParentClosed(s.clair)
  }

  ghost predicate IsRun(cfg: Config, states: seq<State>, events: seq<Event>) {
    && |states| == |events| + 1
    && Init(states[0])
    && forall i :: 0 <= i < |events| ==> Enabled(cfg, states[i], events[i]) && states[i + 1] == Apply(cfg, states[i], events[i])
  }

  // ----- What a poller is told (pkg/http/api/v1/handler.go)

  datatype Response = Found | Report(report: ScanReport) | InternalError(message: string) | NotFound

  function ReportResponse(r: Result<Option<ScanJob>>): Response {
    match r
    case Err(message) => InternalError("getting scan job: " + message)
    case Ok(None) => NotFound
    case Ok(Some(job)) =>
      match job.status
      case Pending => Found
      case Running => Found
      case Failed => InternalError(job.error)
      case Other(_) => InternalError("unexpected status")
      case Finished => Report(job.report)
  }

  function PollResponse(cfg: Config, s: State, id: string, fate: Fate): Response {
    ReportResponse(ReadResult(Serve(EntryOf(cfg, s, id), s.now, cfg.ttlNanos, Get, fate).1))
  }
}
