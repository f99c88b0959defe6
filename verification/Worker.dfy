/**
 The code one worker runs, statement by statement: the store's methods
 (pkg/persistence/redis/store.go), the adapter's Scan (pkg/scanner/adapter.go) and the
 worker's Task (pkg/scanner/worker.go). A ghost monitor walks the automaton of Protocol
 alongside: every call the code makes has to be the one the automaton makes there.
 */
module Worker {
  import opened Harbor
  import opened Protocol
  import opened Redis
  import opened Transformer
  import opened Wrappers

  /** How a Go call ends when it may also panic. */
  datatype Outcome = Fine | Fails(message: string) | Panics

  datatype ScanOutcome = Reports(report: ScanReport) | ScanFails(message: string) | ScanPanics

  function EntryAt(db: map<string, Entry>, key: string): Option<Entry> {
    if key in db then Some(db[key]) else None
  }

  /** What happens around one call: the time that passes, the other keys, and every answer that could be due. */
  datatype Move = Move(
    elapsed: nat, others: map<string, Entry>, fate: Fate,
    manifest: Result<seq<Descriptor>>, posted: Result<()>, layer: Result<Option<Layer>>, at: int)

  /** A call made and its answer. */
  datatype Made = Made(call: Call, answer: Answer)

  /**
   Redis, the registry and Clair as one worker meets them, moving as they please. Before
   each call, time passes and every key but the worker's own may have changed.
   */
  class Outside {
    const moves: nat -> Move
    var calls: nat
    const cfg: Config
    const jobID: string
    const request: ScanRequest
    var db: map<string, Entry>
    var now: nat
    ghost var point: Point
    ghost var log: seq<Made>

    ghost function OwnEntry(): Option<Entry>
      reads this
    {
      EntryAt(db, JobKey(cfg.namespace, jobID))
    }

    constructor (moves: nat -> Move, cfg: Config, jobID: string, request: ScanRequest, db: map<string, Entry>, now: nat)
      ensures this.cfg == cfg && this.jobID == jobID && this.request == request
      ensures this.db == db && this.now == now && point == Reading(MarkRunning) && log == []
    {
      this.moves, this.calls := moves, 0;
      this.cfg, this.jobID, this.request := cfg, jobID, request;
      this.db, this.now := db, now;
      point, log := Reading(MarkRunning), [];
    }

    /** Whatever the others do meanwhile. */
    method Interfere() returns (move: Move)
      modifies this`db, this`now, this`calls
      ensures old(now) <= now && OwnEntry() == old(OwnEntry())
    {
      move := moves(calls);
      calls := calls + 1;
      now := now + move.elapsed;
      var key := JobKey(cfg.namespace, jobID);
      db := if key in db then move.others[key := db[key]] else move.others - {key};
    }

    /** conn.Do: met is what the key held when the command arrived. */
    method Send(key: string, command: Command) returns (reply: Reply, ghost met: Option<Entry>, ghost fate: Fate)
      modifies this`db, this`now, this`calls
      ensures old(now) <= now
      ensures reply == Serve(met, now, cfg.ttlNanos, command, fate).1
      ensures key == JobKey(cfg.namespace, jobID) ==>
        met == old(OwnEntry()) && OwnEntry() == Serve(met, now, cfg.ttlNanos, command, fate).0
      ensures key != JobKey(cfg.namespace, jobID) ==> OwnEntry() == old(OwnEntry())
    {
      var move := Interfere();
      fate, met := move.fate, EntryAt(db, key);
      var (after, answer) := Serve(EntryAt(db, key), now, cfg.ttlNanos, command, move.fate);
      db := if after.Some? then db[key := after.value] else db - {key};
      reply := answer;
    }

    method Do(key: string, command: Command) returns (reply: Reply, ghost met: Option<Entry>, ghost fate: Fate)
      requires point.Active()
      requires CallAt(cfg, jobID, request, point) == Store(key, command)
      modifies this
      ensures old(now) <= now
      ensures reply == Serve(met, now, cfg.ttlNanos, command, fate).1
      ensures key == JobKey(cfg.namespace, jobID) ==>
        met == old(OwnEntry()) && OwnEntry() == Serve(met, now, cfg.ttlNanos, command, fate).0
      ensures key != JobKey(cfg.namespace, jobID) ==> OwnEntry() == old(OwnEntry())
      ensures Fits(CallAt(cfg, jobID, request, old(point)), Stored(reply))
      ensures point == Resume(cfg, jobID, request, old(point), Stored(reply))
      ensures log == old(log) + [Made(Store(key, command), Stored(reply))]
    {
      reply, met, fate := Send(key, command);
      log := log + [Made(Store(key, command), Stored(reply))];
      point := Resume(cfg, jobID, request, point, Stored(reply));
    }

    method GetManifest(req: ScanRequest) returns (r: Result<seq<Descriptor>>)
      requires point.Active() && CallAt(cfg, jobID, request, point) == Call.GetManifest(req)
      modifies this
      ensures old(now) <= now && OwnEntry() == old(OwnEntry())
      ensures point == Resume(cfg, jobID, request, old(point), if r.Ok? then Manifest(r.value) else Failure(r.message))
      ensures log == old(log) + [Made(Call.GetManifest(req), if r.Ok? then Manifest(r.value) else Failure(r.message))]
    {
      var move := Interfere();
      r := move.manifest;
      log := log + [Made(Call.GetManifest(req), if r.Ok? then Manifest(r.value) else Failure(r.message))];
      point := Resume(cfg, jobID, request, point, if r.Ok? then Manifest(r.value) else Failure(r.message));
    }

    method ScanLayer(l: Layer) returns (r: Result<()>)
      requires point.Active() && CallAt(cfg, jobID, request, point) == Call.ScanLayer(l)
      modifies this
      ensures old(now) <= now && OwnEntry() == old(OwnEntry())
      ensures point == Resume(cfg, jobID, request, old(point), if r.Ok? then Accepted else Failure(r.message))
      ensures log == old(log) + [Made(Call.ScanLayer(l), if r.Ok? then Accepted else Failure(r.message))]
    {
      var move := Interfere();
      r := move.posted;
      log := log + [Made(Call.ScanLayer(l), if r.Ok? then Accepted else Failure(r.message))];
      point := Resume(cfg, jobID, request, point, if r.Ok? then Accepted else Failure(r.message));
    }

    method GetLayer(name: string) returns (r: Result<Option<Layer>>, at: int)
      requires point.Active() && CallAt(cfg, jobID, request, point) == Call.GetLayer(name)
      modifies this
      ensures old(now) <= now && OwnEntry() == old(OwnEntry())
      ensures point == Resume(cfg, jobID, request, old(point), if r.Ok? then LayerIs(r.value, at) else Failure(r.message))
      ensures log == old(log) + [Made(Call.GetLayer(name), if r.Ok? then LayerIs(r.value, at) else Failure(r.message))]
    {
      var move := Interfere();
      r, at := move.layer, move.at;
      log := log + [Made(Call.GetLayer(name), if r.Ok? then LayerIs(r.value, at) else Failure(r.message))];
      point := Resume(cfg, jobID, request, point, if r.Ok? then LayerIs(r.value, at) else Failure(r.message));
    }
  }

  // ----- The store

  function WithStatus(job: ScanJob, newStatus: Status, error: Option<string>): ScanJob {
    if error.Some? then job.(status := newStatus, error := error.value) else job.(status := newStatus)
  }

  /**
   What an update leaves at the job's own key: either nothing changed, or the record that
   was there, changed as asked, with a fresh expiry.
   */
  ghost predicate Updated(cfg: Config, u: Update, before: Option<Entry>, after: Option<Entry>, now: nat) {
    && Live(before, now)
    && before.value.document.Json?
    && after == Some(Entry(Json(EncodeJob(u.Of(DecodeJob(before.value.document.job)))), now + TtlMillis(cfg.ttlNanos)))
  }

  ghost predicate Created(cfg: Config, job: ScanJob, before: Option<Entry>, after: Option<Entry>, now: nat) {
    && !Live(before, now)
    && after == Some(Entry(Json(EncodeJob(job)), now + TtlMillis(cfg.ttlNanos)))
  }

  /** Create of a new pending job; the key of a used ID is left alone, without an error. */
  method Create(outside: Outside, job: ScanJob) returns (r: Result<()>, ghost fate: Fate)
    requires job.id == outside.jobID
    modifies outside`db, outside`now, outside`calls
    ensures r.Ok? <==> fate.Delivered? && ExpirySeconds(outside.cfg.ttlNanos) > 0
    ensures Live(old(outside.OwnEntry()), outside.now) ==> outside.OwnEntry() == old(outside.OwnEntry())
    ensures outside.OwnEntry() == old(outside.OwnEntry())
         || Created(outside.cfg, job, old(outside.OwnEntry()), outside.OwnEntry(), outside.now)
    ensures r.Ok? && !Live(old(outside.OwnEntry()), outside.now) ==>
      Created(outside.cfg, job, old(outside.OwnEntry()), outside.OwnEntry(), outside.now)
  {
    var key := JobKey(outside.cfg.namespace, job.id);
    var reply, met, sent := outside.Send(key, SetNX(Json(EncodeJob(job))));
    fate := sent;
    if reply.Error? {
      return Err("creating scan job: " + reply.message), fate;
    }
    r := Ok(());
  }

  method Get(outside: Outside) returns (r: Result<Option<ScanJob>>)
    requires outside.point.Reading?
    modifies outside
    ensures old(outside.now) <= outside.now && outside.OwnEntry() == old(outside.OwnEntry())
    ensures outside.point == AfterRead(old(outside.point).update, r)
    ensures r == Ok(None) ==> !Live(outside.OwnEntry(), outside.now)
    ensures r.Ok? && r.value.Some? ==>
      && Live(outside.OwnEntry(), outside.now)
      && outside.OwnEntry().value.document.Json?
      && r.value.value == DecodeJob(outside.OwnEntry().value.document.job)
  {
    var reply, _, _ := outside.Do(JobKey(outside.cfg.namespace, outside.jobID), Command.Get);
    r := ReadResult(reply);
  }

  /** store.update: the key is that of the ID in the record, and a record of another job leaves this one's alone. */
  method Save(outside: Outside, scanJob: ScanJob) returns (r: Result<()>)
    requires outside.point.Writing? && outside.point.record == scanJob
    modifies outside
    ensures old(outside.now) <= outside.now
    ensures outside.point == AfterWrite(old(outside.point).update, r)
    ensures outside.OwnEntry() == old(outside.OwnEntry())
         || (&& scanJob.id == outside.jobID
             && Live(old(outside.OwnEntry()), outside.now)
             && outside.OwnEntry() == Some(Entry(Json(EncodeJob(scanJob)), outside.now + TtlMillis(outside.cfg.ttlNanos))))
    ensures r.Ok? && scanJob.id == outside.jobID && Live(old(outside.OwnEntry()), outside.now) ==>
      outside.OwnEntry() == Some(Entry(Json(EncodeJob(scanJob)), outside.now + TtlMillis(outside.cfg.ttlNanos)))
  {
    JobKeyInjective(outside.cfg.namespace, scanJob.id, outside.jobID);
    var reply, _, _ := outside.Do(JobKey(outside.cfg.namespace, scanJob.id), SetXX(Json(EncodeJob(scanJob))));
    r := WriteResult(reply);
  }

  /** The record at a job's key names that job, as it does in every run. */
  ghost predicate NamesItsJob(e: Option<Entry>, jobID: string) {
    e.Some? && e.value.document.Json? ==> e.value.document.job.id == jobID
  }

  /** The shared contract of the two read-modify-write updates, on the job's own key and on the automaton. */
  twostate predicate UpdateEnds(outside: Outside, u: Update, o: Outcome)
    reads outside
  {
    && old(outside.now) <= outside.now
    && (o.Fine? ==> outside.point == AfterWrite(u, Ok(())))
    && (o.Fails? ==> outside.point == AfterError(u, o.message))
    && (o.Panics? ==> outside.point == Crashed)
    && (outside.OwnEntry() == old(outside.OwnEntry())
        || Updated(outside.cfg, u, old(outside.OwnEntry()), outside.OwnEntry(), outside.now))
    && (o.Fine? && NamesItsJob(old(outside.OwnEntry()), outside.jobID) && Live(old(outside.OwnEntry()), outside.now) ==>
          Updated(outside.cfg, u, old(outside.OwnEntry()), outside.OwnEntry(), outside.now))
    && (o.Panics? ==> outside.OwnEntry() == old(outside.OwnEntry()) && !Live(outside.OwnEntry(), outside.now))
  }

  method UpdateStatus(outside: Outside, newStatus: Status, error: Option<string>, ghost u: Update) returns (o: Outcome)
    requires outside.point == Reading(u)
    requires forall job :: u.Of(job) == WithStatus(job, newStatus, error)
    modifies outside
    ensures UpdateEnds(outside, u, o)
  {
    var got := Get(outside);
    match got {
      case Err(message) =>
        return Fails(message);
      case Ok(None) =>
        return Panics;
      case Ok(Some(scanJob)) =>
        var changed := scanJob.(status := newStatus);
        if error.Some? {
          changed := changed.(error := error.value);
        }
        var saved := Save(outside, changed);
        o := if saved.Ok? then Fine else Fails(saved.message);
    }
  }

  method UpdateReport(outside: Outside, report: ScanReport) returns (o: Outcome)
    requires outside.point == Reading(AddReport(report))
    modifies outside
    ensures UpdateEnds(outside, AddReport(report), o)
  {
    var got := Get(outside);
    match got {
      case Err(message) =>
        return Fails(message);
      case Ok(None) =>
        return Panics;
      case Ok(Some(scanJob)) =>
        var saved := Save(outside, scanJob.(report := report));
        o := if saved.Ok? then Fine else Fails(saved.message);
    }
  }

  // ----- The adapter

  function ManifestCall(req: ScanRequest, r: Result<seq<Descriptor>>): Made {
    Made(Call.GetManifest(req), if r.Ok? then Manifest(r.value) else Failure(r.message))
  }

  /** Layers posted and accepted, one after the other. */
  function Posts(layers: seq<Layer>): (made: seq<Made>)
    ensures |made| == |layers|
  {
    seq(|layers|, i requires 0 <= i < |layers| => Made(Call.ScanLayer(layers[i]), Accepted))
  }

  /** The end of a scan whose layers were all accepted. */
  ghost predicate Answered(req: ScanRequest, name: string, answer: Answer, o: ScanOutcome) {
    match answer
    case Failure(message) => o == ScanFails("getting layer " + name + ": " + message)
    case LayerIs(Some(layer), at) => o == Reports(ReportOf(at, req.artifact, layer))
    case LayerIs(None, _) => o == ScanPanics
    case _ => false
  }

  /**
   The calls of one scan, and what comes of it: the manifest, every layer in order up to
   the first that is not accepted, and after the last of them the report.
   */
  ghost predicate IsScan(sha: Hash, req: ScanRequest, made: seq<Made>, o: ScanOutcome) {
    && made != [] && made[0].call == Call.GetManifest(req)
    && match made[0].answer
       case Failure(message) => |made| == 1 && o == ScanFails("preparing layers: " + message)
       case Manifest(references) =>
         (var layers := LayersOf(sha, req, references);
          if layers == [] then |made| == 1 && o == ScanPanics
          else
            var last := made[|made| - 1];
            if |made| == |layers| + 2 then
              && made == [made[0]] + Posts(layers) + [last]
              && last.call == Call.GetLayer(layers[|layers| - 1].name)
              && Answered(req, layers[|layers| - 1].name, last.answer, o)
            else
              && 2 <= |made| < |layers| + 2
              && made == [made[0]] + Posts(layers[..|made| - 2]) + [last]
              && last.call == Call.ScanLayer(layers[|made| - 2])
              && last.answer.Failure? && o == ScanFails(last.answer.message))
       case _ => false
  }

  lemma NothingToPost(sha: Hash, req: ScanRequest, r: Result<seq<Descriptor>>, o: ScanOutcome)
    requires match r
             case Err(message) => o == ScanFails("preparing layers: " + message)
             case Ok(references) => LayersOf(sha, req, references) == [] && o == ScanPanics
    ensures IsScan(sha, req, [ManifestCall(req, r)], o)
  {
  }

  lemma RefusedAt(sha: Hash, req: ScanRequest, references: seq<Descriptor>, n: nat, message: string)
    requires n < |LayersOf(sha, req, references)|
    ensures var layers := LayersOf(sha, req, references);
            IsScan(sha, req,
                   [ManifestCall(req, Ok(references))]
                   + (Posts(layers[..n]) + [Made(Call.ScanLayer(layers[n]), Failure(message))]),
                   ScanFails(message))
  {
  }

  lemma AllAccepted(sha: Hash, req: ScanRequest, references: seq<Descriptor>, answer: Answer, o: ScanOutcome)
    requires var layers := LayersOf(sha, req, references);
             layers != [] && Answered(req, layers[|layers| - 1].name, answer, o)
    ensures var layers := LayersOf(sha, req, references);
            IsScan(sha, req,
                   [ManifestCall(req, Ok(references))] + Posts(layers)
                   + [Made(Call.GetLayer(layers[|layers| - 1].name), answer)],
                   o)
  {
  }

  /** The loop of Scan. */
  method PostLayers(outside: Outside, layers: seq<Layer>) returns (r: Result<()>, ghost made: seq<Made>)
    requires outside.point == if layers == [] then Crashed else Posting(layers, 0)
    modifies outside
    ensures outside.OwnEntry() == old(outside.OwnEntry())
    ensures outside.log == old(outside.log) + made
    ensures r.Ok? ==>
      && made == Posts(layers)
      && outside.point == if layers == [] then Crashed else Asking(layers[|layers| - 1].name)
    ensures r.Err? ==>
      && 0 < |made| <= |layers|
      && made == Posts(layers[..|made| - 1]) + [Made(Call.ScanLayer(layers[|made| - 1]), Failure(r.message))]
      && outside.point == Reading(MarkFailed(r.message))
  {
    made := [];
    for n := 0 to |layers|
      invariant outside.point ==
        if layers == [] then Crashed
        else if n < |layers| then Posting(layers, n)
        else Asking(layers[|layers| - 1].name)
      invariant outside.OwnEntry() == old(outside.OwnEntry())
      invariant made == Posts(layers[..n]) && outside.log == old(outside.log) + made
    {
      var posted := outside.ScanLayer(layers[n]);
      made := made + [Made(Call.ScanLayer(layers[n]), if posted.Ok? then Accepted else Failure(posted.message))];
      if posted.Err? {
        return Err(posted.message), made;
      }
    }
    assert layers[..|layers|] == layers;
    r := Ok(());
  }

  method PrepareLayers(outside: Outside, req: ScanRequest) returns (r: Result<seq<Layer>>, ghost manifest: Result<seq<Descriptor>>)
    requires outside.point == Fetching && req == outside.request
    modifies outside
    ensures outside.OwnEntry() == old(outside.OwnEntry())
    ensures outside.log == old(outside.log) + [ManifestCall(req, manifest)]
    ensures manifest.Err? ==>
      && r == Err(manifest.message)
      && outside.point == Reading(MarkFailed("preparing layers: " + manifest.message))
    ensures manifest.Ok? ==>
      && r == Ok(LayersOf(outside.cfg.sha, req, manifest.value))
      && outside.point == if r.value == [] then Crashed else Posting(r.value, 0)
  {
    var got := outside.GetManifest(req);
    manifest := got;
    if got.Err? {
      return Err(got.message), manifest;
    }
    var layers := ToClairLayers(outside.cfg.sha, req, got.value);
    r := Ok(layers);
  }

  method GetReport(outside: Outside, artifact: Artifact, layerName: string) returns (o: ScanOutcome, ghost answer: Answer)
    requires outside.point == Asking(layerName) && artifact == outside.request.artifact
    modifies outside
    ensures outside.OwnEntry() == old(outside.OwnEntry())
    ensures outside.log == old(outside.log) + [Made(Call.GetLayer(layerName), answer)]
    ensures Answered(outside.request, layerName, answer, o)
    ensures o.Reports? ==> outside.point == Reading(AddReport(o.report)) && o.report.artifact == artifact
    ensures o.ScanFails? ==> outside.point == Reading(MarkFailed(o.message))
    ensures o.ScanPanics? ==> outside.point == Crashed
  {
    hide ItemsOf, Worst;
    var envelope, at := outside.GetLayer(layerName);
    answer := if envelope.Ok? then LayerIs(envelope.value, at) else Failure(envelope.message);
    match envelope {
      case Err(message) =>
        o := ScanFails("getting layer " + layerName + ": " + message);
      case Ok(None) =>
        o := ScanPanics;
      case Ok(Some(layer)) =>
        var report := ToHarborScanReport(at, artifact, layer);
        o := Reports(report);
    }
  }

  /** Scan asks, posts and asks again as IsScan says, and leaves the record alone. */
  method Scan(outside: Outside, req: ScanRequest) returns (o: ScanOutcome, ghost made: seq<Made>)
    requires outside.point == Fetching && req == outside.request
    modifies outside
    ensures outside.OwnEntry() == old(outside.OwnEntry())
    ensures outside.log == old(outside.log) + made && IsScan(outside.cfg.sha, req, made, o)
    ensures o.Reports? ==> outside.point == Reading(AddReport(o.report)) && o.report.artifact == req.artifact
    ensures o.ScanFails? ==> outside.point == Reading(MarkFailed(o.message))
    ensures o.ScanPanics? ==> outside.point == Crashed
  {
    hide LayersOf, IsScan, Posts, Answered;
    var prepared, manifest := PrepareLayers(outside, req);
    made := [ManifestCall(req, manifest)];
    if prepared.Err? {
      NothingToPost(outside.cfg.sha, req, manifest, ScanFails("preparing layers: " + prepared.message));
      return ScanFails("preparing layers: " + prepared.message), made;
    }
    var layers := prepared.value;
    var posted, posts := PostLayers(outside, layers);
    made := made + posts;
    if posted.Err? {
      RefusedAt(outside.cfg.sha, req, manifest.value, |posts| - 1, posted.message);
      return ScanFails(posted.message), made;
    }
    if |layers| == 0 {
      assert made == [ManifestCall(req, manifest)];
      NothingToPost(outside.cfg.sha, req, manifest, ScanPanics);
      return ScanPanics, made;
    }
    ghost var answer;
    o, answer := GetReport(outside, req.artifact, layers[|layers| - 1].name);
    made := made + [Made(Call.GetLayer(layers[|layers| - 1].name), answer)];
    AllAccepted(outside.cfg.sha, req, manifest.value, answer, o);
  }

  // ----- The worker

  method ScanJobOnce(outside: Outside) returns (o: Outcome)
    requires outside.point == Reading(MarkRunning)
    modifies outside
    ensures o.Fine? ==> outside.point == Ended
    ensures o.Fails? ==> outside.point == Reading(MarkFailed(o.message))
    ensures o.Panics? ==> outside.point == Crashed
  {
    o := UpdateStatus(outside, Running, None, MarkRunning);
    if !o.Fine? {
      return;
    }
    var scanned, _ := Scan(outside, outside.request);
    match scanned {
      case ScanFails(message) =>
        return Fails(message);
      case ScanPanics =>
        return Panics;
      case Reports(report) =>
        o := UpdateReport(outside, report);
        if !o.Fine? {
          return;
        }
        o := UpdateStatus(outside, Finished, None, MarkFinished);
    }
  }

  /** Task makes exactly the calls of the automaton, and stops only where it stops. */
  method Task(outside: Outside) returns (panicked: bool)
    requires outside.point == Reading(MarkRunning)
    modifies outside
    ensures outside.point == if panicked then Crashed else Ended
  {
    var o := ScanJobOnce(outside);
    if o.Fails? {
      o := UpdateStatus(outside, Failed, Some(o.message), MarkFailed(o.message));
    }
    panicked := o.Panics?;
  }
}
