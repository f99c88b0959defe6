/**
 One scan worker as an automaton (pkg/scanner/worker.go and adapter.go): which call it
 makes at each point, and where the answer takes it. Between any two calls everything
 else in the system may move.
 */
module Protocol {
  import opened Harbor
  import opened Redis
  import opened Transformer
  import opened Wrappers

  datatype Config = Config(namespace: string, ttlNanos: int, sha: Hash)

  /** A call that leaves the process. */
  datatype Call =
    | Store(key: string, command: Command)
    | GetManifest(request: ScanRequest)
    | ScanLayer(layer: Layer)
    | GetLayer(name: string)

  /** GetLayer's answer carries the clock reading that will date the report; its layer may be missing. */
  datatype Answer =
    | Stored(reply: Reply)
    | Manifest(references: seq<Descriptor>)
    | Accepted
    | LayerIs(layer: Option<Layer>, at: int)
    | Failure(message: string)

  predicate Fits(call: Call, answer: Answer) {
    match call
    case Store(_, Get) => answer.Stored? && !answer.reply.Okay?
    case Store(_, _) => answer.Stored? && !answer.reply.Value?
    case GetManifest(_) => answer.Manifest? || answer.Failure?
    case ScanLayer(_) => answer.Accepted? || answer.Failure?
    case GetLayer(_) => answer.LayerIs? || answer.Failure?
  }

  /** The changes a worker makes to its stored job. */
  datatype Update = MarkRunning | AddReport(report: ScanReport) | MarkFinished | MarkFailed(message: string)
  {
    function Of(record: ScanJob): ScanJob {
      match this
      case MarkRunning => record.(status := Running)
      case AddReport(report) => record.(report := report)
      case MarkFinished => record.(status := Finished)
      case MarkFailed(message) => record.(status := Failed, error := message)
    }
  }

  /**
   The points between calls. An update is Reading, then Writing: the changed record is
   held across the gap. Lost is a worker whose process died under it.
   */
  datatype Point =
    | Idle
    | Reading(update: Update)
    | Writing(update: Update, record: ScanJob)
    | Fetching
    | Posting(layers: seq<Layer>, next: nat)
    | Asking(name: string)
    | Ended
    | Crashed
    | Lost
  {
    predicate Active() {
      Reading? || Writing? || Fetching? || (Posting? && next < |layers|) || Asking?
    }
  }

  /** The read goes to the key of the worker's job, the write to the key of the ID in the record it read. */
  function CallAt(cfg: Config, id: string, req: ScanRequest, p: Point): Call
    requires p.Active()
  {
    match p
    case Reading(_) => Store(JobKey(cfg.namespace, id), Get)
    case Writing(_, record) => Store(JobKey(cfg.namespace, record.id), SetXX(Json(EncodeJob(record))))
    case Fetching => GetManifest(req)
    case Posting(layers, next) => ScanLayer(layers[next])
    case Asking(name) => GetLayer(name)
  }

  /** store.Get: an absent key is no error but a nil job. */
  function ReadResult(reply: Reply): Result<Option<ScanJob>>
    requires !reply.Okay?
  {
    match reply
    case Value(Json(job)) => Ok(Some(DecodeJob(job)))
    case Value(Malformed) => Err("invalid character")
    case Nil => Ok(None)
    case Error(message) => Err(message)
  }

  /** store.update: only an error reply is an error, a SET that did not apply is none. */
  function WriteResult(reply: Reply): Result<()> {
    if reply.Error? then Err("updating scan job: " + reply.message) else Ok(())
  }

  /** Any error leads to the failure update; the errors of that one are only logged. */
  function AfterError(u: Update, message: string): Point {
    if u.MarkFailed? then Ended else Reading(MarkFailed(message))
  }

  /** A nil record is dereferenced: the worker panics. */
  function AfterRead(u: Update, result: Result<Option<ScanJob>>): Point {
    match result
    case Ok(None) => Crashed
    case Ok(Some(record)) => Writing(u, u.Of(record))
    case Err(message) => AfterError(u, message)
  }

  function AfterWrite(u: Update, result: Result<()>): Point {
    match result
    case Err(message) => AfterError(u, message)
    case Ok(_) =>
      match u
      case MarkRunning => Fetching
      case AddReport(_) => Reading(MarkFinished)
      case MarkFinished => Ended
      case MarkFailed(_) => Ended
  }

  function Resume(cfg: Config, id: string, req: ScanRequest, p: Point, answer: Answer): Point
    requires p.Active() && Fits(CallAt(cfg, id, req, p), answer)
  {
    match p
    case Reading(u) => AfterRead(u, ReadResult(answer.reply))
    case Writing(u, _) => AfterWrite(u, WriteResult(answer.reply))
    case Fetching =>
      (match answer
       case Failure(message) => Reading(MarkFailed("preparing layers: " + message))
       case Manifest(references) =>
         var layers := LayersOf(cfg.sha, req, references);
         // With no layer at all, the last one is taken of an empty slice.
         if layers == [] then Crashed else Posting(layers, 0))
    case Posting(layers, next) =>
      (match answer
       case Failure(message) => Reading(MarkFailed(message))
       case Accepted => if next + 1 < |layers| then Posting(layers, next + 1) else Asking(layers[next].name))
    case Asking(name) =>
      (match answer
       case Failure(message) => Reading(MarkFailed("getting layer " + name + ": " + message))
       case LayerIs(Some(layer), at) => Reading(AddReport(ReportOf(at, req.artifact, layer)))
       // The report is made of a nil layer.
       case LayerIs(None, _) => Crashed)
  }

  /** The three ways a worker can panic, and no other. */
  lemma CrashesExactlyWhen(cfg: Config, id: string, req: ScanRequest, p: Point, answer: Answer)
    requires p.Active() && Fits(CallAt(cfg, id, req, p), answer)
    ensures Resume(cfg, id, req, p, answer).Crashed?
       <==> || (p.Reading? && answer == Stored(Nil))
            || (p.Fetching? && answer.Manifest?
                && forall d :: d in answer.references ==> d.mediaType == MEDIA_TYPE_IMAGE_CONFIG)
            || (p.Asking? && answer.LayerIs? && answer.layer == None)
  {
    if p.Fetching? && answer.Manifest? {
      NoDigestsIff(answer.references);
    }
  }

  lemma {:induction false} NoDigestsIff(references: seq<Descriptor>)
    ensures Digests(references) == [] <==> forall d :: d in references ==> d.mediaType == MEDIA_TYPE_IMAGE_CONFIG
  {
    if references != [] {
      var n := |references| - 1;
      NoDigestsIff(references[..n]);
      assert references == references[..n] + [references[n]];
    }
  }
}
