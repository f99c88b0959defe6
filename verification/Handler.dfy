/**
 The handler a poller reaches (GetScanReport in pkg/http/api/v1/handler.go), writing its
 answer step by step; Lifecycle gives the same answer as a function of the stored record.
 */
module Handler {
  import opened Harbor
  import opened Lifecycle
  import opened Protocol
  import opened Redis
  import opened Worker
  import opened Wrappers

  datatype Body = NoBody | ErrorBody(message: string) | ReportBody(report: ScanReport)

  /** The response being written; a handler writes its header once. */
  class ResponseWriter {
    var code: Option<int>
    var location: Option<string>
    var body: Body

    constructor ()
      ensures code == None && location == None && body == NoBody
    {
      code, location, body := None, None, NoBody;
    }

    method WriteHeader(status: int)
      requires code == None
      modifies this`code
      ensures code == Some(status)
    {
      code := Some(status);
    }

    method WriteJSONError(status: int, message: string)
      requires code == None
      modifies this`code, this`body
      ensures code == Some(status) && body == ErrorBody(message)
    {
      WriteHeader(status);
      body := ErrorBody(message);
    }

    /** What has been written is this response to a poller of the job. */
    ghost predicate Shows(r: Response, jobID: string, url: string)
      reads this
    {
      match r
      case Found => code == Some(302) && location == Some(url) && body == NoBody
      case Report(report) => code == Some(200) && location == None && body == ReportBody(report)
      case InternalError(message) => code == Some(500) && location == None && body == ErrorBody(message)
      case NotFound => code == Some(404) && location == None && body == ErrorBody("cannot find scan job: " + jobID)
    }
  }

  /** One GET, one response, and the record left as it is; a request without its path variable never reads. */
  method GetScanReport(res: ResponseWriter, outside: Outside, jobID: Option<string>, url: string) returns (ghost fate: Fate)
    requires res.code == None && res.location == None && res.body == NoBody
    requires jobID.Some? ==> jobID.value == outside.jobID
    modifies res, outside`db, outside`now, outside`calls
    ensures outside.OwnEntry() == old(outside.OwnEntry())
    ensures jobID == None ==> res.code == Some(400) && outside.calls == old(outside.calls)
    ensures jobID.Some? ==>
      res.Shows(
        ReportResponse(ReadResult(Serve(outside.OwnEntry(), outside.now, outside.cfg.ttlNanos, Command.Get, fate).1)),
        jobID.value, url)
  {
    fate := Delivered;
    if jobID == None {
      res.WriteJSONError(400, "missing scan_request_id");
      return;
    }
    var reply, _, sent := outside.Send(JobKey(outside.cfg.namespace, jobID.value), Command.Get);
    fate := sent;
    var got := ReadResult(reply);
    match got {
      case Err(message) =>
        res.WriteJSONError(500, "getting scan job: " + message);
      case Ok(None) =>
        res.WriteJSONError(404, "cannot find scan job: " + jobID.value);
      case Ok(Some(scanJob)) =>
        if scanJob.status == Pending || scanJob.status == Running {
          res.location := Some(url);
          res.WriteHeader(302);
          return;
        }
        if scanJob.status == Failed {
          res.WriteJSONError(500, scanJob.error);
          return;
        }
        if scanJob.status != Finished {
          res.WriteJSONError(500, "unexpected status");
          return;
        }
        res.WriteHeader(200);
        res.body := ReportBody(scanJob.report);
    }
  }
}
