/**
 * The server's progress bookkeeping (app.py): the two tracking maps
 * `download_progress` and `download_status`, the progress hook the download
 * engine calls with each event, the `/progress/<id>` lookup and the map
 * clearing done by `/cleanup`.
 */
module ServerProgress {
  import opened Common
  import opened Values

  /** What `download_status[id]` holds. */
  datatype JobStatus = JobDownloading | JobCompleted | JobError {
    function Name(): string {
      match this
      case JobDownloading => "downloading"
      case JobCompleted => "completed"
      case JobError => "error"
    }
  }

  /** The `percent` entry of a record: a whole number, or
      `round(downloaded / total * 100, 1)` kept as the unevaluated ratio. */
  datatype Percent = Whole(n: int) | Ratio(downloaded: int, total: int)

  /** One `download_progress` record, or the default `/progress/<id>` answers
      for an id it does not know. Entries that are constant for a kind of record are implied
      by its constructor and not stored: `Starting` stands for percent 0 and file name
      'Preparing download...', `Finished` for percent 100. */
  datatype Progress =
    | Starting
    | Downloading(percent: Percent, downloadedBytes: Scalar, totalBytes: Scalar,
                  speed: Scalar, eta: Scalar, filename: Scalar)
    | Finished(filename: Scalar)
    | Failed(error: string)
    | NotFound
  {
    /** The record's `status` entry. */
    function Status(): string {
      match this
      case Starting => "starting"
      case Downloading(_, _, _, _, _, _) => "downloading"
      case Finished(_) => "finished"
      case Failed(_) => "error"
      case NotFound => "not_found"
    }

    /** The record's `error` entry, if it has one. */
    function ErrorText(): Option<string> {
      match this
      case Failed(e) => Some(e)
      case NotFound => Some("Download not found")
      case _ => None
    }
  }

  /** The two global tracking maps, keyed by download id. */
  datatype Store = Store(progress: map<string, Progress>, status: map<string, JobStatus>)

  function EmptyStore(): Store {
    Store(map[], map[])
  }

  /** An exception a step may raise, with the text `str(e)` gives. */
  datatype PyError = KeyError(key: string) | TypeError(message: string) {
    function Message(): string {
      match this
      case KeyError(k) => "'" + k + "'"
      case TypeError(m) => m
    }
  }

  /** A progress event: the entries of the dictionary the engine passes to the hook. */
  type Event = map<string, Scalar>

  /** `d.get(key, default)`. */
  function Get(d: Event, key: string, default: Scalar): Scalar {
    if key in d then d[key] else default
  }

  /** `d.get('total_bytes') or d.get('total_bytes_estimate', 0)`. */
  function EventTotal(d: Event): Scalar {
    if ScalarTruthy(Get(d, "total_bytes", Null)) then Get(d, "total_bytes", Null)
    else Get(d, "total_bytes_estimate", Integer(0))
  }

  /** The record of a `downloading` event, or the TypeError computing its percent raises. */
  function DownloadingRecord(d: Event): Result<Progress, PyError> {
    var total := EventTotal(d);
    var downloaded := Get(d, "downloaded_bytes", Integer(0));
    var speed := Get(d, "speed", Integer(0));
    var eta := Get(d, "eta", Integer(0));
    var filename := Get(d, "filename", Text("Unknown"));
    match AsNumber(total)
    case None =>
      Err(TypeError("'>' not supported between instances of '" + ScalarTypeName(total) + "' and 'int'"))
    case Some(t) =>
      if t > 0 then
        match AsNumber(downloaded)
        case None =>
          Err(TypeError("unsupported operand type(s) for /: '" + ScalarTypeName(downloaded)
                        + "' and '" + ScalarTypeName(total) + "'"))
        case Some(n) => Ok(Downloading(Ratio(n, t), downloaded, total, speed, eta, filename))
      else
        Ok(Downloading(Whole(0), downloaded, total, speed, eta, filename))
  }

  /** `DownloadProgressHook(id)(d)`: the maps after one event, or the exception the hook raises. */
  function Hook(st: Store, id: string, d: Event): (r: Result<Store, PyError>)
    // nothing but the entries for `id` ever changes
    ensures r.Ok? ==> r.value.progress - {id} == st.progress - {id}
    ensures r.Ok? ==> r.value.status - {id} == st.status - {id}
    ensures r.Ok? ==> st.progress.Keys <= r.value.progress.Keys && st.status.Keys <= r.value.status.Keys
    // an event without a status is a KeyError
    ensures "status" !in d ==> r == Err(KeyError("status"))
    // downloading: a record with status downloading; download_status is left alone
    ensures "status" in d && d["status"] == Text("downloading") && r.Ok? ==>
      && id in r.value.progress
      && r.value.progress[id].Downloading?
      && r.value.status == st.status
      && r.value.progress[id].filename == Get(d, "filename", Text("Unknown"))
      && r.value.progress[id].downloadedBytes == Get(d, "downloaded_bytes", Integer(0))
      && r.value.progress[id].speed == Get(d, "speed", Integer(0))
      && r.value.progress[id].eta == Get(d, "eta", Integer(0))
      && r.value.progress[id].totalBytes ==
           (if "total_bytes" in d && ScalarTruthy(d["total_bytes"]) then d["total_bytes"]
            else if "total_bytes_estimate" in d then d["total_bytes_estimate"]
            else Integer(0))
      && AsNumber(r.value.progress[id].totalBytes).Some?
      && (r.value.progress[id].percent == Whole(0) <==>
            AsNumber(r.value.progress[id].totalBytes).value <= 0)
      && (AsNumber(r.value.progress[id].totalBytes).value > 0 ==>
            && AsNumber(r.value.progress[id].downloadedBytes).Some?
            && r.value.progress[id].percent ==
              Ratio(AsNumber(r.value.progress[id].downloadedBytes).value,
                    AsNumber(r.value.progress[id].totalBytes).value))
    // downloading fails exactly when the total, or the downloaded count it divides, is not a
    // number, and then with a TypeError
    ensures "status" in d && d["status"] == Text("downloading") ==>
      (r.Ok? <==>
        && AsNumber(EventTotal(d)).Some?
        && (AsNumber(EventTotal(d)).value > 0 ==> AsNumber(Get(d, "downloaded_bytes", Integer(0))).Some?))
    // the comparison of a non-number total with 0, or the division by it of a non-number count
    ensures "status" in d && d["status"] == Text("downloading") && r.Err? ==>
      r.error == TypeError(
        if AsNumber(EventTotal(d)).None? then
          "'>' not supported between instances of '" + ScalarTypeName(EventTotal(d)) + "' and 'int'"
        else
          "unsupported operand type(s) for /: '" + ScalarTypeName(Get(d, "downloaded_bytes", Integer(0)))
          + "' and '" + ScalarTypeName(EventTotal(d)) + "'")
    // finished: a finished record (percent 100) with the event's filename, which must be
    // present, beside status completed
    ensures "status" in d && d["status"] == Text("finished") ==>
      if "filename" in d then
        && r.Ok? && id in r.value.progress && id in r.value.status
        && r.value.progress[id] == Finished(d["filename"]) && r.value.status[id] == JobCompleted
      else r == Err(KeyError("filename"))
    // error: the event's error text, 'Unknown error' when absent
    ensures "status" in d && d["status"] == Text("error") ==>
      && r.Ok? && id in r.value.progress && id in r.value.status
      && r.value.progress[id] == Failed(ScalarStr(Get(d, "error", Text("Unknown error"))))
      && r.value.status[id] == JobError
    // any other status changes nothing
    ensures "status" in d && d["status"] !in {Text("downloading"), Text("finished"), Text("error")} ==>
      r == Ok(st)
  {
    if "status" !in d then Err(KeyError("status"))
    else if d["status"] == Text("downloading") then
      match DownloadingRecord(d)
      case Err(e) => Err(e)
      case Ok(p) => Ok(st.(progress := st.progress[id := p]))
    else if d["status"] == Text("finished") then
      if "filename" !in d then Err(KeyError("filename"))
      else Ok(Store(st.progress[id := Finished(d["filename"])], st.status[id := JobCompleted]))
    else if d["status"] == Text("error") then
      Ok(Store(st.progress[id := Failed(ScalarStr(Get(d, "error", Text("Unknown error"))))],
               st.status[id := JobError]))
    else
      Ok(st)
  }

  /** Whether a progress record is consistent with the job status stored beside it. */
  predicate Agrees(p: Progress, s: Option<JobStatus>) {
    match p
    case Starting => s == Some(JobDownloading)
    case Downloading(_, _, _, _, _, _) => true
    case Finished(_) => s == Some(JobCompleted)
    case Failed(_) => s == Some(JobError)
    case NotFound => false
  }

  function StatusOf(st: Store, id: string): Option<JobStatus> {
    if id in st.status then Some(st.status[id]) else None
  }

  /** The invariant every writer of the maps keeps: a status is only stored beside a
      progress record, the two agree, and `not_found` is never stored. */
  ghost predicate Coherent(st: Store) {
    && st.status.Keys <= st.progress.Keys
    && forall id :: id in st.progress ==> Agrees(st.progress[id], StatusOf(st, id))
  }

  /** The hook keeps the maps coherent. */
  lemma HookKeepsCoherent(st: Store, id: string, d: Event)
    ensures Coherent(st) && Hook(st, id, d).Ok? ==> Coherent(Hook(st, id, d).value)
  {
    var r := Hook(st, id, d);
    if Coherent(st) && r.Ok? {
      forall k | k in r.value.progress
        ensures Agrees(r.value.progress[k], StatusOf(r.value, k))
      {
        if k != id {
          assert r.value.progress[k] == st.progress[k];
          assert StatusOf(r.value, k) == StatusOf(st, k);
        }
      }
    }
  }

  /** Feeds the engine's events to the hook in order, stopping at the first exception. */
  function ApplyEvents(st: Store, id: string, events: seq<Event>): (r: Result<Store, PyError>)
    ensures r.Ok? ==> r.value.progress - {id} == st.progress - {id}
    ensures r.Ok? ==> r.value.status - {id} == st.status - {id}
    ensures r.Ok? ==> st.progress.Keys <= r.value.progress.Keys && st.status.Keys <= r.value.status.Keys
    ensures r.Ok? && Coherent(st) ==> Coherent(r.value)
    decreases |events|
  {
    if |events| == 0 then Ok(st)
    else
      HookKeepsCoherent(st, id, events[0]);
      match Hook(st, id, events[0])
      case Err(e) => Err(e)
      case Ok(next) => ApplyEvents(next, id, events[1..])
  }

  /** Feeding a sequence of events is feeding all but the last, then the last, unless an
      earlier event already raised. */
  lemma {:induction false} ApplyEventsLast(st: Store, id: string, events: seq<Event>)
    requires |events| > 0
    ensures var init := ApplyEvents(st, id, events[..|events| - 1]);
      ApplyEvents(st, id, events) ==
        (if init.Err? then init else Hook(init.value, id, events[|events| - 1]))
    decreases |events|
  {
    var n := |events|;
    var prefix := events[..n - 1];
    if n == 1 {
      assert prefix == [];
      match Hook(st, id, events[0])
      case Err(_) =>
      case Ok(next) => assert events[1..] == [];
    } else {
      assert prefix[0] == events[0];
      assert prefix[1..] == events[1..][..n - 2];
      match Hook(st, id, events[0])
      case Err(_) =>
      case Ok(next) => ApplyEventsLast(next, id, events[1..]);
    }
  }

  /** `/progress/<id>`: the stored record, or the `not_found` default. */
  function GetProgress(st: Store, id: string): (r: Progress)
    ensures id in st.progress ==> r == st.progress[id]
    ensures id !in st.progress ==> r.NotFound?
    ensures r.NotFound? ==> r.Status() == "not_found" && r.ErrorText() == Some("Download not found")
  {
    if id in st.progress then st.progress[id] else NotFound
  }

  /** On a coherent store the default answer is given exactly for the ids nothing was stored for. */
  lemma NotFoundIffUnknown(st: Store, id: string)
    requires Coherent(st)
    ensures GetProgress(st, id).NotFound? <==> id !in st.progress
  {
    if id in st.progress {
      assert Agrees(st.progress[id], StatusOf(st, id));
    }
  }

  /** What `/cleanup` does to the tracking maps: both are emptied once every download file is
      removed; a removal that raises skips the clearing and leaves every record in place. */
  function Cleanup(st: Store, removalFailed: bool): (r: Store)
    ensures !removalFailed ==> Coherent(r)
    ensures !removalFailed ==> forall id :: GetProgress(r, id) == NotFound && StatusOf(r, id) == None
    // after a failed removal every id is answered as before
    ensures removalFailed ==>
      forall id :: GetProgress(r, id) == GetProgress(st, id) && StatusOf(r, id) == StatusOf(st, id)
  {
    if removalFailed then st else EmptyStore()
  }
}
