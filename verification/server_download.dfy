/**
 * The pure part of `download_video` (app.py): merging the browser's options
 * into the engine's defaults, turning `cookiedata` into a `cookiefile`, and the
 * records written before the download runs and when anything raises.
 * The engine itself is an input: the events it reports and whether it raised.
 */
module ServerDownload {
  import opened Common
  import opened Values
  import opened ServerProgress

  const DefaultFormat := "best[height<=720]/best"
  const OutputTemplate := "%(playlist_index)s - %(title)s.%(ext)s"

  /** `os.path.join(dir, name)` on POSIX for a relative `name`. */
  function PathJoin(dir: string, name: string): string {
    if dir == "" || dir[|dir| - 1] == '/' then dir + name else dir + "/" + name
  }

  /** The options every download starts from. */
  function Defaults(id: string, downloadsDir: string): map<string, Value> {
    map[
      "outtmpl" := Str(PathJoin(downloadsDir, OutputTemplate)),
      "format" := Str(DefaultFormat),
      "progress_hooks" := List([ProgressHook(id)]),
      "noplaylist" := Bool(true)
    ]
  }

  /** `options.pop('cookiedata', None)`. */
  function CookieData(user: map<string, Value>): Value {
    if "cookiedata" in user then user["cookiedata"] else Atom(Null)
  }

  predicate IsStr(v: Value) {
    v.Atom? && v.a.Text?
  }

  /** The engine options for one download: the defaults, overridden by every user key but
      `cookiedata`; a non-empty `cookiedata` is written to the temporary file `cookiePath`
      and named by `cookiefile`. Writing a cookie value that is not a string raises. */
  function MergeOptions(id: string, options: Option<map<string, Value>>, downloadsDir: string,
                        cookiePath: string): (r: Result<map<string, Value>, PyError>)
    // without user options the defaults are used as they are
    ensures options.None? || options == Some(map[]) ==>
      && r == Ok(Defaults(id, downloadsDir))
      && r.value["format"] == Str(DefaultFormat) && r.value["noplaylist"] == Bool(true)
    // only a truthy non-string cookie value fails
    ensures r.Err? <==>
      options.Some? && Truthy(CookieData(options.value)) && !IsStr(CookieData(options.value))
    // the text `str(e)` gives: what `write()` says about the value's type
    ensures r.Err? ==>
      r.error == TypeError("write() argument must be str, not " + TypeName(CookieData(options.value)))
    ensures r.Ok? ==> "cookiedata" !in r.value
    // every user key but cookiedata overrides the default
    ensures r.Ok? && options.Some? ==>
      forall k :: k in options.value && k != "cookiedata" ==> k in r.value && r.value[k] == options.value[k]
    // defaults the user does not name stay
    ensures r.Ok? ==>
      forall k :: k in Defaults(id, downloadsDir) && (options.None? || k !in options.value) ==>
        k in r.value && r.value[k] == Defaults(id, downloadsDir)[k]
    // nothing else appears, except a cookiefile for truthy cookie data
    ensures r.Ok? ==>
      forall k :: k in r.value ==>
        || k in Defaults(id, downloadsDir)
        || (options.Some? && k in options.value)
        || k == "cookiefile"
    ensures r.Ok? ==>
      ("cookiefile" in r.value <==>
        options.Some? && ("cookiefile" in options.value || Truthy(CookieData(options.value))))
    ensures r.Ok? && options.Some? && Truthy(CookieData(options.value)) && "cookiefile" !in options.value ==>
      r.value["cookiefile"] == Str(cookiePath)
  {
    var defaults := Defaults(id, downloadsDir);
    match options
    case None => Ok(defaults)
    case Some(user) =>
      if user == map[] then Ok(defaults)
      else
        var cookie := CookieData(user);
        var rest := user - {"cookiedata"};
        if Truthy(cookie) then
          if IsStr(cookie) then Ok(defaults["cookiefile" := Str(cookiePath)] + rest)
          else Err(TypeError("write() argument must be str, not " + TypeName(cookie)))
        else Ok(defaults + rest)
  }

  /** What the download engine did with one job: the progress events it reported, and the
      text of the exception it raised, if it raised one after them. */
  datatype EngineRun = EngineRun(events: seq<Event>, raised: Option<string>)

  /** The records written just before the engine starts. */
  function Initialize(st: Store, id: string): (r: Store)
    ensures GetProgress(r, id) == Starting && StatusOf(r, id) == Some(JobDownloading)
    ensures r.progress - {id} == st.progress - {id} && r.status - {id} == st.status - {id}
    ensures Coherent(st) ==> Coherent(r)
  {
    Store(st.progress[id := Starting], st.status[id := JobDownloading])
  }

  /** The records the exception handler writes. */
  function RecordError(st: Store, id: string, message: string): (r: Store)
    ensures GetProgress(r, id) == Failed(message) && StatusOf(r, id) == Some(JobError)
    ensures r.progress - {id} == st.progress - {id} && r.status - {id} == st.status - {id}
    ensures Coherent(st) ==> Coherent(r)
  {
    Store(st.progress[id := Failed(message)], st.status[id := JobError])
  }

  /** `download_video(url, id, options)` seen through the tracking maps. */
  function DownloadVideo(st: Store, id: string, options: Option<map<string, Value>>,
                         downloadsDir: string, cookiePath: string, run: EngineRun): (r: Store)
    // the job always leaves records behind, and only for its own id
    ensures id in r.progress && id in r.status
    ensures r.progress - {id} == st.progress - {id} && r.status - {id} == st.status - {id}
    ensures Coherent(st) ==> Coherent(r)
    // options that cannot be merged fail the job before it starts
    ensures MergeOptions(id, options, downloadsDir, cookiePath).Err? ==>
      r == RecordError(st, id, MergeOptions(id, options, downloadsDir, cookiePath).error.Message())
    // an engine that reports nothing and does not raise leaves the starting records
    ensures MergeOptions(id, options, downloadsDir, cookiePath).Ok? && run == EngineRun([], None) ==>
      GetProgress(r, id) == Starting && StatusOf(r, id) == Some(JobDownloading)
    // every event reaches the records: without an exception the maps are what the hook made
    // of the starting records
    ensures MergeOptions(id, options, downloadsDir, cookiePath).Ok? && run.raised.None?
            && ApplyEvents(Initialize(st, id), id, run.events).Ok? ==>
      r == ApplyEvents(Initialize(st, id), id, run.events).value
    // an exception raised inside the hook is recorded with its text
    ensures MergeOptions(id, options, downloadsDir, cookiePath).Ok?
            && ApplyEvents(Initialize(st, id), id, run.events).Err? ==>
      && GetProgress(r, id) == Failed(ApplyEvents(Initialize(st, id), id, run.events).error.Message())
      && StatusOf(r, id) == Some(JobError)
    // an engine exception is recorded with its text
    ensures MergeOptions(id, options, downloadsDir, cookiePath).Ok? && run.raised.Some?
            && ApplyEvents(Initialize(st, id), id, run.events).Ok? ==>
      GetProgress(r, id) == Failed(run.raised.value) && StatusOf(r, id) == Some(JobError)
  {
    match MergeOptions(id, options, downloadsDir, cookiePath)
    case Err(e) => RecordError(st, id, e.Message())
    case Ok(_) =>
      var started := Initialize(st, id);
      match ApplyEvents(started, id, run.events)
      case Err(e) => RecordError(started, id, e.Message())
      case Ok(after) =>
        match run.raised
        case Some(message) => RecordError(after, id, message)
        case None => after
  }

  /** A failed record on a coherent store always sits beside status 'error', and a
      finished one beside 'completed'. */
  lemma TerminalRecordsAgree(st: Store, id: string)
    requires Coherent(st)
    requires id in st.progress
    ensures st.progress[id].Failed? ==> StatusOf(st, id) == Some(JobError)
    ensures st.progress[id].Finished? ==> StatusOf(st, id) == Some(JobCompleted)
  {
    assert Agrees(st.progress[id], StatusOf(st, id));
  }

  /** A run that does not raise and whose last event reports the file finished leaves the job
      finished with that file, beside status completed. */
  lemma FinishedRunCompletes(st: Store, id: string, options: Option<map<string, Value>>,
                             downloadsDir: string, cookiePath: string, run: EngineRun)
    requires MergeOptions(id, options, downloadsDir, cookiePath).Ok?
    requires run.raised.None? && |run.events| > 0
    requires ApplyEvents(Initialize(st, id), id, run.events[..|run.events| - 1]).Ok?
    requires var last := run.events[|run.events| - 1];
      "status" in last && last["status"] == Text("finished") && "filename" in last
    ensures var r := DownloadVideo(st, id, options, downloadsDir, cookiePath, run);
      && GetProgress(r, id) == Finished(run.events[|run.events| - 1]["filename"])
      && StatusOf(r, id) == Some(JobCompleted)
  {
    var started := Initialize(st, id);
    ApplyEventsLast(started, id, run.events);
    var before := ApplyEvents(started, id, run.events[..|run.events| - 1]).value;
    var last := run.events[|run.events| - 1];
    assert ApplyEvents(started, id, run.events) == Hook(before, id, last);
  }
}
