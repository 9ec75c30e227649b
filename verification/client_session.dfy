/**
 * The download page's polling session (static/js/app.js): submitting a download,
 * the one-second progress timer, and what each poll answer does to the page.
 * Timers are modelled by their handles: `setInterval` hands out a fresh positive
 * handle and `clearInterval` removes it from the set of live timers. The server's
 * answers are inputs, one per request.
 */
module ClientSession {
  import opened Common
  import Strings
  import opened Values
  import ClientOptions
  import ClientFormat

  /** The success alert: its message and, when the download named a file, the name the
      "download file" button fetches. */
  datatype SuccessAlert = SuccessAlert(message: string, fileLink: Option<string>)

  /** The state of the page that the download flow reads and writes. */
  datatype Session = Session(
    currentDownloadId: Option<string>,  // `this.currentDownloadId`
    progressInterval: Option<nat>,      // `this.progressInterval`: a timer handle or null
    liveTimers: set<nat>,               // progress timers set and not yet cleared
    nextTimer: nat,                     // the handle the next `setInterval` returns
    buttonBusy: bool,                   // the download button disabled, showing "Starting..."
    progressShown: bool,                // the progress card displayed
    errorAlert: Option<string>,         // the error alert and its text, when displayed
    successAlert: Option<SuccessAlert>) // the success alert, when displayed

  /** The page as the constructor leaves it. */
  function Initial(): (r: Session)
    ensures Valid(r) && !Polling(r) && r.liveTimers == {}
    ensures r.currentDownloadId.None? && !r.buttonBusy && !r.progressShown
  {
    Session(None, None, {}, 1, false, false, None, None)
  }

  /** The timer bookkeeping every operation keeps: handles are positive and handed out in
      increasing order, and the only live progress timer is the one the session holds. */
  predicate Valid(s: Session) {
    && s.nextTimer >= 1
    && (forall h :: h in s.liveTimers ==> 1 <= h < s.nextTimer)
    && (match s.progressInterval
        case Some(h) => s.liveTimers == {h}
        case None => s.liveTimers == {})
  }

  /** Whether the session is polling: a progress timer is set. */
  predicate Polling(s: Session) {
    s.progressInterval.Some?
  }

  /** JavaScript truthiness of an optional string: present and not empty. */
  predicate TruthyText(t: Option<string>) {
    t.Some? && t.value != ""
  }

  /** `a || b` on an optional string and a fallback string. */
  function OrElse(t: Option<string>, fallback: string): (r: string)
    ensures TruthyText(t) ==> r == t.value
    ensures !TruthyText(t) ==> r == fallback
  {
    if TruthyText(t) then t.value else fallback
  }

  /** `startProgressTracking()`: clears the timer it holds, if any, and sets a new one. */
  function StartProgressTracking(s: Session): (r: Session)
    ensures Valid(s) ==> Valid(r)
    ensures r.progressInterval == Some(s.nextTimer)
    // the new handle is fresh and the previous timer is cleared
    ensures Valid(s) ==> s.nextTimer !in s.liveTimers && r.liveTimers == {s.nextTimer}
    ensures r.currentDownloadId == s.currentDownloadId && r.buttonBusy == s.buttonBusy
    ensures r.progressShown == s.progressShown
    ensures r.errorAlert == s.errorAlert && r.successAlert == s.successAlert
  {
    var cleared := if s.progressInterval.Some? then s.liveTimers - {s.progressInterval.value} else s.liveTimers;
    var handle := s.nextTimer;
    s.(progressInterval := Some(handle), liveTimers := cleared + {handle}, nextTimer := handle + 1)
  }

  /** `stopProgressTracking()`: clears the held timer, if any. */
  function StopProgressTracking(s: Session): (r: Session)
    ensures Valid(s) ==> Valid(r) && r.liveTimers == {}
    ensures !Polling(r)
    ensures !Polling(s) ==> r == s
    ensures r.currentDownloadId == s.currentDownloadId && r.buttonBusy == s.buttonBusy
    ensures r.progressShown == s.progressShown
    ensures r.errorAlert == s.errorAlert && r.successAlert == s.successAlert
  {
    match s.progressInterval
    case Some(h) => s.(progressInterval := None, liveTimers := s.liveTimers - {h})
    case None => s
  }

  /** Stopping twice is stopping once. */
  lemma StopIdempotent(s: Session)
    ensures StopProgressTracking(StopProgressTracking(s)) == StopProgressTracking(s)
  {
  }

  /** However often tracking is started and stopped, at most one progress timer is live: the
      bookkeeping holds initially (`Initial`) and every operation keeps it. */
  lemma AtMostOneTimer(s: Session)
    requires Valid(s)
    ensures |s.liveTimers| <= 1
    ensures Polling(s) <==> |s.liveTimers| == 1
  {
  }

  /** A notice the page displays in reaction to one step. */
  datatype Notice = NoNotice | ErrorNotice(message: string) | SuccessNotice(alert: SuccessAlert)

  /** `showError(message)`. */
  function ShowError(s: Session, message: string): (r: Session)
    ensures r.errorAlert == Some(message)
    // nothing else on the page changes
    ensures r.currentDownloadId == s.currentDownloadId && r.progressInterval == s.progressInterval
    ensures r.liveTimers == s.liveTimers && r.nextTimer == s.nextTimer
    ensures r.buttonBusy == s.buttonBusy && r.progressShown == s.progressShown
    ensures r.successAlert == s.successAlert
  {
    s.(errorAlert := Some(message))
  }

  /** `showSuccess(message, filename)`: the alert links the file's base name when a file name is
      given, and the progress card is hidden. */
  function SuccessFor(message: string, filename: Option<string>): (a: SuccessAlert)
    ensures a.message == message
    ensures a.fileLink.Some? <==> TruthyText(filename)
    ensures a.fileLink.Some? ==> a.fileLink.value == ClientFormat.GetFileName(filename.value)
  {
    SuccessAlert(message, if TruthyText(filename) then Some(ClientFormat.GetFileName(filename.value)) else None)
  }

  // ---------------------------------------------------------------------------------------
  // Starting a download

  /** The body of a `/download` answer: `download_id` and `error`, when present. */
  datatype DownloadBody = DownloadBody(downloadId: Option<string>, error: Option<string>)

  /** What a request produced: the fetch failed or the answer's body could not be read (with
      the error's message), or an answer with its `ok` flag and body. */
  datatype Reply<B> = Unreachable(message: string) | Response(ok: bool, body: B)

  /** The `/download` request body. */
  datatype DownloadRequest = DownloadRequest(url: string, options: map<string, Value>)

  /** The outcome of submitting the form: the page after it, the request sent if any, and the
      notice shown. */
  datatype Submission = Submission(session: Session, request: Option<DownloadRequest>, shown: Notice)

  const EnterUrl := "Please enter a video URL"
  const StartFailedPrefix := "Failed to start download: "
  const StartFailedDefault := "Failed to start download"

  /** `startDownload()`, given the URL field, the form, and the answer `/download` gives. */
  function StartDownload(s: Session, urlInput: string, form: ClientOptions.Form,
                         reply: Reply<DownloadBody>): (r: Submission)
    ensures Valid(s) ==> Valid(r.session)
    // an empty URL is refused before anything is sent
    ensures Strings.Trim(urlInput) == "" ==>
      r.request.None? && r.shown == ErrorNotice(EnterUrl) && r.session == ShowError(s, EnterUrl)
    // a cookie file that cannot be read aborts silently
    ensures Strings.Trim(urlInput) != "" && ClientOptions.GetDownloadOptions(form).None? ==>
      r == Submission(s, None, NoNotice)
    // otherwise the trimmed URL and the form's options are posted
    ensures r.request.Some? <==>
      Strings.Trim(urlInput) != "" && ClientOptions.GetDownloadOptions(form).Some?
    ensures r.request.Some? ==>
      r.request.value == DownloadRequest(Strings.Trim(urlInput), ClientOptions.GetDownloadOptions(form).value)
    // an accepted download is tracked under the id the server returned
    ensures r.request.Some? && reply.Response? && reply.ok ==>
      && r.session.currentDownloadId == reply.body.downloadId
      && Polling(r.session) && (Valid(s) ==> r.session.liveTimers == {r.session.progressInterval.value})
      && (Valid(s) ==> r.session.progressInterval.value !in s.liveTimers)
      && r.session.buttonBusy && r.session.progressShown
      && r.session.errorAlert.None? && r.session.successAlert.None? && r.shown == NoNotice
    // a refused or failed request leaves tracking and the progress card alone, enables the
    // button, and says why
    ensures r.request.Some? && !(reply.Response? && reply.ok) ==>
      && r.session.currentDownloadId == s.currentDownloadId
      && r.session.progressInterval == s.progressInterval && r.session.liveTimers == s.liveTimers
      && r.session.progressShown == s.progressShown
      && !r.session.buttonBusy
      && r.session.successAlert.None?
      && r.shown.ErrorNotice? && r.session.errorAlert == Some(r.shown.message)
      && r.shown.message == StartFailedPrefix +
           (match reply
            case Unreachable(m) => m
            case Response(_, body) => OrElse(body.error, StartFailedDefault))
  {
    var url := Strings.Trim(urlInput);
    if url == "" then
      Submission(ShowError(s, EnterUrl), None, ErrorNotice(EnterUrl))
    else
      match ClientOptions.GetDownloadOptions(form)
      case None => Submission(s, None, NoNotice)
      case Some(options) =>
        var request := DownloadRequest(url, options);
        var sending := s.(buttonBusy := true, errorAlert := None, successAlert := None);
        match reply
        case Response(true, body) =>
          var tracked := StartProgressTracking(sending.(currentDownloadId := body.downloadId, progressShown := true));
          Submission(tracked, Some(request), NoNotice)
        case _ =>
          var message := StartFailedPrefix +
            (match reply
             case Unreachable(m) => m
             case Response(_, body) => OrElse(body.error, StartFailedDefault));
          Submission(ShowError(sending.(buttonBusy := false), message), Some(request), ErrorNotice(message))
  }

  // ---------------------------------------------------------------------------------------
  // Polling

  /** The fields of a `/progress/<id>` answer the session reads. */
  datatype ProgressBody = ProgressBody(status: string, error: Option<string>, filename: Option<string>)

  /** The outcome of one timer tick: the page after it, the id whose progress was requested,
      the notice shown, and whether the file list is reloaded. */
  datatype Tick = Tick(session: Session, fetched: Option<string>, shown: Notice, refreshFiles: bool)

  const Completed := "Download completed successfully!"
  const FailedPrefix := "Download failed: "
  const TrackingPrefix := "Error tracking progress: "
  const TrackingDefault := "Failed to get progress"

  /** An answer that ends polling: a failed request, a refused one, or a final status. */
  predicate Terminal(reply: Reply<ProgressBody>) {
    match reply
    case Unreachable(_) => true
    case Response(ok, body) => !ok || body.status == "finished" || body.status == "error"
  }

  /** `${x}` of an optional string: an absent value prints as `undefined`. */
  function Interpolate(t: Option<string>): (r: string)
    ensures t.Some? ==> r == t.value
  {
    if t.Some? then t.value else "undefined"
  }

  /** The notice a terminal answer produces. */
  function TerminalNotice(reply: Reply<ProgressBody>): (n: Notice)
    requires Terminal(reply)
    ensures n != NoNotice
    ensures n.SuccessNotice? <==> reply.Response? && reply.ok && reply.body.status == "finished"
  {
    match reply
    case Unreachable(m) => ErrorNotice(TrackingPrefix + m)
    case Response(ok, body) =>
      if !ok then ErrorNotice(TrackingPrefix + OrElse(body.error, TrackingDefault))
      else if body.status == "finished" then SuccessNotice(SuccessFor(Completed, body.filename))
      else ErrorNotice(FailedPrefix + Interpolate(body.error))
  }

  /** `updateProgress()`, given the answer `/progress/<id>` gives. */
  function UpdateProgress(s: Session, reply: Reply<ProgressBody>): (r: Tick)
    ensures Valid(s) ==> Valid(r.session)
    // without an id nothing is requested and nothing changes
    ensures !TruthyText(s.currentDownloadId) ==> r == Tick(s, None, NoNotice, false)
    ensures TruthyText(s.currentDownloadId) ==> r.fetched == s.currentDownloadId
    // an answer that is not final changes nothing: polling goes on
    ensures TruthyText(s.currentDownloadId) && !Terminal(reply) ==>
      r.session == s && r.shown == NoNotice && !r.refreshFiles
    // a final answer stops polling, hides the progress card, frees the button and says so
    ensures TruthyText(s.currentDownloadId) && Terminal(reply) ==>
      && !Polling(r.session)
      && (Valid(s) ==> r.session.liveTimers == {})
      && !r.session.buttonBusy && !r.session.progressShown
      && r.session.currentDownloadId == s.currentDownloadId
      && r.shown != NoNotice
    ensures r.shown.ErrorNotice? ==> r.session.errorAlert == Some(r.shown.message)
    ensures r.shown.SuccessNotice? ==> r.session.successAlert == Some(r.shown.alert)
    // each notice leaves the other alert as it was, and no timer is set
    ensures r.shown.SuccessNotice? ==> r.session.errorAlert == s.errorAlert
    ensures !r.shown.SuccessNotice? ==> r.session.successAlert == s.successAlert
    ensures r.session.nextTimer == s.nextTimer
    // completion shows the success alert with the file's link and reloads the file list
    ensures r.refreshFiles <==> r.shown.SuccessNotice?
    ensures r.shown.SuccessNotice? <==>
      TruthyText(s.currentDownloadId) && reply.Response? && reply.ok && reply.body.status == "finished"
    ensures r.shown.SuccessNotice? ==> r.shown.alert == SuccessFor(Completed, reply.body.filename)
    // the three error notices
    ensures TruthyText(s.currentDownloadId) && reply.Unreachable? ==>
      r.shown == ErrorNotice(TrackingPrefix + reply.message)
    ensures TruthyText(s.currentDownloadId) && reply.Response? && !reply.ok ==>
      r.shown == ErrorNotice(TrackingPrefix + OrElse(reply.body.error, TrackingDefault))
    ensures TruthyText(s.currentDownloadId) && reply.Response? && reply.ok && reply.body.status == "error" ==>
      r.shown == ErrorNotice(FailedPrefix + Interpolate(reply.body.error))
  {
    if !TruthyText(s.currentDownloadId) then Tick(s, None, NoNotice, false)
    else if !Terminal(reply) then Tick(s, s.currentDownloadId, NoNotice, false)
    else
      var stopped := StopProgressTracking(s).(progressShown := false, buttonBusy := false);
      var n := TerminalNotice(reply);
      match n
      case SuccessNotice(alert) =>
        Tick(stopped.(successAlert := Some(alert)), s.currentDownloadId, n, true)
      case ErrorNotice(m) =>
        Tick(ShowError(stopped, m), s.currentDownloadId, n, false)
      case NoNotice =>
        Tick(stopped, s.currentDownloadId, n, false)
  }

  /** While a download is tracked, a tick stops polling exactly when the answer is final. */
  lemma StopsIffTerminal(s: Session, reply: Reply<ProgressBody>)
    requires Valid(s) && Polling(s) && TruthyText(s.currentDownloadId)
    ensures !Polling(UpdateProgress(s, reply).session) <==> Terminal(reply)
    ensures UpdateProgress(s, reply).shown != NoNotice <==> Terminal(reply)
  {
  }

  /** The outcome of the timer firing once per answer while it is set: the page afterwards
      and the notices shown, in order. */
  datatype Polled = Polled(session: Session, shown: seq<Notice>)

  /** The timer firing once per answer while it is set. */
  function Run(s: Session, replies: seq<Reply<ProgressBody>>): (r: Polled)
    // every final answer clears the timer first, so a run shows at most one notice
    ensures |r.shown| <= 1
    ensures forall i :: 0 <= i < |r.shown| ==> r.shown[i] != NoNotice
    ensures Valid(s) ==> Valid(r.session)
    decreases |replies|
  {
    if |replies| == 0 || !Polling(s) then Polled(s, [])
    else
      var t := UpdateProgress(s, replies[0]);
      var rest := Run(t.session, replies[1..]);
      Polled(rest.session, (if t.shown == NoNotice then [] else [t.shown]) + rest.shown)
  }

  /** Answers that are never final keep the session polling, unchanged and silent. */
  lemma {:induction false} RunNonTerminal(s: Session, replies: seq<Reply<ProgressBody>>)
    requires Polling(s) && TruthyText(s.currentDownloadId)
    requires forall i :: 0 <= i < |replies| ==> !Terminal(replies[i])
    ensures Run(s, replies) == Polled(s, [])
    decreases |replies|
  {
    if |replies| > 0 {
      assert !Terminal(replies[0]);
      RunNonTerminal(s, replies[1..]);
    }
  }

  /** The first final answer ends polling: the session is what that answer made of it, and its
      notice is the only one shown; later answers are never requested. */
  lemma {:induction false} RunStopsAtFirstTerminal(s: Session, replies: seq<Reply<ProgressBody>>, k: nat)
    requires Valid(s) && Polling(s) && TruthyText(s.currentDownloadId)
    requires k < |replies| && Terminal(replies[k])
    requires forall i :: 0 <= i < k ==> !Terminal(replies[i])
    ensures Run(s, replies).session == UpdateProgress(s, replies[k]).session
    ensures Run(s, replies).shown == [UpdateProgress(s, replies[k]).shown]
    ensures !Polling(Run(s, replies).session) && Run(s, replies).session.liveTimers == {}
    decreases k
  {
    if k == 0 {
      var t := UpdateProgress(s, replies[0]);
      assert Run(t.session, replies[1..]) == Polled(t.session, []);
    } else {
      assert !Terminal(replies[0]);
      RunStopsAtFirstTerminal(s, replies[1..], k - 1);
    }
  }

  /** One thing that can happen to the page: a form submission with its answer, or a tick of
      the progress timer with its answer. */
  datatype Action =
    | Submit(urlInput: string, form: ClientOptions.Form, answer: Reply<DownloadBody>)
    | Poll(progress: Reply<ProgressBody>)

  /** The page after a sequence of actions, in order. */
  function Replay(s: Session, actions: seq<Action>): (r: Session)
    ensures Valid(s) ==> Valid(r)
    decreases |actions|
  {
    if |actions| == 0 then s
    else
      var next :=
        match actions[0]
        case Submit(u, f, a) => StartDownload(s, u, f, a).session
        case Poll(p) => UpdateProgress(s, p).session;
      Replay(next, actions[1..])
  }

  /** From the page's initial state, whatever is submitted and answered, at most one progress
      timer is ever live, and one is live exactly while the page polls. */
  lemma OneTimerAfterAnyActions(actions: seq<Action>)
    ensures |Replay(Initial(), actions).liveTimers| <= 1
    ensures Polling(Replay(Initial(), actions)) <==> |Replay(Initial(), actions).liveTimers| == 1
  {
    AtMostOneTimer(Replay(Initial(), actions));
  }
}
