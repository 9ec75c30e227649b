/**
 * How the two halves meet: the options the page builds go through the server's
 * merge, and the records the server keeps come back as `/progress/<id>` answers
 * that drive the page's polling.
 */
module Interplay {
  import opened Common
  import opened Values
  import opened ServerProgress
  import opened ServerDownload
  import ClientOptions
  import ClientSession
  import ClientFormat

  const PreparingText := "Preparing download..."

  /** The JSON body `/progress/<id>` sends for a record, as the page reads it. Only string file
      names are carried over. */
  function WireBody(p: Progress): (b: ClientSession.ProgressBody)
    ensures b.status == p.Status() && b.error == p.ErrorText()
    ensures b.status in {"starting", "downloading", "finished", "error", "not_found"}
    // an error text is sent for failed jobs and unknown ids only
    ensures b.error.Some? <==> p.Failed? || p.NotFound?
    ensures p.Failed? ==> b.error == Some(p.error)
    // a file name is read for starting records, and for the others that carry a string one
    ensures p.Starting? ==> b.filename == Some(PreparingText)
    ensures p.Downloading? || p.Finished? ==> (b.filename.Some? <==> p.filename.Text?)
    ensures (p.Downloading? || p.Finished?) && p.filename.Text? ==> b.filename == Some(p.filename.s)
    ensures p.Failed? || p.NotFound? ==> b.filename.None?
  {
    var filename :=
      match p
      case Starting => Some(PreparingText)
      case Downloading(_, _, _, _, _, Text(f)) => Some(f)
      case Finished(Text(f)) => Some(f)
      case _ => None;
    ClientSession.ProgressBody(p.Status(), p.ErrorText(), filename)
  }

  /** `/progress/<id>` answers with status 200 whatever it finds. */
  function ProgressReply(st: Store, id: string): (r: ClientSession.Reply<ClientSession.ProgressBody>)
    ensures r.Response? && r.ok
    // a known id is answered with its record
    ensures id in st.progress ==>
      r.body.status == st.progress[id].Status() && r.body.error == st.progress[id].ErrorText()
    // an unknown id with the default: not_found, 'Download not found', no file name
    ensures id !in st.progress ==>
      r.body == ClientSession.ProgressBody("not_found", Some("Download not found"), None)
  {
    ClientSession.Response(true, WireBody(GetProgress(st, id)))
  }

  /** A session tracking download `id`. */
  predicate Tracking(s: ClientSession.Session, id: string) {
    ClientSession.Valid(s) && ClientSession.Polling(s) && s.currentDownloadId == Some(id) && id != ""
  }

  /** An id the server has no record of is answered with `not_found`, which the page does not
      treat as final: it keeps polling, silently, for as long as the answer stays the same. */
  lemma UnknownIdKeepsPolling(st: Store, id: string, s: ClientSession.Session)
    requires id !in st.progress
    requires Tracking(s, id)
    ensures ClientSession.UpdateProgress(s, ProgressReply(st, id)) ==
      ClientSession.Tick(s, Some(id), ClientSession.NoNotice, false)
  {
  }

  /** The page stops polling exactly when the server holds a finished or failed record. */
  lemma PollingStopsIffFinal(st: Store, id: string, s: ClientSession.Session)
    requires Tracking(s, id)
    ensures var t := ClientSession.UpdateProgress(s, ProgressReply(st, id));
      !ClientSession.Polling(t.session) <==> GetProgress(st, id).Finished? || GetProgress(st, id).Failed?
  {
    ClientSession.StopsIffTerminal(s, ProgressReply(st, id));
  }

  /** A finished record is announced with a link to the file's base name, a failed one with
      its error text; on a coherent store the job status agrees with either. */
  lemma FinalRecordNotices(st: Store, id: string, s: ClientSession.Session)
    requires Coherent(st) && Tracking(s, id)
    ensures var t := ClientSession.UpdateProgress(s, ProgressReply(st, id));
      && (GetProgress(st, id).Failed? ==>
            && t.shown == ClientSession.ErrorNotice(ClientSession.FailedPrefix + GetProgress(st, id).error)
            && StatusOf(st, id) == Some(JobError))
      && (GetProgress(st, id).Finished? ==>
            && t.shown.SuccessNotice? && t.refreshFiles
            && StatusOf(st, id) == Some(JobCompleted)
            && (GetProgress(st, id).filename.Text? && GetProgress(st, id).filename.s != "" ==>
                  t.shown.alert.fileLink == Some(ClientFormat.GetFileName(GetProgress(st, id).filename.s))))
  {
    if id in st.progress {
      TerminalRecordsAgree(st, id);
    }
  }

  /** A download whose options the server cannot merge is reported on the next poll with the
      exception's text. */
  lemma MergeFailureReported(st: Store, id: string, options: Option<map<string, Value>>,
                             downloadsDir: string, cookiePath: string, run: EngineRun,
                             s: ClientSession.Session)
    requires Tracking(s, id)
    requires MergeOptions(id, options, downloadsDir, cookiePath).Err?
    ensures var after := DownloadVideo(st, id, options, downloadsDir, cookiePath, run);
      var t := ClientSession.UpdateProgress(s, ProgressReply(after, id));
      && !ClientSession.Polling(t.session)
      && t.shown == ClientSession.ErrorNotice(ClientSession.FailedPrefix +
                                              MergeOptions(id, options, downloadsDir, cookiePath).error.Message())
  {
  }

  /** The options the page sends always merge: the engine gets the page's format or the
      720p default, single-video mode unless the playlist box is checked, a cookie file exactly
      when cookie data was sent, the mp3 postprocessor exactly for audio-only, and never the
      raw `cookiedata`. */
  lemma FormOptionsReachEngine(f: ClientOptions.Form, id: string, downloadsDir: string, cookiePath: string)
    requires ClientOptions.GetDownloadOptions(f).Some?
    ensures var o := ClientOptions.GetDownloadOptions(f).value;
      var r := MergeOptions(id, Some(o), downloadsDir, cookiePath);
      && r.Ok?
      && r.value["format"] == (if "format" in o then o["format"] else Str(DefaultFormat))
      && r.value["noplaylist"] == Bool(!f.downloadPlaylist)
      && ("cookiefile" in r.value <==> "cookiedata" in o)
      && ("cookiedata" in o ==> r.value["cookiefile"] == Str(cookiePath))
      && "cookiedata" !in r.value
      && ("postprocessors" in r.value <==> f.audioOnly)
  {
    var o := ClientOptions.GetDownloadOptions(f).value;
    if "cookiedata" in o {
      ClientOptions.CookieDataIsText(f);
      assert CookieData(o) == o["cookiedata"];
    } else {
      assert CookieData(o) == Atom(Null);
    }
    var d := Defaults(id, downloadsDir);
    assert "format" in d && "noplaylist" in d && "postprocessors" !in d && "cookiefile" !in d;
  }
}
