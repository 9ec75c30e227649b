/**
 * `getDownloadOptions` (static/js/app.js): the options object the download
 * form produces. The form's controls are inputs; the cookie file, when one
 * is selected, is given by what reading it as text produced.
 */
module ClientOptions {
  import opened Common
  import opened Values
  import Strings

  /** The outcome of reading the selected cookie file as text. */
  datatype CookieFile = Loaded(content: string) | Unreadable

  /** The download form's controls. */
  datatype Form = Form(
    quality: string,            // value of the quality select ('' for none)
    format: string,             // value of the container select ('' for none)
    audioOnly: bool,
    downloadPlaylist: bool,
    cookieText: string,         // the pasted cookie text, untrimmed
    cookieFile: Option<CookieFile>)

  const AudioFormat := "bestaudio/best"

  /** The audio-extraction postprocessor list sent with audio-only downloads. */
  function ExtractMp3(): Value {
    List([Dict(map[
      "key" := Str("FFmpegExtractAudio"),
      "preferredcodec" := Str("mp3"),
      "preferredquality" := Str("192")
    ])])
  }

  /** `options.format || 'best'`: the format chosen so far, when it is a non-empty string. */
  function FormatSoFar(options: map<string, Value>): string {
    if "format" in options && options["format"].Atom? && options["format"].a.Text? && options["format"].a.s != ""
    then options["format"].a.s
    else "best"
  }

  /** The `cookiedata` the form supplies: a selected file wins over pasted text, even when
      the file is empty; pasted text is trimmed. */
  function CookieChoice(f: Form): Option<string>
    requires f.cookieFile != Some(Unreadable)
  {
    match f.cookieFile
    case Some(file) => if file.content != "" then Some(file.content) else None
    case None =>
      var text := Strings.Trim(f.cookieText);
      if text != "" then Some(text) else None
  }

  /** `getDownloadOptions()`: the options object, or None when reading the cookie file fails
      (the promise rejects). */
  function GetDownloadOptions(f: Form): (r: Option<map<string, Value>>)
    ensures r.None? <==> f.cookieFile == Some(Unreadable)
    ensures r.Some? ==> r.value.Keys <= {"format", "postprocessors", "noplaylist", "cookiedata"}
    // format: audio-only wins; otherwise quality Q gives Q, container F gives Q[ext=F] or
    // best[ext=F]; with neither there is no format
    ensures r.Some? ==>
      ("format" in r.value <==> f.audioOnly || f.quality != "" || f.format != "")
    ensures r.Some? && f.audioOnly ==> r.value["format"] == Str(AudioFormat)
    ensures r.Some? && !f.audioOnly && f.format != "" ==>
      r.value["format"] == Str((if f.quality != "" then f.quality else "best") + "[ext=" + f.format + "]")
    ensures r.Some? && !f.audioOnly && f.format == "" && f.quality != "" ==>
      r.value["format"] == Str(f.quality)
    // audio-only adds the mp3 extraction postprocessor
    ensures r.Some? ==> ("postprocessors" in r.value <==> f.audioOnly)
    ensures r.Some? && f.audioOnly ==> r.value["postprocessors"] == ExtractMp3()
    // noplaylist: false only when the playlist box is checked
    ensures r.Some? ==> ("noplaylist" in r.value <==> f.downloadPlaylist)
    ensures r.Some? && f.downloadPlaylist ==> r.value["noplaylist"] == Bool(false)
    // cookies: a selected file decides, pasted text only counts without one
    ensures r.Some? && f.cookieFile.Some? ==>
      ("cookiedata" in r.value <==> f.cookieFile.value.content != "")
    ensures r.Some? && f.cookieFile.Some? && f.cookieFile.value.content != "" ==>
      r.value["cookiedata"] == Str(f.cookieFile.value.content)
    ensures r.Some? && f.cookieFile.None? ==>
      ("cookiedata" in r.value <==> Strings.Trim(f.cookieText) != "")
    ensures r.Some? && f.cookieFile.None? && Strings.Trim(f.cookieText) != "" ==>
      r.value["cookiedata"] == Str(Strings.Trim(f.cookieText))
  {
    if f.cookieFile == Some(Unreadable) then None
    else
      var o0: map<string, Value> := map[];
      var o1 := if f.quality != "" then o0["format" := Str(f.quality)] else o0;
      var o2 := if f.format != "" then o1["format" := Str(FormatSoFar(o1) + "[ext=" + f.format + "]")] else o1;
      var o3 := if f.audioOnly then o2["format" := Str(AudioFormat)]["postprocessors" := ExtractMp3()] else o2;
      var o4 := if f.downloadPlaylist then o3["noplaylist" := Bool(false)] else o3;
      var cookie := CookieChoice(f);
      Some(if cookie.Some? then o4["cookiedata" := Str(cookie.value)] else o4)
  }

  /** Every `cookiedata` the form sends is a non-empty string. */
  lemma CookieDataIsText(f: Form)
    requires GetDownloadOptions(f).Some? && "cookiedata" in GetDownloadOptions(f).value
    ensures GetDownloadOptions(f).value["cookiedata"].Atom?
    ensures GetDownloadOptions(f).value["cookiedata"].a.Text?
    ensures GetDownloadOptions(f).value["cookiedata"].a.s != ""
  {
    var c := CookieChoice(f);
    assert c.Some? && c.value != "";
    assert GetDownloadOptions(f).value["cookiedata"] == Str(c.value);
  }
}
