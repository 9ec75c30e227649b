/**
 * The two shaping rules `/info` applies to the engine's metadata (app.py):
 * long descriptions are cut to 200 characters plus an ellipsis, and the
 * format list keeps only the entries that carry video.
 */
module ServerInfo {
  import opened Common
  import opened Values

  const DescriptionLimit := 200
  const Ellipsis := "..."

  /** The `description` sent to the browser; `description` is None when the metadata has no
      description or it is `None`. */
  function ShortDescription(description: Option<string>): (r: string)
    ensures description.None? ==> r == ""
    ensures description.Some? && |description.value| <= DescriptionLimit ==> r == description.value
    ensures description.Some? && |description.value| > DescriptionLimit ==>
      && |r| == DescriptionLimit + |Ellipsis|
      && r[..DescriptionLimit] == description.value[..DescriptionLimit]
      && r[DescriptionLimit..] == Ellipsis
  {
    match description
    case None => ""
    case Some(desc) =>
      if desc == "" then ""
      else if |desc| > DescriptionLimit then desc[..DescriptionLimit] + Ellipsis
      else desc
  }

  /** Shortening a description already shortened changes nothing. */
  lemma ShortDescriptionIdempotent(description: Option<string>)
    ensures ShortDescription(Some(ShortDescription(description))) == ShortDescription(description)
  {
    var r := ShortDescription(description);
    if |r| > DescriptionLimit {
      assert r[..DescriptionLimit] + Ellipsis == r;
    }
  }

  /** A format entry of the metadata. */
  type Format = map<string, Value>

  /** The fields `/info` keeps of a format. */
  datatype FormatInfo = FormatInfo(formatId: Value, ext: Value, quality: Value,
                                   filesize: Value, height: Value, width: Value)

  /** `fmt.get(key, default)`. */
  function FormatGet(f: Format, key: string, default: Value): Value {
    if key in f then f[key] else default
  }

  /** `fmt.get('vcodec') != 'none'`: a missing codec counts as video. */
  predicate IsVideo(f: Format) {
    !("vcodec" in f && f["vcodec"] == Str("none"))
  }

  function Describe(f: Format): FormatInfo {
    FormatInfo(FormatGet(f, "format_id", Str("")), FormatGet(f, "ext", Str("")),
               FormatGet(f, "format_note", Str("")), FormatGet(f, "filesize", Int(0)),
               FormatGet(f, "height", Int(0)), FormatGet(f, "width", Int(0)))
  }

  /** Reference definition: the descriptions of the video formats, in their original order. */
  function VideoFormats(formats: seq<Format>): (r: seq<FormatInfo>)
    ensures |r| <= |formats|
  {
    if |formats| == 0 then []
    else (if IsVideo(formats[0]) then [Describe(formats[0])] else []) + VideoFormats(formats[1..])
  }

  /** Filtering distributes over concatenation, so relative order is kept. */
  lemma {:induction false} VideoFormatsAppend(a: seq<Format>, b: seq<Format>)
    ensures VideoFormats(a + b) == VideoFormats(a) + VideoFormats(b)
    decreases |a|
  {
    if |a| > 0 {
      assert (a + b)[1..] == a[1..] + b;
      VideoFormatsAppend(a[1..], b);
    } else {
      assert a + b == b;
    }
  }

  /** Every entry is kept exactly when it carries video. */
  lemma {:induction false} VideoFormatsCount(formats: seq<Format>)
    ensures |VideoFormats(formats)| == |formats| <==> forall i :: 0 <= i < |formats| ==> IsVideo(formats[i])
    ensures VideoFormats(formats) == [] <==> forall i :: 0 <= i < |formats| ==> !IsVideo(formats[i])
    decreases |formats|
  {
    if |formats| > 0 {
      VideoFormatsCount(formats[1..]);
      assert forall i :: 1 <= i < |formats| ==> formats[i] == formats[1..][i - 1];
    }
  }

  /** The loop of `/info` that builds the `formats` list. */
  method ListVideoFormats(formats: seq<Format>) returns (r: seq<FormatInfo>)
    ensures r == VideoFormats(formats)
  {
    r := [];
    var i := 0;
    while i < |formats|
      invariant 0 <= i <= |formats|
      invariant r == VideoFormats(formats[..i])
    {
      var f := formats[i];
      assert formats[..i + 1] == formats[..i] + [f];
      VideoFormatsAppend(formats[..i], [f]);
      if IsVideo(f) {
        r := r + [Describe(f)];
      }
      i := i + 1;
    }
    assert formats[..i] == formats;
  }
}
