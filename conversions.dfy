/** The typed records of a master playlist and their construction from the attribute map of one tag
    (src/models/conversions.rs:8-183). Every builder reads its keys in the order its struct literal lists them and
    stops at the first key that is missing or whose text does not convert. */
module Conversions {
  import opened Errors
  import opened Numbers
  import opened Nom

  datatype Resolution = Resolution(width: U32, height: U32)

  /** The variants in the assumed declaration order, which the derived ordering follows. */
  datatype MediaType = Audio | Video | Subtitles | ClosedCaptions

  datatype VideoRange = PQ | SDR

  datatype VariantStream = VariantStream(
    uri: string,
    bandwidth: U32,
    averageBandwidth: U32,
    codecs: string,
    resolution: Resolution,
    videoRange: VideoRange,
    frameRate: string,
    audio: string,
    closedCaptions: string)

  datatype MediaTag = MediaTag(
    mediaType: MediaType,
    groupId: string,
    name: string,
    language: string,
    default: string,
    autoselect: string,
    channels: string,
    uri: string)

  datatype IFrame = IFrame(
    bandwidth: U32,
    codecs: string,
    resolution: Resolution,
    videoRange: VideoRange,
    uri: string)

  type Attributes = map<string, string>

  // Resolution

  function LowerChar(c: char): char {
    if 'A' <= c <= 'Z' then (c as int + 32) as char else c
  }

  /** `to_lowercase`, on ASCII letters. */
  function Lower(s: string): (r: string)
    ensures |r| == |s| && forall i :: 0 <= i < |s| ==> r[i] == LowerChar(s[i])
  {
    seq(|s|, i requires 0 <= i < |s| => LowerChar(s[i]))
  }

  const HeightMissing: string := "Could not find height in resolution"

  /** `Resolution::try_from`: lowercase, split at the first `x`, and parse the width and then the height. The
      part before the first `x` always exists (it is the whole text when there is no `x`), so a missing width
      cannot occur; a missing height is reported only after the width has parsed. */
  function ParseResolution(text: string): (r: Result<Resolution>)
    ensures var normalized := Lower(text); var n := SpanLength({'x'}, normalized);
      && (r.Ok? <==> n < |normalized| && ParseU32(normalized[..n]).Ok? && ParseU32(normalized[n + 1..]).Ok?)
      && (r.Ok? ==> r.value == Resolution(ParseU32(normalized[..n]).value, ParseU32(normalized[n + 1..]).value))
      && (r.Err? ==> r.error == if ParseU32(normalized[..n]).Err? then ParseU32(normalized[..n]).error
                               else if n == |normalized| then HLSFormat(HeightMissing)
                               else ParseU32(normalized[n + 1..]).error)
  {
    var normalized := Lower(text);
    var n := SpanLength({'x'}, normalized);
    match ParseU32(normalized[..n])
    case Err(e) => Err(e)
    case Ok(width) =>
      if n == |normalized| then
        Err(HLSFormat(HeightMissing))
      else
        match ParseU32(normalized[n + 1..])
        case Err(e) => Err(e)
        case Ok(height) => Ok(Resolution(width, height))
  }

  /** A width and a height written in decimal around an `x`. */
  function ResolutionText(r: Resolution): string {
    DecimalText(r.width) + "x" + DecimalText(r.height)
  }

  // Enums

  const MediaTypeNames: set<string> := {"AUDIO", "VIDEO", "SUBTITLES", "CLOSED-CAPTIONS"}

  function MediaTypeText(t: MediaType): string {
    match t
    case Audio => "AUDIO"
    case Video => "VIDEO"
    case Subtitles => "SUBTITLES"
    case ClosedCaptions => "CLOSED-CAPTIONS"
  }

  /** `MediaType::try_from`: exactly the four names, case-sensitive. */
  function ParseMediaType(text: string): (r: Result<MediaType>)
    ensures r.Ok? <==> text in MediaTypeNames
    ensures r.Ok? ==> MediaTypeText(r.value) == text
    ensures r.Err? ==> r.error == HLSFormat("Invalid media type specified: " + text)
  {
    match text
    case "CLOSED-CAPTIONS" => Ok(ClosedCaptions)
    case "AUDIO" => Ok(Audio)
    case "VIDEO" => Ok(Video)
    case "SUBTITLES" => Ok(Subtitles)
    case _ => Err(HLSFormat("Invalid media type specified: " + text))
  }

  const VideoRangeNames: set<string> := {"PQ", "SDR"}

  function VideoRangeText(v: VideoRange): string {
    match v
    case PQ => "PQ"
    case SDR => "SDR"
  }

  /** `VideoRange::try_from`: exactly `PQ` and `SDR`, case-sensitive. */
  function ParseVideoRange(text: string): (r: Result<VideoRange>)
    ensures r.Ok? <==> text in VideoRangeNames
    ensures r.Ok? ==> VideoRangeText(r.value) == text
    ensures r.Err? ==> r.error == HLSFormat("Invalid video range specified: " + text)
  {
    match text
    case "PQ" => Ok(PQ)
    case "SDR" => Ok(SDR)
    case _ => Err(HLSFormat("Invalid video range specified: " + text))
  }

  // Builders

  /** `attributes.get(key).ok_or(HLSFormat("HLS missing KEY"))?`. */
  function Required(m: Attributes, key: string): (r: Result<string>)
    ensures r.Ok? <==> key in m
    ensures r.Ok? ==> r.value == m[key]
    ensures r.Err? ==> r.error == HLSFormat("HLS missing " + key)
  {
    if key in m then Ok(m[key]) else Err(HLSFormat("HLS missing " + key))
  }

  /** `VariantStream::try_from`. */
  function VariantStreamFrom(m: Attributes): (r: Result<VariantStream>)
    ensures r.Err? ==> r.error.HLSFormat?
    ensures r.Ok? ==> && "URI" in m && r.value.uri == m["URI"]
                      && "BANDWIDTH" in m && ParseU32(m["BANDWIDTH"]) == Ok(r.value.bandwidth)
                      && "AVERAGE-BANDWIDTH" in m && ParseU32(m["AVERAGE-BANDWIDTH"]) == Ok(r.value.averageBandwidth)
                      && "CODECS" in m && r.value.codecs == m["CODECS"]
                      && "RESOLUTION" in m && ParseResolution(m["RESOLUTION"]) == Ok(r.value.resolution)
                      && "VIDEO-RANGE" in m && ParseVideoRange(m["VIDEO-RANGE"]) == Ok(r.value.videoRange)
                      && "FRAME-RATE" in m && r.value.frameRate == m["FRAME-RATE"]
                      && "AUDIO" in m && r.value.audio == m["AUDIO"]
                      && "CLOSED-CAPTIONS" in m && r.value.closedCaptions == m["CLOSED-CAPTIONS"]
  {
    var uri :- Required(m, "URI");
    var bandwidthText :- Required(m, "BANDWIDTH");
    var bandwidth :- ParseU32(bandwidthText);
    var averageText :- Required(m, "AVERAGE-BANDWIDTH");
    var averageBandwidth :- ParseU32(averageText);
    var codecs :- Required(m, "CODECS");
    var resolutionText :- Required(m, "RESOLUTION");
    var resolution :- ParseResolution(resolutionText);
    var rangeText :- Required(m, "VIDEO-RANGE");
    var videoRange :- ParseVideoRange(rangeText);
    var frameRate :- Required(m, "FRAME-RATE");
    var audio :- Required(m, "AUDIO");
    var closedCaptions :- Required(m, "CLOSED-CAPTIONS");
    Ok(VariantStream(uri, bandwidth, averageBandwidth, codecs, resolution, videoRange, frameRate, audio, closedCaptions))
  }

  /** `MediaTag::try_from`. */
  function MediaTagFrom(m: Attributes): (r: Result<MediaTag>)
    ensures r.Err? ==> r.error.HLSFormat?
    ensures r.Ok? ==> && "TYPE" in m && ParseMediaType(m["TYPE"]) == Ok(r.value.mediaType)
                      && "GROUP-ID" in m && r.value.groupId == m["GROUP-ID"]
                      && "NAME" in m && r.value.name == m["NAME"]
                      && "LANGUAGE" in m && r.value.language == m["LANGUAGE"]
                      && "DEFAULT" in m && r.value.default == m["DEFAULT"]
                      && "AUTOSELECT" in m && r.value.autoselect == m["AUTOSELECT"]
                      && "CHANNELS" in m && r.value.channels == m["CHANNELS"]
                      && "URI" in m && r.value.uri == m["URI"]
  {
    var typeText :- Required(m, "TYPE");
    var mediaType :- ParseMediaType(typeText);
    var groupId :- Required(m, "GROUP-ID");
    var name :- Required(m, "NAME");
    var language :- Required(m, "LANGUAGE");
    var default :- Required(m, "DEFAULT");
    var autoselect :- Required(m, "AUTOSELECT");
    var channels :- Required(m, "CHANNELS");
    var uri :- Required(m, "URI");
    Ok(MediaTag(mediaType, groupId, name, language, default, autoselect, channels, uri))
  }

  /** `IFrame::try_from`. */
  function IFrameFrom(m: Attributes): (r: Result<IFrame>)
    ensures r.Err? ==> r.error.HLSFormat?
    ensures r.Ok? ==> && "BANDWIDTH" in m && ParseU32(m["BANDWIDTH"]) == Ok(r.value.bandwidth)
                      && "CODECS" in m && r.value.codecs == m["CODECS"]
                      && "RESOLUTION" in m && ParseResolution(m["RESOLUTION"]) == Ok(r.value.resolution)
                      && "VIDEO-RANGE" in m && ParseVideoRange(m["VIDEO-RANGE"]) == Ok(r.value.videoRange)
                      && "URI" in m && r.value.uri == m["URI"]
  {
    var bandwidthText :- Required(m, "BANDWIDTH");
    var bandwidth :- ParseU32(bandwidthText);
    var codecs :- Required(m, "CODECS");
    var resolutionText :- Required(m, "RESOLUTION");
    var resolution :- ParseResolution(resolutionText);
    var rangeText :- Required(m, "VIDEO-RANGE");
    var videoRange :- ParseVideoRange(rangeText);
    var uri :- Required(m, "URI");
    Ok(IFrame(bandwidth, codecs, resolution, videoRange, uri))
  }

  // The key tables the builders follow

  /** How the text of a key becomes a field: copied, or converted by one of the parsers above. */
  datatype Conversion = Verbatim | Number | Dimensions | Range | Kind

  datatype Field = Field(key: string, conversion: Conversion)

  predicate Converts(c: Conversion, text: string) {
    match c
    case Verbatim => true
    case Number => ParseU32(text).Ok?
    case Dimensions => ParseResolution(text).Ok?
    case Range => ParseVideoRange(text).Ok?
    case Kind => ParseMediaType(text).Ok?
  }

  function ConversionError(c: Conversion, text: string): Error
    requires !Converts(c, text)
  {
    match c
    case Number => ParseU32(text).error
    case Dimensions => ParseResolution(text).error
    case Range => ParseVideoRange(text).error
    case Kind => ParseMediaType(text).error
  }

  /** The key is present and its text converts. */
  predicate FieldOk(m: Attributes, f: Field) {
    f.key in m && Converts(f.conversion, m[f.key])
  }

  /** What a builder reports for the field that stops it. */
  function FieldError(m: Attributes, f: Field): Error
    requires !FieldOk(m, f)
  {
    if f.key !in m then HLSFormat("HLS missing " + f.key) else ConversionError(f.conversion, m[f.key])
  }

  /** The fields of src/models/conversions.rs:141-180, in order. */
  const VariantStreamFields: seq<Field> := [
    Field("URI", Verbatim), Field("BANDWIDTH", Number), Field("AVERAGE-BANDWIDTH", Number),
    Field("CODECS", Verbatim), Field("RESOLUTION", Dimensions), Field("VIDEO-RANGE", Range),
    Field("FRAME-RATE", Verbatim), Field("AUDIO", Verbatim), Field("CLOSED-CAPTIONS", Verbatim)]

  /** The fields of src/models/conversions.rs:69-100, in order. */
  const MediaTagFields: seq<Field> := [
    Field("TYPE", Kind), Field("GROUP-ID", Verbatim), Field("NAME", Verbatim), Field("LANGUAGE", Verbatim),
    Field("DEFAULT", Verbatim), Field("AUTOSELECT", Verbatim), Field("CHANNELS", Verbatim), Field("URI", Verbatim)]

  /** The fields of src/models/conversions.rs:110-131, in order. */
  const IFrameFields: seq<Field> := [
    Field("BANDWIDTH", Number), Field("CODECS", Verbatim), Field("RESOLUTION", Dimensions),
    Field("VIDEO-RANGE", Range), Field("URI", Verbatim)]

  predicate AllFieldsOk(m: Attributes, fields: seq<Field>) {
    forall i :: 0 <= i < |fields| ==> FieldOk(m, fields[i])
  }

  /** Field `i` is the first that stops a builder. */
  predicate FirstFailing(m: Attributes, fields: seq<Field>, i: nat) {
    i < |fields| && !FieldOk(m, fields[i]) && forall j :: 0 <= j < i ==> FieldOk(m, fields[j])
  }

  /** When not every field is acceptable, some field is the first that is not. */
  lemma FirstFailingOf(m: Attributes, fields: seq<Field>) returns (i: nat)
    requires !AllFieldsOk(m, fields)
    ensures FirstFailing(m, fields, i)
  {
    var k :| 0 <= k < |fields| && !FieldOk(m, fields[k]);
    i := 0;
    while FieldOk(m, fields[i])
      invariant i <= k && forall j :: 0 <= j < i ==> FieldOk(m, fields[j])
      decreases k - i
    {
      i := i + 1;
    }
  }

  /** A variant stream is built exactly when every key is present and converts. */
  lemma VariantStreamAccepts(m: Attributes)
    ensures VariantStreamFrom(m).Ok? <==> AllFieldsOk(m, VariantStreamFields)
  {
    var f := VariantStreamFields;
    if AllFieldsOk(m, f) {
      assert FieldOk(m, f[0]) && FieldOk(m, f[1]) && FieldOk(m, f[2]) && FieldOk(m, f[3]) && FieldOk(m, f[4]);
      assert FieldOk(m, f[5]) && FieldOk(m, f[6]) && FieldOk(m, f[7]) && FieldOk(m, f[8]);
    } else {
      var i := FirstFailingOf(m, f);
      VariantStreamFirstError(m, i);
    }
  }

  /** A variant stream that is not built reports the first key, in literal order, that is missing or does not
      convert. */
  lemma VariantStreamFirstError(m: Attributes, i: nat)
    requires FirstFailing(m, VariantStreamFields, i)
    ensures VariantStreamFrom(m) == Err(FieldError(m, VariantStreamFields[i]))
  {
    var f := VariantStreamFields;
    assert i > 0 ==> FieldOk(m, f[0]);
    assert i > 1 ==> FieldOk(m, f[1]);
    assert i > 2 ==> FieldOk(m, f[2]);
    assert i > 3 ==> FieldOk(m, f[3]);
    assert i > 4 ==> FieldOk(m, f[4]);
    assert i > 5 ==> FieldOk(m, f[5]);
    assert i > 6 ==> FieldOk(m, f[6]);
    assert i > 7 ==> FieldOk(m, f[7]);
  }

  /** A media tag is built exactly when every key is present and converts. */
  lemma MediaTagAccepts(m: Attributes)
    ensures MediaTagFrom(m).Ok? <==> AllFieldsOk(m, MediaTagFields)
  {
    var f := MediaTagFields;
    if AllFieldsOk(m, f) {
      assert FieldOk(m, f[0]) && FieldOk(m, f[1]) && FieldOk(m, f[2]) && FieldOk(m, f[3]);
      assert FieldOk(m, f[4]) && FieldOk(m, f[5]) && FieldOk(m, f[6]) && FieldOk(m, f[7]);
    } else {
      var i := FirstFailingOf(m, f);
      MediaTagFirstError(m, i);
    }
  }

  /** A media tag that is not built reports the first key, in literal order, that is missing or does not
      convert. */
  lemma MediaTagFirstError(m: Attributes, i: nat)
    requires FirstFailing(m, MediaTagFields, i)
    ensures MediaTagFrom(m) == Err(FieldError(m, MediaTagFields[i]))
  {
    var f := MediaTagFields;
    assert i > 0 ==> FieldOk(m, f[0]);
    assert i > 1 ==> FieldOk(m, f[1]);
    assert i > 2 ==> FieldOk(m, f[2]);
    assert i > 3 ==> FieldOk(m, f[3]);
    assert i > 4 ==> FieldOk(m, f[4]);
    assert i > 5 ==> FieldOk(m, f[5]);
    assert i > 6 ==> FieldOk(m, f[6]);
  }

  /** An I-frame stream is built exactly when every key is present and converts. */
  lemma IFrameAccepts(m: Attributes)
    ensures IFrameFrom(m).Ok? <==> AllFieldsOk(m, IFrameFields)
  {
    var f := IFrameFields;
    if AllFieldsOk(m, f) {
      assert FieldOk(m, f[0]) && FieldOk(m, f[1]) && FieldOk(m, f[2]) && FieldOk(m, f[3]) && FieldOk(m, f[4]);
    } else {
      var i := FirstFailingOf(m, f);
      IFrameFirstError(m, i);
    }
  }

  /** An I-frame stream that is not built reports the first key, in literal order, that is missing or does not
      convert. */
  lemma IFrameFirstError(m: Attributes, i: nat)
    requires FirstFailing(m, IFrameFields, i)
    ensures IFrameFrom(m) == Err(FieldError(m, IFrameFields[i]))
  {
    var f := IFrameFields;
    assert i > 0 ==> FieldOk(m, f[0]);
    assert i > 1 ==> FieldOk(m, f[1]);
    assert i > 2 ==> FieldOk(m, f[2]);
    assert i > 3 ==> FieldOk(m, f[3]);
  }

  /** With no attributes at all, each builder reports the first key of its literal. */
  lemma EmptyAttributes()
    ensures VariantStreamFrom(map[]) == Err(HLSFormat("HLS missing URI"))
    ensures MediaTagFrom(map[]) == Err(HLSFormat("HLS missing TYPE"))
    ensures IFrameFrom(map[]) == Err(HLSFormat("HLS missing BANDWIDTH"))
  {
    VariantStreamFirstError(map[], 0);
    MediaTagFirstError(map[], 0);
    IFrameFirstError(map[], 0);
  }

  // Round trips through the text of the records

  /** Lowercasing leaves digits and a lowercase `x` alone and maps `X` to `x`. */
  lemma LowerResolutionText(w: U32, h: U32, sep: char)
    requires sep == 'x' || sep == 'X'
    ensures Lower(DecimalText(w) + [sep] + DecimalText(h)) == ResolutionText(Resolution(w, h))
  {
    var t := DecimalText(w) + [sep] + DecimalText(h);
    var r := ResolutionText(Resolution(w, h));
    assert |Lower(t)| == |r|;
    forall i | 0 <= i < |r|
      ensures Lower(t)[i] == r[i]
    {
      if i < |DecimalText(w)| {
        assert t[i] == DecimalText(w)[i] && IsDigit(t[i]);
      } else if i > |DecimalText(w)| {
        assert t[i] == DecimalText(h)[i - |DecimalText(w)| - 1] && IsDigit(t[i]);
      }
    }
  }

  /** Round trip: `WIDTHxHEIGHT` in decimal, with a lowercase or an uppercase `x`, reads back as the resolution. */
  lemma ResolutionRoundTrip(r: Resolution, sep: char)
    requires sep == 'x' || sep == 'X'
    ensures ParseResolution(DecimalText(r.width) + [sep] + DecimalText(r.height)) == Ok(r)
  {
    var w := DecimalText(r.width);
    var h := DecimalText(r.height);
    LowerResolutionText(r.width, r.height, sep);
    var normalized := ResolutionText(r);
    assert normalized == w + ("x" + h);
    assert NoneIn(w, {'x'}) by {
      forall i | 0 <= i < |w|
        ensures w[i] !in {'x'}
      {
        assert IsDigit(w[i]);
      }
    }
    SpanLengthOfPrefix({'x'}, w, "x" + h);
    assert normalized[..|w|] == w && normalized[|w| + 1..] == h;
    ParseU32RoundTrip(r.width);
    ParseU32RoundTrip(r.height);
  }

  /** Without an `x` there is no height: the text is parsed as a width, and when that succeeds the height is
      reported missing. */
  lemma ResolutionWithoutSeparator(text: string)
    requires 'x' !in Lower(text)
    ensures ParseResolution(text).Err?
    ensures ParseResolution(text).error
      == if ParseU32(Lower(text)).Err? then ParseU32(Lower(text)).error else HLSFormat(HeightMissing)
  {
    var normalized := Lower(text);
    var n := SpanLength({'x'}, normalized);
    assert normalized[..n] == normalized;
  }

  /** A second `x` belongs to the height, which then fails to parse. */
  lemma ResolutionWithTwoSeparators(w: string, h: string)
    requires 'x' !in w && 'x' in h
    requires forall i :: 0 <= i < |w + "x" + h| ==> (w + "x" + h)[i] == LowerChar((w + "x" + h)[i])
    ensures ParseU32(h).Err?
    ensures ParseResolution(w + "x" + h).Err?
  {
    var text := w + "x" + h;
    SeparatorFails(h);
    assert Lower(text) == text;
    assert text == w + ("x" + h);
    assert NoneIn(w, {'x'});
    SpanLengthOfPrefix({'x'}, w, "x" + h);
    assert text[|w| + 1..] == h;
  }

  /** A text holding an `x` is not a number. */
  lemma SeparatorFails(h: string)
    requires 'x' in h
    ensures ParseU32(h).Err?
  {
    var k :| 0 <= k < |h| && h[k] == 'x';
    assert !IsDigit(h[k]);
    ParseU32Ok(h);
    assert Digits(h) == h || Digits(h) == h[1..];
    if Digits(h) == h[1..] {
      assert k > 0 && Digits(h)[k - 1] == 'x';
    } else {
      assert Digits(h)[k] == 'x';
    }
  }

  /** Round trip of the two enums through their names. */
  lemma EnumRoundTrips(t: MediaType, v: VideoRange)
    ensures ParseMediaType(MediaTypeText(t)) == Ok(t)
    ensures ParseVideoRange(VideoRangeText(v)) == Ok(v)
  {
  }

  /** `m` holds at least the entries of `small`. */
  predicate Holds(m: Attributes, small: Attributes) {
    forall k :: k in small ==> k in m && m[k] == small[k]
  }

  /** The attribute map a variant stream is written as. */
  function VariantStreamMap(v: VariantStream): Attributes {
    map["URI" := v.uri, "BANDWIDTH" := DecimalText(v.bandwidth),
        "AVERAGE-BANDWIDTH" := DecimalText(v.averageBandwidth), "CODECS" := v.codecs,
        "RESOLUTION" := ResolutionText(v.resolution), "VIDEO-RANGE" := VideoRangeText(v.videoRange),
        "FRAME-RATE" := v.frameRate, "AUDIO" := v.audio, "CLOSED-CAPTIONS" := v.closedCaptions]
  }

  function MediaTagMap(t: MediaTag): Attributes {
    map["TYPE" := MediaTypeText(t.mediaType), "GROUP-ID" := t.groupId, "NAME" := t.name,
        "LANGUAGE" := t.language, "DEFAULT" := t.default, "AUTOSELECT" := t.autoselect,
        "CHANNELS" := t.channels, "URI" := t.uri]
  }

  function IFrameMap(f: IFrame): Attributes {
    map["BANDWIDTH" := DecimalText(f.bandwidth), "CODECS" := f.codecs,
        "RESOLUTION" := ResolutionText(f.resolution), "VIDEO-RANGE" := VideoRangeText(f.videoRange),
        "URI" := f.uri]
  }

  /** Round trip: any attribute map that holds the written fields of a variant stream builds it back; other keys
      are ignored. */
  lemma VariantStreamRoundTrip(v: VariantStream, m: Attributes)
    requires Holds(m, VariantStreamMap(v))
    ensures VariantStreamFrom(m) == Ok(v)
  {
    VariantStreamKeys(v, m);
    VariantStreamOfWritten(v, m);
  }

  /** The map has, under each key of a variant stream, the text that field is written as. */
  predicate WrittenVariantStream(v: VariantStream, m: Attributes) {
    && "URI" in m && m["URI"] == v.uri
    && "BANDWIDTH" in m && m["BANDWIDTH"] == DecimalText(v.bandwidth)
    && "AVERAGE-BANDWIDTH" in m && m["AVERAGE-BANDWIDTH"] == DecimalText(v.averageBandwidth)
    && "CODECS" in m && m["CODECS"] == v.codecs
    && "RESOLUTION" in m && m["RESOLUTION"] == ResolutionText(v.resolution)
    && "VIDEO-RANGE" in m && m["VIDEO-RANGE"] == VideoRangeText(v.videoRange)
    && "FRAME-RATE" in m && m["FRAME-RATE"] == v.frameRate
    && "AUDIO" in m && m["AUDIO"] == v.audio
    && "CLOSED-CAPTIONS" in m && m["CLOSED-CAPTIONS"] == v.closedCaptions
  }

  lemma VariantStreamKeys(v: VariantStream, m: Attributes)
    requires Holds(m, VariantStreamMap(v))
    ensures WrittenVariantStream(v, m)
  {
    var small := VariantStreamMap(v);
    assert "URI" in small && "BANDWIDTH" in small && "AVERAGE-BANDWIDTH" in small && "CODECS" in small;
    assert "RESOLUTION" in small && "VIDEO-RANGE" in small && "FRAME-RATE" in small && "AUDIO" in small;
    assert "CLOSED-CAPTIONS" in small;
  }

  /** A map with every field of a variant stream written under its key builds that variant stream. */
  lemma VariantStreamOfWritten(v: VariantStream, m: Attributes)
    requires WrittenVariantStream(v, m)
    ensures VariantStreamFrom(m) == Ok(v)
  {
    ParseU32RoundTrip(v.bandwidth);
    ParseU32RoundTrip(v.averageBandwidth);
    ResolutionRoundTrip(v.resolution, 'x');
    EnumRoundTrips(Audio, v.videoRange);
  }

  /** Round trip for media tags. */
  lemma MediaTagRoundTrip(t: MediaTag, m: Attributes)
    requires Holds(m, MediaTagMap(t))
    ensures MediaTagFrom(m) == Ok(t)
  {
    var small := MediaTagMap(t);
    assert "TYPE" in small && "GROUP-ID" in small && "NAME" in small && "LANGUAGE" in small;
    assert "DEFAULT" in small && "AUTOSELECT" in small && "CHANNELS" in small && "URI" in small;
    EnumRoundTrips(t.mediaType, PQ);
  }

  /** Round trip for I-frame streams. */
  lemma IFrameRoundTrip(f: IFrame, m: Attributes)
    requires Holds(m, IFrameMap(f))
    ensures IFrameFrom(m) == Ok(f)
  {
    var small := IFrameMap(f);
    assert "BANDWIDTH" in small && "CODECS" in small && "RESOLUTION" in small && "VIDEO-RANGE" in small;
    assert "URI" in small;
    IFrameOfWritten(f, m);
  }

  /** The map has, under each key of an I-frame stream, the text that field is written as. */
  predicate WrittenIFrame(f: IFrame, m: Attributes) {
    && "BANDWIDTH" in m && m["BANDWIDTH"] == DecimalText(f.bandwidth)
    && "CODECS" in m && m["CODECS"] == f.codecs
    && "RESOLUTION" in m && m["RESOLUTION"] == ResolutionText(f.resolution)
    && "VIDEO-RANGE" in m && m["VIDEO-RANGE"] == VideoRangeText(f.videoRange)
    && "URI" in m && m["URI"] == f.uri
  }

  /** A map with every field of an I-frame stream written under its key builds that I-frame stream. */
  lemma IFrameOfWritten(f: IFrame, m: Attributes)
    requires WrittenIFrame(f, m)
    ensures IFrameFrom(m) == Ok(f)
  {
    ParseU32RoundTrip(f.bandwidth);
    ResolutionRoundTrip(f.resolution, 'x');
    EnumRoundTrips(Audio, f.videoRange);
  }
}
