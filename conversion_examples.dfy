/** Concrete instances of the conversions, taken from the records the repository's model tests build. */
module ConversionExamples {
  import opened Errors
  import opened Numbers
  import opened Conversions
  import Playlist

  lemma Decimal640And360()
    ensures DecimalText(640) == "640" && DecimalText(360) == "360"
  {
  }

  /** An I-frame resolution reads with either case of the separator. */
  lemma IFrameResolution(s: string)
    requires s == "640x360" || s == "640X360"
    ensures ParseResolution(s) == Ok(Resolution(640, 360))
  {
    Decimal640And360();
    var sep := s[3];
    assert s == DecimalText(640) + [sep] + DecimalText(360);
    ResolutionRoundTrip(Resolution(640, 360), sep);
  }

  /** A lone width is reported as a missing height. */
  lemma LoneWidth(s: string)
    requires s == "640"
    ensures ParseResolution(s) == Err(HLSFormat(HeightMissing))
  {
    Decimal640And360();
    ParseU32RoundTrip(640);
    assert Lower(s) == s;
    ResolutionWithoutSeparator(s);
  }

  /** Enum names are case-sensitive. */
  lemma LowercaseMediaType(s: string)
    requires s == "audio"
    ensures ParseMediaType(s) == Err(HLSFormat("Invalid media type specified: audio"))
  {
  }

  /** A stream variant without attributes is rejected for its missing `URI`. */
  lemma RejectsBadVariantStream(records: seq<Playlist.Record>)
    requires records == [(Playlist.StreamInf, map[])]
    ensures Playlist.Convert(records) == Err(HLSFormat("HLS missing URI"))
  {
    EmptyAttributes();
    Playlist.ConvertRecordDispatch(records[0]);
    Playlist.ConvertFirstError(records, 0);
  }

  /** An I-frame stream without attributes is rejected for its missing `BANDWIDTH`. */
  lemma RejectsBadIFrame(records: seq<Playlist.Record>)
    requires records == [(Playlist.IFrameStreamInf, map[])]
    ensures Playlist.Convert(records) == Err(HLSFormat("HLS missing BANDWIDTH"))
  {
    EmptyAttributes();
    Playlist.ConvertRecordDispatch(records[0]);
    Playlist.ConvertFirstError(records, 0);
  }

  /** A media tag without attributes is rejected for its missing `TYPE`. */
  lemma RejectsBadMediaTag(records: seq<Playlist.Record>)
    requires records == [(Playlist.Media, map[])]
    ensures Playlist.Convert(records) == Err(HLSFormat("HLS missing TYPE"))
  {
    EmptyAttributes();
    Playlist.ConvertRecordDispatch(records[0]);
    Playlist.ConvertFirstError(records, 0);
  }

  /** One more digit on the right of a decimal text. */
  lemma DecimalStep(n: nat, high: string)
    requires n >= 10 && DecimalText(n / 10) == high
    ensures DecimalText(n) == high + ['0' + ((n % 10) as char)]
  {
  }

  lemma DecimalBandwidth()
    ensures DecimalText(2483789) == "2483789"
  {
    DecimalStep(24, "2");
    DecimalStep(248, "24");
    DecimalStep(2483, "248");
    DecimalStep(24837, "2483");
    DecimalStep(248378, "24837");
    DecimalStep(2483789, "248378");
  }

  lemma DecimalAverageBandwidth()
    ensures DecimalText(1762745) == "1762745"
  {
    DecimalStep(17, "1");
    DecimalStep(176, "17");
    DecimalStep(1762, "176");
    DecimalStep(17627, "1762");
    DecimalStep(176274, "17627");
    DecimalStep(1762745, "176274");
  }

  lemma DecimalDimensions()
    ensures DecimalText(11960) == "11960" && DecimalText(55540) == "55540"
  {
    DecimalStep(11, "1");
    DecimalStep(119, "11");
    DecimalStep(1196, "119");
    DecimalStep(11960, "1196");
    DecimalStep(55, "5");
    DecimalStep(555, "55");
    DecimalStep(5554, "555");
    DecimalStep(55540, "5554");
  }

  // The records and the expected values of the model tests

  const VariantStreamAttributes: Attributes :=
    map["URI" := "hdr10/unenc/1650k/vod.m3u8", "BANDWIDTH" := "2483789", "AVERAGE-BANDWIDTH" := "1762745",
        "CODECS" := "mp4a.40.2,hvc1.2.4.L90.90", "RESOLUTION" := "11960x55540", "VIDEO-RANGE" := "PQ",
        "FRAME-RATE" := "23.97", "AUDIO" := "aac-128k", "CLOSED-CAPTIONS" := "NONE"]

  const ExampleVariantStream: VariantStream :=
    VariantStream("hdr10/unenc/1650k/vod.m3u8", 2483789, 1762745, "mp4a.40.2,hvc1.2.4.L90.90",
                  Resolution(11960, 55540), PQ, "23.97", "aac-128k", "NONE")

  const MediaAttributes: Attributes :=
    map["TYPE" := "AUDIO", "GROUP-ID" := "aac-64k", "NAME" := "English", "LANGUAGE" := "en", "DEFAULT" := "YES",
        "AUTOSELECT" := "YES", "CHANNELS" := "2", "URI" := "audio/unenc/aac_64k/vod.m3u8"]

  const ExampleMediaTag: MediaTag :=
    MediaTag(Audio, "aac-64k", "English", "en", "YES", "YES", "2", "audio/unenc/aac_64k/vod.m3u8")

  const IFrameAttributes: Attributes :=
    map["BANDWIDTH" := "77758", "CODECS" := "hvc1.2.4.L63.90", "RESOLUTION" := "640x360", "VIDEO-RANGE" := "PQ",
        "URI" := "hdr10/unenc/900k/vod-iframe.m3u8"]

  const ExampleIFrame: IFrame :=
    IFrame(77758, "hvc1.2.4.L63.90", Resolution(640, 360), PQ, "hdr10/unenc/900k/vod-iframe.m3u8")

  const TestVariantStreamRecord: Playlist.Record := (Playlist.StreamInf, VariantStreamAttributes)
  const TestBasicRecord: Playlist.Record := ("EXTM3U", map[])
  const TestMediaRecord: Playlist.Record := (Playlist.Media, MediaAttributes)
  const TestIFrameRecord: Playlist.Record := (Playlist.IFrameStreamInf, IFrameAttributes)

  /** One record of each kind, in the order the tests list them. */
  const TestRecords: seq<Playlist.Record> :=
    [TestVariantStreamRecord] + [TestBasicRecord] + [TestMediaRecord] + [TestIFrameRecord]

  /** The variant stream record builds the expected variant stream. */
  lemma VariantStreamOfTestRecord()
    ensures VariantStreamFrom(VariantStreamAttributes) == Ok(ExampleVariantStream)
  {
    TestVariantStreamWritten();
    VariantStreamOfWritten(ExampleVariantStream, VariantStreamAttributes);
  }

  lemma TestVariantStreamWritten()
    ensures WrittenVariantStream(ExampleVariantStream, VariantStreamAttributes)
  {
    var v, m := ExampleVariantStream, VariantStreamAttributes;
    assert "URI" in m && m["URI"] == v.uri;
    assert "CODECS" in m && m["CODECS"] == v.codecs;
    assert "FRAME-RATE" in m && m["FRAME-RATE"] == v.frameRate;
    assert "AUDIO" in m && m["AUDIO"] == v.audio;
    assert "CLOSED-CAPTIONS" in m && m["CLOSED-CAPTIONS"] == v.closedCaptions;
    assert "VIDEO-RANGE" in m && m["VIDEO-RANGE"] == VideoRangeText(v.videoRange);
    TestVariantStreamNumbers();
  }

  lemma TestVariantStreamNumbers()
    ensures var v, m := ExampleVariantStream, VariantStreamAttributes;
      && "BANDWIDTH" in m && m["BANDWIDTH"] == DecimalText(v.bandwidth)
      && "AVERAGE-BANDWIDTH" in m && m["AVERAGE-BANDWIDTH"] == DecimalText(v.averageBandwidth)
      && "RESOLUTION" in m && m["RESOLUTION"] == ResolutionText(v.resolution)
  {
    TestBandwidths();
    TestResolution();
  }

  lemma TestBandwidths()
    ensures var v, m := ExampleVariantStream, VariantStreamAttributes;
      && "BANDWIDTH" in m && m["BANDWIDTH"] == DecimalText(v.bandwidth)
      && "AVERAGE-BANDWIDTH" in m && m["AVERAGE-BANDWIDTH"] == DecimalText(v.averageBandwidth)
  {
    var v, m := ExampleVariantStream, VariantStreamAttributes;
    assert m["BANDWIDTH"] == "2483789" && m["AVERAGE-BANDWIDTH"] == "1762745";
    DecimalBandwidth();
    DecimalAverageBandwidth();
  }

  lemma TestResolution()
    ensures var v, m := ExampleVariantStream, VariantStreamAttributes;
      "RESOLUTION" in m && m["RESOLUTION"] == ResolutionText(v.resolution)
  {
    TestResolutionText();
  }

  lemma TestResolutionText()
    ensures ResolutionText(Resolution(11960, 55540)) == "11960x55540"
  {
    DecimalDimensions();
    assert "11960" + "x" + "55540" == "11960x55540";
  }

  /** The media record builds the expected media tag. */
  lemma MediaTagOfTestRecord()
    ensures MediaTagFrom(MediaAttributes) == Ok(ExampleMediaTag)
  {
    assert MediaTagMap(ExampleMediaTag) == MediaAttributes;
    MediaTagRoundTrip(ExampleMediaTag, MediaAttributes);
  }

  /** The I-frame record builds the expected I-frame stream. */
  lemma IFrameOfTestRecord()
    ensures IFrameFrom(IFrameAttributes) == Ok(ExampleIFrame)
  {
    var f, m := ExampleIFrame, IFrameAttributes;
    assert "CODECS" in m && m["CODECS"] == f.codecs;
    assert "VIDEO-RANGE" in m && m["VIDEO-RANGE"] == VideoRangeText(f.videoRange);
    assert "URI" in m && m["URI"] == f.uri;
    TestIFrameNumbers();
    IFrameOfWritten(f, m);
  }

  lemma TestIFrameNumbers()
    ensures var f, m := ExampleIFrame, IFrameAttributes;
      && "BANDWIDTH" in m && m["BANDWIDTH"] == DecimalText(f.bandwidth)
      && "RESOLUTION" in m && m["RESOLUTION"] == ResolutionText(f.resolution)
  {
    DecimalIFrameBandwidth();
    IFrameResolutionText();
  }

  lemma DecimalIFrameBandwidth()
    ensures DecimalText(77758) == "77758"
  {
    DecimalStep(77, "7");
    DecimalStep(777, "77");
    DecimalStep(7775, "777");
    DecimalStep(77758, "7775");
  }

  lemma IFrameResolutionText()
    ensures ResolutionText(Resolution(640, 360)) == "640x360"
  {
    Decimal640And360();
    assert "640" + "x" + "360" == "640x360";
  }

  lemma VariantStreamRecordOfTest()
    ensures Playlist.ConvertRecord(TestVariantStreamRecord) == Ok(Playlist.AsVariantStream(ExampleVariantStream))
  {
    VariantStreamOfTestRecord();
    Playlist.ConvertRecordDispatch(TestVariantStreamRecord);
  }

  lemma BasicRecordOfTest()
    ensures Playlist.ConvertRecord(TestBasicRecord) == Ok(Playlist.AsBasicTag("EXTM3U"))
  {
    Playlist.ConvertRecordDispatch(TestBasicRecord);
  }

  lemma MediaRecordOfTest()
    ensures Playlist.ConvertRecord(TestMediaRecord) == Ok(Playlist.AsMediaTag(ExampleMediaTag))
  {
    MediaTagOfTestRecord();
    Playlist.ConvertRecordDispatch(TestMediaRecord);
  }

  lemma IFrameRecordOfTest()
    ensures Playlist.ConvertRecord(TestIFrameRecord) == Ok(Playlist.AsIFrame(ExampleIFrame))
  {
    IFrameOfTestRecord();
    Playlist.ConvertRecordDispatch(TestIFrameRecord);
  }

  /** The converted form of the records of the model tests. */
  const TestConverted: seq<Playlist.Converted> :=
    [Playlist.AsVariantStream(ExampleVariantStream)] + [Playlist.AsBasicTag("EXTM3U")]
    + [Playlist.AsMediaTag(ExampleMediaTag)] + [Playlist.AsIFrame(ExampleIFrame)]

  lemma TraverseSnoc<A, B>(xs: seq<A>, x: A, f: A -> Result<B>, rs: seq<B>, r: B)
    requires Playlist.Traverse(xs, f) == Ok(rs) && f(x) == Ok(r)
    ensures Playlist.Traverse(xs + [x], f) == Ok(rs + [r])
  {
    assert (xs + [x])[..|xs|] == xs;
  }

  lemma TraverseOfFour<A, B>(a: A, b: A, c: A, d: A, f: A -> Result<B>, ra: B, rb: B, rc: B, rd: B)
    requires f(a) == Ok(ra) && f(b) == Ok(rb) && f(c) == Ok(rc) && f(d) == Ok(rd)
    ensures Playlist.Traverse([a] + [b] + [c] + [d], f) == Ok([ra] + [rb] + [rc] + [rd])
  {
    TraverseSnoc([], a, f, [], ra);
    assert [] + [a] == [a] && [] + [ra] == [ra];
    TraverseSnoc([a], b, f, [ra], rb);
    TraverseSnoc([a] + [b], c, f, [ra] + [rb], rc);
    TraverseSnoc([a] + [b] + [c], d, f, [ra] + [rb] + [rc], rd);
  }

  /** Each record of the model tests converts on its own, so all of them convert. */
  lemma TestRecordsConvertAll()
    ensures Playlist.ConvertAll(TestRecords) == Ok(TestConverted)
  {
    VariantStreamRecordOfTest();
    BasicRecordOfTest();
    MediaRecordOfTest();
    IFrameRecordOfTest();
    TraverseOfFour(TestVariantStreamRecord, TestBasicRecord, TestMediaRecord, TestIFrameRecord, Playlist.ConvertRecord,
                   Playlist.AsVariantStream(ExampleVariantStream), Playlist.AsBasicTag("EXTM3U"),
                   Playlist.AsMediaTag(ExampleMediaTag), Playlist.AsIFrame(ExampleIFrame));
  }

  lemma GatherOfFour<A, T>(a: A, b: A, c: A, d: A, pick: A -> seq<T>)
    ensures Playlist.Gather([a] + [b] + [c] + [d], pick) == pick(a) + pick(b) + pick(c) + pick(d)
  {
    assert [a] == [] + [a];
    Playlist.GatherSnoc([], a, pick);
    Playlist.GatherSnoc([a], b, pick);
    Playlist.GatherSnoc([a] + [b], c, pick);
    Playlist.GatherSnoc([a] + [b] + [c], d, pick);
    assert [] + pick(a) == pick(a);
  }

  /** Each list gathers the one record of its kind. */
  lemma TestConvertedGather()
    ensures Playlist.Gather(TestConverted, Playlist.PickVariantStream) == [ExampleVariantStream]
    ensures Playlist.Gather(TestConverted, Playlist.PickBasicTag) == ["EXTM3U"]
    ensures Playlist.Gather(TestConverted, Playlist.PickIFrame) == [ExampleIFrame]
    ensures Playlist.Gather(TestConverted, Playlist.PickMediaTag) == [ExampleMediaTag]
  {
    var c0, c1 := Playlist.AsVariantStream(ExampleVariantStream), Playlist.AsBasicTag("EXTM3U");
    var c2, c3 := Playlist.AsMediaTag(ExampleMediaTag), Playlist.AsIFrame(ExampleIFrame);
    GatherOfFour(c0, c1, c2, c3, Playlist.PickVariantStream);
    GatherOfFour(c0, c1, c2, c3, Playlist.PickBasicTag);
    GatherOfFour(c0, c1, c2, c3, Playlist.PickIFrame);
    GatherOfFour(c0, c1, c2, c3, Playlist.PickMediaTag);
  }

  /** The records of the model tests convert, and each list holds the one record of its kind. */
  lemma TestRecordsConvert()
    ensures Playlist.Convert(TestRecords)
      == Ok(Playlist.MasterPlaylist([ExampleVariantStream], ["EXTM3U"], [ExampleIFrame], [ExampleMediaTag]))
  {
    TestRecordsConvertAll();
    TestConvertedGather();
    var p := Playlist.Convert(TestRecords).value;
    SingletonPermutation(p.variantStreams, ExampleVariantStream);
    SingletonPermutation(p.basicTags, "EXTM3U");
    SingletonPermutation(p.iFrames, ExampleIFrame);
    SingletonPermutation(p.mediaTags, ExampleMediaTag);
  }

  lemma SingletonPermutation<T>(s: seq<T>, x: T)
    requires multiset(s) == multiset([x])
    ensures s == [x]
  {
    assert |s| == |multiset(s)| == 1;
    assert s[0] in multiset(s);
  }
}
