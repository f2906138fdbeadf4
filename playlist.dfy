/** `MasterPlaylist::try_from` (src/models/conversions.rs:185-223): every record is converted by its name, the first
    failure aborts the whole conversion, and the four lists are sorted once all records are in. */
module Playlist {
  import opened Errors
  import opened Conversions
  import opened Ordering

  datatype MasterPlaylist = MasterPlaylist(
    variantStreams: seq<VariantStream>,
    basicTags: seq<string>,
    iFrames: seq<IFrame>,
    mediaTags: seq<MediaTag>)

  /** A record as the grammar's result is handed over: a tag name and its attribute map. */
  type Record = (string, Attributes)

  const StreamInf: string := "EXT-X-STREAM-INF"
  const Media: string := "EXT-X-MEDIA"
  const IFrameStreamInf: string := "EXT-X-I-FRAME-STREAM-INF"
  const KnownNames: set<string> := {StreamInf, Media, IFrameStreamInf}

  // The derived orders

  function RangeRank(v: VideoRange): int {
    match v
    case PQ => 0
    case SDR => 1
  }

  function MediaTypeRank(t: MediaType): int {
    match t
    case Audio => 0
    case Video => 1
    case Subtitles => 2
    case ClosedCaptions => 3
  }

  /** The fields of a variant stream in declaration order, the resolution's two fields in place. */
  function VariantStreamKey(v: VariantStream): seq<Atom> {
    [Str(v.uri), Num(v.bandwidth), Num(v.averageBandwidth), Str(v.codecs), Num(v.resolution.width),
     Num(v.resolution.height), Num(RangeRank(v.videoRange)), Str(v.frameRate), Str(v.audio), Str(v.closedCaptions)]
  }

  function MediaTagKey(t: MediaTag): seq<Atom> {
    [Num(MediaTypeRank(t.mediaType)), Str(t.groupId), Str(t.name), Str(t.language), Str(t.default),
     Str(t.autoselect), Str(t.channels), Str(t.uri)]
  }

  function IFrameKey(f: IFrame): seq<Atom> {
    [Num(f.bandwidth), Str(f.codecs), Num(f.resolution.width), Num(f.resolution.height),
     Num(RangeRank(f.videoRange)), Str(f.uri)]
  }

  function NameKey(name: string): seq<Atom> {
    [Str(name)]
  }

  /** Each derived order is total: records with equal keys are equal. */
  lemma KeysInjective()
    ensures KeyInjective(VariantStreamKey) && KeyInjective(MediaTagKey)
    ensures KeyInjective(IFrameKey) && KeyInjective(NameKey)
  {
    forall x: VariantStream, y: VariantStream | VariantStreamKey(x) == VariantStreamKey(y)
      ensures x == y
    {
      var kx, ky := VariantStreamKey(x), VariantStreamKey(y);
      assert kx[0] == ky[0] && kx[1] == ky[1] && kx[2] == ky[2] && kx[3] == ky[3] && kx[4] == ky[4];
      assert kx[5] == ky[5] && kx[6] == ky[6] && kx[7] == ky[7] && kx[8] == ky[8] && kx[9] == ky[9];
    }
    forall x: MediaTag, y: MediaTag | MediaTagKey(x) == MediaTagKey(y)
      ensures x == y
    {
      var kx, ky := MediaTagKey(x), MediaTagKey(y);
      assert kx[0] == ky[0] && kx[1] == ky[1] && kx[2] == ky[2] && kx[3] == ky[3];
      assert kx[4] == ky[4] && kx[5] == ky[5] && kx[6] == ky[6] && kx[7] == ky[7];
    }
    forall x: IFrame, y: IFrame | IFrameKey(x) == IFrameKey(y)
      ensures x == y
    {
      var kx, ky := IFrameKey(x), IFrameKey(y);
      assert kx[0] == ky[0] && kx[1] == ky[1] && kx[2] == ky[2] && kx[3] == ky[3] && kx[4] == ky[4] && kx[5] == ky[5];
    }
    forall x: string, y: string | NameKey(x) == NameKey(y)
      ensures x == y
    {
      assert NameKey(x)[0] == NameKey(y)[0];
    }
  }

  // Conversion, specified

  /** What one record becomes. */
  datatype Converted =
    | AsVariantStream(variantStream: VariantStream)
    | AsMediaTag(mediaTag: MediaTag)
    | AsIFrame(iFrame: IFrame)
    | AsBasicTag(name: string)

  function UnknownTagMessage(name: string): string {
    "Unknown tag with attributes found: " + name
  }

  function VariantStreamRecord(m: Attributes): Result<Converted> {
    var v :- VariantStreamFrom(m);
    Ok(AsVariantStream(v))
  }

  function MediaTagRecord(m: Attributes): Result<Converted> {
    var t :- MediaTagFrom(m);
    Ok(AsMediaTag(t))
  }

  function IFrameRecord(m: Attributes): Result<Converted> {
    var f :- IFrameFrom(m);
    Ok(AsIFrame(f))
  }

  /** The dispatch on the record's name for one record. */
  function ConvertRecord(record: Record): Result<Converted> {
    var (name, attributes) := record;
    if name == StreamInf then VariantStreamRecord(attributes)
    else if name == Media then MediaTagRecord(attributes)
    else if name == IFrameStreamInf then IFrameRecord(attributes)
    else if |attributes| > 0 then Err(HLSFormat(UnknownTagMessage(name)))
    else Ok(AsBasicTag(name))
  }

  /** What a converted record becomes is decided by its name alone: each known name yields its own kind, and only
      an unknown name yields a basic tag. An unknown name fails exactly when it carries attributes. */
  lemma ConvertRecordKind(record: Record)
    ensures ConvertRecord(record).Ok? ==> (ConvertRecord(record).value.AsVariantStream? <==> record.0 == StreamInf)
    ensures ConvertRecord(record).Ok? ==> (ConvertRecord(record).value.AsMediaTag? <==> record.0 == Media)
    ensures ConvertRecord(record).Ok? ==> (ConvertRecord(record).value.AsIFrame? <==> record.0 == IFrameStreamInf)
    ensures ConvertRecord(record).Ok? ==> (ConvertRecord(record).value.AsBasicTag? <==> record.0 !in KnownNames)
    ensures ConvertRecord(record).Ok? && ConvertRecord(record).value.AsBasicTag? ==>
              ConvertRecord(record).value.name == record.0 && |record.1| == 0
    ensures record.0 !in KnownNames ==> (ConvertRecord(record).Ok? <==> |record.1| == 0)
    ensures record.0 !in KnownNames && |record.1| > 0 ==>
              ConvertRecord(record) == Err(HLSFormat(UnknownTagMessage(record.0)))
  {
  }

  /** Unfolds `ConvertRecord` for one record, as a proof step for concrete records. */
  lemma ConvertRecordDispatch(record: Record)
    ensures record.0 == StreamInf ==> ConvertRecord(record) == (match VariantStreamFrom(record.1)
                                            case Ok(v) => Ok(AsVariantStream(v))
                                            case Err(e) => Err(e))
    ensures record.0 == Media ==> ConvertRecord(record) == (match MediaTagFrom(record.1)
                                        case Ok(t) => Ok(AsMediaTag(t))
                                        case Err(e) => Err(e))
    ensures record.0 == IFrameStreamInf ==> ConvertRecord(record) == (match IFrameFrom(record.1)
                                                  case Ok(f) => Ok(AsIFrame(f))
                                                  case Err(e) => Err(e))
    ensures record.0 !in KnownNames ==> (ConvertRecord(record).Ok? <==> |record.1| == 0)
    ensures record.0 !in KnownNames && ConvertRecord(record).Ok? ==> ConvertRecord(record).value == AsBasicTag(record.0)
    ensures record.0 !in KnownNames && ConvertRecord(record).Err? ==> ConvertRecord(record).error == HLSFormat(UnknownTagMessage(record.0))
  {
  }

  /** Applies `f` to each element in order; the first failure is the result. */
  function Traverse<A, B>(xs: seq<A>, f: A -> Result<B>): (r: Result<seq<B>>)
    ensures r.Ok? ==> |r.value| == |xs|
  {
    if xs == [] then Ok([])
    else
      var done :- Traverse(xs[..|xs| - 1], f);
      var last :- f(xs[|xs| - 1]);
      Ok(done + [last])
  }

  /** Converts the records in order; the first failure is the result. */
  function ConvertAll(records: seq<Record>): (r: Result<seq<Converted>>)
    ensures r.Ok? ==> |r.value| == |records|
  {
    Traverse(records, ConvertRecord)
  }

  /** The elements `pick` selects from each of `xs`, in order. */
  function Gather<A, T>(xs: seq<A>, pick: A -> seq<T>): seq<T> {
    if xs == [] then [] else Gather(xs[..|xs| - 1], pick) + pick(xs[|xs| - 1])
  }

  function PickVariantStream(c: Converted): seq<VariantStream> {
    if c.AsVariantStream? then [c.variantStream] else []
  }

  function PickMediaTag(c: Converted): seq<MediaTag> {
    if c.AsMediaTag? then [c.mediaTag] else []
  }

  function PickIFrame(c: Converted): seq<IFrame> {
    if c.AsIFrame? then [c.iFrame] else []
  }

  function PickBasicTag(c: Converted): seq<string> {
    if c.AsBasicTag? then [c.name] else []
  }

  /** The playlist of a sequence of records: each list holds the records of its kind, sorted. */
  function Convert(records: seq<Record>): (r: Result<MasterPlaylist>)
    ensures r.Ok? <==> ConvertAll(records).Ok?
    ensures r.Ok? ==> var cs := ConvertAll(records).value;
      && SortedBy(VariantStreamKey, r.value.variantStreams)
      && multiset(r.value.variantStreams) == multiset(Gather(cs, PickVariantStream))
      && SortedBy(NameKey, r.value.basicTags) && multiset(r.value.basicTags) == multiset(Gather(cs, PickBasicTag))
      && SortedBy(IFrameKey, r.value.iFrames) && multiset(r.value.iFrames) == multiset(Gather(cs, PickIFrame))
      && SortedBy(MediaTagKey, r.value.mediaTags) && multiset(r.value.mediaTags) == multiset(Gather(cs, PickMediaTag))
    ensures r.Err? ==> r.error == ConvertAll(records).error
  {
    var cs :- ConvertAll(records);
    Ok(MasterPlaylist(
      SortBy(VariantStreamKey, Gather(cs, PickVariantStream)),
      SortBy(NameKey, Gather(cs, PickBasicTag)),
      SortBy(IFrameKey, Gather(cs, PickIFrame)),
      SortBy(MediaTagKey, Gather(cs, PickMediaTag))))
  }

  // Conversion, as the source performs it

  /** Once a prefix fails, the whole traversal fails with the same error. */
  lemma {:induction false} TraverseFailedPrefix<A, B>(xs: seq<A>, f: A -> Result<B>, k: nat)
    requires k <= |xs| && Traverse(xs[..k], f).Err?
    ensures Traverse(xs, f) == Traverse(xs[..k], f)
    decreases |xs| - k
  {
    if k == |xs| {
      assert xs[..k] == xs;
    } else {
      var front := xs[..|xs| - 1];
      assert front[..k] == xs[..k];
      TraverseFailedPrefix(front, f, k);
    }
  }

  /** After a traversed prefix, the next element either extends the traversal or decides its failure. */
  lemma {:induction false} TraverseStep<A, B>(xs: seq<A>, f: A -> Result<B>, i: nat)
    requires i < |xs| && Traverse(xs[..i], f).Ok?
    ensures f(xs[i]).Ok? ==> Traverse(xs[..i + 1], f) == Ok(Traverse(xs[..i], f).value + [f(xs[i]).value])
    ensures f(xs[i]).Err? ==> Traverse(xs, f) == Err(f(xs[i]).error)
  {
    assert xs[..i + 1][..i] == xs[..i];
    assert xs[..i + 1][i] == xs[i];
    if f(xs[i]).Err? {
      TraverseFailedPrefix(xs, f, i + 1);
    }
  }

  /** A traversal that succeeded holds, at each position, that element's own result. */
  lemma {:induction false} TraverseOkValues<A, B>(xs: seq<A>, f: A -> Result<B>)
    requires Traverse(xs, f).Ok?
    ensures forall i :: 0 <= i < |xs| ==> f(xs[i]).Ok? && Traverse(xs, f).value[i] == f(xs[i]).value
  {
    if xs != [] {
      var n := |xs| - 1;
      var front := xs[..n];
      TraverseOkValues(front, f);
      var cs := Traverse(xs, f).value;
      assert cs == Traverse(front, f).value + [f(xs[n]).value];
      forall i | 0 <= i < |xs|
        ensures f(xs[i]).Ok? && cs[i] == f(xs[i]).value
      {
        if i < n {
          assert front[i] == xs[i];
        }
      }
    }
  }

  /** A traversal that failed failed with the error of some element. */
  lemma {:induction false} TraverseErrOf<A, B>(xs: seq<A>, f: A -> Result<B>) returns (i: nat)
    requires Traverse(xs, f).Err?
    ensures i < |xs| && f(xs[i]).Err? && Traverse(xs, f).error == f(xs[i]).error
  {
    var n := |xs| - 1;
    var front := xs[..n];
    if Traverse(front, f).Err? {
      i := TraverseErrOf(front, f);
      assert front[i] == xs[i];
    } else {
      i := n;
    }
  }

  /** Once a prefix of the records fails, the whole conversion fails with the same error. */
  lemma FailedPrefix(records: seq<Record>, k: nat)
    requires k <= |records| && ConvertAll(records[..k]).Err?
    ensures ConvertAll(records) == ConvertAll(records[..k])
  {
    TraverseFailedPrefix(records, ConvertRecord, k);
  }

  lemma {:induction false} GatherSnoc<A, T>(xs: seq<A>, x: A, pick: A -> seq<T>)
    ensures Gather(xs + [x], pick) == Gather(xs, pick) + pick(x)
  {
    assert (xs + [x])[..|xs|] == xs;
  }

  /** After a converted prefix, the next record either extends the conversion or decides its failure. */
  lemma ConvertStep(records: seq<Record>, i: nat)
    requires i < |records| && ConvertAll(records[..i]).Ok?
    ensures ConvertRecord(records[i]).Ok? ==>
      ConvertAll(records[..i + 1]) == Ok(ConvertAll(records[..i]).value + [ConvertRecord(records[i]).value])
    ensures ConvertRecord(records[i]).Err? ==> ConvertAll(records) == Err(ConvertRecord(records[i]).error)
  {
    TraverseStep(records, ConvertRecord, i);
  }

  /** `try_from`: four lists filled by a loop over the records, an early return at the first failure, then a sort
      of each list. */
  method TryFrom(tags: seq<Record>) returns (r: Result<MasterPlaylist>)
    ensures r == Convert(tags)
  {
    var variantStreams: seq<VariantStream> := [];
    var basicTags: seq<string> := [];
    var mediaTags: seq<MediaTag> := [];
    var iFrames: seq<IFrame> := [];
    for i := 0 to |tags|
      invariant ConvertAll(tags[..i]).Ok?
      invariant variantStreams == Gather(ConvertAll(tags[..i]).value, PickVariantStream)
      invariant basicTags == Gather(ConvertAll(tags[..i]).value, PickBasicTag)
      invariant mediaTags == Gather(ConvertAll(tags[..i]).value, PickMediaTag)
      invariant iFrames == Gather(ConvertAll(tags[..i]).value, PickIFrame)
    {
      var (name, attributes) := tags[i];
      ConvertStep(tags, i);
      if ConvertRecord(tags[i]).Ok? {
        ghost var done, c := ConvertAll(tags[..i]).value, ConvertRecord(tags[i]).value;
        GatherSnoc(done, c, PickVariantStream);
        GatherSnoc(done, c, PickMediaTag);
        GatherSnoc(done, c, PickIFrame);
        GatherSnoc(done, c, PickBasicTag);
      }
      if name == StreamInf {
        var v := VariantStreamFrom(attributes);
        if v.Err? {
          return Err(v.error);
        }
        variantStreams := variantStreams + [v.value];
      } else if name == Media {
        var t := MediaTagFrom(attributes);
        if t.Err? {
          return Err(t.error);
        }
        mediaTags := mediaTags + [t.value];
      } else if name == IFrameStreamInf {
        var f := IFrameFrom(attributes);
        if f.Err? {
          return Err(f.error);
        }
        iFrames := iFrames + [f.value];
      } else {
        if |attributes| > 0 {
          return Err(HLSFormat(UnknownTagMessage(name)));
        }
        basicTags := basicTags + [name];
      }
    }
    assert tags[..|tags|] == tags;
    variantStreams := SortBy(VariantStreamKey, variantStreams);
    iFrames := SortBy(IFrameKey, iFrames);
    mediaTags := SortBy(MediaTagKey, mediaTags);
    basicTags := SortBy(NameKey, basicTags);
    r := Ok(MasterPlaylist(variantStreams, basicTags, iFrames, mediaTags));
  }

  // Properties of the conversion

  /** The conversion succeeds exactly when every record converts on its own, and then holds each record's result. */
  lemma ConvertAllOk(records: seq<Record>)
    ensures ConvertAll(records).Ok? <==> forall i :: 0 <= i < |records| ==> ConvertRecord(records[i]).Ok?
    ensures ConvertAll(records).Ok? ==>
      forall i :: 0 <= i < |records| ==> ConvertAll(records).value[i] == ConvertRecord(records[i]).value
  {
    if ConvertAll(records).Ok? {
      TraverseOkValues(records, ConvertRecord);
    } else {
      var i := TraverseErrOf(records, ConvertRecord);
    }
  }

  /** The first record that fails to convert decides the error of the whole playlist. */
  lemma ConvertFirstError(records: seq<Record>, i: nat)
    requires i < |records| && ConvertRecord(records[i]).Err?
    requires forall j :: 0 <= j < i ==> ConvertRecord(records[j]).Ok?
    ensures Convert(records) == Err(ConvertRecord(records[i]).error)
  {
    ConvertAllOk(records[..i]);
    ConvertStep(records, i);
  }

  /** Every record lands in exactly one list: the four lengths add up to the number of records. */
  lemma {:induction false} GatherCounts(cs: seq<Converted>)
    ensures |Gather(cs, PickVariantStream)| + |Gather(cs, PickBasicTag)| + |Gather(cs, PickIFrame)|
            + |Gather(cs, PickMediaTag)| == |cs|
  {
    if cs != [] {
      GatherCounts(cs[..|cs| - 1]);
    }
  }

  lemma ConvertCounts(records: seq<Record>)
    requires Convert(records).Ok?
    ensures var p := Convert(records).value;
      |p.variantStreams| + |p.basicTags| + |p.iFrames| + |p.mediaTags| == |records|
  {
    var p := Convert(records).value;
    var cs := ConvertAll(records).value;
    GatherCounts(cs);
    assert |p.variantStreams| == |multiset(p.variantStreams)| == |Gather(cs, PickVariantStream)|;
    assert |p.basicTags| == |multiset(p.basicTags)| == |Gather(cs, PickBasicTag)|;
    assert |p.iFrames| == |multiset(p.iFrames)| == |Gather(cs, PickIFrame)|;
    assert |p.mediaTags| == |multiset(p.mediaTags)| == |Gather(cs, PickMediaTag)|;
  }

  lemma {:induction false} GatherMember<A, T>(xs: seq<A>, pick: A -> seq<T>, x: T)
    ensures x in Gather(xs, pick) <==> exists i :: 0 <= i < |xs| && x in pick(xs[i])
  {
    if xs != [] {
      var front := xs[..|xs| - 1];
      GatherMember(front, pick, x);
      assert forall i :: 0 <= i < |front| ==> front[i] == xs[i];
      if x in pick(xs[|xs| - 1]) {
        assert 0 <= |xs| - 1 < |xs| && x in pick(xs[|xs| - 1]);
      }
    }
  }

  lemma PickedVariantStream(record: Record, v: VariantStream)
    requires ConvertRecord(record).Ok?
    ensures v in PickVariantStream(ConvertRecord(record).value) <==>
      record.0 == StreamInf && VariantStreamFrom(record.1) == Ok(v)
  {
  }

  lemma PickedMediaTag(record: Record, t: MediaTag)
    requires ConvertRecord(record).Ok?
    ensures t in PickMediaTag(ConvertRecord(record).value) <==> record.0 == Media && MediaTagFrom(record.1) == Ok(t)
  {
  }

  lemma PickedIFrame(record: Record, f: IFrame)
    requires ConvertRecord(record).Ok?
    ensures f in PickIFrame(ConvertRecord(record).value) <==>
      record.0 == IFrameStreamInf && IFrameFrom(record.1) == Ok(f)
  {
  }

  lemma PickedBasicTag(record: Record, name: string)
    requires ConvertRecord(record).Ok?
    ensures name in PickBasicTag(ConvertRecord(record).value) <==>
      record.0 == name && name !in KnownNames && |record.1| == 0
  {
  }

  /** A variant stream is in the playlist exactly when some `EXT-X-STREAM-INF` record converts to it. */
  lemma VariantStreamsContents(records: seq<Record>, v: VariantStream)
    requires Convert(records).Ok?
    ensures v in Convert(records).value.variantStreams <==>
      exists i :: 0 <= i < |records| && records[i].0 == StreamInf && VariantStreamFrom(records[i].1) == Ok(v)
  {
    var cs := ConvertAll(records).value;
    ConvertAllOk(records);
    GatherMember(cs, PickVariantStream, v);
    assert v in Convert(records).value.variantStreams <==> v in multiset(Gather(cs, PickVariantStream));
    forall i | 0 <= i < |records|
      ensures v in PickVariantStream(cs[i]) <==> records[i].0 == StreamInf && VariantStreamFrom(records[i].1) == Ok(v)
    {
      PickedVariantStream(records[i], v);
    }
  }

  /** A media tag is in the playlist exactly when some `EXT-X-MEDIA` record converts to it. */
  lemma MediaTagsContents(records: seq<Record>, t: MediaTag)
    requires Convert(records).Ok?
    ensures t in Convert(records).value.mediaTags <==>
      exists i :: 0 <= i < |records| && records[i].0 == Media && MediaTagFrom(records[i].1) == Ok(t)
  {
    var cs := ConvertAll(records).value;
    ConvertAllOk(records);
    GatherMember(cs, PickMediaTag, t);
    assert t in Convert(records).value.mediaTags <==> t in multiset(Gather(cs, PickMediaTag));
    forall i | 0 <= i < |records|
      ensures t in PickMediaTag(cs[i]) <==> records[i].0 == Media && MediaTagFrom(records[i].1) == Ok(t)
    {
      PickedMediaTag(records[i], t);
    }
  }

  /** An I-frame stream is in the playlist exactly when some `EXT-X-I-FRAME-STREAM-INF` record converts to it. */
  lemma IFramesContents(records: seq<Record>, f: IFrame)
    requires Convert(records).Ok?
    ensures f in Convert(records).value.iFrames <==>
      exists i :: 0 <= i < |records| && records[i].0 == IFrameStreamInf && IFrameFrom(records[i].1) == Ok(f)
  {
    var cs := ConvertAll(records).value;
    ConvertAllOk(records);
    GatherMember(cs, PickIFrame, f);
    assert f in Convert(records).value.iFrames <==> f in multiset(Gather(cs, PickIFrame));
    forall i | 0 <= i < |records|
      ensures f in PickIFrame(cs[i]) <==> records[i].0 == IFrameStreamInf && IFrameFrom(records[i].1) == Ok(f)
    {
      PickedIFrame(records[i], f);
    }
  }

  /** A name is among the basic tags exactly when some record of another name carries that name and no attributes. */
  lemma BasicTagsContents(records: seq<Record>, name: string)
    requires Convert(records).Ok?
    ensures name in Convert(records).value.basicTags <==>
      exists i :: 0 <= i < |records| && records[i].0 == name && name !in KnownNames && |records[i].1| == 0
  {
    var cs := ConvertAll(records).value;
    ConvertAllOk(records);
    GatherMember(cs, PickBasicTag, name);
    assert name in Convert(records).value.basicTags <==> name in multiset(Gather(cs, PickBasicTag));
    forall i | 0 <= i < |records|
      ensures name in PickBasicTag(cs[i]) <==> records[i].0 == name && name !in KnownNames && |records[i].1| == 0
    {
      PickedBasicTag(records[i], name);
    }
  }

  /** The lists come out sorted: sorting them again changes nothing. */
  lemma ConvertIdempotentSort(records: seq<Record>)
    requires Convert(records).Ok?
    ensures var p := Convert(records).value;
      && SortBy(VariantStreamKey, p.variantStreams) == p.variantStreams
      && SortBy(NameKey, p.basicTags) == p.basicTags
      && SortBy(IFrameKey, p.iFrames) == p.iFrames
      && SortBy(MediaTagKey, p.mediaTags) == p.mediaTags
  {
    var p := Convert(records).value;
    SortSorted(VariantStreamKey, p.variantStreams);
    SortSorted(NameKey, p.basicTags);
    SortSorted(IFrameKey, p.iFrames);
    SortSorted(MediaTagKey, p.mediaTags);
  }

  lemma {:induction false} GatherConcat<A, T>(xs: seq<A>, ys: seq<A>, pick: A -> seq<T>)
    ensures Gather(xs + ys, pick) == Gather(xs, pick) + Gather(ys, pick)
    decreases |ys|
  {
    if ys == [] {
      assert xs + ys == xs;
    } else {
      var front := ys[..|ys| - 1];
      assert (xs + ys)[..|xs + ys| - 1] == xs + front;
      GatherConcat(xs, front, pick);
    }
  }

  /** Taking one occurrence out of a sequence takes it out of its multiset. */
  lemma {:induction false} RemoveAt<A>(ys: seq<A>, j: nat)
    requires j < |ys|
    ensures multiset(ys[..j] + ys[j + 1..]) == multiset(ys) - multiset{ys[j]}
  {
    assert ys == ys[..j] + [ys[j]] + ys[j + 1..];
  }

  /** What is gathered around one element: before it, from it, after it. */
  lemma {:induction false} GatherAround<A, T>(ys: seq<A>, j: nat, pick: A -> seq<T>)
    requires j < |ys|
    ensures Gather(ys, pick) == Gather(ys[..j], pick) + pick(ys[j]) + Gather(ys[j + 1..], pick)
    ensures Gather(ys[..j] + ys[j + 1..], pick) == Gather(ys[..j], pick) + Gather(ys[j + 1..], pick)
  {
    var before, after := ys[..j], ys[j + 1..];
    assert ys == (before + [ys[j]]) + after;
    GatherConcat(before + [ys[j]], after, pick);
    GatherSnoc(before, ys[j], pick);
    GatherConcat(before, after, pick);
  }

  /** Rearranging the elements rearranges what is gathered from them. */
  lemma {:induction false} GatherPermutation<A, T>(xs: seq<A>, ys: seq<A>, pick: A -> seq<T>)
    requires multiset(xs) == multiset(ys)
    ensures multiset(Gather(xs, pick)) == multiset(Gather(ys, pick))
    decreases |xs|
  {
    if xs == [] {
      assert |ys| == |multiset(ys)| == 0;
    } else {
      var n := |xs| - 1;
      var j := MatchLast(xs, ys);
      GatherPermutation(xs[..n], ys[..j] + ys[j + 1..], pick);
      GatherAround(ys, j, pick);
      assert Gather(xs, pick) == Gather(xs[..n], pick) + pick(xs[n]);
      MultisetSplice(Gather(ys[..j], pick), pick(xs[n]), Gather(ys[j + 1..], pick), Gather(xs[..n], pick));
    }
  }

  /** Where the last element of one arrangement sits in another, and what is left of both without it. */
  lemma {:induction false} MatchLast<A>(xs: seq<A>, ys: seq<A>) returns (j: nat)
    requires xs != [] && multiset(xs) == multiset(ys)
    ensures j < |ys| && ys[j] == xs[|xs| - 1]
    ensures multiset(xs[..|xs| - 1]) == multiset(ys[..j] + ys[j + 1..])
  {
    var n := |xs| - 1;
    assert xs[n] in multiset(ys);
    j :| 0 <= j < |ys| && ys[j] == xs[n];
    RemoveAt(xs, n);
    assert xs[..n] + xs[n + 1..] == xs[..n];
    RemoveAt(ys, j);
  }

  lemma {:induction false} MultisetSplice<T>(a: seq<T>, p: seq<T>, b: seq<T>, front: seq<T>)
    requires multiset(front) == multiset(a + b)
    ensures multiset(front + p) == multiset(a + p + b)
  {
  }

  /** What `pick` selects from each record's conversion; a record that does not convert gives nothing. */
  function Through<T>(pick: Converted -> seq<T>): Record -> seq<T> {
    record => if ConvertRecord(record).Ok? then pick(ConvertRecord(record).value) else []
  }

  lemma {:induction false} GatherThrough<T>(records: seq<Record>, pick: Converted -> seq<T>)
    requires ConvertAll(records).Ok?
    ensures Gather(ConvertAll(records).value, pick) == Gather(records, Through(pick))
  {
    if records != [] {
      var n := |records| - 1;
      GatherThrough(records[..n], pick);
      var cs := ConvertAll(records).value;
      assert cs == ConvertAll(records[..n]).value + [ConvertRecord(records[n]).value];
      assert cs[..n] == ConvertAll(records[..n]).value;
    }
  }

  lemma SameVerdict(records: seq<Record>, others: seq<Record>)
    requires multiset(records) == multiset(others)
    requires forall i :: 0 <= i < |records| ==> ConvertRecord(records[i]).Ok?
    ensures forall j :: 0 <= j < |others| ==> ConvertRecord(others[j]).Ok?
  {
    forall j | 0 <= j < |others|
      ensures ConvertRecord(others[j]).Ok?
    {
      assert others[j] in multiset(records);
      var i :| 0 <= i < |records| && records[i] == others[j];
    }
  }

  /** The playlist does not depend on the order of the records, only on which records there are: the lists are
      sorted by a total order. Only the error reported can depend on the order. */
  lemma ConvertOrderIndependent(records: seq<Record>, others: seq<Record>)
    requires multiset(records) == multiset(others)
    ensures Convert(records).Ok? <==> Convert(others).Ok?
    ensures Convert(records).Ok? ==> Convert(records) == Convert(others)
  {
    ConvertAllOk(records);
    ConvertAllOk(others);
    if Convert(records).Ok? {
      SameVerdict(records, others);
    }
    if Convert(others).Ok? {
      SameVerdict(others, records);
    }
    if Convert(records).Ok? {
      var p, q := Convert(records).value, Convert(others).value;
      var cs, ds := ConvertAll(records).value, ConvertAll(others).value;
      KeysInjective();
      GatherThrough(records, PickVariantStream);
      GatherThrough(others, PickVariantStream);
      GatherPermutation(records, others, Through(PickVariantStream));
      SortedPermutationUnique(VariantStreamKey, p.variantStreams, q.variantStreams);
      GatherThrough(records, PickBasicTag);
      GatherThrough(others, PickBasicTag);
      GatherPermutation(records, others, Through(PickBasicTag));
      SortedPermutationUnique(NameKey, p.basicTags, q.basicTags);
      GatherThrough(records, PickIFrame);
      GatherThrough(others, PickIFrame);
      GatherPermutation(records, others, Through(PickIFrame));
      SortedPermutationUnique(IFrameKey, p.iFrames, q.iFrames);
      GatherThrough(records, PickMediaTag);
      GatherThrough(others, PickMediaTag);
      GatherPermutation(records, others, Through(PickMediaTag));
      SortedPermutationUnique(MediaTagKey, p.mediaTags, q.mediaTags);
    }
  }

  /** Conversion fails only with `HLSFormat` errors, never with a grammar error. */
  lemma ConvertAllFormatErrors(records: seq<Record>)
    ensures ConvertAll(records).Err? ==> ConvertAll(records).error.HLSFormat?
  {
    if ConvertAll(records).Err? {
      var i := TraverseErrOf(records, ConvertRecord);
    }
  }

  lemma ConvertFormatErrors(records: seq<Record>)
    ensures Convert(records).Err? ==> Convert(records).error.HLSFormat?
  {
    ConvertAllFormatErrors(records);
  }
}
