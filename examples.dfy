/** The behaviour the repository's unit tests pin down, derived from the general lemmas. Each example takes its
    input as a parameter fixed by its precondition, so that it is derived rather than evaluated. */
module Examples {
  import opened Nom
  import opened Attributes
  import opened Parser
  import opened Errors
  import opened Documents

  /** The round trip of one attribute, stated for a text given by name. */
  lemma AttributeOf(stops: StopSet, it: Item, rest: string, s: string)
    requires WellFormed(stops, it) && Delimited(stops, it, rest) && s == ItemText(it) + rest
    ensures ParseAttribute(stops, s) == Done(rest, it.Pair())
  {
    ParseAttributeRoundTrip(stops, it, rest);
  }

  /** A bare number. */
  lemma BareBandwidth(s: string)
    requires s == "BANDWIDTH=2312764"
    ensures ParseAttribute(ValueStops, s) == Done("", ("BANDWIDTH", "2312764"))
  {
    AttributeOf(ValueStops, Item("BANDWIDTH", "2312764", false), "", s);
  }

  /** A frame rate stays text: the dot is an ordinary character. */
  lemma BareFrameRate(s: string)
    requires s == "FRAME-RATE=23.97"
    ensures ParseAttribute(ValueStops, s) == Done("", ("FRAME-RATE", "23.97"))
  {
    AttributeOf(ValueStops, Item("FRAME-RATE", "23.97", false), "", s);
  }

  lemma BareResolution(s: string)
    requires s == "RESOLUTION=640x360"
    ensures ParseAttribute(ValueStops, s) == Done("", ("RESOLUTION", "640x360"))
  {
    AttributeOf(ValueStops, Item("RESOLUTION", "640x360", false), "", s);
  }

  /** A quoted value loses its quotes. */
  lemma QuotedAudio(s: string)
    requires s == "AUDIO=\"atmos\""
    ensures ParseAttribute(ValueStops, s) == Done("", ("AUDIO", "atmos"))
  {
    AttributeOf(ValueStops, Item("AUDIO", "atmos", true), "", s);
  }

  /** A quoted value keeps the commas inside it: the codec list is one pair. */
  lemma QuotedCodecs(s: string)
    requires s == "CODECS=\"ec-3,hvc1.2.4.L63.90\""
    ensures ParseAttribute(ValueStops, s) == Done("", ("CODECS", "ec-3,hvc1.2.4.L63.90"))
  {
    var it := Item("CODECS", "ec-3,hvc1.2.4.L63.90", true);
    CodecsPieces(s);
    assert '"' !in it.value;
    AttributeOf(ValueStops, it, "", s);
  }

  lemma CodecsPieces(s: string)
    requires s == "CODECS=\"ec-3,hvc1.2.4.L63.90\""
    ensures s == "CODECS" + "=" + ("\"" + "ec-3,hvc1.2.4.L63.90" + "\"") + ""
  {
  }

  lemma QuotedValueOf(v: string, rest: string, s: string)
    requires v != [] && '"' !in v && s == "\"" + v + "\"" + rest
    ensures ParseQuotedValue(s) == Done(rest, v)
  {
    QuotedValueRoundTrip(v, rest);
  }

  lemma QuotedInner(s: string)
    requires s == "\"ec-3,hvc1.2.4.L63.90\""
    ensures ParseQuotedValue(s) == Done("", "ec-3,hvc1.2.4.L63.90")
  {
    QuotedValueOf("ec-3,hvc1.2.4.L63.90", "", s);
  }

  lemma TakeUntilOf(c: char, a: string, b: string, s: string)
    requires c !in a && b != [] && b[0] == c && s == a + b
    ensures TakeUntil(c, s) == Done(b, a)
  {
    TakeUntilOfPrefix(c, a, b);
  }

  /** The older grammar's key parser leaves the `=` unconsumed. */
  lemma LegacyKey(s: string)
    requires s == "BANDWIDTH=2312764"
    ensures TakeUntil('=', s) == Done("=2312764", "BANDWIDTH")
  {
    TakeUntilOf('=', "BANDWIDTH", "=2312764", s);
  }

  /** As written, the older grammar's bare value ends at the letter `n`. */
  lemma LegacyValueStopsAtLetterN(s: string)
    requires s == "AUDIO=main"
    ensures ParseAttribute(LegacyValueStops, s) == Done("n", ("AUDIO", "mai"))
  {
    AttributeOf(LegacyValueStops, Item("AUDIO", "mai", false), "n", s);
  }

  /** The grammar in use reads the whole word. */
  lemma ValueKeepsLetterN(s: string)
    requires s == "AUDIO=main"
    ensures ParseAttribute(ValueStops, s) == Done("", ("AUDIO", "main"))
  {
    AttributeOf(ValueStops, Item("AUDIO", "main", false), "", s);
  }

  /** As written, the older grammar's bare value runs on past the end of its line. */
  lemma LegacyValueCrossesLines(s: string)
    requires s == "VIDEO-RANGE=PQ\nvod.m3u8"
    ensures ParseAttribute(LegacyValueStops, s) == Done("", ("VIDEO-RANGE", "PQ\nvod.m3u8"))
  {
    assert s == "VIDEO-RANGE" + "=" + "PQ\nvod.m3u8" + "";
    AttributeOf(LegacyValueStops, Item("VIDEO-RANGE", "PQ\nvod.m3u8", false), "", s);
  }

  /** The grammar in use ends the value at the line break. */
  lemma ValueEndsAtLineBreak(s: string)
    requires s == "VIDEO-RANGE=PQ\nvod.m3u8"
    ensures ParseAttribute(ValueStops, s) == Done("\nvod.m3u8", ("VIDEO-RANGE", "PQ"))
  {
    AttributeOf(ValueStops, Item("VIDEO-RANGE", "PQ", false), "\nvod.m3u8", s);
  }

  // Tags and playlists

  /** A header line: the name runs up to the line break, which is left for the whitespace skipper. */
  lemma HeaderName(s: string)
    requires s == "#EXTM3U\n"
    ensures ParseTagName(s) == Done("\n", "EXTM3U")
  {
    TagNameRoundTrip("EXTM3U", "\n");
    assert s == "#" + ("EXTM3U" + "\n");
  }

  /** A `#` with no name after it is not a tag. */
  lemma LoneHash(s: string)
    requires s == "#" || s == "#\n"
    ensures ParseTagName(s).Fail? && ParseTag(s).Fail?
  {
  }

  lemma OneItemUri(name: string, it: Item, uri: string, s: string)
    requires ValidName(name) && WellFormed(ValueStops, it) && uri != [] && NoneIn(uri, ValueStops)
    requires s == "#" + (name + (":" + (ItemText(it) + ("\n" + uri))))
    ensures ParseTag(s) == Done("", TagWithUri(name, [it.Pair()], uri))
  {
    var items := [it];
    assert ListText(items) == ItemText(it);
    assert Pairs(items) == [it.Pair()];
    assert s == "#" + (name + (":" + (ListText(items) + ("\n" + (uri + "")))));
    WithUriRoundTrip(name, items, uri, "");
  }

  /** The line after an attribute list is taken as a URI whatever it holds, even when it is itself a tag, and
      whatever the tag's name. */
  lemma UriLineMayBeATag(s: string)
    requires s == "#EXT-X-MEDIA:TYPE=AUDIO\n#EXTM3U"
    ensures ParseTag(s) == Done("", TagWithUri("EXT-X-MEDIA", [("TYPE", "AUDIO")], "#EXTM3U"))
  {
    MediaUriPieces(s);
    OneItemUri("EXT-X-MEDIA", Item("TYPE", "AUDIO", false), "#EXTM3U", s);
  }

  lemma MediaUriPieces(s: string)
    requires s == "#EXT-X-MEDIA:TYPE=AUDIO\n#EXTM3U"
    ensures s == "#" + ("EXT-X-MEDIA" + (":" + (("TYPE" + "=" + "AUDIO") + ("\n" + "#EXTM3U"))))
  {
  }

  lemma OneItemBlankLine(name: string, it: Item, after: string, s: string)
    requires ValidName(name) && WellFormed(ValueStops, it) && |after| >= 2 && after[0] == '\n' && after[1] == '\n'
    requires s == "#" + (name + (":" + (ItemText(it) + after)))
    ensures ParseTag(s) == Done(after, TagWithAttributes(name, [it.Pair()]))
  {
    var items := [it];
    assert ListText(items) == ItemText(it);
    assert Pairs(items) == [it.Pair()];
    assert s == "#" + (name + (":" + (ListText(items) + after)));
    WithAttributesRoundTrip(name, items, after);
  }

  /** A blank line after an attribute list keeps the next line from being read as a URI. */
  lemma BlankLineEndsAttributes(s: string)
    requires s == "#EXT-X-MEDIA:TYPE=AUDIO\n\nmain.m3u8"
    ensures ParseTag(s) == Done("\n\nmain.m3u8", TagWithAttributes("EXT-X-MEDIA", [("TYPE", "AUDIO")]))
  {
    MediaBlankLinePieces(s);
    OneItemBlankLine("EXT-X-MEDIA", Item("TYPE", "AUDIO", false), "\n\nmain.m3u8", s);
  }

  lemma MediaBlankLinePieces(s: string)
    requires s == "#EXT-X-MEDIA:TYPE=AUDIO\n\nmain.m3u8"
    ensures s == "#" + ("EXT-X-MEDIA" + (":" + (("TYPE" + "=" + "AUDIO") + "\n\nmain.m3u8")))
  {
  }

  lemma OneBasicLine(name: string, rest: string, s: string)
    requires ValidName(name) && Stops(rest) && s == "#" + (name + ("\n" + rest))
    ensures Parse(s) == Ok([BasicTag(name)])
  {
    var entries := [Entry(Basic(name), "\n")];
    assert DocText(entries) == "#" + (name + ("\n" + ""));
    assert s == "" + (DocText(entries) + rest);
    assert Tags(entries) == [BasicTag(name)];
    assert WellFormedEntry(entries[0]);
    ParseDropsTrailingText("", entries, rest);
  }

  /** Text after the last line that no tag can start is dropped without an error. */
  lemma TrailingTextIgnored(s: string)
    requires s == "#EXTM3U\n%%"
    ensures Parse(s) == Ok([BasicTag("EXTM3U")])
  {
    OneBasicLine("EXTM3U", "%%", s);
  }
}
