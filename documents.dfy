/** Playlist text written from records: the inverse of the grammar of src/parser/mod.rs:58-97. Reading back the
    text of well-formed records gives the records, which pins down both what the grammar accepts and what it
    makes of it. */
module Documents {
  import opened Nom
  import opened Attributes
  import opened Parser
  import opened Errors

  /** A record as it is written: a bare tag, a tag with an attribute list, or a tag with an attribute list and a
      URI on the next line. */
  datatype Line =
    | Basic(name: string)
    | WithAttributes(name: string, items: seq<Item>)
    | WithUri(name: string, items: seq<Item>, uri: string)

  /** The text of a line: `#NAME`, `#NAME:LIST` or `#NAME:LIST` newline `URI`. */
  function LineText(l: Line): string {
    match l
    case Basic(name) => "#" + name
    case WithAttributes(name, items) => if items == [] then "#" + name else "#" + (name + (":" + ListText(items)))
    case WithUri(name, items, uri) =>
      if items == [] then "#" + name else "#" + (name + (":" + (ListText(items) + ("\n" + uri))))
  }

  /** The record the grammar makes of a line. */
  function TagOf(l: Line): Tag {
    match l
    case Basic(name) => BasicTag(name)
    case WithAttributes(name, items) => TagWithAttributes(name, Pairs(items))
    case WithUri(name, items, uri) => TagWithUri(name, Pairs(items), uri)
  }

  /** A line followed by the whitespace that separates it from the next one. */
  datatype Entry = Entry(line: Line, gap: string)

  predicate AllWhitespace(w: string) {
    forall i :: 0 <= i < |w| ==> w[i] in Whitespace
  }

  predicate ValidName(name: string) {
    name != [] && NoneIn(name, NameStops)
  }

  predicate WellFormedList(items: seq<Item>) {
    items != [] && forall i :: 0 <= i < |items| ==> WellFormed(ValueStops, items[i])
  }

  /** A line the grammar reads back as written. */
  predicate WellFormedLine(l: Line) {
    && ValidName(l.name)
    && (!l.Basic? ==> WellFormedList(l.items))
    && (l.WithUri? ==> l.uri != [] && NoneIn(l.uri, ValueStops))
  }

  /** The gap after a line is whitespace that starts a new line; after a tag with attributes it holds a blank line,
      since otherwise the next line would be read as its URI. */
  predicate WellFormedEntry(e: Entry) {
    && WellFormedLine(e.line)
    && AllWhitespace(e.gap) && e.gap != [] && e.gap[0] == '\n'
    && (e.line.WithAttributes? ==> |e.gap| >= 2 && e.gap[1] == '\n')
  }

  function DocText(entries: seq<Entry>): string {
    if entries == [] then "" else LineText(entries[0].line) + (entries[0].gap + DocText(entries[1..]))
  }

  function Tags(entries: seq<Entry>): (ts: seq<Tag>)
    ensures |ts| == |entries|
  {
    if entries == [] then [] else [TagOf(entries[0].line)] + Tags(entries[1..])
  }

  /** A valid name is read up to the stop character that follows it. */
  lemma TagNameRoundTrip(name: string, after: string)
    requires ValidName(name) && (after == [] || after[0] in NameStops)
    ensures ParseTagName("#" + (name + after)) == Done(after, name)
  {
    var s := "#" + (name + after);
    assert Nom.Tag("#", s) == Done(name + after, "#");
    IsNotOfRun(NameStops, name, after);
  }

  /** A name, a colon and a well-formed list are read back as the name and the pairs of the list. */
  lemma TagAndAttributesRoundTrip(name: string, items: seq<Item>, after: string)
    requires ValidName(name) && WellFormedList(items)
    requires Delimited(ValueStops, items[|items| - 1], after) && (after == [] || after[0] != ',')
    ensures ParseTagAndAttributes("#" + (name + (":" + (ListText(items) + after))))
      == Done(after, (name, Pairs(items)))
  {
    var colon := ":" + (ListText(items) + after);
    TagNameRoundTrip(name, colon);
    assert Nom.Tag(":", colon) == Done(ListText(items) + after, ":");
    ParseAttributesRoundTrip(ValueStops, items, after);
  }

  /** A bare tag followed by a newline is a `BasicTag`. */
  lemma BasicRoundTrip(name: string, after: string)
    requires ValidName(name) && after != [] && after[0] == '\n'
    ensures ParseTag("#" + (name + after)) == Done(after, BasicTag(name))
  {
    TagNameRoundTrip(name, after);
  }

  /** A tag with attributes followed by a blank line is a `TagWithAttributes`: the variant-stream alternative,
      tried first, finds no URI after the newline. */
  lemma WithAttributesRoundTrip(name: string, items: seq<Item>, after: string)
    requires ValidName(name) && WellFormedList(items)
    requires |after| >= 2 && after[0] == '\n' && after[1] == '\n'
    ensures ParseTag("#" + (name + (":" + (ListText(items) + after))))
      == Done(after, TagWithAttributes(name, Pairs(items)))
  {
    TagAndAttributesRoundTrip(name, items, after);
  }

  /** A tag with attributes, a newline and a URI is a `TagWithUri`, whatever the name. */
  lemma WithUriRoundTrip(name: string, items: seq<Item>, uri: string, after: string)
    requires ValidName(name) && WellFormedList(items)
    requires uri != [] && NoneIn(uri, ValueStops) && (after == [] || after[0] in ValueStops)
    ensures ParseTag("#" + (name + (":" + (ListText(items) + ("\n" + (uri + after))))))
      == Done(after, TagWithUri(name, Pairs(items), uri))
  {
    var afterList := "\n" + (uri + after);
    TagAndAttributesRoundTrip(name, items, afterList);
    assert Nom.Tag("\n", afterList) == Done(uri + after, "\n");
    IsNotOfRun(ValueStops, uri, after);
  }

  /** Regroups a line's text followed by more text. */
  lemma LineTextThen(l: Line, after: string)
    requires WellFormedLine(l)
    ensures l.Basic? ==> LineText(l) + after == "#" + (l.name + after)
    ensures l.WithAttributes? ==> LineText(l) + after == "#" + (l.name + (":" + (ListText(l.items) + after)))
    ensures l.WithUri? ==>
      LineText(l) + after == "#" + (l.name + (":" + (ListText(l.items) + ("\n" + (l.uri + after)))))
  {
    match l
    case Basic(name) =>
      Associative("#", name, after);
    case WithAttributes(name, items) =>
      var t := ListText(items);
      Associative(":", t, after);
      Associative(name, ":" + t, after);
      Associative("#", name + (":" + t), after);
    case WithUri(name, items, uri) =>
      var u := "\n" + uri;
      var t := ListText(items) + u;
      Associative("\n", uri, after);
      Associative(ListText(items), u, after);
      Associative(":", t, after);
      Associative(name, ":" + t, after);
      Associative("#", name + (":" + t), after);
  }

  lemma Associative(a: string, b: string, c: string)
    ensures (a + b) + c == a + (b + c)
  {
  }

  /** Each well-formed line is read back as its record, leaving its gap and what follows. */
  lemma LineRoundTrip(e: Entry, after: string)
    requires WellFormedEntry(e)
    ensures ParseTag(LineText(e.line) + (e.gap + after)) == Done(e.gap + after, TagOf(e.line))
  {
    var l := e.line;
    var next := e.gap + after;
    LineTextThen(l, next);
    match l
    case Basic(name) => BasicRoundTrip(name, next);
    case WithAttributes(name, items) => WithAttributesRoundTrip(name, items, next);
    case WithUri(name, items, uri) => WithUriRoundTrip(name, items, uri, next);
  }

  /** A whitespace run followed by a concatenation regroups for `multispace0`. */
  lemma GapThen(gap: string, after: string)
    requires AllWhitespace(gap) && (after == [] || after[0] !in Whitespace)
    ensures Multispace0(gap + after) == after
  {
    Multispace0OfRun(gap, after);
  }

  /** One entry, after leading whitespace, is one element of `many1`. */
  lemma EntryRoundTrip(lead: string, e: Entry, after: string)
    requires AllWhitespace(lead) && WellFormedEntry(e) && (after == [] || after[0] !in Whitespace)
    ensures ParseEntry(lead + (LineText(e.line) + (e.gap + after))) == Done(after, TagOf(e.line))
  {
    var text := LineText(e.line) + (e.gap + after);
    assert text[0] == '#' by {
      LineTextThen(e.line, e.gap + after);
    }
    Multispace0OfRun(lead, text);
    LineRoundTrip(e, after);
    GapThen(e.gap, after);
  }

  /** Text at which no record starts. */
  predicate Stops(rest: string) {
    (rest == [] || rest[0] !in Whitespace) && ParseTagName(rest).Fail?
  }

  lemma StopsEntry(rest: string)
    requires Stops(rest)
    ensures ParseEntry(rest).Fail?
  {
    Multispace0OfRun([], rest);
    assert [] + rest == rest;
  }

  lemma DocTextNonEmpty(entries: seq<Entry>)
    requires entries != [] && WellFormedEntry(entries[0])
    ensures DocText(entries) != [] && DocText(entries)[0] == '#'
  {
    LineTextThen(entries[0].line, entries[0].gap + DocText(entries[1..]));
  }

  /** One well-formed entry is one step of the repetition. */
  lemma MoreEntriesCons(e: Entry, after: string)
    requires WellFormedEntry(e) && (after == [] || after[0] !in Whitespace)
    ensures MoreEntries(LineText(e.line) + (e.gap + after))
      == (MoreEntries(after).0, [TagOf(e.line)] + MoreEntries(after).1)
  {
    EntryRoundTrip([], e, after);
    assert [] + (LineText(e.line) + (e.gap + after)) == LineText(e.line) + (e.gap + after);
  }

  /** One well-formed entry after leading whitespace is the first element of `many1`. */
  lemma PlaylistCons(lead: string, e: Entry, after: string)
    requires AllWhitespace(lead) && WellFormedEntry(e) && (after == [] || after[0] !in Whitespace)
    ensures ParseMasterPlaylist(lead + (LineText(e.line) + (e.gap + after)))
      == Done(MoreEntries(after).0, [TagOf(e.line)] + MoreEntries(after).1)
  {
    EntryRoundTrip(lead, e, after);
  }

  /** The entries after the first of a well-formed document are well formed, and their text followed by
      stopping text does not start with whitespace. */
  lemma TailEntries(entries: seq<Entry>, rest: string)
    requires entries != [] && forall i :: 0 <= i < |entries| ==> WellFormedEntry(entries[i])
    requires Stops(rest)
    ensures forall i :: 0 <= i < |entries[1..]| ==> WellFormedEntry(entries[1..][i])
    ensures var after := DocText(entries[1..]) + rest; after == [] || after[0] !in Whitespace
  {
    var tail := entries[1..];
    forall i | 0 <= i < |tail|
      ensures WellFormedEntry(tail[i])
    {
      assert tail[i] == entries[i + 1];
    }
    if tail != [] {
      assert WellFormedEntry(tail[0]);
      DocTextNonEmpty(tail);
      assert (DocText(tail) + rest)[0] == DocText(tail)[0];
    }
  }

  /** The text of a well-formed document after its first record is read back as its records by the repetition. */
  lemma {:induction false} MoreEntriesRoundTrip(entries: seq<Entry>, rest: string)
    requires forall i :: 0 <= i < |entries| ==> WellFormedEntry(entries[i])
    requires Stops(rest)
    ensures MoreEntries(DocText(entries) + rest) == (rest, Tags(entries))
  {
    if entries == [] {
      assert DocText(entries) + rest == rest;
      StopsEntry(rest);
    } else {
      DocTextThen(entries, rest);
      TailEntries(entries, rest);
      assert WellFormedEntry(entries[0]);
      MoreEntriesCons(entries[0], DocText(entries[1..]) + rest);
      MoreEntriesRoundTrip(entries[1..], rest);
    }
  }

  lemma DocTextThen(entries: seq<Entry>, rest: string)
    requires entries != []
    ensures DocText(entries) + rest
      == LineText(entries[0].line) + (entries[0].gap + (DocText(entries[1..]) + rest))
  {
  }

  /** Round trip: a well-formed document after leading whitespace is read back as its records, in document order,
      and the grammar stops where no record starts. */
  lemma PlaylistRoundTrip(lead: string, entries: seq<Entry>, rest: string)
    requires AllWhitespace(lead) && entries != []
    requires forall i :: 0 <= i < |entries| ==> WellFormedEntry(entries[i])
    requires Stops(rest)
    ensures ParseMasterPlaylist(lead + (DocText(entries) + rest)) == Done(rest, Tags(entries))
  {
    DocTextThen(entries, rest);
    TailEntries(entries, rest);
    assert WellFormedEntry(entries[0]);
    PlaylistCons(lead, entries[0], DocText(entries[1..]) + rest);
    MoreEntriesRoundTrip(entries[1..], rest);
  }

  /** `HLSParser::parse` keeps the records of a well-formed document and silently drops any text after them at which
      no record starts. */
  lemma ParseDropsTrailingText(lead: string, entries: seq<Entry>, rest: string)
    requires AllWhitespace(lead) && entries != []
    requires forall i :: 0 <= i < |entries| ==> WellFormedEntry(entries[i])
    requires Stops(rest)
    ensures Parse(lead + (DocText(entries) + rest)) == Ok(Tags(entries))
  {
    PlaylistRoundTrip(lead, entries, rest);
  }
}
