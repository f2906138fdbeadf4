/** The tag and playlist grammar of src/parser/mod.rs:58-97 (identical in src/parser/nom_parser.rs:38-77), and
    `HLSParser::parse` (src/parser/mod.rs:25-29), which keeps the records and drops the unconsumed remainder. */
module Parser {
  import opened Nom
  import opened Errors
  import opened Attributes

  /** A record of the playlist as the grammar reads it (src/models/mod.rs:1-24). */
  datatype Tag =
    | TagWithAttributes(name: string, attributes: seq<Pair>)
    | TagWithUri(name: string, attributes: seq<Pair>, uri: string)
    | BasicTag(name: string)

  /** `is_not(":\n")`: the characters that end a tag name. */
  const NameStops: set<char> := {':', '\n'}

  /** `parse_tag_name`: `#` followed by the longest non-empty run free of `:` and newline. */
  function ParseTagName(s: string): (r: ParseResult<string>)
    ensures r.Done? <==> |s| >= 2 && s[0] == '#' && s[1] !in NameStops
    ensures r.Done? ==> s == "#" + (r.value + r.rest) && r.value != [] && NoneIn(r.value, NameStops)
    ensures r.Done? ==> r.rest == [] || r.rest[0] in NameStops
  {
    match Nom.Tag("#", s)
    case Fail => Fail
    case Done(afterHash, _) =>
      assert afterHash == s[1..];
      IsNot(NameStops, afterHash)
  }

  /** `parse_tag_and_attributes`: a tag name, a colon, and a non-empty attribute list. */
  function ParseTagAndAttributes(s: string): (r: ParseResult<(string, seq<Pair>)>)
    ensures r.Done? <==> && ParseTagName(s).Done?
                         && var n := ParseTagName(s).rest;
                            n != [] && n[0] == ':' && ParseAttribute(ValueStops, n[1..]).Done?
    ensures r.Done? ==> r.value.0 == ParseTagName(s).value && |r.value.1| >= 1 && |r.rest| < |s|
  {
    match ParseTagName(s)
    case Fail => Fail
    case Done(afterName, name) =>
      match Nom.Tag(":", afterName)
      case Fail => Fail
      case Done(afterColon, _) =>
        assert afterColon == afterName[1..];
        match ParseAttributes(ValueStops, afterColon)
        case Fail => Fail
        case Done(rest, attributes) => Done(rest, (name, attributes))
  }

  /** A newline and a value after it, as the variant stream grammar reads them. */
  lemma NewlineThenValue(n: string)
    ensures Nom.Tag("\n", n).Done? <==> n != [] && n[0] == '\n'
    ensures Nom.Tag("\n", n).Done? ==> && Nom.Tag("\n", n).rest == n[1..]
                                        && (IsNot(ValueStops, n[1..]).Done? <==> |n| >= 2 && n[1] !in ValueStops)
                                        && n == "\n" + n[1..]
  {
  }

  /** `parse_variant_stream`: a tag with attributes, exactly one newline, and a non-empty URI that runs to the next
      comma or newline. The tag name is not looked at, and the URI line may start with `#`. */
  function ParseVariantStream(s: string): (r: ParseResult<Tag>)
    ensures r.Done? <==> && ParseTagAndAttributes(s).Done?
                         && var n := ParseTagAndAttributes(s).rest;
                            |n| >= 2 && n[0] == '\n' && n[1] !in ValueStops
    ensures r.Done? ==> && r.value.TagWithUri?
                        && (r.value.name, r.value.attributes) == ParseTagAndAttributes(s).value
                        && ParseTagAndAttributes(s).rest == "\n" + (r.value.uri + r.rest)
                        && r.value.uri != [] && NoneIn(r.value.uri, ValueStops)
                        && (r.rest == [] || r.rest[0] in ValueStops)
  {
    match ParseTagAndAttributes(s)
    case Fail => Fail
    case Done(afterAttributes, (name, attributes)) =>
      NewlineThenValue(afterAttributes);
      match Nom.Tag("\n", afterAttributes)
      case Fail => Fail
      case Done(afterNewline, _) =>
        match IsNot(ValueStops, afterNewline)
        case Fail => Fail
        case Done(rest, uri) => Done(rest, TagWithUri(name, attributes, uri))
  }

  /** `parse_tag_with_attributes`. */
  function ParseTagWithAttributes(s: string): (r: ParseResult<Tag>)
    ensures r.Done? <==> ParseTagAndAttributes(s).Done?
    ensures r.Done? ==> && r.value.TagWithAttributes?
                        && (r.value.name, r.value.attributes) == ParseTagAndAttributes(s).value
                        && r.rest == ParseTagAndAttributes(s).rest
  {
    match ParseTagAndAttributes(s)
    case Fail => Fail
    case Done(rest, (name, attributes)) => Done(rest, TagWithAttributes(name, attributes))
  }

  /** `parse_simple_tag`. */
  function ParseSimpleTag(s: string): (r: ParseResult<Tag>)
    ensures r.Done? <==> ParseTagName(s).Done?
    ensures r.Done? ==> r == Done(ParseTagName(s).rest, BasicTag(ParseTagName(s).value))
  {
    match ParseTagName(s)
    case Fail => Fail
    case Done(rest, name) => Done(rest, BasicTag(name))
  }

  /** The alternative of src/parser/mod.rs:89-93: a variant stream first, then a tag with attributes, then a simple
      tag. Any line that starts with `#` and a name is read, and the record has that name. */
  function ParseTag(s: string): (r: ParseResult<Tag>)
    ensures r.Done? <==> ParseTagName(s).Done?
    ensures r.Done? ==> r.value.name == ParseTagName(s).value && |r.rest| < |s|
    ensures r.Done? ==> (r.value.TagWithUri? <==> ParseVariantStream(s).Done?)
    ensures r.Done? ==> (r.value.TagWithAttributes? <==> ParseVariantStream(s).Fail? && ParseTagAndAttributes(s).Done?)
  {
    match ParseVariantStream(s)
    case Done(rest, t) => Done(rest, t)
    case Fail =>
      match ParseTagWithAttributes(s)
      case Done(rest, t) => Done(rest, t)
      case Fail => ParseSimpleTag(s)
  }

  /** What a tag leaves is a suffix of its input. */
  lemma ParseTagSuffix(s: string)
    requires ParseTag(s).Done?
    ensures IsSuffix(ParseTag(s).rest, s)
  {
    NameSuffix(s);
    if ParseVariantStream(s).Done? {
      VariantStreamSuffix(s);
    } else if ParseTagAndAttributes(s).Done? {
      TagAndAttributesSuffix(s);
    }
  }

  lemma NameSuffix(s: string)
    requires ParseTagName(s).Done?
    ensures IsSuffix(ParseTagName(s).rest, s)
  {
    var name := ParseTagName(s);
    SuffixOfConcat(name.value, name.rest);
    SuffixOfConcat("#", name.value + name.rest);
    SuffixTransitive(name.rest, name.value + name.rest, s);
  }

  lemma TagAndAttributesSuffix(s: string)
    requires ParseTagAndAttributes(s).Done?
    ensures IsSuffix(ParseTagAndAttributes(s).rest, s)
  {
    var name := ParseTagName(s);
    NameSuffix(s);
    var colon := name.rest[1..];
    SuffixOfConcat(":", colon);
    assert name.rest == ":" + colon;
    SuffixTransitive(colon, name.rest, s);
    AttributesSuffix(colon);
    SuffixTransitive(ParseTagAndAttributes(s).rest, colon, s);
  }

  lemma VariantStreamSuffix(s: string)
    requires ParseVariantStream(s).Done?
    ensures IsSuffix(ParseVariantStream(s).rest, s)
  {
    var ta := ParseTagAndAttributes(s);
    var v := ParseVariantStream(s);
    TagAndAttributesSuffix(s);
    SuffixOfConcat(v.value.uri, v.rest);
    SuffixOfConcat("\n", v.value.uri + v.rest);
    SuffixTransitive(v.rest, v.value.uri + v.rest, ta.rest);
    SuffixTransitive(v.rest, ta.rest, s);
  }

  /** What an attribute list leaves is a suffix of its input. */
  lemma AttributesSuffix(s: string)
    requires ParseAttributes(ValueStops, s).Done?
    ensures IsSuffix(ParseAttributes(ValueStops, s).rest, s)
  {
    var items := ParseAttributesText(ValueStops, s);
  }

  /** One element of `many1`: whitespace, a tag, whitespace. */
  function ParseEntry(s: string): (r: ParseResult<Tag>)
    ensures r.Done? <==> ParseTagName(Multispace0(s)).Done?
    ensures r.Done? ==> |r.rest| < |s| && IsSuffix(r.rest, s)
    ensures r.Done? ==> r.rest == [] || r.rest[0] !in Whitespace
  {
    var n := Multispace0(s);
    match ParseTag(n)
    case Fail => Fail
    case Done(afterTag, t) =>
      var rest := Multispace0(afterTag);
      assert IsSuffix(rest, s) by {
        ParseTagSuffix(n);
        SuffixTransitive(afterTag, n, s);
        SuffixTransitive(rest, afterTag, s);
      }
      Done(rest, t)
  }

  /** The repetition of `many1` after its first element: it stops at the first element that does not read. */
  function MoreEntries(s: string): (r: (string, seq<Tag>))
    ensures IsSuffix(r.0, s) && ParseEntry(r.0).Fail?
    decreases |s|
  {
    match ParseEntry(s)
    case Fail => (s, [])
    case Done(afterEntry, t) =>
      var (rest, ts) := MoreEntries(afterEntry);
      SuffixTransitive(rest, afterEntry, s);
      (rest, [t] + ts)
  }

  /** `parse_master_playlist`: at least one record, in document order. The remainder is a suffix of the input at which
      no further record reads. */
  function ParseMasterPlaylist(s: string): (r: ParseResult<seq<Tag>>)
    ensures r.Done? <==> ParseEntry(s).Done?
    ensures r.Done? ==> |r.value| >= 1 && r.value[0] == ParseEntry(s).value
    ensures r.Done? ==> |r.rest| < |s| && IsSuffix(r.rest, s) && ParseEntry(r.rest).Fail?
  {
    match ParseEntry(s)
    case Fail => Fail
    case Done(afterFirst, first) =>
      var (rest, more) := MoreEntries(afterFirst);
      SuffixTransitive(rest, afterFirst, s);
      Done(rest, [first] + more)
  }

  /** The payload of the `ParseError` a grammar failure becomes (src/parser/mod.rs:15-19). The text nom renders for
      its error is not modelled. */
  const GrammarFailure: string := "Parsing Error"

  /** `HLSParser::parse`: the records of the playlist, whatever text follows them; a grammar failure is a
      `ParseError`. */
  function Parse(s: string): (r: Result<seq<Tag>>)
    ensures r.Ok? <==> ParseMasterPlaylist(s).Done?
    ensures r.Ok? ==> r.value == ParseMasterPlaylist(s).value && |r.value| >= 1
    ensures r.Err? ==> r.error == ParseError(GrammarFailure)
  {
    match ParseMasterPlaylist(s)
    case Fail => Err(ParseError(GrammarFailure))
    case Done(_, tags) => Ok(tags)
  }
}
