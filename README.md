# hls_parser master-playlist core, modelled in Dafny

This project models the core of `hls_parser`, a small Rust library. The library reads the text of an HTTP Live
Streaming master playlist and produces a typed `MasterPlaylist`. That playlist holds four sorted lists: variant
streams, media tags, I-frame streams and the names of basic tags. The work happens in two stages.

1. **The grammar.** It is written with the nom combinator library and lives in `src/parser/mod.rs`, with a verbatim
   copy in `src/parser/nom_parser.rs`. It turns the text into a list of records:
   - a tag with an attribute list;
   - a tag with an attribute list and a URI on the next line;
   - a bare tag.

   `HLSParser::parse` keeps the records and drops whatever text the grammar did not consume.
2. **The typed conversion** (`src/models/conversions.rs`):
   - it builds a variant stream, a media tag or an I-frame stream from the attribute map of each record, by its
     tag name;
   - it keeps the names of attribute-less unknown tags;
   - it rejects unknown tags that carry attributes, and stops at the first failure;
   - it sorts the four lists.

   `parse_hls` (`src/lib.rs`) chains the two stages.

An older attribute grammar, `src/parser/attributes.rs`, differs only in the characters that end a bare value. The
attribute grammar is therefore written once, over that stop set, and both settings are proved about.

Modules, in dependency order:
- `Errors`: the error type and `Result`.
- `Nom`: the nom primitives `tag`, `is_not`, `take_until` and `multispace0`, complete flavour.
- `Attributes`: the attribute grammar.
- `Parser`: the tag and playlist grammar, plus `HLSParser::parse`.
- `Documents`: the inverse of the grammar, the text that well-formed records are written as. Its round-trip lemmas
  pin down what the grammar accepts and what it builds.
- `Numbers`: `str::parse::<u32>`.
- `Conversions`: the resolution, enum and record builders.
- `Ordering`: the derived orders, and sorting.
- `Playlist`: `MasterPlaylist::try_from`. It is an imperative method with a loop and an early return, proved equal to
  the function `Convert`.
- `Hls`: `parse_hls`.
- `Examples` and `ConversionExamples`: the repository's unit tests, derived from the general lemmas.

## Model

| member | source | states |
|---|---|---|
| Nom.Tag | src/parser/mod.rs:59 | `tag(t)` succeeds iff the input starts with `t`, and then consumes exactly `t` |
| Nom.IsNot | src/parser/mod.rs:33 | `is_not` fails iff the input is empty or starts with a stop character. Otherwise it consumes a non-empty run free of stop characters that ends at a stop character or at the end of the input |
| Nom.IsNotOfRun | src/parser/mod.rs:33 | `is_not` reads exactly a maximal run of characters that are not stop characters |
| Nom.TakeUntil | src/parser/mod.rs:46 | `take_until` succeeds iff the character occurs. It returns everything before the first occurrence and leaves that character unconsumed |
| Nom.TakeUntilOfPrefix | src/parser/mod.rs:46 | `take_until` stops at the first occurrence of its character |
| Nom.Multispace0 | src/parser/mod.rs:87-94 | `multispace0` never fails. It skips only whitespace, and what it leaves does not start with whitespace |
| Nom.Multispace0OfRun | src/parser/mod.rs:87-94 | `multispace0` skips exactly a whitespace run that something else follows |
| Attributes.ParseQuotedValue | src/parser/mod.rs:36-41 | Succeeds iff the input starts with a quote, then a non-quote, and a closing quote follows. It strips the quotes, and the value holds no quote |
| Attributes.QuotedValueRoundTrip | src/parser/mod.rs:36-41 | A quote-free non-empty value between quotes is read back exactly, commas included |
| Attributes.ParseAttribute | src/parser/mod.rs:43-52 | `parse_attribute` succeeds iff some `=` is followed by a character that does not end a value, and it always consumes something |
| Attributes.ParseAttributeText | src/parser/mod.rs:43-52 | Whatever an attribute reads is the text of a readable item, and a bare value it reads is maximal |
| Attributes.ParseAttributeRoundTrip | src/parser/mod.rs:43-52 | A well-formed item followed by a delimiter is read back as its key and value, leaving exactly what follows |
| Attributes.MoreAttributes | src/parser/mod.rs:55 | The repetition of `separated_list1` stops only before a comma that no pair follows |
| Attributes.MoreAttributesRoundTrip | src/parser/mod.rs:55 | The comma-separated tail of written items is read back as their pairs, in order |
| Attributes.MoreAttributesText | src/parser/mod.rs:55 | Whatever the repetition reads is the comma-separated text of readable items |
| Attributes.ParseAttributes | src/parser/mod.rs:54-56 | `parse_attributes` succeeds iff its first pair reads. It holds at least one pair, the first one first, and leaves no comma that a pair follows |
| Attributes.ParseAttributesRoundTrip | src/parser/mod.rs:54-56 | A written list of well-formed items is read back completely, in order, with duplicates kept |
| Attributes.ParseAttributesText | src/parser/mod.rs:54-56 | Whatever a list reads is the text of readable items. With the round trip, this characterises the grammar in both directions |
| Parser.ParseTagName | src/parser/mod.rs:58-62 | A tag name succeeds iff the input is `#` and a character that is neither `:` nor newline. The name is the maximal run before `:` or newline |
| Parser.ParseTagAndAttributes | src/parser/mod.rs:64-66 | A name, a colon and a non-empty attribute list, succeeding exactly when those three read |
| Parser.ParseVariantStream | src/parser/mod.rs:68-73 | After the attribute list comes one newline, then a non-empty URI up to a comma or newline. The name is not looked at |
| Parser.ParseTagWithAttributes | src/parser/mod.rs:75-79 | Succeeds exactly when the name and the attribute list read, and keeps them |
| Parser.ParseSimpleTag | src/parser/mod.rs:81-83 | Succeeds exactly when a name reads, and gives a basic tag |
| Parser.ParseTag | src/parser/mod.rs:89-93 | The alternative succeeds iff a name reads. The record has that name. It is a URI tag iff the variant-stream parser reads, and an attribute tag iff only the attribute parser does |
| Parser.ParseTagSuffix | src/parser/mod.rs:89-93 | A tag consumes a prefix of its input |
| Parser.ParseEntry | src/parser/mod.rs:86-95 | One element of `many1` succeeds iff a name reads after whitespace. It consumes at least one character and leaves no leading whitespace |
| Parser.MoreEntries | src/parser/mod.rs:86-96 | The repetition stops at a suffix at which no further record reads |
| Parser.ParseMasterPlaylist | src/parser/mod.rs:85-97 | At least one record, the first one first. The remainder is a proper suffix at which no record reads |
| Parser.Parse | src/parser/mod.rs:25-29 | `Ok` iff the grammar succeeds, with its records and the remainder dropped. Otherwise a `ParseError` |
| Documents.TagNameRoundTrip | src/parser/mod.rs:58-62 | A valid name after `#` is read back up to the stop character after it |
| Documents.TagAndAttributesRoundTrip | src/parser/mod.rs:64-66 | A name, a colon and a well-formed list are read back as the name and the pairs |
| Documents.BasicRoundTrip | src/parser/mod.rs:81-83 | A bare tag followed by a newline is read as a basic tag |
| Documents.WithAttributesRoundTrip | src/parser/mod.rs:75-79 | A tag with attributes followed by a blank line is read as a tag with attributes, not a URI tag |
| Documents.WithUriRoundTrip | src/parser/mod.rs:68-73 | A tag with attributes, a newline and a URI is read as a URI tag, whatever its name |
| Documents.LineRoundTrip | src/parser/mod.rs:89-93 | Every well-formed line is read back as its record |
| Documents.EntryRoundTrip | src/parser/mod.rs:86-95 | Leading whitespace, a line and its gap are exactly one element of the repetition |
| Documents.StopsEntry | src/parser/mod.rs:86-95 | Text with no `#` after its whitespace starts no record |
| Documents.MoreEntriesRoundTrip | src/parser/mod.rs:86-96 | The text of well-formed records is read back as those records by the repetition |
| Documents.PlaylistRoundTrip | src/parser/mod.rs:85-97 | Round trip: a well-formed document is read back as its records, in document order, and leaves the trailing text |
| Documents.ParseDropsTrailingText | src/parser/mod.rs:25-29 | `HLSParser::parse` returns the records of a well-formed document and silently drops the text after them |
| Numbers.Accumulate | src/models/conversions.rs:145-148 | The digit loop gives a 32-bit value, or one of the two digit errors |
| Numbers.ParseU32 | src/models/conversions.rs:145-148 | Empty text is the empty-string error, and every failure is one of the three `u32` parse errors |
| Numbers.AccumulateOk | src/models/conversions.rs:145-148 | All digits within range accumulate to their decimal value |
| Numbers.ParseU32Ok | src/models/conversions.rs:145-148 | The parse succeeds iff an optional `+` is followed by digits whose value fits in 32 bits, and then gives that value |
| Numbers.ParseU32BadCharacter | src/models/conversions.rs:145-148 | A non-digit reached before any overflow is the invalid-digit error |
| Numbers.ParseU32TooLarge | src/models/conversions.rs:145-148 | An overflow reached before any bad character is the too-large error |
| Numbers.ParseU32LoneSign | src/models/conversions.rs:145-148 | A lone `+` or `-` is an invalid digit |
| Numbers.ParseU32RoundTrip | src/models/conversions.rs:145-148 | Round trip: the decimal text of a 32-bit number, with or without `+`, parses back to it |
| Conversions.Lower | src/models/conversions.rs:13 | Lowercasing keeps the length and lowercases each character |
| Conversions.ParseResolution | src/models/conversions.rs:8-29 | Split at the first `x` of the lowercased text. It succeeds iff there is an `x` and both halves parse, and gives those values. Otherwise the error is the width's, else the missing height, else the height's |
| Conversions.ResolutionRoundTrip | src/models/conversions.rs:8-29 | Round trip: `WIDTHxHEIGHT` in decimal, with either case of `x`, reads back as the resolution |
| Conversions.ResolutionWithoutSeparator | src/models/conversions.rs:21-25 | Without an `x` the result is always an error: the width's error, or the missing height |
| Conversions.ResolutionWithTwoSeparators | src/models/conversions.rs:14 | A second `x` belongs to the height, which then fails |
| Conversions.SeparatorFails | src/models/conversions.rs:21-26 | A height text that still holds an `x` does not parse as a number |
| Conversions.ParseMediaType | src/models/conversions.rs:32-47 | Succeeds iff the text is one of the four names, case-sensitive, and the type's name is that text. Otherwise the invalid-media-type error naming the text |
| Conversions.ParseVideoRange | src/models/conversions.rs:49-62 | Succeeds iff the text is `PQ` or `SDR`. Otherwise the invalid-video-range error naming the text |
| Conversions.EnumRoundTrips | src/models/conversions.rs:32-62 | Each enum value's name parses back to it |
| Conversions.Required | src/models/conversions.rs:141-144 | A key lookup succeeds iff the key is present. Otherwise the error is `HLS missing KEY` |
| Conversions.VariantStreamFrom | src/models/conversions.rs:136-183 | On success, every field is the present key's text or its parse. Every failure is an `HLSFormat` error |
| Conversions.VariantStreamAccepts | src/models/conversions.rs:136-183 | The builder succeeds iff all nine keys are present and the three converted fields parse |
| Conversions.VariantStreamFirstError | src/models/conversions.rs:136-183 | The error is that of the first key, in the literal's order, that is missing or fails to convert |
| Conversions.MediaTagFrom | src/models/conversions.rs:64-103 | On success, the type is parsed and the other seven fields are copied. Failures are `HLSFormat` |
| Conversions.MediaTagAccepts | src/models/conversions.rs:64-103 | The builder succeeds iff all eight keys are present and `TYPE` names a media type |
| Conversions.MediaTagFirstError | src/models/conversions.rs:64-103 | The error is that of the first failing key, in the literal's order |
| Conversions.IFrameFrom | src/models/conversions.rs:105-134 | On success, the bandwidth, resolution and video range are parsed and the rest copied. Failures are `HLSFormat` |
| Conversions.IFrameAccepts | src/models/conversions.rs:105-134 | The builder succeeds iff all five keys are present and the three converted fields parse |
| Conversions.IFrameFirstError | src/models/conversions.rs:105-134 | The error is that of the first failing key, in the literal's order |
| Conversions.EmptyAttributes | src/models/conversions.rs:64-183 | With no attributes, each builder reports its first key: `URI`, `TYPE` and `BANDWIDTH` |
| Conversions.VariantStreamRoundTrip | src/models/conversions.rs:136-183 | Any map holding a variant stream's written fields builds it back, and other keys are ignored |
| Conversions.VariantStreamOfWritten | src/models/conversions.rs:136-183 | A map that has each field's written text under its key builds exactly that variant stream |
| Conversions.MediaTagRoundTrip | src/models/conversions.rs:64-103 | The same round trip for media tags |
| Conversions.IFrameRoundTrip | src/models/conversions.rs:105-134 | The same round trip for I-frame streams |
| Conversions.IFrameOfWritten | src/models/conversions.rs:105-134 | A map that has each field's written text under its key builds exactly that I-frame stream |
| Ordering.KeyLeTotal | src/models/conversions.rs:212-215 | The lexicographic order of the derived `Ord` is total |
| Ordering.KeyLeAntisymmetric | src/models/conversions.rs:212-215 | The order is antisymmetric |
| Ordering.KeyLeTransitive | src/models/conversions.rs:212-215 | The order is transitive |
| Ordering.SortBy | src/models/conversions.rs:212-215 | `sort` gives a sorted permutation of its input |
| Ordering.SortSorted | src/models/conversions.rs:212-215 | Sorting a sorted list leaves it unchanged |
| Ordering.SortIdempotent | src/models/conversions.rs:212-215 | Sorting twice is sorting once |
| Ordering.SortedPermutationUnique | src/models/conversions.rs:212-215 | Under an injective key, two sorted permutations of the same elements are equal, so the sort's result is determined |
| Playlist.KeysInjective | src/models/conversions.rs:212-215 | The four derived orders are total: records with equal keys are equal |
| Playlist.ConvertRecordKind | src/models/conversions.rs:195-208 | On success, a record becomes a variant stream, a media tag or an I-frame stream exactly when its name is that tag's, and a basic tag exactly when its name is unknown; the basic tag keeps the name. An unknown name converts iff it has no attributes, and otherwise fails with the unknown-tag error |
| Playlist.ConvertAll | src/models/conversions.rs:194-209 | A successful loop gives one conversion per record |
| Playlist.Traverse | src/models/conversions.rs:194-209 | The loop's shape: each element converted in order, the first failure returned. A success has one result per element |
| Playlist.TraverseErrOf | src/models/conversions.rs:194-209 | A failed loop failed with the error of an element that fails on its own |
| Playlist.TraverseOkValues | src/models/conversions.rs:194-209 | A successful loop holds, at each position, that element's own result |
| Playlist.Convert | src/models/conversions.rs:185-223 | Succeeds iff every record converts. Each list is sorted by its derived order and is a permutation of the conversions of its kind. A failure is the loop's error |
| Playlist.TryFrom | src/models/conversions.rs:185-223 | The loop with an early return and four sorts gives exactly `Convert` of its input |
| Playlist.ConvertStep | src/models/conversions.rs:194-209 | After a converted prefix, the next record extends the conversion, or its failure is the whole result |
| Playlist.ConvertAllOk | src/models/conversions.rs:194-209 | The loop succeeds iff every record converts on its own, and then holds each record's conversion at its position |
| Playlist.ConvertFirstError | src/models/conversions.rs:194-209 | The result is the error of the first record that fails |
| Playlist.ConvertCounts | src/models/conversions.rs:194-209 | Every record lands in exactly one list: the four lengths add up to the number of records |
| Playlist.VariantStreamsContents | src/models/conversions.rs:196 | A variant stream is in the playlist iff some `EXT-X-STREAM-INF` record builds it |
| Playlist.MediaTagsContents | src/models/conversions.rs:197 | A media tag is in the playlist iff some `EXT-X-MEDIA` record builds it |
| Playlist.IFramesContents | src/models/conversions.rs:198 | An I-frame stream is in the playlist iff some `EXT-X-I-FRAME-STREAM-INF` record builds it |
| Playlist.BasicTagsContents | src/models/conversions.rs:199-207 | A name is a basic tag iff some record has that unknown name and an empty map |
| Playlist.ConvertIdempotentSort | src/models/conversions.rs:211-216 | Each list of the result is already sorted: sorting it again changes nothing |
| Playlist.ConvertOrderIndependent | src/models/conversions.rs:211-216 | Records that are a permutation of each other give the same verdict, and when both succeed, the same playlist |
| Playlist.ConvertFormatErrors | src/models/conversions.rs:185-223 | Every conversion failure is an `HLSFormat` error |
| Hls.MapOfKeys | src/lib.rs:26 | The attribute map holds exactly the keys of the record's pairs |
| Hls.MapOfLaterWins | src/lib.rs:26 | A key maps to the value of its last pair |
| Hls.RecordOfKeys | src/lib.rs:26 | A record's keys are its tag's attribute keys, plus `URI` for a URI tag. A basic tag has none |
| Hls.RecordOfValues | src/lib.rs:26 | A URI tag's `URI` is its URI line. Every other key maps to the value of its last pair |
| Hls.Records | src/lib.rs:26 | One record per parsed tag, in order |
| Hls.ParseHls | src/lib.rs:22-27 | A grammar failure, and only that, is the `ParseError`. Otherwise the result is the typed conversion of the parsed records. Every other failure is `HLSFormat` |
| Hls.ParsedRecords | src/lib.rs:25-26 | A successful parse hands its records to the conversion |
| Hls.ParseHlsDropsTrailingText | src/lib.rs:22-27 | A well-formed document followed by text at which no record starts gives the conversion of its records: the trailing text is never an error |
| Examples.HeaderName | src/parser/tests.rs:18-22 | `#EXTM3U` then a newline: the name is `EXTM3U` and the newline is left |
| Examples.LoneHash | src/parser/mod.rs:58-62 | A `#` with no name is not a tag |
| Examples.UriLineMayBeATag | src/parser/mod.rs:68-73 | The line after an attribute list is taken as a URI, even when it is a tag |
| Examples.BlankLineEndsAttributes | src/parser/mod.rs:68-79 | A blank line after an attribute list gives a tag with attributes |
| Examples.TrailingTextIgnored | src/parser/mod.rs:25-29 | Text after the last line that starts no tag is dropped without error |
| Examples.BareBandwidth | src/parser/tests.rs:196-202 | `BANDWIDTH=2312764` reads as that pair |
| Examples.QuotedAudio | src/parser/tests.rs:205-211 | A quoted value loses its quotes |
| Examples.QuotedCodecs | src/parser/tests.rs:214-223 | A quoted codec list with a comma is one pair |
| Examples.BareFrameRate | src/parser/tests.rs:226-232 | `FRAME-RATE=23.97` reads as text |
| Examples.BareResolution | src/parser/tests.rs:235-241 | `RESOLUTION=640x360` reads as that pair |
| Examples.QuotedInner | src/parser/tests.rs:187-193 | The quoted codec list alone reads without its quotes |
| Examples.LegacyKey | src/parser/attributes.rs:63-66 | The older key parser leaves `=2312764` |
| Examples.LegacyValueStopsAtLetterN | src/parser/attributes.rs:12-14 | The older grammar reads `AUDIO=main` as value `mai`, leaving `n` |
| Examples.ValueKeepsLetterN | src/parser/mod.rs:32-34 | The current grammar reads `AUDIO=main` whole |
| Examples.LegacyValueCrossesLines | src/parser/attributes.rs:12-14 | The older grammar's bare value runs across a line break |
| Examples.ValueEndsAtLineBreak | src/parser/mod.rs:32-34 | The current grammar ends the value at the line break |
| ConversionExamples.IFrameResolution | src/models/conversions.rs:8-29 | `640x360` and `640X360` read as 640 by 360 |
| ConversionExamples.LoneWidth | src/models/conversions.rs:21-25 | `640` alone is the missing-height error |
| ConversionExamples.LowercaseMediaType | src/models/conversions.rs:32-47 | `audio` is not a media type |
| ConversionExamples.RejectsBadVariantStream | src/models/tests.rs:28-35 | A variant stream with no attributes fails with `HLS missing URI` |
| ConversionExamples.RejectsBadIFrame | src/models/tests.rs:37-44 | An I-frame stream with no attributes fails with `HLS missing BANDWIDTH` |
| ConversionExamples.RejectsBadMediaTag | src/models/tests.rs:46-53 | A media tag with no attributes fails with `HLS missing TYPE` |
| ConversionExamples.VariantStreamOfTestRecord | src/models/tests.rs:56-70 | The test's variant stream map builds the expected variant stream |
| ConversionExamples.MediaTagOfTestRecord | src/models/tests.rs:72-85 | The test's media map builds the expected media tag |
| ConversionExamples.IFrameOfTestRecord | src/models/tests.rs:87-97 | The test's I-frame map builds the expected I-frame stream |
| ConversionExamples.TestRecordsConvert | src/models/tests.rs:5-26 | The test's four records convert, and each list holds the expected single element |

## Left out

- The records that `parse_hls` hands to `try_into` are not the shape `MasterPlaylist::try_from` takes. The grammar
  gives tags; the conversion takes `(name, map)` pairs. The adapter between them is not among the repository's
  files. It is modelled by `Hls.RecordOf`:
  - attribute pairs are inserted in order, so a later duplicate key wins;
  - a URI tag adds its URI line under `URI`;
  - a basic tag has an empty map.
  This matches the records the model tests build by hand.
- `Hls.ParseHls` calls the function `Playlist.Convert`, not the method `Playlist.TryFrom` (a function cannot call a
  method). `TryFrom` is proved equal to `Convert`.
- The text of nom's error is not modelled. A grammar failure is `ParseError` with the fixed payload
  `Parser.GrammarFailure`.
- The `From<ParseIntError>` conversion is not among the repository's files. A failed `u32` parse is modelled as an
  `HLSFormat` error carrying Rust's message for that failure. The messages and kinds follow current Rust std, where
  a lone `+` is an invalid digit; older std releases stripped the sign first and reported an empty string.
- `HLSFormat(string)` is not declared in src/errors.rs:6-11, which has only `APIError` and `ParseError`. It is
  added because the conversions construct `Error::HLSFormat` (src/models/conversions.rs:17, 23, 41, 56, 71 and on).
- `to_lowercase` is modelled on ASCII letters only. Unicode case mapping is not modelled. It cannot turn a non-digit
  into a digit or into `x`, except that `X` becomes `x`, which is modelled.
- The declarations of `MasterPlaylist`, `VariantStream`, `MediaTag`, `IFrame`, `MediaType`, `VideoRange` and
  `Resolution` are not part of this model; only the enums `Tag` and friends of `src/models/mod.rs` are. The field order
  of the structs, and hence their derived `Ord`, follows the field order of the conversions' struct literals.
  `MediaType` is assumed declared Audio, Video, Subtitles, ClosedCaptions, and `VideoRange` PQ, SDR. Those
  declarations are not shown, and the match at src/models/conversions.rs:37-40 lists ClosedCaptions first. The
  assumed order decides the order of `media_tags`, whose sort key starts with the type. Width and height are taken
  to be `u32`. The model tests still spell `media_type` and `video_range` as strings; the conversions type them
  as enums, and the model follows the conversions.
- `Vec::sort` sorts in place and is stable. It is modelled as a pure insertion sort reassigned to each list.
  Stability and in-place update are not modelled. Because every derived order is total over whole records
  (`Playlist.KeysInjective`), the sorted result is the same either way (`Ordering.SortedPermutationUnique`).
- The iteration order of a `HashMap` is not modelled. The conversion only looks keys up, so it does not depend on
  that order.
- The guard of `many1` against an element that consumes nothing is not modelled. Every element consumes at least a
  `#` and one character (`Parser.ParseEntry`), so the guard cannot fire.
- `parse_default_hls`, `main`, the blocking API client and all I/O and printing are left out. They fetch text over
  the network and print it.
- The test that parses a file from disk (`parses_master_playlist`), and the long literal playlist and attribute-list
  tests, are left out. Their instances are covered by `Documents.PlaylistRoundTrip` and
  `Attributes.ParseAttributesRoundTrip` for all well-formed inputs; evaluating those long literals exceeds the
  verifier's resource bound.

## Findings

| source | as written | input that shows it | evidently intended | confidence | as-written member | corrected member |
|---|---|---|---|---|---|---|
| src/parser/attributes.rs:13 | a bare value ends at a comma, a slash or the letter `n` (`is_not(",/n")`) | `AUDIO=main` reads as `("AUDIO", "mai")` and leaves `n`; `VIDEO-RANGE=PQ` newline `vod.m3u8` reads the URI line into the value | a bare value ends at a comma or a line break, `is_not(",\n")`, as `src/parser/mod.rs:33` has it | high (not executed) | Examples.LegacyValueStopsAtLetterN, Examples.LegacyValueCrossesLines | Examples.ValueKeepsLetterN, Examples.ValueEndsAtLineBreak, Attributes.ValueStops |
