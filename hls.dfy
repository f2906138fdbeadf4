/** `parse_hls` (src/lib.rs:22-27): the grammar, then the typed conversion of its records. */
module Hls {
  import opened Errors
  import opened Parser
  import opened Playlist
  import Attributes
  import Conversions
  import Documents

  /** The attribute map of a list of pairs, built by inserting the pairs in order. */
  function MapOf(pairs: seq<Attributes.Pair>): Conversions.Attributes {
    if pairs == [] then map[] else MapOf(pairs[..|pairs| - 1])[pairs[|pairs| - 1].0 := pairs[|pairs| - 1].1]
  }

  /** The map holds exactly the keys of the pairs. */
  lemma {:induction false} MapOfKeys(pairs: seq<Attributes.Pair>, k: string)
    ensures k in MapOf(pairs) <==> exists i :: 0 <= i < |pairs| && pairs[i].0 == k
  {
    if pairs != [] {
      var n := |pairs| - 1;
      MapOfKeys(pairs[..n], k);
      assert forall i :: 0 <= i < n ==> pairs[..n][i] == pairs[i];
      if k == pairs[n].0 {
        assert 0 <= n < |pairs| && pairs[n].0 == k;
      }
    }
  }

  /** A later duplicate key wins: a key maps to the value of its last pair. */
  lemma {:induction false} MapOfLaterWins(pairs: seq<Attributes.Pair>, i: nat)
    requires i < |pairs| && LastOfKey(pairs, i)
    ensures pairs[i].0 in MapOf(pairs) && MapOf(pairs)[pairs[i].0] == pairs[i].1
  {
    var n := |pairs| - 1;
    if i < n {
      var front := pairs[..n];
      assert front[i] == pairs[i];
      assert LastOfKey(front, i) by {
        assert forall j :: i < j < |front| ==> front[j] == pairs[j];
      }
      MapOfLaterWins(front, i);
      assert pairs[n].0 != pairs[i].0;
    }
  }

  /** No later pair of `pairs` has the key of the pair at `i`. */
  predicate LastOfKey(pairs: seq<Attributes.Pair>, i: nat)
    requires i < |pairs|
  {
    forall j :: i < j < |pairs| ==> pairs[j].0 != pairs[i].0
  }

  /** The record a parsed tag is handed to the conversion as: its name and its attribute map, with a variant
      stream's URI line under the key `URI` and a basic tag's map empty. */
  function RecordOf(t: Tag): (r: Record)
    ensures r.0 == t.name
  {
    match t
    case TagWithAttributes(name, attributes) => (name, MapOf(attributes))
    case TagWithUri(name, attributes, uri) => (name, MapOf(attributes)["URI" := uri])
    case BasicTag(name) => (name, map[])
  }

  /** The keys of a record are the keys of its tag's attributes, plus `URI` for a variant stream; a basic tag has
      none. */
  lemma RecordOfKeys(t: Tag, k: string)
    ensures k in RecordOf(t).1 <==>
      || (t.TagWithUri? && k == "URI")
      || (!t.BasicTag? && exists i :: 0 <= i < |t.attributes| && t.attributes[i].0 == k)
  {
    if !t.BasicTag? {
      MapOfKeys(t.attributes, k);
    }
  }

  /** A record maps each key to the value of its last attribute, except that a variant stream's line under its tag
      is always its `URI`. */
  lemma RecordOfValues(t: Tag, i: nat)
    requires !t.BasicTag? && i < |t.attributes| && LastOfKey(t.attributes, i)
    ensures t.TagWithUri? ==> "URI" in RecordOf(t).1 && RecordOf(t).1["URI"] == t.uri
    ensures !(t.TagWithUri? && t.attributes[i].0 == "URI") ==>
      t.attributes[i].0 in RecordOf(t).1 && RecordOf(t).1[t.attributes[i].0] == t.attributes[i].1
  {
    MapOfLaterWins(t.attributes, i);
  }

  function Records(tags: seq<Tag>): (rs: seq<Record>)
    ensures |rs| == |tags| && forall i :: 0 <= i < |tags| ==> rs[i] == RecordOf(tags[i])
  {
    seq(|tags|, i requires 0 <= i < |tags| => RecordOf(tags[i]))
  }

  /** The playlist a text describes; a grammar failure is a `ParseError`, a typed-conversion failure an
      `HLSFormat` error, and conversion runs only on the records of a successful parse. */
  function ParseHls(s: string): (r: Result<MasterPlaylist>)
    ensures ParseMasterPlaylist(s).Fail? <==> r == Err(ParseError(GrammarFailure))
    ensures ParseMasterPlaylist(s).Done? ==> r == Convert(Records(ParseMasterPlaylist(s).value))
    ensures r.Err? && !r.error.ParseError? ==> r.error.HLSFormat?
  {
    var tags :- Parse(s);
    ConvertFormatErrors(Records(tags));
    Convert(Records(tags))
  }

  /** A successful parse hands its records to the conversion and returns what that gives. */
  lemma ParsedRecords(text: string, tags: seq<Tag>)
    requires Parse(text) == Ok(tags)
    ensures ParseHls(text) == Convert(Records(tags))
  {
  }

  /** Whatever text follows a playlist's last line is discarded, never an error. */
  lemma {:induction false} ParseHlsDropsTrailingText(lead: string, entries: seq<Documents.Entry>, rest: string)
    requires Documents.AllWhitespace(lead) && entries != []
    requires forall i :: 0 <= i < |entries| ==> Documents.WellFormedEntry(entries[i])
    requires Documents.Stops(rest)
    ensures var tags := Documents.Tags(entries); ParseHls(lead + (Documents.DocText(entries) + rest)) == Convert(Records(tags))
  {
    Documents.ParseDropsTrailingText(lead, entries, rest);
    ParsedRecords(lead + (Documents.DocText(entries) + rest), Documents.Tags(entries));
  }
}
