/** The attribute-list grammar: `KEY=VALUE` pairs separated by commas, where a value is quoted or bare.
    The grammar of src/parser/mod.rs:32-56 (and of its copy src/parser/nom_parser.rs:12-36) ends a bare
    value at a comma or a newline; the older src/parser/attributes.rs:8-26 ends it at a comma, a slash or
    the letter `n`. The grammar is written once, over the set of characters that ends a bare value. */
module Attributes {
  import opened Nom

  /** A set of characters that ends a bare value. Both grammars stop at a comma and neither stops at a quote. */
  type StopSet = s: set<char> | ',' in s && '"' !in s witness {','}

  /** `is_not(",\n")` of src/parser/mod.rs:33. */
  const ValueStops: StopSet := {',', '\n'}

  /** `is_not(",/n")` of src/parser/attributes.rs:13: a slash and the letter `n`, not a newline. */
  const LegacyValueStops: StopSet := {',', '/', 'n'}

  type Pair = (string, string)

  /** The text one attribute was written as: its key, its value, and whether the value was quoted. */
  datatype Item = Item(key: string, value: string, quoted: bool) {
    function Pair(): Pair {
      (key, value)
    }
  }

  /** The value as written: between quotes when quoted. */
  function ValueText(it: Item): string {
    if it.quoted then "\"" + it.value + "\"" else it.value
  }

  function ItemText(it: Item): string {
    it.key + "=" + ValueText(it)
  }

  /** Regroups the text of an item followed by more text the way the grammar consumes it. */
  lemma ItemTextThen(it: Item, rest: string)
    ensures ItemText(it) + rest == it.key + ("=" + (ValueText(it) + rest))
  {
  }

  /** An item the grammar can have read: a key without `=`, and a non-empty value that has no quote when
      quoted and no stop character when bare. */
  predicate Readable(stops: StopSet, it: Item) {
    && '=' !in it.key
    && it.value != []
    && if it.quoted then '"' !in it.value else NoneIn(it.value, stops)
  }

  /** An item the grammar reads back as written: readable, and a bare value does not start with a quote
      (the quoted alternative is tried first). */
  predicate WellFormed(stops: StopSet, it: Item) {
    Readable(stops, it) && (!it.quoted ==> it.value[0] != '"')
  }

  /** What follows a bare value ends it: the bare value is a maximal run. */
  predicate Delimited(stops: StopSet, it: Item, rest: string) {
    !it.quoted ==> rest == [] || rest[0] in stops
  }

  /** The text of the items after the first one: each preceded by a comma. */
  function TailText(items: seq<Item>): string {
    if items == [] then "" else "," + ItemText(items[0]) + TailText(items[1..])
  }

  function ListText(items: seq<Item>): string
    requires items != []
  {
    ItemText(items[0]) + TailText(items[1..])
  }

  function Pairs(items: seq<Item>): (ps: seq<Pair>)
    ensures |ps| == |items|
  {
    if items == [] then [] else [items[0].Pair()] + Pairs(items[1..])
  }

  /** The run before the first quote reaches a quote exactly when the text holds one. */
  lemma QuoteRun(t: string)
    requires IsNot({'"'}, t).Done?
    ensures '"' in t <==> IsNot({'"'}, t).rest != []
  {
    var run := IsNot({'"'}, t);
    if run.rest != [] {
      assert t[|run.value|] == run.rest[0];
    }
  }

  /** A quote, a value, a quote and what follows, regrouped. */
  lemma QuotedThen(s: string, value: string, afterValue: string, afterClose: string)
    requires s != [] && s[0] == '"' && s[1..] == value + afterValue && afterValue == "\"" + afterClose
    ensures s == "\"" + value + "\"" + afterClose
  {
    assert s == [s[0]] + s[1..];
  }

  /** `parse_quoted_value` (and `parse_inner` of the older grammar): `delimited(tag("\""), is_not("\""), tag("\""))`.
      It needs a non-empty run between two quotes and strips them; commas inside are kept. */
  function ParseQuotedValue(s: string): (r: ParseResult<string>)
    ensures r.Done? <==> |s| >= 2 && s[0] == '"' && s[1] != '"' && '"' in s[1..]
    ensures r.Done? ==> s == "\"" + r.value + "\"" + r.rest && r.value != [] && '"' !in r.value
  {
    match Tag("\"", s)
    case Fail => Fail
    case Done(afterOpen, _) =>
      assert afterOpen == s[1..];
      match IsNot({'"'}, afterOpen)
      case Fail => Fail
      case Done(afterValue, value) =>
        QuoteRun(afterOpen);
        match Tag("\"", afterValue)
        case Fail => Fail
        case Done(afterClose, _) =>
          QuotedThen(s, value, afterValue, afterClose);
          Done(afterClose, value)
  }

  /** `parse_attribute`: `separated_pair(take_until("="), tag("="), alt((parse_quoted_value, parse_value)))`.
      The key is everything before the first `=` (it may be empty); the value is the quoted alternative when
      that succeeds and the bare run otherwise. */
  function ParseAttribute(stops: StopSet, s: string): (r: ParseResult<Pair>)
    ensures r.Done? <==> (var i := SpanLength({'='}, s); i + 1 < |s| && s[i + 1] !in stops)
    ensures r.Done? ==> |r.rest| < |s|
  {
    match TakeUntil('=', s)
    case Fail => Fail
    case Done(afterKey, key) =>
      match Tag("=", afterKey)
      case Fail => Fail
      case Done(afterEq, _) =>
        match ParseQuotedValue(afterEq)
        case Done(rest, value) => Done(rest, (key, value))
        case Fail =>
          match IsNot(stops, afterEq)
          case Fail => Fail
          case Done(rest, value) => Done(rest, (key, value))
  }

  /** What an attribute reads is the text of a readable item, and a bare value read is a maximal run. */
  lemma ParseAttributeText(stops: StopSet, s: string) returns (it: Item)
    requires ParseAttribute(stops, s).Done?
    ensures Readable(stops, it) && Delimited(stops, it, ParseAttribute(stops, s).rest)
    ensures it.Pair() == ParseAttribute(stops, s).value && s == ItemText(it) + ParseAttribute(stops, s).rest
  {
    var t := TakeUntil('=', s);
    var afterEq := t.rest[1..];
    assert t.rest == "=" + afterEq;
    assert Tag("=", t.rest) == Done(afterEq, "=");
    var r := ParseAttribute(stops, s);
    var q := ParseQuotedValue(afterEq);
    if q.Done? {
      it := Item(t.value, q.value, true);
      assert r == Done(q.rest, it.Pair());
      assert afterEq == ValueText(it) + r.rest;
    } else {
      var b := IsNot(stops, afterEq);
      it := Item(t.value, b.value, false);
      assert r == Done(b.rest, it.Pair());
      assert afterEq == ValueText(it) + r.rest;
    }
    assert s == it.key + ("=" + (ValueText(it) + r.rest));
    ItemTextThen(it, r.rest);
  }

  /** The repetition of `separated_list1(tag(","), parse_attribute)` after its first element: a comma is
      consumed only together with a pair that follows it. */
  function MoreAttributes(stops: StopSet, s: string): (r: (string, seq<Pair>))
    ensures |r.0| <= |s|
    ensures r.0 == [] || r.0[0] != ',' || ParseAttribute(stops, r.0[1..]).Fail?
    decreases |s|
  {
    match Tag(",", s)
    case Fail => (s, [])
    case Done(afterComma, _) =>
      match ParseAttribute(stops, afterComma)
      case Fail =>
        assert afterComma == s[1..];
        (s, [])
      case Done(afterPair, pair) =>
        var (rest, pairs) := MoreAttributes(stops, afterPair);
        (rest, [pair] + pairs)
  }

  /** `parse_attributes` = `separated_list1(tag(","), parse_attribute)`: at least one pair, in input order,
      duplicates kept; it stops before a comma that no pair follows, leaving that comma unconsumed. */
  function ParseAttributes(stops: StopSet, s: string): (r: ParseResult<seq<Pair>>)
    ensures r.Done? <==> ParseAttribute(stops, s).Done?
    ensures r.Done? ==> |r.value| >= 1 && r.value[0] == ParseAttribute(stops, s).value && |r.rest| < |s|
    ensures r.Done? ==> r.rest == [] || r.rest[0] != ',' || ParseAttribute(stops, r.rest[1..]).Fail?
  {
    match ParseAttribute(stops, s)
    case Fail => Fail
    case Done(afterFirst, first) =>
      var (rest, more) := MoreAttributes(stops, afterFirst);
      Done(rest, [first] + more)
  }

  /** Reading a well-formed item gives back its key and value, and leaves exactly what follows it. */
  lemma ParseAttributeRoundTrip(stops: StopSet, it: Item, rest: string)
    requires WellFormed(stops, it) && Delimited(stops, it, rest)
    ensures ParseAttribute(stops, ItemText(it) + rest) == Done(rest, it.Pair())
  {
    var afterEq := ValueText(it) + rest;
    ItemTextThen(it, rest);
    KeyThenEquals(it.key, afterEq);
    if it.quoted {
      QuotedValueRoundTrip(it.value, rest);
    } else {
      BareValueRoundTrip(stops, it.value, rest);
    }
  }

  /** The key runs up to the first `=`, which is then consumed. */
  lemma KeyThenEquals(key: string, afterEq: string)
    requires '=' !in key
    ensures TakeUntil('=', key + ("=" + afterEq)) == Done("=" + afterEq, key)
    ensures Tag("=", "=" + afterEq) == Done(afterEq, "=")
  {
    TakeUntilOfPrefix('=', key, "=" + afterEq);
    assert ("=" + afterEq)[1..] == afterEq;
  }

  /** A bare value that does not start with a quote is not read as a quoted one, and is read as its run. */
  lemma BareValueRoundTrip(stops: StopSet, v: string, rest: string)
    requires v != [] && NoneIn(v, stops) && v[0] != '"' && (rest == [] || rest[0] in stops)
    ensures ParseQuotedValue(v + rest).Fail? && IsNot(stops, v + rest) == Done(rest, v)
  {
    assert (v + rest)[0] == v[0];
    IsNotOfRun(stops, v, rest);
  }

  /** A quoted value free of quotes is read back exactly. */
  lemma QuotedValueRoundTrip(v: string, rest: string)
    requires v != [] && '"' !in v
    ensures ParseQuotedValue("\"" + v + "\"" + rest) == Done(rest, v)
  {
    var s := "\"" + v + "\"" + rest;
    assert s[1..] == v + ("\"" + rest);
    IsNotOfRun({'"'}, v, "\"" + rest);
    assert NoneIn(v, {'"'});
    assert ("\"" + rest)[1..] == rest;
  }

  /** Regroups the text of a tail of items followed by more text. */
  lemma TailTextThen(items: seq<Item>, rest: string)
    requires items != []
    ensures TailText(items) + rest == "," + (ItemText(items[0]) + (TailText(items[1..]) + rest))
  {
  }

  /** Regroups the text of a list followed by more text. */
  lemma ListTextThen(items: seq<Item>, rest: string)
    requires items != []
    ensures ListText(items) + rest == ItemText(items[0]) + (TailText(items[1..]) + rest)
  {
  }

  /** The pairs of a list are the first item's pair followed by the pairs of the others. */
  lemma PairsCons(items: seq<Item>)
    requires items != []
    ensures Pairs(items) == [items[0].Pair()] + Pairs(items[1..])
  {
  }

  /** One step of the repetition: a comma followed by a pair that reads. */
  lemma MoreAttributesStep(stops: StopSet, s: string)
    requires s != [] && s[0] == ',' && ParseAttribute(stops, s[1..]).Done?
    ensures var (afterPair, pair) := (ParseAttribute(stops, s[1..]).rest, ParseAttribute(stops, s[1..]).value);
      MoreAttributes(stops, s) == (MoreAttributes(stops, afterPair).0, [pair] + MoreAttributes(stops, afterPair).1)
  {
    assert Tag(",", s) == Done(s[1..], ",");
  }

  /** One written item of the tail is read as one pair, and the repetition continues after it. */
  lemma MoreAttributesCons(stops: StopSet, it: Item, after: string)
    requires WellFormed(stops, it) && Delimited(stops, it, after)
    ensures MoreAttributes(stops, "," + (ItemText(it) + after))
      == (MoreAttributes(stops, after).0, [it.Pair()] + MoreAttributes(stops, after).1)
  {
    var s := "," + (ItemText(it) + after);
    assert s[1..] == ItemText(it) + after;
    ParseAttributeRoundTrip(stops, it, after);
    MoreAttributesStep(stops, s);
  }

  /** Reading the comma-separated tail of a list gives back its pairs, when what follows does not start
      another pair. */
  lemma {:induction false} MoreAttributesRoundTrip(stops: StopSet, items: seq<Item>, rest: string)
    requires forall i :: 0 <= i < |items| ==> WellFormed(stops, items[i])
    requires items != [] ==> Delimited(stops, items[|items| - 1], rest)
    requires rest == [] || rest[0] != ','
    ensures MoreAttributes(stops, TailText(items) + rest) == (rest, Pairs(items))
  {
    if items == [] {
      assert TailText(items) + rest == rest;
      assert Tag(",", rest).Fail?;
    } else {
      var it := items[0];
      var after := TailText(items[1..]) + rest;
      TailTextThen(items, rest);
      assert Delimited(stops, it, after) by {
        if items[1..] != [] {
          TailTextThen(items[1..], rest);
        } else {
          assert items[|items| - 1] == it;
        }
      }
      assert WellFormed(stops, it);
      MoreAttributesCons(stops, it, after);
      MoreAttributesRoundTrip(stops, items[1..], rest);
      PairsCons(items);
    }
  }

  /** A list whose first item is written well reads that item and then repeats after it. */
  lemma ParseAttributesCons(stops: StopSet, it: Item, after: string)
    requires WellFormed(stops, it) && Delimited(stops, it, after)
    ensures ParseAttributes(stops, ItemText(it) + after)
      == Done(MoreAttributes(stops, after).0, [it.Pair()] + MoreAttributes(stops, after).1)
  {
    ParseAttributeRoundTrip(stops, it, after);
  }

  /** Round trip: a written attribute list is read back completely and in order. */
  lemma ParseAttributesRoundTrip(stops: StopSet, items: seq<Item>, rest: string)
    requires items != []
    requires forall i :: 0 <= i < |items| ==> WellFormed(stops, items[i])
    requires Delimited(stops, items[|items| - 1], rest)
    requires rest == [] || rest[0] != ','
    ensures ParseAttributes(stops, ListText(items) + rest) == Done(rest, Pairs(items))
  {
    var tail := items[1..];
    var after := TailText(tail) + rest;
    ListTextThen(items, rest);
    assert Delimited(stops, items[0], after) by {
      if tail != [] {
        TailTextThen(tail, rest);
      }
    }
    assert WellFormed(stops, items[0]);
    ParseAttributesCons(stops, items[0], after);
    forall i | 0 <= i < |tail|
      ensures WellFormed(stops, tail[i])
    {
      assert tail[i] == items[i + 1];
    }
    if tail != [] {
      assert tail[|tail| - 1] == items[|items| - 1];
    }
    MoreAttributesRoundTrip(stops, tail, rest);
    PairsCons(items);
  }

  /** A repetition that read some pair began with a comma and a pair, and repeated after that pair. */
  lemma MoreAttributesUncons(stops: StopSet, s: string)
    requires MoreAttributes(stops, s).1 != []
    ensures s != [] && s[0] == ',' && ParseAttribute(stops, s[1..]).Done?
    ensures var next := ParseAttribute(stops, s[1..]).rest;
      MoreAttributes(stops, s) == (MoreAttributes(stops, next).0, [ParseAttribute(stops, s[1..]).value] + MoreAttributes(stops, next).1)
  {
    assert Tag(",", s).Done?;
    assert Tag(",", s).rest == s[1..];
  }

  /** A repetition that read no pair left its input untouched. */
  lemma MoreAttributesNone(stops: StopSet, s: string)
    requires MoreAttributes(stops, s).1 == []
    ensures MoreAttributes(stops, s).0 == s
  {
  }

  /** Prepending one item to a tail of items prepends its text, preceded by a comma. */
  lemma TailTextCons(it: Item, items: seq<Item>, rest: string)
    ensures TailText([it] + items) + rest == "," + (ItemText(it) + (TailText(items) + rest))
  {
    assert ([it] + items)[1..] == items;
  }

  /** Prepending a readable item to readable items keeps them all readable. */
  lemma ReadableCons(stops: StopSet, it: Item, items: seq<Item>)
    requires Readable(stops, it)
    requires forall i :: 0 <= i < |items| ==> Readable(stops, items[i])
    ensures forall i :: 0 <= i < |[it] + items| ==> Readable(stops, ([it] + items)[i])
  {
    forall i | 0 <= i < |[it] + items|
      ensures Readable(stops, ([it] + items)[i])
    {
      if i > 0 {
        assert ([it] + items)[i] == items[i - 1];
      }
    }
  }

  /** The last of a list with one item prepended. */
  lemma LastCons(it: Item, items: seq<Item>)
    ensures ([it] + items)[|items|] == if items == [] then it else items[|items| - 1]
  {
  }

  /** Conversely, whatever the tail of a list reads is the text of readable items, in order. */
  lemma {:induction false} MoreAttributesText(stops: StopSet, s: string) returns (items: seq<Item>)
    ensures forall i :: 0 <= i < |items| ==> Readable(stops, items[i])
    ensures Pairs(items) == MoreAttributes(stops, s).1 && s == TailText(items) + MoreAttributes(stops, s).0
    ensures items != [] ==> Delimited(stops, items[|items| - 1], MoreAttributes(stops, s).0)
    decreases |s|
  {
    var (rest, pairs) := MoreAttributes(stops, s);
    if pairs == [] {
      MoreAttributesNone(stops, s);
      items := [];
      assert TailText(items) + s == s;
    } else {
      MoreAttributesUncons(stops, s);
      var first := ParseAttribute(stops, s[1..]);
      var it := ParseAttributeText(stops, s[1..]);
      var items' := MoreAttributesText(stops, first.rest);
      if items' == [] {
        MoreAttributesNone(stops, first.rest);
      }
      items := TailTextStep(stops, s, it, items', first.rest, rest, pairs[1..]);
    }
  }

  /** One step of `MoreAttributesText`: a comma and a readable item, prepended to the items read after it. */
  lemma TailTextStep(stops: StopSet, s: string, it: Item, items': seq<Item>, mid: string, rest: string, pairs': seq<Pair>)
    returns (items: seq<Item>)
    requires s != [] && s[0] == ',' && s[1..] == ItemText(it) + mid
    requires Readable(stops, it) && Delimited(stops, it, mid)
    requires forall i :: 0 <= i < |items'| ==> Readable(stops, items'[i])
    requires Pairs(items') == pairs' && mid == TailText(items') + rest
    requires items' != [] ==> Delimited(stops, items'[|items'| - 1], rest)
    requires items' == [] ==> mid == rest
    ensures items == [it] + items'
    ensures forall i :: 0 <= i < |items| ==> Readable(stops, items[i])
    ensures Pairs(items) == [it.Pair()] + pairs' && s == TailText(items) + rest
    ensures Delimited(stops, items[|items| - 1], rest)
  {
    items := [it] + items';
    assert s == TailText(items) + rest by {
      TailTextCons(it, items', rest);
      assert s == [s[0]] + s[1..];
    }
    assert Pairs(items) == [it.Pair()] + pairs' by {
      assert items[1..] == items';
      PairsCons(items);
    }
    ReadableCons(stops, it, items');
    LastCons(it, items');
  }

  /** Whatever a list reads is the text of readable items, in order: with the round trip this
      characterises `parse_attributes` completely. */
  lemma ParseAttributesText(stops: StopSet, s: string) returns (items: seq<Item>)
    requires ParseAttributes(stops, s).Done?
    ensures items != [] && forall i :: 0 <= i < |items| ==> Readable(stops, items[i])
    ensures Pairs(items) == ParseAttributes(stops, s).value
    ensures s == ListText(items) + ParseAttributes(stops, s).rest
    ensures Delimited(stops, items[|items| - 1], ParseAttributes(stops, s).rest)
  {
    var first := ParseAttribute(stops, s);
    var it := ParseAttributeText(stops, s);
    var items' := MoreAttributesText(stops, first.rest);
    var rest := MoreAttributes(stops, first.rest).0;
    items := [it] + items';
    assert items[0] == it && items[1..] == items';
    PairsCons(items);
    ListTextThen(items, rest);
    ReadableCons(stops, it, items');
    if items' == [] {
      MoreAttributesNone(stops, first.rest);
    }
    LastCons(it, items');
  }
}
