/** The parts of the nom library (`complete` flavour) that the playlist grammar is built from.
    Every parser maps the input to a recoverable failure or to the unconsumed remainder and a value. */
module Nom {

  datatype ParseResult<+T> = Fail | Done(rest: string, value: T)

  /** No character of `s` belongs to `stops`. */
  predicate NoneIn(s: string, stops: set<char>) {
    forall i :: 0 <= i < |s| ==> s[i] !in stops
  }

  /** Length of the longest prefix of `s` that avoids `stops`. */
  function SpanLength(stops: set<char>, s: string): (n: nat)
    ensures n <= |s|
    ensures NoneIn(s[..n], stops)
    ensures n == |s| || s[n] in stops
  {
    if s == [] || s[0] in stops then 0 else 1 + SpanLength(stops, s[1..])
  }

  /** A span that ends at a stop character (or at the end) has the length of the prefix before it. */
  lemma {:induction false} SpanLengthOfPrefix(stops: set<char>, a: string, b: string)
    requires NoneIn(a, stops) && (b == [] || b[0] in stops)
    ensures SpanLength(stops, a + b) == |a|
  {
    if a != [] {
      assert (a + b)[1..] == a[1..] + b;
      SpanLengthOfPrefix(stops, a[1..], b);
    }
  }

  /** `tag(t)`: succeeds exactly when the input starts with `t`, and consumes it. */
  function Tag(t: string, s: string): (r: ParseResult<string>)
    ensures r.Done? <==> t <= s
    ensures r.Done? ==> r.value == t && s == t + r.rest
  {
    if t <= s then Done(s[|t|..], t) else Fail
  }

  /** `is_not(stops)`: the longest non-empty prefix free of `stops`; fails when that prefix is empty. */
  function IsNot(stops: set<char>, s: string): (r: ParseResult<string>)
    ensures r.Fail? <==> s == [] || s[0] in stops
    ensures r.Done? ==> s == r.value + r.rest && r.value != []
    ensures r.Done? ==> NoneIn(r.value, stops) && (r.rest == [] || r.rest[0] in stops)
  {
    var n := SpanLength(stops, s);
    assert s == s[..n] + s[n..];
    if n == 0 then Fail else Done(s[n..], s[..n])
  }

  /** `is_not` consumes exactly a non-empty run that ends at a stop character or at the end. */
  lemma IsNotOfRun(stops: set<char>, v: string, rest: string)
    requires v != [] && NoneIn(v, stops) && (rest == [] || rest[0] in stops)
    ensures IsNot(stops, v + rest) == Done(rest, v)
  {
    SpanLengthOfPrefix(stops, v, rest);
    assert (v + rest)[..|v|] == v && (v + rest)[|v|..] == rest;
  }

  /** `take_until` stops at the first occurrence of its character. */
  lemma TakeUntilOfPrefix(c: char, a: string, b: string)
    requires c !in a && b != [] && b[0] == c
    ensures TakeUntil(c, a + b) == Done(b, a)
  {
    SpanLengthOfPrefix({c}, a, b);
    assert (a + b)[..|a|] == a && (a + b)[|a|..] == b;
  }

  /** `take_until([c])`: everything before the first `c`, which is left unconsumed; fails when there is no `c`. */
  function TakeUntil(c: char, s: string): (r: ParseResult<string>)
    ensures r.Done? <==> c in s
    ensures r.Done? ==> s == r.value + r.rest && c !in r.value && r.rest != [] && r.rest[0] == c
  {
    var n := SpanLength({c}, s);
    assert s == s[..n] + s[n..];
    if n == |s| then
      assert s == s[..n];
      Fail
    else
      Done(s[n..], s[..n])
  }

  /** `t` is what remains of `s` after some prefix of it was consumed. */
  predicate IsSuffix(t: string, s: string) {
    |t| <= |s| && s[|s| - |t|..] == t
  }

  lemma SuffixTransitive(a: string, b: string, c: string)
    requires IsSuffix(a, b) && IsSuffix(b, c)
    ensures IsSuffix(a, c)
  {
    assert c[|c| - |a|..] == c[|c| - |b|..][|b| - |a|..];
  }

  lemma SuffixOfConcat(a: string, b: string)
    ensures IsSuffix(b, a + b)
  {
    assert (a + b)[|a|..] == b;
  }

  /** The characters `multispace0` skips. */
  const Whitespace: set<char> := {' ', '\t', '\r', '\n'}

  /** `multispace0`: skips the longest run of whitespace. It never fails, so only the remainder is returned. */
  function Multispace0(s: string): (rest: string)
    ensures IsSuffix(rest, s)
    ensures forall i :: 0 <= i < |s| - |rest| ==> s[i] in Whitespace
    ensures rest == [] || rest[0] !in Whitespace
  {
    if s != [] && s[0] in Whitespace then Multispace0(s[1..]) else s
  }

  /** `multispace0` skips exactly a whitespace run that is followed by something else. */
  lemma {:induction false} Multispace0OfRun(w: string, t: string)
    requires forall i :: 0 <= i < |w| ==> w[i] in Whitespace
    requires t == [] || t[0] !in Whitespace
    ensures Multispace0(w + t) == t
  {
    if w != [] {
      assert (w + t)[1..] == w[1..] + t;
      Multispace0OfRun(w[1..], t);
    }
  }
}
