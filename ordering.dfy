/** The derived total orders the playlist lists are sorted by (src/models/conversions.rs:211-215), and sorting
    specified by its result: an ordered permutation. A record is compared field by field in declaration order,
    which is the order of its struct literal; a string is compared character by character. */
module Ordering {

  /** One compared component of a record: a number (an integer field or an enum variant's position) or a
      string. */
  datatype Atom = Num(n: int) | Str(s: string)

  /** Lexicographic order on strings by character code. */
  predicate StringLe(a: string, b: string)
    decreases |a|
  {
    a == [] || (b != [] && (a[0] < b[0] || (a[0] == b[0] && StringLe(a[1..], b[1..]))))
  }

  predicate AtomLe(a: Atom, b: Atom) {
    match (a, b)
    case (Num(x), Num(y)) => x <= y
    case (Str(x), Str(y)) => StringLe(x, y)
    case (Num(_), Str(_)) => true
    case (Str(_), Num(_)) => false
  }

  /** Lexicographic order on sequences of components. */
  predicate KeyLe(a: seq<Atom>, b: seq<Atom>)
    decreases |a|
  {
    a == [] || (b != [] && a[0] != b[0] && AtomLe(a[0], b[0])) || (b != [] && a[0] == b[0] && KeyLe(a[1..], b[1..]))
  }

  lemma {:induction false} StringLeTotal(a: string, b: string)
    ensures StringLe(a, b) || StringLe(b, a)
    decreases |a|
  {
    if a != [] && b != [] && a[0] == b[0] {
      StringLeTotal(a[1..], b[1..]);
    }
  }

  lemma {:induction false} StringLeAntisymmetric(a: string, b: string)
    requires StringLe(a, b) && StringLe(b, a)
    ensures a == b
    decreases |a|
  {
    if a != [] {
      StringLeAntisymmetric(a[1..], b[1..]);
      assert a == [a[0]] + a[1..] && b == [b[0]] + b[1..];
    }
  }

  lemma {:induction false} StringLeTransitive(a: string, b: string, c: string)
    requires StringLe(a, b) && StringLe(b, c)
    ensures StringLe(a, c)
    decreases |a|
  {
    if a != [] && a[0] == b[0] && b[0] == c[0] {
      StringLeTransitive(a[1..], b[1..], c[1..]);
    }
  }

  lemma StringLeReflexive(a: string)
    ensures StringLe(a, a)
  {
    StringLeTotal(a, a);
  }

  lemma AtomLeTotal(a: Atom, b: Atom)
    ensures AtomLe(a, b) || AtomLe(b, a)
  {
    if a.Str? && b.Str? {
      StringLeTotal(a.s, b.s);
    }
  }

  lemma AtomLeAntisymmetric(a: Atom, b: Atom)
    requires AtomLe(a, b) && AtomLe(b, a)
    ensures a == b
  {
    if a.Str? && b.Str? {
      StringLeAntisymmetric(a.s, b.s);
    }
  }

  lemma AtomLeTransitive(a: Atom, b: Atom, c: Atom)
    requires AtomLe(a, b) && AtomLe(b, c)
    ensures AtomLe(a, c)
  {
    if a.Str? && b.Str? && c.Str? {
      StringLeTransitive(a.s, b.s, c.s);
    }
  }

  lemma {:induction false} KeyLeTotal(a: seq<Atom>, b: seq<Atom>)
    ensures KeyLe(a, b) || KeyLe(b, a)
    decreases |a|
  {
    if a != [] && b != [] {
      if a[0] == b[0] {
        KeyLeTotal(a[1..], b[1..]);
      } else {
        AtomLeTotal(a[0], b[0]);
      }
    }
  }

  lemma {:induction false} KeyLeAntisymmetric(a: seq<Atom>, b: seq<Atom>)
    requires |a| == |b| && KeyLe(a, b) && KeyLe(b, a)
    ensures a == b
    decreases |a|
  {
    if a != [] {
      if a[0] == b[0] {
        KeyLeAntisymmetric(a[1..], b[1..]);
        assert a == [a[0]] + a[1..] && b == [b[0]] + b[1..];
      } else {
        AtomLeAntisymmetric(a[0], b[0]);
      }
    }
  }

  lemma {:induction false} KeyLeTransitive(a: seq<Atom>, b: seq<Atom>, c: seq<Atom>)
    requires KeyLe(a, b) && KeyLe(b, c)
    ensures KeyLe(a, c)
    decreases |a|
  {
    if a != [] {
      if a[0] == b[0] && b[0] == c[0] {
        KeyLeTransitive(a[1..], b[1..], c[1..]);
      } else if a[0] != b[0] && b[0] != c[0] {
        AtomLeTransitive(a[0], b[0], c[0]);
        if a[0] == c[0] {
          AtomLeAntisymmetric(a[0], b[0]);
        }
      }
    }
  }

  lemma KeyLeReflexive(a: seq<Atom>)
    ensures KeyLe(a, a)
  {
    KeyLeTotal(a, a);
  }

  /** `s` is in ascending order of `key`. */
  predicate SortedBy<T>(key: T -> seq<Atom>, s: seq<T>) {
    forall i, j :: 0 <= i < j < |s| ==> KeyLe(key(s[i]), key(s[j]))
  }

  /** Distinct values have distinct keys, which all have the same length: the order on values is total. */
  ghost predicate KeyInjective<T(!new)>(key: T -> seq<Atom>) {
    forall x: T, y: T :: |key(x)| == |key(y)| && (key(x) == key(y) ==> x == y)
  }

  /** Insertion into an ordered sequence. */
  function Insert<T>(key: T -> seq<Atom>, x: T, s: seq<T>): (r: seq<T>)
    requires SortedBy(key, s)
    ensures multiset(r) == multiset(s) + multiset{x}
    ensures SortedBy(key, r)
  {
    if s == [] then [x]
    else if KeyLe(key(x), key(s[0])) then
      InsertFrontSorted(key, x, s);
      [x] + s
    else
      var tail := Insert(key, x, s[1..]);
      KeyLeTotal(key(x), key(s[0]));
      InsertBehindSorted(key, s, x, tail);
      assert s == [s[0]] + s[1..];
      [s[0]] + tail
  }

  lemma InsertFrontSorted<T>(key: T -> seq<Atom>, x: T, s: seq<T>)
    requires SortedBy(key, s) && s != [] && KeyLe(key(x), key(s[0]))
    ensures SortedBy(key, [x] + s)
  {
    forall i, j | 0 <= i < j < |[x] + s|
      ensures KeyLe(key(([x] + s)[i]), key(([x] + s)[j]))
    {
      if i == 0 && j > 1 {
        KeyLeTransitive(key(x), key(s[0]), key(s[j - 1]));
      }
    }
  }

  lemma InsertBehindSorted<T>(key: T -> seq<Atom>, s: seq<T>, x: T, tail: seq<T>)
    requires SortedBy(key, s) && s != [] && KeyLe(key(s[0]), key(x))
    requires SortedBy(key, tail) && multiset(tail) == multiset(s[1..]) + multiset{x}
    ensures SortedBy(key, [s[0]] + tail)
  {
    forall j | 0 <= j < |tail|
      ensures KeyLe(key(s[0]), key(tail[j]))
    {
      assert tail[j] in multiset(tail);
      if tail[j] != x {
        assert tail[j] in multiset(s[1..]);
        var k :| 0 <= k < |s[1..]| && s[1..][k] == tail[j];
        assert s[k + 1] == tail[j];
      }
    }
  }

  /** Sorting: the ascending permutation of `s`. */
  function SortBy<T>(key: T -> seq<Atom>, s: seq<T>): (r: seq<T>)
    ensures multiset(r) == multiset(s)
    ensures SortedBy(key, r)
  {
    if s == [] then []
    else
      assert s == [s[0]] + s[1..];
      Insert(key, s[0], SortBy(key, s[1..]))
  }

  /** Inserting an element that precedes an ordered sequence puts it in front. */
  lemma InsertFirst<T>(key: T -> seq<Atom>, x: T, s: seq<T>)
    requires SortedBy(key, s) && (s == [] || KeyLe(key(x), key(s[0])))
    ensures Insert(key, x, s) == [x] + s
  {
  }

  /** Sorting an ordered sequence returns it unchanged. */
  lemma {:induction false} SortSorted<T>(key: T -> seq<Atom>, s: seq<T>)
    requires SortedBy(key, s)
    ensures SortBy(key, s) == s
  {
    if s != [] {
      assert SortedBy(key, s[1..]);
      SortSorted(key, s[1..]);
      InsertFirst(key, s[0], s[1..]);
      assert s == [s[0]] + s[1..];
    }
  }

  /** Sorting twice changes nothing. */
  lemma SortIdempotent<T>(key: T -> seq<Atom>, s: seq<T>)
    ensures SortBy(key, SortBy(key, s)) == SortBy(key, s)
  {
    SortSorted(key, SortBy(key, s));
  }

  /** The first element of an ordered sequence has the least key. */
  lemma FirstIsLeast<T>(key: T -> seq<Atom>, s: seq<T>, i: nat)
    requires SortedBy(key, s) && i < |s|
    ensures KeyLe(key(s[0]), key(s[i]))
  {
    if i == 0 {
      KeyLeReflexive(key(s[0]));
    }
  }

  /** Two ordered permutations of each other start with the same element. */
  lemma SameFirst<T(!new)>(key: T -> seq<Atom>, a: seq<T>, b: seq<T>)
    requires KeyInjective(key)
    requires SortedBy(key, a) && SortedBy(key, b) && multiset(a) == multiset(b) && a != [] && b != []
    ensures a[0] == b[0]
  {
    assert a[0] in multiset(b) && b[0] in multiset(a);
    var i :| 0 <= i < |b| && b[i] == a[0];
    var j :| 0 <= j < |a| && a[j] == b[0];
    FirstIsLeast(key, b, i);
    FirstIsLeast(key, a, j);
    KeyLeAntisymmetric(key(a[0]), key(b[0]));
  }

  /** Removing the same first element from equal multisets leaves equal multisets. */
  lemma SameTail<T>(a: seq<T>, b: seq<T>)
    requires a != [] && b != [] && a[0] == b[0] && multiset(a) == multiset(b)
    ensures multiset(a[1..]) == multiset(b[1..])
  {
    assert a == [a[0]] + a[1..] && b == [b[0]] + b[1..];
    assert multiset(a) == multiset{a[0]} + multiset(a[1..]);
    assert multiset(b) == multiset{b[0]} + multiset(b[1..]);
    assert multiset(a[1..]) == multiset(a) - multiset{a[0]};
    assert multiset(b[1..]) == multiset(b) - multiset{b[0]};
  }

  /** Under a total order there is only one ordered permutation: any sorting algorithm, stable or not, gives the
      same list. */
  lemma {:induction false} SortedPermutationUnique<T(!new)>(key: T -> seq<Atom>, a: seq<T>, b: seq<T>)
    requires KeyInjective(key)
    requires SortedBy(key, a) && SortedBy(key, b) && multiset(a) == multiset(b)
    ensures a == b
    decreases |a|
  {
    assert |a| == |multiset(a)| == |b|;
    if a != [] {
      SameFirst(key, a, b);
      SameTail(a, b);
      assert SortedBy(key, a[1..]) && SortedBy(key, b[1..]);
      SortedPermutationUnique(key, a[1..], b[1..]);
      assert a == [a[0]] + a[1..] && b == [b[0]] + b[1..];
    }
  }
}
