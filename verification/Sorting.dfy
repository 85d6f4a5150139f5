/**
 Python's `sorted` and `list.sort`: a stable sort by a comparison.

 `Sort` is the specification used wherever the source sorts. `SortUnique` is what makes
 results independent of the input order: under an antisymmetric order there is only one
 sorted arrangement of a multiset.
 */
module Sorting {

  ghost predicate TotalPreorder<T(!new)>(le: (T, T) -> bool) {
    && (forall a, b :: le(a, b) || le(b, a))
    && (forall a, b, c :: le(a, b) && le(b, c) ==> le(a, c))
  }

  ghost predicate Antisymmetric<T(!new)>(le: (T, T) -> bool) {
    forall a, b :: le(a, b) && le(b, a) ==> a == b
  }

  /** Elements of the list that tie under the order are equal. */
  ghost predicate AntisymmetricOn<T>(s: seq<T>, le: (T, T) -> bool) {
    forall i, j :: 0 <= i < |s| && 0 <= j < |s| && le(s[i], s[j]) && le(s[j], s[i]) ==> s[i] == s[j]
  }

  ghost predicate SortedBy<T>(s: seq<T>, le: (T, T) -> bool) {
    forall i, j :: 0 <= i < j < |s| ==> le(s[i], s[j])
  }

  predicate Distinct<T(==)>(s: seq<T>) {
    forall i, j :: 0 <= i < j < |s| ==> s[i] != s[j]
  }

  function Insert<T>(x: T, s: seq<T>, le: (T, T) -> bool): (r: seq<T>)
    ensures |r| == |s| + 1
  {
    if s == [] then [x]
    else if le(x, s[0]) then [x] + s
    else [s[0]] + Insert(x, s[1..], le)
  }

  function Sort<T>(s: seq<T>, le: (T, T) -> bool): (r: seq<T>)
    ensures |r| == |s|
  {
    if s == [] then [] else Insert(s[0], Sort(s[1..], le), le)
  }

  lemma {:induction false} InsertPermutes<T>(x: T, s: seq<T>, le: (T, T) -> bool)
    ensures multiset(Insert(x, s, le)) == multiset{x} + multiset(s)
  {
    if s != [] {
      assert s == [s[0]] + s[1..];
      if !le(x, s[0]) {
        InsertPermutes(x, s[1..], le);
      }
    }
  }

  lemma {:induction false} SortPermutes<T>(s: seq<T>, le: (T, T) -> bool)
    ensures multiset(Sort(s, le)) == multiset(s)
  {
    if s != [] {
      assert s == [s[0]] + s[1..];
      SortPermutes(s[1..], le);
      InsertPermutes(s[0], Sort(s[1..], le), le);
    }
  }

  lemma SameSize<T>(a: seq<T>, b: seq<T>)
    requires multiset(a) == multiset(b)
    ensures |a| == |b|
  {
    assert |multiset(a)| == |a|;
    assert |multiset(b)| == |b|;
  }

  lemma {:induction false} InsertSorted<T(!new)>(x: T, s: seq<T>, le: (T, T) -> bool)
    requires TotalPreorder(le) && SortedBy(s, le)
    ensures SortedBy(Insert(x, s, le), le)
  {
    if s != [] && !le(x, s[0]) {
      var rest := Insert(x, s[1..], le);
      InsertSorted(x, s[1..], le);
      InsertPermutes(x, s[1..], le);
      forall j | 0 <= j < |rest| ensures le(s[0], rest[j]) {
        assert rest[j] in multiset(rest);
      }
    }
  }

  lemma {:induction false} SortSorts<T(!new)>(s: seq<T>, le: (T, T) -> bool)
    requires TotalPreorder(le)
    ensures SortedBy(Sort(s, le), le)
  {
    if s != [] {
      SortSorts(s[1..], le);
      InsertSorted(s[0], Sort(s[1..], le), le);
    }
  }

  /** Two sorted arrangements of the same elements are the same list. */
  lemma {:induction false} SortedUnique<T(!new)>(a: seq<T>, b: seq<T>, le: (T, T) -> bool)
    requires TotalPreorder(le) && AntisymmetricOn(a, le)
    requires SortedBy(a, le) && SortedBy(b, le) && multiset(a) == multiset(b)
    ensures a == b
  {
    SameSize(a, b);
    if a != [] {
      SameHead(a, b, le);
      TailMultiset(a);
      TailMultiset(b);
      SortedUnique(a[1..], b[1..], le);
      assert a == [a[0]] + a[1..] && b == [b[0]] + b[1..];
    }
  }

  lemma SameHead<T(!new)>(a: seq<T>, b: seq<T>, le: (T, T) -> bool)
    requires a != [] && b != [] && AntisymmetricOn(a, le)
    requires SortedBy(a, le) && SortedBy(b, le) && multiset(a) == multiset(b)
    ensures a[0] == b[0]
  {
    var k := FindHead(a, b);
    var i := FindHead(b, a);
    if k != 0 && i != 0 {
      assert le(b[0], b[k]) && le(a[0], a[i]);
    }
  }

  lemma AntisymmetricPermuted<T>(a: seq<T>, b: seq<T>, le: (T, T) -> bool)
    requires AntisymmetricOn(a, le) && multiset(a) == multiset(b)
    ensures AntisymmetricOn(b, le)
  {
    SamePresence(a, b);
    forall i, j | 0 <= i < |b| && 0 <= j < |b| && le(b[i], b[j]) && le(b[j], b[i]) ensures b[i] == b[j] {
      assert b[i] in a && b[j] in a;
    }
  }

  /** Sorting forgets the input order. */
  lemma SortUnique<T(!new)>(a: seq<T>, b: seq<T>, le: (T, T) -> bool)
    requires TotalPreorder(le) && AntisymmetricOn(a, le) && multiset(a) == multiset(b)
    ensures Sort(a, le) == Sort(b, le)
  {
    SortSorts(a, le);
    SortSorts(b, le);
    SortPermutes(a, le);
    SortPermutes(b, le);
    AntisymmetricPermuted(a, Sort(a, le), le);
    SortedUnique(Sort(a, le), Sort(b, le), le);
  }

  /** Sorting a sorted list changes nothing (the sort is stable). */
  lemma {:induction false} SortOfSorted<T>(s: seq<T>, le: (T, T) -> bool)
    requires SortedBy(s, le)
    ensures Sort(s, le) == s
  {
    if s != [] {
      SortOfSorted(s[1..], le);
      assert s == [s[0]] + s[1..];
    }
  }

  /** Some `x` comes before some `y`. */
  predicate Precedes<T(==)>(s: seq<T>, x: T, y: T) {
    exists i, j :: 0 <= i < j < |s| && s[i] == x && s[j] == y
  }

  lemma PrecedesInLonger<T>(s: seq<T>, t: seq<T>, x: T, y: T)
    requires Precedes(s, x, y)
    ensures Precedes(s + t, x, y)
  {
    var i, j :| 0 <= i < j < |s| && s[i] == x && s[j] == y;
    assert (s + t)[i] == x && (s + t)[j] == y;
  }

  lemma PrecedesAppended<T>(s: seq<T>, x: T, y: T)
    requires x in s
    ensures Precedes(s + [y], x, y)
  {
    var i :| 0 <= i < |s| && s[i] == x;
    assert (s + [y])[i] == x && (s + [y])[|s|] == y;
  }

  lemma PrecedesBehind<T>(head: T, s: seq<T>, x: T, y: T)
    requires Precedes(s, x, y) || (head == x && y in s)
    ensures Precedes([head] + s, x, y)
  {
    var longer := [head] + s;
    if Precedes(s, x, y) {
      var i, j :| 0 <= i < j < |s| && s[i] == x && s[j] == y;
      assert longer[i + 1] == x && longer[j + 1] == y;
    } else {
      var j :| 0 <= j < |s| && s[j] == y;
      assert longer[0] == x && longer[j + 1] == y;
    }
  }

  lemma PrecedesSplit<T>(s: seq<T>, x: T, y: T)
    requires Precedes(s, x, y)
    ensures Precedes(s[1..], x, y) || (s[0] == x && y in s[1..])
  {
    var i, j :| 0 <= i < j < |s| && s[i] == x && s[j] == y;
    assert s[1..][j - 1] == y;
    if i > 0 {
      assert s[1..][i - 1] == x;
    }
  }

  lemma {:induction false} InsertKeepsOrder<T>(z: T, s: seq<T>, le: (T, T) -> bool, x: T, y: T)
    requires Precedes(s, x, y)
    ensures Precedes(Insert(z, s, le), x, y)
  {
    if le(z, s[0]) {
      PrecedesBehind(z, s, x, y);
    } else {
      var rest := s[1..];
      PrecedesSplit(s, x, y);
      if Precedes(rest, x, y) {
        InsertKeepsOrder(z, rest, le, x, y);
      } else {
        InsertPermutes(z, rest, le);
        assert y in multiset(Insert(z, rest, le));
      }
      PrecedesBehind(s[0], Insert(z, rest, le), x, y);
    }
  }

  lemma {:induction false} InsertedBeforeEqual<T>(x: T, s: seq<T>, le: (T, T) -> bool, y: T)
    requires y in s && le(x, y)
    ensures Precedes(Insert(x, s, le), x, y)
  {
    if le(x, s[0]) {
      PrecedesBehind(x, s, x, y);
    } else {
      assert s == [s[0]] + s[1..];
      InsertedBeforeEqual(x, s[1..], le, y);
      PrecedesBehind(s[0], Insert(x, s[1..], le), x, y);
    }
  }

  /** The sort is stable: what need not move behind another does not. */
  lemma {:induction false} SortIsStable<T>(s: seq<T>, le: (T, T) -> bool, x: T, y: T)
    requires Precedes(s, x, y) && le(x, y)
    ensures Precedes(Sort(s, le), x, y)
  {
    var rest := s[1..];
    PrecedesSplit(s, x, y);
    if Precedes(rest, x, y) {
      SortIsStable(rest, le, x, y);
      InsertKeepsOrder(s[0], Sort(rest, le), le, x, y);
    } else {
      SortPermutes(rest, le);
      SamePresence(rest, Sort(rest, le));
      InsertedBeforeEqual(x, Sort(rest, le), le, y);
    }
  }

  lemma SamePresence<T>(a: seq<T>, b: seq<T>)
    requires multiset(a) == multiset(b)
    ensures forall x :: x in a <==> x in b
  {
    forall x ensures x in a <==> x in b {
      assert x in a <==> x in multiset(a);
    }
  }

  lemma DistinctIsMultiset<T>(s: seq<T>)
    requires Distinct(s)
    ensures forall x :: x in s ==> multiset(s)[x] == 1
  {
    if s != [] {
      DistinctIsMultiset(s[1..]);
      assert s == [s[0]] + s[1..];
      assert s[0] !in s[1..];
      assert s[0] !in multiset(s[1..]);
    }
  }

  lemma {:induction false} MultisetIsDistinct<T>(s: seq<T>)
    requires forall x :: x in s ==> multiset(s)[x] == 1
    ensures Distinct(s)
  {
    if s != [] {
      assert s == [s[0]] + s[1..];
      assert multiset(s) == multiset{s[0]} + multiset(s[1..]);
      forall x | x in s[1..] ensures multiset(s[1..])[x] == 1 {
        assert x in multiset(s[1..]);
        assert x in s;
        assert multiset(s)[x] == 1;
      }
      MultisetIsDistinct(s[1..]);
      assert multiset(s)[s[0]] == 1 + multiset(s[1..])[s[0]];
      assert s[0] !in multiset(s[1..]);
      assert s[0] !in s[1..];
    }
  }

  /** Distinctness survives reordering. */
  lemma DistinctPermuted<T>(a: seq<T>, b: seq<T>)
    requires Distinct(a) && multiset(a) == multiset(b)
    ensures Distinct(b)
  {
    DistinctIsMultiset(a);
    SamePresence(a, b);
    MultisetIsDistinct(b);
  }

  lemma DistinctAppended<T>(s: seq<T>, x: T)
    requires Distinct(s) && x !in s
    ensures Distinct(s + [x])
  {
  }

  /** Two repetition-free lists of the same elements are arrangements of each other. */
  lemma SameElementsPermute<T>(a: seq<T>, b: seq<T>)
    requires Distinct(a) && Distinct(b) && forall x :: x in a <==> x in b
    ensures multiset(a) == multiset(b)
  {
    DistinctIsMultiset(a);
    DistinctIsMultiset(b);
    forall x ensures multiset(a)[x] == multiset(b)[x] {
      assert x in a <==> x in multiset(a);
      assert x in b <==> x in multiset(b);
    }
  }

  // ---- sizes ----

  function Elements<T(==)>(s: seq<T>): set<T> {
    set x | x in s
  }

  /** A list has at most as many elements as positions, and as many when nothing repeats. */
  lemma {:induction false} ElementsSize<T>(s: seq<T>)
    ensures |Elements(s)| <= |s|
    ensures Distinct(s) ==> |Elements(s)| == |s|
  {
    if s != [] {
      var rest := s[1..];
      ElementsSize(rest);
      assert Elements(s) == {s[0]} + Elements(rest) by {
        assert s == [s[0]] + rest;
      }
      if Distinct(s) {
        assert s[0] !in Elements(rest);
      }
    }
  }

  lemma SubsetSize<T>(a: set<T>, b: set<T>)
    requires a <= b
    ensures |a| <= |b|
    ensures |a| == |b| ==> a == b
  {
    assert b == a + (b - a);
    assert |b| == |a| + |b - a|;
  }

  /** Of two sets of the same size, each lacks something of the other if one does. */
  lemma MissingFrom<T>(a: set<T>, b: set<T>, i: T) returns (j: T)
    requires |a| == |b| && i in b && i !in a
    ensures j in a && j !in b
  {
    if a <= b {
      SubsetSize(a, b);
      assert false;
    }
    j :| j in a && j !in b;
  }

  /** Python's `s[:n]`. */
  function Take<T>(s: seq<T>, n: int): seq<T> {
    if n >= |s| then s else if n >= 0 then s[..n] else if |s| + n >= 0 then s[..|s| + n] else []
  }

  // ---- flattening and mapping ----

  lemma ThreeParts<T>(a: seq<T>, b: seq<T>, c: seq<T>)
    ensures a + (b + c) == a + b + c
  {
  }

  function Flatten<T>(parts: seq<seq<T>>): seq<T> {
    if parts == [] then [] else parts[0] + Flatten(parts[1..])
  }

  function Map<S, T>(f: S -> T, s: seq<S>): (r: seq<T>)
    ensures |r| == |s|
    ensures forall i :: 0 <= i < |s| ==> r[i] == f(s[i])
  {
    if s == [] then [] else [f(s[0])] + Map(f, s[1..])
  }

  lemma {:induction false} MapConcat<S, T>(f: S -> T, a: seq<S>, b: seq<S>)
    ensures Map(f, a + b) == Map(f, a) + Map(f, b)
  {
    if a == [] {
      assert a + b == b;
    } else {
      assert (a + b)[1..] == a[1..] + b;
      MapConcat(f, a[1..], b);
    }
  }

  lemma RemoveAt<T>(s: seq<T>, i: nat)
    requires i < |s|
    ensures s == s[..i] + [s[i]] + s[i + 1..]
    ensures multiset(s[..i] + s[i + 1..]) == multiset(s) - multiset{s[i]}
  {
    assert s == s[..i] + [s[i]] + s[i + 1..];
  }

  /** Where the first element of one arrangement sits in another, and what is left of both. */
  lemma FindHead<T>(a: seq<T>, b: seq<T>) returns (i: nat)
    requires a != [] && multiset(a) == multiset(b)
    ensures i < |b| && b[i] == a[0]
    ensures multiset(a[1..]) == multiset(b[..i] + b[i + 1..])
  {
    assert a[0] in multiset(b);
    i :| 0 <= i < |b| && b[i] == a[0];
    RemoveAt(a, 0);
    RemoveAt(b, i);
    assert a[..0] + a[1..] == a[1..];
  }

  lemma TailMultiset<T>(s: seq<T>)
    requires s != []
    ensures multiset(s[1..]) == multiset(s) - multiset{s[0]}
  {
    RemoveAt(s, 0);
    assert s[..0] + s[1..] == s[1..];
  }

  /** Mapping two arrangements of the same elements gives two arrangements of the same results. */
  lemma {:induction false} MapPermutes<S, T>(f: S -> T, a: seq<S>, b: seq<S>)
    requires multiset(a) == multiset(b)
    ensures multiset(Map(f, a)) == multiset(Map(f, b))
  {
    SameSize(a, b);
    if a != [] {
      var i := FindHead(a, b);
      var rest := b[..i] + b[i + 1..];
      RemoveAt(b, i);
      MapPermutes(f, a[1..], rest);
      MapConcat(f, b[..i], b[i + 1..]);
      MapConcat(f, b[..i] + [b[i]], b[i + 1..]);
      MapConcat(f, b[..i], [b[i]]);
      assert Map(f, a) == [f(a[0])] + Map(f, a[1..]);
    }
  }
}
