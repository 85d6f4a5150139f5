/** Finite sums. */
module Sums {
  import opened Sorting

  /** The sum of exact numbers. */
  function Total(ws: seq<real>): real {
    if ws == [] then 0.0 else ws[0] + Total(ws[1..])
  }

  lemma {:induction false} TotalConcat(a: seq<real>, b: seq<real>)
    ensures Total(a + b) == Total(a) + Total(b)
  {
    if a == [] {
      assert a + b == b;
    } else {
      assert (a + b)[1..] == a[1..] + b;
      TotalConcat(a[1..], b);
    }
  }

  lemma TotalMiddle(s: seq<real>, i: nat)
    requires i < |s|
    ensures Total(s) == s[i] + Total(s[..i] + s[i + 1..])
  {
    RemoveAt(s, i);
    TotalConcat(s[..i], s[i + 1..]);
    TotalConcat(s[..i], [s[i]]);
    TotalConcat(s[..i] + [s[i]], s[i + 1..]);
  }

  lemma {:induction false} TotalPermuted(a: seq<real>, b: seq<real>)
    requires multiset(a) == multiset(b)
    ensures Total(a) == Total(b)
  {
    SameSize(a, b);
    if a != [] {
      var i := FindHead(a, b);
      TotalPermuted(a[1..], b[..i] + b[i + 1..]);
      TotalMiddle(b, i);
    }
  }

  lemma TotalOfThree(a: real, b: real, c: real)
    ensures Total([a, b, c]) == a + b + c
  {
    assert [a, b, c][1..] == [b, c] && [b, c][1..] == [c] && [c][1..] == [];
    assert Total([c]) == c;
    assert Total([b, c]) == b + c;
  }

  function Sum(s: seq<int>): int {
    if s == [] then 0 else s[0] + Sum(s[1..])
  }

  lemma {:induction false} SumConcat(a: seq<int>, b: seq<int>)
    ensures Sum(a + b) == Sum(a) + Sum(b)
  {
    if a == [] {
      assert a + b == b;
    } else {
      assert (a + b)[1..] == a[1..] + b;
      SumConcat(a[1..], b);
    }
  }

  lemma {:induction false} SumConstant(s: seq<int>, c: int)
    requires forall i :: 0 <= i < |s| ==> s[i] == c
    ensures Sum(s) == |s| * c
  {
    if s != [] {
      SumConstant(s[1..], c);
      assert |s| * c == c + (|s| - 1) * c;
    }
  }

  lemma {:induction false} SumNonnegative(s: seq<int>)
    requires forall i :: 0 <= i < |s| ==> 0 <= s[i]
    ensures 0 <= Sum(s)
  {
    if s != [] {
      SumNonnegative(s[1..]);
    }
  }

  lemma {:induction false} SumMonotone(a: seq<int>, b: seq<int>)
    requires |a| == |b| && forall i :: 0 <= i < |a| ==> a[i] <= b[i]
    ensures Sum(a) <= Sum(b)
  {
    if a != [] {
      SumMonotone(a[1..], b[1..]);
    }
  }

  /** Changing the positions of a set by the same amount. */
  lemma {:induction false} SumShift(a: seq<int>, b: seq<int>, positions: set<nat>, d: int)
    requires |a| == |b|
    requires forall p :: p in positions ==> p < |a|
    requires forall i :: 0 <= i < |a| ==> b[i] == a[i] + if i in positions then d else 0
    ensures Sum(b) == Sum(a) + d * |positions|
  {
    if a == [] {
      assert positions == {};
    } else {
      var last := |a| - 1;
      var rest := positions - {last};
      SumShift(a[..last], b[..last], rest, d);
      SumLast(a);
      SumLast(b);
      if last in positions {
        assert positions == rest + {last};
        OneMore(d, |rest|);
      } else {
        assert rest == positions;
      }
    }
  }

  lemma SumLast(s: seq<int>)
    requires s != []
    ensures Sum(s) == Sum(s[..|s| - 1]) + s[|s| - 1]
  {
    var last := |s| - 1;
    assert s == s[..last] + [s[last]];
    SumConcat(s[..last], [s[last]]);
  }

  lemma OneMore(d: int, n: nat)
    ensures d * (n + 1) == d * n + d
  {
  }

  lemma SumMiddle(s: seq<int>, i: nat)
    requires i < |s|
    ensures Sum(s) == s[i] + Sum(s[..i] + s[i + 1..])
  {
    RemoveAt(s, i);
    SumConcat(s[..i], s[i + 1..]);
    SumConcat(s[..i], [s[i]]);
    SumConcat(s[..i] + [s[i]], s[i + 1..]);
  }

  lemma {:induction false} SumPermuted(a: seq<int>, b: seq<int>)
    requires multiset(a) == multiset(b)
    ensures Sum(a) == Sum(b)
  {
    SameSize(a, b);
    if a != [] {
      var i := FindHead(a, b);
      SumPermuted(a[1..], b[..i] + b[i + 1..]);
      SumMiddle(b, i);
    }
  }

  lemma SumOfThree(a: int, b: int, c: int)
    ensures Sum([a, b, c]) == a + b + c
  {
    assert [a, b, c][1..] == [b, c] && [b, c][1..] == [c] && [c][1..] == [];
    assert Sum([c]) == c;
    assert Sum([b, c]) == b + c;
  }
}
