/**
 Weight normalization by largest remainder (serving/app/services/rubric.py, `normalize_weights`).

 Weights come in as exact numbers and leave as whole units of 0.0001. Decimal's 28-digit limit
 is not modelled: shares are exact.
 */
module Weights {
  import opened Wrappers
  import opened Sorting
  import opened Sums

  const WEIGHT_UNITS := 10_000

  datatype Error = NoRequirement | NegativeWeight | AllZero | Starved

  function Share(w: real, total: real): real
    requires total != 0.0
  {
    w * 10000.0 / total
  }

  function Shares(ws: seq<real>): seq<real>
    requires Total(ws) != 0.0
  {
    seq(|ws|, i requires 0 <= i < |ws| => Share(ws[i], Total(ws)))
  }

  function Fraction(x: real): (f: real)
    ensures 0.0 <= f < 1.0
  {
    x - x.Floor as real
  }

  function Floors(shares: seq<real>): seq<int> {
    seq(|shares|, i requires 0 <= i < |shares| => shares[i].Floor)
  }

  function Fractions(shares: seq<real>): seq<real> {
    seq(|shares|, i requires 0 <= i < |shares| => Fraction(shares[i]))
  }

  function FractionAt(shares: seq<real>, i: nat): real {
    if i < |shares| then Fraction(shares[i]) else 0.0
  }

  /** Larger fractional part first, earlier position on ties. */
  function ByFraction(shares: seq<real>): (nat, nat) -> bool {
    (i: nat, j: nat) =>
      FractionAt(shares, i) > FractionAt(shares, j) || (FractionAt(shares, i) == FractionAt(shares, j) && i <= j)
  }

  function Positions(n: nat): seq<nat> {
    seq(n, i => i)
  }

  function Order(shares: seq<real>): seq<nat> {
    Sort(Positions(|shares|), ByFraction(shares))
  }

  function Remainder(shares: seq<real>): int {
    WEIGHT_UNITS - Sum(Floors(shares))
  }

  /** The positions that receive one of the left-over units. */
  function Rounded(shares: seq<real>): seq<nat> {
    Take(Order(shares), Remainder(shares))
  }

  function Apportion(shares: seq<real>): seq<int> {
    seq(|shares|, i requires 0 <= i < |shares| => shares[i].Floor + if i in Rounded(shares) then 1 else 0)
  }

  predicate SomeStarved(ws: seq<real>, units: seq<int>) {
    exists i :: 0 <= i < |ws| && i < |units| && units[i] == 0 && ws[i] > 0.0
  }

  function Normalize(ws: seq<real>): (r: Result<seq<int>, Error>)
    ensures r.Ok? ==> |r.value| == |ws|
  {
    if ws == [] then Err(NoRequirement)
    else if exists i :: 0 <= i < |ws| && ws[i] < 0.0 then Err(NegativeWeight)
    else if Total(ws) == 0.0 then Err(AllZero)
    else
      var units := Apportion(Shares(ws));
      if SomeStarved(ws, units) then Err(Starved) else Ok(units)
  }

  // ---- the order and the remainder ----

  lemma ByFractionIsOrder(shares: seq<real>)
    ensures TotalPreorder(ByFraction(shares)) && Antisymmetric(ByFraction(shares))
  {
  }

  lemma InPositions(n: nat)
    ensures forall i: nat :: i in Positions(n) <==> i < n
    ensures Distinct(Positions(n))
  {
    forall i: nat | i < n ensures i in Positions(n) {
      assert Positions(n)[i] == i;
    }
  }

  /** Sorting the positions arranges each of them once. */
  lemma SortedPositions(n: nat, le: (nat, nat) -> bool)
    requires TotalPreorder(le)
    ensures var o := Sort<nat>(Positions(n), le);
            && |o| == n
            && SortedBy(o, le)
            && Distinct(o)
            && (forall i: nat :: i in o <==> i < n)
            && (forall k :: 0 <= k < |o| ==> o[k] < n)
  {
    var o := Sort<nat>(Positions(n), le);
    SortSorts(Positions(n), le);
    SortPermutes(Positions(n), le);
    InPositions(n);
    DistinctPermuted(Positions(n), o);
    SamePresence(Positions(n), o);
    forall k | 0 <= k < |o| ensures o[k] < n {
      assert o[k] in o;
    }
  }

  lemma OrderIsPermutation(shares: seq<real>)
    ensures var o := Order(shares);
            && |o| == |shares|
            && SortedBy(o, ByFraction(shares))
            && Distinct(o)
            && (forall i: nat :: i in o <==> i < |shares|)
            && (forall k :: 0 <= k < |o| ==> o[k] < |shares|)
  {
    ByFractionIsOrder(shares);
    SortedPositions(|shares|, ByFraction(shares));
  }

  ghost predicate ExactShares(shares: seq<real>) {
    && (forall i :: 0 <= i < |shares| ==> shares[i] >= 0.0)
    && Total(shares) == WEIGHT_UNITS as real
  }

  lemma {:induction false} FloorsPlusFractions(shares: seq<real>)
    ensures Total(shares) == Sum(Floors(shares)) as real + Total(Fractions(shares))
  {
    if shares != [] {
      FloorsPlusFractions(shares[1..]);
      assert Floors(shares)[1..] == Floors(shares[1..]);
      assert Fractions(shares)[1..] == Fractions(shares[1..]);
    }
  }

  lemma {:induction false} TotalLast(s: seq<real>)
    requires s != []
    ensures Total(s) == Total(s[..|s| - 1]) + s[|s| - 1]
  {
    if |s| > 1 {
      assert s[1..][..|s| - 2] == s[..|s| - 1][1..];
      TotalLast(s[1..]);
    }
  }

  lemma {:induction false} FractionsBelowCount(f: seq<real>, positive: set<nat>)
    requires forall i :: 0 <= i < |f| ==> 0.0 <= f[i] < 1.0 && (i in positive <==> f[i] > 0.0)
    requires forall i :: i in positive ==> i < |f|
    ensures 0.0 <= Total(f) <= |positive| as real
    ensures positive != {} ==> Total(f) < |positive| as real
  {
    if f != [] {
      var last := |f| - 1;
      var rest := positive - {last};
      FractionsBelowCount(f[..last], rest);
      TotalLast(f);
      if last in positive {
        assert positive == rest + {last};
      } else {
        assert rest == positive;
      }
    } else {
      assert positive == {};
    }
  }

  function PositiveFractions(shares: seq<real>): set<nat> {
    set i: nat | i < |shares| && Fraction(shares[i]) > 0.0
  }

  /** Every position with a fractional part comes before the first position without one. */
  lemma PositivesPrecede(shares: seq<real>, j: nat)
    requires j < |shares| && Order(shares)[j] < |shares| && Fraction(shares[Order(shares)[j]]) <= 0.0
    ensures PositiveFractions(shares) <= Elements(Order(shares)[..j])
  {
    var o := Order(shares);
    OrderIsPermutation(shares);
    forall i | i in PositiveFractions(shares) ensures i in o[..j] {
      assert i in o;
      var k :| 0 <= k < |o| && o[k] == i;
    }
  }

  /**
   The left-over units never outnumber the shares with a fractional part, so exactly that many
   positions are rounded up and each of them had a fractional part.
   */
  lemma RemainderGoesToFractions(shares: seq<real>)
    requires ExactShares(shares)
    ensures 0 <= Remainder(shares) <= |shares|
    ensures shares != [] ==> Remainder(shares) < |shares|
    ensures |Rounded(shares)| == Remainder(shares)
    ensures forall i :: i in Rounded(shares) ==> i < |shares| && Fraction(shares[i]) > 0.0
  {
    var o, f, positive := Order(shares), Fractions(shares), PositiveFractions(shares);
    OrderIsPermutation(shares);
    FloorsPlusFractions(shares);
    FractionsBelowCount(f, positive);
    ElementsSize(Positions(|shares|));
    InPositions(|shares|);
    SubsetSize(positive, Elements(Positions(|shares|)));
    var r := Remainder(shares);
    assert r as real == Total(f);
    forall j | 0 <= j < r ensures Fraction(shares[o[j]]) > 0.0 {
      if Fraction(shares[o[j]]) <= 0.0 {
        PositivesPrecede(shares, j);
        ElementsSize(o[..j]);
        SubsetSize(positive, Elements(o[..j]));
        assert false;
      }
    }
  }

  /** A position left unrounded has a fraction no larger than every rounded one, and comes later on ties. */
  lemma RoundedHaveLargestFractions(shares: seq<real>, i: nat, j: nat)
    requires ExactShares(shares) && i < |shares| && j < |shares|
    requires i in Rounded(shares) && j !in Rounded(shares)
    ensures Fraction(shares[i]) > Fraction(shares[j]) || (Fraction(shares[i]) == Fraction(shares[j]) && i < j)
  {
    RemainderGoesToFractions(shares);
    OrderIsPermutation(shares);
    var o := Order(shares);
    var k :| 0 <= k < Remainder(shares) && o[k] == i;
    assert j in o;
    var l :| 0 <= l < |o| && o[l] == j;
    assert l >= Remainder(shares);
    assert ByFraction(shares)(o[k], o[l]);
  }

  // ---- what apportionment guarantees ----

  /** Exactly 10000 units, every share within one unit, and nothing for a zero share. */
  lemma ApportionmentIsExact(shares: seq<real>)
    requires ExactShares(shares)
    ensures Sum(Apportion(shares)) == WEIGHT_UNITS
    ensures forall i :: 0 <= i < |shares| ==>
              && -1.0 < Apportion(shares)[i] as real - shares[i] < 1.0
              && Apportion(shares)[i] >= 0
              && (shares[i] == Apportion(shares)[i] as real || Fraction(shares[i]) > 0.0)
              && (shares[i] == 0.0 ==> Apportion(shares)[i] == 0)
  {
    RemainderGoesToFractions(shares);
    OrderIsPermutation(shares);
    var rounded := Rounded(shares);
    ElementsSize(rounded);
    assert Distinct(rounded);
    SumShift(Floors(shares), Apportion(shares), Elements(rounded), 1);
  }

  /** A larger share never gets fewer units; equal shares differ by at most one, the earlier first. */
  lemma ApportionmentIsMonotone(shares: seq<real>, i: nat, j: nat)
    requires ExactShares(shares) && i < |shares| && j < |shares|
    ensures shares[i] < shares[j] ==> Apportion(shares)[i] <= Apportion(shares)[j]
    ensures shares[i] == shares[j] && i < j ==> 0 <= Apportion(shares)[i] - Apportion(shares)[j] <= 1
  {
    if shares[i] <= shares[j] && i in Rounded(shares) && j !in Rounded(shares) {
      RoundedHaveLargestFractions(shares, i, j);
    }
    if shares[i] == shares[j] && i !in Rounded(shares) && j in Rounded(shares) {
      RoundedHaveLargestFractions(shares, j, i);
    }
  }

  // ---- no other apportionment is closer ----

  function Abs(x: real): real {
    if x >= 0.0 then x else -x
  }

  function Errors(units: seq<int>, shares: seq<real>): seq<real>
    requires |units| == |shares|
  {
    seq(|units|, i requires 0 <= i < |units| => Abs(units[i] as real - shares[i]))
  }

  /** The total distance between the units handed out and the exact shares. */
  function Distortion(units: seq<int>, shares: seq<real>): real
    requires |units| == |shares|
  {
    Total(Errors(units, shares))
  }

  function PriceOf(price: real, move: int): real {
    price * move as real
  }

  /**
   Moving one position away from its apportioned units costs at least the price of the move,
   where the price per unit is set by the fraction that separates rounded from unrounded.
   */
  lemma MovingCosts(share: real, cut: real, price: real, up: bool, units: int, other: int, move: int)
    requires 0.0 <= cut < 1.0 && price == 1.0 - 2.0 * cut
    requires units == share.Floor + (if up then 1 else 0) && move == other - units
    requires if up then Fraction(share) >= cut else Fraction(share) <= cut
    ensures Abs(other as real - share) >= Abs(units as real - share) + PriceOf(price, move)
  {
    var f, k := Fraction(share), move as real;
    assert other as real - share == k + (if up then 1.0 - f else -f);
    MoveBound(f, cut, price, k, up);
  }

  lemma MoveBound(f: real, cut: real, price: real, k: real, up: bool)
    requires 0.0 <= cut < 1.0 && 0.0 <= f < 1.0 && (if up then f >= cut else f <= cut)
    requires price == 1.0 - 2.0 * cut
    requires k >= 1.0 || k <= -1.0 || k == 0.0
    ensures Abs(k + if up then 1.0 - f else -f) >= Abs(if up then 1.0 - f else -f) + price * k
  {
    var p := cut * k;
    PriceIsLinear(cut, price, k, p);
    CutTimes(cut, k, p);
    LinearBound(f, cut, k, p, up);
  }

  lemma PriceIsLinear(cut: real, price: real, k: real, p: real)
    requires price == 1.0 - 2.0 * cut && p == cut * k
    ensures price * k == k - 2.0 * p
  {
  }

  lemma CutTimes(cut: real, k: real, p: real)
    requires 0.0 <= cut < 1.0 && p == cut * k
    ensures k >= 1.0 ==> p >= cut
    ensures k <= -1.0 ==> p - k >= 1.0 - cut
    ensures k == 0.0 ==> p == 0.0
  {
    if k >= 1.0 {
      AtLeastOnce(cut, k, p);
    } else if k <= -1.0 {
      RestTimes(cut, k, p);
      AtLeastOnce(1.0 - cut, -k, p - k);
    }
  }

  lemma RestTimes(cut: real, k: real, p: real)
    requires p == cut * k
    ensures p - k == (1.0 - cut) * -k
  {
  }

  lemma LinearBound(f: real, cut: real, k: real, p: real, up: bool)
    requires 0.0 <= cut < 1.0 && 0.0 <= f < 1.0 && (if up then f >= cut else f <= cut)
    requires k >= 1.0 || k <= -1.0 || k == 0.0
    requires k >= 1.0 ==> p >= cut
    requires k <= -1.0 ==> p - k >= 1.0 - cut
    requires k == 0.0 ==> p == 0.0
    ensures Abs(k + if up then 1.0 - f else -f) >= Abs(if up then 1.0 - f else -f) + (k - 2.0 * p)
  {
  }

  lemma AtLeastOnce(x: real, times: real, product: real)
    requires x >= 0.0 && times >= 1.0 && product == x * times
    ensures product >= x
  {
    var more := times - 1.0;
    assert x * more >= 0.0;
    assert product == x * more + x;
  }

  function Moves(from: seq<int>, to: seq<int>): seq<int>
    requires |from| == |to|
  {
    seq(|from|, i requires 0 <= i < |from| => to[i] - from[i])
  }

  lemma {:induction false} SumMoves(from: seq<int>, to: seq<int>)
    requires |from| == |to|
    ensures Sum(Moves(from, to)) == Sum(to) - Sum(from)
  {
    if from != [] {
      SumMoves(from[1..], to[1..]);
      assert Moves(from, to)[1..] == Moves(from[1..], to[1..]);
    }
  }

  /** The fraction that separates the positions rounded up from the others. */
  predicate Separates(cut: real, shares: seq<real>) {
    && 0.0 <= cut < 1.0
    && forall i :: 0 <= i < |shares| ==>
         if i in Rounded(shares) then Fraction(shares[i]) >= cut else Fraction(shares[i]) <= cut
  }

  /** The largest fraction that was not rounded up separates. */
  lemma LargestUnroundedSeparates(shares: seq<real>) returns (cut: real)
    requires ExactShares(shares)
    ensures Separates(cut, shares)
  {
    if shares == [] {
      return 0.0;
    }
    var o, r := Order(shares), Remainder(shares);
    RemainderGoesToFractions(shares);
    OrderIsPermutation(shares);
    assert o[r] !in Rounded(shares);
    cut := Fraction(shares[o[r]]);
    forall i: nat | i < |shares|
      ensures if i in Rounded(shares) then Fraction(shares[i]) >= cut else Fraction(shares[i]) <= cut
    {
      if i in Rounded(shares) {
        RoundedHaveLargestFractions(shares, i, o[r]);
      } else {
        assert i in o;
        var k :| 0 <= k < |o| && o[k] == i;
        assert r <= k;
      }
    }
  }

  function Priced(price: real, moves: seq<int>): seq<real> {
    seq(|moves|, i requires 0 <= i < |moves| => PriceOf(price, moves[i]))
  }

  lemma {:induction false} PricedTotal(price: real, moves: seq<int>)
    ensures Total(Priced(price, moves)) == PriceOf(price, Sum(moves))
  {
    if moves != [] {
      PricedTotal(price, moves[1..]);
      assert Priced(price, moves)[1..] == Priced(price, moves[1..]);
      Distribute(price, moves[0], Sum(moves[1..]));
    }
  }

  lemma Distribute(price: real, a: int, b: int)
    ensures PriceOf(price, a + b) == PriceOf(price, a) + PriceOf(price, b)
  {
    var x, y := a as real, b as real;
    assert price * (x + y) == price * x + price * y;
  }

  lemma {:induction false} TotalsCompare(a: seq<real>, b: seq<real>, c: seq<real>)
    requires |a| == |b| == |c| && forall i :: 0 <= i < |a| ==> a[i] >= b[i] + c[i]
    ensures Total(a) >= Total(b) + Total(c)
  {
    if a != [] {
      TotalsCompare(a[1..], b[1..], c[1..]);
    }
  }

  lemma PositionCost(shares: seq<real>, other: seq<int>, i: nat, cut: real, price: real)
    requires i < |shares| == |other| && Separates(cut, shares) && price == 1.0 - 2.0 * cut
    ensures Errors(other, shares)[i]
         >= Errors(Apportion(shares), shares)[i] + Priced(price, Moves(Apportion(shares), other))[i]
  {
    var units := Apportion(shares);
    MovingCosts(shares[i], cut, price, i in Rounded(shares), units[i], other[i], Moves(units, other)[i]);
  }

  /** Among all ways to hand out 10000 whole units, this one distorts the exact shares least. */
  lemma ApportionmentDistortsLeast(shares: seq<real>, other: seq<int>)
    requires ExactShares(shares)
    requires |other| == |shares| && Sum(other) == WEIGHT_UNITS
    ensures Distortion(Apportion(shares), shares) <= Distortion(other, shares)
  {
    var units := Apportion(shares);
    ApportionmentIsExact(shares);
    SumMoves(units, other);
    var cut := LargestUnroundedSeparates(shares);
    DistortionBound(shares, other, cut, 1.0 - 2.0 * cut);
  }

  lemma DistortionBound(shares: seq<real>, other: seq<int>, cut: real, price: real)
    requires |other| == |shares| && Separates(cut, shares) && price == 1.0 - 2.0 * cut
    requires Sum(Moves(Apportion(shares), other)) == 0
    ensures Distortion(Apportion(shares), shares) <= Distortion(other, shares)
  {
    var moves := Moves(Apportion(shares), other);
    forall i: nat | i < |shares|
      ensures Errors(other, shares)[i] >= Errors(Apportion(shares), shares)[i] + Priced(price, moves)[i]
    {
      PositionCost(shares, other, i, cut, price);
    }
    TotalsCompare(Errors(other, shares), Errors(Apportion(shares), shares), Priced(price, moves));
    PricedTotal(price, moves);
  }

  // ---- normalization ----

  lemma {:induction false} ScaledTotal(scaled: seq<real>, ws: seq<real>, factor: real)
    requires ScaledBy(scaled, ws, factor)
    ensures Total(scaled) == factor * Total(ws)
  {
    if ws != [] {
      ScaledTotal(scaled[1..], ws[1..], factor);
    }
  }

  lemma {:induction false} TotalPositive(ws: seq<real>)
    requires forall i :: 0 <= i < |ws| ==> ws[i] >= 0.0
    ensures Total(ws) >= 0.0
    ensures forall i :: 0 <= i < |ws| ==> ws[i] <= Total(ws)
  {
    if ws != [] {
      TotalPositive(ws[1..]);
    }
  }

  predicate Acceptable(ws: seq<real>) {
    ws != [] && (forall i :: 0 <= i < |ws| ==> ws[i] >= 0.0) && Total(ws) != 0.0
  }

  lemma ShareSign(w: real, total: real)
    requires total > 0.0 && w >= 0.0
    ensures Share(w, total) >= 0.0 && (Share(w, total) == 0.0 <==> w == 0.0)
  {
  }

  lemma ShareOrder(v: real, w: real, total: real)
    requires total > 0.0
    ensures v < w ==> Share(v, total) < Share(w, total)
  {
    if v < w {
      ShareSign(w - v, total);
      assert Share(w, total) - Share(v, total) == Share(w - v, total);
    }
  }

  predicate ScaledBy(scaled: seq<real>, ws: seq<real>, factor: real) {
    |scaled| == |ws| && forall i :: 0 <= i < |ws| ==> scaled[i] == factor * ws[i]
  }

  lemma ShareAdds(v: real, w: real, total: real)
    requires total > 0.0
    ensures Share(v, total) + Share(w, total) == Share(v + w, total)
  {
  }

  lemma {:induction false} TotalOfShares(ws: seq<real>, shares: seq<real>, total: real)
    requires total > 0.0 && |shares| == |ws| && forall i :: 0 <= i < |ws| ==> shares[i] == Share(ws[i], total)
    ensures Total(shares) == Share(Total(ws), total)
  {
    if ws != [] {
      TotalOfShares(ws[1..], shares[1..], total);
      ShareAdds(ws[0], Total(ws[1..]), total);
    }
  }

  lemma WholeShare(total: real)
    requires total > 0.0
    ensures Share(total, total) == 10000.0
  {
  }

  lemma SharesAreExact(ws: seq<real>)
    requires Acceptable(ws)
    ensures Total(ws) > 0.0 && ExactShares(Shares(ws))
  {
    TotalPositive(ws);
    TotalOfShares(ws, Shares(ws), Total(ws));
    WholeShare(Total(ws));
    forall i | 0 <= i < |ws| ensures Shares(ws)[i] >= 0.0 {
      ShareSign(ws[i], Total(ws));
    }
  }

  /**
   A successful normalization: exactly 10000 units, each within one unit of its exact share and
   all together as close as whole units can be; zero weights get nothing and positive weights
   something; larger weights never get fewer units and equal weights differ by at most one.
   */
  lemma NormalizedWeights(ws: seq<real>)
    requires Normalize(ws).Ok?
    ensures var u := Normalize(ws).value;
            && Acceptable(ws) && |u| == |ws| && Sum(u) == WEIGHT_UNITS
            && (forall i :: 0 <= i < |ws| ==>
                  && u[i] >= 0
                  && -1.0 < u[i] as real - Share(ws[i], Total(ws)) < 1.0
                  && (u[i] == 0 <==> ws[i] == 0.0))
            && (forall i, j :: 0 <= i < |ws| && 0 <= j < |ws| && ws[i] < ws[j] ==> u[i] <= u[j])
            && (forall i, j :: 0 <= i < j < |ws| && ws[i] == ws[j] ==> 0 <= u[i] - u[j] <= 1)
            && (forall other: seq<int> :: |other| == |ws| && Sum(other) == WEIGHT_UNITS ==>
                  Distortion(u, Shares(ws)) <= Distortion(other, Shares(ws)))
  {
    var u, shares := Normalize(ws).value, Shares(ws);
    SharesAreExact(ws);
    ApportionmentIsExact(shares);
    forall i | 0 <= i < |ws| ensures ws[i] == 0.0 ==> u[i] == 0 {
      ShareSign(ws[i], Total(ws));
    }
    forall i, j | 0 <= i < |ws| && 0 <= j < |ws| && ws[i] < ws[j] ensures u[i] <= u[j] {
      ShareOrder(ws[i], ws[j], Total(ws));
      ApportionmentIsMonotone(shares, i, j);
    }
    forall i, j | 0 <= i < j < |ws| && ws[i] == ws[j] ensures 0 <= u[i] - u[j] <= 1 {
      ApportionmentIsMonotone(shares, i, j);
    }
    forall other: seq<int> | |other| == |ws| && Sum(other) == WEIGHT_UNITS
      ensures Distortion(u, shares) <= Distortion(other, shares)
    {
      ApportionmentDistortsLeast(shares, other);
    }
  }

  /** Nothing is starved when every positive weight is worth at least one unit of the total. */
  lemma RepresentableWeightsNormalize(ws: seq<real>)
    requires Acceptable(ws)
    requires forall i :: 0 <= i < |ws| && ws[i] > 0.0 ==> Share(ws[i], Total(ws)) >= 1.0
    ensures Normalize(ws).Ok?
  {
    SharesAreExact(ws);
    var units := Apportion(Shares(ws));
    forall i | 0 <= i < |ws| && ws[i] > 0.0 ensures units[i] != 0 {
      assert Shares(ws)[i].Floor >= 1;
    }
  }

  /** Only the proportions matter. */
  lemma NormalizationIgnoresScale(ws: seq<real>, scaled: seq<real>, factor: real)
    requires factor > 0.0 && ScaledBy(scaled, ws, factor)
    ensures Normalize(scaled) == Normalize(ws)
  {
    ScaledTotal(scaled, ws, factor);
    forall i | 0 <= i < |ws| ensures (scaled[i] < 0.0 <==> ws[i] < 0.0) && (scaled[i] > 0.0 <==> ws[i] > 0.0) {
      ScaledSign(ws[i], factor);
    }
    ScaledSign(Total(ws), factor);
    if Total(ws) != 0.0 {
      ScaledShares(ws, scaled, factor, Total(ws), Total(scaled));
      assert Shares(scaled) == Shares(ws);
    }
  }

  lemma ScaledShares(ws: seq<real>, scaled: seq<real>, factor: real, total: real, scaledTotal: real)
    requires factor > 0.0 && ScaledBy(scaled, ws, factor) && total != 0.0 && scaledTotal == factor * total
    ensures scaledTotal != 0.0
    ensures forall i :: 0 <= i < |ws| ==> Share(scaled[i], scaledTotal) == Share(ws[i], total)
  {
    forall i | 0 <= i < |ws| ensures scaledTotal != 0.0 && Share(scaled[i], scaledTotal) == Share(ws[i], total) {
      ScaledSign(total, factor);
      ScaledShare(ws[i], total, factor);
    }
    ScaledSign(total, factor);
  }

  lemma ScaledSign(w: real, factor: real)
    requires factor > 0.0
    ensures (factor * w < 0.0 <==> w < 0.0) && (factor * w > 0.0 <==> w > 0.0) && (factor * w == 0.0 <==> w == 0.0)
  {
  }

  lemma ScaledShare(w: real, total: real, factor: real)
    requires factor > 0.0 && total != 0.0 && factor * total != 0.0
    ensures Share(factor * w, factor * total) == Share(w, total)
  {
    assert factor * w * 10000.0 == factor * (w * 10000.0);
    assert Share(w, total) * total == w * 10000.0;
    assert Share(factor * w, factor * total) * (factor * total) == factor * (w * 10000.0);
    assert Share(w, total) * (factor * total) == factor * (w * 10000.0);
  }

  /** Units read back as the stored decimal weights. */
  function AsWeights(units: seq<int>): seq<real> {
    seq(|units|, i requires 0 <= i < |units| => AsWeight(units[i]))
  }

  function AsWeight(units: int): real {
    units as real / 10000.0
  }

  lemma {:induction false} AsWeightsTotal(units: seq<int>)
    ensures Total(AsWeights(units)) == Sum(units) as real / 10000.0
  {
    if units != [] {
      AsWeightsTotal(units[1..]);
      assert AsWeights(units)[1..] == AsWeights(units[1..]);
    }
  }

  /** Normalizing a normalized set changes nothing. */
  lemma NormalizationIsIdempotent(units: seq<int>)
    requires Sum(units) == WEIGHT_UNITS && forall i :: 0 <= i < |units| ==> units[i] >= 0
    ensures Normalize(AsWeights(units)) == Ok(units)
  {
    var ws := AsWeights(units);
    AsWeightsTotal(units);
    assert Total(ws) == 1.0;
    assert units != [];
    var shares := Shares(ws);
    forall i | 0 <= i < |units| ensures shares[i] == units[i] as real {
      ShareOfUnits(units[i]);
    }
    WholeSharesStay(shares, units);
  }

  lemma ShareOfUnits(units: int)
    ensures Share(AsWeight(units), 1.0) == units as real
  {
  }

  lemma WholeSharesStay(shares: seq<real>, units: seq<int>)
    requires |shares| == |units| && Sum(units) == WEIGHT_UNITS
    requires forall i :: 0 <= i < |units| ==> shares[i] == units[i] as real
    ensures Apportion(shares) == units
  {
    assert Floors(shares) == units;
    assert Rounded(shares) == [];
  }

  // ---- the result is determined ----

  /** Shares rounded down, one unit more for those with the largest fractional parts, earlier rows first on ties. */
  predicate IsLargestRemainder(shares: seq<real>, units: seq<int>) {
    && |units| == |shares| && Sum(units) == 10_000
    && (forall i :: 0 <= i < |units| ==> units[i] == shares[i].Floor || units[i] == shares[i].Floor + 1)
    && (forall i, j :: 0 <= i < |units| && 0 <= j < |units| && units[i] == shares[i].Floor + 1 && units[j] == shares[j].Floor ==>
          Fraction(shares[i]) > Fraction(shares[j]) || (Fraction(shares[i]) == Fraction(shares[j]) && i < j))
  }

  function RaisedIn(shares: seq<real>, units: seq<int>): set<nat>
    requires |units| == |shares|
  {
    set i: nat | i < |units| && units[i] == shares[i].Floor + 1
  }

  lemma RaisedCount(shares: seq<real>, units: seq<int>)
    requires IsLargestRemainder(shares, units)
    ensures |RaisedIn(shares, units)| == 10_000 - Sum(Floors(shares))
  {
    SumShift(Floors(shares), units, RaisedIn(shares, units), 1);
  }

  lemma LargestRemainderIsUnique(shares: seq<real>, a: seq<int>, b: seq<int>)
    requires IsLargestRemainder(shares, a) && IsLargestRemainder(shares, b)
    ensures a == b
  {
    RaisedCount(shares, a);
    RaisedCount(shares, b);
    var raisedA, raisedB := RaisedIn(shares, a), RaisedIn(shares, b);
    forall i | i in raisedA ensures i in raisedB {
      if i !in raisedB {
        var j := MissingFrom(raisedB, raisedA, i);
        assert false;
      }
    }
    SubsetSize(raisedA, raisedB);
    forall i: nat | i < |a| ensures a[i] == b[i] {
      assert i in raisedA <==> i in raisedB;
    }
  }

  lemma ApportionmentIsLargestRemainder(shares: seq<real>)
    requires ExactShares(shares)
    ensures IsLargestRemainder(shares, Apportion(shares))
  {
    ApportionmentIsExact(shares);
    var units := Apportion(shares);
    forall i: nat, j: nat | i < |units| && j < |units| && units[i] == shares[i].Floor + 1 && units[j] == shares[j].Floor
      ensures Fraction(shares[i]) > Fraction(shares[j]) || (Fraction(shares[i]) == Fraction(shares[j]) && i < j)
    {
      RoundedHaveLargestFractions(shares, i, j);
    }
  }

  /** The exact share of each weight in 10000. */
  predicate AreShares(shares: seq<real>, ws: seq<real>)
    requires Total(ws) != 0.0
  {
    |shares| == |ws| && forall i :: 0 <= i < |ws| ==> shares[i] == ws[i] * 10_000.0 / Total(ws)
  }

  /**
   Which weights are accepted, and as which units: none may be negative, their sum may not be
   zero, and the shares rounded by largest remainder must leave no positive weight without a unit.
   */
  lemma NormalizesToLargestRemainder(ws: seq<real>, shares: seq<real>, units: seq<int>)
    requires Total(ws) != 0.0 ==> AreShares(shares, ws)
    ensures Normalize(ws) == Ok(units) <==>
              && ws != [] && (forall i :: 0 <= i < |ws| ==> ws[i] >= 0.0) && Total(ws) != 0.0
              && IsLargestRemainder(shares, units)
              && (forall i :: 0 <= i < |ws| && i < |units| && ws[i] > 0.0 ==> units[i] != 0)
    ensures Normalize(ws) == Err(NoRequirement) <==> ws == []
    ensures Normalize(ws) == Err(NegativeWeight) <==> exists i :: 0 <= i < |ws| && ws[i] < 0.0
    ensures Normalize(ws) == Err(AllZero) <==> ws != [] && (forall i :: 0 <= i < |ws| ==> ws[i] >= 0.0) && Total(ws) == 0.0
  {
    if Acceptable(ws) {
      assert Shares(ws) == shares;
      SharesAreExact(ws);
      ApportionmentIsLargestRemainder(shares);
      if IsLargestRemainder(shares, units) {
        LargestRemainderIsUnique(shares, units, Apportion(shares));
      }
    }
  }

  // ---- the documented rule ----

  function ShareAt(shares: seq<real>, i: nat): real {
    if i < |shares| then shares[i] else 0.0
  }

  /** Larger weight first, earlier position on ties. */
  function ByShare(shares: seq<real>): (nat, nat) -> bool {
    (i: nat, j: nat) =>
      ShareAt(shares, i) > ShareAt(shares, j) || (ShareAt(shares, i) == ShareAt(shares, j) && i <= j)
  }

  /** The positions the documentation gives the left-over units to. */
  function DocumentedRounded(shares: seq<real>): seq<nat> {
    Take(Sort<nat>(Positions(|shares|), ByShare(shares)), Remainder(shares))
  }

  function DocumentedApportion(shares: seq<real>): seq<int> {
    seq(|shares|, i requires 0 <= i < |shares| => shares[i].Floor + if i in DocumentedRounded(shares) then 1 else 0)
  }

  /** Of two choices of the same number of positions, the one that is first in an order. */
  lemma FirstInOrder(n: nat, le: (nat, nat) -> bool, count: nat, others: seq<nat>)
    requires TotalPreorder(le) && Antisymmetric(le) && count <= n
    requires |others| == count && Distinct(others) && forall k :: 0 <= k < |others| ==> others[k] < n
    ensures (forall i: nat | i < n :: i in Sort<nat>(Positions(n), le)[..count] <==> i in others)
       <==> (forall i: nat, j: nat | i < n && j < n && i in others && j !in others :: le(i, j))
  {
    var o := Sort<nat>(Positions(n), le);
    var first := o[..count];
    SortedPositions(n, le);
    forall i, j: nat | i in first && j < n && j !in first ensures le(i, j) {
      var k :| 0 <= k < count && o[k] == i;
      assert j in o;
      var l :| 0 <= l < n && o[l] == j;
      assert l >= count;
    }
    if forall i: nat, j: nat | i < n && j < n && i in others && j !in others :: le(i, j) {
      ElementsSize(first);
      ElementsSize(others);
      forall d | d in Elements(first) ensures d in Elements(others) {
        if d !in others {
          var e := MissingFrom(Elements(others), Elements(first), d);
          NotBothFirst(le, d, e);
          assert false;
        }
      }
      SubsetSize(Elements(first), Elements(others));
      assert forall i :: i in first <==> i in Elements(first);
      assert forall i :: i in others <==> i in Elements(others);
    }
  }

  lemma NotBothFirst(le: (nat, nat) -> bool, i: nat, j: nat)
    requires Antisymmetric(le) && i != j
    ensures !(le(i, j) && le(j, i))
  {
  }

  /** The positions rounded up are those that weigh most, the earlier among equals. */
  predicate RoundedWeighMost(shares: seq<real>) {
    forall i: nat, j: nat | i < |shares| && j < |shares| && i in Rounded(shares) && j !in Rounded(shares) ::
      shares[i] > shares[j] || (shares[i] == shares[j] && i < j)
  }

  lemma ByShareIsOrder(shares: seq<real>)
    ensures TotalPreorder(ByShare(shares)) && Antisymmetric(ByShare(shares))
  {
  }

  lemma AgreeIffSameRounded(shares: seq<real>)
    ensures DocumentedApportion(shares) == Apportion(shares)
       <==> forall i: nat | i < |shares| :: i in DocumentedRounded(shares) <==> i in Rounded(shares)
  {
    var a, b := DocumentedApportion(shares), Apportion(shares);
    forall i: nat | i < |shares| ensures a[i] == b[i] <==> (i in DocumentedRounded(shares) <==> i in Rounded(shares)) {
    }
  }

  /**
   The documented rule and the code agree exactly when every position that is rounded up weighs
   more than every one that is not, or as much and comes first.
   */
  lemma DocumentedRuleAgreesIff(shares: seq<real>)
    requires ExactShares(shares)
    ensures DocumentedApportion(shares) == Apportion(shares) <==> RoundedWeighMost(shares)
  {
    var rounded, le := Rounded(shares), ByShare(shares);
    RemainderGoesToFractions(shares);
    OrderIsPermutation(shares);
    ByShareIsOrder(shares);
    FirstInOrder(|shares|, le, Remainder(shares), rounded);
    assert DocumentedRounded(shares) == Sort<nat>(Positions(|shares|), le)[..Remainder(shares)];
    AgreeIffSameRounded(shares);
  }

  // ---- instances ----

  lemma SumOfTwo(units: seq<int>)
    requires |units| == 2
    ensures Sum(units) == units[0] + units[1]
  {
    assert Sum(units[1..]) == units[1] + Sum(units[1..][1..]);
  }

  lemma OneLeftOver(shares: seq<real>)
    requires ExactShares(shares) && |shares| == 2
    requires 0.0 < Fraction(shares[0]) && 0.0 < Fraction(shares[1])
    ensures Remainder(shares) == 1
  {
    var f := Fractions(shares);
    FloorsPlusFractions(shares);
    assert Total(f) == f[0] + Total(f[1..]);
    assert Total(f[1..]) == f[1] + Total(f[1..][1..]);
    assert 0.0 < Total(f) < 2.0;
    assert Total(f) == Remainder(shares) as real;
  }

  /** One unit left over between two shares goes to the larger fraction; the documented rule gives it to the larger share. */
  lemma TwoShares(shares: seq<real>)
    requires ExactShares(shares) && |shares| == 2
    requires 0.0 < Fraction(shares[0]) < Fraction(shares[1]) && shares[0] > shares[1]
    ensures Apportion(shares) == [shares[0].Floor, shares[1].Floor + 1]
    ensures DocumentedApportion(shares) == [shares[0].Floor + 1, shares[1].Floor]
  {
    var a, b := Apportion(shares), DocumentedApportion(shares);
    RemainderGoesToFractions(shares);
    ApportionmentIsExact(shares);
    SumOfTwo(a);
    SumOfTwo(Floors(shares));
    OneLeftOver(shares);
    if 0 in Rounded(shares) && 1 !in Rounded(shares) {
      RoundedHaveLargestFractions(shares, 0, 1);
    }
    assert a == [a[0], a[1]] && b == [b[0], b[1]];
    var o := Sort<nat>(Positions(2), ByShare(shares));
    SortedPositions(2, ByShare(shares));
    assert o == [0, 1];
    assert DocumentedRounded(shares) == o[..1] == [0];
  }

  /** The larger fraction wins against the larger weight. */
  lemma LargestWeightIsPassedOver()
    ensures Normalize([6.0, 1.0]) == Ok([8571, 1429])
    ensures DocumentedApportion(Shares([6.0, 1.0])) == [8572, 1428]
  {
    var ws := [6.0, 1.0];
    assert ws[1..] == [1.0] && ws[1..][1..] == [];
    assert Total(ws) == 7.0;
    SharesAreExact(ws);
    var shares := Shares(ws);
    assert shares[0].Floor == 8571 && shares[1].Floor == 1428;
    TwoShares(shares);
  }

  /** Three equal weights: the extra unit goes to the first row. */
  lemma ThirdsNormalize()
    ensures Normalize([1.0, 1.0, 1.0]) == Ok([3334, 3333, 3333])
  {
    var ws := [1.0, 1.0, 1.0];
    assert ws[1..] == [1.0, 1.0] && ws[1..][1..] == [1.0] && ws[1..][1..][1..] == [];
    assert Total(ws) == 3.0;
    SharesAreExact(ws);
    EqualThirds(Shares(ws));
  }

  lemma EqualThirds(shares: seq<real>)
    requires ExactShares(shares) && |shares| == 3 && shares[0] == shares[1] == shares[2]
    ensures Apportion(shares) == [3334, 3333, 3333]
  {
    ApportionmentIsExact(shares);
    ApportionmentIsMonotone(shares, 0, 1);
    ApportionmentIsMonotone(shares, 1, 2);
    ApportionmentIsMonotone(shares, 0, 2);
    var u := Apportion(shares);
    SumOfThree(u[0], u[1], u[2]);
    assert u == [u[0], u[1], u[2]];
  }

  // ---- the loop ----

  /** Add one unit at each chosen position. */
  method HandOut(floored: seq<int>, chosen: seq<nat>) returns (units: seq<int>)
    requires Distinct(chosen) && forall k :: 0 <= k < |chosen| ==> chosen[k] < |floored|
    ensures |units| == |floored|
    ensures forall i :: 0 <= i < |units| ==> units[i] == floored[i] + if i in chosen then 1 else 0
  {
    units := floored;
    var k := 0;
    while k < |chosen|
      invariant 0 <= k <= |chosen| && |units| == |floored|
      invariant forall i :: 0 <= i < |units| ==> units[i] == floored[i] + if i in chosen[..k] then 1 else 0
    {
      assert chosen[..k + 1] == chosen[..k] + [chosen[k]];
      units := units[chosen[k] := units[chosen[k]] + 1];
      k := k + 1;
    }
    assert chosen[..k] == chosen;
  }

  method LargestRemainder(exact: seq<real>) returns (units: seq<int>)
    ensures units == Apportion(exact)
  {
    var remainder := WEIGHT_UNITS - Sum(Floors(exact));
    var order := Sort(Positions(|exact|), ByFraction(exact));
    OrderIsPermutation(exact);
    units := HandOut(Floors(exact), Take(order, remainder));
    assert Take(order, remainder) == Rounded(exact);
  }

  method NormalizeWeights(ws: seq<real>) returns (r: Result<seq<int>, Error>)
    ensures r == Normalize(ws)
  {
    if ws == [] {
      return Err(NoRequirement);
    }
    if exists i :: 0 <= i < |ws| && ws[i] < 0.0 {
      return Err(NegativeWeight);
    }
    var total := Total(ws);
    if total == 0.0 {
      return Err(AllZero);
    }
    var units := LargestRemainder(Shares(ws));
    if SomeStarved(ws, units) {
      return Err(Starved);
    }
    return Ok(units);
  }
}
