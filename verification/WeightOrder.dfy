/**
 What the order of the rows decides in `normalize_weights` (serving/app/services/rubric.py).

 Fractional parts that tie are told apart by position. Where the last left-over unit falls into
 such a tie, submitting the rows in another order gives it to another row.
 */
module WeightOrder {
  import opened Wrappers
  import opened Sorting
  import opened Sums
  import opened Weights

  /** A permutation of the positions of a list of length `n`. */
  predicate IsPermutation(perm: seq<nat>, n: nat) {
    |perm| == n && Distinct(perm) && forall k :: 0 <= k < n ==> perm[k] < n
  }

  function Permute<T>(s: seq<T>, perm: seq<nat>): seq<T>
    requires IsPermutation(perm, |s|)
  {
    seq(|s|, k requires 0 <= k < |s| => s[perm[k]])
  }

  lemma PermutationCoversAll(perm: seq<nat>, n: nat)
    requires IsPermutation(perm, n)
    ensures forall i: nat :: i < n ==> i in perm
    ensures multiset(perm) == multiset(Positions(n))
  {
    InPositions(n);
    ElementsSize(perm);
    ElementsSize(Positions(n));
    SubsetSize(Elements(perm), Elements(Positions(n)));
    assert forall i: nat :: i in perm <==> i in Elements(perm);
    SameElementsPermute(perm, Positions(n));
  }

  function EntryOf(s: seq<int>): nat -> int {
    (i: nat) => if i < |s| then s[i] else 0
  }

  lemma PermutedSum(s: seq<int>, perm: seq<nat>)
    requires IsPermutation(perm, |s|)
    ensures Sum(Permute(s, perm)) == Sum(s)
  {
    PermutationCoversAll(perm, |s|);
    MapPermutes(EntryOf(s), perm, Positions(|s|));
    assert Map(EntryOf(s), perm) == Permute(s, perm);
    assert Map(EntryOf(s), Positions(|s|)) == s;
    SumPermuted(Permute(s, perm), s);
  }

  /** Reordering the shares leaves as many units over. */
  lemma PermutedRemainder(shares: seq<real>, perm: seq<nat>)
    requires IsPermutation(perm, |shares|)
    ensures Remainder(Permute(shares, perm)) == Remainder(shares)
  {
    assert Floors(Permute(shares, perm)) == Permute(Floors(shares), perm);
    PermutedSum(Floors(shares), perm);
  }

  function Image(perm: seq<nat>, at: seq<nat>): set<nat> {
    set k | k in at && k < |perm| :: perm[k]
  }

  lemma {:induction false} ImageSize(perm: seq<nat>, at: seq<nat>)
    requires Distinct(perm) && Distinct(at) && forall k :: k in at ==> k < |perm|
    ensures |Image(perm, at)| == |at|
  {
    if at != [] {
      var rest := at[1..];
      assert at == [at[0]] + rest;
      assert forall k :: k in rest ==> k in at;
      assert at[0] in at;
      ImageSize(perm, rest);
      assert Image(perm, at) == Image(perm, rest) + {perm[at[0]]};
      assert perm[at[0]] !in Image(perm, rest);
    }
  }

  function RealAt(s: seq<real>): nat -> real {
    (i: nat) => if i < |s| then s[i] else 0.0
  }

  lemma PermutedTotals(ws: seq<real>, perm: seq<nat>)
    requires IsPermutation(perm, |ws|)
    ensures Total(Permute(ws, perm)) == Total(ws)
  {
    PermutationCoversAll(perm, |ws|);
    MapPermutes(RealAt(ws), perm, Positions(|ws|));
    assert Map(RealAt(ws), perm) == Permute(ws, perm);
    assert Map(RealAt(ws), Positions(|ws|)) == ws;
    TotalPermuted(Permute(ws, perm), ws);
  }

  lemma PermutedShares(shares: seq<real>, perm: seq<nat>)
    requires IsPermutation(perm, |shares|) && ExactShares(shares)
    ensures ExactShares(Permute(shares, perm))
  {
    PermutedTotals(shares, perm);
  }

  lemma RoundedDistinct(shares: seq<real>)
    requires ExactShares(shares)
    ensures Distinct(Rounded(shares))
  {
    OrderIsPermutation(shares);
    RemainderGoesToFractions(shares);
  }

  // ---- ties that position decides ----

  /** Equal fractions of which one was rounded up and the other was not. */
  predicate SplitTie(shares: seq<real>, i: nat, j: nat) {
    && i < |shares| && j < |shares|
    && i in Rounded(shares) && j !in Rounded(shares) && Fraction(shares[i]) == Fraction(shares[j])
  }

  /** The cut falls between two different fractions: no tie is decided by position. */
  predicate CleanCut(shares: seq<real>) {
    forall i: nat, j: nat | i < |shares| && j < |shares| :: !SplitTie(shares, i, j)
  }

  function RoundedSet(shares: seq<real>): set<nat> {
    Elements(Rounded(shares))
  }

  /** The rows rounded up after a reordering, by their places before it. */
  function RoundedAfter(shares: seq<real>, perm: seq<nat>): set<nat>
    requires IsPermutation(perm, |shares|)
  {
    Image(perm, Rounded(Permute(shares, perm)))
  }

  lemma RoundedAfterAt(shares: seq<real>, perm: seq<nat>, k: nat)
    requires IsPermutation(perm, |shares|) && k < |shares|
    ensures k in Rounded(Permute(shares, perm)) <==> perm[k] in RoundedAfter(shares, perm)
  {
    var at := Rounded(Permute(shares, perm));
    if perm[k] in Image(perm, at) {
      var m :| m in at && m < |perm| && perm[m] == perm[k];
      assert m == k;
    }
  }

  /** A reordering leaves as many units over, so as many rows are rounded up. */
  lemma AsManyRounded(shares: seq<real>, perm: seq<nat>)
    requires ExactShares(shares) && IsPermutation(perm, |shares|)
    ensures |RoundedAfter(shares, perm)| == |RoundedSet(shares)|
    ensures forall i :: i in RoundedAfter(shares, perm) || i in RoundedSet(shares) ==> i < |shares|
  {
    var moved := Permute(shares, perm);
    PermutedShares(shares, perm);
    PermutedRemainder(shares, perm);
    RemainderGoesToFractions(shares);
    RemainderGoesToFractions(moved);
    RoundedDistinct(shares);
    RoundedDistinct(moved);
    ElementsSize(Rounded(shares));
    ImageSize(perm, Rounded(moved));
  }

  /** A row that loses its unit to another by a reordering was tied with it. */
  lemma OnlyTiesMove(shares: seq<real>, perm: seq<nat>, i: nat, j: nat)
    requires ExactShares(shares) && IsPermutation(perm, |shares|)
    requires i in RoundedSet(shares) && i !in RoundedAfter(shares, perm)
    requires j in RoundedAfter(shares, perm) && j !in RoundedSet(shares)
    ensures SplitTie(shares, i, j)
  {
    var moved := Permute(shares, perm);
    PermutedShares(shares, perm);
    AsManyRounded(shares, perm);
    PermutationCoversAll(perm, |shares|);
    assert i in perm;
    var l :| 0 <= l < |perm| && perm[l] == i;
    assert j in perm;
    var m :| 0 <= m < |perm| && perm[m] == j;
    RoundedAfterAt(shares, perm, l);
    RoundedAfterAt(shares, perm, m);
    RoundedHaveLargestFractions(moved, m, l);
    RoundedHaveLargestFractions(shares, i, j);
  }

  /** A row that loses its unit loses it to another. */
  lemma UnitGoesElsewhere(shares: seq<real>, perm: seq<nat>, i: nat) returns (j: nat)
    requires ExactShares(shares) && IsPermutation(perm, |shares|)
    requires i in RoundedSet(shares) && i !in RoundedAfter(shares, perm)
    ensures j in RoundedAfter(shares, perm) && j !in RoundedSet(shares) && SplitTie(shares, i, j)
  {
    AsManyRounded(shares, perm);
    j := MissingFrom(RoundedAfter(shares, perm), RoundedSet(shares), i);
    OnlyTiesMove(shares, perm, i, j);
  }

  /** Every share rounded down, or up where a unit was handed out. */
  function UnitsWith(shares: seq<real>, rounded: set<nat>): (u: seq<int>)
    ensures |u| == |shares|
  {
    seq(|shares|, i requires 0 <= i < |shares| => shares[i].Floor + if i in rounded then 1 else 0)
  }

  lemma UnitsAfter(shares: seq<real>, perm: seq<nat>)
    requires IsPermutation(perm, |shares|)
    ensures Apportion(shares) == UnitsWith(shares, RoundedSet(shares))
    ensures Apportion(Permute(shares, perm)) == Permute(UnitsWith(shares, RoundedAfter(shares, perm)), perm)
  {
    forall k: nat | k < |shares|
      ensures k in Rounded(Permute(shares, perm)) <==> perm[k] in RoundedAfter(shares, perm)
    {
      RoundedAfterAt(shares, perm, k);
    }
  }

  // ---- exchanging two tied rows ----

  function Swap(n: nat, i: nat, j: nat): seq<nat>
    requires i < n && j < n
  {
    Positions(n)[i := j][j := i]
  }

  lemma SwapIsPermutation(n: nat, i: nat, j: nat)
    requires i < n && j < n
    ensures IsPermutation(Swap(n, i, j), n)
  {
  }

  /** Exchanging two rows of a split tie gives the unit of the one to the other. */
  lemma SwapMovesUnit(shares: seq<real>, i: nat, j: nat)
    requires ExactShares(shares) && SplitTie(shares, i, j)
    ensures IsPermutation(Swap(|shares|, i, j), |shares|)
    ensures RoundedAfter(shares, Swap(|shares|, i, j)) == RoundedSet(shares) - {i} + {j}
  {
    var perm := Swap(|shares|, i, j);
    SwapIsPermutation(|shares|, i, j);
    var moved := Permute(shares, perm);
    assert Fractions(moved) == Fractions(shares);
    PermutedRemainder(shares, perm);
    SameFractionsSameOrder(shares, moved);
    assert Rounded(moved) == Rounded(shares);
    AsManyRounded(shares, perm);
    forall k: nat ensures k in RoundedAfter(shares, perm) <==> k in RoundedSet(shares) - {i} + {j} {
      if k < |shares| {
        RoundedAfterAt(shares, perm, perm[k]);
        assert perm[perm[k]] == k;
      }
    }
  }

  lemma SameFractionsSameOrder(a: seq<real>, b: seq<real>)
    requires Fractions(a) == Fractions(b)
    ensures Order(a) == Order(b)
  {
    OrderIsPermutation(a);
    OrderIsPermutation(b);
    SortPermutes(Positions(|a|), ByFraction(a));
    SortPermutes(Positions(|b|), ByFraction(b));
    ByFractionIsOrder(a);
    assert |Fractions(a)| == |a| && |Fractions(b)| == |b|;
    forall k: nat ensures FractionAt(a, k) == FractionAt(b, k) {
      if k < |a| {
        assert Fractions(a)[k] == Fractions(b)[k];
      }
    }
    SortedUnique(Order(a), Order(b), ByFraction(a));
  }

  // ---- the units and the order of the rows ----

  /** Handing out units and reordering commute for every reordering. */
  ghost predicate OrderFree(shares: seq<real>) {
    forall perm: seq<nat> | IsPermutation(perm, |shares|) ::
      Apportion(Permute(shares, perm)) == Permute(Apportion(shares), perm)
  }

  /**
   Apportionment commutes with every reordering exactly when no tie at the cut is decided by
   position. Reordering rows otherwise moves a unit from one row to another.
   */
  lemma OrderFreeIffCleanCut(shares: seq<real>)
    requires ExactShares(shares)
    ensures OrderFree(shares) <==> CleanCut(shares)
  {
    if CleanCut(shares) {
      forall perm: seq<nat> | IsPermutation(perm, |shares|)
        ensures Apportion(Permute(shares, perm)) == Permute(Apportion(shares), perm)
      {
        CleanCutCommutes(shares, perm);
      }
    } else {
      var i: nat, j: nat :| i < |shares| && j < |shares| && SplitTie(shares, i, j);
      var perm := Swap(|shares|, i, j);
      SwapMovesUnit(shares, i, j);
      UnitsAfter(shares, perm);
      assert perm[j] == i;
      assert Apportion(Permute(shares, perm))[j] != Permute(Apportion(shares), perm)[j];
    }
  }

  lemma CleanCutCommutes(shares: seq<real>, perm: seq<nat>)
    requires ExactShares(shares) && CleanCut(shares) && IsPermutation(perm, |shares|)
    ensures Apportion(Permute(shares, perm)) == Permute(Apportion(shares), perm)
  {
    var before, after := RoundedSet(shares), RoundedAfter(shares, perm);
    forall i | i in before ensures i in after {
      if i !in after {
        var j := UnitGoesElsewhere(shares, perm, i);
        assert false;
      }
    }
    AsManyRounded(shares, perm);
    SubsetSize(before, after);
    UnitsAfter(shares, perm);
  }

  // ---- acceptance and the order of the rows ----

  lemma PermutedWeights(ws: seq<real>, perm: seq<nat>)
    requires Acceptable(ws) && IsPermutation(perm, |ws|)
    ensures Acceptable(Permute(ws, perm)) && Shares(Permute(ws, perm)) == Permute(Shares(ws), perm)
  {
    PermutedTotals(ws, perm);
  }

  /** A positive weight that a reordering leaves without a unit lost a split tie below one unit. */
  lemma StarvedByTie(ws: seq<real>, perm: seq<nat>, k: nat) returns (j: nat)
    requires Normalize(ws).Ok? && Acceptable(ws) && IsPermutation(perm, |ws|) && k < |ws|
    requires ws[perm[k]] > 0.0 && Apportion(Permute(Shares(ws), perm))[k] == 0
    ensures SplitTie(Shares(ws), perm[k], j) && Shares(ws)[perm[k]] < 1.0
    ensures j in RoundedAfter(Shares(ws), perm) && !TiesAboveOneUnit(Shares(ws))
  {
    var shares, i := Shares(ws), perm[k];
    SharesAreExact(ws);
    PermutedWeights(ws, perm);
    UnitsAfter(shares, perm);
    AsManyRounded(shares, perm);
    assert Apportion(shares)[i] != 0;
    j := UnitGoesElsewhere(shares, perm, i);
  }

  ghost predicate AcceptedInEveryOrder(ws: seq<real>) {
    forall perm: seq<nat> | IsPermutation(perm, |ws|) :: Normalize(Permute(ws, perm)).Ok?
  }

  /** No tie below one unit is decided by position. */
  predicate TiesAboveOneUnit(shares: seq<real>) {
    forall i: nat, j: nat | i < |shares| && j < |shares| && SplitTie(shares, i, j) :: shares[i] >= 1.0
  }

  /**
   Whether a set of weights is accepted can depend on the order of the rows. An accepted set is
   accepted in every order exactly when no row below one unit owes its only unit to its position.
   */
  lemma AcceptedInEveryOrderIff(ws: seq<real>)
    requires Normalize(ws).Ok?
    ensures AcceptedInEveryOrder(ws) <==> TiesAboveOneUnit(Shares(ws))
  {
    var shares := Shares(ws);
    SharesAreExact(ws);
    if TiesAboveOneUnit(shares) {
      forall perm: seq<nat> | IsPermutation(perm, |ws|) ensures Normalize(Permute(ws, perm)).Ok? {
        AcceptedWhenTiesAbove(ws, perm);
      }
    } else {
      var i: nat, j: nat :| i < |shares| && j < |shares| && SplitTie(shares, i, j) && shares[i] < 1.0;
      LosingTieStarves(ws, i, j);
    }
  }

  lemma AcceptedWhenTiesAbove(ws: seq<real>, perm: seq<nat>)
    requires Normalize(ws).Ok? && TiesAboveOneUnit(Shares(ws)) && IsPermutation(perm, |ws|)
    ensures Normalize(Permute(ws, perm)).Ok?
  {
    var moved := Permute(ws, perm);
    PermutedWeights(ws, perm);
    var units := Apportion(Shares(moved));
    forall k: nat | k < |ws| && moved[k] > 0.0 ensures units[k] != 0 {
      if units[k] == 0 {
        var j := StarvedByTie(ws, perm, k);
        assert false;
      }
    }
  }

  /** Exchanged with the row it is tied with, a row below one unit gets nothing. */
  lemma LosingTieStarves(ws: seq<real>, i: nat, j: nat)
    requires Normalize(ws).Ok? && SplitTie(Shares(ws), i, j) && Shares(ws)[i] < 1.0
    ensures IsPermutation(Swap(|ws|, i, j), |ws|) && Normalize(Permute(ws, Swap(|ws|, i, j))) == Err(Starved)
  {
    var shares, perm := Shares(ws), Swap(|ws|, i, j);
    SharesAreExact(ws);
    RemainderGoesToFractions(shares);
    SwapMovesUnit(shares, i, j);
    PermutedWeights(ws, perm);
    UnitsAfter(shares, perm);
    ShareSign(ws[i], Total(ws));
    assert perm[j] == i;
    assert Permute(ws, perm)[j] == ws[i] > 0.0;
    assert Apportion(Shares(Permute(ws, perm)))[j] == 0;
  }

  /** Reordered weights normalize to the reordered units when no tie is split. */
  lemma NormalizationMovesAlong(ws: seq<real>, perm: seq<nat>)
    requires Normalize(ws).Ok? && IsPermutation(perm, |ws|) && CleanCut(Shares(ws))
    ensures Normalize(Permute(ws, perm)) == Ok(Permute(Normalize(ws).value, perm))
  {
    SharesAreExact(ws);
    PermutedWeights(ws, perm);
    CleanCutCommutes(Shares(ws), perm);
    AcceptedWhenTiesAbove(ws, perm);
  }

  // ---- an instance ----

  lemma OneUnitLeft(shares: seq<real>)
    requires ExactShares(shares) && |shares| == 3
    requires Fraction(shares[0]) == Fraction(shares[1]) == 0.5 && Fraction(shares[2]) == 0.0
    ensures Apportion(shares) == [shares[0].Floor + 1, shares[1].Floor, shares[2].Floor]
  {
    ApportionmentIsExact(shares);
    RemainderGoesToFractions(shares);
    if 1 in Rounded(shares) && 0 !in Rounded(shares) {
      RoundedHaveLargestFractions(shares, 1, 0);
    }
    TotalOfThree(shares[0], shares[1], shares[2]);
    assert shares == [shares[0], shares[1], shares[2]];
    var u, f := Apportion(shares), shares[0].Floor + shares[1].Floor + shares[2].Floor;
    assert u == [u[0], u[1], u[2]];
    SumOfThree(u[0], u[1], u[2]);
    assert Total(shares) == f as real + 1.0;
    assert f + 1 == WEIGHT_UNITS;
    assert u[2] == shares[2].Floor;
    assert (0 in Rounded(shares)) != (1 in Rounded(shares));
  }

  /** Accepted in one order and refused in another. */
  lemma OrderDecidesAcceptance()
    ensures Normalize([0.5, 1.5, 9998.0]) == Ok([1, 1, 9998])
    ensures Normalize([1.5, 0.5, 9998.0]) == Err(Starved)
  {
    var a, b := [0.5, 1.5, 9998.0], [1.5, 0.5, 9998.0];
    TotalOfThree(0.5, 1.5, 9998.0);
    TotalOfThree(1.5, 0.5, 9998.0);
    SharesAreExact(a);
    SharesAreExact(b);
    assert Shares(a) == a && Shares(b) == b;
    OneUnitLeft(a);
    OneUnitLeft(b);
    assert Apportion(Shares(a)) == [1, 1, 9998];
    assert Apportion(Shares(b)) == [2, 0, 9998];
    assert SomeStarved(b, [2, 0, 9998]) by {
      assert b[1] > 0.0;
    }
  }
}
