/**
 The content hash and the order of the rows (serving/app/services/rubric.py).

 The hash forgets the order of the criteria, but the units in them come from a normalization
 that breaks ties by position. This module says for which submissions the hashed text is the
 same in every order of the rows.
 */
module RowOrder {
  import opened Wrappers
  import opened Sorting
  import opened Sums
  import Weights
  import opened WeightOrder
  import opened ContentHash
  import opened RubricStore

  function CriteriaOf(requirements: seq<Requirement>): seq<Criterion> {
    Map(CriterionOf, requirements)
  }

  /** What is hashed of a row besides its units. */
  function Content(p: Proposal): Criterion {
    CriterionOf(Scoped(p, 0, 0))
  }

  function CriteriaWith(proposals: seq<Proposal>, units: seq<int>): (r: seq<Criterion>)
    requires |units| == |proposals|
    ensures |r| == |proposals|
  {
    seq(|proposals|, i requires 0 <= i < |proposals| => Content(proposals[i]).(units := units[i]))
  }

  lemma AssembledCriteria(proposals: seq<Proposal>, units: seq<int>)
    requires |units| == |proposals|
    ensures CriteriaOf(Assemble(proposals, units)) == CriteriaWith(proposals, units)
  {
  }

  // ---- rows that may be exchanged ----

  /** The rows differ in nothing that is hashed, and weigh the same. */
  predicate Interchangeable(proposals: seq<Proposal>, shares: seq<real>, i: nat, j: nat) {
    && i < |proposals| == |shares| && j < |proposals|
    && Content(proposals[i]) == Content(proposals[j]) && shares[i] == shares[j]
  }

  predicate TiesInterchangeable(proposals: seq<Proposal>, shares: seq<real>) {
    forall i: nat, j: nat | i < |shares| && j < |shares| && SplitTie(shares, i, j) :: Interchangeable(proposals, shares, i, j)
  }

  lemma SameRest<T>(rest: multiset<T>, x: multiset<T>, y: multiset<T>)
    ensures rest + x == rest + y <==> x == y
  {
    assert rest + x - rest == x;
    assert rest + y - rest == y;
  }

  lemma HoldsBoth<T>(s: seq<T>, i: nat, j: nat)
    requires i < |s| && j < |s| && i != j
    ensures multiset{s[i], s[j]} <= multiset(s)
  {
    var others := s[..i] + s[i + 1..];
    RemoveAt(s, i);
    assert s[j] == others[if j < i then j else j - 1];
    assert s[j] in multiset(others);
  }

  lemma TradeTwo<T>(all: multiset<T>, rest: multiset<T>, x: T, y: T, u: T, v: T)
    requires all == rest + multiset{x, y}
    ensures all - multiset{x} + multiset{u} - multiset{y} + multiset{v} == rest + multiset{u, v}
  {
    assert all - multiset{x} == rest + multiset{y};
    assert rest + multiset{y} + multiset{u} - multiset{y} == rest + multiset{u};
  }

  lemma WriteTwo<T>(a: seq<T>, i: nat, j: nat, u: T, v: T)
    requires i < |a| && j < |a| && i != j
    ensures multiset(a[i := u][j := v]) == multiset(a) - multiset{a[i]} + multiset{u} - multiset{a[j]} + multiset{v}
  {
  }

  /** Lists that agree but at two places hold the same entries exactly when those two places do. */
  lemma TwoPlaces<T>(a: seq<T>, b: seq<T>, i: nat, j: nat)
    requires |a| == |b| && i < |a| && j < |a| && i != j
    requires forall k :: 0 <= k < |a| && k != i && k != j ==> a[k] == b[k]
    ensures multiset(a) == multiset(b) <==> multiset{a[i], a[j]} == multiset{b[i], b[j]}
  {
    var x, y, u, v, all := a[i], a[j], b[i], b[j], multiset(a);
    var rest := all - multiset{x, y};
    HoldsBoth(a, i, j);
    assert all == rest + multiset{x, y};
    WriteTwo(a, i, j, u, v);
    assert b == a[i := u][j := v];
    TradeTwo(all, rest, x, y, u, v);
    SameRest(rest, multiset{x, y}, multiset{u, v});
  }

  /** Taking the unit of row `i` and giving it to row `j`. */
  lemma MoveUnit(proposals: seq<Proposal>, shares: seq<real>, rounded: set<nat>, i: nat, j: nat)
    requires i < |proposals| == |shares| && j < |proposals| && i in rounded && j !in rounded
    requires Weights.Fraction(shares[i]) == Weights.Fraction(shares[j])
    ensures multiset(CriteriaWith(proposals, UnitsWith(shares, rounded)))
         == multiset(CriteriaWith(proposals, UnitsWith(shares, rounded - {i} + {j})))
       <==> Interchangeable(proposals, shares, i, j)
  {
    var a := CriteriaWith(proposals, UnitsWith(shares, rounded));
    var b := CriteriaWith(proposals, UnitsWith(shares, rounded - {i} + {j}));
    var c, d, f, g := Content(proposals[i]), Content(proposals[j]), shares[i].Floor, shares[j].Floor;
    assert a[i] == c.(units := f + 1) && a[j] == d.(units := g);
    assert b[i] == c.(units := f) && b[j] == d.(units := g + 1);
    TwoPlaces(a, b, i, j);
    if multiset{a[i], a[j]} == multiset{b[i], b[j]} {
      assert a[i] in multiset{b[i], b[j]};
      assert a[i] != b[i];
      assert c == a[i].(units := 0) == b[j].(units := 0) == d;
    }
    if Interchangeable(proposals, shares, i, j) {
      assert a[i] == b[j] && a[j] == b[i];
    }
  }

  /** Moving units between interchangeable rows, one at a time, never shows in the criteria. */
  lemma {:induction false} MovingUnitsKeepsCriteria(proposals: seq<Proposal>, shares: seq<real>, from: set<nat>, to: set<nat>)
    requires |proposals| == |shares| && |from| == |to|
    requires forall i, j :: i in from && i !in to && j in to && j !in from ==> Interchangeable(proposals, shares, i, j)
    ensures multiset(CriteriaWith(proposals, UnitsWith(shares, from)))
         == multiset(CriteriaWith(proposals, UnitsWith(shares, to)))
    decreases |from - to|
  {
    if from <= to {
      SubsetSize(from, to);
    } else {
      var i :| i in from && i !in to;
      var j := MissingFrom(to, from, i);
      var next := from - {i} + {j};
      MoveUnit(proposals, shares, from, i, j);
      assert next - to == from - to - {i};
      MovingUnitsKeepsCriteria(proposals, shares, next, to);
    }
  }

  // ---- reordering the rows of a submission ----

  lemma RescopedCriteria(proposals: seq<Proposal>)
    requires Rescope(proposals).Ok?
    ensures var ws := ProposedWeights(proposals);
            && Weights.Acceptable(ws) && Weights.ExactShares(Weights.Shares(ws))
            && CriteriaOf(Rescope(proposals).value) == CriteriaWith(proposals, Weights.Apportion(Weights.Shares(ws)))
  {
    var ws := ProposedWeights(proposals);
    Weights.NormalizedWeights(ws);
    Weights.SharesAreExact(ws);
    AssembledCriteria(proposals, Weights.Apportion(Weights.Shares(ws)));
  }

  /** The criteria of a reordered submission, seen from the places before. */
  lemma ReorderedCriteria(proposals: seq<Proposal>, shares: seq<real>, perm: seq<nat>)
    requires IsPermutation(perm, |proposals|) && |shares| == |proposals|
    requires Weights.Acceptable(ProposedWeights(proposals)) && shares == Weights.Shares(ProposedWeights(proposals))
    requires Rescope(Permute(proposals, perm)).Ok?
    ensures multiset(CriteriaOf(Rescope(Permute(proposals, perm)).value))
         == multiset(CriteriaWith(proposals, UnitsWith(shares, RoundedAfter(shares, perm))))
  {
    var ws, moved := ProposedWeights(proposals), Permute(proposals, perm);
    var units := UnitsWith(shares, RoundedAfter(shares, perm));
    PermutedWeights(ws, perm);
    UnitsAfter(shares, perm);
    assert ProposedWeights(moved) == Permute(ws, perm);
    RescopedCriteria(moved);
    PermutedCriteria(proposals, units, perm);
  }

  function PickFrom(a: seq<Criterion>): nat -> Criterion {
    (i: nat) => if i < |a| then a[i] else Criterion("", "", false, 0, None, None)
  }

  lemma PermutedCriteria(proposals: seq<Proposal>, units: seq<int>, perm: seq<nat>)
    requires |units| == |proposals| && IsPermutation(perm, |proposals|)
    ensures multiset(CriteriaWith(Permute(proposals, perm), Permute(units, perm))) == multiset(CriteriaWith(proposals, units))
  {
    var a, b := CriteriaWith(proposals, units), CriteriaWith(Permute(proposals, perm), Permute(units, perm));
    PermutationCoversAll(perm, |a|);
    MapPermutes(PickFrom(a), perm, Weights.Positions(|a|));
    assert Map(PickFrom(a), perm) == b;
    assert Map(PickFrom(a), Weights.Positions(|a|)) == a;
  }

  /** The reordered submission is accepted and hashes the same text. */
  ghost predicate SameText(encode: Encoding, proposals: seq<Proposal>, perm: seq<nat>)
    requires Rescope(proposals).Ok? && IsPermutation(perm, |proposals|)
  {
    var moved := Rescope(Permute(proposals, perm));
    moved.Ok? && Payload(encode, CriteriaOf(moved.value)) == Payload(encode, CriteriaOf(Rescope(proposals).value))
  }

  ghost predicate TextIgnoresOrder(encode: Encoding, proposals: seq<Proposal>)
    requires Rescope(proposals).Ok?
  {
    forall perm: seq<nat> | IsPermutation(perm, |proposals|) :: SameText(encode, proposals, perm)
  }

  /**
   The hashed text of an accepted submission is the same in every order of its rows exactly when
   every tie that position decides is between rows that weigh the same and differ in nothing
   that is hashed.
   */
  lemma TextIgnoresOrderIff(encode: Encoding, proposals: seq<Proposal>)
    requires Canonical(encode) && Rescope(proposals).Ok?
    ensures TextIgnoresOrder(encode, proposals) <==> TiesInterchangeable(proposals, Weights.Shares(ProposedWeights(proposals)))
  {
    var shares := Weights.Shares(ProposedWeights(proposals));
    if TiesInterchangeable(proposals, shares) {
      forall perm: seq<nat> | IsPermutation(perm, |proposals|) ensures SameText(encode, proposals, perm) {
        ReorderingKeepsText(encode, proposals, perm);
      }
    } else {
      var i: nat, j: nat :| i < |shares| && j < |shares| && SplitTie(shares, i, j) && !Interchangeable(proposals, shares, i, j);
      SplitTieChangesText(encode, proposals, i, j);
    }
  }

  lemma ReorderingKeepsText(encode: Encoding, proposals: seq<Proposal>, perm: seq<nat>)
    requires Canonical(encode) && Rescope(proposals).Ok? && IsPermutation(perm, |proposals|)
    requires TiesInterchangeable(proposals, Weights.Shares(ProposedWeights(proposals)))
    ensures SameText(encode, proposals, perm)
  {
    var ws, moved := ProposedWeights(proposals), Permute(proposals, perm);
    var shares := Weights.Shares(ws);
    RescopedCriteria(proposals);
    AcceptedWhenInterchangeable(proposals, perm);
    ReorderedCriteria(proposals, shares, perm);
    UnitsAfter(shares, perm);
    var from, to := RoundedSet(shares), RoundedAfter(shares, perm);
    AsManyRounded(shares, perm);
    forall i, j | i in from && i !in to && j in to && j !in from ensures Interchangeable(proposals, shares, i, j) {
      OnlyTiesMove(shares, perm, i, j);
    }
    MovingUnitsKeepsCriteria(proposals, shares, from, to);
    PayloadIffSameCriteria(encode, CriteriaOf(Rescope(moved).value), CriteriaOf(Rescope(proposals).value));
  }

  /** A row that would lose its only unit to an equal row would leave that row without one before. */
  lemma AcceptedWhenInterchangeable(proposals: seq<Proposal>, perm: seq<nat>)
    requires Rescope(proposals).Ok? && IsPermutation(perm, |proposals|)
    requires TiesInterchangeable(proposals, Weights.Shares(ProposedWeights(proposals)))
    ensures Rescope(Permute(proposals, perm)).Ok?
  {
    var ws := ProposedWeights(proposals);
    var shares := Weights.Shares(ws);
    Weights.NormalizedWeights(ws);
    Weights.SharesAreExact(ws);
    forall i: nat, j: nat | i < |shares| && j < |shares| && SplitTie(shares, i, j) ensures shares[i] >= 1.0 {
      assert Interchangeable(proposals, shares, i, j);
      Weights.ShareSign(ws[j], Total(ws));
      Weights.RemainderGoesToFractions(shares);
      assert Weights.Apportion(shares)[j] == shares[j].Floor;
    }
    AcceptedWhenTiesAbove(ws, perm);
    assert ProposedWeights(Permute(proposals, perm)) == Permute(ws, perm);
  }

  /** Exchanging two tied rows that differ, where position decided the tie, is refused or changes the hashed text. */
  lemma SplitTieChangesText(encode: Encoding, proposals: seq<Proposal>, i: nat, j: nat)
    requires Canonical(encode) && Rescope(proposals).Ok?
    requires SplitTie(Weights.Shares(ProposedWeights(proposals)), i, j)
    requires !Interchangeable(proposals, Weights.Shares(ProposedWeights(proposals)), i, j)
    ensures IsPermutation(Swap(|proposals|, i, j), |proposals|)
    ensures !SameText(encode, proposals, Swap(|proposals|, i, j))
  {
    var shares, perm := Weights.Shares(ProposedWeights(proposals)), Swap(|proposals|, i, j);
    SwapIsPermutation(|proposals|, i, j);
    RescopedCriteria(proposals);
    SwapMovesUnit(shares, i, j);
    MoveUnit(proposals, shares, RoundedSet(shares), i, j);
    var moved := Rescope(Permute(proposals, perm));
    if moved.Ok? {
      ReorderedCriteria(proposals, shares, perm);
      UnitsAfter(shares, perm);
      PayloadIffSameCriteria(encode, CriteriaOf(moved.value), CriteriaOf(Rescope(proposals).value));
    }
  }

  /** The hash itself: kept by every order under the condition, for any digest. */
  lemma ReorderingKeepsHash(h: Hashing, proposals: seq<Proposal>, perm: seq<nat>)
    requires Canonical(h.encode) && Rescope(proposals).Ok? && IsPermutation(perm, |proposals|)
    requires TiesInterchangeable(proposals, Weights.Shares(ProposedWeights(proposals)))
    ensures Rescope(Permute(proposals, perm)).Ok?
    ensures HashOf(h, Rescope(Permute(proposals, perm)).value) == HashOf(h, Rescope(proposals).value)
  {
    ReorderingKeepsText(h.encode, proposals, perm);
    assert Map(CriterionOf, Rescope(proposals).value) == CriteriaOf(Rescope(proposals).value);
  }

  /** Three rows of equal weight, the first two exchanged: both orders are accepted, and hash different text. */
  lemma EqualRowsExchanged(encode: Encoding, a: Proposal, b: Proposal, c: Proposal)
    requires Canonical(encode)
    requires a.weight == b.weight == c.weight == 1.0 && Content(a) != Content(b)
    ensures Rescope([a, b, c]).Ok? && Rescope([b, a, c]).Ok?
    ensures Payload(encode, CriteriaOf(Rescope([a, b, c]).value)) != Payload(encode, CriteriaOf(Rescope([b, a, c]).value))
  {
    Weights.ThirdsNormalize();
    var ws, proposals := [1.0, 1.0, 1.0], [a, b, c];
    assert ProposedWeights(proposals) == ws && ProposedWeights([b, a, c]) == ws;
    var shares := Weights.Shares(ws);
    assert Weights.Apportion(shares) == [3334, 3333, 3333];
    assert shares[0] == shares[1];
    assert SplitTie(shares, 0, 1);
    SplitTieChangesText(encode, proposals, 0, 1);
    assert Permute(proposals, Swap(3, 0, 1)) == [b, a, c];
  }
}
