/**
 Greedy filling: put items into the current piece while they fit the limit, else start a new
 one. An item that alone exceeds the limit gets a piece of its own. Line wrapping fills lines
 with runes and pagination fills pages with lines.
 */
module Greedy {

  ghost predicate NotNegative(weights: seq<real>) {
    forall k :: 0 <= k < |weights| ==> weights[k] >= 0.0
  }

  /** The weight of the items from `i` up to `j`, added up from the left. */
  function Weight(weights: seq<real>, i: nat, j: nat): real
    requires i <= j <= |weights|
  {
    if i == j then 0.0 else Weight(weights, i, j - 1) + weights[j - 1]
  }

  /** The end of the piece that starts at `i` and has taken the items before `j`, which weigh `taken`. */
  function End(weights: seq<real>, limit: real, i: nat, j: nat, taken: real): (end: nat)
    requires i <= j <= |weights|
    ensures j <= end <= |weights|
    ensures i == j < |weights| ==> end > i
    decreases |weights| - j
  {
    if j == |weights| || (taken + weights[j] > limit && j > i) then j
    else End(weights, limit, i, j + 1, taken + weights[j])
  }

  function PieceEnd(weights: seq<real>, limit: real, i: nat): (end: nat)
    requires i < |weights|
    ensures i < end <= |weights|
  {
    End(weights, limit, i, i, 0.0)
  }

  /** How many pieces greedy filling makes of the items from `i` on. */
  function Pieces(weights: seq<real>, limit: real, i: nat): nat
    requires i <= |weights|
    decreases |weights| - i
  {
    if i == |weights| then 0 else 1 + Pieces(weights, limit, PieceEnd(weights, limit, i))
  }

  /** A piece fits the limit or is a single item. */
  predicate Fits(weights: seq<real>, limit: real, i: nat, j: nat)
    requires i <= j <= |weights|
  {
    Weight(weights, i, j) <= limit || j == i + 1
  }

  /** `cuts[k..]` are the ends of nonempty fitting pieces of the items from `i` on. */
  predicate Split(weights: seq<real>, limit: real, i: nat, cuts: seq<nat>, k: nat)
    requires i <= |weights| && k <= |cuts|
    decreases |cuts| - k
  {
    if k == |cuts| then i == |weights|
    else i < cuts[k] <= |weights| && Fits(weights, limit, i, cuts[k]) && Split(weights, limit, cuts[k], cuts, k + 1)
  }

  lemma {:induction false} WeightSplit(weights: seq<real>, i: nat, m: nat, j: nat)
    requires i <= m <= j <= |weights|
    ensures Weight(weights, i, j) == Weight(weights, i, m) + Weight(weights, m, j)
    decreases j - m
  {
    if m < j {
      WeightSplit(weights, i, m, j - 1);
    }
  }

  lemma {:induction false} WeightNotNegative(weights: seq<real>, i: nat, j: nat)
    requires NotNegative(weights) && i <= j <= |weights|
    ensures Weight(weights, i, j) >= 0.0
    decreases j - i
  {
    if i < j {
      WeightNotNegative(weights, i, j - 1);
    }
  }

  /** Every greedy piece fits. */
  lemma {:induction false} EndFits(weights: seq<real>, limit: real, i: nat, j: nat)
    requires i <= j <= |weights| && i < |weights|
    requires i < j ==> Fits(weights, limit, i, j)
    ensures Fits(weights, limit, i, End(weights, limit, i, j, Weight(weights, i, j)))
    decreases |weights| - j
  {
    if j < |weights| && !(Weight(weights, i, j) + weights[j] > limit && j > i) {
      assert Weight(weights, i, j + 1) == Weight(weights, i, j) + weights[j];
      EndFits(weights, limit, i, j + 1);
    }
  }

  /** A greedy piece reaches at least as far as any fitting piece from the same start. */
  lemma {:induction false} EndIsFarthest(weights: seq<real>, limit: real, i: nat, j: nat, c: nat)
    requires NotNegative(weights) && i <= j <= c <= |weights| && i < c && Fits(weights, limit, i, c)
    ensures End(weights, limit, i, j, Weight(weights, i, j)) >= c
    decreases c - j
  {
    if j < c {
      assert Weight(weights, i, j + 1) == Weight(weights, i, j) + weights[j];
      WeightSplit(weights, i, j + 1, c);
      WeightNotNegative(weights, j + 1, c);
      EndIsFarthest(weights, limit, i, j + 1, c);
    }
  }

  lemma FitsInside(weights: seq<real>, limit: real, i: nat, g: nat, c: nat)
    requires NotNegative(weights) && i <= g < c <= |weights| && Fits(weights, limit, i, c)
    ensures Fits(weights, limit, g, c)
  {
    WeightSplit(weights, i, g, c);
    WeightNotNegative(weights, i, g);
  }

  /** Greedy filling stays ahead: from `g` on it needs no more pieces than any split from an `i` not beyond `g`. */
  lemma {:induction false} StaysAhead(weights: seq<real>, limit: real, i: nat, g: nat, cuts: seq<nat>, k: nat)
    requires NotNegative(weights) && i <= g <= |weights| && k <= |cuts| && Split(weights, limit, i, cuts, k)
    ensures Pieces(weights, limit, g) <= |cuts| - k
    decreases |cuts| - k
  {
    if g < |weights| {
      assert k < |cuts|;
      var c, end := cuts[k], PieceEnd(weights, limit, g);
      if g < c {
        FitsInside(weights, limit, i, g, c);
        EndIsFarthest(weights, limit, g, g, c);
      }
      StaysAhead(weights, limit, c, end, cuts, k + 1);
    }
  }

  /** No split into fitting pieces has fewer pieces than the greedy one. */
  lemma GreedyIsOptimal(weights: seq<real>, limit: real, cuts: seq<nat>)
    requires NotNegative(weights) && Split(weights, limit, 0, cuts, 0)
    ensures Pieces(weights, limit, 0) <= |cuts|
  {
    StaysAhead(weights, limit, 0, 0, cuts, 0);
  }
}
