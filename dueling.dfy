/** The dueling heads (`Dueling`, `DuelingAlt`). Per batch row, a state value V
    and per-action advantages A are recombined as Q = V + (A - mean(A)). The
    branches are arbitrary per-row functions here: their linear layers and ReLUs
    are the layer factory's business, not the head's. Inputs are the rows of the
    already flattened feature batch. */
module Dueling {
  import opened Tensors

  /** One batch row of the aggregation: value + (advantages - mean(advantages)).
      The mean over actions of the result is the value, and the differences between
      actions are those of the advantages. Without actions the row is empty: the
      mean is NaN, but broadcasting it against no entries leaves none. */
  function Combine(value: real, advantages: Vector): (q: Vector)
    ensures |q| == |advantages|
    ensures |q| > 0 ==> Mean(q) == value
    ensures forall i, j :: 0 <= i < |q| && 0 <= j < |q| ==> q[i] - q[j] == advantages[i] - advantages[j]
  {
    if |advantages| == 0 then [] else
    var m := Mean(advantages);
    var q := seq(|advantages|, i requires 0 <= i < |advantages| => value + (advantages[i] - m));
    assert q == AddConst(advantages, value - m);
    MeanAddConst(advantages, value - m);
    q
  }

  /** Adding the same constant to every advantage of a row leaves the row's Q unchanged. */
  lemma CombineShiftInvariant(value: real, advantages: Vector, c: real)
    ensures Combine(value, AddConst(advantages, c)) == Combine(value, advantages)
  {
    if |advantages| > 0 {
      MeanAddConst(advantages, c);
    }
  }

  /** The decomposition is identifiable: equal Q rows come from equal values. */
  lemma CombineDeterminesValue(v1: real, a1: Vector, v2: real, a2: Vector)
    requires |a1| > 0 && |a2| > 0
    requires Combine(v1, a1) == Combine(v2, a2)
    ensures v1 == v2
  {
  }

  /** k is a greedy action of s. */
  predicate IsArgmax(s: Vector, k: nat) {
    k < |s| && forall j :: 0 <= j < |s| ==> s[j] <= s[k]
  }

  /** The greedy action of a Q row is the greedy action of its advantages. */
  lemma CombinePreservesArgmax(value: real, advantages: Vector, k: nat)
    ensures IsArgmax(Combine(value, advantages), k) <==> IsArgmax(advantages, k)
  {
    var q := Combine(value, advantages);
    if k < |q| {
      forall j | 0 <= j < |q|
        ensures q[j] <= q[k] <==> advantages[j] <= advantages[k]
      {
        assert q[j] - q[k] == advantages[j] - advantages[k];
      }
    }
  }

  /** `Dueling.forward` on a batch of flattened feature rows. With
      `advantagesOnly` the advantage branch's output is returned as it is;
      otherwise each row is `Combine`d with its value, which leaves empty rows
      when there are no actions. */
  function DuelingForward(features: Matrix, valueBranch: Vector -> real, advantageBranch: Vector -> Vector,
                          actions: nat, advantagesOnly: bool): (q: Matrix)
    requires forall b :: 0 <= b < |features| ==> |advantageBranch(features[b])| == actions
    ensures |q| == |features|
    ensures forall b :: 0 <= b < |features| ==> |q[b]| == actions
    ensures advantagesOnly ==> forall b :: 0 <= b < |features| ==> q[b] == advantageBranch(features[b])
    ensures !advantagesOnly ==> forall b :: 0 <= b < |features| ==>
      && (actions > 0 ==> Mean(q[b]) == valueBranch(features[b]))
      && forall i, j :: 0 <= i < actions && 0 <= j < actions ==>
           q[b][i] - q[b][j] == advantageBranch(features[b])[i] - advantageBranch(features[b])[j]
  {
    var advantages := seq(|features|, b requires 0 <= b < |features| => advantageBranch(features[b]));
    if advantagesOnly then advantages
    else seq(|features|, b requires 0 <= b < |features| => Combine(valueBranch(features[b]), advantages[b]))
  }

  /** The advantages-only fast path picks the same greedy action as the full head. */
  lemma GreedyActionAgrees(features: Matrix, valueBranch: Vector -> real, advantageBranch: Vector -> Vector,
                           actions: nat, b: nat, k: nat)
    requires forall r :: 0 <= r < |features| ==> |advantageBranch(features[r])| == actions
    requires b < |features|
    ensures IsArgmax(DuelingForward(features, valueBranch, advantageBranch, actions, false)[b], k)
        <==> IsArgmax(DuelingForward(features, valueBranch, advantageBranch, actions, true)[b], k)
  {
    CombinePreservesArgmax(valueBranch(features[b]), advantageBranch(features[b]), k);
  }

  /** `DuelingAlt.forward`: the final stage's column 0 is the value and columns 1..
      are the advantages; `advantagesOnly` is accepted and ignored. The result has
      one column fewer than the final stage, and none when the final stage has no
      column: the value slice is then empty and broadcasts to nothing. */
  function DuelingAltForward(features: Matrix, main: Vector -> Vector, width: nat, advantagesOnly: bool): (q: Matrix)
    requires forall b :: 0 <= b < |features| ==> |main(features[b])| == width
    ensures |q| == |features|
    ensures width == 0 ==> forall b :: 0 <= b < |features| ==> q[b] == []
    ensures width > 0 ==> forall b :: 0 <= b < |features| ==>
      && |q[b]| == width - 1
      && (width > 1 ==> Mean(q[b]) == main(features[b])[0])
      && forall i, j :: 0 <= i < width - 1 && 0 <= j < width - 1 ==>
           q[b][i] - q[b][j] == main(features[b])[i + 1] - main(features[b])[j + 1]
  {
    seq(|features|, b requires 0 <= b < |features| =>
      if width == 0 then [] else Combine(main(features[b])[0], main(features[b])[1..]))
  }

  /** The two formulations agree: when the final stage emits the value followed by
      the advantages, `DuelingAlt` computes the full (not advantages-only) `Dueling`
      output, whatever flag it is given. */
  lemma DuelingAltIsDueling(features: Matrix, main: Vector -> Vector, width: nat,
                            valueBranch: Vector -> real, advantageBranch: Vector -> Vector, advantagesOnly: bool)
    requires width >= 1
    requires forall b :: 0 <= b < |features| ==>
      main(features[b]) == [valueBranch(features[b])] + advantageBranch(features[b])
    requires forall b :: 0 <= b < |features| ==> |advantageBranch(features[b])| == width - 1
    ensures DuelingAltForward(features, main, width, advantagesOnly)
         == DuelingForward(features, valueBranch, advantageBranch, width - 1, false)
  {
    var alt := DuelingAltForward(features, main, width, advantagesOnly);
    var duel := DuelingForward(features, valueBranch, advantageBranch, width - 1, false);
    forall b | 0 <= b < |features|
      ensures alt[b] == duel[b]
    {
      var row := main(features[b]);
      assert row[0] == valueBranch(features[b]);
      assert row[1..] == advantageBranch(features[b]);
    }
  }
}
