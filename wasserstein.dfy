/** Wasserstein (earth mover's) distance by a greedy transport: while both
    vectors still hold a positive entry, move as much "dirt" as possible from
    the first positive entry of the first vector into the first positive entry
    ("hole") of the second, paying the moved amount times the index gap. */
module Wasserstein {
  import opened Numerics

  /** The two working copies: the dirt still to move and the holes still to fill. */
  datatype Piles = Piles(dirt: seq<real>, holes: seq<real>)

  /** What the greedy transport leaves behind and what it pays. */
  datatype Outcome = Outcome(remaining: Piles, work: real)

  /** The least index at or after `i` holding a positive value, or -1. Zero and
      negative entries are skipped. */
  function FirstPositiveFrom(v: seq<real>, i: nat): (r: int)
    requires i <= |v|
    ensures r == -1 || (i <= r < |v| && v[r] > 0.0)
    ensures forall k :: i <= k < (if r == -1 then |v| else r) ==> v[k] <= 0.0
    decreases |v| - i
  {
    if i == |v| then -1
    else if v[i] > 0.0 then i
    else FirstPositiveFrom(v, i + 1)
  }

  function FirstPositive(v: seq<real>): int {
    FirstPositiveFrom(v, 0)
  }

  /** The number of positive entries among the first n. */
  function PositivesTo(v: seq<real>, n: nat): nat
    requires n <= |v|
  {
    if n == 0 then 0 else PositivesTo(v, n - 1) + (if v[n - 1] > 0.0 then 1 else 0)
  }

  function Positives(v: seq<real>): nat {
    PositivesTo(v, |v|)
  }

  /** The amount moved from dirt[di] into holes[hi]: the smaller of the two. */
  function Flow(p: Piles, di: nat, hi: nat): real
    requires di < |p.dirt| && hi < |p.holes|
  {
    if p.dirt[di] <= p.holes[hi] then p.dirt[di] else p.holes[hi]
  }

  /** Math.Abs(di - hi), the distance the flow travels. */
  function Gap(di: nat, hi: nat): nat {
    if di >= hi then di - hi else hi - di
  }

  /** MoveDirt on the piles: the smaller side is emptied and the other loses the
      same amount. */
  function Move(p: Piles, di: nat, hi: nat): Piles
    requires di < |p.dirt| && hi < |p.holes|
  {
    if p.dirt[di] <= p.holes[hi] then
      Piles(p.dirt[di := 0.0], p.holes[hi := p.holes[hi] - p.dirt[di]])
    else
      Piles(p.dirt[di := p.dirt[di] - p.holes[hi]], p.holes[hi := 0.0])
  }

  /** The work one move pays. */
  function StepWork(p: Piles, di: nat, hi: nat): real
    requires di < |p.dirt| && hi < |p.holes|
  {
    Flow(p, di, hi) * Gap(di, hi) as real
  }

  /** The whole transport: moves until one of the piles has no positive entry. */
  function Greedy(p: Piles): Outcome
    decreases Positives(p.dirt) + Positives(p.holes)
  {
    var from := FirstPositive(p.dirt);
    var to := FirstPositive(p.holes);
    if from == -1 || to == -1 then Outcome(p, 0.0)
    else
      MoveDecreases(p, from, to);
      var rest := Greedy(Move(p, from, to));
      Outcome(rest.remaining, StepWork(p, from, to) + rest.work)
  }

  /** The metric: the total work of the greedy transport. */
  function Distance(data1: seq<real>, data2: seq<real>): real {
    Greedy(Piles(data1, data2)).work
  }

  /** The metric hook: the work is done on copies of the two vectors. */
  method ComputeDistance(data1: seq<real>, data2: seq<real>) returns (d: real)
    ensures d == Distance(data1, data2)
  {
    var dirt := new real[|data1|](i requires 0 <= i < |data1| => data1[i]);
    var holes := new real[|data2|](i requires 0 <= i < |data2| => data2[i]);
    assert dirt[..] == data1 && holes[..] == data2;
    var totalWork := 0.0;
    while true
      invariant totalWork + Greedy(Piles(dirt[..], holes[..])).work == Distance(data1, data2)
      decreases Positives(dirt[..]) + Positives(holes[..])
    {
      var fromIdx := FirstNonZero(dirt);
      var toIdx := FirstNonZero(holes);
      if fromIdx == -1 || toIdx == -1 {
        break;
      }
      MoveDecreases(Piles(dirt[..], holes[..]), fromIdx, toIdx);
      var work := MoveDirt(dirt, fromIdx, holes, toIdx);
      totalWork := totalWork + work;
    }
    d := totalWork;
  }

  /** A linear scan for the first positive entry, returning early. */
  method FirstNonZero(vec: array<real>) returns (r: int)
    ensures r == FirstPositive(vec[..])
  {
    for i := 0 to vec.Length
      invariant forall k :: 0 <= k < i ==> vec[k] <= 0.0
    {
      if vec[i] > 0.0 {
        return i;
      }
    }
    return -1;
  }

  /** One move, in place on the two (distinct) working arrays. */
  method MoveDirt(dirt: array<real>, di: nat, holes: array<real>, hi: nat) returns (work: real)
    requires dirt != holes && di < dirt.Length && hi < holes.Length
    modifies dirt, holes
    ensures Piles(dirt[..], holes[..]) == Move(Piles(old(dirt[..]), old(holes[..])), di, hi)
    ensures work == StepWork(Piles(old(dirt[..]), old(holes[..])), di, hi)
  {
    var flow := 0.0;
    if dirt[di] <= holes[hi] {
      flow := dirt[di];
      dirt[di] := 0.0;
      holes[hi] := holes[hi] - flow;
    } else {
      flow := holes[hi];
      dirt[di] := dirt[di] - flow;
      holes[hi] := 0.0;
    }
    var dist := if di >= hi then di - hi else hi - di;
    work := flow * dist as real;
  }

  /** Overwriting entry k changes the positive count by what k loses and gains. */
  lemma {:induction false} PositivesUpdate(v: seq<real>, k: nat, x: real, n: nat)
    requires k < |v| && n <= |v|
    ensures PositivesTo(v[k := x], n) ==
      PositivesTo(v, n) + (if k < n then (if x > 0.0 then 1 else 0) - (if v[k] > 0.0 then 1 else 0) else 0)
  {
    if n > 0 {
      PositivesUpdate(v, k, x, n - 1);
    }
  }

  /** Overwriting entry k changes the sum by the difference. */
  lemma {:induction false} SumUpdate(v: seq<real>, k: nat, x: real, n: nat)
    requires k < |v| && n <= |v|
    ensures SumTo(v[k := x], n) == SumTo(v, n) + (if k < n then x - v[k] else 0.0)
  {
    if n > 0 {
      SumUpdate(v, k, x, n - 1);
    }
  }

  /** A move between two positive entries moves a positive amount, empties one
      of them, leaves the other non-negative, and so removes at least one
      positive entry from the piles. */
  lemma MoveDecreases(p: Piles, di: nat, hi: nat)
    requires di < |p.dirt| && hi < |p.holes| && p.dirt[di] > 0.0 && p.holes[hi] > 0.0
    ensures Flow(p, di, hi) > 0.0
    ensures Positives(Move(p, di, hi).dirt) + Positives(Move(p, di, hi).holes)
      < Positives(p.dirt) + Positives(p.holes)
  {
    var q := Move(p, di, hi);
    PositivesUpdate(p.dirt, di, q.dirt[di], |p.dirt|);
    PositivesUpdate(p.holes, hi, q.holes[hi], |p.holes|);
  }

  /** A move takes the flow out of dirt[di] and out of holes[hi], exhausts one
      of the two, and changes no other entry. */
  lemma MoveTransfersFlow(p: Piles, di: nat, hi: nat)
    requires di < |p.dirt| && hi < |p.holes|
    ensures |Move(p, di, hi).dirt| == |p.dirt| && |Move(p, di, hi).holes| == |p.holes|
    ensures Move(p, di, hi).dirt[di] == p.dirt[di] - Flow(p, di, hi)
    ensures Move(p, di, hi).holes[hi] == p.holes[hi] - Flow(p, di, hi)
    ensures Move(p, di, hi).dirt[di] == 0.0 || Move(p, di, hi).holes[hi] == 0.0
    ensures forall k :: 0 <= k < |p.dirt| && k != di ==> Move(p, di, hi).dirt[k] == p.dirt[k]
    ensures forall k :: 0 <= k < |p.holes| && k != hi ==> Move(p, di, hi).holes[k] == p.holes[k]
  {
  }

  lemma StepWorkNonNegative(p: Piles, di: nat, hi: nat)
    requires di < |p.dirt| && hi < |p.holes| && Flow(p, di, hi) >= 0.0
    ensures StepWork(p, di, hi) >= 0.0
  {
    var g := Gap(di, hi) as real;
    if g > 0.0 && Flow(p, di, hi) > 0.0 {
      MulPos(Flow(p, di, hi), g);
    }
  }

  /** Every move pays a non-negative amount, so the total work is non-negative. */
  lemma {:induction false} GreedyWorkNonNegative(p: Piles)
    ensures Greedy(p).work >= 0.0
    decreases Positives(p.dirt) + Positives(p.holes)
  {
    var from := FirstPositive(p.dirt);
    var to := FirstPositive(p.holes);
    if from != -1 && to != -1 {
      MoveDecreases(p, from, to);
      StepWorkNonNegative(p, from, to);
      GreedyWorkNonNegative(Move(p, from, to));
    }
  }

  /** When the transport stops, one of the two piles has no positive entry left,
      and both keep their lengths. */
  lemma {:induction false} GreedyExhausts(p: Piles)
    ensures |Greedy(p).remaining.dirt| == |p.dirt| && |Greedy(p).remaining.holes| == |p.holes|
    ensures (forall k :: 0 <= k < |p.dirt| ==> Greedy(p).remaining.dirt[k] <= 0.0)
         || (forall k :: 0 <= k < |p.holes| ==> Greedy(p).remaining.holes[k] <= 0.0)
    decreases Positives(p.dirt) + Positives(p.holes)
  {
    var from := FirstPositive(p.dirt);
    var to := FirstPositive(p.holes);
    if from != -1 && to != -1 {
      MoveDecreases(p, from, to);
      GreedyExhausts(Move(p, from, to));
    }
  }

  /** Mass is conserved: as much leaves the dirt as leaves the holes. */
  lemma {:induction false} GreedyConservesMass(p: Piles)
    ensures Sum(p.dirt) - Sum(Greedy(p).remaining.dirt) == Sum(p.holes) - Sum(Greedy(p).remaining.holes)
    decreases Positives(p.dirt) + Positives(p.holes)
  {
    var from := FirstPositive(p.dirt);
    var to := FirstPositive(p.holes);
    if from != -1 && to != -1 {
      MoveDecreases(p, from, to);
      var q := Move(p, from, to);
      SumUpdate(p.dirt, from, q.dirt[from], |p.dirt|);
      SumUpdate(p.holes, to, q.holes[to], |p.holes|);
      GreedyConservesMass(q);
    }
  }

  /** No dirt entry ever grows; a non-positive one is never touched; a positive
      one never drops below 0. */
  lemma {:induction false} GreedyOnlyRemovesDirt(p: Piles)
    ensures |Greedy(p).remaining.dirt| == |p.dirt|
    ensures forall k :: 0 <= k < |p.dirt| ==>
      Greedy(p).remaining.dirt[k] <= p.dirt[k]
      && (p.dirt[k] <= 0.0 ==> Greedy(p).remaining.dirt[k] == p.dirt[k])
      && (p.dirt[k] > 0.0 ==> Greedy(p).remaining.dirt[k] >= 0.0)
    decreases Positives(p.dirt) + Positives(p.holes)
  {
    var from := FirstPositive(p.dirt);
    var to := FirstPositive(p.holes);
    if from != -1 && to != -1 {
      MoveDecreases(p, from, to);
      MoveTransfersFlow(p, from, to);
      GreedyOnlyRemovesDirt(Move(p, from, to));
    }
  }

  /** Likewise for the holes: they only lose mass, never below 0. */
  lemma {:induction false} GreedyOnlyRemovesHoles(p: Piles)
    ensures |Greedy(p).remaining.holes| == |p.holes|
    ensures forall k :: 0 <= k < |p.holes| ==>
      Greedy(p).remaining.holes[k] <= p.holes[k]
      && (p.holes[k] <= 0.0 ==> Greedy(p).remaining.holes[k] == p.holes[k])
      && (p.holes[k] > 0.0 ==> Greedy(p).remaining.holes[k] >= 0.0)
    decreases Positives(p.dirt) + Positives(p.holes)
  {
    var from := FirstPositive(p.dirt);
    var to := FirstPositive(p.holes);
    if from != -1 && to != -1 {
      MoveDecreases(p, from, to);
      MoveTransfersFlow(p, from, to);
      GreedyOnlyRemovesHoles(Move(p, from, to));
    }
  }

  /** With equal piles every move stays on one index, costs nothing and keeps
      the piles equal. */
  lemma {:induction false} GreedyIdentical(v: seq<real>)
    ensures Greedy(Piles(v, v)).work == 0.0
    decreases Positives(v) + Positives(v)
  {
    var p := Piles(v, v);
    var from := FirstPositive(v);
    if from != -1 {
      MoveDecreases(p, from, from);
      assert Move(p, from, from) == Piles(v[from := 0.0], v[from := 0.0]);
      GreedyIdentical(v[from := 0.0]);
    }
  }

  /** The piles with the roles of dirt and holes exchanged. */
  function Swap(p: Piles): Piles {
    Piles(p.holes, p.dirt)
  }

  /** A move is the same move seen from the other side: the same flow over the
      same gap, with the emptied and the reduced entry exchanged. */
  lemma MoveSwap(p: Piles, di: nat, hi: nat)
    requires di < |p.dirt| && hi < |p.holes|
    ensures Move(Swap(p), hi, di) == Swap(Move(p, di, hi))
    ensures StepWork(Swap(p), hi, di) == StepWork(p, di, hi)
  {
  }

  /** Exchanging the two vectors exchanges what is left over and costs the same. */
  lemma {:induction false} GreedySwap(p: Piles)
    ensures Greedy(Swap(p)) == Outcome(Swap(Greedy(p).remaining), Greedy(p).work)
    decreases Positives(p.dirt) + Positives(p.holes)
  {
    var from := FirstPositive(p.dirt);
    var to := FirstPositive(p.holes);
    if from != -1 && to != -1 {
      MoveDecreases(p, from, to);
      MoveSwap(p, from, to);
      GreedySwap(Move(p, from, to));
    }
  }

  lemma DistanceSymmetric(data1: seq<real>, data2: seq<real>)
    ensures Distance(data1, data2) == Distance(data2, data1)
  {
    GreedySwap(Piles(data1, data2));
  }

  lemma DistanceNonNegative(data1: seq<real>, data2: seq<real>)
    ensures Distance(data1, data2) >= 0.0
  {
    GreedyWorkNonNegative(Piles(data1, data2));
  }

  lemma DistanceIdentical(data: seq<real>)
    ensures Distance(data, data) == 0.0
  {
    GreedyIdentical(data);
  }
}
