/** How the fill loop divides its items into batches (src/main.rs:122-143):
    a batch takes at most `batchSz` of the items still remaining, and the loop
    stops after the first batch that leaves none. */
module Batching {

  /** Whether the fill loop stops when it starts with `remaining` items. */
  predicate Ends(remaining: nat, batchSz: nat)
  {
    batchSz > 0 || remaining == 0
  }

  /** The number of puts in each batch, in order, when the loop starts with
      `remaining` items: a batch puts `batchSz` items while more than that
      remain, and then the rest. There is always at least one batch: with
      nothing to insert the loop still commits one empty transaction. */
  function Schedule(remaining: nat, batchSz: nat): (sizes: seq<nat>)
    requires Ends(remaining, batchSz)
    decreases remaining
    ensures |sizes| >= 1
  {
    if remaining <= batchSz then [remaining]
    else [batchSz] + Schedule(remaining - batchSz, batchSz)
  }

  function Last(s: seq<nat>): (x: nat)
    requires |s| > 0
  {
    s[|s| - 1]
  }

  function Sum(s: seq<nat>): (total: nat)
  {
    if |s| == 0 then 0 else s[0] + Sum(s[1..])
  }

  lemma {:induction false} SumAppend(a: seq<nat>, b: seq<nat>)
    ensures Sum(a + b) == Sum(a) + Sum(b)
  {
    if a == [] {
      assert a + b == b;
    } else {
      assert (a + b)[1..] == a[1..] + b;
      SumAppend(a[1..], b);
    }
  }

  /** Every item is put exactly once: the batch sizes add up to the items
      requested. */
  lemma {:induction false} ScheduleSum(remaining: nat, batchSz: nat)
    requires Ends(remaining, batchSz)
    ensures Sum(Schedule(remaining, batchSz)) == remaining
    decreases remaining
  {
    if remaining > batchSz {
      ScheduleSum(remaining - batchSz, batchSz);
    }
  }

  /** No batch is larger than `batchSz`, and every batch but the last is
      exactly `batchSz`, so the printed "Commit batchSz items" is accurate. */
  lemma {:induction false} ScheduleBounds(remaining: nat, batchSz: nat)
    requires Ends(remaining, batchSz)
    ensures forall i :: 0 <= i < |Schedule(remaining, batchSz)| ==> Schedule(remaining, batchSz)[i] <= batchSz
    ensures forall i :: 0 <= i < |Schedule(remaining, batchSz)| - 1 ==> Schedule(remaining, batchSz)[i] == batchSz
    decreases remaining
  {
    var left := remaining - batchSz;
    if remaining > batchSz {
      ScheduleBounds(left, batchSz);
      var s := Schedule(remaining, batchSz);
      var t := Schedule(left, batchSz);
      assert s == [batchSz] + t;
      forall i | 1 <= i < |s|
        ensures s[i] == t[i - 1] && s[i] <= batchSz && (i < |s| - 1 ==> s[i] == batchSz)
      {
        assert s[i] == t[i - 1];
      }
      assert s[0] == batchSz;
    }
  }

  /** The last batch holds what the full batches before it leave over:
      between 1 and `batchSz` items when there is anything to insert; with
      nothing to insert the only batch is empty. */
  lemma {:induction false} ScheduleLast(remaining: nat, batchSz: nat)
    requires Ends(remaining, batchSz)
    ensures Last(Schedule(remaining, batchSz)) == remaining - batchSz * (|Schedule(remaining, batchSz)| - 1)
    ensures remaining > 0 ==> 1 <= Last(Schedule(remaining, batchSz)) <= batchSz
    ensures remaining == 0 ==> Schedule(remaining, batchSz) == [0]
    decreases remaining
  {
    var s := Schedule(remaining, batchSz);
    var left := remaining - batchSz;
    if remaining <= batchSz {
      assert s == [remaining];
      assert batchSz * (|s| - 1) == 0;
    } else {
      ScheduleLast(left, batchSz);
      var t := Schedule(left, batchSz);
      assert s == [batchSz] + t;
      assert Last(s) == Last(t);
      var k := |t|;
      assert |s| - 1 == k;
      MulSucc(batchSz, k - 1);
      assert batchSz * k == batchSz * (k - 1) + batchSz;
    }
  }

  lemma MulSucc(b: nat, x: nat)
    ensures b * (x + 1) == b * x + b
  {
  }

  lemma {:induction false} MulGrows(b: nat, x: nat, y: nat)
    requires x < y
    ensures b * x + b <= b * y
    decreases y - x
  {
    if x + 1 < y {
      MulGrows(b, x + 1, y);
      assert b * (x + 1) == b * x + b;
    } else {
      assert b * y == b * x + b;
    }
  }

  lemma DivisionExact(a: nat, b: nat, q: nat)
    requires b > 0
    requires b * q <= a < b * q + b
    ensures a / b == q
  {
    var r := a / b;
    assert a == b * r + a % b && 0 <= a % b < b;
    if r < q {
      MulGrows(b, r, q);
    } else if r > q {
      MulGrows(b, q, r);
    }
  }

  /** With something to insert, the loop commits ceil(remaining / batchSz)
      batches: k batches, where `batchSz * (k - 1) < remaining <= batchSz * k`. */
  lemma ScheduleLength(remaining: nat, batchSz: nat)
    requires Ends(remaining, batchSz)
    requires remaining > 0
    ensures var k := |Schedule(remaining, batchSz)|;
      && batchSz * (k - 1) < remaining <= batchSz * k
      && k == (remaining + batchSz - 1) / batchSz
  {
    var s := Schedule(remaining, batchSz);
    var k := |s|;
    ScheduleLast(remaining, batchSz);
    assert batchSz * k == batchSz * (k - 1) + batchSz by {
      assert k == (k - 1) + 1;
    }
    DivisionExact(remaining + batchSz - 1, batchSz, k);
  }

  /** Items still to insert after `k` passes of the fill loop: a pass puts
      `batchSz` items, or all of them when no more than that remain. */
  function RemainingAfter(remaining: nat, batchSz: nat, k: nat): (left: nat)
  {
    if k == 0 then remaining
    else RemainingAfter(if remaining <= batchSz then 0 else remaining - batchSz, batchSz, k - 1)
  }

  /** When the loop ends, it ends after exactly one pass per scheduled batch:
      before that the count of remaining items is still positive after every
      pass, and after the last one it is zero. */
  lemma {:induction false} LoopPassesMatchSchedule(remaining: nat, batchSz: nat)
    requires Ends(remaining, batchSz)
    ensures var k := |Schedule(remaining, batchSz)|;
      && RemainingAfter(remaining, batchSz, k) == 0
      && forall j :: 1 <= j < k ==> RemainingAfter(remaining, batchSz, j) > 0
    decreases remaining
  {
    var left := remaining - batchSz;
    if remaining > batchSz {
      LoopPassesMatchSchedule(left, batchSz);
      var k := |Schedule(remaining, batchSz)|;
      forall j | 1 <= j < k
        ensures RemainingAfter(remaining, batchSz, j) > 0
      {
        assert RemainingAfter(remaining, batchSz, j) == RemainingAfter(left, batchSz, j - 1);
      }
    }
  }

  /** With a batch size of 0 and something to insert, the loop never ends: no
      number of passes brings the remaining count down. */
  lemma {:induction false} ZeroBatchNeverEnds(remaining: nat, k: nat)
    requires remaining > 0
    ensures RemainingAfter(remaining, 0, k) == remaining
  {
    if k > 0 {
      ZeroBatchNeverEnds(remaining, k - 1);
    }
  }
}
