/**
 * The item/failure split shared by the request builder and the PNG upload:
 * each input yields one outcome, and the outcomes are sorted into an
 * `items` list and a `failures` list that both keep input order.
 */
module Outcomes {
  datatype Outcome<I, F> = Item(item: I) | Failure(failure: F)

  function Items<I, F>(os: seq<Outcome<I, F>>): seq<I> {
    if |os| == 0 then []
    else (if os[0].Item? then [os[0].item] else []) + Items(os[1..])
  }

  function Failures<I, F>(os: seq<Outcome<I, F>>): seq<F> {
    if |os| == 0 then []
    else (if os[0].Failure? then [os[0].failure] else []) + Failures(os[1..])
  }

  /** Every outcome lands in exactly one of the two lists. */
  lemma {:induction false} ItemsAndFailuresPartition<I, F>(os: seq<Outcome<I, F>>)
    ensures |Items(os)| + |Failures(os)| == |os|
  {
    if |os| > 0 {
      ItemsAndFailuresPartition(os[1..]);
    }
  }

  /** Every listed item or failure is one of the outcomes. */
  lemma {:induction false} ListedOutcomesOccur<I, F>(os: seq<Outcome<I, F>>)
    ensures forall it :: it in Items(os) ==> Item(it) in os
    ensures forall f :: f in Failures(os) ==> Failure(f) in os
  {
    if |os| > 0 {
      ListedOutcomesOccur(os[1..]);
      assert os == [os[0]] + os[1..];
    }
  }

  /** When nothing fails, the items are the outcomes' items position by position. */
  lemma {:induction false} NoFailureKeepsAll<I, F>(os: seq<Outcome<I, F>>)
    requires forall i :: 0 <= i < |os| ==> os[i].Item?
    ensures Failures(os) == []
    ensures |Items(os)| == |os| && forall i :: 0 <= i < |os| ==> Items(os)[i] == os[i].item
  {
    if |os| > 0 {
      NoFailureKeepsAll(os[1..]);
    }
  }

  /** When everything fails, the failures are the outcomes' failures position by position. */
  lemma {:induction false} AllFailedKeepsAll<I, F>(os: seq<Outcome<I, F>>)
    requires forall i :: 0 <= i < |os| ==> os[i].Failure?
    ensures Items(os) == []
    ensures |Failures(os)| == |os| && forall i :: 0 <= i < |os| ==> Failures(os)[i] == os[i].failure
  {
    if |os| > 0 {
      AllFailedKeepsAll(os[1..]);
    }
  }

  // ---------------------------------------------------------------------------
  // Input order
  // ---------------------------------------------------------------------------

  predicate Increasing(xs: seq<nat>) {
    forall a, b :: 0 <= a < b < |xs| ==> xs[a] < xs[b]
  }

  function Shift(xs: seq<nat>, d: nat): (r: seq<nat>)
    ensures |r| == |xs| && forall k :: 0 <= k < |xs| ==> r[k] == xs[k] + d
  {
    seq(|xs|, k requires 0 <= k < |xs| => xs[k] + d)
  }

  /** The input positions whose outcome is an item. */
  function ItemPositions<I, F>(os: seq<Outcome<I, F>>): seq<nat> {
    if |os| == 0 then []
    else (if os[0].Item? then [0] else []) + Shift(ItemPositions(os[1..]), 1)
  }

  /** The input positions whose outcome is a failure. */
  function FailurePositions<I, F>(os: seq<Outcome<I, F>>): seq<nat> {
    if |os| == 0 then []
    else (if os[0].Failure? then [0] else []) + Shift(FailurePositions(os[1..]), 1)
  }

  /**
   * The k-th item comes from the k-th input that succeeded: the items are
   * the successful outcomes, all of them, in input order.
   */
  lemma ItemsFollowInputOrder<I, F>(os: seq<Outcome<I, F>>)
    ensures |ItemPositions(os)| == |Items(os)| && Increasing(ItemPositions(os))
    ensures forall k :: 0 <= k < |Items(os)| ==>
      ItemPositions(os)[k] < |os| && os[ItemPositions(os)[k]] == Item(Items(os)[k])
    ensures forall i :: 0 <= i < |os| && os[i].Item? ==> i in ItemPositions(os)
  {
    ItemPositionsIncrease(os);
    ItemPositionsLocate(os);
    ItemPositionsComplete(os);
  }

  /** The k-th failure comes from the k-th input that failed: all of them, in input order. */
  lemma FailuresFollowInputOrder<I, F>(os: seq<Outcome<I, F>>)
    ensures |FailurePositions(os)| == |Failures(os)| && Increasing(FailurePositions(os))
    ensures forall k :: 0 <= k < |Failures(os)| ==>
      FailurePositions(os)[k] < |os| && os[FailurePositions(os)[k]] == Failure(Failures(os)[k])
    ensures forall i :: 0 <= i < |os| && os[i].Failure? ==> i in FailurePositions(os)
  {
    FailurePositionsIncrease(os);
    FailurePositionsLocate(os);
    FailurePositionsComplete(os);
  }

  lemma {:induction false} ItemPositionsIncrease<I, F>(os: seq<Outcome<I, F>>)
    ensures |ItemPositions(os)| == |Items(os)| && Increasing(ItemPositions(os))
    ensures forall k :: 0 <= k < |ItemPositions(os)| ==> ItemPositions(os)[k] < |os|
  {
    if |os| > 0 {
      ItemPositionsIncrease(os[1..]);
      var q := Shift(ItemPositions(os[1..]), 1);
      if os[0].Item? {
        assert ItemPositions(os) == [0] + q;
      } else {
        assert ItemPositions(os) == q;
      }
    }
  }

  lemma {:induction false} ItemPositionsLocate<I, F>(os: seq<Outcome<I, F>>)
    ensures |ItemPositions(os)| == |Items(os)|
    ensures forall k :: 0 <= k < |Items(os)| ==>
      ItemPositions(os)[k] < |os| && os[ItemPositions(os)[k]] == Item(Items(os)[k])
  {
    ItemPositionsIncrease(os);
    if |os| > 0 {
      var tail := os[1..];
      ItemPositionsLocate(tail);
      var q := Shift(ItemPositions(tail), 1);
      forall k | 0 <= k < |q|
        ensures os[q[k]] == Item(Items(tail)[k])
      {
        assert os[q[k]] == tail[q[k] - 1];
      }
      if os[0].Item? {
        assert ItemPositions(os) == [0] + q;
        assert Items(os) == [os[0].item] + Items(tail);
      } else {
        assert ItemPositions(os) == q;
      }
    }
  }

  lemma {:induction false} ItemPositionsComplete<I, F>(os: seq<Outcome<I, F>>)
    ensures forall i :: 0 <= i < |os| && os[i].Item? ==> i in ItemPositions(os)
  {
    if |os| > 0 {
      var tail := os[1..];
      ItemPositionsComplete(tail);
      var q := Shift(ItemPositions(tail), 1);
      var p := ItemPositions(os);
      assert forall x :: x in q ==> x in p by {
        if os[0].Item? {
          assert p == [0] + q;
        } else {
          assert p == q;
        }
      }
      forall i | 1 <= i < |os| && os[i].Item?
        ensures i in p
      {
        assert tail[i - 1] == os[i];
        assert i - 1 in ItemPositions(tail);
        var k :| 0 <= k < |ItemPositions(tail)| && ItemPositions(tail)[k] == i - 1;
        assert q[k] == i;
      }
      if os[0].Item? {
        assert p[0] == 0;
      }
    }
  }

  lemma {:induction false} FailurePositionsIncrease<I, F>(os: seq<Outcome<I, F>>)
    ensures |FailurePositions(os)| == |Failures(os)| && Increasing(FailurePositions(os))
    ensures forall k :: 0 <= k < |FailurePositions(os)| ==> FailurePositions(os)[k] < |os|
  {
    if |os| > 0 {
      FailurePositionsIncrease(os[1..]);
      var q := Shift(FailurePositions(os[1..]), 1);
      if os[0].Failure? {
        assert FailurePositions(os) == [0] + q;
      } else {
        assert FailurePositions(os) == q;
      }
    }
  }

  lemma {:induction false} FailurePositionsLocate<I, F>(os: seq<Outcome<I, F>>)
    ensures |FailurePositions(os)| == |Failures(os)|
    ensures forall k :: 0 <= k < |Failures(os)| ==>
      FailurePositions(os)[k] < |os| && os[FailurePositions(os)[k]] == Failure(Failures(os)[k])
  {
    FailurePositionsIncrease(os);
    if |os| > 0 {
      var tail := os[1..];
      FailurePositionsLocate(tail);
      var q := Shift(FailurePositions(tail), 1);
      forall k | 0 <= k < |q|
        ensures os[q[k]] == Failure(Failures(tail)[k])
      {
        assert os[q[k]] == tail[q[k] - 1];
      }
      if os[0].Failure? {
        assert FailurePositions(os) == [0] + q;
        assert Failures(os) == [os[0].failure] + Failures(tail);
      } else {
        assert FailurePositions(os) == q;
      }
    }
  }

  lemma {:induction false} FailurePositionsComplete<I, F>(os: seq<Outcome<I, F>>)
    ensures forall i :: 0 <= i < |os| && os[i].Failure? ==> i in FailurePositions(os)
  {
    if |os| > 0 {
      var tail := os[1..];
      FailurePositionsComplete(tail);
      var q := Shift(FailurePositions(tail), 1);
      var p := FailurePositions(os);
      assert forall x :: x in q ==> x in p by {
        if os[0].Failure? {
          assert p == [0] + q;
        } else {
          assert p == q;
        }
      }
      forall i | 1 <= i < |os| && os[i].Failure?
        ensures i in p
      {
        assert tail[i - 1] == os[i];
        assert i - 1 in FailurePositions(tail);
        var k :| 0 <= k < |FailurePositions(tail)| && FailurePositions(tail)[k] == i - 1;
        assert q[k] == i;
      }
      if os[0].Failure? {
        assert p[0] == 0;
      }
    }
  }
}
