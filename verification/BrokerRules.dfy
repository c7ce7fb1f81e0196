/** What the stop-loss loop orders, credits and pays, stated on the broker's answers alone. */
module BrokerRules {
  import opened Basics
  import opened PaperTrading
  import PaperLedger
  import PaperRules
  import opened Broker

  /** The attempt reads a balance worth selling. */
  predicate Sellable(a: Answer) { a.before.Some? && a.before.value > 0.000001 }

  /** `at` are the attempts that read a balance worth selling, in their order. */
  ghost predicate SellingAttempts(answers: seq<Answer>, at: seq<nat>) {
    && (forall i, j :: 0 <= i < j < |at| ==> at[i] < at[j])
    && (forall k :: 0 <= k < |at| ==> at[k] < |answers| && Sellable(answers[at[k]]))
    && (forall n: nat :: n < |answers| && Sellable(answers[n]) ==> n in at)
  }

  lemma AttemptsStep(answers: seq<Answer>, before: seq<nat>) returns (at: seq<nat>)
    requires answers != [] && SellingAttempts(answers[..|answers| - 1], before)
    ensures SellingAttempts(answers, at)
    ensures at == if Sellable(answers[|answers| - 1]) then before + [|answers| - 1] else before
  {
    hide Sellable;
    var last := |answers| - 1;
    at := if Sellable(answers[last]) then before + [last] else before;
    forall n: nat | n < |answers| && Sellable(answers[n]) ensures n in at {
      if n < last {
        assert answers[..last][n] == answers[n];
        assert n in before;
      } else {
        assert at[|at| - 1] == last;
      }
    }
    forall k | 0 <= k < |at| ensures at[k] < |answers| && Sellable(answers[at[k]]) {
      if k < |before| { assert answers[..last][before[k]] == answers[before[k]]; }
    }
  }

  /** The orders of the loop: one for each attempt that reads more than a millionth of a share, in order, and each for
      exactly the balance read in its attempt. */
  lemma {:induction false} OrdersAreBalances(answers: seq<Answer>) returns (at: seq<nat>)
    ensures SellingAttempts(answers, at) && |Orders(answers)| == |at|
    ensures forall k :: 0 <= k < |at| ==> Orders(answers)[k] == answers[at[k]].before.value
  {
    if answers == [] {
      at := [];
    } else {
      var last := |answers| - 1;
      var before := OrdersAreBalances(answers[..last]);
      at := AttemptsStep(answers, before);
      forall k | 0 <= k < |at| ensures Orders(answers)[k] == answers[at[k]].before.value {
        if k < |before| { assert answers[..last][before[k]] == answers[before[k]]; }
      }
    }
  }

  /** An attempt ends the loop exactly if it reads at most a millionth of a share, at first or after an accepted order;
      it is credited exactly the difference of its two readings, if that is more than a millionth. */
  lemma AttemptRule(a: Answer)
    ensures FindsFlat(a) <==>
      a.before.Some? && (a.before.value <= 0.000001
                         || (a.accepted && a.after.Some? && a.after.value <= 0.000001))
    ensures SoldIn(a) ==
      if Sellable(a) && a.accepted && a.after.Some? && a.before.value - a.after.value > 0.000001
      then a.before.value - a.after.value else 0.0
    ensures forall b :: ReadIn(a, b) == (if Sellable(a) && a.accepted && a.after.Some? then a.after.value
                                         else if a.before.Some? then a.before.value else b)
  {
  }

  /** The fee of selling `sold` shares at the mark, before rounding. */
  function ExactFee(sold: real, markBid: real, rate: real): real {
    sold * (markBid * (rate * markBid * (1.0 - markBid)))
  }

  lemma ExactFeeAdds(a: real, b: real, markBid: real, rate: real)
    ensures ExactFee(a + b, markBid, rate) == ExactFee(a, markBid, rate) + ExactFee(b, markBid, rate)
    ensures ExactFee(0.0, markBid, rate) == 0.0
  {
  }

  lemma ExactFeeIsRaw(sold: real, markBid: real, rate: real)
    requires PaperLedger.IsPrice(markBid) && 0.0 <= rate && sold >= 0.0
    ensures ExactFee(sold, markBid, rate) == RawFee(Value(sold, markBid), markBid, rate) >= 0.0
  {
    var m := rate * markBid * (1.0 - markBid);
    assert 0.0 <= rate * markBid;
    assert 0.0 <= m;
    assert 0.0 <= markBid * m;
    assert (sold * markBid) * m == sold * (markBid * m);
  }

  lemma SoldNonNegative(a: Answer)
    ensures SoldIn(a) >= 0.0 && (SoldIn(a) > 0.000001 || SoldIn(a) == 0.0)
  {
  }

  /** The fees of the loop are those of all shares sold at the mark, to half a hundred-thousandth for each attempt. */
  lemma {:induction false} FeesNearExact(answers: seq<Answer>, markBid: real, rate: real)
    requires PaperLedger.IsPrice(markBid) && 0.0 <= rate
    ensures var error := Fees(answers, markBid, rate) - ExactFee(Sold(answers), markBid, rate);
      -(|answers| as real * 0.000005) <= error <= |answers| as real * 0.000005
  {
    hide SoldIn, TakerFee, RawFee, ExactFee, Value;
    if answers == [] {
      ExactFeeAdds(0.0, 0.0, markBid, rate);
    } else {
      var init, a := answers[..|answers| - 1], answers[|answers| - 1];
      FeesNearExact(init, markBid, rate);
      ExactFeeAdds(Sold(init), SoldIn(a), markBid, rate);
      SoldNonNegative(a);
      if SoldIn(a) > 0.000001 {
        ExactFeeIsRaw(SoldIn(a), markBid, rate);
        PaperLedger.FeeError(Value(SoldIn(a), markBid), markBid, rate);
      } else {
        ExactFeeAdds(0.0, 0.0, markBid, rate);
      }
    }
  }
}
