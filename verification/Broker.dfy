/** Live orders (apps/btc_poly_runner.cpp): reading a buy fill out of the broker's answer, and the stop-loss
    loop that sells until nothing is left. The broker's answers are inputs. */
module Broker {
  import opened Basics
  import opened PaperTrading
  import PaperLedger

  // ---------------------------------------------------------------- buy fills

  datatype Fill = Fill(cost: real, shares: real)

  const MIN_PRICE := 0.001
  const MAX_PRICE := 0.999

  function Ratio(a: real, b: real): real
    requires b > 0.0
  {
    a / b
  }

  lemma RatioBelow(a: real, b: real, c: real)
    requires a > 0.0 && b > 0.0
    ensures Ratio(a, b) < c <==> a < c * b
    ensures Ratio(a, b) > c <==> a > c * b
  {
    assert Ratio(a, b) * b == a;
  }

  /** The resolving of `try_market_buy_fill_from_post_resp`, its two amounts already decoded. Whichever field
      held which amount, the smaller is the cost and the larger the shares, and the fill is accepted exactly
      if that gives a price between 0.001 and 0.999. */
  method BuyFillFromResponse(making: Option<real>, taking: Option<real>) returns (fill: Option<Fill>)
    ensures fill.Some? <==>
      && making.Some? && taking.Some? && making.value > 0.0 && taking.value > 0.0
      && var low, high := MinReal(making.value, taking.value), MaxReal(making.value, taking.value);
         0.001 <= Ratio(low, high) <= 0.999
    ensures fill.Some? ==>
      fill.value == Fill(MinReal(making.value, taking.value), MaxReal(making.value, taking.value))
  {
    hide Ratio;
    if making.None? || taking.None? || making.value <= 0.0 || taking.value <= 0.0 { return None; }
    var cost, shares := making.value, taking.value;
    if cost <= 1.0 && shares > 1.0 {
      cost, shares := shares, cost;
    }
    var px := Ratio(cost, shares);
    RatioBelow(cost, shares, MIN_PRICE);
    RatioBelow(cost, shares, MAX_PRICE);
    RatioBelow(shares, cost, MIN_PRICE);
    RatioBelow(shares, cost, MAX_PRICE);
    if px < MIN_PRICE || px > MAX_PRICE {
      cost, shares := shares, cost;
      var px2 := Ratio(cost, shares);
      if px2 < MIN_PRICE || px2 > MAX_PRICE { return None; }
    }
    return Some(Fill(cost, shares));
  }

  // ---------------------------------------------------------------- selling until flat

  const MAX_ATTEMPTS := 30
  const FLAT_EPS := 0.000001

  /** The answers of one attempt: the balance before (None when the query fails), whether an order for it was
      accepted, and the balance after. */
  datatype Answer = Answer(before: Option<real>, accepted: bool, after: Option<real>)

  /** The attempt places an order. */
  predicate Submits(a: Answer) { a.before.Some? && a.before.value > FLAT_EPS }

  /** The balance is read again after an order. */
  predicate ReadsAfter(a: Answer) { Submits(a) && a.accepted && a.after.Some? }

  /** The attempt finds nothing left, before or after its order. */
  predicate FindsFlat(a: Answer) {
    || (a.before.Some? && a.before.value <= FLAT_EPS)
    || (ReadsAfter(a) && a.after.value <= FLAT_EPS)
  }

  /** The shares an attempt is credited for. */
  function SoldIn(a: Answer): real {
    if ReadsAfter(a) && a.before.value - a.after.value > FLAT_EPS then a.before.value - a.after.value else 0.0
  }

  function Sold(answers: seq<Answer>): real {
    if answers == [] then 0.0 else Sold(answers[..|answers| - 1]) + SoldIn(answers[|answers| - 1])
  }

  function FeeIn(a: Answer, markBid: real, rate: real): real {
    if SoldIn(a) > FLAT_EPS then TakerFee(Value(SoldIn(a), markBid), markBid, rate) else 0.0
  }

  function Fees(answers: seq<Answer>, markBid: real, rate: real): real {
    if answers == [] then 0.0
    else Fees(answers[..|answers| - 1], markBid, rate) + FeeIn(answers[|answers| - 1], markBid, rate)
  }

  /** The quantities ordered. */
  function Orders(answers: seq<Answer>): (r: seq<real>)
    ensures |r| <= |answers|
  {
    if answers == [] then []
    else
      var a := answers[|answers| - 1];
      Orders(answers[..|answers| - 1]) + if Submits(a) then [a.before.value] else []
  }

  function ReadIn(a: Answer, balance: real): real {
    if ReadsAfter(a) then a.after.value else if a.before.Some? then a.before.value else balance
  }

  /** The last balance read, or `balance` if none was. */
  function LastRead(balance: real, answers: seq<Answer>): real {
    if answers == [] then balance
    else ReadIn(answers[|answers| - 1], LastRead(balance, answers[..|answers| - 1]))
  }

  datatype Outcome =
    Outcome(flat: bool, proceeds: real, fee: real, finalBalance: real, attempts: nat)

  /** `live_stop_sell_until_flat`: at most thirty attempts, each ordering exactly the balance it has just
      read; it ends flat exactly when an attempt finds nothing left, and that is the last attempt. */
  method StopSellUntilFlat(answers: seq<Answer>, markBid: real, rate: real)
    returns (out: Outcome, orders: seq<real>)
    requires |answers| == 30
    ensures 0 < out.attempts <= 30 && |orders| <= out.attempts
    ensures var made := answers[..out.attempts];
      && orders == Orders(made)
      && out.proceeds == Value(Sold(made), markBid)
      && out.fee == Fees(made, markBid, rate)
      && out.finalBalance == LastRead(0.0, made)
      && (forall k :: 0 <= k < |made| - 1 ==> !FindsFlat(made[k]))
      && out.flat == FindsFlat(made[|made| - 1])
    ensures if out.flat then out.finalBalance <= 0.000001 else out.attempts == 30
  {
    hide Sold, Fees, Orders, LastRead, TakerFee, Value;
    orders := [];
    var proceeds, fee, finalBalance := 0.0, 0.0, 0.0;
    NothingMade(markBid, rate);
    for n := 0 to MAX_ATTEMPTS
      invariant orders == Orders(answers[..n]) && finalBalance == LastRead(0.0, answers[..n])
      invariant proceeds == Value(Sold(answers[..n]), markBid) && fee == Fees(answers[..n], markBid, rate)
      invariant forall k :: 0 <= k < n ==> !FindsFlat(answers[k])
    {
      var a := answers[n];
      AttemptStep(answers, n, markBid, rate);
      if a.before.Some? {
        finalBalance := a.before.value;
        if finalBalance <= FLAT_EPS {
          return Outcome(true, proceeds, fee, finalBalance, n + 1), orders;
        }
        orders := orders + [a.before.value];
        if a.accepted && a.after.Some? {
          finalBalance := a.after.value;
          var sold := MaxReal(0.0, a.before.value - a.after.value);
          if sold > FLAT_EPS {
            var gained := Value(sold, markBid);
            proceeds := proceeds + gained;
            fee := fee + TakerFee(gained, markBid, rate);
          }
          if a.after.value <= FLAT_EPS {
            return Outcome(true, proceeds, fee, finalBalance, n + 1), orders;
          }
        }
      }
    }
    return Outcome(false, proceeds, fee, finalBalance, MAX_ATTEMPTS), orders;
  }

  lemma NothingMade(markBid: real, rate: real)
    ensures Orders([]) == [] && Value(Sold([]), markBid) == 0.0 && Fees([], markBid, rate) == 0.0
    ensures forall b :: LastRead(b, []) == b
  {
  }

  lemma AttemptStep(answers: seq<Answer>, n: nat, markBid: real, rate: real)
    requires n < |answers|
    ensures var a := answers[n];
      && Orders(answers[..n + 1]) == Orders(answers[..n]) + (if Submits(a) then [a.before.value] else [])
      && Value(Sold(answers[..n + 1]), markBid) == Value(Sold(answers[..n]), markBid)
           + (if SoldIn(a) > FLAT_EPS then Value(SoldIn(a), markBid) else 0.0)
      && Fees(answers[..n + 1], markBid, rate) == Fees(answers[..n], markBid, rate) + FeeIn(a, markBid, rate)
      && (forall b :: LastRead(b, answers[..n + 1]) == ReadIn(a, LastRead(b, answers[..n])))
  {
    hide TakerFee;
    assert answers[..n + 1][..n] == answers[..n];
    ValueOfSum(Sold(answers[..n]), SoldIn(answers[n]), markBid);
  }

  lemma ValueOfSum(a: real, b: real, price: real)
    ensures Value(a + b, price) == Value(a, price) + Value(b, price)
    ensures b == 0.0 ==> Value(b, price) == 0.0
  {
  }

  // ---------------------------------------------------------------- what the proceeds mean

  /** No read balance is above an earlier one. */
  ghost predicate NonIncreasing(first: real, answers: seq<Answer>)
    decreases |answers|
  {
    answers == [] ||
    var init, a := answers[..|answers| - 1], answers[|answers| - 1];
    && NonIncreasing(first, init)
    && (a.before.Some? ==> a.before.value <= LastRead(first, init))
    && (ReadsAfter(a) ==> a.after.value <= a.before.value)
  }

  /** Holdings change only by accepted orders, and every such change is read. */
  ghost predicate EverySaleRead(first: real, answers: seq<Answer>)
    decreases |answers|
  {
    answers == [] ||
    var init, a := answers[..|answers| - 1], answers[|answers| - 1];
    && EverySaleRead(first, init)
    && (a.before.Some? ==> a.before.value == LastRead(first, init))
    && (Submits(a) && a.accepted ==> a.after.Some? && a.after.value <= a.before.value)
  }

  /** Whatever the broker answers: as long as read balances do not grow, no more is credited than has left
      the account. */
  lemma {:induction false} NeverOverCredited(first: real, answers: seq<Answer>)
    requires NonIncreasing(first, answers)
    ensures Sold(answers) <= first - LastRead(first, answers)
  {
    if answers != [] {
      NeverOverCredited(first, answers[..|answers| - 1]);
    }
  }

  /** When every sale is read, at most a millionth of a share per attempt goes uncredited. */
  lemma {:induction false} AlmostAllCredited(first: real, answers: seq<Answer>)
    requires EverySaleRead(first, answers)
    ensures NonIncreasing(first, answers)
    ensures first - LastRead(first, answers) - Sold(answers) <= |answers| as real * 0.000001
  {
    if answers != [] {
      AlmostAllCredited(first, answers[..|answers| - 1]);
    }
  }

  /** What leaves the account in an attempt without being credited, `balance` being the last one read before: a
      drop seen only by the first query, and a sale of at most a millionth of a share. */
  function MissedIn(a: Answer, balance: real): real {
    (if a.before.Some? then balance - a.before.value else 0.0)
    + (if ReadsAfter(a) then a.before.value - a.after.value - SoldIn(a) else 0.0)
  }

  function Missed(first: real, answers: seq<Answer>): real {
    if answers == [] then 0.0
    else
      var init := answers[..|answers| - 1];
      Missed(first, init) + MissedIn(answers[|answers| - 1], LastRead(first, init))
  }

  /** For any answers at all: what left the account is what was credited and what was missed. */
  lemma {:induction false} CreditedAndMissed(first: real, answers: seq<Answer>)
    ensures first - LastRead(first, answers) == Sold(answers) + Missed(first, answers)
  {
    if answers != [] {
      CreditedAndMissed(first, answers[..|answers| - 1]);
    }
  }

  /** No drop is first seen between attempts, and no attempt sells a positive amount of at most a millionth. */
  ghost predicate EveryDropCredited(first: real, answers: seq<Answer>)
    decreases |answers|
  {
    answers == [] ||
    var init, a := answers[..|answers| - 1], answers[|answers| - 1];
    && EveryDropCredited(first, init)
    && (a.before.Some? ==> a.before.value == LastRead(first, init))
    && (ReadsAfter(a) ==> a.after.value == a.before.value || a.before.value - a.after.value > FLAT_EPS)
  }

  lemma {:induction false} MissedNothingIff(first: real, answers: seq<Answer>)
    requires NonIncreasing(first, answers)
    ensures Missed(first, answers) >= 0.0
    ensures Missed(first, answers) == 0.0 <==> EveryDropCredited(first, answers)
  {
    if answers != [] {
      MissedNothingIff(first, answers[..|answers| - 1]);
    }
  }

  /** Exactly when everything that left the account is credited, for any broker whose read balances do not grow. */
  lemma FullyCreditedIff(first: real, answers: seq<Answer>)
    requires NonIncreasing(first, answers)
    ensures Sold(answers) == first - LastRead(first, answers) <==> EveryDropCredited(first, answers)
  {
    hide Sold, Missed, LastRead, NonIncreasing, EveryDropCredited;
    CreditedAndMissed(first, answers);
    MissedNothingIff(first, answers);
  }

  lemma ValueMonotonic(a: real, b: real, price: real)
    requires a <= b && price >= 0.0
    ensures Value(a, price) <= Value(b, price)
  {
  }

  lemma {:induction false} LastReadFromFirst(b: real, b': real, answers: seq<Answer>)
    requires exists k :: 0 <= k < |answers| && answers[k].before.Some?
    ensures LastRead(b, answers) == LastRead(b', answers)
  {
    var init := answers[..|answers| - 1];
    if answers[|answers| - 1].before.None? {
      var k :| 0 <= k < |answers| && answers[k].before.Some?;
      assert init[k].before.Some?;
      LastReadFromFirst(b, b', init);
    }
  }

  /** The proceeds reported by the loop against the shares that left the account, for any broker: never more
      than the bid times what left, and at most 30 millionths of a share short of it when every sale was
      read. */
  lemma ProceedsBounds(first: real, made: seq<Answer>, markBid: real)
    requires |made| <= 30 && markBid >= 0.0
    requires exists k :: 0 <= k < |made| && made[k].before.Some?
    ensures NonIncreasing(first, made) ==>
      Value(Sold(made), markBid) <= Value(first - LastRead(0.0, made), markBid)
    ensures EverySaleRead(first, made) ==>
      Value(first - LastRead(0.0, made), markBid) - Value(Sold(made), markBid)
      <= Value(0.00003, markBid)
  {
    hide Value, Sold, LastRead, NonIncreasing, EverySaleRead;
    LastReadFromFirst(0.0, first, made);
    var left := first - LastRead(first, made);
    if NonIncreasing(first, made) {
      NeverOverCredited(first, made);
      ValueMonotonic(Sold(made), left, markBid);
    }
    if EverySaleRead(first, made) {
      AlmostAllCredited(first, made);
      var short := left - Sold(made);
      ValueOfSum(Sold(made), short, markBid);
      ValueMonotonic(short, 0.00003, markBid);
    }
  }

  /** The fees charged to the loop never exceed its proceeds. */
  lemma {:induction false} FeesCovered(answers: seq<Answer>, markBid: real, rate: real)
    requires PaperLedger.IsPrice(markBid) && 0.0 <= rate <= 2.0
    ensures 0.0 <= Fees(answers, markBid, rate) <= Value(Sold(answers), markBid)
  {
    hide TakerFee;
    if answers == [] {
    } else {
      var init, a := answers[..|answers| - 1], answers[|answers| - 1];
      FeesCovered(init, markBid, rate);
      ValueOfSum(Sold(init), SoldIn(a), markBid);
      if SoldIn(a) > FLAT_EPS {
        ValueMonotonic(0.0, SoldIn(a), markBid);
        PaperLedger.SaleCoversFee(Value(SoldIn(a), markBid), markBid, rate);
      }
    }
  }

  /** Without the second read a sale is not credited at all: the loop then ends flat with nothing to show.
      `FullyCreditedIff` says exactly when nothing is lost. */
  lemma UnreadSaleIsLost(held: real, markBid: real)
    requires held > 0.000001
    ensures var made := [Answer(Some(held), true, None), Answer(Some(0.0), false, None)];
      && FindsFlat(made[1]) && !FindsFlat(made[0]) && NonIncreasing(held, made)
      && LastRead(0.0, made) == 0.0 && Value(Sold(made), markBid) == 0.0
  {
    var made := [Answer(Some(held), true, None), Answer(Some(0.0), false, None)];
    assert made[..1] == [made[0]] && made[..1][..0] == [];
    assert Sold(made[..1]) == 0.0;
    assert LastRead(held, made[..1]) == held;
    assert NonIncreasing(held, made[..1]);
  }
}
