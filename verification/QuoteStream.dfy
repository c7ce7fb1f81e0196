/** A stream of quotes with restarts, and the removal of adjacent repeats. What counts as a repeat is a relation
    `same` between quotes. */
module QuoteStream {
  import opened Basics

  /** What matters to a subscriber: valid quotes, and restarts. */
  datatype Item<Q> = Restart | Valid(quote: Q)

  predicate Repeats<Q>(same: (Q, Q) -> bool, a: Item<Q>, b: Item<Q>) {
    a.Valid? && b.Valid? && same(a.quote, b.quote)
  }

  /** Item `i` is a valid quote and does not repeat the item just before it. */
  predicate Shown<Q>(same: (Q, Q) -> bool, items: seq<Item<Q>>, i: int)
    requires 0 <= i < |items|
  {
    items[i].Valid? && (i == 0 || !Repeats(same, items[i - 1], items[i]))
  }

  /** The quotes of the stream without adjacent repeats. */
  function Delivered<Q>(same: (Q, Q) -> bool, items: seq<Item<Q>>): seq<Q> {
    if items == [] then []
    else
      Delivered(same, items[..|items| - 1])
      + if Shown(same, items, |items| - 1) then [items[|items| - 1].quote] else []
  }

  lemma DeliveredStep<Q>(same: (Q, Q) -> bool, items: seq<Item<Q>>, x: Item<Q>)
    ensures Delivered(same, items + [x])
         == Delivered(same, items) + if Shown(same, items + [x], |items|) then [x.quote] else []
  {
    assert (items + [x])[..|items|] == items;
  }

  lemma NothingDelivered<Q>(same: (Q, Q) -> bool)
    ensures Delivered(same, []) == []
  {
  }

  /** The index of the item last shown. */
  function LastShown<Q>(same: (Q, Q) -> bool, items: seq<Item<Q>>): (k: Option<nat>)
    ensures k.Some? ==> k.value < |items| && Shown(same, items, k.value)
    ensures forall i :: (if k.Some? then k.value else -1) < i < |items| ==> !Shown(same, items, i)
  {
    if items == [] then None
    else if Shown(same, items, |items| - 1) then Some(|items| - 1)
    else
      assert forall i :: 0 <= i < |items| - 1 ==> Shown(same, items[..|items| - 1], i) == Shown(same, items, i);
      LastShown(same, items[..|items| - 1])
  }

  /** The quote last delivered is that of the item last shown. */
  lemma {:induction false} LastDeliveredIsLastShown<Q>(same: (Q, Q) -> bool, items: seq<Item<Q>>)
    ensures LastShown(same, items).None? <==> Delivered(same, items) == []
    ensures LastShown(same, items).Some? ==>
      Delivered(same, items)[|Delivered(same, items)| - 1] == items[LastShown(same, items).value].quote
  {
    if items != [] {
      LastDeliveredIsLastShown(same, items[..|items| - 1]);
    }
  }

  // ---------------------------------------------------------------- relations that are equivalences

  ghost predicate Equivalence<Q(!new)>(same: (Q, Q) -> bool) {
    && (forall x :: same(x, x))
    && (forall x, y, z :: same(x, y) && same(y, z) ==> same(x, z))
  }

  /** Item `k` was shown, and from then on to item `i` there are only quotes that are the same as that of item `i`. */
  ghost predicate ShownSince<Q>(same: (Q, Q) -> bool, items: seq<Item<Q>>, k: nat, i: nat)
    requires k <= i < |items|
  {
    Shown(same, items, k) && forall m :: k <= m <= i ==> Repeats(same, items[m], items[i])
  }

  /** What the subscriber was last shown is the same as the latest valid quote, with no restart in between: nothing
      that differs is ever withheld. */
  lemma {:induction false} ShownUpToDate<Q(!new)>(same: (Q, Q) -> bool, items: seq<Item<Q>>, i: nat)
    returns (k: nat)
    requires Equivalence(same) && i < |items| && items[i].Valid?
    ensures k <= i && ShownSince(same, items, k, i)
  {
    if Shown(same, items, i) {
      k := i;
    } else {
      k := ShownUpToDate(same, items, i - 1);
    }
  }

  /** In particular the last delivered quote is the same as the latest valid one. */
  lemma {:induction false} LastDeliveredIsSame<Q(!new)>(same: (Q, Q) -> bool, items: seq<Item<Q>>)
    requires Equivalence(same) && items != [] && items[|items| - 1].Valid?
    ensures Delivered(same, items) != []
    ensures same(Delivered(same, items)[|Delivered(same, items)| - 1], items[|items| - 1].quote)
  {
    if !Shown(same, items, |items| - 1) {
      LastDeliveredIsSame(same, items[..|items| - 1]);
    }
  }

  // ---------------------------------------------------------------- when nothing is withheld

  /** After the first `n` items the last delivered quote is exactly the latest one. */
  ghost predicate ExactAt<Q>(same: (Q, Q) -> bool, items: seq<Item<Q>>, n: nat)
    requires 0 < n <= |items| && items[n - 1].Valid?
  {
    var d := Delivered(same, items[..n]); d != [] && d[|d| - 1] == items[n - 1].quote
  }

  /** At every point of the stream the subscriber has exactly the latest valid quote. */
  ghost predicate AlwaysExact<Q>(same: (Q, Q) -> bool, items: seq<Item<Q>>) {
    forall n :: 0 < n <= |items| && items[n - 1].Valid? ==> ExactAt(same, items, n)
  }

  lemma DeliveredPrefix<Q>(same: (Q, Q) -> bool, items: seq<Item<Q>>, n: nat)
    requires 0 < n <= |items|
    ensures Delivered(same, items[..n])
         == Delivered(same, items[..n - 1]) + if Shown(same, items, n - 1) then [items[n - 1].quote] else []
  {
    assert items[..n][..n - 1] == items[..n - 1];
  }

  /** That is so exactly when no quote that counts as a repeat differs from the one just before it. */
  lemma AlwaysExactIff<Q>(same: (Q, Q) -> bool, items: seq<Item<Q>>)
    ensures AlwaysExact(same, items) <==>
      forall i :: 0 < i < |items| && Repeats(same, items[i - 1], items[i]) ==> items[i - 1] == items[i]
  {
    hide Delivered, Repeats;
    if AlwaysExact(same, items) {
      forall i | 0 < i < |items| && Repeats(same, items[i - 1], items[i]) ensures items[i - 1] == items[i] {
        RepeatsAreValid(same, items[i - 1], items[i]);
        DeliveredPrefix(same, items, i + 1);
        assert ExactAt(same, items, i) && ExactAt(same, items, i + 1);
      }
    }
    if forall i :: 0 < i < |items| && Repeats(same, items[i - 1], items[i]) ==> items[i - 1] == items[i] {
      forall n | 0 < n <= |items| && items[n - 1].Valid? ensures ExactAt(same, items, n) {
        ExactWithoutChanges(same, items, n);
      }
    }
  }

  lemma RepeatsAreValid<Q>(same: (Q, Q) -> bool, x: Item<Q>, y: Item<Q>)
    requires Repeats(same, x, y)
    ensures x.Valid? && y.Valid?
  {
  }

  lemma {:induction false} ExactWithoutChanges<Q>(same: (Q, Q) -> bool, items: seq<Item<Q>>, n: nat)
    requires forall i :: 0 < i < |items| && Repeats(same, items[i - 1], items[i]) ==> items[i - 1] == items[i]
    requires 0 < n <= |items| && items[n - 1].Valid?
    ensures ExactAt(same, items, n)
  {
    hide Delivered, Repeats;
    DeliveredPrefix(same, items, n);
    if !Shown(same, items, n - 1) {
      ExactWithoutChanges(same, items, n - 1);
    }
  }

  // ---------------------------------------------------------------- one token between restarts

  /** Between two restarts all quotes are for one token, and a latest quote is for `token`. */
  ghost predicate OneToken<Q>(tokenOf: Q -> string, items: seq<Item<Q>>, token: string) {
    && (forall i :: 0 < i < |items| && items[i - 1].Valid? && items[i].Valid? ==>
          tokenOf(items[i - 1].quote) == tokenOf(items[i].quote))
    && (items != [] && items[|items| - 1].Valid? ==> tokenOf(items[|items| - 1].quote) == token)
  }

  lemma NoItemsOneToken<Q>(tokenOf: Q -> string, token: string)
    ensures OneToken(tokenOf, [], token)
  {
  }
}
