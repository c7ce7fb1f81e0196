/** The sigma window in numbers: which bucket a tick belongs to, where the hour starts, and exactly which ticks open the
    full-hour gate. Times are milliseconds, epochs seconds. */
module SigmaRules {
  import opened Basics
  import opened SigmaWindow

  /** A tick is in the bucket exactly from the bucket's first millisecond on; for the bucket of 1970, rounding towards
      zero lets the second before it in. */
  lemma BucketRule(epoch: int, wall: int)
    ensures InBucket(epoch, wall) <==> epoch >= 0 && (1000 * epoch <= wall || (epoch == 0 && wall > -1000))
  {
  }

  /** Rolling mode: the gate opens exactly if some tick came to the millisecond an hour before the last one. */
  lemma {:induction false} RollingGate(ticks: seq<Spot>, last: Spot)
    requires ticks != [] && last == ticks[|ticks| - 1] && Ascending(Feed(ticks))
    requires 0 <= 1000 * last.epoch <= last.o.ts
    ensures Anchor(Rolling, last.epoch, last.o.ts) == last.o.ts
    ensures FullHour(HistoryAfter(Rolling, ticks), last.o.ts) <==>
      exists i :: 0 <= i < |ticks| && ticks[i].o.ts == last.o.ts - 3600000
  {
    hide HistoryAfter, FullHour, Ascending;
    GateIff(Rolling, ticks);
    forall j | 0 <= j < |ticks| ensures FloorOf(Rolling, ticks[j]) <= last.o.ts - 3600000 {
      InOrder(Feed(ticks), j, |ticks| - 1);
    }
  }

  /** With the window fixed to the bucket: exactly if some tick came to the millisecond an hour before the bucket
      starts, and every tick so far came by its start or was of a bucket no later. */
  lemma {:induction false} SlugGate(ticks: seq<Spot>, last: Spot)
    requires ticks != [] && last == ticks[|ticks| - 1] && Ascending(Feed(ticks))
    requires 0 <= 1000 * last.epoch <= last.o.ts
    ensures Anchor(SlugFixed, last.epoch, last.o.ts) == 1000 * last.epoch
    ensures FullHour(HistoryAfter(SlugFixed, ticks), 1000 * last.epoch) <==>
      && (exists i :: 0 <= i < |ticks| && ticks[i].o.ts == 1000 * last.epoch - 3600000)
      && (forall j :: 0 <= j < |ticks| ==>
            ticks[j].o.ts <= 1000 * last.epoch || 0 <= ticks[j].epoch <= last.epoch)
  {
    hide HistoryAfter, FullHour, Ascending;
    GateIff(SlugFixed, ticks);
  }

  /** `p` is the price of the last observation at or before `t`. */
  ghost predicate KnownAt(feed: seq<Obs>, t: int, p: real) {
    exists i :: 0 <= i < |feed| && LastBy(feed, t, i) && p == feed[i].px
  }

  predicate LastBy(feed: seq<Obs>, t: int, i: int)
    requires 0 <= i < |feed|
  {
    feed[i].ts <= t && forall j :: i < j < |feed| ==> feed[j].ts > t
  }

  /** A full grid has a price for every step of the hour from its start, both ends included where the step divides it,
      each the one known at its time. */
  lemma FullGridRule(mids: seq<real>, feed: seq<Obs>, start: int, step: int)
    requires step > 0
    ensures FullGrid(mids, feed, start, step) <==>
      |mids| == 3600000 / step + 1 && forall k :: 0 <= k < |mids| ==> KnownAt(feed, start + k * step, mids[k])
  {
    hide LastAt, KnownAt;
    if FullGrid(mids, feed, start, step) {
      forall k | 0 <= k < |mids| ensures KnownAt(feed, start + k * step, mids[k]) {
        KnownIsLast(feed, start + k * step, mids[k]);
      }
    }
    if |mids| == 3600000 / step + 1 && forall k :: 0 <= k < |mids| ==> KnownAt(feed, start + k * step, mids[k]) {
      forall k | 0 <= k < |mids|
        ensures LastAt(feed, start + k * step) >= 0 && mids[k] == feed[LastAt(feed, start + k * step)].px
      {
        KnownIsLast(feed, start + k * step, mids[k]);
      }
    }
  }

  lemma KnownIsLast(feed: seq<Obs>, t: int, p: real)
    ensures KnownAt(feed, t, p) <==> LastAt(feed, t) >= 0 && p == feed[LastAt(feed, t)].px
  {
    hide LastAt;
    var k := LastAt(feed, t);
    if k >= 0 { assert LastBy(feed, t, k); }
    if i :| 0 <= i < |feed| && LastBy(feed, t, i) && feed[i].px == p {
      assert i == k;
    }
  }
}
