/** The strike in numbers: which tick of a stream is chosen, for any target and skew, and how much of the stream the
    buffer keeps. */
module StrikeRules {
  import opened Basics
  import opened StrikeSelection

  /** Tick `i` is from the target on and no further from it than the skew. */
  predicate Following(s: seq<Tick>, target: int, skew: int, i: int)
    requires 0 <= i < |s|
  {
    target <= s[i].ts <= target + skew
  }

  /** Tick `i` is up to the target and no further from it than the skew. */
  predicate Preceding(s: seq<Tick>, target: int, skew: int, i: int)
    requires 0 <= i < |s|
  {
    target - skew <= s[i].ts <= target
  }

  /** The earliest of the following ticks, and of those at its time the first to arrive. */
  ghost predicate FirstFollowing(s: seq<Tick>, target: int, skew: int, i: int) {
    && 0 <= i < |s| && Following(s, target, skew, i)
    && forall j :: 0 <= j < |s| && Following(s, target, skew, j) ==>
         s[i].ts < s[j].ts || (s[i].ts == s[j].ts && i <= j)
  }

  /** The latest of the preceding ticks, and of those at its time the first to arrive. */
  ghost predicate LastPreceding(s: seq<Tick>, target: int, skew: int, i: int) {
    && 0 <= i < |s| && Preceding(s, target, skew, i)
    && forall j :: 0 <= j < |s| && Preceding(s, target, skew, j) ==>
         s[i].ts > s[j].ts || (s[i].ts == s[j].ts && i <= j)
  }

  lemma FollowingIsUsable(s: seq<Tick>, target: int, skew: int, i: int)
    requires 0 <= i < |s|
    ensures Following(s, target, skew, i) <==> UsableAfter(s[i], target, skew)
    ensures Preceding(s, target, skew, i) <==> UsableBefore(s[i], target, skew)
  {
  }

  lemma FirstFollowingIsBest(s: seq<Tick>, target: int, skew: int, i: nat)
    ensures FirstFollowing(s, target, skew, i) <==> BestAfter(s, target, skew) == Some(i)
  {
    hide BestAfter;
    forall j | 0 <= j < |s| ensures Following(s, target, skew, j) <==> UsableAfter(s[j], target, skew) {
      FollowingIsUsable(s, target, skew, j);
    }
    hide Following, UsableAfter;
    if FirstFollowing(s, target, skew, i) {
      assert IsBestAfter(s, target, skew, i);
      BestAfterUnique(s, target, skew, i);
    }
  }

  lemma LastPrecedingIsBest(s: seq<Tick>, target: int, skew: int, i: nat)
    ensures LastPreceding(s, target, skew, i) <==> BestBefore(s, target, skew) == Some(i)
  {
    hide BestBefore;
    forall j | 0 <= j < |s| ensures Preceding(s, target, skew, j) <==> UsableBefore(s[j], target, skew) {
      FollowingIsUsable(s, target, skew, j);
    }
    hide Preceding, UsableBefore;
    if LastPreceding(s, target, skew, i) {
      assert IsBestBefore(s, target, skew, i);
      BestBeforeUnique(s, target, skew, i);
    }
  }

  /** The choice of the strike: the earliest tick from the target on, if one is within the skew; only else the latest
      before it, if one is within the skew; only else none. The price is that of the tick chosen. */
  lemma StrikeRule(s: seq<Tick>, target: int, skew: int) returns (i: int)
    ensures match Strike(s, target, skew)
            case Some(p) =>
              && 0 <= i < |s| && p.tick == s[i]
              && (p.kind == After ==> FirstFollowing(s, target, skew, i))
              && (p.kind == Before ==> LastPreceding(s, target, skew, i)
                                       && forall j :: 0 <= j < |s| ==> !Following(s, target, skew, j))
              && p.kind != Nearest
            case None => forall j :: 0 <= j < |s| ==> s[j].ts < target - skew || s[j].ts > target + skew
  {
    hide BestAfter, BestBefore, FirstFollowing, LastPreceding;
    var after, before := BestAfter(s, target, skew), BestBefore(s, target, skew);
    i := if after.Some? then after.value else if before.Some? then before.value else 0;
    if after.Some? { FirstFollowingIsBest(s, target, skew, after.value); }
    if before.Some? { LastPrecedingIsBest(s, target, skew, before.value); }
    forall j | 0 <= j < |s|
      ensures Following(s, target, skew, j) <==> UsableAfter(s[j], target, skew)
      ensures Preceding(s, target, skew, j) <==> UsableBefore(s[j], target, skew)
    {
      FollowingIsUsable(s, target, skew, j);
    }
  }

  /** And the other way round: whenever there is such a tick it is the strike. */
  lemma StrikeIsThatTick(s: seq<Tick>, target: int, skew: int, i: int)
    ensures FirstFollowing(s, target, skew, i) ==> Strike(s, target, skew) == Some(Pick(After, s[i]))
    ensures LastPreceding(s, target, skew, i) && (forall j :: 0 <= j < |s| ==> !Following(s, target, skew, j)) ==>
      Strike(s, target, skew) == Some(Pick(Before, s[i]))
  {
    hide BestAfter, BestBefore;
    if 0 <= i < |s| {
      FirstFollowingIsBest(s, target, skew, i);
      LastPrecedingIsBest(s, target, skew, i);
      var after := BestAfter(s, target, skew);
      if after.Some? { FirstFollowingIsBest(s, target, skew, after.value); }
    }
  }

  /** The buffer holds the last 900 ticks of the stream, so a strike chosen among them is that of the whole stream. */
  lemma BufferRule(s: seq<Tick>, target: int, skew: int, i: int)
    requires 0 <= i < |s| && i >= |s| - 900
    ensures var kept := LastN(s, MAX_BUFFER);
      && kept == (if |s| <= 900 then s else s[|s| - 900..])
      && (FirstFollowing(s, target, skew, i)
          || (LastPreceding(s, target, skew, i) && forall j :: 0 <= j < |s| ==> !Following(s, target, skew, j)) ==>
            Strike(kept, target, skew) == Strike(s, target, skew))
  {
    hide BestAfter, BestBefore, Strike, LastN;
    FirstFollowingIsBest(s, target, skew, i);
    LastPrecedingIsBest(s, target, skew, i);
    if BestAfter(s, target, skew).Some? { FirstFollowingIsBest(s, target, skew, BestAfter(s, target, skew).value); }
    if FirstFollowing(s, target, skew, i)
       || (LastPreceding(s, target, skew, i) && forall j :: 0 <= j < |s| ==> !Following(s, target, skew, j)) {
      BufferYieldsStreamStrike(s, target, skew);
    }
    LastNIs(s);
  }

  lemma LastNIs(s: seq<Tick>)
    ensures LastN(s, MAX_BUFFER) == if |s| <= 900 then s else s[|s| - 900..]
  {
  }
}
