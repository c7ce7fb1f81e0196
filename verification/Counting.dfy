/** Counting the elements of a sequence that satisfy a predicate. */
module Counting {

  function Count<T>(s: seq<T>, p: T -> bool): nat {
    if s == [] then 0 else Count(s[..|s| - 1], p) + (if p(s[|s| - 1]) then 1 else 0)
  }

  lemma CountEmpty<T>(s: seq<T>, p: T -> bool)
    requires s == []
    ensures Count(s, p) == 0
  {
  }

  lemma {:induction false} CountUpdate<T>(s: seq<T>, i: nat, x: T, p: T -> bool)
    requires i < |s|
    ensures Count(s[i := x], p) == Count(s, p) - (if p(s[i]) then 1 else 0) + (if p(x) then 1 else 0)
  {
    var init, last := s[..|s| - 1], |s| - 1;
    if i == last {
      assert s[i := x][..last] == init;
    } else {
      assert s[i := x][..last] == init[i := x];
      CountUpdate(init, i, x, p);
    }
  }

  lemma {:induction false} CountRemove<T>(s: seq<T>, i: nat, p: T -> bool)
    requires i < |s|
    ensures Count(s[..i] + s[i + 1..], p) == Count(s, p) - (if p(s[i]) then 1 else 0)
  {
    var init, last := s[..|s| - 1], |s| - 1;
    var rest := s[..i] + s[i + 1..];
    if i == last {
      assert rest == init;
    } else {
      assert rest[..|rest| - 1] == init[..i] + init[i + 1..];
      CountRemove(init, i, p);
    }
  }

  lemma CountAppend<T>(s: seq<T>, x: T, p: T -> bool)
    ensures Count(s + [x], p) == Count(s, p) + (if p(x) then 1 else 0)
  {
    assert (s + [x])[..|s|] == s;
  }

  lemma {:induction false} CountConcat<T>(s: seq<T>, r: seq<T>, p: T -> bool)
    ensures Count(s + r, p) == Count(s, p) + Count(r, p)
  {
    if r == [] {
      assert s + r == s;
    } else {
      assert (s + r)[..|s + r| - 1] == s + r[..|r| - 1];
      CountConcat(s, r[..|r| - 1], p);
    }
  }

  /** A positive count names a witness, and a witness makes the count positive. */
  lemma {:induction false} CountPositive<T>(s: seq<T>, p: T -> bool)
    ensures Count(s, p) > 0 <==> exists i :: 0 <= i < |s| && p(s[i])
  {
    if s != [] {
      var init := s[..|s| - 1];
      CountPositive(init, p);
      if i :| 0 <= i < |s| && p(s[i]) {
        assert i < |init| ==> p(init[i]);
      }
      if i :| 0 <= i < |init| && p(init[i]) {
        assert p(s[i]);
      }
    }
  }

  lemma NoneCounted<T>(s: seq<T>, p: T -> bool)
    ensures Count(s, p) == 0 <==> forall x :: x in s ==> !p(x)
  {
    CountPositive(s, p);
    if x :| x in s && p(x) {
      var i :| 0 <= i < |s| && s[i] == x;
      assert p(s[i]);
    }
    if i :| 0 <= i < |s| && p(s[i]) {
      assert s[i] in s;
    }
  }
}
