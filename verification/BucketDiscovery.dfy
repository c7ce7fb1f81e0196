/** Five-minute bucket slugs, the two slug parsers and the wall-clock scan
    (src/polymarket/bucket_market_discovery.cpp). Times are whole seconds. The HTTP fetch of a slug is a
    function from the slug to the token ids it resolves to, if it resolves. */
module BucketDiscovery {
  import opened Basics

  const BUCKET := 300
  const INT64_MAX := 0x7fff_ffff_ffff_ffff
  const INT64_MIN := -0x8000_0000_0000_0000

  predicate Int64(n: int) { INT64_MIN <= n <= INT64_MAX }

  // ---------------------------------------------------------------- decimal numbers

  predicate IsDigit(c: char) { '0' <= c <= '9' }

  ghost predicate AllDigits(s: string) { forall i :: 0 <= i < |s| ==> IsDigit(s[i]) }

  function DigitChar(d: nat): (c: char)
    requires d < 10
    ensures IsDigit(c) && DigitValue(c) == d
  {
    ('0' as int + d) as char
  }

  function DigitValue(c: char): (d: nat)
    requires IsDigit(c)
    ensures d < 10
  {
    c as int - '0' as int
  }

  /** The decimal digits of `n`. */
  function Digits(n: nat): (s: string)
    ensures |s| > 0 && AllDigits(s)
  {
    if n < 10 then [DigitChar(n)] else Digits(n / 10) + [DigitChar(n % 10)]
  }

  /** The number written by a string of digits. */
  function Value(s: string): nat
    requires AllDigits(s)
  {
    if s == "" then 0 else 10 * Value(s[..|s| - 1]) + DigitValue(s[|s| - 1])
  }

  /** Digits without a superfluous leading zero. */
  ghost predicate Canonical(s: string) {
    |s| > 0 && AllDigits(s) && (|s| > 1 ==> s[0] != '0')
  }

  lemma {:induction false} ValueOfDigits(n: nat)
    ensures Value(Digits(n)) == n
  {
    if n < 10 {
      assert Digits(n)[..0] == "";
    } else {
      ValueOfDigits(n / 10);
      assert Digits(n)[..|Digits(n)| - 1] == Digits(n / 10);
    }
  }

  lemma {:induction false} DigitsCanonical(n: nat)
    ensures Canonical(Digits(n)) && (Digits(n)[0] == '0' ==> n == 0)
  {
    if n >= 10 {
      DigitsCanonical(n / 10);
    }
  }

  lemma {:induction false} CanonicalPositive(s: string)
    requires Canonical(s) && s[0] != '0'
    ensures Value(s) > 0
  {
    if |s| == 1 {
      assert s[..0] == "";
    } else {
      CanonicalPositive(s[..|s| - 1]);
    }
  }

  /** Printing is the inverse of reading on digit strings without a superfluous leading zero. */
  lemma {:induction false} DigitsOfValue(s: string)
    requires Canonical(s)
    ensures Digits(Value(s)) == s
  {
    var init, d := s[..|s| - 1], DigitValue(s[|s| - 1]);
    if |s| == 1 {
      assert init == "";
      assert s == [DigitChar(d)];
    } else {
      DigitsOfValue(init);
      CanonicalPositive(init);
      assert Value(s) / 10 == Value(init) && Value(s) % 10 == d;
      assert s == init + [DigitChar(d)];
    }
  }

  // ---------------------------------------------------------------- std::to_string and std::stoll

  function ToString(n: int): string {
    if n < 0 then "-" + Digits(-n) else Digits(n)
  }

  predicate IsSpace(c: char) { c == ' ' || 9 <= c as int <= 13 }

  function SkipSpace(s: string): string {
    if s != "" && IsSpace(s[0]) then SkipSpace(s[1..]) else s
  }

  /** The length of the leading run of digits. */
  function DigitRun(s: string): (n: nat)
    ensures n <= |s| && AllDigits(s[..n]) && (n < |s| ==> !IsDigit(s[n]))
  {
    if s != "" && IsDigit(s[0]) then
      assert s[..1 + DigitRun(s[1..])] == [s[0]] + s[1..][..DigitRun(s[1..])];
      1 + DigitRun(s[1..])
    else 0
  }

  lemma {:induction false} DigitRunUnique(s: string, n: nat)
    requires n <= |s| && AllDigits(s[..n]) && (n < |s| ==> !IsDigit(s[n]))
    ensures DigitRun(s) == n
  {
    if n > 0 {
      assert s[0] == s[..n][0];
      assert s[1..][..n - 1] == s[..n][1..];
      DigitRunUnique(s[1..], n - 1);
    }
  }

  function Unsigned(s: string): string {
    if s != "" && (s[0] == '-' || s[0] == '+') then s[1..] else s
  }

  function ReadDigits(s: string): Option<nat> {
    var n := DigitRun(s);
    if n == 0 then None else Some(Value(s[..n]))
  }

  /** The digits after an optional sign, if any, negated after a minus. */
  function SignedDigits(s: string): Option<int> {
    match ReadDigits(Unsigned(s))
    case None => None
    case Some(v) => Some(if s != "" && s[0] == '-' then 0 - v else v)
  }

  /** `std::stoll`: leading white space, an optional sign, the longest run of digits; whatever follows is
      ignored. It throws (None) without a digit or outside 64 bits. */
  function Stoll(s: string): Option<int> {
    match SignedDigits(SkipSpace(s))
    case None => None
    case Some(v) => if Int64(v) then Some(v) else None
  }

  lemma ReadRun(ds: string, rest: string)
    requires |ds| > 0 && AllDigits(ds) && (rest != "" ==> !IsDigit(rest[0]))
    ensures ReadDigits(ds + rest) == Some(Value(ds))
  {
    hide Value, DigitRun;
    assert (ds + rest)[..|ds|] == ds;
    DigitRunUnique(ds + rest, |ds|);
  }

  datatype Sign = Absent | Minus | Plus

  function SignText(sign: Sign): string {
    match sign case Absent => "" case Minus => "-" case Plus => "+"
  }

  lemma UnsignedOf(sign: Sign, body: string)
    requires body != "" && IsDigit(body[0])
    ensures Unsigned(SignText(sign) + body) == body
    ensures (SignText(sign) + body)[0] == '-' <==> sign == Minus
  {
    var s := SignText(sign) + body;
    match sign
    case Absent => assert s == body;
    case Minus => assert s[0] == '-' && s[1..] == body;
    case Plus => assert s[0] == '+' && s[1..] == body;
  }

  /** Reading a run of digits, with or without a sign before it. */
  lemma SignedDigitsOf(sign: Sign, ds: string, rest: string)
    requires |ds| > 0 && AllDigits(ds) && (rest != "" ==> !IsDigit(rest[0]))
    ensures SignedDigits(SignText(sign) + (ds + rest)) == Some(if sign == Minus then 0 - Value(ds) else Value(ds))
  {
    hide Value, ReadDigits, Unsigned, AllDigits, IsDigit, SignText;
    FirstIsDigit(ds, rest);
    UnsignedOf(sign, ds + rest);
    ReadRun(ds, rest);
  }

  lemma FirstIsDigit(ds: string, rest: string)
    requires |ds| > 0 && AllDigits(ds)
    ensures IsDigit((ds + rest)[0])
  {
    assert (ds + rest)[0] == ds[0];
  }

  /** `stoll` reads back every printed 64-bit number, whatever non-digit text follows it. */
  lemma StollOfToString(n: int, rest: string)
    requires Int64(n) && (rest != "" ==> !IsDigit(rest[0]))
    ensures Stoll(ToString(n) + rest) == Some(n)
  {
    hide Value, Digits, SignedDigits;
    var m := if n < 0 then -n else n;
    var sign := if n < 0 then Minus else Absent;
    ValueOfDigits(m);
    assert IsDigit(Digits(m)[0]);
    SignedDigitsOf(sign, Digits(m), rest);
    var s := ToString(n) + rest;
    assert SignText(sign) + (Digits(m) + rest) == s;
    assert s[0] == if n < 0 then '-' else Digits(m)[0];
    assert SkipSpace(s) == s;
  }

  /** Outside 64 bits it throws, and white space before the number makes no difference. */
  lemma StollLimits(n: int, rest: string, space: char)
    requires rest != "" ==> !IsDigit(rest[0])
    ensures Stoll(ToString(n) + rest) ==
      if -9223372036854775808 <= n <= 9223372036854775807 then Some(n) else None
    ensures space as int in {9, 10, 11, 12, 13, 32} ==>
      Stoll([space] + (ToString(n) + rest)) == Stoll(ToString(n) + rest)
  {
    hide Value, Digits, SignedDigits;
    var m := if n < 0 then -n else n;
    var sign := if n < 0 then Minus else Absent;
    ValueOfDigits(m);
    assert IsDigit(Digits(m)[0]);
    SignedDigitsOf(sign, Digits(m), rest);
    var s := ToString(n) + rest;
    assert SignText(sign) + (Digits(m) + rest) == s;
    assert s[0] == if n < 0 then '-' else Digits(m)[0];
    assert SkipSpace(s) == s;
    assert ([space] + s)[1..] == s;
  }

  // ---------------------------------------------------------------- slugs

  const PREFIX := "btc-updown-5m-"

  function SlugForBucket(n: int): string { PREFIX + ToString(n) }

  function ToLower(c: char): char {
    if 'A' <= c <= 'Z' then (c as int + 32) as char else c
  }

  predicate HasPrefix(slug: string) {
    |slug| > |PREFIX| && forall i :: 0 <= i < |PREFIX| ==> ToLower(slug[i]) == PREFIX[i]
  }

  function ParseEpoch(slug: string): Option<int> {
    if HasPrefix(slug) then Stoll(slug[|PREFIX|..]) else None
  }

  lemma PrefixIsLower(i: nat)
    requires i < |PREFIX|
    ensures ToLower(PREFIX[i]) == PREFIX[i]
  {
  }

  /** Parsing what was printed gives the epoch back. */
  lemma ParseOfSlug(n: int)
    requires Int64(n)
    ensures ParseEpoch(SlugForBucket(n)) == Some(n)
  {
    var slug := SlugForBucket(n);
    assert slug[|PREFIX|..] == ToString(n);
    forall i | 0 <= i < |PREFIX| ensures ToLower(slug[i]) == PREFIX[i] { PrefixIsLower(i); }
    StollOfToString(n, "");
    assert ToString(n) + "" == ToString(n);
  }

  lemma SlugsDiffer(m: int, n: int)
    requires Int64(m) && Int64(n) && SlugForBucket(m) == SlugForBucket(n)
    ensures m == n
  {
    ParseOfSlug(m);
    ParseOfSlug(n);
  }

  /** The only slugs the program itself would print. */
  ghost predicate CanonicalSlug(slug: string) {
    && |slug| > |PREFIX| && slug[..|PREFIX|] == PREFIX
    && var tail := slug[|PREFIX|..];
       if tail[0] == '-' then Canonical(tail[1..]) && tail[1] != '0' else Canonical(tail)
  }

  lemma PrintedSlugIsCanonical(slug: string, n: int)
    requires SlugForBucket(n) == slug
    ensures CanonicalSlug(slug)
  {
    hide Digits;
    var tail := slug[|PREFIX|..];
    assert slug[..|PREFIX|] == PREFIX;
    assert tail == ToString(n);
    DigitsCanonical(if n < 0 then -n else n);
    if n < 0 {
      assert tail[1..] == Digits(-n);
    } else {
      assert IsDigit(tail[0]);
    }
  }

  lemma CanonicalTailReadsBack(tail: string)
    requires tail != "" && Stoll(tail).Some?
    requires if tail[0] == '-' then Canonical(tail[1..]) && tail[1] != '0' else Canonical(tail)
    ensures ToString(Stoll(tail).value) == tail
  {
    hide Digits, Value, SignedDigits;
    var sign := if tail[0] == '-' then Minus else Absent;
    var body := tail[|SignText(sign)|..];
    assert SkipSpace(tail) == tail;
    assert SignText(sign) + (body + "") == tail;
    SignedDigitsOf(sign, body, "");
    DigitsOfValue(body);
    if tail[0] == '-' {
      assert body[0] == tail[1];
      CanonicalPositive(body);
    }
    assert SignText(sign) + body == tail;
  }

  /** Printing what was parsed gives the slug back exactly for canonical slugs: upper case in the prefix,
      white space, a plus sign, leading zeros and trailing text are all accepted and all lost. */
  lemma SlugOfParseIff(slug: string)
    requires ParseEpoch(slug).Some?
    ensures SlugForBucket(ParseEpoch(slug).value) == slug <==> CanonicalSlug(slug)
  {
    hide Stoll, ToString, HasPrefix;
    var n := ParseEpoch(slug).value;
    if SlugForBucket(n) == slug {
      PrintedSlugIsCanonical(slug, n);
    }
    if CanonicalSlug(slug) {
      CanonicalTailReadsBack(slug[|PREFIX|..]);
      assert slug == PREFIX + slug[|PREFIX|..];
    }
  }

  lemma SpacedNumber()
    ensures Stoll(" +07x") == Some(7)
  {
    hide Value, SignedDigits;
    assert " +07x"[1..] == "+07x";
    assert "+07x" == SignText(Plus) + ("07" + "x");
    SignedDigitsOf(Plus, "07", "x");
    SevenWithZero();
  }

  lemma NonCanonicalSlugAccepted()
    ensures ParseEpoch("BTC-updown-5m- +07x") == Some(7)
    ensures !CanonicalSlug("BTC-updown-5m- +07x")
  {
    hide Stoll;
    var slug := "BTC-updown-5m- +07x";
    assert slug[|PREFIX|..] == " +07x";
    SpacedNumber();
    assert slug[..|PREFIX|][0] != PREFIX[0];
  }

  lemma SevenWithZero()
    ensures Value("07") == 7
  {
    assert "07"[..1] == "0" && "0"[..0] == "";
    assert Value("0") == 0;
  }

  /** `parse_epoch_from_confirmed_slug`, the loop used by the three programs. */
  method ParseEpochFromConfirmedSlug(slug: string) returns (epoch: Option<int>)
    ensures epoch == ParseEpoch(slug)
  {
    if |slug| <= |PREFIX| { return None; }
    for i := 0 to |PREFIX|
      invariant forall j :: 0 <= j < i ==> ToLower(slug[j]) == PREFIX[j]
    {
      if ToLower(slug[i]) != PREFIX[i] { return None; }
    }
    return Stoll(slug[|PREFIX|..]);
  }

  function LowerAll(s: string): (r: string)
    ensures |r| == |s| && forall i :: 0 <= i < |s| ==> r[i] == ToLower(s[i])
  {
    seq(|s|, i requires 0 <= i < |s| => ToLower(s[i]))
  }

  /** `parse_bucket_epoch_from_slug`, the whole-string form used by discovery. */
  function ParseBucketEpoch(slug: string): Option<int> {
    var ls, lp := LowerAll(slug), LowerAll(PREFIX);
    if |ls| <= |PREFIX| || ls[..|PREFIX|] != lp then None else Stoll(slug[|PREFIX|..])
  }

  /** The two separately written parsers agree on every string. */
  lemma ParsersAgree(slug: string)
    ensures ParseBucketEpoch(slug) == ParseEpoch(slug)
  {
    var ls, lp := LowerAll(slug), LowerAll(PREFIX);
    assert lp == PREFIX by {
      forall i | 0 <= i < |PREFIX| ensures lp[i] == PREFIX[i] { PrefixIsLower(i); }
    }
    if |slug| > |PREFIX| {
      if HasPrefix(slug) {
        assert ls[..|PREFIX|] == PREFIX;
      } else {
        var i :| 0 <= i < |PREFIX| && ToLower(slug[i]) != PREFIX[i];
        assert ls[..|PREFIX|][i] != PREFIX[i];
      }
    }
  }

  // ---------------------------------------------------------------- discovery

  datatype Tokens = Tokens(up: string, down: string)

  datatype Market = Market(slug: string, epoch: int, tokens: Tokens)

  type Fetch = string -> Option<Tokens>

  /** `try_slug`: the market carries the slug that was asked for and the epoch parsed from it. */
  function TrySlug(slug: string, fetch: Fetch): Option<Market> {
    match fetch(slug)
    case None => None
    case Some(tokens) =>
      Some(Market(slug, match ParseBucketEpoch(slug) case Some(n) => n case None => -1, tokens))
  }

  /** Asking for the slug of a bucket gives that bucket or nothing. */
  lemma TryBucket(n: int, fetch: Fetch)
    requires Int64(n)
    ensures TrySlug(SlugForBucket(n), fetch)
         == match fetch(SlugForBucket(n))
            case None => None
            case Some(tokens) => Some(Market(SlugForBucket(n), n, tokens))
  {
    ParsersAgree(SlugForBucket(n));
    ParseOfSlug(n);
  }

  /** The bucket that contains the time `now`. */
  function FloorBucket(now: int): int { now / BUCKET * BUCKET }

  lemma FloorBucketShape(now: int)
    ensures FloorBucket(now) % BUCKET == 0 && FloorBucket(now) <= now < FloorBucket(now) + BUCKET
  {
  }

  lemma OnlyBucketAround(now: int, n: int)
    requires n % BUCKET == 0 && n <= now < n + BUCKET
    ensures n == FloorBucket(now)
  {
  }

  /** C++ division rounds towards zero. */
  function TruncatedBucket(now: int): (b: int)
    ensures b % BUCKET == 0
    ensures b == if now >= 0 || now % BUCKET == 0 then FloorBucket(now) else FloorBucket(now) + BUCKET
  {
    if now >= 0 then now / BUCKET * BUCKET else -(-now / BUCKET * BUCKET)
  }

  predicate ClockRange(now: int) { INT64_MIN + 2 * BUCKET <= now <= INT64_MAX - 2 * BUCKET }

  /** `discover_active_btc_updown_5m_via_bucket`: of the three buckets asked for, only the one that contains
      the clock can be accepted, so the scan is exactly one look-up of that bucket. */
  method DiscoverActive(now: int, fetch: Fetch) returns (found: Option<Market>)
    requires ClockRange(now)
    ensures found == TrySlug(SlugForBucket(FloorBucket(now)), fetch)
    ensures found.Some? ==> found.value.epoch == FloorBucket(now)
  {
    hide SlugForBucket, TrySlug, ParseBucketEpoch, ParseEpoch;
    var base := TruncatedBucket(now);
    var offsets := [0, BUCKET, -BUCKET];
    FloorBucketShape(now);
    TryBucket(FloorBucket(now), fetch);
    for i := 0 to 3
      invariant forall j :: 0 <= j < i && base + offsets[j] == FloorBucket(now) ==>
                  TrySlug(SlugForBucket(FloorBucket(now)), fetch).None?
    {
      var bucket := base + offsets[i];
      TryBucket(bucket, fetch);
      var out := TrySlug(SlugForBucket(bucket), fetch);
      if out.Some? {
        ParsersAgree(out.value.slug);
        ParseOfSlug(bucket);
        var epoch := out.value.epoch;
        var known := true;
        if epoch < 0 {
          var parsed := ParseBucketEpoch(out.value.slug);
          known := parsed.Some?;
          if known { epoch := parsed.value; }
        }
        if known && epoch <= now < epoch + BUCKET {
          OnlyBucketAround(now, epoch);
          return Some(out.value.(epoch := epoch));
        }
      }
    }
    assert base + offsets[0] == FloorBucket(now) || base + offsets[2] == FloorBucket(now);
    return None;
  }
}
