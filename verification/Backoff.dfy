/** How long to wait before the next attempt. Durations are int64 nanoseconds, and every
    arithmetic operation of the source is written with its wrap-around. */
module Backoff {
  import opened Records
  import opened Options
  import opened Decimal
  import opened Int64

  const SECOND: int := 1_000_000_000
  const MAX_BACKOFF: int := 30 * SECOND
  const MAX_RETRY_AFTER: int := 60 * SECOND

  function Pow2(n: nat): (r: nat)
    ensures r >= 1
  {
    if n == 0 then 1 else 2 * Pow2(n - 1)
  }

  /** The most that attempt number `attempt` may wait when the server asked for nothing. */
  function Cap(base: int, attempt: nat): int
    requires attempt >= 1
  {
    if base <= 0 then 0 else Min(base * Pow2(attempt - 1), MAX_BACKOFF)
  }

  lemma {:induction false} Pow2Grows(a: nat, b: nat)
    requires a <= b
    ensures Pow2(a) <= Pow2(b)
    decreases b
  {
    if a < b {
      Pow2Grows(a, b - 1);
    }
  }

  lemma CapReached(base: int, a: nat, b: nat)
    requires base > 0 && a <= b && base * Pow2(a) >= MAX_BACKOFF
    ensures base * Pow2(b) >= MAX_BACKOFF
  {
    Pow2Grows(a, b);
    assert base * Pow2(b) >= base * Pow2(a);
  }

  /** The cap starts at the base, doubles with each attempt and stops at thirty seconds. */
  lemma CapDoubles(base: int, attempt: nat)
    requires base > 0 && attempt >= 1
    ensures Cap(base, 1) == if base <= 30_000_000_000 then base else 30_000_000_000
    ensures Cap(base, attempt + 1)
      == if Cap(base, attempt) <= 15_000_000_000 then 2 * Cap(base, attempt) else 30_000_000_000
  {
    var p := Pow2(attempt - 1);
    assert Pow2(attempt) == 2 * p;
    assert base * Pow2(attempt) == 2 * (base * p);
  }

  /** The delay before an attempt: a Retry-After wins, up to a minute; otherwise full jitter under a doubling
      cap, whatever the base and however many attempts. `pick(n)` is the random source's
      answer, a number below n. */
  method Delay(base: int64, attempt: nat, retryAfter: int64, pick: int -> int) returns (delay: int64)
    requires attempt >= 1
    requires forall n :: n > 0 ==> 0 <= pick(n) < n
    ensures retryAfter > 0 ==> delay == Min(retryAfter, MAX_RETRY_AFTER)
    ensures retryAfter <= 0 && base <= 0 ==> delay == 0
    ensures retryAfter <= 0 && base > 0 ==> delay == pick(Cap(base, attempt) + 1)
    ensures retryAfter <= 0 ==> 0 <= delay <= Cap(base, attempt)
  {
    if retryAfter > 0 {
      if retryAfter > MAX_RETRY_AFTER {
        return MAX_RETRY_AFTER;
      }
      return retryAfter;
    }
    if base <= 0 {
      return 0;
    }
    var d: int64 := base;
    var i := 1;
    while i < attempt && d < MAX_BACKOFF
      invariant 1 <= i <= attempt
      invariant d == base * Pow2(i - 1)
    {
      assert Pow2(i) == 2 * Pow2(i - 1);
      assert base * Pow2(i) == 2 * (base * Pow2(i - 1));
      d := Wrapped(d * 2);
      i := i + 1;
    }
    if d >= MAX_BACKOFF {
      CapReached(base, i - 1, attempt - 1);
    }
    if d <= 0 || d > MAX_BACKOFF {
      d := MAX_BACKOFF;
    }
    delay := pick(Wrapped(d + 1));
  }

  // ---- Retry-After ----

  /** strconv.Atoi: an optional sign, then digits, in the range of int64. */
  function Atoi(s: Bytes): Option<int64> {
    var signed := s != [] && (s[0] == 43 || s[0] == 45);
    var digits := if signed then s[1..] else s;
    if digits == [] || !AllDigits(digits) then None
    else
      var size: int := DigitsValue(digits);
      var value: int := if signed && s[0] == 45 then -size else size;
      if MIN_INT64 <= value <= MAX_INT64 then Some(value) else None
  }

  /** time.Time.Sub saturates. */
  function Sub(t: int, now: int): int64 {
    if t - now > MAX_INT64 then MAX_INT64 else if t - now < MIN_INT64 then MIN_INT64 else t - now
  }

  /** parseRetryAfter; `date` is the HTTP-date parser. */
  function ParseRetryAfter(h: Bytes, now: int, date: Bytes -> Option<int>): (d: int64)
    ensures d >= 0
  {
    if h == [] then 0
    else
      match Atoi(h)
      case Some(secs) =>
        if secs <= 0 then 0
        else if secs > MAX_INT64 / SECOND then MAX_INT64
        else Wrapped(secs * SECOND)
      case None =>
        match date(h)
        case Some(t) => if Sub(t, now) > 0 then Sub(t, now) else 0
        case None => 0
  }

  /** A header asking for any number of seconds, however many digits fit an int64, is waited
      for that long or for a minute, whichever is less: what Delay makes of it. */
  lemma SecondsAsked(h: Bytes, secs: int64, now: int, date: Bytes -> Option<int>)
    requires Atoi(h) == Some(secs) && secs > 0
    ensures ParseRetryAfter(h, now, date) > 0
    ensures Min(ParseRetryAfter(h, now, date), MAX_RETRY_AFTER) == Min(secs, 60) * SECOND
  {
  }

  /** A header with no positive request in it leaves the computed backoff in charge: it is
      empty, says zero or less, names no date, or names one not after now. */
  lemma NothingAsked(h: Bytes, now: int, date: Bytes -> Option<int>)
    ensures ParseRetryAfter(h, now, date) == 0
      <==> match Atoi(h)
           case Some(secs) => secs <= 0
           case None => h == [] || date(h) == None || date(h).value <= now
  {
  }

  /** More seconds asked for never means a shorter wait, across the saturation point too. */
  lemma AskingMoreWaitsLonger(h: Bytes, k: Bytes, now: int, date: Bytes -> Option<int>)
    requires Atoi(h).Some? && Atoi(k).Some? && Atoi(h).value <= Atoi(k).value
    ensures ParseRetryAfter(h, now, date) <= ParseRetryAfter(k, now, date)
  {
  }

  /** A header naming a date asks for what is left until then, within the range of int64. */
  lemma DateAsked(h: Bytes, now: int, date: Bytes -> Option<int>)
    requires h != [] && Atoi(h) == None && date(h).Some? && date(h).value > now
    ensures var d := ParseRetryAfter(h, now, date);
      && (date(h).value - now <= 0x7fff_ffff_ffff_ffff ==> d == date(h).value - now)
      && (date(h).value - now > 0x7fff_ffff_ffff_ffff ==> d == 0x7fff_ffff_ffff_ffff)
  {
  }

  // ---- decimal text of a delay ----

  /** Delay seconds as section 10.2.3 of RFC 9110 writes them are read back exactly. */
  lemma SecondsReadBack(n: nat)
    requires n <= MAX_INT64
    ensures Atoi(Digits(n)) == Some(n)
  {
    DigitsValueOf(n);
    assert Digit(Digits(n)[0]);
  }

  /** A delay too long for an int64 is no number to Atoi and no date either, so it is read
      as nothing at all. */
  lemma TooManySeconds(n: nat, now: int, date: Bytes -> Option<int>)
    requires n > MAX_INT64 && date(Digits(n)) == None
    ensures ParseRetryAfter(Digits(n), now, date) == 0
  {
    DigitsValueOf(n);
    assert Digit(Digits(n)[0]);
  }
}
