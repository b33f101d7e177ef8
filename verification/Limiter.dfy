/** The admission limiter: a token bucket kept as one timestamp, `tat`, changed by a
    compare-and-swap loop. Clock readings and `tat` are int64 nanoseconds. */
module Limiter {
  import opened Int64

  lemma DivMod(w: int, m: int)
    requires m > 0
    ensures w == m * (w / m) + w % m && 0 <= w % m < m
  {
  }

  lemma Times(a: int, b: int, i: int)
    requires a <= b && i >= 0
    ensures a * i <= b * i
  {
  }

  lemma Squeeze(a: int, b: int, i: int)
    requires i > 0 && a * i < b * i
    ensures a < b
  {
    if b <= a {
      Times(b, a, i);
    }
  }

  lemma DivBounds(w: int, m: int)
    requires m > 0 && w >= 0
    ensures 0 <= w / m <= w
  {
    DivMod(w, m);
    var q := w / m;
    assert (q + 1) * m == m * q + m;
    Squeeze(-1, q, m);
    Times(1, m, q);
  }

  /** `interval` is `window / max`; both arguments are validated to be positive. */
  datatype Rate = Rate(interval: int64, window: int64)
  {
    predicate Valid() {
      0 <= interval <= window && 0 < window
    }
  }

  function NewRate(max: int64, window: int64): (r: Rate)
    requires max > 0 && window > 0
    ensures r.Valid()
  {
    DivBounds(window, max);
    Rate(window / max, window)
  }

  // ---- the exact arithmetic of one decision ----

  function Arrival(tat: int, now: int): int {
    Max(tat, now)
  }

  predicate Admits(r: Rate, tat: int, now: int) {
    Arrival(tat, now) - now <= r.window - r.interval
  }

  /** `tat` after an admission; it stops at the end of the clock. */
  function Advance(r: Rate, tat: int, now: int): int {
    Min(Arrival(tat, now) + r.interval, MAX_INT64)
  }

  // ---- the code ----

  /** The shared word. Others may move it, only forward, before any operation of ours. */
  class Word {
    var v: int64

    constructor (v: int64)
      ensures this.v == v
    {
      this.v := v;
    }

    method Interfere()
      requires v >= 0
      modifies this
      ensures v >= old(v)
    {
      var ahead: int64 :| ahead >= v;
      v := ahead;
    }

    method Load() returns (x: int64)
      requires v >= 0
      modifies this
      ensures x == v >= old(v)
    {
      Interfere();
      x := v;
    }

    /** `found` is the word's value at the instant of the operation. */
    method CompareAndSwap(expected: int64, next: int64) returns (ok: bool, ghost found: int64)
      requires v >= 0
      modifies this
      ensures found >= old(v) && ok == (found == expected)
      ensures v == if ok then next else found
    {
      Interfere();
      found := v;
      ok := v == expected;
      if ok {
        v := next;
      }
    }
  }

  class Limiter {
    const rate: Rate
    const tat: Word

    constructor (max: int64, window: int64)
      requires max > 0 && window > 0
      ensures Valid() && rate == NewRate(max, window) && tat.v == 0 && fresh(tat)
    {
      rate := NewRate(max, window);
      tat := new Word(0);
    }

    ghost predicate Valid()
      reads tat
    {
      rate.Valid() && tat.v >= 0
    }

    /** Allow, whatever the other callers do meanwhile: it ends; its answer is the exact one
        for the value `seen` the word had at one instant of the call; an admission moved the
        word from that value to the next at that instant, and a refusal wrote nothing. */
    method Allow(now: int64) returns (ok: bool, ghost seen: int64)
      requires Valid() && now >= 0
      modifies tat
      ensures Valid() && old(tat.v) <= seen <= tat.v
      ensures ok == Admits(rate, seen, now)
      ensures tat.v == if ok then Advance(rate, seen, now) else seen
    {
      while true
        invariant Valid() && old(tat.v) <= tat.v
        decreases MAX_INT64 - tat.v
      {
        var before := tat.Load();
        var t: int64 := if before >= now then before else now;
        if Wrapped(t - now) > Wrapped(rate.window - rate.interval) {
          return false, before;
        }
        var next := Wrapped(t + rate.interval);
        if next < t {
          next := MAX_INT64;
        }
        var swapped, _ := tat.CompareAndSwap(before, next);
        if swapped {
          return true, before;
        }
      }
    }
  }

  // ---- one caller after another ----

  /** The limiter's answers to a list of clock readings, with nobody else calling. */
  function Answers(r: Rate, tat: int, nows: seq<int>): seq<bool>
    decreases |nows|
  {
    if nows == [] then []
    else
      var ok := Admits(r, tat, nows[0]);
      [ok] + Answers(r, if ok then Advance(r, tat, nows[0]) else tat, nows[1..])
  }

  /** A leaky bucket: a credit of at most W, refilled by one a nanosecond, charged I for each
      record admitted. */
  datatype Bucket = Bucket(credit: int, at: int)
  {
    function Refilled(r: Rate, now: int): int {
      Min(r.window, credit + (now - at))
    }
  }

  function BucketAnswers(r: Rate, b: Bucket, nows: seq<int>): seq<bool>
    decreases |nows|
  {
    if nows == [] then []
    else
      var credit := b.Refilled(r, nows[0]);
      var ok := credit >= r.interval;
      [ok] + BucketAnswers(r, Bucket(if ok then credit - r.interval else credit, nows[0]), nows[1..])
  }

  /** Readings that never run backwards and stay a window short of the end of the clock. */
  predicate Clock(r: Rate, from: int, nows: seq<int>) {
    && (forall i :: 0 <= i < |nows| ==> from <= nows[i] <= MAX_INT64 - r.window)
    && (forall i, j :: 0 <= i < j < |nows| ==> nows[i] <= nows[j])
  }

  function Credit(r: Rate, tat: int, now: int): int {
    r.window - Max(0, tat - now)
  }

  /** The limiter is that bucket, answer for answer, over any run of calls. */
  lemma {:induction false} RefinesBucket(r: Rate, tat: int, at: int, nows: seq<int>)
    requires r.Valid() && tat <= at + r.window && Clock(r, at, nows)
    ensures Answers(r, tat, nows) == BucketAnswers(r, Bucket(Credit(r, tat, at), at), nows)
    decreases |nows|
  {
    if nows != [] {
      var now := nows[0];
      var ok := Admits(r, tat, now);
      assert Bucket(Credit(r, tat, at), at).Refilled(r, now) == Credit(r, tat, now);
      assert ok <==> Credit(r, tat, now) >= r.interval;
      var next := if ok then Advance(r, tat, now) else tat;
      assert ok ==> Credit(r, next, now) == Credit(r, tat, now) - r.interval;
      assert Clock(r, now, nows[1..]);
      RefinesBucket(r, next, now, nows[1..]);
    }
  }

  // ---- how much a window admits ----

  /** A window's worth is max records exactly when what the division left over is less than
      the interval; otherwise it is more. */
  lemma WindowsWorth(max: int64, window: int64)
    requires max > 0 && window > 0 && NewRate(max, window).interval > 0
    ensures window / NewRate(max, window).interval >= max
    ensures window / NewRate(max, window).interval == max <==> window % max < NewRate(max, window).interval
  {
    var i, q := window / max, window / (window / max);
    DivMod(window, max);
    DivMod(window, i);
    assert max * i == i * max && i * q == q * i;
    assert (q + 1) * i == q * i + i && (max + 1) * i == max * i + i;
    Squeeze(max, q + 1, i);
    if window % max < i {
      Squeeze(q, max + 1, i);
    } else {
      Squeeze(max + 1, q + 1, i);
    }
  }
}
