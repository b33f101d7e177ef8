/** What the server's first answer to a batch leads to, status by status. */
module Statuses {
  import opened Options
  import opened Records
  import opened Backoff
  import opened Delivery
  import opened Course

  /** So many records more under each of the four counters. */
  predicate Counted4(s: Shot, t: Shot, sent: nat, rejected: nat, oversize: nat, closed: nat) {
    && t.sent == s.sent + sent && t.rejected == s.rejected + rejected
    && t.oversize == s.oversize + oversize && t.closed == s.closed + closed
  }

  /** One request was made and nothing was waited for. */
  predicate AskedOnce(s: Shot, t: Shot) {
    |t.requests| == |s.requests| + 1 && t.retries == s.retries && t.naps == s.naps && t.calls == s.calls + 1
  }

  /** An answer that settles the batch. */
  lemma SettledByFirst(e: Rules, p: Point, records: seq<Bytes>, deadline: int, depth: nat, luck: Luck, why: Why)
    requires e.Valid() && records != []
    requires Verdict(AnswerAt(e, p), |records|, p.shot.cancelled || e.script(p.turn).cancels) == Some(Settled(why))
    ensures var d, n := Delivered(e, p, records, deadline, depth, luck), |records|;
      && AskedOnce(p.shot, d.at.shot) && d.ok == (why == Sent)
      && Counted4(p.shot, d.at.shot, if why == Sent then n else 0, if why == Rejected then n else 0,
                  if why == Oversize then n else 0, if why == Closed then n else 0)
  {
    assert AnswerAt(e, Enters(p, depth)) == AnswerAt(e, p);
    assert Upload(e, p, records, deadline, depth) == Attempt(e, Enters(p, depth), records, deadline, 0);
  }

  /** 2xx: everything was sent. */
  lemma Accepts(e: Rules, p: Point, records: seq<Bytes>, deadline: int, depth: nat, luck: Luck)
    requires e.Valid() && records != [] && AnswerAt(e, p).Response? && 200 <= AnswerAt(e, p).status <= 299
    ensures var d := Delivered(e, p, records, deadline, depth, luck);
      d.ok && AskedOnce(p.shot, d.at.shot) && Counted4(p.shot, d.at.shot, |records|, 0, 0, 0)
  {
    SettledByFirst(e, p, records, deadline, depth, luck, Sent);
  }

  /** 413 for a single record: it is too big. */
  lemma RefusesOne(e: Rules, p: Point, records: seq<Bytes>, deadline: int, depth: nat, luck: Luck)
    requires e.Valid() && |records| == 1 && AnswerAt(e, p).Response? && AnswerAt(e, p).status == 413
    ensures var d := Delivered(e, p, records, deadline, depth, luck);
      !d.ok && AskedOnce(p.shot, d.at.shot) && Counted4(p.shot, d.at.shot, 0, 0, 1, 0)
  {
    SettledByFirst(e, p, records, deadline, depth, luck, Oversize);
  }

  /** Any other status that is neither 408 nor 429 nor from 500 to 599: rejected, at once. */
  lemma Rejects(e: Rules, p: Point, records: seq<Bytes>, deadline: int, depth: nat, luck: Luck)
    requires e.Valid() && records != [] && AnswerAt(e, p).Response?
    requires var status := AnswerAt(e, p).status;
      !(200 <= status <= 299) && status != 413 && status != 408 && status != 429 && !(500 <= status <= 599)
    ensures var d := Delivered(e, p, records, deadline, depth, luck);
      !d.ok && AskedOnce(p.shot, d.at.shot) && Counted4(p.shot, d.at.shot, 0, |records|, 0, 0)
  {
    SettledByFirst(e, p, records, deadline, depth, luck, Rejected);
  }

  /** A failed request under a cancelled context: a casualty of shutdown. */
  lemma ShutDown(e: Rules, p: Point, records: seq<Bytes>, deadline: int, depth: nat, luck: Luck)
    requires e.Valid() && records != [] && AnswerAt(e, p).Error? && (p.shot.cancelled || e.script(p.turn).cancels)
    ensures var d := Delivered(e, p, records, deadline, depth, luck);
      !d.ok && AskedOnce(p.shot, d.at.shot) && Counted4(p.shot, d.at.shot, 0, 0, 0, |records|)
  {
    SettledByFirst(e, p, records, deadline, depth, luck, Closed);
  }

  // ---- worth another attempt ----

  /** No answer, or 408, 429 or 500 to 599. */
  predicate Passing(a: Answer) {
    a.Error? || a.status == 408 || a.status == 429 || 500 <= a.status <= 599
  }

  /** How long the first answer has the worker wait. */
  ghost function FirstDelay(e: Rules, p: Point): (d: nat)
    requires e.Valid()
  {
    var a, now := AnswerAt(e, p), p.shot.now + e.script(p.turn).takes;
    DelayOf(e, p.turn + 1, 1, if a.Error? then 0 else ParseRetryAfter(a.retryAfter, now, e.date))
  }

  /** When that wait would begin. */
  function WaitStart(e: Rules, p: Point): int {
    p.shot.now + e.script(p.turn).takes + e.script(p.turn + 1).takes
  }

  /** Nothing is cancelled before the second request has been answered. */
  predicate Alive(e: Rules, p: Point) {
    !p.shot.cancelled && forall k :: p.turn <= k <= p.turn + 3 ==> !e.script(k).cancels
  }

  /** The first attempt has failed in passing: the second one, or giving up. */
  lemma FirstPasses(e: Rules, p: Point, records: seq<Bytes>, deadline: int, depth: nat)
    requires e.Valid() && records != [] && Alive(e, p) && Passing(AnswerAt(e, p))
    ensures var m, a := Asks(e, Enters(p, depth), records), AnswerAt(e, p);
      && Upload(e, p, records, deadline, depth) == Tries(e, m, records, deadline, 1, AskedFor(e, m, a), a)
      && DelayOf(e, m.turn, 1, AskedFor(e, m, a)) == FirstDelay(e, p)
      && Looks(e, m).shot.now == WaitStart(e, p)
  {
    assert AnswerAt(e, Enters(p, depth)) == AnswerAt(e, p);
    assert Upload(e, p, records, deadline, depth) == Attempt(e, Enters(p, depth), records, deadline, 0);
    var a := AnswerAt(e, p);
    assert Verdict(a, |records|, false) == None;
  }

  /** With a retry left and time to wait for it, a passing failure costs one wait and one more
      request: if that one is answered 2xx everything has been sent. */
  lemma RetriedThenSent(e: Rules, p: Point, records: seq<Bytes>, deadline: int, depth: nat, luck: Luck)
    requires e.Valid() && records != [] && e.maxRetries >= 1 && Alive(e, p) && Passing(AnswerAt(e, p))
    requires WaitStart(e, p) + FirstDelay(e, p) <= deadline
    requires var second := e.script(p.turn + 3).answer; second.Response? && 200 <= second.status <= 299
    ensures var d := Delivered(e, p, records, deadline, depth, luck);
      && d.ok && Counted4(p.shot, d.at.shot, |records|, 0, 0, 0)
      && |d.at.shot.requests| == |p.shot.requests| + 2 && d.at.shot.retries == p.shot.retries + 1
      && d.at.shot.naps == p.shot.naps + [Nap(WaitStart(e, p), FirstDelay(e, p), true)]
      && d.at.shot.requests[|p.shot.requests| + 1].records == records
  {
    hide DelayOf, FirstDelay, Upload, ParseRetryAfter;
    FirstPasses(e, p, records, deadline, depth);
    var m, a := Asks(e, Enters(p, depth), records), AnswerAt(e, p);
    var (q, paused) := Pauses(e, m, deadline, 1, AskedFor(e, m, a));
    assert paused.Rested? && q.turn == p.turn + 3 && !q.shot.cancelled;
    assert Tries(e, m, records, deadline, 1, AskedFor(e, m, a), a) == Attempt(e, q, records, deadline, 1);
    assert AnswerAt(e, q) == e.script(p.turn + 3).answer;
  }

  /** With none left, or no time for it, it is the end. */
  lemma NotRetried(e: Rules, p: Point, records: seq<Bytes>, deadline: int, depth: nat, luck: Luck)
    requires e.Valid() && records != [] && Alive(e, p) && Passing(AnswerAt(e, p))
    requires e.maxRetries == 0 || WaitStart(e, p) + FirstDelay(e, p) > deadline
    ensures var d := Delivered(e, p, records, deadline, depth, luck);
      !d.ok && AskedOnce(p.shot, d.at.shot) && Counted4(p.shot, d.at.shot, 0, |records|, 0, 0)
  {
    hide DelayOf, FirstDelay, Upload, ParseRetryAfter;
    FirstPasses(e, p, records, deadline, depth);
  }
}
