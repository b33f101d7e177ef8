/** What delivering one batch does, as a relation between two snapshots of an upload worker
    and the world it talks to. Parts of a delivery compose, which is what the recursion over
    split halves and the retry loop both lean on. */
module Delivery {
  import opened Records
  import opened Options
  import opened Int64
  import opened Backoff

  // ---- history ----

  datatype Why = Sent | Rejected | Oversize | Closed

  datatype Answer = Error | Response(status: int, retryAfter: Bytes)

  /** One piece of a batch whose fate is settled, by the last answer it got. */
  datatype Resolved = Resolved(records: seq<Bytes>, why: Why, last: Answer)

  /** One request on the wire, what it was answered and when. */
  datatype Request = Request(records: seq<Bytes>, body: Bytes, answer: Answer, at: int)

  /** One wait between attempts: begun at `at`, scheduled to last `d`. */
  datatype Nap = Nap(at: int, d: nat, done: bool)

  /** What happened when: an upload began, a request was made and answered, a wait was taken
      that was scheduled to end at `ends`. */
  datatype Event =
    | Began(at: int)
    | Asking(begun: int, at: int)
    | Waited(at: int, ends: int, done: bool, until: int)
  {
    function Start(): int {
      if Asking? then begun else at
    }

    function Stop(): int {
      if Waited? then until else at
    }
  }

  /** Everything a delivery changes. */
  datatype Shot = Shot(now: int, cancelled: bool, sent: nat, rejected: nat, oversize: nat, closed: nat,
                       retries: nat, calls: nat, deepest: nat,
                       requests: seq<Request>, naps: seq<Nap>, resolved: seq<Resolved>, events: seq<Event>)

  /** What a delivery may depend on besides the batch. `obeys` says that the HTTP client
      fails every request begun under a cancelled context, as net/http does; `splits` that
      packing cannot fail, there being no compression. */
  datatype Terms = Terms(maxRetries: nat, deadline: int, obeys: bool, splits: bool, bodyOf: seq<Bytes> -> Bytes)

  // ---- reading the history ----

  function Flat(rs: seq<Resolved>): seq<Bytes> {
    if rs == [] then [] else rs[0].records + Flat(rs[1..])
  }

  function Count(rs: seq<Resolved>, why: Why): nat {
    if rs == [] then 0 else (if rs[0].why == why then |rs[0].records| else 0) + Count(rs[1..], why)
  }

  /** Time really spent waiting. */
  function Slept(naps: seq<Nap>): nat {
    if naps == [] then 0 else (if naps[0].done then naps[0].d else 0) + Slept(naps[1..])
  }

  /** Time the waits were scheduled to take. */
  function Scheduled(naps: seq<Nap>): nat {
    if naps == [] then 0 else naps[0].d + Scheduled(naps[1..])
  }

  /** The part of that which belongs to waits cut short. */
  function Abandoned(naps: seq<Nap>): nat {
    if naps == [] then 0 else (if naps[0].done then 0 else naps[0].d) + Abandoned(naps[1..])
  }

  /** The waits fall one after the other between two times. */
  predicate Spaced(naps: seq<Nap>, from: int, to: int) {
    if naps == [] then from <= to
    else from <= naps[0].at && Spaced(naps[1..], naps[0].at + (if naps[0].done then naps[0].d else 0), to)
  }

  /** No wait but the last was cut short. */
  predicate Tidy(naps: seq<Nap>) {
    forall i :: 0 <= i < |naps| - 1 ==> naps[i].done
  }

  /** Events one after the other between two times. */
  predicate Timed(log: seq<Event>, from: int, to: int) {
    if log == [] then from <= to
    else from <= log[0].Start() <= log[0].Stop() && Timed(log[1..], log[0].Stop(), to)
  }

  /** What a request may follow: the beginning of its upload, or a wait that ran its course
      and was scheduled to end by the deadline. */
  predicate Leads(e: Event, deadline: int) {
    e.Began? || (e.Waited? && e.done && e.ends <= deadline)
  }

  predicate Orderly(log: seq<Event>, deadline: int) {
    forall i :: 0 <= i < |log| && log[i].Asking? ==> i > 0 && Leads(log[i - 1], deadline)
  }

  /** How many uploads began. */
  function Starts(log: seq<Event>): nat {
    if log == [] then 0 else (if log[0].Began? then 1 else 0) + Starts(log[1..])
  }

  /** When the last of them did. */
  function LastStart(log: seq<Event>, none: int): int {
    if log == [] then none
    else if log[|log| - 1].Began? then log[|log| - 1].at
    else LastStart(log[..|log| - 1], none)
  }

  predicate StartsLate(log: seq<Event>, deadline: int) {
    exists i :: 0 <= i < |log| && log[i].Began? && log[i].at > deadline
  }

  predicate Unhurried(naps: seq<Nap>) {
    forall n :: n in naps ==> n.done
  }

  predicate InTime(naps: seq<Nap>, deadline: int) {
    forall n :: n in naps ==> n.at + n.d <= deadline
  }

  predicate Honest(requests: seq<Request>, bodyOf: seq<Bytes> -> Bytes) {
    forall q :: q in requests ==> q.body == bodyOf(q.records)
  }

  predicate AllSent(rs: seq<Resolved>) {
    forall r :: r in rs ==> r.why == Sent
  }

  predicate Accepted(a: Answer) {
    a.Response? && 200 <= a.status <= 299
  }

  /** isRetryable. */
  predicate Retryable(status: int) {
    status == 408 || status == 429 || 500 <= status <= 599
  }

  /** An answer that is worth another attempt. */
  predicate Again(a: Answer) {
    a.Error? || Retryable(a.status)
  }

  /** The wait a server asked for with its answer, none if it did not. */
  function Asked(q: Request, date: Bytes -> Option<int>): int64 {
    if q.answer.Error? then 0 else ParseRetryAfter(q.answer.retryAfter, q.at, date)
  }

  /** A delay that suits attempt number `attempt`. */
  predicate FitsDelay(d: int, base: int, attempt: nat, asked: int) {
    if asked > 0 then d == Min(asked, MAX_RETRY_AFTER) else attempt >= 1 && 0 <= d <= Cap(base, attempt)
  }

  /** One wait between any two requests, each as long as the answer before it asked or the
      backoff for its attempt allows. */
  ghost predicate Paced(naps: seq<Nap>, requests: seq<Request>, base: int, date: Bytes -> Option<int>) {
    && |naps| <= |requests| <= |naps| + 1
    && forall i {:trigger naps[i]} :: 0 <= i < |naps| ==> FitsDelay(naps[i].d, base, i + 1, Asked(requests[i], date))
  }

  /** The fate of n records is what their last answer calls for. `Rejected` covers a terminal
      answer, a spent budget, and a split whose compression failed. */
  predicate FitsFate(why: Why, last: Answer, n: nat) {
    match why
    case Sent => Accepted(last)
    case Oversize => last.Response? && last.status == 413 && n == 1
    case Rejected => !Accepted(last) && !(last.Response? && last.status == 413 && n == 1)
    case Closed => Again(last)
  }

  predicate Justified(r: Resolved) {
    FitsFate(r.why, r.last, |r.records|)
  }

  /** A 413 on a batch of two or more leads to its halves, not to a verdict. */
  predicate SplitFirst(r: Resolved) {
    r.last.Response? && r.last.status == 413 ==> |r.records| <= 1
  }

  predicate AllSplitFirst(rs: seq<Resolved>) {
    forall r :: r in rs ==> SplitFirst(r)
  }

  predicate AllJustified(rs: seq<Resolved>) {
    forall r :: r in rs ==> Justified(r)
  }

  // ---- lists ----

  lemma FlatFirst(a: seq<Resolved>, b: seq<Resolved>)
    requires a != []
    ensures Flat(a + b) == a[0].records + Flat(a[1..] + b) && Flat(a) == a[0].records + Flat(a[1..])
  {
    assert (a + b)[0] == a[0] && (a + b)[1..] == a[1..] + b;
  }

  lemma {:induction false} FlatConcat(a: seq<Resolved>, b: seq<Resolved>)
    ensures Flat(a + b) == Flat(a) + Flat(b)
  {
    if a == [] {
      assert a + b == b;
    } else {
      FlatConcat(a[1..], b);
      FlatFirst(a, b);
      hide Flat;
      Assoc(a[0].records, Flat(a[1..]), Flat(b));
    }
  }

  lemma {:induction false} CountConcat(a: seq<Resolved>, b: seq<Resolved>, why: Why)
    ensures Count(a + b, why) == Count(a, why) + Count(b, why)
  {
    if a == [] {
      assert a + b == b;
    } else {
      CountConcat(a[1..], b, why);
      assert (a + b)[1..] == a[1..] + b;
    }
  }

  /** Every record resolved is counted under one reason. */
  lemma {:induction false} CountsCover(rs: seq<Resolved>)
    ensures Count(rs, Sent) + Count(rs, Rejected) + Count(rs, Oversize) + Count(rs, Closed) == |Flat(rs)|
  {
    if rs != [] {
      CountsCover(rs[1..]);
    }
  }

  lemma {:induction false} SpacedConcat(a: seq<Nap>, b: seq<Nap>, from: int, mid: int, to: int)
    requires Spaced(a, from, mid) && Spaced(b, mid, to)
    ensures Spaced(a + b, from, to)
  {
    if a == [] {
      assert a + b == b;
    } else {
      var next := a[0].at + (if a[0].done then a[0].d else 0);
      SpacedConcat(a[1..], b, next, mid, to);
      assert (a + b)[1..] == a[1..] + b;
    }
  }

  /** Waits that follow one another and end by the deadline fit between the start and the
      deadline, counting in full the last one even if it was cut short. */
  lemma {:induction false} SpacedFit(naps: seq<Nap>, from: int, to: int, deadline: int)
    requires Spaced(naps, from, to) && InTime(naps, deadline)
    ensures Slept(naps) <= if naps == [] then 0 else deadline - from
    ensures Tidy(naps) ==> Scheduled(naps) <= if naps == [] then 0 else deadline - from
    decreases |naps|
  {
    if naps != [] {
      var n := naps[0];
      var next := n.at + (if n.done then n.d else 0);
      assert forall m :: m in naps[1..] ==> m in naps;
      assert n in naps;
      SpacedFit(naps[1..], next, to, deadline);
      if Tidy(naps) && |naps| > 1 {
        assert naps[0].done;
        assert forall i :: 0 <= i < |naps| - 2 ==> naps[1..][i] == naps[i + 1];
      }
    }
  }

  // ---- one part of a delivery ----

  function NewRequests(s: Shot, t: Shot): seq<Request>
    requires s.requests <= t.requests
  {
    t.requests[|s.requests|..]
  }

  function NewNaps(s: Shot, t: Shot): seq<Nap>
    requires s.naps <= t.naps
  {
    t.naps[|s.naps|..]
  }

  function NewResolved(s: Shot, t: Shot): seq<Resolved>
    requires s.resolved <= t.resolved
  {
    t.resolved[|s.resolved|..]
  }

  predicate Extends(s: Shot, t: Shot) {
    s.requests <= t.requests && s.naps <= t.naps && s.resolved <= t.resolved && s.events <= t.events
  }

  function NewEvents(s: Shot, t: Shot): seq<Event>
    requires s.events <= t.events
  {
    t.events[|s.events|..]
  }

  /** What happened, in order of time, with one start for each upload counted. */
  predicate Logs(s: Shot, t: Shot, deadline: int)
    requires s.events <= t.events
  {
    var log := NewEvents(s, t);
    Timed(log, s.now, t.now) && Orderly(log, deadline) && s.calls <= t.calls && Starts(log) == t.calls - s.calls
  }

  /** These records were resolved, in this order, each by the counter its fate says. */
  predicate Accounts(s: Shot, t: Shot, records: seq<Bytes>)
    requires Extends(s, t)
  {
    var rs := NewResolved(s, t);
    && Flat(rs) == records
    && AllJustified(rs)
    && t.sent == s.sent + Count(rs, Sent)
    && t.rejected == s.rejected + Count(rs, Rejected)
    && t.oversize == s.oversize + Count(rs, Oversize)
    && t.closed == s.closed + Count(rs, Closed)
  }

  /** Requests are uploads plus retries, few per upload, and say what their records say. */
  predicate Requests(s: Shot, t: Shot, terms: Terms, calls: nat)
    requires Extends(s, t)
  {
    var made := |NewRequests(s, t)|;
    && s.calls <= t.calls <= s.calls + calls
    && s.retries <= t.retries
    && made == (t.calls - s.calls) + (t.retries - s.retries)
    && made <= (t.calls - s.calls) * (terms.maxRetries + 1)
    && Honest(NewRequests(s, t), terms.bodyOf)
  }

  /** The waits: one after the other, each scheduled to end by the deadline. */
  predicate Waits(s: Shot, t: Shot, terms: Terms)
    requires Extends(s, t)
  {
    var naps := NewNaps(s, t);
    && Spaced(naps, s.now, t.now)
    && InTime(naps, terms.deadline)
    && (s.cancelled ==> t.cancelled)
    && (terms.obeys && s.cancelled ==> naps == [])
    && (terms.obeys ==> Tidy(naps))
    && (naps != [] && !naps[|naps| - 1].done ==> t.cancelled)
  }

  predicate Delivers(s: Shot, t: Shot, terms: Terms, records: seq<Bytes>, calls: nat, depth: nat, ok: bool) {
    && Extends(s, t)
    && Accounts(s, t, records)
    && Requests(s, t, terms, calls)
    && Waits(s, t, terms)
    && Logs(s, t, terms.deadline)
    && s.deepest <= t.deepest && (t.deepest <= s.deepest || t.deepest <= depth)
    && (ok <==> AllSent(NewResolved(s, t)))
    && (terms.splits ==> AllSplitFirst(NewResolved(s, t)))
  }

  // ---- composition ----

  lemma NewSplits(s: Shot, m: Shot, t: Shot)
    requires Extends(s, m) && Extends(m, t)
    ensures Extends(s, t)
    ensures NewRequests(s, t) == NewRequests(s, m) + NewRequests(m, t)
    ensures NewNaps(s, t) == NewNaps(s, m) + NewNaps(m, t)
    ensures NewResolved(s, t) == NewResolved(s, m) + NewResolved(m, t)
  {
  }

  lemma ComposeAccounts(s: Shot, m: Shot, t: Shot, a: seq<Bytes>, b: seq<Bytes>)
    requires Extends(s, m) && Extends(m, t)
    requires Accounts(s, m, a) && Accounts(m, t, b)
    ensures Extends(s, t) && Accounts(s, t, a + b)
    ensures AllSent(NewResolved(s, t)) <==> AllSent(NewResolved(s, m)) && AllSent(NewResolved(m, t))
    ensures AllSplitFirst(NewResolved(s, t)) <==> AllSplitFirst(NewResolved(s, m)) && AllSplitFirst(NewResolved(m, t))
  {
    NewSplits(s, m, t);
    var x, y := NewResolved(s, m), NewResolved(m, t);
    FlatConcat(x, y);
    CountConcat(x, y, Sent);
    CountConcat(x, y, Rejected);
    CountConcat(x, y, Oversize);
    CountConcat(x, y, Closed);
    assert forall r :: r in x + y <==> r in x || r in y;
  }

  lemma ComposeRequests(s: Shot, m: Shot, t: Shot, terms: Terms, a: nat, b: nat)
    requires Extends(s, m) && Extends(m, t)
    requires Requests(s, m, terms, a) && Requests(m, t, terms, b)
    ensures Extends(s, t) && Requests(s, t, terms, a + b)
  {
    NewSplits(s, m, t);
    var x, y, per := m.calls - s.calls, t.calls - m.calls, terms.maxRetries + 1;
    assert (x + y) * per == x * per + y * per;
  }

  lemma InTimeConcat(a: seq<Nap>, b: seq<Nap>, deadline: int)
    requires InTime(a, deadline) && InTime(b, deadline)
    ensures InTime(a + b, deadline)
  {
  }

  lemma TidyConcat(a: seq<Nap>, b: seq<Nap>)
    requires Tidy(a) && Tidy(b) && (a == [] || b == [] || a[|a| - 1].done)
    ensures Tidy(a + b)
  {
    forall i | 0 <= i < |a + b| - 1
      ensures (a + b)[i].done
    {
      if i < |a| {
        assert (a + b)[i] == a[i];
      } else {
        assert (a + b)[i] == b[i - |a|];
      }
    }
  }

  lemma ComposeWaits(s: Shot, m: Shot, t: Shot, terms: Terms)
    requires Extends(s, m) && Extends(m, t)
    requires Waits(s, m, terms) && Waits(m, t, terms)
    ensures Extends(s, t) && Waits(s, t, terms)
  {
    hide Spaced, InTime, Tidy, NewNaps;
    NewSplits(s, m, t);
    var x, y := NewNaps(s, m), NewNaps(m, t);
    SpacedConcat(x, y, s.now, m.now, t.now);
    InTimeConcat(x, y, terms.deadline);
    if terms.obeys {
      TidyConcat(x, y);
    }
    LastOfConcat(x, y);
  }

  lemma LastOfConcat(x: seq<Nap>, y: seq<Nap>)
    ensures y == [] ==> x + y == x
    ensures y != [] ==> (x + y)[|x + y| - 1] == y[|y| - 1]
  {
  }

  lemma {:induction false} TimedConcat(a: seq<Event>, b: seq<Event>, from: int, mid: int, to: int)
    requires Timed(a, from, mid) && Timed(b, mid, to)
    ensures Timed(a + b, from, to)
  {
    if a == [] {
      assert a + b == b;
      TimedLonger(b, from, mid, to);
    } else {
      assert (a + b)[0] == a[0] && (a + b)[1..] == a[1..] + b;
      TimedConcat(a[1..], b, a[0].Stop(), mid, to);
    }
  }

  lemma TimedLonger(log: seq<Event>, from: int, mid: int, to: int)
    requires Timed(log, mid, to) && from <= mid
    ensures Timed(log, from, to)
  {
    if log == [] {
    }
  }

  lemma {:induction false} StartsConcat(a: seq<Event>, b: seq<Event>)
    ensures Starts(a + b) == Starts(a) + Starts(b)
  {
    if a == [] {
      assert a + b == b;
    } else {
      assert (a + b)[0] == a[0] && (a + b)[1..] == a[1..] + b;
      StartsConcat(a[1..], b);
    }
  }

  lemma OrderlyConcat(a: seq<Event>, b: seq<Event>, deadline: int)
    requires Orderly(a, deadline) && Orderly(b, deadline)
    ensures Orderly(a + b, deadline)
  {
    var log := a + b;
    forall i | 0 <= i < |log| && log[i].Asking?
      ensures i > 0 && Leads(log[i - 1], deadline)
    {
      if i < |a| {
        assert a[i].Asking?;
      } else {
        assert b[i - |a|].Asking?;
      }
    }
  }

  lemma ComposeLogs(s: Shot, m: Shot, t: Shot, deadline: int)
    requires Extends(s, m) && Extends(m, t)
    requires Logs(s, m, deadline) && Logs(m, t, deadline)
    ensures Extends(s, t) && Logs(s, t, deadline)
  {
    hide Timed, Orderly, Starts;
    var x, y := NewEvents(s, m), NewEvents(m, t);
    assert NewEvents(s, t) == x + y;
    TimedConcat(x, y, s.now, m.now, t.now);
    OrderlyConcat(x, y, deadline);
    StartsConcat(x, y);
  }

  /** One event more. */
  lemma LogsOne(s: Shot, m: Shot, t: Shot, e: Event, deadline: int)
    requires s.events <= m.events && Logs(s, m, deadline) && t.events == m.events + [e]
    requires m.now <= e.Start() <= e.Stop() <= t.now
    requires t.calls == m.calls + (if e.Began? then 1 else 0)
    requires e.Asking? ==> |m.events| > |s.events| && Leads(m.events[|m.events| - 1], deadline)
    ensures s.events <= t.events && Logs(s, t, deadline)
  {
    hide Leads;
    var x := NewEvents(s, m);
    assert NewEvents(s, t) == x + [e];
    assert [e][1..] == [];
    assert Timed([e], m.now, t.now) && Starts([e]) == if e.Began? then 1 else 0;
    TimedConcat(x, [e], s.now, m.now, t.now);
    StartsConcat(x, [e]);
    OrderlyOne(x, e, deadline);
  }

  lemma OrderlyOne(x: seq<Event>, e: Event, deadline: int)
    requires Orderly(x, deadline) && (e.Asking? ==> x != [] && Leads(x[|x| - 1], deadline))
    ensures Orderly(x + [e], deadline)
  {
    hide Leads;
    var log := x + [e];
    forall i | 0 <= i < |log| && log[i].Asking?
      ensures i > 0 && Leads(log[i - 1], deadline)
    {
      if i < |x| {
        assert x[i].Asking?;
      }
    }
  }

  lemma LogsLater(s: Shot, m: Shot, t: Shot, deadline: int)
    requires s.events <= m.events && Logs(s, m, deadline)
    requires t.events == m.events && m.now <= t.now && t.calls == m.calls
    ensures Logs(s, t, deadline)
  {
    var x := NewEvents(s, m);
    assert x + [] == x;
    TimedConcat(x, [], s.now, m.now, t.now);
  }

  /** Two deliveries one after the other are a delivery of both their records. */
  lemma Compose(s: Shot, m: Shot, t: Shot, terms: Terms, a: seq<Bytes>, b: seq<Bytes>,
                callsA: nat, callsB: nat, depth: nat, okA: bool, okB: bool)
    requires Delivers(s, m, terms, a, callsA, depth, okA)
    requires Delivers(m, t, terms, b, callsB, depth, okB)
    ensures Delivers(s, t, terms, a + b, callsA + callsB, depth, okA && okB)
  {
    ComposeAccounts(s, m, t, a, b);
    ComposeRequests(s, m, t, terms, callsA, callsB);
    ComposeWaits(s, m, t, terms);
    ComposeLogs(s, m, t, terms.deadline);
  }

  lemma DeliveryExtends(s: Shot, t: Shot, terms: Terms, records: seq<Bytes>, calls: nat, depth: nat, ok: bool)
    requires Delivers(s, t, terms, records, calls, depth, ok)
    ensures Extends(s, t)
  {
  }

  lemma Deeper(s: Shot, t: Shot, terms: Terms, records: seq<Bytes>, calls: nat, more: nat, depth: nat, deep: nat, ok: bool)
    requires Delivers(s, t, terms, records, calls, depth, ok) && calls <= more && depth <= deep
    ensures Delivers(s, t, terms, records, more, deep, ok)
  {
  }

  // ---- the retry loop ----

  /** One upload that has made k requests and neither resolved nor split its batch. */
  predicate Trying(s: Shot, t: Shot, terms: Terms, depth: nat, k: nat) {
    && Extends(s, t)
    && t.resolved == s.resolved
    && t.sent == s.sent && t.rejected == s.rejected && t.oversize == s.oversize && t.closed == s.closed
    && t.calls == s.calls + 1
    && t.retries == s.retries + (if k == 0 then 0 else k - 1)
    && |NewRequests(s, t)| == k <= terms.maxRetries + 1
    && Honest(NewRequests(s, t), terms.bodyOf)
    && Waits(s, t, terms)
    && Logs(s, t, terms.deadline)
    && Unhurried(NewNaps(s, t))
    && (k == 0 ==> NewNaps(s, t) == [])
    && s.deepest <= t.deepest && (t.deepest <= s.deepest || t.deepest <= depth)
  }

  /** An upload that has just begun. */
  lemma Begun(s: Shot, t: Shot, terms: Terms, depth: nat)
    requires t == s.(calls := s.calls + 1, deepest := if depth > s.deepest then depth else s.deepest,
                     events := s.events + [Began(s.now)])
    ensures Trying(s, t, terms, depth, 0)
  {
    assert NewEvents(s, s) == [];
    LogsOne(s, s, t, Began(s.now), terms.deadline);
    assert NewRequests(s, t) == [] && NewNaps(s, t) == [];
  }

  /** Once a request is made, the upload so far is a delivery of nothing. */
  lemma TryingDelivers(s: Shot, t: Shot, terms: Terms, depth: nat, k: nat)
    requires Trying(s, t, terms, depth, k) && k >= 1
    ensures Delivers(s, t, terms, [], 1, depth, true)
  {
    assert NewResolved(s, t) == [];
  }

  lemma SpacedAppend(naps: seq<Nap>, nap: Nap, from: int, mid: int, to: int)
    requires Spaced(naps, from, mid) && mid <= nap.at && nap.at + (if nap.done then nap.d else 0) <= to
    ensures Spaced(naps + [nap], from, to)
  {
    assert [nap][1..] == [];
    assert Spaced([nap], mid, to);
    SpacedConcat(naps, [nap], from, mid, to);
  }

  /** One wait more keeps the waits spaced, in time and tidy. */
  lemma NapWaits(s: Shot, m: Shot, t: Shot, terms: Terms, nap: Nap)
    requires Extends(s, m) && Waits(s, m, terms) && Unhurried(NewNaps(s, m))
    requires Extends(s, t) && t.naps == m.naps + [nap]
    requires m.now <= nap.at && nap.at + nap.d <= terms.deadline
    requires nap.at + (if nap.done then nap.d else 0) <= t.now
    requires (m.cancelled ==> t.cancelled) && (!nap.done ==> t.cancelled) && (terms.obeys ==> !s.cancelled)
    ensures Waits(s, t, terms) && (nap.done ==> Unhurried(NewNaps(s, t)))
  {
    hide Spaced, InTime, Tidy, Unhurried;
    var x := NewNaps(s, m);
    assert NewNaps(s, t) == x + [nap];
    SpacedAppend(x, nap, s.now, m.now, t.now);
    InTimeAppend(x, nap, terms.deadline);
    TidyAppend(x, nap);
  }

  lemma InTimeAppend(naps: seq<Nap>, nap: Nap, deadline: int)
    requires InTime(naps, deadline) && nap.at + nap.d <= deadline
    ensures InTime(naps + [nap], deadline)
  {
  }

  /** A wait taken after k requests, and what the upload is then: ready for another request,
      or at its end because the wait was cut short. */
  lemma Napped(s: Shot, m: Shot, t: Shot, terms: Terms, depth: nat, k: nat, nap: Nap)
    requires Trying(s, m, terms, depth, k) && k >= 1
    requires t == m.(now := t.now, cancelled := t.cancelled, naps := m.naps + [nap],
                     events := m.events + [Waited(nap.at, nap.at + nap.d, nap.done, t.now)])
    requires m.now <= nap.at && nap.at + nap.d <= terms.deadline
    requires nap.at + (if nap.done then nap.d else 0) <= t.now && nap.at <= t.now
    requires m.cancelled ==> t.cancelled
    requires !nap.done ==> t.cancelled
    requires terms.obeys ==> !s.cancelled
    ensures nap.done ==> Trying(s, t, terms, depth, k)
    ensures Delivers(s, t, terms, [], 1, depth, true)
  {
    hide Logs, Waits, Unhurried, Honest, NewNaps, NewEvents;
    NapWaits(s, m, t, terms, nap);
    LogsOne(s, m, t, Waited(nap.at, nap.at + nap.d, nap.done, t.now), terms.deadline);
    assert NewResolved(s, t) == [];
    assert NewRequests(s, t) == NewRequests(s, m);
  }

  lemma TidyAppend(naps: seq<Nap>, nap: Nap)
    requires Unhurried(naps)
    ensures Tidy(naps + [nap])
    ensures nap.done ==> Unhurried(naps + [nap])
    ensures (naps + [nap])[|naps + [nap]| - 1] == nap
  {
    forall i | 0 <= i < |naps|
      ensures (naps + [nap])[i].done
    {
      assert naps[i] in naps;
    }
  }

  /** Time passing changes nothing. */
  lemma {:induction false} SpacedLater(naps: seq<Nap>, from: int, mid: int, to: int)
    requires Spaced(naps, from, mid) && mid <= to
    ensures Spaced(naps, from, to)
  {
    if naps != [] {
      var n := naps[0];
      SpacedLater(naps[1..], n.at + (if n.done then n.d else 0), mid, to);
    }
  }

  lemma StillExtends(s: Shot, t: Shot, terms: Terms, depth: nat, k: nat)
    requires Trying(s, t, terms, depth, k)
    ensures Extends(s, t)
  {
  }

  lemma StillCancelled(s: Shot, t: Shot, terms: Terms, depth: nat, k: nat)
    requires Trying(s, t, terms, depth, k) && s.cancelled
    ensures t.cancelled
  {
  }

  /** One more request. */
  lemma Requested(s: Shot, m: Shot, t: Shot, terms: Terms, depth: nat, k: nat, q: Request)
    requires Trying(s, m, terms, depth, k) && k <= terms.maxRetries
    requires t == m.(now := t.now, cancelled := t.cancelled, requests := m.requests + [q],
                     retries := if k == 0 then m.retries else m.retries + 1,
                     events := m.events + [Asking(m.now, t.now)])
    requires m.now <= t.now && (m.cancelled ==> t.cancelled)
    requires |m.events| > |s.events| && Leads(m.events[|m.events| - 1], terms.deadline)
    requires q.body == terms.bodyOf(q.records)
    ensures Trying(s, t, terms, depth, k + 1)
  {
    assert NewRequests(s, t) == NewRequests(s, m) + [q];
    assert NewNaps(s, t) == NewNaps(s, m);
    SpacedLater(NewNaps(s, m), s.now, m.now, t.now);
    LogsOne(s, m, t, Asking(m.now, t.now), terms.deadline);
  }

  /** Time passing while an upload is between requests. */
  lemma Lingered(s: Shot, m: Shot, t: Shot, terms: Terms, depth: nat, k: nat)
    requires Trying(s, m, terms, depth, k)
    requires t == m.(now := t.now) && m.now <= t.now
    ensures Trying(s, t, terms, depth, k)
  {
    SpacedLater(NewNaps(s, m), s.now, m.now, t.now);
    assert NewNaps(s, t) == NewNaps(s, m);
    LogsLater(s, m, t, terms.deadline);
  }

  /** An upload that has made k requests and taken n waits, each wait as long as it should be,
      every answer but perhaps the last worth another attempt. */
  ghost predicate Went(s: Shot, t: Shot, base: int, date: Bytes -> Option<int>, k: nat, n: nat) {
    && s.requests <= t.requests && s.naps <= t.naps
    && |NewRequests(s, t)| == k && |NewNaps(s, t)| == n
    && Paced(NewNaps(s, t), NewRequests(s, t), base, date)
    && forall i :: 0 <= i < k - 1 ==> Again(NewRequests(s, t)[i].answer)
  }

  lemma PacedAfterNap(naps: seq<Nap>, requests: seq<Request>, more: seq<Nap>, base: int, date: Bytes -> Option<int>)
    requires Paced(naps, requests, base, date) && |requests| == |naps| + 1
    requires |more| == |naps| + 1 && more[..|naps|] == naps
    requires FitsDelay(more[|naps|].d, base, |naps| + 1, Asked(requests[|naps|], date))
    ensures Paced(more, requests, base, date)
  {
    assert forall i :: 0 <= i < |naps| ==> more[i] == naps[i];
  }

  lemma PacedAfterRequest(naps: seq<Nap>, requests: seq<Request>, more: seq<Request>, base: int, date: Bytes -> Option<int>)
    requires Paced(naps, requests, base, date) && |requests| == |naps|
    requires |more| == |requests| + 1 && more[..|requests|] == requests
    ensures Paced(naps, more, base, date)
  {
    assert forall i :: 0 <= i < |requests| ==> more[i] == requests[i];
  }

  lemma NotYetGone(s: Shot, t: Shot, base: int, date: Bytes -> Option<int>)
    requires s.requests == t.requests && s.naps == t.naps
    ensures Went(s, t, base, date, 0, 0)
  {
  }

  lemma WentNoFurther(s: Shot, m: Shot, t: Shot, base: int, date: Bytes -> Option<int>, k: nat, n: nat)
    requires Went(s, m, base, date, k, n) && t.requests == m.requests && t.naps == m.naps
    ensures Went(s, t, base, date, k, n)
  {
  }

  lemma WentOnToWait(s: Shot, m: Shot, t: Shot, base: int, date: Bytes -> Option<int>, k: nat, nap: Nap)
    requires k >= 1 && Went(s, m, base, date, k, k - 1) && m.requests != []
    requires t.requests == m.requests && t.naps == m.naps + [nap]
    requires FitsDelay(nap.d, base, k, Asked(m.requests[|m.requests| - 1], date))
    ensures Went(s, t, base, date, k, k)
  {
    hide FitsDelay, Asked;
    assert NewNaps(s, t) == NewNaps(s, m) + [nap];
    assert NewRequests(s, m)[k - 1] == m.requests[|m.requests| - 1];
    PacedAfterNap(NewNaps(s, m), NewRequests(s, m), NewNaps(s, t), base, date);
  }

  lemma WentOnToRequest(s: Shot, m: Shot, t: Shot, base: int, date: Bytes -> Option<int>, k: nat, q: Request)
    requires Went(s, m, base, date, k, k) && t.naps == m.naps && t.requests == m.requests + [q]
    requires k > 0 ==> m.requests != [] && Again(m.requests[|m.requests| - 1].answer)
    ensures Went(s, t, base, date, k + 1, k)
  {
    hide FitsDelay, Asked, Again;
    assert NewRequests(s, t) == NewRequests(s, m) + [q];
    assert k > 0 ==> NewRequests(s, m)[k - 1] == m.requests[|m.requests| - 1];
    PacedAfterRequest(NewNaps(s, m), NewRequests(s, m), NewRequests(s, t), base, date);
  }

  /** The counter a fate goes under. */
  function Counted(s: Shot, r: Resolved): Shot {
    var n := |r.records|;
    match r.why
    case Sent => s.(resolved := s.resolved + [r], sent := s.sent + n)
    case Rejected => s.(resolved := s.resolved + [r], rejected := s.rejected + n)
    case Oversize => s.(resolved := s.resolved + [r], oversize := s.oversize + n)
    case Closed => s.(resolved := s.resolved + [r], closed := s.closed + n)
  }

  /** One piece settled accounts for its own records. */
  lemma SettledAccounts(s: Shot, r: Resolved)
    requires Justified(r)
    ensures Extends(s, Counted(s, r)) && NewResolved(s, Counted(s, r)) == [r]
    ensures Accounts(s, Counted(s, r), r.records)
  {
    hide FitsFate, Flat, Count;
    var rs := [r];
    assert NewResolved(s, Counted(s, r)) == rs;
    AloneReads(r, Sent);
    AloneReads(r, Rejected);
    AloneReads(r, Oversize);
    AloneReads(r, Closed);
  }

  lemma AloneReads(r: Resolved, why: Why)
    ensures Flat([r]) == r.records
    ensures Count([r], why) == if r.why == why then |r.records| else 0
  {
    var rs := [r];
    assert rs[1..] == [];
  }

  lemma SettledDelivers(s: Shot, terms: Terms, r: Resolved, depth: nat)
    requires Justified(r) && (terms.splits ==> SplitFirst(r))
    ensures Delivers(s, Counted(s, r), terms, r.records, 0, depth, r.why == Sent)
  {
    hide Accounts, Justified, SplitFirst, Flat, Count;
    var t := Counted(s, r);
    SettledAccounts(s, r);
    assert NewNaps(s, t) == [] && NewRequests(s, t) == [] && NewEvents(s, t) == [];
  }

  // ---- what a delivery promises ----

  /** How often a batch of n can be halved before single records are left. */
  function Halvings(n: nat): nat {
    if n <= 1 then 0 else 1 + Halvings(n - n / 2)
  }

  /** Which is the least k with n <= 2^k: the logarithm, rounded up. */
  lemma {:induction false} HalvingsIsLog(n: nat)
    requires n >= 1
    ensures n <= Pow2(Halvings(n))
    ensures n > 1 ==> Pow2(Halvings(n) - 1) < n
  {
    if n > 1 {
      HalvingsIsLog(n - n / 2);
      if n - n / 2 > 1 {
        assert Pow2(Halvings(n) - 1) == 2 * Pow2(Halvings(n - n / 2) - 1);
      }
    }
  }

  lemma {:induction false} HalvingsMonotone(a: nat, b: nat)
    requires a <= b
    ensures Halvings(a) <= Halvings(b)
    decreases b
  {
    if a > 1 {
      HalvingsMonotone(a - a / 2, b - b / 2);
    }
  }

  lemma FewerTimes(a: nat, b: nat, per: nat)
    requires a <= b
    ensures a * per <= b * per
  {
  }

  /** Every record of a delivered batch is counted once, whatever the server, the clock and
      the compressor did; and the requests are as few as the uploads allow. */
  lemma DeliveryCounts(s: Shot, t: Shot, terms: Terms, records: seq<Bytes>, depth: nat, ok: bool)
    requires records != []
    requires Delivers(s, t, terms, records, 2 * |records| - 1, depth, ok)
    ensures (t.sent - s.sent) + (t.rejected - s.rejected) + (t.oversize - s.oversize) + (t.closed - s.closed) == |records|
    ensures |NewRequests(s, t)| == (t.calls - s.calls) + (t.retries - s.retries)
    ensures |NewRequests(s, t)| <= (2 * |records| - 1) * (terms.maxRetries + 1)
    ensures ok ==> t.sent - s.sent == |records|
  {
    var rs := NewResolved(s, t);
    CountsCover(rs);
    FewerTimes(t.calls - s.calls, 2 * |records| - 1, terms.maxRetries + 1);
    if ok {
      AllSentCount(rs);
    }
  }

  lemma {:induction false} AllSentCount(rs: seq<Resolved>)
    requires AllSent(rs)
    ensures Count(rs, Sent) == |Flat(rs)|
  {
    if rs != [] {
      assert rs[0] in rs;
      assert forall r :: r in rs[1..] ==> r in rs;
      AllSentCount(rs[1..]);
    }
  }

  lemma {:induction false} SleptOrAbandoned(naps: seq<Nap>)
    ensures Scheduled(naps) == Slept(naps) + Abandoned(naps)
  {
    if naps != [] {
      SleptOrAbandoned(naps[1..]);
    }
  }

  /** All waiting across a whole split tree fits between the start and the one deadline. So
      does all the waiting that was scheduled, if the HTTP client obeys cancellation; otherwise
      it can exceed that by no more than the waits that were cut short. */
  lemma DeliveryWaits(s: Shot, t: Shot, terms: Terms, records: seq<Bytes>, calls: nat, depth: nat, ok: bool)
    requires Delivers(s, t, terms, records, calls, depth, ok)
    ensures Slept(NewNaps(s, t)) <= if NewNaps(s, t) == [] then 0 else terms.deadline - s.now
    ensures terms.obeys ==> Scheduled(NewNaps(s, t)) <= if NewNaps(s, t) == [] then 0 else terms.deadline - s.now
    ensures Scheduled(NewNaps(s, t)) == Slept(NewNaps(s, t)) + Abandoned(NewNaps(s, t))
  {
    SpacedFit(NewNaps(s, t), s.now, t.now, terms.deadline);
    SleptOrAbandoned(NewNaps(s, t));
  }

  // ---- what happens after the deadline ----

  lemma {:induction false} TimedInit(log: seq<Event>, from: int, to: int)
    requires Timed(log, from, to) && log != []
    ensures Timed(log[..|log| - 1], from, log[|log| - 1].Start()) && log[|log| - 1].Stop() <= to
    decreases |log|
  {
    if |log| > 1 {
      TimedInit(log[1..], log[0].Stop(), to);
      assert log[1..][..|log| - 2] == log[..|log| - 1][1..];
    }
  }

  lemma {:induction false} TimedForward(log: seq<Event>, from: int, to: int)
    requires Timed(log, from, to)
    ensures from <= to
  {
    if log != [] {
      TimedForward(log[1..], log[0].Stop(), to);
    }
  }

  lemma {:induction false} TimedRange(log: seq<Event>, from: int, to: int, i: nat)
    requires Timed(log, from, to) && i < |log|
    ensures from <= log[i].Start() <= log[i].Stop() <= to
  {
    if i == 0 {
      TimedForward(log[1..], log[0].Stop(), to);
    } else {
      TimedRange(log[1..], log[0].Stop(), to, i - 1);
    }
  }

  lemma {:induction false} LastStartIsLast(log: seq<Event>, from: int, to: int, i: nat)
    requires Timed(log, from, to) && i < |log| && log[i].Began?
    ensures log[i].at <= LastStart(log, from)
    decreases |log|
  {
    TimedInit(log, from, to);
    if log[|log| - 1].Began? {
      if i < |log| - 1 {
        TimedRange(log[..|log| - 1], from, log[|log| - 1].Start(), i);
      }
    } else {
      LastStartIsLast(log[..|log| - 1], from, log[|log| - 1].Start(), i);
    }
  }

  lemma {:induction false} LastStartIsOne(log: seq<Event>, none: int)
    requires Starts(log) > 0
    ensures exists i :: 0 <= i < |log| && log[i].Began? && log[i].at == LastStart(log, none)
    decreases |log|
  {
    var n := |log| - 1;
    if !log[n].Began? {
      assert log == log[..n] + [log[n]] && [log[n]][1..] == [];
      StartsConcat(log[..n], [log[n]]);
      LastStartIsOne(log[..n], none);
      var i :| 0 <= i < n && log[..n][i].Began? && log[..n][i].at == LastStart(log[..n], none);
      assert log[i].Began?;
    }
  }

  /** Over a whole split tree: a request that does not directly follow a wait which ran its
      course and was scheduled to end by the deadline is the first of its upload; and no
      upload starts late exactly when the last of them does not. */
  lemma LateStarts(s: Shot, t: Shot, terms: Terms, records: seq<Bytes>, calls: nat, depth: nat, ok: bool)
    requires Delivers(s, t, terms, records, calls, depth, ok)
    ensures var log := NewEvents(s, t);
      && Starts(log) == t.calls - s.calls
      && (forall i :: 0 <= i < |log| && log[i].Asking? ==>
            i > 0 && (log[i - 1].Began? || (log[i - 1].Waited? && log[i - 1].done && log[i - 1].ends <= terms.deadline)))
      && (t.calls > s.calls ==> (StartsLate(log, terms.deadline) <==> LastStart(log, s.now) > terms.deadline))
  {
    var log := NewEvents(s, t);
    if t.calls > s.calls {
      LastStartIsOne(log, s.now);
      if i :| 0 <= i < |log| && log[i].Began? && log[i].at > terms.deadline {
        LastStartIsLast(log, s.now, t.now, i);
      }
    }
  }
}
