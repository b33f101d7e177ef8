/** The course of a delivery, turn by turn: what an upload worker does, as a function of what
    the outside does. The worker's methods compute it; what a delivery promises is proved
    about it. */
module Course {
  import opened Records
  import opened Options
  import opened Int64
  import opened Backoff
  import opened Delivery

  // ---- the outside, and the rules ----

  /** What the outside does in one turn: how long it takes, whether the context is cancelled
      meanwhile, the answer if it is a request, whether a wait it cancels is cut short. */
  datatype Turn = Turn(takes: nat, cancels: bool, answer: Answer, cuts: bool)

  /** What a delivery depends on besides the batch. `pick(k, n)` is what the random source says
      in turn k when asked for a number below n. */
  datatype Rules = Rules(script: nat -> Turn, obeys: bool, date: Bytes -> Option<int>, pick: (nat, int) -> int,
                         maxRetries: nat, retryBackoff: int64, gzip: bool, bodyOf: seq<Bytes> -> Bytes)
  {
    ghost predicate Valid() {
      forall k: nat, n :: n > 0 ==> 0 <= pick(k, n) < n
    }

    function Promise(deadline: int): Terms {
      Terms(maxRetries, deadline, obeys, !gzip, bodyOf)
    }
  }

  /** How far things have got: what has happened, and the number of the next turn. */
  datatype Point = Point(shot: Shot, turn: nat)

  // ---- single turns ----

  /** Reading the clock. */
  function Looks(e: Rules, p: Point): Point {
    Point(p.shot.(now := p.shot.now + e.script(p.turn).takes), p.turn + 1)
  }

  function AnswerAt(e: Rules, p: Point): Answer {
    if e.obeys && p.shot.cancelled then Error else e.script(p.turn).answer
  }

  /** One request. */
  function Asks(e: Rules, p: Point, records: seq<Bytes>): Point {
    var s, t := p.shot, e.script(p.turn);
    var now := s.now + t.takes;
    Point(s.(now := now, cancelled := s.cancelled || t.cancels,
             requests := s.requests + [Request(records, e.bodyOf(records), AnswerAt(e, p), now)],
             events := s.events + [Asking(s.now, now)]),
          p.turn + 1)
  }

  /** Whether a wait begun now runs its course. */
  predicate Rests(e: Rules, p: Point, d: nat) {
    !(p.shot.cancelled || e.script(p.turn).cancels) || (d > 0 && !e.script(p.turn).cuts)
  }

  /** One wait. */
  function Sleeps(e: Rules, p: Point, d: nat): Point {
    var s, t, done := p.shot, e.script(p.turn), Rests(e, p, d);
    var now := s.now + (if done then d else 0) + t.takes;
    Point(s.(now := now, cancelled := s.cancelled || t.cancels, naps := s.naps + [Nap(s.now, d, done)],
             events := s.events + [Waited(s.now, s.now + d, done, now)]),
          p.turn + 1)
  }

  // ---- the retry loop ----

  datatype Paused = Rested | TooLate | CutShort

  /** How the attempts at one batch end. */
  datatype End = Settled(why: Why) | TooLarge

  /** Where they end, how, and on which answer. */
  datatype Tried = Tried(at: Point, end: End, last: Answer)

  /** The delay before an attempt. */
  ghost function DelayOf(e: Rules, turn: nat, attempt: nat, retryAfter: int64): (d: nat)
    requires e.Valid() && attempt >= 1
    ensures FitsDelay(d, e.retryBackoff, attempt, retryAfter)
  {
    if retryAfter > 0 then Min(retryAfter, MAX_RETRY_AFTER)
    else if e.retryBackoff <= 0 then 0
    else e.pick(turn, Cap(e.retryBackoff, attempt) + 1)
  }

  /** The wait before attempt number `attempt`, not begun if it would end past the deadline. */
  ghost function Pauses(e: Rules, p: Point, deadline: int, attempt: nat, retryAfter: int64): (Point, Paused)
    requires e.Valid() && attempt >= 1
  {
    var d, q := DelayOf(e, p.turn, attempt, retryAfter), Looks(e, p);
    if q.shot.now + d > deadline then (q, TooLate)
    else (Sleeps(e, q, d), if Rests(e, q, d) then Rested else CutShort)
  }

  /** Every attempt but the first counts as a retry. */
  function Retried(p: Point, attempt: nat): Point {
    if attempt == 0 then p else p.(shot := p.shot.(retries := p.shot.retries + 1))
  }

  /** What an answer to n records means, if it is not worth another attempt. */
  function Verdict(a: Answer, n: nat, cancelled: bool): Option<End> {
    match a
    case Error => if cancelled then Some(Settled(Closed)) else None
    case Response(status, _) =>
      if 200 <= status <= 299 then Some(Settled(Sent))
      else if status == 413 && n > 1 then Some(TooLarge)
      else if !Retryable(status) then Some(Settled(if status == 413 then Oversize else Rejected))
      else None
  }

  /** The retry loop from attempt number `attempt` on; `last` is the answer to the one before
      and `retryAfter` what it asked for. */
  ghost function Tries(e: Rules, p: Point, records: seq<Bytes>, deadline: int, attempt: nat, retryAfter: int64,
                       last: Answer): (r: Tried)
    requires e.Valid()
    ensures r.end.TooLarge? ==> |records| > 1
    decreases if attempt <= e.maxRetries then e.maxRetries + 1 - attempt else 0, 1
  {
    if attempt > e.maxRetries then Tried(p, Settled(Rejected), last)
    else if attempt == 0 then Attempt(e, p, records, deadline, 0)
    else
      var (q, paused) := Pauses(e, p, deadline, attempt, retryAfter);
      match paused
      case TooLate => Tried(q, Settled(Rejected), last)
      case CutShort => Tried(q, Settled(Closed), last)
      case Rested => Attempt(e, q, records, deadline, attempt)
  }

  ghost function Attempt(e: Rules, p: Point, records: seq<Bytes>, deadline: int, attempt: nat): (r: Tried)
    requires e.Valid() && attempt <= e.maxRetries
    ensures r.end.TooLarge? ==> |records| > 1
    decreases e.maxRetries + 1 - attempt, 0
  {
    var q, a := Asks(e, Retried(p, attempt), records), AnswerAt(e, p);
    match Verdict(a, |records|, q.shot.cancelled)
    case Some(end) => Tried(q, end, a)
    case None => Tries(e, q, records, deadline, attempt + 1, AskedFor(e, q, a), a)
  }

  /** The wait an answer that has just come asks for. */
  function AskedFor(e: Rules, p: Point, a: Answer): int64 {
    if a.Error? then 0 else ParseRetryAfter(a.retryAfter, p.shot.now, e.date)
  }

  // ---- the recursion over halves ----

  /** How the compressor fares each time a batch is split. */
  datatype Luck = Fails | Works(left: Luck, right: Luck)

  function LeftOf(luck: Luck): Luck {
    if luck.Works? then luck.left else Fails
  }

  function RightOf(luck: Luck): Luck {
    if luck.Works? then luck.right else Fails
  }

  /** An upload begins. */
  function Enters(p: Point, depth: nat): Point {
    var s := p.shot;
    p.(shot := s.(calls := s.calls + 1, deepest := if depth > s.deepest then depth else s.deepest,
                  events := s.events + [Began(s.now)]))
  }

  /** One upload, up to the exit of its retry loop. */
  ghost function Upload(e: Rules, p: Point, records: seq<Bytes>, deadline: int, depth: nat): (r: Tried)
    requires e.Valid()
    ensures r.end.TooLarge? ==> |records| > 1
  {
    Tries(e, Enters(p, depth), records, deadline, 0, 0, Error)
  }

  function Counts(p: Point, records: seq<Bytes>, why: Why, last: Answer): Point {
    p.(shot := Counted(p.shot, Resolved(records, why, last)))
  }

  predicate SplitWorks(e: Rules, luck: Luck) {
    !e.gzip || luck.Works?
  }

  /** Where a delivery ends, whether everything was accepted, and how often compressing failed. */
  datatype Done = Done(at: Point, ok: bool, failures: nat)

  /** A delivery, from its first request to the last answer about its last half. */
  ghost function Delivered(e: Rules, p: Point, records: seq<Bytes>, deadline: int, depth: nat, luck: Luck): Done
    requires e.Valid() && records != []
    decreases |records|
  {
    var t := Upload(e, p, records, deadline, depth);
    match t.end
    case Settled(why) => Done(Counts(t.at, records, why, t.last), why == Sent, 0)
    case TooLarge =>
      if SplitWorks(e, luck) then Halved(e, t.at, records, deadline, depth, luck)
      else Done(Counts(t.at, records, Rejected, t.last), false, 1)
  }

  /** Both halves, one after the other, whatever becomes of the first. */
  ghost function Halved(e: Rules, p: Point, records: seq<Bytes>, deadline: int, depth: nat, luck: Luck): Done
    requires e.Valid() && |records| >= 2
    decreases |records|, 0
  {
    var mid := |records| / 2;
    var l := Delivered(e, p, records[..mid], deadline, depth + 1, LeftOf(luck));
    var r := Delivered(e, l.at, records[mid..], deadline, depth + 1, RightOf(luck));
    Done(r.at, l.ok && r.ok, l.failures + r.failures)
  }

  // ---- what the attempts at a batch do ----

  function LastOf(s: Shot): Request
    requires s.requests != []
  {
    s.requests[|s.requests| - 1]
  }

  /** An upload may make a request: it has just begun, or has waited as it should. */
  predicate Prepared(s: Shot, m: Shot, deadline: int) {
    |m.events| > |s.events| && Leads(m.events[|m.events| - 1], deadline)
  }

  /** The wait before an attempt: not begun at all, cut short, or taken as it should be. */
  lemma PauseGoes(e: Rules, s: Shot, p: Point, deadline: int, depth: nat, k: nat, retryAfter: int64)
    requires e.Valid() && k >= 1 && (e.obeys ==> !s.cancelled)
    requires Trying(s, p.shot, e.Promise(deadline), depth, k)
    requires Went(s, p.shot, e.retryBackoff, e.date, k, k - 1)
    requires p.shot.requests != [] && retryAfter == Asked(LastOf(p.shot), e.date)
    ensures var (q, paused) := Pauses(e, p, deadline, k, retryAfter);
      && Went(s, q.shot, e.retryBackoff, e.date, k, if paused.TooLate? then k - 1 else k)
      && Delivers(s, q.shot, e.Promise(deadline), [], 1, depth, true)
      && q.shot.requests == p.shot.requests && p.shot.now <= q.shot.now
      && (paused.Rested? ==> Trying(s, q.shot, e.Promise(deadline), depth, k) && Prepared(s, q.shot, deadline))
      && (paused.CutShort? ==> q.shot.cancelled)
      && (paused.TooLate? ==> q.shot.now + MAX_RETRY_AFTER > deadline)
      && (p.shot.now > deadline ==> paused.TooLate?)
  {
    hide Asked, Delivers, Trying, Went, FitsDelay, Cap;
    var terms := e.Promise(deadline);
    var d, m := DelayOf(e, p.turn, k, retryAfter), Looks(e, p);
    DelayWithinMinute(e, p.turn, k, retryAfter);
    Lingered(s, p.shot, m.shot, terms, depth, k);
    WentNoFurther(s, p.shot, m.shot, e.retryBackoff, e.date, k, k - 1);
    TryingDelivers(s, m.shot, terms, depth, k);
    if m.shot.now + d <= deadline {
      var q, nap := Sleeps(e, m, d), Nap(m.shot.now, d, Rests(e, m, d));
      Napped(s, m.shot, q.shot, terms, depth, k, nap);
      WentOnToWait(s, m.shot, q.shot, e.retryBackoff, e.date, k, nap);
      StillExtends(s, m.shot, terms, depth, k);
    }
  }

  lemma DelayWithinMinute(e: Rules, turn: nat, attempt: nat, retryAfter: int64)
    requires e.Valid() && attempt >= 1
    ensures DelayOf(e, turn, attempt, retryAfter) <= MAX_RETRY_AFTER
  {
  }

  /** A request after k others. */
  lemma AskGoes(e: Rules, s: Shot, p: Point, records: seq<Bytes>, deadline: int, depth: nat, k: nat)
    requires k <= e.maxRetries && Prepared(s, p.shot, deadline)
    requires Trying(s, p.shot, e.Promise(deadline), depth, k) && Went(s, p.shot, e.retryBackoff, e.date, k, k)
    requires k > 0 ==> p.shot.requests != [] && Again(LastOf(p.shot).answer)
    ensures var q := Asks(e, Retried(p, k), records);
      && Went(s, q.shot, e.retryBackoff, e.date, k + 1, k)
      && Trying(s, q.shot, e.Promise(deadline), depth, k + 1)
      && Delivers(s, q.shot, e.Promise(deadline), [], 1, depth, true)
      && LastOf(q.shot).answer == AnswerAt(e, p)
      && (e.obeys && s.cancelled ==> AnswerAt(e, p).Error? && q.shot.cancelled)
  {
    hide Asked, Delivers, Trying, Went, Leads;
    var terms, q := e.Promise(deadline), Asks(e, Retried(p, k), records);
    if s.cancelled {
      StillCancelled(s, p.shot, terms, depth, k);
    }
    Requested(s, p.shot, q.shot, terms, depth, k, LastOf(q.shot));
    TryingDelivers(s, q.shot, terms, depth, k + 1);
    WentOnToRequest(s, p.shot, q.shot, e.retryBackoff, e.date, k, LastOf(q.shot));
  }

  /** Where the retry loop stands before attempt number k. */
  ghost predicate Underway(e: Rules, s: Shot, p: Point, deadline: int, depth: nat, k: nat, retryAfter: int64, last: Answer) {
    && Trying(s, p.shot, e.Promise(deadline), depth, k)
    && Went(s, p.shot, e.retryBackoff, e.date, k, if k == 0 then 0 else k - 1)
    && (k == 0 ==> Prepared(s, p.shot, deadline))
    && (k > 0 ==>
          && p.shot.requests != [] && LastOf(p.shot).answer == last && Again(last)
          && retryAfter == Asked(LastOf(p.shot), e.date)
          && (e.obeys ==> !s.cancelled))
  }

  /** Every answer but the last was worth another attempt and was followed by one wait, as long
      as it asked or the backoff allows; the last one decides; giving up takes a spent budget
      or a deadline within a minute; after the deadline there is no further request. */
  ghost predicate Concludes(e: Rules, s: Shot, t: Tried, n: nat, deadline: int, depth: nat, made: nat, waits: nat) {
    var q := t.at.shot;
    && Delivers(s, q, e.Promise(deadline), [], 1, depth, true)
    && made >= 1 && Went(s, q, e.retryBackoff, e.date, made, waits)
    && q.requests != [] && LastOf(q).answer == t.last
    && (match t.end
        case Settled(why) => FitsFate(why, t.last, n) && (TooBig(t.last) ==> n == 1)
        case TooLarge => TooBig(t.last) && n > 1)
    && (t.end == Settled(Rejected) && Again(t.last) ==> made == e.maxRetries + 1 || q.now + MAX_RETRY_AFTER > deadline)
    && (t.end == Settled(Closed) ==> q.cancelled)
  }

  predicate TooBig(a: Answer) {
    a.Response? && a.status == 413
  }

  lemma VerdictFits(a: Answer, n: nat, cancelled: bool)
    requires n >= 1
    ensures match Verdict(a, n, cancelled)
            case None => Again(a) && (a.Error? ==> !cancelled)
            case Some(TooLarge) => TooBig(a) && n > 1
            case Some(Settled(why)) =>
              && FitsFate(why, a, n) && (TooBig(a) ==> n == 1)
              && (why == Closed ==> cancelled) && (why == Rejected ==> !Again(a))
  {
  }

  lemma {:induction false} TriesGo(e: Rules, s: Shot, p: Point, records: seq<Bytes>, deadline: int, depth: nat,
                                   k: nat, retryAfter: int64, last: Answer)
    returns (made: nat, waits: nat)
    requires e.Valid() && records != [] && k <= e.maxRetries + 1
    requires Underway(e, s, p, deadline, depth, k, retryAfter, last)
    ensures Concludes(e, s, Tries(e, p, records, deadline, k, retryAfter, last), |records|, deadline, depth, made, waits)
    ensures p.shot.now > deadline && k > 0 ==> made == k && waits == k - 1
    ensures p.shot.now > deadline && k == 0 ==> made == 1 && waits == 0
    decreases e.maxRetries + 1 - k, 1
  {
    hide Asked, Delivers, Trying, Went, Asks, Pauses, Prepared;
    if k > e.maxRetries {
      TryingDelivers(s, p.shot, e.Promise(deadline), depth, k);
      return k, k - 1;
    }
    if k == 0 {
      made, waits := AttemptGoes(e, s, p, records, deadline, depth, 0);
      return;
    }
    PauseGoes(e, s, p, deadline, depth, k, retryAfter);
    var (q, paused) := Pauses(e, p, deadline, k, retryAfter);
    match paused
    case TooLate => return k, k - 1;
    case CutShort => return k, k;
    case Rested => made, waits := AttemptGoes(e, s, q, records, deadline, depth, k);
  }

  lemma {:induction false} AttemptGoes(e: Rules, s: Shot, p: Point, records: seq<Bytes>, deadline: int, depth: nat, k: nat)
    returns (made: nat, waits: nat)
    requires e.Valid() && records != [] && k <= e.maxRetries && Prepared(s, p.shot, deadline)
    requires Trying(s, p.shot, e.Promise(deadline), depth, k) && Went(s, p.shot, e.retryBackoff, e.date, k, k)
    requires k > 0 ==> p.shot.requests != [] && Again(LastOf(p.shot).answer)
    ensures Concludes(e, s, Attempt(e, p, records, deadline, k), |records|, deadline, depth, made, waits)
    ensures p.shot.now > deadline ==> made == k + 1 && waits == k
    decreases e.maxRetries + 1 - k, 0
  {
    hide Delivers, Trying, Went, Prepared, FitsFate, Verdict;
    AskGoes(e, s, p, records, deadline, depth, k);
    var q, a := Asks(e, Retried(p, k), records), AnswerAt(e, p);
    VerdictFits(a, |records|, q.shot.cancelled);
    if Verdict(a, |records|, q.shot.cancelled) == None {
      made, waits := TriesGo(e, s, q, records, deadline, depth, k + 1, AskedFor(e, q, a), a);
    } else {
      made, waits := k + 1, k;
    }
  }

  /** An upload from its beginning to the exit of its retry loop; one begun after the deadline
      makes a single request. */
  lemma UploadGoes(e: Rules, p: Point, records: seq<Bytes>, deadline: int, depth: nat) returns (made: nat, waits: nat)
    requires e.Valid() && records != []
    ensures Concludes(e, p.shot, Upload(e, p, records, deadline, depth), |records|, deadline, depth, made, waits)
    ensures p.shot.now > deadline ==> made == 1 && waits == 0
  {
    hide Tries, Delivers, Trying, Went;
    var q := Enters(p, depth);
    Begun(p.shot, q.shot, e.Promise(deadline), depth);
    NotYetGone(p.shot, q.shot, e.retryBackoff, e.date);
    made, waits := TriesGo(e, p.shot, q, records, deadline, depth, 0, 0, Error);
  }

  // ---- what a delivery does ----

  /** An upload that settled its batch. */
  lemma SettledGoes(s: Shot, p: Point, terms: Terms, records: seq<Bytes>, why: Why, last: Answer, depth: nat, deep: nat)
    requires records != [] && depth <= deep
    requires Delivers(s, p.shot, terms, [], 1, depth, true)
    requires FitsFate(why, last, |records|) && (TooBig(last) && terms.splits ==> |records| == 1)
    ensures Delivers(s, Counts(p, records, why, last).shot, terms, records, 2 * |records| - 1, deep, why == Sent)
  {
    hide Delivers, FitsFate, Counted;
    var m, r := p.shot, Resolved(records, why, last);
    var t := Counted(m, r);
    SettledDelivers(m, terms, r, depth);
    Compose(s, m, t, terms, [], records, 1, 0, depth, true, why == Sent);
    assert [] + records == records;
    Deeper(s, t, terms, records, 1, 2 * |records| - 1, depth, deep, why == Sent);
  }

  /** An upload that split its batch delivers what the halves deliver. */
  lemma AfterSplit(s: Shot, m: Shot, t: Shot, terms: Terms, records: seq<Bytes>, n: nat, depth: nat, deep: nat, ok: bool)
    requires n >= 2 && depth <= deep
    requires Delivers(s, m, terms, [], 1, depth, true)
    requires Delivers(m, t, terms, records, 2 * n - 2, deep, ok)
    ensures Delivers(s, t, terms, records, 2 * n - 1, deep, ok)
  {
    Deeper(s, m, terms, [], 1, 1, depth, deep, true);
    Compose(s, m, t, terms, [], records, 1, 2 * n - 2, deep, true, ok);
    assert [] + records == records;
  }

  lemma OneLevelDeeper(n: nat)
    requires n >= 2
    ensures 1 + Halvings(n / 2) <= Halvings(n) == 1 + Halvings(n - n / 2)
  {
    HalvingsMonotone(n / 2, n - n / 2);
  }

  /** The records of a delivery are resolved once each, in order, within 2n-1 uploads, none
      deeper than its halvings go, whatever the outside does. */
  lemma {:induction false} DeliveryGoes(e: Rules, p: Point, records: seq<Bytes>, deadline: int, depth: nat, deep: nat, luck: Luck)
    requires e.Valid() && records != [] && depth + Halvings(|records|) <= deep
    ensures var d := Delivered(e, p, records, deadline, depth, luck);
      Delivers(p.shot, d.at.shot, e.Promise(deadline), records, 2 * |records| - 1, deep, d.ok)
    decreases |records|, 1
  {
    hide Delivers, Upload, FitsFate, Halved, Halvings;
    var terms, t := e.Promise(deadline), Upload(e, p, records, deadline, depth);
    var made, waits := UploadGoes(e, p, records, deadline, depth);
    match t.end
    case Settled(why) => SettledGoes(p.shot, t.at, terms, records, why, t.last, depth, deep);
    case TooLarge =>
      if SplitWorks(e, luck) {
        HalvesGo(e, t.at, records, deadline, depth, deep, luck);
        var d := Halved(e, t.at, records, deadline, depth, luck);
        AfterSplit(p.shot, t.at.shot, d.at.shot, terms, records, |records|, depth, deep, d.ok);
      } else {
        RejectionFits(t.last, |records|);
        SettledGoes(p.shot, t.at, terms, records, Rejected, t.last, depth, deep);
      }
  }

  lemma RejectionFits(last: Answer, n: nat)
    requires TooBig(last) && n > 1
    ensures FitsFate(Rejected, last, n)
  {
  }

  lemma {:induction false} HalvesGo(e: Rules, p: Point, records: seq<Bytes>, deadline: int, depth: nat, deep: nat, luck: Luck)
    requires e.Valid() && |records| >= 2 && depth + Halvings(|records|) <= deep
    ensures var d := Halved(e, p, records, deadline, depth, luck);
      Delivers(p.shot, d.at.shot, e.Promise(deadline), records, 2 * |records| - 2, deep, d.ok)
    decreases |records|, 0
  {
    hide Delivers, Delivered, Halvings;
    var mid := |records| / 2;
    var a, b := records[..mid], records[mid..];
    OneLevelDeeper(|records|);
    DeliveryGoes(e, p, a, deadline, depth + 1, deep, LeftOf(luck));
    var l := Delivered(e, p, a, deadline, depth + 1, LeftOf(luck));
    DeliveryGoes(e, l.at, b, deadline, depth + 1, deep, RightOf(luck));
    var r := Delivered(e, l.at, b, deadline, depth + 1, RightOf(luck));
    Compose(p.shot, l.at.shot, r.at.shot, e.Promise(deadline), a, b, 2 * |a| - 1, 2 * |b| - 1, deep, l.ok, r.ok);
    assert a + b == records;
  }
}
