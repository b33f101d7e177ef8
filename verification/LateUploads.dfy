/** Uploads that start after the deadline, and waits that outlast it: when a delivery has them,
    and servers that bring them about. */
module LateUploads {
  import opened Records
  import opened Options
  import opened Decimal
  import opened Int64
  import opened Backoff
  import opened Delivery
  import opened Course

  // ---- where uploads start ----

  /** No upload started between the two. */
  predicate NoStart(s: Shot, t: Shot) {
    s.events <= t.events && forall i :: |s.events| <= i < |t.events| ==> !t.events[i].Began?
  }

  lemma PauseStartsNone(e: Rules, p: Point, deadline: int, k: nat, retryAfter: int64)
    requires e.Valid() && k >= 1
    ensures NoStart(p.shot, Pauses(e, p, deadline, k, retryAfter).0.shot)
  {
  }

  lemma {:induction false} TriesStartNone(e: Rules, p: Point, records: seq<Bytes>, deadline: int, k: nat,
                                          retryAfter: int64, last: Answer)
    requires e.Valid()
    ensures NoStart(p.shot, Tries(e, p, records, deadline, k, retryAfter, last).at.shot)
    decreases if k <= e.maxRetries then e.maxRetries + 1 - k else 0, 1
  {
    hide Pauses, Verdict, Asks;
    if 0 < k <= e.maxRetries {
      PauseStartsNone(e, p, deadline, k, retryAfter);
      var (q, paused) := Pauses(e, p, deadline, k, retryAfter);
      if paused.Rested? {
        AttemptStartsNone(e, q, records, deadline, k);
      }
    } else if k == 0 {
      AttemptStartsNone(e, p, records, deadline, k);
    }
  }

  lemma {:induction false} AttemptStartsNone(e: Rules, p: Point, records: seq<Bytes>, deadline: int, k: nat)
    requires e.Valid() && k <= e.maxRetries
    ensures NoStart(p.shot, Attempt(e, p, records, deadline, k).at.shot)
    decreases e.maxRetries + 1 - k, 0
  {
    hide Verdict;
    var q, a := Asks(e, Retried(p, k), records), AnswerAt(e, p);
    assert NoStart(p.shot, q.shot);
    if Verdict(a, |records|, q.shot.cancelled) == None {
      TriesStartNone(e, q, records, deadline, k + 1, AskedFor(e, q, a), a);
    }
  }

  /** A delivery, or a part of one, in which some upload starts late. */
  predicate Late(p: Point, q: Point, deadline: int) {
    p.shot.events <= q.shot.events && StartsLate(NewEvents(p.shot, q.shot), deadline)
  }

  lemma LateInEither(p: Point, m: Point, q: Point, deadline: int)
    requires p.shot.events <= m.shot.events && m.shot.events <= q.shot.events
    ensures Late(p, q, deadline) <==> Late(p, m, deadline) || Late(m, q, deadline)
  {
    var x, y, log := NewEvents(p.shot, m.shot), NewEvents(m.shot, q.shot), NewEvents(p.shot, q.shot);
    assert log == x + y;
    if i :| 0 <= i < |x| && x[i].Began? && x[i].at > deadline {
      assert log[i] == x[i];
    }
    if i :| 0 <= i < |y| && y[i].Began? && y[i].at > deadline {
      assert log[|x| + i] == y[i];
    }
    if i :| 0 <= i < |log| && log[i].Began? && log[i].at > deadline {
      assert if i < |x| then x[i] == log[i] else y[i - |x|] == log[i];
    }
  }

  /** One upload starts late exactly when it is begun late. */
  lemma UploadStart(e: Rules, p: Point, records: seq<Bytes>, deadline: int, depth: nat)
    requires e.Valid()
    ensures p.shot.events + [Began(p.shot.now)] <= Upload(e, p, records, deadline, depth).at.shot.events
    ensures p.shot.events <= Upload(e, p, records, deadline, depth).at.shot.events
    ensures Late(p, Upload(e, p, records, deadline, depth).at, deadline) <==> p.shot.now > deadline
  {
    hide Tries;
    var m, q := Enters(p, depth), Upload(e, p, records, deadline, depth).at;
    TriesStartNone(e, m, records, deadline, 0, 0, Error);
    var log := NewEvents(p.shot, q.shot);
    assert log[0] == Began(p.shot.now);
    assert forall i :: 0 < i < |log| ==> log[i] == q.shot.events[|p.shot.events| + i];
  }

  lemma DeliveredGrows(e: Rules, p: Point, records: seq<Bytes>, deadline: int, depth: nat, luck: Luck)
    requires e.Valid() && records != []
    ensures p.shot.events <= Delivered(e, p, records, deadline, depth, luck).at.shot.events
  {
    hide Delivers, Delivered, Halvings;
    var n, d := |records|, Delivered(e, p, records, deadline, depth, luck);
    DeliveryGoes(e, p, records, deadline, depth, depth + Halvings(n), luck);
    DeliveryExtends(p.shot, d.at.shot, e.Promise(deadline), records, 2 * n - 1, depth + Halvings(n), d.ok);
  }

  /** A delivery starts an upload late exactly when it is begun late itself or, if it splits
      its batch, when one of the halves is; and the left half begins when the answer that
      splits the batch has come, the right one when the left half has been delivered. */
  lemma LateExactly(e: Rules, p: Point, records: seq<Bytes>, deadline: int, depth: nat, luck: Luck)
    requires e.Valid() && records != []
    ensures var t, d := Upload(e, p, records, deadline, depth), Delivered(e, p, records, deadline, depth, luck);
      if t.end.TooLarge? && SplitWorks(e, luck) then
        var mid := |records| / 2;
        var l := Delivered(e, t.at, records[..mid], deadline, depth + 1, LeftOf(luck));
        && d.at == Delivered(e, l.at, records[mid..], deadline, depth + 1, RightOf(luck)).at
        && (Late(p, d.at, deadline) <==> p.shot.now > deadline || Late(t.at, l.at, deadline) || Late(l.at, d.at, deadline))
      else Late(p, d.at, deadline) <==> p.shot.now > deadline
  {
    hide Upload, Late;
    var t, d := Upload(e, p, records, deadline, depth), Delivered(e, p, records, deadline, depth, luck);
    UploadStart(e, p, records, deadline, depth);
    if t.end.TooLarge? && SplitWorks(e, luck) {
      var mid := |records| / 2;
      var l := Delivered(e, t.at, records[..mid], deadline, depth + 1, LeftOf(luck));
      DeliveredGrows(e, t.at, records[..mid], deadline, depth + 1, LeftOf(luck));
      DeliveredGrows(e, l.at, records[mid..], deadline, depth + 1, RightOf(luck));
      assert d == Halved(e, t.at, records, deadline, depth, luck);
      LateInEither(t.at, l.at, d.at, deadline);
      LateInEither(p, t.at, d.at, deadline);
    } else {
      CountingStartsNone(p, t.at, d.at, deadline);
    }
  }

  lemma CountingStartsNone(p: Point, m: Point, q: Point, deadline: int)
    requires q.shot.events == m.shot.events
    ensures Late(p, q, deadline) == Late(p, m, deadline)
  {
  }

  /** Each delivery makes its first start at once. */
  lemma StartsAtOnce(e: Rules, p: Point, records: seq<Bytes>, deadline: int, depth: nat, luck: Luck)
    requires e.Valid() && records != []
    ensures p.shot.now > deadline ==> Late(p, Delivered(e, p, records, deadline, depth, luck).at, deadline)
  {
    hide Delivered, Upload, Late;
    LateExactly(e, p, records, deadline, depth, luck);
  }

  // ---- what can be said before the call ----

  /** No upload starts late, whatever the server does, however long anything takes and however
      the compressor fares. */
  ghost predicate NeverLate(e: Rules, p: Point, records: seq<Bytes>, deadline: int, depth: nat)
    requires e.Valid() && records != []
  {
    forall script, luck :: !Late(p, Delivered(e.(script := script), p, records, deadline, depth, luck).at, deadline)
  }

  /** The first answer, and whether it splits the batch, if nothing was tried before. */
  lemma FirstAnswer(e: Rules, p: Point, records: seq<Bytes>, deadline: int, depth: nat)
    requires e.Valid()
    ensures var t, a := Upload(e, p, records, deadline, depth), AnswerAt(e, p);
      && (TooBig(a) && |records| > 1 ==> t == Tried(Asks(e, Enters(p, depth), records), TooLarge, a))
      && (Accepted(a) ==>
            t == Tried(Asks(e, Enters(p, depth), records), Settled(Sent), a))
      && (a.Error? && p.shot.cancelled ==> t.end == Settled(Closed))
  {
    assert AnswerAt(e, Enters(p, depth)) == AnswerAt(e, p);
    assert Upload(e, p, records, deadline, depth) == Attempt(e, Enters(p, depth), records, deadline, 0);
  }

  /** A server that takes until after the deadline to say that the batch is too large. */
  function SlowRefusal(now: int, deadline: int): nat -> Turn {
    _ => Turn(Max(0, deadline + 1 - now), false, Response(413, []), false)
  }

  lemma SlowRefusalIsLate(e: Rules, p: Point, records: seq<Bytes>, deadline: int, depth: nat, luck: Luck)
    requires e.Valid() && |records| >= 2 && !(e.obeys && p.shot.cancelled)
    requires e.script == SlowRefusal(p.shot.now, deadline) && SplitWorks(e, luck)
    ensures Late(p, Delivered(e, p, records, deadline, depth, luck).at, deadline)
  {
    hide Delivered, Upload, Late;
    FirstAnswer(e, p, records, deadline, depth);
    LateExactly(e, p, records, deadline, depth, luck);
    var t := Upload(e, p, records, deadline, depth);
    StartsAtOnce(e, t.at, records[..|records| / 2], deadline, depth + 1, LeftOf(luck));
  }

  /** If the first answer is a refusal and the compressor fails, that was the only upload. */
  lemma UnsplitStartsOnce(e: Rules, p: Point, records: seq<Bytes>, deadline: int, depth: nat, luck: Luck)
    requires e.Valid() && |records| >= 2 && TooBig(AnswerAt(e, p)) && !SplitWorks(e, luck)
    ensures var d := Delivered(e, p, records, deadline, depth, luck); d.at.shot.calls == p.shot.calls + 1 && d.failures == 1
  {
    hide Upload;
    FirstAnswer(e, p, records, deadline, depth);
  }

  /** What a caller can check before the call: no upload will start late, whatever happens, if
      and only if the batch is sent in time and is one record, or is sent under a context that
      is already cancelled with a client that obeys it. */
  lemma NeverLateIff(e: Rules, p: Point, records: seq<Bytes>, deadline: int, depth: nat)
    requires e.Valid() && records != []
    ensures NeverLate(e, p, records, deadline, depth)
      <==> p.shot.now <= deadline && (|records| == 1 || (e.obeys && p.shot.cancelled))
  {
    hide Delivered, Upload, Late, AnswerAt;
    if p.shot.now <= deadline && (|records| == 1 || (e.obeys && p.shot.cancelled)) {
      forall script, luck
        ensures !Late(p, Delivered(e.(script := script), p, records, deadline, depth, luck).at, deadline)
      {
        NoSplitNotLate(e.(script := script), p, records, deadline, depth, luck);
      }
    } else {
      var script := SlowRefusal(p.shot.now, deadline);
      var luck := Works(Fails, Fails);
      if p.shot.now > deadline {
        StartsAtOnce(e.(script := script), p, records, deadline, depth, luck);
      } else {
        SlowRefusalIsLate(e.(script := script), p, records, deadline, depth, luck);
      }
      assert Late(p, Delivered(e.(script := script), p, records, deadline, depth, luck).at, deadline);
    }
  }

  lemma NoSplitNotLate(e: Rules, p: Point, records: seq<Bytes>, deadline: int, depth: nat, luck: Luck)
    requires e.Valid() && records != [] && p.shot.now <= deadline
    requires |records| == 1 || (e.obeys && p.shot.cancelled)
    ensures !Late(p, Delivered(e, p, records, deadline, depth, luck).at, deadline)
  {
    hide Late, Delivered;
    FirstAnswer(e, p, records, deadline, depth);
    LateExactly(e, p, records, deadline, depth, luck);
  }

  // ---- the other way to be late ----

  /** A server that refuses the size at once, and then takes until after the deadline to accept
      the left half. */
  function SlowHalf(from: nat, now: int, deadline: int): nat -> Turn {
    (k: nat) => SlowHalfTurn(from, now, deadline, k)
  }

  function SlowHalfTurn(from: nat, now: int, deadline: int, k: nat): Turn {
    if k == from then Turn(0, false, Response(413, []), false)
    else Turn(Max(0, deadline + 1 - now), false, Response(200, []), false)
  }

  /** The split comes in time and so does the left half's upload, and the right half starts
      late all the same: for every batch of two records or more, and every deadline. */
  lemma SlowHalfIsLate(e: Rules, p: Point, records: seq<Bytes>, deadline: int, depth: nat, luck: Luck)
    requires e.Valid() && |records| >= 2 && !(e.obeys && p.shot.cancelled) && p.shot.now <= deadline
    requires e.script == SlowHalf(p.turn, p.shot.now, deadline) && SplitWorks(e, luck)
    ensures var now, log := p.shot.now, Delivered(e, p, records, deadline, depth, luck).at.shot.events;
      p.shot.events + [Began(now), Asking(now, now), Began(now), Asking(now, deadline + 1), Began(deadline + 1)] <= log
    ensures Late(p, Delivered(e, p, records, deadline, depth, luck).at, deadline)
  {
    hide Upload, Late, Delivered;
    var mid := |records| / 2;
    FirstAnswer(e, p, records, deadline, depth);
    var t := Upload(e, p, records, deadline, depth);
    LateExactly(e, p, records, deadline, depth, luck);
    FirstAnswer(e, t.at, records[..mid], deadline, depth + 1);
    assert t.at.turn == p.turn + 1 && t.at.shot.now == p.shot.now && t.at.shot.cancelled == p.shot.cancelled;
    var first := Upload(e, t.at, records[..mid], deadline, depth + 1);
    assert AnswerAt(e, t.at) == e.script(t.at.turn).answer;
    assert Accepted(AnswerAt(e, t.at));
    assert first.at == Asks(e, Enters(t.at, depth + 1), records[..mid]);
    assert e.script(t.at.turn) == SlowHalfTurn(p.turn, p.shot.now, deadline, t.at.turn);
    assert first.at.shot.now == deadline + 1;
    SettledAtOnce(e, t.at, records[..mid], deadline, depth + 1, LeftOf(luck));
    var l := Delivered(e, t.at, records[..mid], deadline, depth + 1, LeftOf(luck));
    StartsAtOnce(e, l.at, records[mid..], deadline, depth + 1, RightOf(luck));
    BeginsWith(e, l.at, records[mid..], deadline, depth + 1, RightOf(luck));
    var now, before := p.shot.now, p.shot.events;
    assert t.at.shot.events == before + [Began(now), Asking(now, now)];
    assert l.at.shot.events == t.at.shot.events + [Began(now), Asking(now, deadline + 1)];
    assert before + [Began(now), Asking(now, now), Began(now), Asking(now, deadline + 1), Began(deadline + 1)]
        == l.at.shot.events + [Began(deadline + 1)];
  }

  lemma SettledAtOnce(e: Rules, p: Point, records: seq<Bytes>, deadline: int, depth: nat, luck: Luck)
    requires e.Valid() && records != [] && Upload(e, p, records, deadline, depth).end.Settled?
    ensures var t, d := Upload(e, p, records, deadline, depth), Delivered(e, p, records, deadline, depth, luck);
      d.at.shot.events == t.at.shot.events && d.at.shot.now == t.at.shot.now
      && d.at.shot.naps == t.at.shot.naps && d.at.turn == t.at.turn && d.at.shot.cancelled == t.at.shot.cancelled
  {
    hide Upload;
  }

  lemma BeginsWith(e: Rules, p: Point, records: seq<Bytes>, deadline: int, depth: nat, luck: Luck)
    requires e.Valid() && records != []
    ensures p.shot.events + [Began(p.shot.now)] <= Delivered(e, p, records, deadline, depth, luck).at.shot.events
  {
    hide Upload;
    UploadStart(e, p, records, deadline, depth);
    var t := Upload(e, p, records, deadline, depth);
    if t.end.TooLarge? && SplitWorks(e, luck) {
      var mid := |records| / 2;
      DeliveredGrows(e, t.at, records[..mid], deadline, depth + 1, LeftOf(luck));
      DeliveredGrows(e, Delivered(e, t.at, records[..mid], deadline, depth + 1, LeftOf(luck)).at, records[mid..], deadline,
                     depth + 1, RightOf(luck));
    }
  }

  // ---- waits that are cut short ----

  /** A server that refuses the size, and then asks for so many seconds every time; Close
      cancels the context in the first wait, and every wait is cut short at once. */
  function CutShortTurn(from: nat, secs: nat, k: nat): Turn {
    Turn(0, k == from + 3, if k == from then Response(413, []) else Response(500, Digits(secs)), true)
  }

  function CutShortScript(from: nat, secs: nat): nat -> Turn {
    (k: nat) => CutShortTurn(from, secs, k)
  }

  /** One piece: its request is answered, its wait is begun and cut short, and it is lost. */
  lemma CutOnce(e: Rules, p: Point, records: seq<Bytes>, deadline: int, depth: nat, luck: Luck, from: nat, secs: nat)
    requires e.Valid() && records != [] && !e.obeys && e.maxRetries >= 1 && 1 <= secs <= 60
    requires e.script == CutShortScript(from, secs) && p.turn > from && deadline == p.shot.now + secs * SECOND
    requires p.shot.cancelled || p.turn + 2 == from + 3
    ensures var q := Delivered(e, p, records, deadline, depth, luck).at;
      && q.turn == p.turn + 3 && q.shot.now == p.shot.now && q.shot.cancelled
      && q.shot.naps == p.shot.naps + [Nap(p.shot.now, secs * SECOND, false)]
  {
    var m := Enters(p, depth);
    var a, q := AnswerAt(e, m), Asks(e, m, records);
    assert e.script(p.turn) == CutShortTurn(from, secs, p.turn);
    assert Upload(e, p, records, deadline, depth) == Attempt(e, m, records, deadline, 0);
    assert Verdict(a, |records|, q.shot.cancelled) == None;
    SecondsReadBack(secs);
    SecondsAsked(Digits(secs), secs, q.shot.now, e.date);
    CutPause(e, q, deadline, from, secs);
    assert Attempt(e, m, records, deadline, 0) == Tries(e, q, records, deadline, 1, AskedFor(e, q, a), a);
    SettledAtOnce(e, p, records, deadline, depth, luck);
  }

  lemma CutPause(e: Rules, q: Point, deadline: int, from: nat, secs: nat)
    requires e.Valid() && 1 <= secs <= 60 && e.script == CutShortScript(from, secs)
    requires q.turn > from && deadline == q.shot.now + secs * SECOND && (q.shot.cancelled || q.turn + 1 == from + 3)
    requires ParseRetryAfter(Digits(secs), q.shot.now, e.date) > 0
    requires Min(ParseRetryAfter(Digits(secs), q.shot.now, e.date), MAX_RETRY_AFTER) == secs * SECOND
    ensures var (r, paused) := Pauses(e, q, deadline, 1, ParseRetryAfter(Digits(secs), q.shot.now, e.date));
      && paused.CutShort? && r.turn == q.turn + 2 && r.shot.now == q.shot.now && r.shot.cancelled
      && r.shot.naps == q.shot.naps + [Nap(q.shot.now, secs * SECOND, false)]
  {
    hide ParseRetryAfter;
    assert e.script(q.turn) == CutShortTurn(from, secs, q.turn);
    assert e.script(q.turn + 1) == CutShortTurn(from, secs, q.turn + 1);
  }

  /** A client that sends requests under a cancelled context: every batch of two records or more
      can have waits scheduled for twice the time there is. */
  lemma CutWaits(e: Rules, p: Point, records: seq<Bytes>, depth: nat, luck: Luck, secs: nat)
    requires e.Valid() && |records| >= 2 && !e.obeys && e.maxRetries >= 1 && 1 <= secs <= 60
    requires e.script == CutShortScript(p.turn, secs) && SplitWorks(e, luck)
    ensures var q := Delivered(e, p, records, p.shot.now + secs * SECOND, depth, luck).at.shot;
      && p.shot.naps <= q.naps
      && NewNaps(p.shot, q) == [Nap(p.shot.now, secs * SECOND, false), Nap(p.shot.now, secs * SECOND, false)]
      && Scheduled(NewNaps(p.shot, q)) == 2 * (secs * SECOND)
  {
    hide Upload, CutShortTurn;
    var deadline, mid := p.shot.now + secs * SECOND, |records| / 2;
    RefusedAtOnce(p.turn, secs);
    FirstAnswer(e, p, records, deadline, depth);
    var t := Upload(e, p, records, deadline, depth);
    assert e.script(p.turn) == CutShortTurn(p.turn, secs, p.turn);
    CutOnce(e, t.at, records[..mid], deadline, depth + 1, LeftOf(luck), p.turn, secs);
    var l := Delivered(e, t.at, records[..mid], deadline, depth + 1, LeftOf(luck));
    CutOnce(e, l.at, records[mid..], deadline, depth + 1, RightOf(luck), p.turn, secs);
    var q := Delivered(e, p, records, deadline, depth, luck).at.shot;
    var nap := Nap(p.shot.now, secs * SECOND, false);
    assert Delivered(e, p, records, deadline, depth, luck) == Halved(e, t.at, records, deadline, depth, luck);
    assert q.naps == p.shot.naps + [nap, nap];
    assert NewNaps(p.shot, q) == [nap, nap];
    ScheduledTwice(nap);
  }

  lemma ScheduledTwice(nap: Nap)
    ensures Scheduled([nap, nap]) == 2 * nap.d
  {
    var naps := [nap, nap];
    assert naps[1..] == [nap] && naps[1..][1..] == [];
    assert Scheduled(naps[1..]) == nap.d + Scheduled(naps[1..][1..]);
  }

  lemma RefusedAtOnce(from: nat, secs: nat)
    ensures CutShortTurn(from, secs, from) == Turn(0, false, Response(413, []), true)
  {
  }
}
