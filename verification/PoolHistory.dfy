/** What the upload pool answers, told from what happened to it: a reply is the first failure
    since the reply before. */
module PoolHistory {
  import opened UploadPool

  datatype Event = Dispatched | Completed(outcome: Outcome) | Awaited(reply: Request) | Shut

  function Happens(s: State, e: Event): State {
    match e
    case Dispatched => OnDispatch(s)
    case Completed(outcome) => OnComplete(s, outcome)
    case Awaited(reply) => OnAwait(s, reply)
    case Shut => OnShutdown(s)
  }

  function After(events: seq<Event>): State {
    if events == [] then IDLE else Happens(After(events[..|events| - 1]), events[|events| - 1])
  }

  /** No request is registered twice. */
  predicate Fresh(events: seq<Event>) {
    forall i, j :: 0 <= i < j < |events| && events[i].Awaited? && events[j].Awaited? ==> events[i].reply != events[j].reply
  }

  predicate Registered(events: seq<Event>, q: Request) {
    Awaited(q) in events
  }

  /** p was registered before q. */
  predicate Before(events: seq<Event>, p: Request, q: Request) {
    exists i, j :: 0 <= i < j < |events| && events[i] == Awaited(p) && events[j] == Awaited(q)
  }

  // ---- what the replies should be ----

  /** The first upload of these to have failed. */
  function FirstFailure(events: seq<Event>): Outcome {
    if events == [] then Fine
    else if events[0].Completed? && events[0].outcome.Failed? then events[0].outcome
    else FirstFailure(events[1..])
  }

  function Answered(events: seq<Event>): set<Request> {
    After(events).replies.Keys
  }

  /** How many events there were when somebody was last answered. */
  function LastAnswer(events: seq<Event>): (n: nat)
    ensures n <= |events|
  {
    if events == [] then 0
    else if Answered(events) != Answered(events[..|events| - 1]) then |events|
    else LastAnswer(events[..|events| - 1])
  }

  /** What has happened since. */
  function Since(events: seq<Event>): seq<Event> {
    events[LastAnswer(events)..]
  }

  lemma {:induction false} FailureConcat(x: seq<Event>, y: seq<Event>)
    ensures FirstFailure(x + y) == if FirstFailure(x) == Fine then FirstFailure(y) else FirstFailure(x)
  {
    if x == [] {
      assert x + y == y;
    } else {
      assert (x + y)[0] == x[0] && (x + y)[1..] == x[1..] + y;
      FailureConcat(x[1..], y);
    }
  }

  lemma FailureOne(e: Event)
    ensures FirstFailure([e]) == if e.Completed? then e.outcome else Fine
  {
    var one := [e];
    assert one[1..] == [];
  }

  // ---- the waiters ----

  /** Waiters are registered requests, in the order of their registration. */
  ghost predicate InTurn(events: seq<Event>, waiters: seq<Waiter>) {
    && (forall i :: 0 <= i < |waiters| ==> Registered(events, waiters[i].reply))
    && (forall i, j :: 0 <= i < j < |waiters| ==> Before(events, waiters[i].reply, waiters[j].reply))
  }

  lemma TailInTurn(events: seq<Event>, waiters: seq<Waiter>)
    requires InTurn(events, waiters) && waiters != []
    ensures InTurn(events, waiters[1..]) && Registered(events, waiters[0].reply)
    ensures forall w :: w in waiters[1..] ==> Before(events, waiters[0].reply, w.reply)
  {
    hide Before, Registered;
    var rest := waiters[1..];
    forall w | w in rest ensures Before(events, waiters[0].reply, w.reply) {
      var i :| 0 <= i < |rest| && rest[i] == w;
      assert waiters[i + 1] == w;
    }
  }

  lemma PrependInTurn(events: seq<Event>, w: Waiter, rest: seq<Waiter>)
    requires InTurn(events, rest) && Registered(events, w.reply)
    requires forall v :: v in rest ==> Before(events, w.reply, v.reply)
    ensures InTurn(events, [w] + rest)
  {
    hide Before, Registered;
    var all := [w] + rest;
    forall i, j | 0 <= i < j < |all| ensures Before(events, all[i].reply, all[j].reply) {
      assert all[j] == rest[j - 1] && (i == 0 || all[i] == rest[i - 1]);
    }
  }

  lemma {:induction false} KeptInTurn(events: seq<Event>, s: State, waiters: seq<Waiter>)
    requires InTurn(events, waiters)
    ensures InTurn(events, Kept(s, waiters))
  {
    hide InTurn, Before, Registered;
    if waiters == [] {
      NobodyInTurn(events);
    } else {
      TailInTurn(events, waiters);
      KeptInTurn(events, s, waiters[1..]);
      var kept := Kept(s, waiters[1..]);
      assert [] + kept == kept;
      if !s.Due(waiters[0]) {
        PrependInTurn(events, waiters[0], kept);
      }
    }
  }

  lemma NobodyInTurn(events: seq<Event>)
    ensures InTurn(events, [])
  {
  }

  lemma MoreInTurn(events: seq<Event>, e: Event, waiters: seq<Waiter>)
    requires InTurn(events, waiters)
    ensures InTurn(events + [e], waiters)
  {
    var more := events + [e];
    forall i, j | 0 <= i < j < |waiters| ensures Before(more, waiters[i].reply, waiters[j].reply) {
      var a, b :| 0 <= a < b < |events| && events[a] == Awaited(waiters[i].reply) && events[b] == Awaited(waiters[j].reply);
      assert more[a] == events[a] && more[b] == events[b];
    }
  }

  lemma NewInTurn(events: seq<Event>, q: Request, waiters: seq<Waiter>, w: Waiter)
    requires InTurn(events, waiters) && w.reply == q
    ensures InTurn(events + [Awaited(q)], waiters + [w])
  {
    var more := events + [Awaited(q)];
    MoreInTurn(events, Awaited(q), waiters);
    assert more[|events|] == Awaited(q);
    forall i | 0 <= i < |waiters| ensures Before(more, waiters[i].reply, q) {
      assert Registered(events, waiters[i].reply);
      var a :| 0 <= a < |events| && events[a] == Awaited(waiters[i].reply);
      assert more[a] == events[a];
    }
  }

  lemma BeforeOneWay(events: seq<Event>, p: Request, q: Request)
    requires Fresh(events) && Before(events, p, q)
    ensures !Before(events, q, p)
  {
  }

  // ---- what a signal does to the error ----

  lemma {:induction false} NobodyDue(s: State)
    requires forall w :: w in s.waiters ==> !s.Due(w)
    ensures Signal(s) == s
    decreases |s.waiters|
  {
    if s.waiters != [] {
      var t := AfterFirst(s);
      assert forall w :: w in t.waiters ==> w in s.waiters && t.Due(w) == s.Due(w);
      assert !s.Due(s.waiters[0]);
      NobodyDue(t);
      assert [s.waiters[0]] + t.waiters == s.waiters;
    }
  }

  /** A signal answers somebody, and then no error is left, or leaves everything as it was. */
  lemma SignalsOrNot(s: State)
    requires s.Unanswered()
    ensures if exists w :: w in s.waiters && s.Due(w)
            then Signal(s).err == Fine && Signal(s).replies.Keys != s.replies.Keys
            else Signal(s) == s
  {
    if w :| w in s.waiters && s.Due(w) {
      var i :| 0 <= i < |s.waiters| && s.waiters[i] == w;
      SignalAnswers(s, i);
    } else {
      NobodyDue(s);
    }
  }

  // ---- the invariant ----

  /** What holds after any events: the error nobody has been told yet is the first failure since
      the last answer. */
  ghost predicate Told(events: seq<Event>) {
    var s := After(events);
    && s.Unanswered() && InTurn(events, s.waiters)
    && (forall q :: q in s.replies ==> Registered(events, q))
    && s.err == FirstFailure(Since(events))
  }

  /** The state a signal starts from: the event has been counted, nobody told. */
  function Counted(s: State, e: Event): State
    requires e.Completed? || e.Shut?
  {
    match e
    case Completed(outcome) => s.(completed := s.completed + 1, err := if s.err == Fine then outcome else s.err)
    case Shut => s.(closed := true)
  }

  /** The failure pending when the event has happened. */
  lemma PendingThen(events: seq<Event>, e: Event)
    ensures FirstFailure(Since(events) + [e])
      == if FirstFailure(Since(events)) == Fine && e.Completed? then e.outcome else FirstFailure(Since(events))
  {
    FailureConcat(Since(events), [e]);
    FailureOne(e);
  }

  lemma SinceNext(events: seq<Event>, e: Event)
    ensures Since(events + [e]) == if Answered(events + [e]) == Answered(events) then Since(events) + [e] else []
  {
    assert (events + [e])[..|events|] == events;
  }

  lemma AfterNext(events: seq<Event>, e: Event)
    ensures After(events + [e]) == Happens(After(events), e)
  {
    assert (events + [e])[..|events|] == events;
  }

  lemma SignalKeepsTold(events: seq<Event>, e: Event)
    requires Told(events) && (e.Completed? || e.Shut?)
    ensures Told(events + [e])
  {
    hide InTurn, Registered, Signal, FirstFailure, Since;
    var m := Counted(After(events), e);
    AfterNext(events, e);
    PendingThen(events, e);
    assert m.Unanswered();
    SignalUnanswered(m);
    SignalInTurn(events, e, m);
    SignalReplies(events, e);
    StillTold(events, e, m);
  }

  lemma SignalInTurn(events: seq<Event>, e: Event, m: State)
    requires InTurn(events, m.waiters)
    ensures InTurn(events + [e], Signal(m).waiters)
  {
    hide InTurn, Signal;
    SignalKeepsTheRest(m);
    KeptInTurn(events, m, m.waiters);
    MoreInTurn(events, e, Kept(m, m.waiters));
  }

  lemma StillTold(events: seq<Event>, e: Event, m: State)
    requires Answered(events) == m.replies.Keys && Answered(events + [e]) == Signal(m).replies.Keys
    requires m.Unanswered() && m.err == FirstFailure(Since(events) + [e])
    ensures Signal(m).err == FirstFailure(Since(events + [e]))
  {
    hide Answered, Since;
    SignalsOrNot(m);
    SinceNext(events, e);
  }

  lemma SignalReplies(events: seq<Event>, e: Event)
    requires Told(events) && (e.Completed? || e.Shut?)
    ensures forall q :: q in After(events + [e]).replies ==> Registered(events + [e], q)
  {
    AfterNext(events, e);
    var m := Counted(After(events), e);
    SignalSummary(m);
    forall q | q in Signal(m).replies ensures Registered(events + [e], q) {
      if q !in m.replies {
        var w :| w in m.waiters && m.Due(w) && w.reply == q;
        assert Registered(events, q);
      }
    }
  }

  lemma DispatchKeepsTold(events: seq<Event>)
    requires Told(events)
    ensures Told(events + [Dispatched])
  {
    hide InTurn, Registered, FirstFailure, Since;
    AfterNext(events, Dispatched);
    MoreInTurn(events, Dispatched, After(events).waiters);
    PendingThen(events, Dispatched);
    SinceNext(events, Dispatched);
    StillRegistered(events, Dispatched);
  }

  lemma StillRegistered(events: seq<Event>, e: Event)
    ensures forall q :: Registered(events, q) ==> Registered(events + [e], q)
  {
  }

  lemma AwaitKeepsTold(events: seq<Event>, q: Request)
    requires Told(events) && !Registered(events, q)
    ensures Told(events + [Awaited(q)])
  {
    hide Before, FirstFailure, Since;
    var s, e := After(events), Awaited(q);
    AfterNext(events, e);
    PendingThen(events, e);
    SinceNext(events, e);
    StillRegistered(events, e);
    assert Registered(events + [e], q);
    assert forall w :: w in s.waiters ==> Registered(events, w.reply);
    if s.completed >= s.dispatched || s.closed {
      MoreInTurn(events, e, s.waiters);
      NothingFailed();
    } else {
      NewInTurn(events, q, s.waiters, Waiter(s.dispatched, q));
      AwaitUnanswered(s, q);
    }
  }

  lemma NothingFailed()
    ensures FirstFailure([]) == Fine
  {
  }

  lemma AwaitUnanswered(s: State, q: Request)
    requires s.Unanswered() && q !in s.replies && forall w :: w in s.waiters ==> w.reply != q
    ensures s.(waiters := s.waiters + [Waiter(s.dispatched, q)]).Unanswered()
  {
  }

  lemma {:induction false} AlwaysTold(events: seq<Event>)
    requires Fresh(events)
    ensures Told(events)
  {
    if events != [] {
      var n := |events| - 1;
      var before, e := events[..n], events[n];
      AlwaysTold(before);
      hide Told;
      assert events == before + [e];
      match e
      case Dispatched => DispatchKeepsTold(before);
      case Awaited(q) => AwaitKeepsTold(before, q);
      case _ => SignalKeepsTold(before, e);
    }
  }

  // ---- the replies ----

  predicate NewlyAnswered(events: seq<Event>, e: Event, q: Request) {
    q in Answered(events + [e]) && q !in Answered(events)
  }

  /** Whatever has been dispatched, completed, registered and shut down: when an event answers
      requests, the one registered first among them is told the first failure since requests were
      last answered, this event included, and `Fine` if nothing failed; the others are told
      `Fine`. */
  lemma RepliesTell(events: seq<Event>, e: Event, q: Request)
    requires Fresh(events + [e]) && NewlyAnswered(events, e, q)
    ensures After(events + [e]).replies[q]
      == if exists p :: NewlyAnswered(events, e, p) && Before(events + [e], p, q) then Fine
         else FirstFailure(Since(events) + [e])
  {
    assert Fresh(events) by {
      assert forall i :: 0 <= i < |events| ==> (events + [e])[i] == events[i];
    }
    AlwaysTold(events);
    AfterNext(events, e);
    PendingThen(events, e);
    match e
    case Dispatched =>
    case Awaited(_) => AwaitTells(events, q);
    case _ => SignalTells(events, e, q);
  }

  lemma AwaitTells(events: seq<Event>, q: Request)
    requires Told(events) && Fresh(events + [Awaited(q)]) && NewlyAnswered(events, Awaited(q), q)
    ensures After(events + [Awaited(q)]).replies[q] == After(events).err
    ensures forall p :: NewlyAnswered(events, Awaited(q), p) ==> p == q
    ensures !Before(events + [Awaited(q)], q, q)
  {
    AfterNext(events, Awaited(q));
  }

  /** The place of a request that is answered now among those who waited. */
  lemma PlaceOf(events: seq<Event>, e: Event, q: Request) returns (i: nat)
    requires Told(events) && (e.Completed? || e.Shut?) && NewlyAnswered(events, e, q)
    ensures var m := Counted(After(events), e); i < |m.waiters| && m.Due(m.waiters[i]) && m.waiters[i].reply == q
  {
    var m := Counted(After(events), e);
    AfterNext(events, e);
    SignalSummary(m);
    var w :| w in m.waiters && m.Due(w) && w.reply == q;
    i :| 0 <= i < |m.waiters| && m.waiters[i] == w;
  }

  lemma DueIsAnswered(events: seq<Event>, e: Event, j: nat)
    requires Told(events) && (e.Completed? || e.Shut?)
    requires var m := Counted(After(events), e); j < |m.waiters| && m.Due(m.waiters[j])
    ensures NewlyAnswered(events, e, Counted(After(events), e).waiters[j].reply)
  {
    var m := Counted(After(events), e);
    AfterNext(events, e);
    SignalAnswers(m, j);
  }

  lemma SignalTells(events: seq<Event>, e: Event, q: Request)
    requires Told(events) && (e.Completed? || e.Shut?) && Fresh(events + [e]) && NewlyAnswered(events, e, q)
    ensures After(events + [e]).replies[q]
      == if exists p :: NewlyAnswered(events, e, p) && Before(events + [e], p, q) then Fine else Counted(After(events), e).err
  {
    var m := Counted(After(events), e);
    var i := PlaceOf(events, e, q);
    AfterNext(events, e);
    SignalAnswers(m, i);
    MoreInTurn(events, e, m.waiters);
    hide Before, Registered, FirstFailure, Since, Fresh, NewlyAnswered, Signal, InTurn;
    if j :| 0 <= j < i && m.Due(m.waiters[j]) {
      DueIsAnswered(events, e, j);
      EarlierWaiter(events + [e], m.waiters, j, i);
    }
    if p :| NewlyAnswered(events, e, p) && Before(events + [e], p, q) {
      var j := PlaceOf(events, e, p);
      NotAfter(events + [e], m.waiters, i, j);
    }
  }

  lemma EarlierWaiter(events: seq<Event>, waiters: seq<Waiter>, j: nat, i: nat)
    requires InTurn(events, waiters) && j < i < |waiters|
    ensures Before(events, waiters[j].reply, waiters[i].reply)
  {
  }

  /** Who was registered earlier waits earlier. */
  lemma NotAfter(events: seq<Event>, waiters: seq<Waiter>, i: nat, j: nat)
    requires Fresh(events) && InTurn(events, waiters) && i < |waiters| && j < |waiters|
    requires Before(events, waiters[j].reply, waiters[i].reply)
    ensures j < i
  {
    BeforeOneWay(events, waiters[j].reply, waiters[i].reply);
  }

  /** And what a request has been told stays told. */
  lemma RepliesStay(events: seq<Event>, e: Event, q: Request)
    requires Fresh(events + [e]) && q in After(events).replies
    ensures q in After(events + [e]).replies && After(events + [e]).replies[q] == After(events).replies[q]
  {
    assert Fresh(events) by {
      assert forall i :: 0 <= i < |events| ==> (events + [e])[i] == events[i];
    }
    AlwaysTold(events);
    AfterNext(events, e);
    match e
    case Dispatched =>
    case Awaited(p) => FreshIsNew(events, p);
    case _ => SignalSummary(Counted(After(events), e));
  }

  lemma FreshIsNew(events: seq<Event>, q: Request)
    requires Fresh(events + [Awaited(q)])
    ensures !Registered(events, q)
  {
    var more := events + [Awaited(q)];
    assert more[|events|] == Awaited(q) && forall i :: 0 <= i < |events| ==> more[i] == events[i];
  }
}
