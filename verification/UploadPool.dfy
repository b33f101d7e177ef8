/** The upload pool's bookkeeping: monotone dispatch and completion counts, the flush
    waiters comparing against them, and the first delivery error nobody has taken yet.
    `State` and its functions say what each critical section does to it; the class does
    the same step by step, as the source does under its lock. */
module UploadPool {

  type Request = nat
  type Error = nat

  datatype Outcome = Fine | Failed(error: Error)

  datatype Waiter = Waiter(target: nat, reply: Request)

  /** `replies` holds what was sent on each request's capacity-one reply channel. */
  datatype State = State(
    dispatched: nat, completed: nat, err: Outcome, waiters: seq<Waiter>, closed: bool,
    replies: map<Request, Outcome>)
  {
    /** No waiter has been answered yet, and no two share a channel: a send to any of them
        finds its channel empty and cannot block. */
    ghost predicate Unanswered() {
      && (forall i :: 0 <= i < |waiters| ==> waiters[i].reply !in replies)
      && (forall i, j :: 0 <= i < j < |waiters| ==> waiters[i].reply != waiters[j].reply)
    }

    predicate Due(w: Waiter) {
      completed >= w.target || closed
    }

    /** Whoever waits has something to wait for that has been dispatched. */
    predicate Prompt() {
      forall w :: w in waiters ==> !Due(w) && w.target <= dispatched
    }
  }

  const IDLE := State(0, 0, Fine, [], false, map[])

  // ---- what the critical sections do ----

  /** Answers every waiter that is due, in order; the first one takes the error. */
  function Signal(s: State): (r: State)
    decreases |s.waiters|
  {
    if s.waiters == [] then s
    else
      var w := s.waiters[0];
      if s.Due(w) then
        Signal(s.(waiters := s.waiters[1..], err := Fine, replies := s.replies[w.reply := s.err]))
      else
        var rest := Signal(s.(waiters := s.waiters[1..]));
        rest.(waiters := [w] + rest.waiters)
  }

  function OnDispatch(s: State): State {
    s.(dispatched := s.dispatched + 1)
  }

  function OnComplete(s: State, e: Outcome): State {
    Signal(s.(completed := s.completed + 1, err := if s.err == Fine then e else s.err))
  }

  function OnAwait(s: State, reply: Request): State {
    if s.completed >= s.dispatched || s.closed
    then s.(err := Fine, replies := s.replies[reply := s.err])
    else s.(waiters := s.waiters + [Waiter(s.dispatched, reply)])
  }

  function OnShutdown(s: State): State {
    Signal(s.(closed := true))
  }

  // ---- what that amounts to ----

  /** Waiters that are not due, in their order. */
  ghost function Kept(s: State, waiters: seq<Waiter>): (kept: seq<Waiter>)
    ensures forall w :: w in kept ==> w in waiters && !s.Due(w)
    ensures forall w :: w in waiters && !s.Due(w) ==> w in kept
  {
    if waiters == [] then []
    else (if s.Due(waiters[0]) then [] else [waiters[0]]) + Kept(s, waiters[1..])
  }

  /** The state `Signal` recurs on. */
  function AfterFirst(s: State): State
    requires s.waiters != []
  {
    var w := s.waiters[0];
    if s.Due(w) then s.(waiters := s.waiters[1..], err := Fine, replies := s.replies[w.reply := s.err])
    else s.(waiters := s.waiters[1..])
  }

  lemma SignalNobody(s: State)
    ensures s.waiters == [] ==> Signal(s) == s
  {
  }

  /** Signalling with some waiters already kept: the first one is answered or kept too. */
  lemma SignalFirst(s: State, kept: seq<Waiter>)
    requires s.waiters != []
    ensures var w, r, t := s.waiters[0], Signal(s), Signal(AfterFirst(s));
      r.(waiters := kept + r.waiters)
      == if s.Due(w) then t.(waiters := kept + t.waiters) else t.(waiters := kept + [w] + t.waiters)
  {
    var w, t := s.waiters[0], Signal(AfterFirst(s));
    assert kept + ([w] + t.waiters) == kept + [w] + t.waiters;
  }

  lemma AfterFirstUnanswered(s: State)
    requires s.Unanswered() && s.waiters != []
    ensures AfterFirst(s).Unanswered()
  {
    var t := AfterFirst(s);
    forall i | 0 <= i < |t.waiters|
      ensures t.waiters[i] == s.waiters[i + 1] && t.waiters[i].reply !in t.replies
    {
    }
  }

  /** A signal removes exactly the due waiters and touches no count. */
  lemma {:induction false} SignalKeepsTheRest(s: State)
    ensures Signal(s).waiters == Kept(s, s.waiters)
    ensures Signal(s).dispatched == s.dispatched && Signal(s).completed == s.completed && Signal(s).closed == s.closed
    decreases |s.waiters|
  {
    if s.waiters != [] {
      var t := AfterFirst(s);
      SignalKeepsTheRest(t);
      KeptIgnoresTheRest(s, t, t.waiters);
    }
  }

  lemma DistinctFromFirst(s: State)
    requires s.Unanswered() && s.waiters != []
    ensures forall v :: v in s.waiters[1..] ==> v.reply != s.waiters[0].reply
  {
    forall v | v in s.waiters[1..]
      ensures v.reply != s.waiters[0].reply
    {
      var k :| 0 <= k < |s.waiters| - 1 && s.waiters[1..][k] == v;
      assert s.waiters[k + 1] == v;
    }
  }

  lemma {:induction false} SignalUnanswered(s: State)
    requires s.Unanswered()
    ensures Signal(s).Unanswered()
    decreases |s.waiters|
  {
    if s.waiters != [] {
      var w, t := s.waiters[0], AfterFirst(s);
      AfterFirstUnanswered(s);
      SignalUnanswered(t);
      if !s.Due(w) {
        var u := Signal(t);
        DistinctFromFirst(s);
        SignalOnlyTheDue(t, w.reply);
        SignalKeepsTheRest(t);
        assert forall v :: v in u.waiters ==> v.reply != w.reply;
        PrependUnanswered(w, u);
      }
    }
  }

  lemma PrependUnanswered(w: Waiter, u: State)
    requires u.Unanswered() && w.reply !in u.replies
    requires forall v :: v in u.waiters ==> v.reply != w.reply
    ensures u.(waiters := [w] + u.waiters).Unanswered()
  {
    var ws := [w] + u.waiters;
    forall i | 0 <= i < |ws|
      ensures ws[i].reply !in u.replies
    {
      assert i == 0 || ws[i] == u.waiters[i - 1];
    }
    forall i, j | 0 <= i < j < |ws|
      ensures ws[i].reply != ws[j].reply
    {
      assert ws[j] == u.waiters[j - 1] && (i == 0 || ws[i] == u.waiters[i - 1]);
    }
  }

  /** Nobody but a due waiter hears anything. */
  lemma {:induction false} SignalOnlyTheDue(s: State, q: Request)
    requires forall w :: w in s.waiters && s.Due(w) ==> w.reply != q
    ensures q in Signal(s).replies <==> q in s.replies
    ensures q in s.replies ==> Signal(s).replies[q] == s.replies[q]
    decreases |s.waiters|
  {
    if s.waiters != [] {
      var t := AfterFirst(s);
      assert forall w :: w in t.waiters ==> w in s.waiters;
      SignalOnlyTheDue(t, q);
    }
  }

  /** Each due waiter is answered, and the pending error goes to the first of them only. */
  lemma {:induction false} SignalAnswers(s: State, i: nat)
    requires s.Unanswered() && i < |s.waiters| && s.Due(s.waiters[i])
    ensures s.waiters[i].reply in Signal(s).replies
    ensures Signal(s).replies[s.waiters[i].reply]
            == if exists j :: 0 <= j < i && s.Due(s.waiters[j]) then Fine else s.err
    ensures Signal(s).err == Fine
    decreases |s.waiters|
  {
    var w, t := s.waiters[0], AfterFirst(s);
    AfterFirstUnanswered(s);
    assert forall j :: 0 <= j < |t.waiters| ==> t.waiters[j] == s.waiters[j + 1];
    if i > 0 {
      SignalAnswers(t, i - 1);
      if j :| 0 <= j < i && s.Due(s.waiters[j]) {
        assert j == 0 || t.Due(t.waiters[j - 1]);
      }
    } else {
      DistinctFromFirst(s);
      SignalOnlyTheDue(t, w.reply);
      SignalErr(t);
    }
  }

  lemma {:induction false} SignalErr(s: State)
    ensures Signal(s).err in {Fine, s.err}
    decreases |s.waiters|
  {
    if s.waiters != [] {
      SignalErr(AfterFirst(s));
    }
  }

  lemma {:induction false} KeptIgnoresTheRest(s: State, t: State, waiters: seq<Waiter>)
    requires s.completed == t.completed && s.closed == t.closed
    ensures Kept(s, waiters) == Kept(t, waiters)
  {
    if waiters == [] {
    } else {
      KeptIgnoresTheRest(s, t, waiters[1..]);
    }
  }

  /** Who has been answered and who still waits after a signal. */
  lemma SignalSummary(s: State)
    requires s.Unanswered()
    ensures var r := Signal(s);
      && r.Unanswered()
      && (r.dispatched, r.completed, r.closed) == (s.dispatched, s.completed, s.closed)
      && (forall w :: w in r.waiters <==> w in s.waiters && !s.Due(w))
      && (forall w :: w in s.waiters && s.Due(w) ==> w.reply in r.replies)
      && (forall q :: q in s.replies ==> q in r.replies && r.replies[q] == s.replies[q])
      && (forall q :: q in r.replies && q !in s.replies ==> exists w :: w in s.waiters && s.Due(w) && w.reply == q)
  {
    var r := Signal(s);
    SignalUnanswered(s);
    SignalKeepsTheRest(s);
    forall w | w in s.waiters && s.Due(w) ensures w.reply in r.replies {
      var i :| 0 <= i < |s.waiters| && s.waiters[i] == w;
      SignalAnswers(s, i);
    }
    forall q | q in s.replies ensures q in r.replies && r.replies[q] == s.replies[q] {
      SignalOnlyTheDue(s, q);
    }
    forall q | q in r.replies && q !in s.replies
      ensures exists w :: w in s.waiters && s.Due(w) && w.reply == q
    {
      if forall w :: w in s.waiters && s.Due(w) ==> w.reply != q {
        SignalOnlyTheDue(s, q);
        assert false;
      }
    }
  }

  /** No critical section leaves a waiter unanswered that could be answered: a dispatch and a
      registration keep it so, a completion and shutdown make it so. */
  lemma NobodyDueWaits(s: State, reply: Request, e: Outcome)
    requires forall w :: w in s.waiters ==> w.target <= s.dispatched
    ensures s.Prompt() ==> OnDispatch(s).Prompt() && OnAwait(s, reply).Prompt()
    ensures OnComplete(s, e).Prompt() && OnShutdown(s).Prompt()
  {
    hide Signal;
    SignalIsPrompt(s.(completed := s.completed + 1, err := if s.err == Fine then e else s.err));
    SignalIsPrompt(s.(closed := true));
  }

  lemma SignalIsPrompt(s: State)
    requires forall w :: w in s.waiters ==> w.target <= s.dispatched
    ensures Signal(s).Prompt()
  {
    SignalKeepsTheRest(s);
    hide Signal;
  }

  lemma ClosedKeepsNobody(s: State, waiters: seq<Waiter>)
    requires s.closed
    ensures Kept(s, waiters) == []
  {
  }

  /** Once closed, a signal leaves no waiter. */
  lemma ShutdownLeavesNobody(s: State)
    requires s.Unanswered()
    ensures OnShutdown(s).waiters == []
    ensures OnShutdown(s).Unanswered()
  {
    var t := s.(closed := true);
    SignalKeepsTheRest(t);
    SignalUnanswered(t);
    ClosedKeepsNobody(t, t.waiters);
  }

  /** The same state, changed in place under the lock. */
  class Pool {
    var dispatched: nat
    var completed: nat
    var err: Outcome
    var waiters: seq<Waiter>
    var closed: bool
    var replies: map<Request, Outcome>

    ghost function Now(): State
      reads this
    {
      State(dispatched, completed, err, waiters, closed, replies)
    }

    ghost predicate Valid()
      reads this
    {
      Now().Unanswered() && Now().Prompt()
    }

    constructor ()
      ensures Valid() && Now() == IDLE
    {
      dispatched, completed, err, waiters, closed, replies := 0, 0, Fine, [], false, map[];
    }

    /** A send on a capacity-one channel that nobody has sent on yet. */
    method Send(reply: Request, e: Outcome)
      requires reply !in replies
      modifies this`replies
      ensures replies == old(replies)[reply := e]
    {
      replies := replies[reply := e];
    }

    method TakeErrLocked() returns (e: Outcome)
      modifies this`err
      ensures e == old(err) && err == Fine
    {
      e := err;
      err := Fine;
    }

    method RecordDispatch()
      requires Valid()
      modifies this`dispatched
      ensures Valid() && Now() == OnDispatch(old(Now()))
    {
      dispatched := dispatched + 1;
    }

    /** Compacts the waiter list over itself, answering the ones that are due. */
    method SignalLocked()
      requires Now().Unanswered()
      modifies this`waiters, this`err, this`replies
      ensures Now().Unanswered() && Now() == Signal(old(Now()))
    {
      hide Signal, Kept;
      SignalNobody(Now());
      if |waiters| == 0 { return; }
      ghost var before := Now();
      SignalUnanswered(before);
      var slots, kept := waiters, 0;
      var i := 0;
      while i < |slots|
        invariant 0 <= kept <= i <= |slots|
        invariant waiters == before.waiters
        invariant Rest(slots, i).Unanswered()
        invariant Signal(before) == var rest := Signal(Rest(slots, i));
                    rest.(waiters := slots[..kept] + rest.waiters)
      {
        ghost var rest := Rest(slots, i);
        AfterFirstUnanswered(rest);
        SignalFirst(rest, slots[..kept]);
        var w := slots[i];
        assert rest.waiters[0] == w && rest.waiters[1..] == slots[i + 1..];
        if completed >= w.target || closed {
          var e := TakeErrLocked();
          Send(w.reply, e);
          assert AfterFirst(rest) == Rest(slots, i + 1);
        } else {
          ghost var was := slots;
          slots := slots[kept := w];
          assert slots[i + 1..] == was[i + 1..];
          assert AfterFirst(rest) == Rest(slots, i + 1);
          assert slots[..kept + 1] == was[..kept] + [w];
          kept := kept + 1;
        }
        i := i + 1;
      }
      SignalNobody(Rest(slots, i));
      waiters := slots[..kept];
      assert slots[..kept] + [] == slots[..kept];
    }

    /** The state as the rest of the loop sees it. */
    ghost function Rest(slots: seq<Waiter>, i: nat): State
      requires i <= |slots|
      reads this
    {
      State(dispatched, completed, err, slots[i..], closed, replies)
    }

    method Complete(e: Outcome)
      requires Valid()
      modifies this
      ensures Valid() && Now() == OnComplete(old(Now()), e)
    {
      hide Signal, Kept;
      NobodyDueWaits(Now(), 0, e);
      completed := completed + 1;
      if e != Fine && err == Fine {
        err := e;
      }
      SignalLocked();
    }

    method Await(reply: Request)
      requires Valid()
      requires reply !in replies && forall w :: w in waiters ==> w.reply != reply
      modifies this
      ensures Valid() && Now() == OnAwait(old(Now()), reply)
    {
      if completed >= dispatched || closed {
        var e := TakeErrLocked();
        Send(reply, e);
        return;
      }
      waiters := waiters + [Waiter(dispatched, reply)];
    }

    /** The part of shutdown after the workers have been joined. */
    method CloseAfterJoin()
      requires Valid()
      modifies this
      ensures Valid() && Now() == OnShutdown(old(Now())) && waiters == []
    {
      hide Signal, Kept;
      ShutdownLeavesNobody(Now());
      NobodyDueWaits(Now(), 0, Fine);
      closed := true;
      SignalLocked();
    }
  }
}
