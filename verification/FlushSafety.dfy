/** Flush, Close and shutdown: when a flush is answered, what that says about the records
    accepted before it, and what is left when the sender has gone. */
module FlushSafety {
  import opened Pipeline
  import opened Ownership
  import P = UploadPool

  // ---- signals ----

  /** The sender has started to quit. */
  predicate Quits(pc: SenderPc) {
    match pc
    case Selecting => false
    case Draining(goal) => goal.Quit?
    case Flushing(_, next) => next == ToDrain(Quit) || next == ToGoal(Quit)
    case Dispatching(_, _, next) => next == ToDrain(Quit) || next == ToGoal(Quit)
    case Recording(_, _, next) => next == ToDrain(Quit) || next == ToGoal(Quit)
    case Answering(_) => false
    case Stopping => true
    case Joining => true
    case Leaving => true
    case Gone => true
  }

  predicate Over(pc: SenderPc) {
    pc.Leaving? || pc.Gone?
  }

  predicate CloseDone(k: Control) {
    k.closer.Joined? || k.closer.CloseReturned?
  }

  ghost predicate ControlOk(c: Config, s: State) {
    var k, pc, u := s.control, s.sender.pc, s.uploads;
    && |u.workers| == c.workers >= 1
    && (k.done <==> !k.closer.NotClosed?)
    && (k.shutdown <==> k.closer.ShutdownClosed? || CloseDone(k))
    && (CloseDone(k) ==> pc.Gone?)
    && k.leftover <= |s.intake.queue|
    && (k.leftover > 0 ==> k.closer.CloseReturned?)
    && (k.closer.CloseFlush? ==> k.closer.request < |k.flushes|)
    && (Quits(pc) ==> k.shutdown)
    && (u.jobsClosed <==> pc.Joining? || Over(pc))
    && (forall i :: 0 <= i < |u.workers| && u.workers[i].Exited? ==> u.jobsClosed && u.jobs == [])
    && (Over(pc) ==> forall i :: 0 <= i < |u.workers| ==> u.workers[i].Exited?)
    && |u.jobs| <= c.workers
    && !k.panicked
  }

  lemma CallKeepsControl(c: Config, s: State, a: CallAction)
    requires CallEnabled(c, s, a) && ControlOk(c, s)
    ensures ControlOk(c, CallStep(c, s, a))
  {
  }

  lemma SenderKeepsControl(c: Config, s: State, a: SenderAction)
    requires SenderEnabled(c, s, a) && ControlOk(c, s)
    ensures ControlOk(c, SenderStep(c, s, a))
  {
    hide Cut', TakeSet, Obtainable, Stats.Lose, Sets.Give, Sets.Release, Sets.Intact, Full;
    hide P.OnAwait, P.OnDispatch, P.OnShutdown;
  }

  lemma WorkerKeepsControl(c: Config, s: State, i: nat, a: WorkerAction)
    requires WorkerEnabled(c, s, i, a) && ControlOk(c, s)
    ensures ControlOk(c, WorkerStep(c, s, i, a))
  {
  }

  lemma CallerKeepsControl(c: Config, s: State, a: CallerAction)
    requires CallerEnabled(c, s, a) && ControlOk(c, s)
    ensures ControlOk(c, CallerStep(c, s, a))
  {
  }

  // ---- who waits for what ----

  /** The request the sender is serving and has not registered yet. */
  predicate Serving(pc: SenderPc, r: nat) {
    match pc
    case Draining(goal) => goal == Answer(r)
    case Flushing(_, next) => next == ToDrain(Answer(r)) || next == ToGoal(Answer(r))
    case Dispatching(_, _, next) => next == ToDrain(Answer(r)) || next == ToGoal(Answer(r))
    case Recording(_, _, next) => next == ToDrain(Answer(r)) || next == ToGoal(Answer(r))
    case Answering(q) => q == r
    case _ => false
  }

  /** The queue has been seen empty on behalf of request r. */
  predicate Drained(pc: SenderPc, r: nat) {
    match pc
    case Flushing(_, next) => next == ToGoal(Answer(r))
    case Dispatching(_, _, next) => next == ToGoal(Answer(r))
    case Recording(_, _, next) => next == ToGoal(Answer(r))
    case Answering(q) => q == r
    case _ => false
  }

  ghost predicate WaitsFor(pool: P.State, r: nat) {
    exists w :: w in pool.waiters && w.reply == r
  }

  ghost predicate PoolOk(s: State) {
    var pool, u, fs, pc := s.uploads.pool, s.uploads, s.control.flushes, s.sender.pc;
    && pool.Unanswered()
    && pool.dispatched + (if pc.Recording? then 1 else 0) == u.sends
    && pool.completed == |u.finished|
    && (pool.closed <==> Over(pc))
    && (Over(pc) ==> pool.waiters == [])
    && (forall w :: w in pool.waiters ==> w.reply < |fs| && fs[w.reply].registered && w.target == fs[w.reply].target)
    && (forall r :: r in pool.replies ==> r < |fs| && fs[r].registered)
    && (forall r :: 0 <= r < |fs| && fs[r].registered ==> fs[r].taken && (r in pool.replies || WaitsFor(pool, r)))
    && (forall r :: 0 <= r < |fs| && fs[r].taken && !fs[r].registered ==> Serving(pc, r))
    && (forall r: nat :: Serving(pc, r) ==> r < |fs| && fs[r].taken && !fs[r].registered)
    && (forall r :: 0 <= r < |fs| && fs[r].phase.Offering? ==> !fs[r].taken)
    && (forall r :: 0 <= r < |fs| && fs[r].phase.Waiting? ==> fs[r].taken)
  }

  /** Registering r answers it or makes it wait, and changes nothing for anybody else. */
  lemma AwaitServes(p: P.State, r: nat)
    requires p.Unanswered() && r !in p.replies && !WaitsFor(p, r)
    ensures var q := P.OnAwait(p, r);
      && q.Unanswered() && q.closed == p.closed && q.completed == p.completed && q.dispatched == p.dispatched
      && (r in q.replies || WaitsFor(q, r))
      && (forall f: nat :: f in p.replies || WaitsFor(p, f) ==> f in q.replies || WaitsFor(q, f))
      && (forall w :: w in q.waiters ==> w in p.waiters || w == P.Waiter(p.dispatched, r))
      && (forall f :: f in q.replies ==> f in p.replies || f == r)
      && (p.closed ==> q.waiters == p.waiters)
  {
    var q := P.OnAwait(p, r);
    if q.replies == p.replies {
      assert q.waiters == p.waiters + [P.Waiter(p.dispatched, r)];
      assert q.waiters[|p.waiters|] in q.waiters;
      forall f: nat | WaitsFor(p, f) ensures WaitsFor(q, f) {
        var w :| w in p.waiters && w.reply == f;
        assert w in q.waiters;
      }
      assert forall w :: w in p.waiters ==> w.reply != r;
    } else {
      assert forall f :: WaitsFor(p, f) ==> WaitsFor(q, f);
    }
  }

  lemma RegisterKeepsPool(c: Config, s: State)
    requires SenderEnabled(c, s, Register) && PoolOk(s)
    ensures PoolOk(SenderStep(c, s, Register))
  {
    hide Cut', TakeSet, Obtainable, Stats.Lose, Sets.Give, Sets.Release, Sets.Intact, Full, Halves, Discard, Absorb, P.OnAwait;
    var r := s.sender.pc.request;
    assert Serving(s.sender.pc, r);
    if WaitsFor(s.uploads.pool, r) {
      assert false;
    }
    AwaitServes(s.uploads.pool, r);
    hide WaitsFor;
  }

  lemma FinishKeepsPool(c: Config, s: State)
    requires SenderEnabled(c, s, FinishPool) && PoolOk(s)
    ensures PoolOk(SenderStep(c, s, FinishPool))
  {
    hide Cut', TakeSet, Obtainable, Stats.Lose, Sets.Give, Sets.Release, Sets.Intact, Full, Halves, Discard, Absorb, P.Signal;
    var p := s.uploads.pool.(closed := true);
    P.ShutdownLeavesNobody(s.uploads.pool);
    P.SignalSummary(p);
  }

  lemma TakeFlushKeepsPool(c: Config, s: State, r: nat)
    requires SenderEnabled(c, s, TakeFlush(r)) && PoolOk(s)
    ensures PoolOk(SenderStep(c, s, TakeFlush(r)))
  {
    assert SenderStep(c, s, TakeFlush(r)).uploads.pool == s.uploads.pool;
  }

  /** Nothing a waiter depends on has changed. */
  lemma FrameKeepsPool(s: State, t: State)
    requires PoolOk(s)
    requires t.control.flushes == s.control.flushes && t.uploads.finished == s.uploads.finished
    requires t.uploads.pool == s.uploads.pool.(dispatched := t.uploads.pool.dispatched)
    requires t.uploads.pool.dispatched + (if t.sender.pc.Recording? then 1 else 0) == t.uploads.sends
    requires Over(t.sender.pc) == Over(s.sender.pc)
    requires forall r: nat :: Serving(t.sender.pc, r) == Serving(s.sender.pc, r)
    ensures PoolOk(t)
  {
    assert forall r :: WaitsFor(s.uploads.pool, r) ==> WaitsFor(t.uploads.pool, r);
  }

  lemma OtherStepsServeTheSame(c: Config, s: State, a: SenderAction, r: nat)
    requires SenderEnabled(c, s, a) && !a.Register? && !a.FinishPool? && !a.TakeFlush?
    ensures Over(SenderStep(c, s, a).sender.pc) == Over(s.sender.pc)
    ensures Serving(SenderStep(c, s, a).sender.pc, r) == Serving(s.sender.pc, r)
  {
    hide Cut', TakeSet, Obtainable, Stats.Lose, Sets.Give, Sets.Release, Sets.Intact, Full;
  }

  lemma OtherStepsAnswerNobody(c: Config, s: State, a: SenderAction)
    requires SenderEnabled(c, s, a) && !a.Register? && !a.FinishPool? && !a.TakeFlush?
    ensures var t := SenderStep(c, s, a);
      && t.control.flushes == s.control.flushes && t.uploads.finished == s.uploads.finished
      && t.uploads.pool == s.uploads.pool.(dispatched := t.uploads.pool.dispatched)
      && t.uploads.pool.dispatched - s.uploads.pool.dispatched + (if t.sender.pc.Recording? then 1 else 0)
         == t.uploads.sends - s.uploads.sends + (if s.sender.pc.Recording? then 1 else 0)
  {
    hide Cut', TakeSet, Obtainable, Stats.Lose, Sets.Give, Sets.Release, Sets.Intact, Full;
  }

  lemma OtherStepsKeepPool(c: Config, s: State, a: SenderAction)
    requires SenderEnabled(c, s, a) && !a.Register? && !a.FinishPool? && !a.TakeFlush? && PoolOk(s)
    ensures PoolOk(SenderStep(c, s, a))
  {
    hide SenderEnabled, SenderStep, Over, Serving;
    forall r: nat { OtherStepsServeTheSame(c, s, a, r); }
    OtherStepsServeTheSame(c, s, a, 0);
    OtherStepsAnswerNobody(c, s, a);
    FrameKeepsPool(s, SenderStep(c, s, a));
  }

  lemma SenderKeepsPool(c: Config, s: State, a: SenderAction)
    requires SenderEnabled(c, s, a) && PoolOk(s)
    ensures PoolOk(SenderStep(c, s, a))
  {
    hide SenderEnabled, SenderStep, PoolOk;
    match a
    case Register => RegisterKeepsPool(c, s);
    case FinishPool => FinishKeepsPool(c, s);
    case TakeFlush(r) => TakeFlushKeepsPool(c, s, r);
    case _ => OtherStepsKeepPool(c, s, a);
  }

  lemma CompleteKeepsPool(c: Config, s: State, i: nat)
    requires WorkerEnabled(c, s, i, Complete) && PoolOk(s) && NumbersOk(s.uploads) && !Over(s.sender.pc)
    ensures PoolOk(WorkerStep(c, s, i, Complete))
  {
    hide P.Signal, Serving, Quits;
    var u, t := s.uploads, WorkerStep(c, s, i, Complete);
    var w := u.workers[i];
    var p := u.pool.(completed := u.pool.completed + 1, err := if u.pool.err == P.Fine then w.err else u.pool.err);
    assert P.OnComplete(u.pool, w.err) == P.Signal(p);
    P.SignalSummary(p);
    var q := t.uploads.pool;
    forall r | 0 <= r < |s.control.flushes| && s.control.flushes[r].registered
      ensures r in q.replies || WaitsFor(q, r)
    {
      if r !in p.replies {
        var v :| v in p.waiters && v.reply == r;
        assert p.Due(v) || v in q.waiters;
      }
    }
  }

  lemma WorkerKeepsPool(c: Config, s: State, i: nat, a: WorkerAction)
    requires WorkerEnabled(c, s, i, a) && PoolOk(s) && NumbersOk(s.uploads)
    requires ControlOk(c, s)
    ensures PoolOk(WorkerStep(c, s, i, a))
  {
    match a
    case Complete => CompleteKeepsPool(c, s, i);
    case _ => assert WorkerStep(c, s, i, a).uploads.pool == s.uploads.pool;
  }

  lemma CallerKeepsPool(c: Config, s: State, a: CallerAction)
    requires CallerEnabled(c, s, a) && PoolOk(s)
    ensures PoolOk(CallerStep(c, s, a))
  {
    assert CallerStep(c, s, a).uploads.pool == s.uploads.pool;
  }
}
