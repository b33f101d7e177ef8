/** What an answered flush promises about the records accepted before it. */
module FlushGuarantee {
  import opened Pipeline
  import opened Ownership
  import opened Fifo
  import opened FlushSafety
  import P = UploadPool

  /** Every batch that had left the sender when request r was registered is resolved:
      either lost and counted, or completed by a worker. */
  ghost predicate Honest(s: State, r: nat)
    requires r < |s.control.flushes|
  {
    var cover := s.control.flushes[r].cover;
    && cover <= |s.sender.outs|
    && forall i :: 0 <= i < cover && s.sender.outs[i].Handed? ==> s.sender.outs[i].no in s.uploads.finished
  }

  /** A registered request covers every record accepted before it was sent. */
  ghost predicate Covers(outs: seq<Out>, sends: nat, f: Flush) {
    f.registered ==>
      && f.cover <= |outs| && f.target <= sends
      && |OutRecords(outs[..f.cover])| >= f.mark
      && forall i :: 0 <= i < f.cover && outs[i].Handed? ==> outs[i].no < f.target
  }

  ghost predicate CoverOk(s: State) {
    && (forall i :: 0 <= i < |s.sender.outs| && s.sender.outs[i].Handed? ==> s.sender.outs[i].no < s.uploads.sends)
    && (forall r :: 0 <= r < |s.control.flushes| ==> Covers(s.sender.outs, s.uploads.sends, s.control.flushes[r]))
  }

  ghost predicate MarksOk(s: State) {
    var fs, pc := s.control.flushes, s.sender.pc;
    && (forall r :: 0 <= r < |fs| && Serving(pc, r) ==> fs[r].mark <= |s.intake.accepted|)
    && (forall r :: 0 <= r < |fs| && Drained(pc, r) ==> fs[r].mark <= s.intake.head)
  }

  /** With one worker, batches finish in the order they were dispatched. */
  ghost predicate InOrder(c: Config, s: State) {
    var u := s.uploads;
    c.workers == 1 && |u.workers| == 1 ==>
      && (forall n :: n in u.finished ==> n < u.pool.completed)
      && (forall n: nat :: n < u.pool.completed ==> n in u.finished)
      && (HasNo(u.workers[0]) ==> u.workers[0].no == u.pool.completed)
      && u.sends - |u.jobs| == u.pool.completed + (if HasNo(u.workers[0]) then 1 else 0)
  }

  ghost predicate HonestOk(c: Config, s: State) {
    c.workers == 1 ==> forall r :: r in s.uploads.pool.replies && r < |s.control.flushes| ==> Honest(s, r)
  }

  /** While Close waits for its own flush and no Enqueue raced it, nothing enters the
      pipeline any more, so from registration on nothing is left to hand off. */
  ghost predicate CloseOk(s: State) {
    var k, pc := s.control, s.sender.pc;
    k.done && !k.raced ==>
      && (forall i :: 0 <= i < |s.intake.calls| ==> !Active(s.intake.calls[i]))
      && (k.closer.CloseReturned? ==> k.leftover == |s.intake.queue|)
      && (k.closer.CloseFlush? && k.closer.request < |k.flushes| ==>
            var r := k.closer.request;
            && (Drained(pc, r) ==> s.intake.queue == [])
            && (k.flushes[r].registered ==>
                  && s.intake.queue == [] && s.sender.bounds == []
                  && !pc.Flushing? && !pc.Dispatching? && !pc.Recording?
                  && k.flushes[r].cover == |s.sender.outs| && k.flushes[r].target == s.uploads.sends)
            && (r in s.uploads.pool.replies ==> Honest(s, r)))
  }

  ghost predicate Inv(c: Config, s: State) {
    && c.Valid()
    && IntakeOk(s.intake) && BatchesOk(s) && NumbersOk(s.uploads) && SenderOk(s.sender)
    && FifoOk(s) && Conserved(s)
    && ControlOk(c, s) && PoolOk(s)
    && CoverOk(s) && MarksOk(s) && InOrder(c, s) && HonestOk(c, s) && CloseOk(s)
  }

  // ---- covers ----

  lemma CoversStays(outs: seq<Out>, sends: nat, f: Flush, o: Out, more: nat)
    requires Covers(outs, sends, f) && sends <= more
    ensures Covers(outs, more, f) && Covers(outs + [o], more, f)
  {
    if f.registered {
      assert (outs + [o])[..f.cover] == outs[..f.cover];
    }
  }

  lemma RegisterKeepsCover(c: Config, s: State)
    requires SenderEnabled(c, s, Register) && CoverOk(s) && MarksOk(s) && PoolOk(s)
    requires FifoOk(s) && SenderOk(s.sender)
    ensures CoverOk(SenderStep(c, s, Register))
  {
    var d, r := s.sender, s.sender.pc.request;
    assert Serving(d.pc, r) && Drained(d.pc, r);
    assert d.outs[..|d.outs|] == d.outs;
    assert OutRecords(d.outs) + [] + [] == s.intake.accepted[..s.intake.head];
  }

  /** Any other step adds at most one batch to those that left. */
  lemma OutsGrow(c: Config, s: State, a: SenderAction)
    requires SenderEnabled(c, s, a)
    ensures var t := SenderStep(c, s, a);
      && s.uploads.sends <= t.uploads.sends
      && (t.sender.outs == s.sender.outs
          || (|t.sender.outs| == |s.sender.outs| + 1
              && t.sender.outs == s.sender.outs + [t.sender.outs[|s.sender.outs|]]
              && (t.sender.outs[|s.sender.outs|].Handed? ==> t.sender.outs[|s.sender.outs|].no < t.uploads.sends)))
  {
    hide Cut', TakeSet, Obtainable, Stats.Lose, Sets.Give, Sets.Release, Sets.Intact, Full;
    hide P.OnAwait, P.OnDispatch, P.OnShutdown;
  }

  lemma SenderKeepsCover(c: Config, s: State, a: SenderAction)
    requires SenderEnabled(c, s, a) && CoverOk(s) && MarksOk(s) && PoolOk(s)
    requires FifoOk(s) && SenderOk(s.sender)
    ensures CoverOk(SenderStep(c, s, a))
  {
    var fs, d, t := s.control.flushes, s.sender, SenderStep(c, s, a);
    OutsGrow(c, s, a);
    if a == Register {
      RegisterKeepsCover(c, s);
    } else {
      var o := if |t.sender.outs| > |d.outs| then t.sender.outs[|d.outs|] else Lost([]);
      forall r | 0 <= r < |fs| ensures Covers(t.sender.outs, t.uploads.sends, t.control.flushes[r]) {
        CoversStays(d.outs, s.uploads.sends, fs[r], o, t.uploads.sends);
        assert t.control.flushes[r] == fs[r] || !t.control.flushes[r].registered by {
          TakenIsNew(c, s, a, r);
        }
      }
    }
  }

  lemma TakenIsNew(c: Config, s: State, a: SenderAction, r: nat)
    requires SenderEnabled(c, s, a) && a != Register && PoolOk(s) && r < |s.control.flushes|
    ensures |SenderStep(c, s, a).control.flushes| == |s.control.flushes|
    ensures var f := SenderStep(c, s, a).control.flushes[r];
            f == s.control.flushes[r] || !f.registered
  {
    if a.TakeFlush? {
      assert s.control.flushes[a.request].phase.Offering?;
    } else if a != FinishPool {
      OtherStepsAnswerNobody(c, s, a);
    }
  }

  /** Marks stay good while no request is newly served or newly drained. */
  lemma MarksStay(s: State, t: State)
    requires MarksOk(s) && |t.control.flushes| == |s.control.flushes|
    requires t.intake.accepted == s.intake.accepted && s.intake.head <= t.intake.head
    requires forall r :: 0 <= r < |s.control.flushes| ==>
               && (Serving(t.sender.pc, r) ==> Serving(s.sender.pc, r))
               && (Drained(t.sender.pc, r) ==> Drained(s.sender.pc, r))
               && (Serving(t.sender.pc, r) ==> t.control.flushes[r].mark == s.control.flushes[r].mark)
    ensures MarksOk(t)
  {
  }

  lemma SenderKeepsMarks(c: Config, s: State, a: SenderAction)
    requires SenderEnabled(c, s, a) && MarksOk(s) && IntakeOk(s.intake)
    ensures MarksOk(SenderStep(c, s, a))
  {
    if a.TakeFlush? || a == DrainEmpty {
      MarksAtDrain(c, s, a);
    } else {
      MarksElsewhere(c, s, a);
    }
  }

  lemma MarksElsewhere(c: Config, s: State, a: SenderAction)
    requires SenderEnabled(c, s, a) && MarksOk(s) && !a.TakeFlush? && a != DrainEmpty
    ensures MarksOk(SenderStep(c, s, a))
  {
    hide MarksOk, SenderStep, SenderEnabled;
    var t := SenderStep(c, s, a);
    MarksUntouched(c, s, a);
    AcceptedUntouched(c, s, a);
    forall r | 0 <= r < |s.control.flushes|
      ensures (Serving(t.sender.pc, r) ==> Serving(s.sender.pc, r))
           && (Drained(t.sender.pc, r) ==> Drained(s.sender.pc, r))
           && (Serving(t.sender.pc, r) ==> t.control.flushes[r].mark == s.control.flushes[r].mark)
    {
      ServesNoMore(c, s, a, r);
    }
    MarksStay(s, t);
  }

  lemma ServesNoMore(c: Config, s: State, a: SenderAction, r: nat)
    requires SenderEnabled(c, s, a) && !a.TakeFlush? && a != DrainEmpty
    ensures Serving(SenderStep(c, s, a).sender.pc, r) ==> Serving(s.sender.pc, r)
    ensures Drained(SenderStep(c, s, a).sender.pc, r) ==> Drained(s.sender.pc, r)
  {
    hide Cut', TakeSet, Obtainable, Stats.Lose, Sets.Give, Sets.Release, Sets.Intact, Full;
    hide P.OnAwait, P.OnDispatch, P.OnShutdown;
  }

  lemma MarksUntouched(c: Config, s: State, a: SenderAction)
    requires SenderEnabled(c, s, a) && !a.TakeFlush?
    ensures var t := SenderStep(c, s, a);
      && |t.control.flushes| == |s.control.flushes|
      && forall r :: 0 <= r < |s.control.flushes| ==> t.control.flushes[r].mark == s.control.flushes[r].mark
  {
    hide Cut', TakeSet, Obtainable, Stats.Lose, Sets.Give, Sets.Release, Sets.Intact, Full, Halves, Continue;
    hide P.OnAwait, P.OnDispatch, P.OnShutdown;
    assert a != Register ==> SenderStep(c, s, a).control.flushes == s.control.flushes;
  }

  lemma AcceptedUntouched(c: Config, s: State, a: SenderAction)
    requires SenderEnabled(c, s, a)
    ensures var t := SenderStep(c, s, a).intake; t.accepted == s.intake.accepted && s.intake.head <= t.head
  {
    hide Cut', TakeSet, Obtainable, Stats.Lose, Sets.Give, Sets.Release, Sets.Intact, Full, Halves, Continue;
    hide P.OnAwait, P.OnDispatch, P.OnShutdown;
  }

  lemma MarksAtDrain(c: Config, s: State, a: SenderAction)
    requires SenderEnabled(c, s, a) && MarksOk(s) && IntakeOk(s.intake) && (a.TakeFlush? || a == DrainEmpty)
    ensures MarksOk(SenderStep(c, s, a))
  {
  }

  // ---- one worker ----

  lemma CountBelow(n: nat, xs: set<nat>)
    requires forall x :: x in xs ==> x < n
    ensures |xs| <= n
    ensures |xs| == n ==> forall x: nat :: x < n ==> x in xs
  {
    if n > 0 {
      var ys := xs - {n - 1};
      CountBelow(n - 1, ys);
      assert n - 1 in xs ==> xs == ys + {n - 1};
      assert n - 1 !in xs ==> xs == ys;
    }
  }

  lemma SenderKeepsOrder(c: Config, s: State, a: SenderAction)
    requires SenderEnabled(c, s, a) && InOrder(c, s)
    ensures InOrder(c, SenderStep(c, s, a))
  {
    hide Cut', TakeSet, Obtainable, Stats.Lose, Sets.Give, Sets.Release, Sets.Intact, Full, Halves, Continue;
    if a == FinishPool {
      P.SignalKeepsTheRest(s.uploads.pool.(closed := true));
    }
  }

  lemma WorkerKeepsOrder(c: Config, s: State, i: nat, a: WorkerAction)
    requires WorkerEnabled(c, s, i, a) && InOrder(c, s) && NumbersOk(s.uploads)
    ensures InOrder(c, WorkerStep(c, s, i, a))
  {
    if a == Complete {
      CompleteKeepsOrder(c, s, i);
    } else {
      EarlierStepsKeepOrder(c, s, i, a);
    }
  }

  lemma CompleteKeepsOrder(c: Config, s: State, i: nat)
    requires WorkerEnabled(c, s, i, Complete) && InOrder(c, s) && NumbersOk(s.uploads)
    ensures InOrder(c, WorkerStep(c, s, i, Complete))
  {
    var u := s.uploads;
    P.SignalKeepsTheRest(u.pool.(completed := u.pool.completed + 1,
      err := if u.pool.err == P.Fine then u.workers[i].err else u.pool.err));
  }

  lemma EarlierStepsKeepOrder(c: Config, s: State, i: nat, a: WorkerAction)
    requires WorkerEnabled(c, s, i, a) && a != Complete && InOrder(c, s) && NumbersOk(s.uploads)
    ensures InOrder(c, WorkerStep(c, s, i, a))
  {
  }

  /** Every batch below the target is finished, so the request is honest. */
  lemma SettledIsHonest(s: State, r: nat)
    requires r < |s.control.flushes| && s.control.flushes[r].registered && CoverOk(s)
    requires forall n: nat :: n < s.control.flushes[r].target ==> n in s.uploads.finished
    ensures Honest(s, r)
  {
    assert Covers(s.sender.outs, s.uploads.sends, s.control.flushes[r]);
  }

  /** Honesty is never lost: batches do not become unfinished. */
  lemma HonestStays(s: State, t: State, r: nat)
    requires r < |s.control.flushes| && Honest(s, r) && r < |t.control.flushes|
    requires t.control.flushes[r].cover == s.control.flushes[r].cover
    requires s.uploads.finished <= t.uploads.finished
    requires |s.sender.outs| <= |t.sender.outs| && t.sender.outs[..|s.sender.outs|] == s.sender.outs
    ensures Honest(t, r)
  {
    var cover := s.control.flushes[r].cover;
    forall i | 0 <= i < cover && t.sender.outs[i].Handed?
      ensures t.sender.outs[i].no in t.uploads.finished
    {
      assert t.sender.outs[i] == t.sender.outs[..|s.sender.outs|][i] == s.sender.outs[i];
    }
  }

  // ---- the three places a reply is sent ----

  /** As many batches finished as were dispatched: all of them. */
  lemma AllFinished(u: Uploads, n: nat)
    requires NumbersOk(u) && |u.finished| >= u.sends && n < u.sends
    ensures n in u.finished && u.jobs == []
  {
    CountBelow(u.sends - |u.jobs|, u.finished);
  }

  lemma AnsweredAtOnce(c: Config, s: State, r: nat)
    requires SenderEnabled(c, s, Register) && Inv(c, s)
    requires r in SenderStep(c, s, Register).uploads.pool.replies && r !in s.uploads.pool.replies
    ensures r < |s.control.flushes| && Honest(SenderStep(c, s, Register), r)
  {
    var t, u := SenderStep(c, s, Register), s.uploads;
    assert Serving(s.sender.pc, s.sender.pc.request);
    assert r == s.sender.pc.request;
    SenderKeepsCover(c, s, Register);
    forall n: nat | n < t.control.flushes[r].target ensures n in t.uploads.finished {
      AllFinished(u, n);
    }
    SettledIsHonest(t, r);
  }

  lemma AnsweredAtTheEnd(c: Config, s: State, r: nat)
    requires SenderEnabled(c, s, FinishPool) && Inv(c, s)
    requires r < |s.control.flushes| && s.control.flushes[r].registered
    ensures Honest(SenderStep(c, s, FinishPool), r)
  {
    var t, u := SenderStep(c, s, FinishPool), s.uploads;
    assert u.workers[0].Exited?;
    assert Covers(s.sender.outs, u.sends, s.control.flushes[r]);
    assert forall i :: 0 <= i < |u.workers| ==> !HasNo(u.workers[i]);
    SettledIsHonest(s, r);
    HonestStays(s, t, r);
  }

  /** A worker answers r because enough batches are complete. */
  lemma EnoughAreComplete(c: Config, s: State, i: nat, r: nat)
    requires WorkerEnabled(c, s, i, Complete) && PoolOk(s)
    requires r in WorkerStep(c, s, i, Complete).uploads.pool.replies && r !in s.uploads.pool.replies
    requires !Over(s.sender.pc)
    ensures r < |s.control.flushes| && s.control.flushes[r].registered
    ensures WorkerStep(c, s, i, Complete).uploads.pool.completed >= s.control.flushes[r].target
  {
    var u, t := s.uploads, WorkerStep(c, s, i, Complete);
    var p := u.pool.(completed := u.pool.completed + 1,
      err := if u.pool.err == P.Fine then u.workers[i].err else u.pool.err);
    P.SignalSummary(p);
    var w :| w in p.waiters && p.Due(w) && w.reply == r;
    assert w in u.pool.waiters;
  }

  lemma AnsweredByAWorker(c: Config, s: State, i: nat, r: nat)
    requires WorkerEnabled(c, s, i, Complete) && PoolOk(s) && NumbersOk(s.uploads) && CoverOk(s) && InOrder(c, s)
    requires ControlOk(c, s)
    requires r in WorkerStep(c, s, i, Complete).uploads.pool.replies && r !in s.uploads.pool.replies
    ensures r < |s.control.flushes| && s.control.flushes[r].registered
    ensures c.workers == 1 || s.control.flushes[r].target == s.uploads.sends ==> Honest(WorkerStep(c, s, i, Complete), r)
  {
    var t := WorkerStep(c, s, i, Complete);
    EnoughAreComplete(c, s, i, r);
    WorkerKeepsNumbers(c, s, i, Complete);
    WorkerKeepsOrder(c, s, i, Complete);
    CompleteKeepsPool(c, s, i);
    if c.workers == 1 || s.control.flushes[r].target == s.uploads.sends {
      forall n: nat | n < s.control.flushes[r].target ensures n in t.uploads.finished {
        if c.workers != 1 { AllFinished(t.uploads, n); }
      }
      SettledIsHonest(t, r);
    }
  }

  // ---- the invariant ----

  lemma HonestAfter(s: State, t: State)
    requires forall r :: r in s.uploads.pool.replies && r < |s.control.flushes| ==> Honest(s, r)
    requires s.uploads.finished <= t.uploads.finished
    requires |s.sender.outs| <= |t.sender.outs| && t.sender.outs[..|s.sender.outs|] == s.sender.outs
    requires |s.control.flushes| <= |t.control.flushes|
    requires forall r :: r in s.uploads.pool.replies ==> r < |s.control.flushes|
    requires forall r :: 0 <= r < |s.control.flushes| && r in s.uploads.pool.replies ==>
               t.control.flushes[r].cover == s.control.flushes[r].cover
    ensures forall r :: r in s.uploads.pool.replies ==> Honest(t, r)
  {
    forall r | r in s.uploads.pool.replies ensures Honest(t, r) {
      HonestStays(s, t, r);
    }
  }

  lemma SenderKeepsCovers(c: Config, s: State, a: SenderAction, r: nat)
    requires SenderEnabled(c, s, a) && PoolOk(s)
    requires r < |s.control.flushes| && s.control.flushes[r].registered
    ensures |SenderStep(c, s, a).control.flushes| == |s.control.flushes|
    ensures SenderStep(c, s, a).control.flushes[r] == s.control.flushes[r]
    ensures s.uploads.finished == SenderStep(c, s, a).uploads.finished
    ensures |s.sender.outs| <= |SenderStep(c, s, a).sender.outs|
    ensures SenderStep(c, s, a).sender.outs[..|s.sender.outs|] == s.sender.outs
  {
    OutsGrow(c, s, a);
    if a == Register {
      assert Serving(s.sender.pc, s.sender.pc.request);
    } else if a != FinishPool && !a.TakeFlush? {
      OtherStepsAnswerNobody(c, s, a);
    }
  }

  lemma SenderKeepsHonest(c: Config, s: State, a: SenderAction)
    requires SenderEnabled(c, s, a) && Inv(c, s)
    ensures HonestOk(c, SenderStep(c, s, a))
  {
    var t := SenderStep(c, s, a);
    if c.workers == 1 {
      SenderKeepsPool(c, s, a);
      forall r | r in t.uploads.pool.replies ensures Honest(t, r) {
        if r in s.uploads.pool.replies {
          SenderKeepsCovers(c, s, a, r);
          HonestStays(s, t, r);
        } else {
          NewReply(c, s, a, r);
          if a == Register { AnsweredAtOnce(c, s, r); } else { AnsweredAtTheEnd(c, s, r); }
        }
      }
    }
  }

  /** Only two steps of the sender answer anybody. */
  lemma NewReply(c: Config, s: State, a: SenderAction, r: nat)
    requires SenderEnabled(c, s, a) && Inv(c, s)
    requires r in SenderStep(c, s, a).uploads.pool.replies && r !in s.uploads.pool.replies
    ensures a == Register || (a == FinishPool && r < |s.control.flushes| && s.control.flushes[r].registered)
  {
    if a == FinishPool {
      P.SignalSummary(s.uploads.pool.(closed := true));
    } else if !a.TakeFlush? && a != Register {
      OtherStepsAnswerNobody(c, s, a);
    }
  }

  lemma WorkerKeepsHonest(c: Config, s: State, i: nat, a: WorkerAction)
    requires WorkerEnabled(c, s, i, a) && Inv(c, s)
    ensures HonestOk(c, WorkerStep(c, s, i, a))
  {
    hide IntakeOk, BatchesOk, SenderOk, FifoOk, Conserved, MarksOk, CloseOk, Honest, WorkerStep, WorkerEnabled;
    var t := WorkerStep(c, s, i, a);
    WorkerLeavesRest(c, s, i, a);
    if c.workers == 1 {
      forall r | r in t.uploads.pool.replies && r < |t.control.flushes| ensures Honest(t, r) {
        if r in s.uploads.pool.replies {
          HonestStays(s, t, r);
        } else {
          AnsweredByAWorker(c, s, i, r);
        }
      }
    }
  }

  // ---- Close's own flush ----

  lemma CallKeepsClose(c: Config, s: State, a: CallAction)
    requires CallEnabled(c, s, a) && CloseOk(s) && PoolOk(s)
    ensures CloseOk(CallStep(c, s, a))
  {
    var t := CallStep(c, s, a);
    assert t.control == s.control && t.sender == s.sender && t.uploads == s.uploads;
    if s.control.done && !s.control.raced {
      assert t.intake.queue == s.intake.queue;
      assert forall i :: 0 <= i < |t.intake.calls| ==> !Active(t.intake.calls[i]);
      if s.control.closer.CloseFlush? && s.control.closer.request in s.uploads.pool.replies {
        HonestStays(s, t, s.control.closer.request);
      }
    }
  }

  lemma CallerKeepsClose(c: Config, s: State, a: CallerAction)
    requires CallerEnabled(c, s, a) && Inv(c, s)
    ensures CloseOk(CallerStep(c, s, a))
  {
    hide IntakeOk, BatchesOk, NumbersOk, SenderOk, FifoOk, Conserved, CoverOk, MarksOk, InOrder, HonestOk, Honest;
    var t := CallerStep(c, s, a);
    assert t.sender == s.sender && t.uploads == s.uploads && t.intake == s.intake;
    if t.control.done && !t.control.raced && t.control.closer.CloseFlush? {
      var r := t.control.closer.request;
      assert Drained(s.sender.pc, r) ==> Serving(s.sender.pc, r);
      if a != CloseOffer && r in s.uploads.pool.replies {
        HonestStays(s, t, r);
      }
    }
  }

  /** A worker touches the uploads only, and no batch becomes unfinished. */
  lemma WorkerLeavesRest(c: Config, s: State, i: nat, a: WorkerAction)
    requires WorkerEnabled(c, s, i, a)
    ensures var t := WorkerStep(c, s, i, a);
      && t.intake == s.intake && t.sender == s.sender && t.control == s.control
      && t.uploads.sends == s.uploads.sends && s.uploads.finished <= t.uploads.finished
    ensures a != Complete ==> WorkerStep(c, s, i, a).uploads.pool == s.uploads.pool
  {
    hide Halves, Sets.Release, Stats.Lose, P.OnComplete;
  }

  lemma WorkerKeepsClose(c: Config, s: State, i: nat, a: WorkerAction)
    requires WorkerEnabled(c, s, i, a) && Inv(c, s)
    ensures CloseOk(WorkerStep(c, s, i, a))
  {
    hide IntakeOk, BatchesOk, NumbersOk, SenderOk, FifoOk, Conserved, CoverOk, MarksOk, InOrder;
    hide HonestOk, ControlOk, PoolOk, Honest, WorkerStep, WorkerEnabled;
    var k, t := s.control, WorkerStep(c, s, i, a);
    WorkerLeavesRest(c, s, i, a);
    var r := if k.closer.CloseFlush? then k.closer.request else 0;
    if k.done && !k.raced && k.closer.CloseFlush? && r < |k.flushes| && r in t.uploads.pool.replies {
      if r in s.uploads.pool.replies {
        HonestStays(s, t, r);
      } else {
        AnsweredByAWorker(c, s, i, r);
      }
    }
  }

  /** Once Close's flush is registered the sender has nothing left to do but answer. */
  lemma QuietSender(c: Config, s: State, a: SenderAction, r: nat)
    requires SenderEnabled(c, s, a) && PoolOk(s) && r < |s.control.flushes| && s.control.flushes[r].registered
    requires s.intake.queue == [] && s.sender.bounds == []
    requires !s.sender.pc.Flushing? && !s.sender.pc.Dispatching? && !s.sender.pc.Recording?
    ensures var t := SenderStep(c, s, a);
      && t.intake.queue == [] && t.sender.bounds == []
      && !t.sender.pc.Flushing? && !t.sender.pc.Dispatching? && !t.sender.pc.Recording?
      && t.sender.outs == s.sender.outs && t.uploads.sends == s.uploads.sends
  {
    hide Cut', TakeSet, Obtainable, Stats.Lose, Sets.Give, Sets.Release, Sets.Intact, Full;
    hide P.OnAwait, P.OnDispatch, P.OnShutdown;
  }

  /** Looking for more records ends when the queue is empty, and nothing refills it. */
  lemma DrainedStays(c: Config, s: State, a: SenderAction, r: nat)
    requires SenderEnabled(c, s, a)
    requires Drained(s.sender.pc, r) ==> s.intake.queue == []
    ensures Drained(SenderStep(c, s, a).sender.pc, r) ==> SenderStep(c, s, a).intake.queue == []
  {
    hide Cut', TakeSet, Obtainable, Stats.Lose, Sets.Give, Sets.Release, Sets.Intact, Full;
    hide P.OnAwait, P.OnDispatch, P.OnShutdown;
  }

  lemma RegisterCloses(c: Config, s: State)
    requires SenderEnabled(c, s, Register) && Inv(c, s)
    requires s.intake.queue == []
    ensures var t, r := SenderStep(c, s, Register), s.sender.pc.request;
      && t.control.flushes[r].cover == |t.sender.outs| && t.control.flushes[r].target == t.uploads.sends
      && t.intake.queue == [] && t.sender.bounds == [] && t.sender.pc == Selecting
  {
  }

  /** The sender moves neither Close nor the Enqueue calls, and once gone nothing at all. */
  lemma SenderLeavesClose(c: Config, s: State, a: SenderAction)
    requires SenderEnabled(c, s, a)
    ensures var k, j := s.control, SenderStep(c, s, a).control;
      && j.done == k.done && j.raced == k.raced && j.closer == k.closer && j.leftover == k.leftover
      && |j.flushes| == |k.flushes|
  {
    hide Cut', TakeSet, Obtainable, Stats.Lose, Sets.Give, Sets.Release, Sets.Intact, Full;
    hide P.OnAwait, P.OnDispatch, P.OnShutdown;
    hide Halves, Continue;
  }

  lemma SenderLeavesCalls(c: Config, s: State, a: SenderAction)
    requires SenderEnabled(c, s, a)
    ensures SenderStep(c, s, a).intake.calls == s.intake.calls
    ensures s.sender.pc.Gone? ==> SenderStep(c, s, a).intake == s.intake
  {
    hide Cut', TakeSet, Obtainable, Stats.Lose, Sets.Give, Sets.Release, Sets.Intact, Full;
    hide P.OnAwait, P.OnDispatch, P.OnShutdown;
  }

  lemma SenderKeepsClose(c: Config, s: State, a: SenderAction)
    requires SenderEnabled(c, s, a) && Inv(c, s)
    ensures CloseOk(SenderStep(c, s, a))
  {
    hide SenderEnabled, SenderStep, IntakeOk, BatchesOk, NumbersOk, SenderOk, FifoOk, Conserved, CoverOk, MarksOk, InOrder;
    hide HonestOk, Honest, Covers;
    SenderLeavesClose(c, s, a);
    SenderLeavesCalls(c, s, a);
    var k, t := s.control, SenderStep(c, s, a);
    SenderKeepsPool(c, s, a);
    if k.done && !k.raced && k.closer.CloseFlush? && k.closer.request < |k.flushes| {
      var r := k.closer.request;
      DrainedStays(c, s, a, r);
      if k.flushes[r].registered {
        QuietSender(c, s, a, r);
        SenderKeepsCovers(c, s, a, r);
      } else if a == Register && s.sender.pc == Answering(r) {
        RegisterCloses(c, s);
      } else {
        StillUnregistered(c, s, a, r);
      }
      if r in t.uploads.pool.replies {
        if r in s.uploads.pool.replies {
          HonestStays(s, t, r);
        } else {
          NewReply(c, s, a, r);
          if a == Register { AnsweredAtOnce(c, s, r); } else { AnsweredAtTheEnd(c, s, r); }
        }
      }
    }
  }

  lemma StillUnregistered(c: Config, s: State, a: SenderAction, r: nat)
    requires SenderEnabled(c, s, a) && r < |s.control.flushes| && !s.control.flushes[r].registered
    requires !(a == Register && s.sender.pc == Answering(r))
    ensures |SenderStep(c, s, a).control.flushes| == |s.control.flushes|
    ensures !SenderStep(c, s, a).control.flushes[r].registered
  {
    hide Halves, Continue;
    hide Cut', TakeSet, Obtainable, Stats.Lose, Sets.Give, Sets.Release, Sets.Intact, Full;
    hide P.OnAwait, P.OnDispatch, P.OnShutdown;
  }
}
