/** What a user of the client may rely on, stated over reachable states and single steps
    from them. The proofs are in the modules imported here. */
module PipelineResults {
  import opened Records
  import opened Pipeline
  import opened Ownership
  import opened Fifo
  import opened FlushSafety
  import opened FlushGuarantee
  import opened PipelineTheorems
  import opened Shutdown
  import P = UploadPool

  // ---- accounting ----

  /** In every reachable state each record counted in `enqueued` is counted exactly once as
      sent or dropped, or still held. */
  lemma Accounting(c: Config, s: State)
    requires c.Valid() && Reachable(c, s)
    ensures s.stats.enqueued == s.stats.sent + s.stats.Dropped() + Held(s)
    ensures Held(s) >= 0
  {
    ReachableOk(c, s);
  }

  /** No Enqueue is between counting its record and counting its fate. */
  predicate NoCallMidway(s: State) {
    forall i :: 0 <= i < |s.intake.calls| ==> Midway(s.intake.calls[i]) == 0
  }

  lemma NothingHeldAfterClose(c: Config, s: State)
    requires Inv(c, s) && s.control.closer.CloseReturned? && NoCallMidway(s)
    ensures Held(s) == |s.intake.queue| - s.control.leftover
  {
    TotalZero(CallSizes(s.intake.calls));
    assert forall i :: 0 <= i < |s.uploads.workers| ==> s.uploads.workers[i].Exited?;
    assert s.uploads.workers[0].Exited?;
    TotalZero(WorkerSizes(s.uploads.workers));
    TotalZero(JobSizes(s.uploads.jobs));
    TotalZero(BatchSizes(Stack(s.sender.pc)));
  }

  /** The Stats identity once Close has returned: it holds exactly when nothing was queued
      after Close counted the queue, and so whenever no Enqueue raced Close. */
  lemma StatsIdentity(c: Config, s: State)
    requires c.Valid() && Reachable(c, s)
    requires s.control.closer.CloseReturned? && NoCallMidway(s)
    ensures s.stats.enqueued == s.stats.sent + s.stats.Dropped() <==> |s.intake.queue| == s.control.leftover
    ensures !s.control.raced ==> s.stats.enqueued == s.stats.sent + s.stats.Dropped()
  {
    ReachableOk(c, s);
    NothingHeldAfterClose(c, s);
  }

  // ---- history ----

  /** Records leave in the order they were accepted: nothing is lost, duplicated, reordered
      or cut differently, although every buffer on the way is reused. */
  lemma History(c: Config, s: State)
    requires c.Valid() && Reachable(c, s)
    ensures IntakeOk(s.intake) && Bounded(s.sender.buf, s.sender.bounds)
    ensures OutRecords(s.sender.outs) + BatchRecords(Stack(s.sender.pc)) + Cut(s.sender.buf, s.sender.bounds)
            + QueueRecords(s.intake) == s.intake.accepted
  {
    ReachableOk(c, s);
    WholeHistory(s);
  }

  /** Whoever is about to frame, split or upload a batch reads the records it was packed
      from. */
  lemma BatchesReadTheirRecords(c: Config, s: State)
    requires c.Valid() && Reachable(c, s)
    ensures forall i :: 0 <= i < |Stack(s.sender.pc)| ==> s.sets.Intact(Stack(s.sender.pc)[i])
    ensures forall k :: 0 <= k < |s.uploads.jobs| ==> s.sets.Intact(s.uploads.jobs[k].batch)
    ensures forall i :: 0 <= i < |s.uploads.workers| && s.uploads.workers[i].Busy? ==>
              var pieces := s.uploads.workers[i].pieces;
              forall j :: 0 <= j < |pieces| ==> s.sets.Intact(pieces[j])
  {
    ReachableOk(c, s);
    assert forall i :: 0 <= i < |Stack(s.sender.pc)| ==> Safe(s.sets, Stack(s.sender.pc)[i], WithSender);
    assert forall k :: 0 <= k < |s.uploads.jobs| ==> Safe(s.sets, s.uploads.jobs[k].batch, WithBatch(s.uploads.jobs[k].no));
    assert forall i :: 0 <= i < |s.uploads.workers| ==> WorkerOk(s.sets, s.uploads.workers[i]);
  }

  // ---- ownership ----

  /** The batches that are alive outside the workers' split pieces. */
  ghost predicate Lives(s: State, b: Batch) {
    || b in Stack(s.sender.pc)
    || (exists k :: 0 <= k < |s.uploads.jobs| && s.uploads.jobs[k].batch == b)
    || (exists i :: 0 <= i < |s.uploads.workers| && s.uploads.workers[i].Busy? && s.uploads.workers[i].batch == b)
  }

  lemma LiveSetsAreOut(s: State, b: Batch)
    requires BatchesOk(s) && Lives(s, b)
    ensures b.set_ in s.sets.owner && s.sets.owner[b.set_] != SetPool
    ensures b.owns || s.sets.owner[b.set_] == SetCollector
    ensures b.owns ==> s.sets.owner[b.set_] == WithSender || s.sets.owner[b.set_].WithBatch?
  {
    if b in Stack(s.sender.pc) {
      var i :| 0 <= i < |Stack(s.sender.pc)| && Stack(s.sender.pc)[i] == b;
      assert Safe(s.sets, b, WithSender);
    } else if k :| 0 <= k < |s.uploads.jobs| && s.uploads.jobs[k].batch == b {
      assert Safe(s.sets, b, WithBatch(s.uploads.jobs[k].no));
    } else {
      var i :| 0 <= i < |s.uploads.workers| && s.uploads.workers[i].Busy? && s.uploads.workers[i].batch == b;
      assert WorkerOk(s.sets, s.uploads.workers[i]);
    }
  }

  /** Each record buffer is with one of the pool, an Enqueue call or a queue slot, and the
      pool holds no buffer and no buffer set twice. */
  lemma OneOwner(c: Config, s: State)
    requires c.Valid() && Reachable(c, s)
    ensures var t := s.intake;
      && (forall b :: t.freeBufs[b] <= 1)
      && (forall i :: 0 <= i < |t.calls| && HasBuf(t.calls[i]) ==>
            t.calls[i].buf !in t.freeBufs && t.calls[i].buf !in t.queue)
      && (forall k :: 0 <= k < |t.queue| ==> t.queue[k] !in t.freeBufs)
      && (forall i, j :: 0 <= i < j < |t.calls| && HasBuf(t.calls[i]) && HasBuf(t.calls[j]) ==>
            t.calls[i].buf != t.calls[j].buf)
      && (forall k, l :: 0 <= k < l < |t.queue| ==> t.queue[k] != t.queue[l])
    ensures forall id :: s.sets.free[id] <= 1
    ensures forall b :: Lives(s, b) ==> b.set_ !in s.sets.free
    ensures forall b, d :: Lives(s, b) && Lives(s, d) && b.set_ == d.set_ ==> b.owns == d.owns
  {
    ReachableOk(c, s);
    BuffersHaveOneOwner(s.intake);
    forall b | Lives(s, b) ensures b.set_ !in s.sets.free {
      LiveSetsAreOut(s, b);
    }
    forall b, d | Lives(s, b) && Lives(s, d) && b.set_ == d.set_ ensures b.owns == d.owns {
      LiveSetsAreOut(s, b);
      LiveSetsAreOut(s, d);
    }
  }

  /** A set's owner is the place its batch is in. */
  lemma OwnerPlaces(s: State)
    requires BatchesOk(s)
    ensures var jobs, stack, ws, owner := s.uploads.jobs, Stack(s.sender.pc), s.uploads.workers, s.sets.owner;
      && (forall k :: 0 <= k < |jobs| ==>
            var b := jobs[k].batch; b.set_ in owner && owner[b.set_] == if b.owns then WithBatch(jobs[k].no) else SetCollector)
      && (forall i :: 0 <= i < |ws| && ws[i].Busy? ==>
            var b := ws[i].batch; b.set_ in owner && owner[b.set_] == if b.owns then WithBatch(ws[i].no) else SetCollector)
      && (forall b :: b in stack ==> b.set_ in owner && owner[b.set_] == if b.owns then WithSender else SetCollector)
      && (forall i :: 0 <= i < |stack| && stack[i].owns ==> |stack| == 1)
  {
    var jobs, stack, ws := s.uploads.jobs, Stack(s.sender.pc), s.uploads.workers;
    assert forall k :: 0 <= k < |jobs| ==> Safe(s.sets, jobs[k].batch, WithBatch(jobs[k].no));
    assert forall i :: 0 <= i < |ws| ==> WorkerOk(s.sets, ws[i]);
    assert forall b :: b in stack ==> Safe(s.sets, b, WithSender);
  }

  /** Where the batches that own their sets can be: two of them never share one. */
  lemma OwnersDiffer(c: Config, s: State)
    requires c.Valid() && Reachable(c, s)
    ensures var jobs, stack := s.uploads.jobs, Stack(s.sender.pc);
      && (forall i, j :: 0 <= i < j < |jobs| && jobs[i].batch.owns ==> jobs[i].batch.set_ != jobs[j].batch.set_)
      && (forall b, k :: b in stack && b.owns && 0 <= k < |jobs| ==> b.set_ != jobs[k].batch.set_)
      && (forall i :: 0 <= i < |stack| && stack[i].owns ==> |stack| == 1)
    ensures var jobs, stack, ws := s.uploads.jobs, Stack(s.sender.pc), s.uploads.workers;
      && (forall i, j :: 0 <= i < j < |ws| && ws[i].Busy? && ws[j].Busy? && ws[i].batch.owns ==>
            ws[i].batch.set_ != ws[j].batch.set_)
      && (forall i, k :: 0 <= i < |ws| && ws[i].Busy? && ws[i].batch.owns && 0 <= k < |jobs| ==>
            ws[i].batch.set_ != jobs[k].batch.set_)
      && (forall b, i :: b in stack && b.owns && 0 <= i < |ws| && ws[i].Busy? ==> b.set_ != ws[i].batch.set_)
  {
    hide BatchesOk, Safe, WorkerOk, IntakeOk, FifoOk, Conserved, ControlOk, PoolOk, CoverOk, MarksOk, InOrder, HonestOk, CloseOk;
    hide Reachable, SenderOk;
    ReachableOk(c, s);
    OwnerPlaces(s);
  }

  // ---- flushes ----

  /** The first n accepted records left the sender in batches that are all resolved. */
  ghost predicate ResolvedUpTo(s: State, n: nat) {
    exists cover: nat :: ResolvedIn(s, n, cover)
  }

  ghost predicate ResolvedIn(s: State, n: nat, cover: nat) {
    && cover <= |s.sender.outs| && n <= |OutRecords(s.sender.outs[..cover])|
    && OutRecords(s.sender.outs[..cover]) <= s.intake.accepted
    && forall i :: 0 <= i < cover && s.sender.outs[i].Handed? ==> s.sender.outs[i].no in s.uploads.finished
  }

  lemma {:induction false} OutPrefix(outs: seq<Out>, n: nat)
    requires n <= |outs|
    ensures OutRecords(outs[..n]) <= OutRecords(outs)
    decreases |outs|
  {
    if n < |outs| {
      OutPrefix(outs[..|outs| - 1], n);
      assert outs[..|outs| - 1][..n] == outs[..n];
    } else {
      assert outs[..n] == outs;
    }
  }

  lemma HonestMeansResolved(c: Config, s: State, r: nat)
    requires FifoOk(s) && CoverOk(s) && r < |s.control.flushes| && s.control.flushes[r].registered && Honest(s, r)
    ensures ResolvedUpTo(s, s.control.flushes[r].mark)
  {
    var f := s.control.flushes[r];
    assert Covers(s.sender.outs, s.uploads.sends, f);
    OutPrefix(s.sender.outs, f.cover);
    assert ResolvedIn(s, f.mark, f.cover);
  }

  lemma OthersLeaveUploads(c: Config, s: State, a: Action)
    requires Enabled(c, s, a) && (a.ByCall? || a.ByCaller?)
    ensures Step(c, s, a).uploads == s.uploads
  {
  }

  lemma WorkersAnswerOnCompletion(c: Config, s: State, i: nat, a: WorkerAction)
    requires WorkerEnabled(c, s, i, a) && a != Complete
    ensures WorkerStep(c, s, i, a).uploads.pool == s.uploads.pool
  {
  }

  /** The three steps that send a reply. */
  lemma AnswersComeFrom(c: Config, s: State, a: Action, r: nat)
    requires Inv(c, s) && Enabled(c, s, a)
    requires r in Step(c, s, a).uploads.pool.replies && r !in s.uploads.pool.replies
    ensures a == BySender(Register) || a == BySender(FinishPool) || (a.ByWorker? && a.work == Complete)
  {
    match a
    case BySender(x) => NewReply(c, s, x, r);
    case ByWorker(i, x) => if x != Complete { WorkersAnswerOnCompletion(c, s, i, x); }
    case _ => OthersLeaveUploads(c, s, a);
  }

  lemma FinishAnswersComplete(c: Config, s: State, r: nat)
    requires Inv(c, s) && SenderEnabled(c, s, FinishPool)
    requires r < |s.control.flushes| && s.control.flushes[r].registered
    ensures SenderStep(c, s, FinishPool).uploads.pool.completed >= s.control.flushes[r].target
  {
    AllJoined(c, s);
    P.SignalKeepsTheRest(s.uploads.pool.(closed := true));
    assert Covers(s.sender.outs, s.uploads.sends, s.control.flushes[r]);
  }

  lemma RegisterAnswersComplete(c: Config, s: State, r: nat)
    requires PoolOk(s) && SenderEnabled(c, s, Register)
    requires r in SenderStep(c, s, Register).uploads.pool.replies && r !in s.uploads.pool.replies
    ensures var t := SenderStep(c, s, Register);
      r < |t.control.flushes| && t.uploads.pool.completed >= t.control.flushes[r].target
  {
    assert Serving(s.sender.pc, s.sender.pc.request);
  }

  /** A waiter is answered only when the completed uploads have reached its target. */
  lemma AnsweredWhenComplete(c: Config, s: State, a: Action, r: nat)
    requires c.Valid() && Reachable(c, s) && Enabled(c, s, a)
    requires r in Step(c, s, a).uploads.pool.replies && r !in s.uploads.pool.replies
    ensures var t := Step(c, s, a);
      r < |t.control.flushes| && t.uploads.pool.completed >= t.control.flushes[r].target
  {
    ReachableOk(c, s);
    AnswersComeFrom(c, s, a, r);
    if a == BySender(Register) {
      RegisterAnswersComplete(c, s, r);
    } else if a == BySender(FinishPool) {
      NewReply(c, s, FinishPool, r);
      FinishAnswersComplete(c, s, r);
    } else {
      EnoughAreComplete(c, s, a.worker, r);
    }
  }

  lemma AllJoined(c: Config, s: State)
    requires Inv(c, s) && forall i :: 0 <= i < |s.uploads.workers| ==> s.uploads.workers[i].Exited?
    ensures s.uploads.pool.completed == s.uploads.sends
    ensures s.uploads.jobs == []
  {
    var u := s.uploads;
    assert u.workers[0].Exited?;
    assert forall n: nat :: n < u.sends ==> n in u.finished;
    AllBelow(u.sends, u.finished);
  }

  lemma AllBelow(n: nat, xs: set<nat>)
    requires forall x: nat :: x in xs <==> x < n
    ensures |xs| == n
  {
    if n > 0 {
      var ys := xs - {n - 1};
      AllBelow(n - 1, ys);
      assert xs == ys + {n - 1};
    } else {
      assert xs == {};
    }
  }

  /** With one worker, every answered flush has every record accepted before it resolved. */
  lemma OneWorkerFlush(c: Config, s: State, r: nat)
    requires c.Valid() && c.workers == 1 && Reachable(c, s)
    requires r in s.uploads.pool.replies
    ensures r < |s.control.flushes| && ResolvedUpTo(s, s.control.flushes[r].mark)
  {
    ReachableOk(c, s);
    HonestMeansResolved(c, s, r);
  }

  lemma AnswerWithoutHandOff(c: Config, s: State, a: Action, r: nat)
    requires Inv(c, s) && Enabled(c, s, a)
    requires r in Step(c, s, a).uploads.pool.replies && r !in s.uploads.pool.replies
    requires r < |Step(c, s, a).control.flushes|
    requires Step(c, s, a).control.flushes[r].target == Step(c, s, a).uploads.sends
    ensures Honest(Step(c, s, a), r)
  {
    AnswersComeFrom(c, s, a, r);
    if a == BySender(Register) {
      AnsweredAtOnce(c, s, r);
    } else if a == BySender(FinishPool) {
      NewReply(c, s, FinishPool, r);
      AnsweredAtTheEnd(c, s, r);
    } else {
      AnsweredByAWorker(c, s, a.worker, r);
    }
  }

  /** With any number of workers the same holds at the moment of the answer, if no batch
      was handed off since the flush was registered. */
  lemma FlushWithoutHandOff(c: Config, s: State, a: Action, r: nat)
    requires c.Valid() && Reachable(c, s) && Enabled(c, s, a)
    requires r in Step(c, s, a).uploads.pool.replies && r !in s.uploads.pool.replies
    requires r < |Step(c, s, a).control.flushes|
    requires Step(c, s, a).control.flushes[r].target == Step(c, s, a).uploads.sends
    ensures ResolvedUpTo(Step(c, s, a), Step(c, s, a).control.flushes[r].mark)
  {
    var t := Step(c, s, a);
    assert Inv(c, s) by { ReachableOk(c, s); }
    AnswerWithoutHandOff(c, s, a, r);
    assert FifoOk(t) && CoverOk(t) && t.control.flushes[r].registered by { StepKeepsInv(c, s, a); }
    HonestMeansResolved(c, t, r);
  }

  /** The flush inside Close, when no Enqueue raced Close: once it is answered, every record
      the client ever accepted is resolved. */
  lemma CloseFlushDelivers(c: Config, s: State)
    requires c.Valid() && Reachable(c, s)
    requires s.control.closer.CloseFlush? && !s.control.raced && s.control.closer.request in s.uploads.pool.replies
    ensures OutRecords(s.sender.outs) == s.intake.accepted
    ensures forall i :: 0 <= i < |s.sender.outs| && s.sender.outs[i].Handed? ==> s.sender.outs[i].no in s.uploads.finished
  {
    ReachableOk(c, s);
    assert Stack(s.sender.pc) == [] && s.sender.bounds == [] && s.sender.buf == [];
    assert s.intake.accepted[..s.intake.head] == s.intake.accepted;
  }

  // ---- shutdown ----

  /** Nothing is ever sent on a closed channel: the jobs channel closes only after the
      sender's last send. */
  lemma NoSendOnClosed(c: Config, s: State)
    requires c.Valid() && Reachable(c, s)
    ensures !s.control.panicked
    ensures s.uploads.jobsClosed ==> !SenderEnabled(c, s, HandOff)
  {
    hide Reachable, IntakeOk, BatchesOk, NumbersOk, SenderOk, FifoOk, Conserved, PoolOk;
    hide CoverOk, MarksOk, InOrder, HonestOk, CloseOk;
    ReachableOk(c, s);
  }

  lemma SenderKeepsReplies(c: Config, s: State, a: SenderAction, q: nat)
    requires SenderEnabled(c, s, a) && PoolOk(s) && q in s.uploads.pool.replies
    ensures q in SenderStep(c, s, a).uploads.pool.replies
    ensures SenderStep(c, s, a).uploads.pool.replies[q] == s.uploads.pool.replies[q]
  {
    if a == FinishPool {
      P.SignalSummary(s.uploads.pool.(closed := true));
    } else if a == Register {
      assert Serving(s.sender.pc, s.sender.pc.request);
    } else if !a.TakeFlush? {
      OtherStepsAnswerNobody(c, s, a);
    }
  }

  lemma WorkerKeepsReplies(c: Config, s: State, i: nat, a: WorkerAction, q: nat)
    requires WorkerEnabled(c, s, i, a) && PoolOk(s) && q in s.uploads.pool.replies
    ensures q in WorkerStep(c, s, i, a).uploads.pool.replies
    ensures WorkerStep(c, s, i, a).uploads.pool.replies[q] == s.uploads.pool.replies[q]
  {
    var u := s.uploads;
    if a == Complete {
      P.SignalSummary(u.pool.(completed := u.pool.completed + 1,
        err := if u.pool.err == P.Fine then u.workers[i].err else u.pool.err));
    } else {
      WorkersAnswerOnCompletion(c, s, i, a);
    }
  }

  /** Sending a reply finds its channel empty, so it does not block under the lock. */
  lemma RepliesDoNotBlock(c: Config, s: State)
    requires c.Valid() && Reachable(c, s)
    ensures s.uploads.pool.Unanswered()
    ensures s.sender.pc.Answering? ==>
              && s.sender.pc.request !in s.uploads.pool.replies
              && forall w :: w in s.uploads.pool.waiters ==> w.reply != s.sender.pc.request
  {
    ReachableOk(c, s);
    if s.sender.pc.Answering? {
      assert Serving(s.sender.pc, s.sender.pc.request);
    }
  }

  /** A reply once sent is never replaced: each request is answered at most once. */
  lemma RepliesOnce(c: Config, s: State, a: Action, q: nat)
    requires c.Valid() && Reachable(c, s) && Enabled(c, s, a) && q in s.uploads.pool.replies
    ensures q in Step(c, s, a).uploads.pool.replies
    ensures Step(c, s, a).uploads.pool.replies[q] == s.uploads.pool.replies[q]
  {
    assert PoolOk(s) by { ReachableOk(c, s); }
    match a
    case BySender(x) => SenderKeepsReplies(c, s, x, q);
    case ByWorker(i, x) => WorkerKeepsReplies(c, s, i, x, q);
    case _ => OthersLeaveUploads(c, s, a);
  }

  /** After the workers have been joined nothing is outstanding: as many uploads completed
      as were dispatched, no waiter is left and every accepted flush has its reply. */
  lemma AfterJoin(c: Config, s: State)
    requires c.Valid() && Reachable(c, s) && (s.sender.pc.Leaving? || s.sender.pc.Gone?)
    ensures s.uploads.pool.completed == s.uploads.pool.dispatched == s.uploads.sends
    ensures s.uploads.pool.waiters == []
    ensures forall r :: 0 <= r < |s.control.flushes| && s.control.flushes[r].taken ==> r in s.uploads.pool.replies
    ensures s.intake.head <= |s.intake.accepted| && OutRecords(s.sender.outs) == s.intake.accepted[..s.intake.head]
  {
    ReachableOk(c, s);
    AllJoined(c, s);
    forall r | 0 <= r < |s.control.flushes| && s.control.flushes[r].taken
      ensures r in s.uploads.pool.replies
    {
      assert s.control.flushes[r].registered;
      assert !WaitsFor(s.uploads.pool, r);
    }
    assert Stack(s.sender.pc) == [] && s.sender.buf == [];
  }

  lemma SenderLeavesShutdown(c: Config, s: State, a: SenderAction)
    requires SenderEnabled(c, s, a)
    ensures SenderStep(c, s, a).control.shutdown == s.control.shutdown
  {
    hide Cut', TakeSet, Obtainable, Stats.Lose, Sets.Give, Sets.Release, Sets.Intact, Full;
    hide P.OnAwait, P.OnDispatch, P.OnShutdown, Halves, Continue;
  }

  lemma ShutdownStays(c: Config, s: State, t: State)
    requires QuietNext(c, s, t) && s.control.shutdown
    ensures t.control.shutdown
  {
    hide SenderStep, External;
    var a :| Enabled(c, s, a) && !External(a) && t == Step(c, s, a);
    if a.BySender? {
      SenderLeavesShutdown(c, s, a.send);
    }
  }

  lemma RunStaysShut(c: Config, run: seq<State>, n: nat)
    requires QuietRun(c, run) && run[0].control.shutdown && n < |run|
    ensures run[n].control.shutdown
  {
    hide QuietNext;
    var keeps := (s: State) => s.control.shutdown;
    forall s, t | keeps(s) && QuietNext(c, s, t) ensures keeps(t) { ShutdownStays(c, s, t); }
    QuietRunKeeps(c, run, n, keeps);
  }

  /** From a reachable state in which Close has signalled the sender, whatever the schedule:
      a run without ticks and arrivals ends, and it can only end with the sender gone. */
  lemma ShutdownCompletes(c: Config, run: seq<State>)
    requires c.Valid() && QuietRun(c, run) && Reachable(c, run[0]) && run[0].control.shutdown
    ensures |run| <= Work(run[0]) + 1
    ensures AtRest(c, run[|run| - 1]) ==> run[|run| - 1].sender.pc.Gone?
  {
    hide Work, Inv, Reachable, AtRest, QuietNext;
    var last := |run| - 1;
    ReachableOk(c, run[0]);
    QuietRunsEnd(c, run, last);
    QuietRunKeepsInv(c, run, last);
    RunStaysShut(c, run, last);
    LastState(c, run[last]);
  }

  lemma LastState(c: Config, s: State)
    requires Inv(c, s) && s.control.shutdown
    ensures AtRest(c, s) ==> s.sender.pc.Gone?
  {
    if AtRest(c, s) { AtRestMeansGone(c, s); }
  }
}
