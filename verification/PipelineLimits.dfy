/** Where the pipeline's guarantees end: runs that show a flush answered early once there
    are two workers, and the Stats identity missed by a racing Enqueue. */
module PipelineLimits {
  import opened Records
  import opened Pipeline
  import opened Fifo
  import opened PipelineResults
  import P = UploadPool

  lemma InitReachable(c: Config)
    ensures Reachable(c, Init(c))
  {
    assert Run(c, [Init(c)]);
    assert [Init(c)][|[Init(c)]| - 1] == Init(c);
  }

  lemma StepReachable(c: Config, s: State, a: Action)
    requires Reachable(c, s) && Enabled(c, s, a)
    ensures Reachable(c, Step(c, s, a))
  {
    var run :| Run(c, run) && run[|run| - 1] == s;
    var t := Step(c, s, a);
    var more := run + [t];
    forall i | 0 <= i < |more| - 1 ensures Next(c, more[i], more[i + 1]) {
      if i < |run| - 1 {
        assert more[i] == run[i] && more[i + 1] == run[i + 1];
        assert Next(c, run[i], run[i + 1]);
      }
    }
    assert Run(c, more) && more[|more| - 1] == t;
  }

  /** Nothing is on its way to a worker, and the buffers handed out so far are numbered
      below n. */
  ghost predicate Calm(s: State, n: nat) {
    && s.sender.pc == Selecting && s.sender.buf == [] && s.sender.bounds == [] && s.intake.queue == []
    && !s.control.done
    && (forall b :: b in s.intake.bufs ==> b < n)
    && (forall x :: x in s.sets.raw ==> x < n)
  }

  /** One record is encoded, counted and queued. */
  lemma EnqueueOne(c: Config, s: State, n: nat) returns (t: State)
    requires c.Valid() && Reachable(c, s) && Calm(s, n)
    ensures Reachable(c, t)
    ensures t.intake.queue == [n] && n in t.intake.bufs && t.intake.bufs[n] == [10]
    ensures |t.intake.accepted| == |s.intake.accepted| + 1
    ensures forall b :: b in t.intake.bufs ==> b <= n
    ensures t.sender == s.sender && t.control == s.control && t.uploads == s.uploads && t.sets == s.sets
  {
    hide Reachable;
    var i := |s.intake.calls|;
    var a := ByCall(CallBegin);
    StepReachable(c, s, a);
    t := Step(c, s, a);
    a := ByCall(CallEncode(i, n, [10], true));
    StepReachable(c, t, a);
    t := Step(c, t, a);
    a := ByCall(CallCount(i));
    StepReachable(c, t, a);
    t := Step(c, t, a);
    a := ByCall(CallSend(i));
    StepReachable(c, t, a);
    t := Step(c, t, a);
  }

  lemma TakeRequest(c: Config, s: State) returns (t: State)
    requires Reachable(c, s) && s.sender.pc == Selecting
    ensures Reachable(c, t)
    ensures t == s.(sender := s.sender.(pc := Draining(Answer(|s.control.flushes|))), control := s.control.(
      flushes := s.control.flushes + [Flush(Waiting, false, true, false, |s.intake.accepted|, 0, 0)]))
  {
    hide Reachable;
    var r := |s.control.flushes|;
    StepReachable(c, s, ByCaller(FlushBegin));
    t := Step(c, s, ByCaller(FlushBegin));
    assert t.control.flushes[r] == NEW_FLUSH;
    StepReachable(c, t, BySender(TakeFlush(r)));
    t := Step(c, t, BySender(TakeFlush(r)));
  }

  lemma DrainOne(c: Config, s: State, n: nat) returns (t: State)
    requires c.batchSize == 2 && c.maxBatchBytes == 2 && Reachable(c, s)
    requires s.sender.pc.Draining? && s.sender.buf == [] && s.sender.bounds == []
    requires s.intake.queue == [n] && n in s.intake.bufs && s.intake.bufs[n] == [10]
    ensures Reachable(c, t)
    ensures t.intake.queue == [] && t.intake.bufs == s.intake.bufs && t.intake.accepted == s.intake.accepted
    ensures t.intake.calls == s.intake.calls
    ensures t == s.(intake := t.intake, sender := s.sender.(buf := [10], bounds := [1]))
  {
    hide Reachable;
    StepReachable(c, s, BySender(DrainReceive(true)));
    t := Step(c, s, BySender(DrainReceive(true)));
    assert [] + [10] == [10] && [] + [1] == [1];
  }

  lemma PackOne(c: Config, s: State, n: nat) returns (t: State)
    requires Reachable(c, s) && s.sender.pc.Draining? && s.intake.queue == []
    requires s.sender.buf == [10] && s.sender.bounds == [1] && n !in s.sets.raw
    ensures Reachable(c, t)
    ensures t.sets.raw.Keys == s.sets.raw.Keys + {n}
    ensures var next := ToGoal(s.sender.pc.goal);
      t == s.(sets := t.sets, sender := s.sender.(buf := [], bounds := [],
        pc := Dispatching([Batch(n, 0, 1, [1], 0, true, [[10]])], CtxOf(s.sender.pc.goal), next)))
  {
    hide Reachable;
    StepReachable(c, s, BySender(DrainEmpty));
    t := Step(c, s, BySender(DrainEmpty));
    assert Bounded([10], [1]);
    assert Cut([10], [1])[0] == [10][0..1] == [10];
    assert Cut([10], [1]) == [[10]];
    StepReachable(c, t, BySender(Pack(n, 0)));
    t := Step(c, t, BySender(Pack(n, 0)));
  }

  /** A flush takes the queued record into a batch of its own, ready to be handed off. */
  lemma FlushOne(c: Config, s: State, n: nat) returns (t: State)
    requires c.batchSize == 2 && c.maxBatchBytes == 2 && Reachable(c, s)
    requires s.sender.pc == Selecting && s.sender.buf == [] && s.sender.bounds == []
    requires s.intake.queue == [n] && n in s.intake.bufs && s.intake.bufs[n] == [10]
    requires n !in s.sets.raw
    ensures Reachable(c, t) && t.intake.queue == []
    ensures t.intake.bufs == s.intake.bufs && t.intake.accepted == s.intake.accepted
    ensures t.sets.raw.Keys == s.sets.raw.Keys + {n}
    ensures var r := |s.control.flushes|;
      t == s.(intake := t.intake, sets := t.sets, control := s.control.(
                flushes := s.control.flushes + [Flush(Waiting, false, true, false, |s.intake.accepted|, 0, 0)]),
              sender := s.sender.(pc := Dispatching([Batch(n, 0, 1, [1], 0, true, [[10]])], FlushCtx(r), ToGoal(Answer(r)))))
  {
    hide Reachable;
    t := TakeRequest(c, s);
    t := DrainOne(c, t, n);
    t := PackOne(c, t, n);
  }

  lemma SendOne(c: Config, s: State, b: Batch) returns (t: State)
    requires Reachable(c, s) && |s.uploads.jobs| < c.workers && b.bodyLen == 0
    requires s.sender.pc.Dispatching? && s.sender.pc.stack == [b]
    ensures Reachable(c, t) && t.sets.raw == s.sets.raw && t.control.flushes == s.control.flushes
    ensures t.control.done == s.control.done
    ensures var u := s.uploads;
      t == s.(sets := t.sets, control := t.control,
              uploads := u.(jobs := u.jobs + [Job(u.sends, b)], sends := u.sends + 1,
                            pool := u.pool.(dispatched := u.pool.dispatched + 1)),
              sender := s.sender.(outs := s.sender.outs + [Handed(u.sends, b.records)],
                                  pc := Dispatching([], s.sender.pc.ctx, s.sender.pc.next)))
  {
    hide Reachable;
    assert [b][1..] == [];
    StepReachable(c, s, BySender(HandOff));
    t := Step(c, s, BySender(HandOff));
    StepReachable(c, t, BySender(Record));
    t := Step(c, t, BySender(Record));
  }

  lemma RegisterOne(c: Config, s: State, r: nat) returns (t: State)
    requires Reachable(c, s) && r < |s.control.flushes|
    requires s.sender.pc.Dispatching? && s.sender.pc.stack == [] && s.sender.pc.next == ToGoal(Answer(r))
    requires s.uploads.pool.completed < s.uploads.pool.dispatched && !s.uploads.pool.closed
    ensures Reachable(c, t)
    ensures var p, fs := s.uploads.pool, s.control.flushes;
      t == s.(sender := s.sender.(pc := Selecting),
              uploads := s.uploads.(pool := p.(waiters := p.waiters + [P.Waiter(p.dispatched, r)])),
              control := s.control.(flushes := fs[r :=
                fs[r].(registered := true, cover := |s.sender.outs|, target := p.dispatched)]))
  {
    hide Reachable;
    StepReachable(c, s, BySender(Dispatched));
    t := Step(c, s, BySender(Dispatched));
    StepReachable(c, t, BySender(Register));
    t := Step(c, t, BySender(Register));
  }

  /** A record enqueued, flushed and handed off. */
  lemma RoundTrip(c: Config, s: State, n: nat) returns (t: State)
    requires c.batchSize == 2 && c.maxBatchBytes == 2 && c.Valid() && Reachable(c, s) && Calm(s, n)
    requires |s.uploads.jobs| < c.workers
    requires s.uploads.pool.completed <= s.uploads.pool.dispatched && !s.uploads.pool.closed
    ensures Reachable(c, t) && Calm(t, n + 1)
    ensures |t.intake.accepted| == |s.intake.accepted| + 1
    ensures t.sender.outs == s.sender.outs + [Handed(s.uploads.sends, [[10]])]
    ensures |t.uploads.jobs| == |s.uploads.jobs| + 1 && t.uploads.jobs[..|s.uploads.jobs|] == s.uploads.jobs
    ensures t.uploads.jobs[|s.uploads.jobs|].no == s.uploads.sends
    ensures |t.uploads.jobs[|s.uploads.jobs|].batch.bounds| == 1
    ensures t.uploads.workers == s.uploads.workers && t.uploads.sends == s.uploads.sends + 1
    ensures t.uploads.finished == s.uploads.finished
    ensures var r, p := |s.control.flushes|, s.uploads.pool;
      && t.uploads.pool == p.(dispatched := p.dispatched + 1, waiters := p.waiters + [P.Waiter(p.dispatched + 1, r)])
      && t.control.flushes == s.control.flushes
           + [Flush(Waiting, false, true, true, |t.intake.accepted|, |t.sender.outs|, p.dispatched + 1)]
  {
    hide Reachable;
    t := EnqueueOne(c, s, n);
    t := FlushOne(c, t, n);
    t := SendOne(c, t, t.sender.pc.stack[0]);
    t := RegisterOne(c, t, |s.control.flushes|);
  }

  /** One upload is taken, delivered and completed by worker i. */
  lemma CompleteOne(c: Config, s: State, i: nat) returns (t: State)
    requires Reachable(c, s) && i < |s.uploads.workers| && s.uploads.workers[i].Idle?
    requires |s.uploads.jobs| == 1
    ensures Reachable(c, t) && t.control == s.control && t.sender == s.sender && t.intake == s.intake
    ensures t.uploads.pool == P.OnComplete(s.uploads.pool, P.Fine)
    ensures t.uploads.finished == s.uploads.finished + {s.uploads.jobs[0].no}
  {
    hide Reachable;
    var a := ByWorker(i, Take);
    StepReachable(c, s, a);
    t := Step(c, s, a);
    a := ByWorker(i, Resolve(Delivered));
    StepReachable(c, t, a);
    t := Step(c, t, a);
    a := ByWorker(i, ReleaseSet(true));
    StepReachable(c, t, a);
    t := Step(c, t, a);
    a := ByWorker(i, Complete);
    StepReachable(c, t, a);
    t := Step(c, t, a);
  }

  /** Worker 0 has the first batch, and the second one is on its way to worker 1. */
  lemma TwoInFlight(c: Config) returns (t: State)
    requires c.Valid() && c.batchSize == 2 && c.maxBatchBytes == 2 && c.workers >= 2
    ensures Reachable(c, t) && |t.uploads.workers| == c.workers
    ensures t.uploads.workers[1].Idle?
    ensures |t.uploads.jobs| == 1 && t.uploads.jobs[0].no == 1 && t.uploads.finished == {}
    ensures |t.sender.outs| == 2 && t.sender.outs[0].Handed? && t.sender.outs[0].no == 0
    ensures t.uploads.pool == P.State(2, 0, P.Fine, [P.Waiter(1, 0), P.Waiter(2, 1)], false, map[])
    ensures |t.control.flushes| == 2 && t.control.flushes[0].mark == 1
  {
    hide Reachable;
    InitReachable(c);
    var s := RoundTrip(c, Init(c), 0);
    StepReachable(c, s, ByWorker(0, Take));
    t := Step(c, s, ByWorker(0, Take));
    t := RoundTrip(c, t, 1);
  }

  /** With two or more workers, a later batch that completes first satisfies the earlier
      flush: it is answered while its own batch is still being uploaded. */
  lemma EarlyAnswer(workers: nat) returns (c: Config, s: State)
    requires workers >= 2
    ensures c.Valid() && c.workers == workers && Reachable(c, s)
    ensures 0 in s.uploads.pool.replies && 0 < |s.control.flushes| && !ResolvedUpTo(s, s.control.flushes[0].mark)
  {
    c := Config(2, 2, 1, workers, 0);
    var t := TwoInFlight(c);
    s := CompleteOne(c, t, 1);
    var p := t.uploads.pool.(completed := 1);
    assert p.waiters[0] in p.waiters && p.Due(p.waiters[0]);
    P.SignalSummary(p);
    Unresolved(s);
  }

  lemma Unresolved(s: State)
    requires |s.control.flushes| > 0 && s.control.flushes[0].mark == 1 && 0 !in s.uploads.finished
    requires |s.sender.outs| > 0 && s.sender.outs[0].Handed? && s.sender.outs[0].no == 0
    ensures !ResolvedUpTo(s, s.control.flushes[0].mark)
  {
    forall cover: nat ensures !ResolvedIn(s, 1, cover) {
      if cover <= |s.sender.outs| && cover == 0 { assert OutRecords(s.sender.outs[..cover]) == []; }
    }
  }

  /** Every answered flush has resolved the records accepted before it. */
  ghost predicate FlushesKeepTheirPromise(workers: nat) {
    forall c: Config, s: State, r: nat :: c.Valid() && c.workers == workers && Reachable(c, s) && r in s.uploads.pool.replies ==>
      r < |s.control.flushes| && ResolvedUpTo(s, s.control.flushes[r].mark)
  }

  /** The unconditional promise holds exactly for a pool of one worker. */
  lemma PromiseIffOneWorker(workers: nat)
    requires workers >= 1
    ensures FlushesKeepTheirPromise(workers) <==> workers == 1
  {
    if workers == 1 {
      forall c: Config, s: State, r: nat | c.Valid() && c.workers == workers && Reachable(c, s) && r in s.uploads.pool.replies
        ensures r < |s.control.flushes| && ResolvedUpTo(s, s.control.flushes[r].mark)
      {
        OneWorkerFlush(c, s, r);
      }
    } else {
      var c, s := EarlyAnswer(workers);
    }
  }

  // ---- the Stats identity and a racing Enqueue ----

  const SMALL := Config(2, 2, 1, 1, 0)

  lemma CountedFirst() returns (t: State)
    ensures Reachable(SMALL, t)
    ensures t == Init(SMALL).(intake := t.intake, stats := Init(SMALL).stats.(enqueued := 1))
    ensures t.intake.calls == [Counted(0)] && 0 in t.intake.bufs && t.intake.queue == []
  {
    hide Reachable;
    InitReachable(SMALL);
    t := Init(SMALL);
    StepReachable(SMALL, t, ByCall(CallBegin));
    t := Step(SMALL, t, ByCall(CallBegin));
    StepReachable(SMALL, t, ByCall(CallEncode(0, 0, [10], true)));
    t := Step(SMALL, t, ByCall(CallEncode(0, 0, [10], true)));
    StepReachable(SMALL, t, ByCall(CallCount(0)));
    t := Step(SMALL, t, ByCall(CallCount(0)));
  }

  lemma CloseFlushes() returns (t: State)
    ensures Reachable(SMALL, t)
    ensures t.intake.calls == [Counted(0)] && 0 in t.intake.bufs && t.intake.queue == []
    ensures t.stats == Init(SMALL).stats.(enqueued := 1)
    ensures t.sender == Init(SMALL).sender.(pc := Answering(0))
    ensures t.uploads == Init(SMALL).uploads
    ensures |t.control.flushes| == 1 && t.control.flushes[0].phase == Waiting && t.control.closer == CloseFlush(0)
  {
    hide Reachable;
    t := CountedFirst();
    StepReachable(SMALL, t, ByCaller(CloseBegin));
    t := Step(SMALL, t, ByCaller(CloseBegin));
    StepReachable(SMALL, t, ByCaller(CloseOffer));
    t := Step(SMALL, t, ByCaller(CloseOffer));
    StepReachable(SMALL, t, BySender(TakeFlush(0)));
    t := Step(SMALL, t, BySender(TakeFlush(0)));
    StepReachable(SMALL, t, BySender(DrainEmpty));
    t := Step(SMALL, t, BySender(DrainEmpty));
  }

  lemma CloseAnswered() returns (t: State)
    ensures Reachable(SMALL, t)
    ensures t.intake.calls == [Counted(0)] && 0 in t.intake.bufs && t.intake.queue == []
    ensures t.stats == Init(SMALL).stats.(enqueued := 1)
    ensures t.sender == Init(SMALL).sender && t.uploads.jobs == [] && t.uploads.workers == [Idle]
    ensures |t.control.flushes| == 1 && t.control.flushes[0].phase == Back && t.control.closer == CloseFlush(0)
  {
    hide Reachable;
    t := CloseFlushes();
    StepReachable(SMALL, t, BySender(Register));
    t := Step(SMALL, t, BySender(Register));
    StepReachable(SMALL, t, ByCaller(FlushReply(0)));
    t := Step(SMALL, t, ByCaller(FlushReply(0)));
  }

  lemma CloseSignals() returns (t: State)
    ensures Reachable(SMALL, t)
    ensures t.intake.calls == [Counted(0)] && 0 in t.intake.bufs && t.intake.queue == []
    ensures t.stats == Init(SMALL).stats.(enqueued := 1)
    ensures t.sender == Init(SMALL).sender.(pc := Stopping)
    ensures t.uploads.jobs == [] && t.uploads.workers == [Idle] && t.control.closer == ShutdownClosed
  {
    hide Reachable;
    t := CloseAnswered();
    StepReachable(SMALL, t, ByCaller(CloseSignal));
    t := Step(SMALL, t, ByCaller(CloseSignal));
    StepReachable(SMALL, t, BySender(SeeShutdown));
    t := Step(SMALL, t, BySender(SeeShutdown));
    StepReachable(SMALL, t, BySender(DrainEmpty));
    t := Step(SMALL, t, BySender(DrainEmpty));
  }

  lemma CloseJoins() returns (t: State)
    ensures Reachable(SMALL, t)
    ensures t.intake.calls == [Counted(0)] && 0 in t.intake.bufs && t.intake.queue == []
    ensures t.stats == Init(SMALL).stats.(enqueued := 1)
    ensures t.sender.pc == Gone && t.control.closer == ShutdownClosed
  {
    hide Reachable;
    t := CloseSignals();
    StepReachable(SMALL, t, BySender(CloseJobs));
    t := Step(SMALL, t, BySender(CloseJobs));
    StepReachable(SMALL, t, ByWorker(0, Quit_));
    t := Step(SMALL, t, ByWorker(0, Quit_));
    StepReachable(SMALL, t, BySender(FinishPool));
    t := Step(SMALL, t, BySender(FinishPool));
    StepReachable(SMALL, t, BySender(Exit));
    t := Step(SMALL, t, BySender(Exit));
  }

  /** An Enqueue that was under way when Close was called can queue its record after Close
      counted the queue; that record is in `enqueued` and in no other counter, for ever. */
  lemma RacingEnqueueIsMissed() returns (t: State)
    ensures SMALL.Valid() && Reachable(SMALL, t) && t.control.closer.CloseReturned? && NoCallMidway(t)
    ensures t.stats.enqueued == 1 && t.stats.sent + t.stats.Dropped() == 0
  {
    hide Reachable;
    t := CloseJoins();
    StepReachable(SMALL, t, ByCaller(CloseJoin));
    t := Step(SMALL, t, ByCaller(CloseJoin));
    StepReachable(SMALL, t, ByCaller(CloseCount));
    t := Step(SMALL, t, ByCaller(CloseCount));
    StepReachable(SMALL, t, ByCall(CallSend(0)));
    t := Step(SMALL, t, ByCall(CallSend(0)));
  }
}
