/** The pipeline's guarantees, for every run of any length and any interleaving. */
module PipelineTheorems {
  import opened Records
  import opened Pipeline
  import opened Ownership
  import opened Fifo
  import opened FlushSafety
  import opened FlushGuarantee

  // ---- the invariant holds in every reachable state ----

  lemma InitConserved(c: Config)
    ensures Conserved(Init(c))
  {
    var workers := Init(c).uploads.workers;
    assert forall i :: 0 <= i < |workers| ==> WorkerSizes(workers)[i] == 0;
    TotalZero(WorkerSizes(workers));
    TotalZero(CallSizes([]));
    TotalZero(JobSizes([]));
    TotalZero(BatchSizes([]));
  }

  lemma InitSound(c: Config)
    requires c.Valid()
    ensures IntakeOk(Init(c).intake) && BatchesOk(Init(c)) && NumbersOk(Init(c).uploads) && SenderOk(Init(c).sender)
    ensures ControlOk(c, Init(c)) && PoolOk(Init(c))
  {
    hide Sets.Intact;
  }

  lemma {:induction false} EmptyFifo(s: State)
    requires s.intake.head == 0 && s.intake.accepted == [] && s.sender == Sender(Selecting, [], [], [])
    ensures FifoOk(s)
  {
  }

  lemma {:induction false} InitGuarantees(c: Config, s: State)
    requires s == Init(c)
    ensures FifoOk(s) && CoverOk(s) && MarksOk(s) && InOrder(c, s) && HonestOk(c, s) && CloseOk(s)
  {
    hide FifoOk, OutRecords, BatchRecords;
    EmptyFifo(s);
  }

  lemma {:induction false} InitOk(c: Config)
    requires c.Valid()
    ensures Inv(c, Init(c))
  {
    hide Init, IntakeOk, BatchesOk, NumbersOk, SenderOk, FifoOk, Conserved;
    hide ControlOk, PoolOk, CoverOk, MarksOk, InOrder, HonestOk, CloseOk;
    InitConserved(c);
    InitSound(c);
    InitGuarantees(c, Init(c));
  }

  lemma TotalZero(x: seq<nat>)
    requires forall i :: 0 <= i < |x| ==> x[i] == 0
    ensures Total(x) == 0
  {
  }

  lemma CallKeepsInv(c: Config, s: State, a: CallAction)
    requires CallEnabled(c, s, a) && Inv(c, s)
    ensures Inv(c, CallStep(c, s, a))
  {
    CallKeepsIntake(c, s, a);
    CallKeepsFifo(c, s, a);
    CallKeepsConserved(c, s, a);
    CallKeepsControl(c, s, a);
    CallKeepsClose(c, s, a);
    CallKeepsRest(c, s, a);
  }

  /** Enqueue touches nothing but the intake and the counters. */
  lemma CallLeavesRest(c: Config, s: State, a: CallAction)
    requires CallEnabled(c, s, a)
    ensures var t := CallStep(c, s, a);
      && t.control == s.control && t.sender == s.sender && t.uploads == s.uploads && t.sets == s.sets
      && |s.intake.accepted| <= |t.intake.accepted| && t.intake.head == s.intake.head
  {
    hide Stats.Lose;
  }

  lemma CallKeepsRest(c: Config, s: State, a: CallAction)
    requires CallEnabled(c, s, a) && Inv(c, s)
    ensures var t := CallStep(c, s, a);
      BatchesOk(t) && NumbersOk(t.uploads) && SenderOk(t.sender) && PoolOk(t) && CoverOk(t) && MarksOk(t)
      && InOrder(c, t) && HonestOk(c, t)
  {
    hide CallEnabled, CallStep, IntakeOk, NumbersOk, SenderOk, FifoOk, Conserved, ControlOk, CloseOk;
    hide SetsOk, StackOk, JobsOk, WorkersOk, Covers, Honest, Serving, Drained, WaitsFor;
    var t := CallStep(c, s, a);
    CallLeavesRest(c, s, a);
    if c.workers == 1 { HonestAfter(s, t); }
  }

  lemma SenderKeepsIntake(c: Config, s: State, a: SenderAction)
    requires SenderEnabled(c, s, a) && IntakeOk(s.intake)
    ensures IntakeOk(SenderStep(c, s, a).intake)
  {
    match a
    case Receive(keep) => AbsorbKeepsIntake(c, s, keep, WorkerCtx, ToSelect);
    case DrainReceive(keep) => AbsorbKeepsIntake(c, s, keep, CtxOf(s.sender.pc.goal), ToDrain(s.sender.pc.goal));
    case _ =>
  }

  lemma SenderKeepsInv(c: Config, s: State, a: SenderAction)
    requires SenderEnabled(c, s, a) && Inv(c, s)
    ensures Inv(c, SenderStep(c, s, a))
  {
    SenderKeepsIntake(c, s, a);
    SenderKeepsBatches(c, s, a);
    SenderKeepsNumbers(c, s, a);
    SenderKeepsSender(c, s, a);
    SenderKeepsFifo(c, s, a);
    SenderKeepsConserved(c, s, a);
    SenderKeepsControl(c, s, a);
    SenderKeepsPool(c, s, a);
    SenderKeepsCover(c, s, a);
    SenderKeepsMarks(c, s, a);
    SenderKeepsOrder(c, s, a);
    SenderKeepsHonest(c, s, a);
    SenderKeepsClose(c, s, a);
  }

  lemma WorkerKeepsInv(c: Config, s: State, i: nat, a: WorkerAction)
    requires WorkerEnabled(c, s, i, a) && Inv(c, s)
    ensures Inv(c, WorkerStep(c, s, i, a))
  {
    WorkerKeepsBatches(c, s, i, a);
    WorkerKeepsNumbers(c, s, i, a);
    WorkerKeepsConserved(c, s, i, a);
    WorkerKeepsControl(c, s, i, a);
    WorkerKeepsPool(c, s, i, a);
    WorkerKeepsOrder(c, s, i, a);
    WorkerKeepsHonest(c, s, i, a);
    WorkerKeepsClose(c, s, i, a);
    WorkerKeepsRest(c, s, i, a);
  }

  lemma WorkerKeepsRest(c: Config, s: State, i: nat, a: WorkerAction)
    requires WorkerEnabled(c, s, i, a) && Inv(c, s)
    ensures var t := WorkerStep(c, s, i, a);
      IntakeOk(t.intake) && SenderOk(t.sender) && FifoOk(t) && CoverOk(t) && MarksOk(t)
  {
    hide WorkerEnabled, WorkerStep, IntakeOk, BatchesOk, NumbersOk, SenderOk, Conserved, ControlOk, PoolOk, InOrder;
    hide HonestOk, CloseOk, Covers, Serving, Drained, OutRecords, BatchRecords;
    WorkerLeavesRest(c, s, i, a);
  }

  lemma CallerKeepsInv(c: Config, s: State, a: CallerAction)
    requires CallerEnabled(c, s, a) && Inv(c, s)
    ensures Inv(c, CallerStep(c, s, a))
  {
    CallerKeepsConserved(c, s, a);
    CallerKeepsControl(c, s, a);
    CallerKeepsPool(c, s, a);
    CallerKeepsClose(c, s, a);
    CallerKeepsRest(c, s, a);
  }

  /** What a request was given when it was taken and registered, no caller changes. */
  lemma CallerKeepsRequests(c: Config, s: State, a: CallerAction, r: nat)
    requires CallerEnabled(c, s, a) && r < |CallerStep(c, s, a).control.flushes|
    ensures |s.control.flushes| <= |CallerStep(c, s, a).control.flushes|
    ensures var g := CallerStep(c, s, a).control.flushes[r];
      if r < |s.control.flushes| then
        var f := s.control.flushes[r];
        f.registered == g.registered && f.mark == g.mark && f.cover == g.cover && f.target == g.target
      else g == NEW_FLUSH
  {
    assert (a.FlushExpire? || a.FlushRefused? || a.FlushGiveUp? || a.FlushReply?) ==> a.request < |s.control.flushes|;
    hide CallerEnabled, Active;
  }

  lemma CallerKeepsCovers(c: Config, s: State, a: CallerAction)
    requires CallerEnabled(c, s, a) && CoverOk(s) && MarksOk(s)
    ensures CoverOk(CallerStep(c, s, a)) && MarksOk(CallerStep(c, s, a))
  {
    var t := CallerStep(c, s, a);
    forall r | 0 <= r < |t.control.flushes|
      ensures Covers(t.sender.outs, t.uploads.sends, t.control.flushes[r])
      ensures t.control.flushes[r].mark == if r < |s.control.flushes| then s.control.flushes[r].mark else 0
    {
      CallerKeepsRequests(c, s, a, r);
    }
  }

  lemma CallerLeavesRest(c: Config, s: State, a: CallerAction)
    requires CallerEnabled(c, s, a)
    ensures var t := CallerStep(c, s, a);
      t.sender == s.sender && t.intake == s.intake && t.uploads == s.uploads && t.sets == s.sets
  {
  }

  lemma CallerKeepsRest(c: Config, s: State, a: CallerAction)
    requires CallerEnabled(c, s, a) && Inv(c, s)
    ensures var t := CallerStep(c, s, a);
      IntakeOk(t.intake) && BatchesOk(t) && NumbersOk(t.uploads) && SenderOk(t.sender) && FifoOk(t)
      && CoverOk(t) && MarksOk(t) && InOrder(c, t) && HonestOk(c, t)
  {
    hide CallerEnabled, CallerStep, Conserved, ControlOk, PoolOk, CloseOk, CoverOk, MarksOk, HonestOk, IntakeOk, NumbersOk;
    hide SenderOk, SetsOk, StackOk, JobsOk, WorkersOk;
    CallerKeepsCovers(c, s, a);
    CallerKeepsHonest(c, s, a);
    CallerLeavesRest(c, s, a);
  }

  lemma CallerKeepsHonest(c: Config, s: State, a: CallerAction)
    requires CallerEnabled(c, s, a) && HonestOk(c, s) && PoolOk(s)
    ensures HonestOk(c, CallerStep(c, s, a))
  {
    var t := CallerStep(c, s, a);
    if c.workers == 1 {
      forall r | 0 <= r < |t.control.flushes|
        ensures r < |s.control.flushes| ==> t.control.flushes[r].cover == s.control.flushes[r].cover
      {
        CallerKeepsRequests(c, s, a, r);
      }
      HonestAfter(s, t);
    }
  }

  lemma StepKeepsInv(c: Config, s: State, a: Action)
    requires Enabled(c, s, a) && Inv(c, s)
    ensures Inv(c, Step(c, s, a))
  {
    match a
    case ByCall(x) => CallKeepsInv(c, s, x);
    case BySender(x) => SenderKeepsInv(c, s, x);
    case ByWorker(i, x) => WorkerKeepsInv(c, s, i, x);
    case ByCaller(x) => CallerKeepsInv(c, s, x);
  }

  lemma {:induction false} RunKeepsInv(c: Config, run: seq<State>, n: nat)
    requires c.Valid() && Run(c, run) && n < |run|
    ensures Inv(c, run[n])
  {
    if n == 0 {
      InitOk(c);
    } else {
      RunKeepsInv(c, run, n - 1);
      assert Next(c, run[n - 1], run[n - 1 + 1]);
      var a :| Enabled(c, run[n - 1], a) && run[n] == Step(c, run[n - 1], a);
      StepKeepsInv(c, run[n - 1], a);
    }
  }

  lemma ReachableOk(c: Config, s: State)
    requires c.Valid() && Reachable(c, s)
    ensures Inv(c, s)
  {
    var run :| Run(c, run) && run[|run| - 1] == s;
    RunKeepsInv(c, run, |run| - 1);
  }
}
