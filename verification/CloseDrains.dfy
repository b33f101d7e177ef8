/** What Close leaves behind when no Enqueue raced it, even if its own flush timed out: the
    sender's last drain has emptied the queue for good. */
module CloseDrains {
  import opened Pipeline
  import opened Ownership
  import opened Fifo
  import opened FlushSafety
  import opened FlushGuarantee
  import opened PipelineTheorems
  import opened PipelineResults

  /** The sender has seen the queue empty on its way out. */
  predicate PastDrain(pc: SenderPc) {
    match pc
    case Flushing(_, next) => next == ToGoal(Quit)
    case Dispatching(_, _, next) => next == ToGoal(Quit)
    case Recording(_, _, next) => next == ToGoal(Quit)
    case Stopping => true
    case Joining => true
    case Leaving => true
    case Gone => true
    case _ => false
  }

  predicate QueueStaysEmpty(s: State) {
    !s.control.raced && PastDrain(s.sender.pc) ==> s.intake.queue == []
  }

  lemma PastDrainQuits(pc: SenderPc)
    ensures PastDrain(pc) ==> Quits(pc)
  {
  }

  lemma SenderKeepsEmpty(c: Config, s: State, a: SenderAction)
    requires SenderEnabled(c, s, a) && QueueStaysEmpty(s)
    ensures QueueStaysEmpty(SenderStep(c, s, a))
  {
  }

  lemma CallKeepsEmpty(c: Config, s: State, a: CallAction)
    requires CallEnabled(c, s, a) && QueueStaysEmpty(s)
    requires !s.control.raced && PastDrain(s.sender.pc) ==> forall i :: 0 <= i < |s.intake.calls| ==> !Active(s.intake.calls[i])
    ensures QueueStaysEmpty(CallStep(c, s, a))
  {
    if a.CallSend? {
      assert s.intake.calls[a.call].Counted?;
    }
  }

  lemma CallerKeepsEmpty(c: Config, s: State, a: CallerAction)
    requires CallerEnabled(c, s, a) && QueueStaysEmpty(s)
    requires PastDrain(s.sender.pc) ==> s.control.done && !s.control.closer.NotClosed?
    ensures QueueStaysEmpty(CallerStep(c, s, a))
  {
  }

  /** Past the drain Close has begun, and unless an Enqueue raced it none is under way. */
  lemma NobodyEnqueues(c: Config, s: State)
    requires ControlOk(c, s) && CloseOk(s) && PastDrain(s.sender.pc)
    ensures s.control.done && !s.control.closer.NotClosed?
    ensures !s.control.raced ==> forall i :: 0 <= i < |s.intake.calls| ==> !Active(s.intake.calls[i])
  {
    PastDrainQuits(s.sender.pc);
  }

  lemma StepKeepsEmpty(c: Config, s: State, a: Action)
    requires Enabled(c, s, a) && ControlOk(c, s) && CloseOk(s) && QueueStaysEmpty(s)
    ensures QueueStaysEmpty(Step(c, s, a))
  {
    hide ControlOk, CloseOk, QueueStaysEmpty, CallStep, SenderStep, CallerStep;
    if PastDrain(s.sender.pc) {
      NobodyEnqueues(c, s);
    }
    match a
    case ByCall(x) => CallKeepsEmpty(c, s, x);
    case BySender(x) => SenderKeepsEmpty(c, s, x);
    case ByWorker(i, x) => WorkerKeepsEmpty(c, s, i, x);
    case ByCaller(x) => CallerKeepsEmpty(c, s, x);
  }

  lemma WorkerKeepsEmpty(c: Config, s: State, i: nat, a: WorkerAction)
    requires WorkerEnabled(c, s, i, a) && QueueStaysEmpty(s)
    ensures QueueStaysEmpty(WorkerStep(c, s, i, a))
  {
  }

  lemma NextKeepsEmpty(c: Config, s: State, t: State)
    requires Next(c, s, t) && Inv(c, s) && QueueStaysEmpty(s)
    ensures QueueStaysEmpty(t)
  {
    hide Enabled, Step, QueueStaysEmpty, ControlOk, CloseOk;
    var a :| Enabled(c, s, a) && t == Step(c, s, a);
    StepKeepsEmpty(c, s, a);
  }

  lemma {:induction false} RunKeepsEmpty(c: Config, run: seq<State>, n: nat)
    requires c.Valid() && Run(c, run) && n < |run|
    ensures QueueStaysEmpty(run[n])
  {
    hide Next, Inv;
    if n > 0 {
      RunKeepsEmpty(c, run, n - 1);
      RunKeepsInv(c, run, n - 1);
      assert Next(c, run[n - 1], run[n - 1 + 1]);
      NextKeepsEmpty(c, run[n - 1], run[n]);
    }
  }

  /** When Close has returned and no Enqueue raced it, every record the client ever accepted
      has left the sender in order, every batch handed on is finished, the queue is empty and
      nothing was left over to count. */
  lemma CloseDeliversOrCounts(c: Config, s: State)
    requires c.Valid() && Reachable(c, s) && s.control.closer.CloseReturned? && !s.control.raced
    ensures s.intake.queue == [] && s.control.leftover == 0
    ensures OutRecords(s.sender.outs) == s.intake.accepted
    ensures s.uploads.pool.completed == s.uploads.sends
    ensures forall n: nat :: n < s.uploads.sends ==> n in s.uploads.finished
  {
    var run :| Run(c, run) && run[|run| - 1] == s;
    RunKeepsEmpty(c, run, |run| - 1);
    ReturnedMeansGone(c, s);
    AfterJoin(c, s);
    AllFinishedAtEnd(c, s);
    assert s.intake.accepted[..s.intake.head] == s.intake.accepted;
  }

  lemma ReturnedMeansGone(c: Config, s: State)
    requires c.Valid() && Reachable(c, s) && s.control.closer.CloseReturned?
    ensures s.sender.pc.Gone? && s.control.leftover <= |s.intake.queue|
    ensures |s.intake.accepted| == s.intake.head + |s.intake.queue|
  {
    ReachableOk(c, s);
  }

  lemma AllFinishedAtEnd(c: Config, s: State)
    requires c.Valid() && Reachable(c, s) && s.sender.pc.Gone?
    ensures forall n: nat :: n < s.uploads.sends ==> n in s.uploads.finished
  {
    ReachableOk(c, s);
    JoinedFinishes(c, s);
  }

  lemma JoinedFinishes(c: Config, s: State)
    requires ControlOk(c, s) && NumbersOk(s.uploads) && s.sender.pc.Gone?
    ensures forall n: nat :: n < s.uploads.sends ==> n in s.uploads.finished
  {
    assert s.uploads.workers[0].Exited?;
    assert forall i :: 0 <= i < |s.uploads.workers| ==> !HasNo(s.uploads.workers[i]);
  }
}
