/** A batch is no larger than configured, in every run of the pipeline. */
module BatchCaps {
  import opened Records
  import opened Pipeline
  import opened Ownership
  import opened FlushGuarantee
  import opened PipelineTheorems
  import opened Chronicles

  /** The sender keeps to the caps: a batch it may still add to has reached neither, one it
      flushes had not reached the byte cap before its last record, and nothing that leaves it
      holds more records than a batch may. */
  ghost predicate Capped(c: Config, d: Sender) {
    && |d.bounds| <= c.batchSize
    && (d.bounds != [] ==> Start(d.bounds, |d.bounds| - 1) < c.maxBatchBytes)
    && (!d.pc.Flushing? ==> |d.bounds| < c.batchSize && |d.buf| < c.maxBatchBytes)
    && SmallPieces(c, Stack(d.pc)) && SmallOuts(c, d.outs)
  }

  ghost predicate SmallPieces(c: Config, stack: seq<Batch>) {
    forall b :: b in stack ==> |b.records| <= c.batchSize
  }

  predicate SmallOuts(c: Config, outs: seq<Out>) {
    forall o :: o in outs ==> |o.records| <= c.batchSize
  }

  lemma AbsorbKeepsCaps(c: Config, s: State, keep: bool, ctx: Ctx, next: Then)
    requires s.intake.queue != [] && s.intake.queue[0] in s.intake.bufs
    requires SenderOk(s.sender) && Capped(c, s.sender) && (s.sender.pc.Selecting? || s.sender.pc.Draining?)
    ensures Capped(c, Absorb(c, s, keep, ctx, next).sender)
  {
    var d := s.sender;
    NoBytesYet(d);
  }

  lemma NoBytesYet(d: Sender)
    requires SenderOk(d)
    ensures if d.bounds == [] then d.buf == [] else d.bounds[|d.bounds| - 1] == |d.buf|
  {
  }

  lemma SplitKeepsCaps(c: Config, x: Sets, stack: seq<Batch>, bl: nat, br: nat)
    requires stack != [] && x.Intact(stack[0]) && |stack[0].bounds| >= 2 && SmallPieces(c, stack)
    ensures SmallPieces(c, Halves(x, stack[0], bl, br) + stack[1..])
  {
    hide Sets.Intact, Halves;
    var h := Halves(x, stack[0], bl, br);
    HalvesIntact(x, stack[0], bl, br);
    HalvesAreSmaller(x, stack[0], bl, br);
    assert stack[0] in stack && forall b :: b in stack[1..] ==> b in stack;
    assert forall b :: b in h ==> b == h[0] || b == h[1];
  }

  lemma HalvesAreSmaller(x: Sets, b: Batch, bl: nat, br: nat)
    requires x.Intact(b) && |b.bounds| >= 2
    ensures forall h :: h in Halves(x, b, bl, br) ==> |h.records| <= |b.records|
  {
    hide Bounded, Cut;
    HalvesIntact(x, b, bl, br);
  }

  lemma PackKeepsCaps(c: Config, s: State, a: SenderAction)
    requires c.Valid() && SenderEnabled(c, s, a) && (a.Pack? || a.PackFail?)
    requires SenderOk(s.sender) && Capped(c, s.sender)
    ensures Capped(c, SenderStep(c, s, a).sender)
  {
    hide Obtainable, Sets.Release, TakeSet, Sets.Intact, Bounded, Cut;
    var d := s.sender;
    assert |Cut'(d.buf, d.bounds)| <= |d.bounds|;
  }

  lemma OthersKeepCaps(c: Config, s: State, a: SenderAction)
    requires SenderEnabled(c, s, a) && Capped(c, s.sender)
    requires !a.Receive? && !a.DrainReceive? && !a.Pack? && !a.PackFail? && !a.SplitPiece?
    ensures Capped(c, SenderStep(c, s, a).sender)
  {
    hide Obtainable, Sets.Release, Sets.Give, TakeSet, Sets.Intact, Stats.Lose, Halves, Cut', Start, Full;
  }

  lemma SenderKeepsCaps(c: Config, s: State, a: SenderAction)
    requires c.Valid() && SenderEnabled(c, s, a) && SenderOk(s.sender) && Capped(c, s.sender)
    ensures Capped(c, SenderStep(c, s, a).sender)
  {
    hide SenderOk, Absorb, Sets.Intact, Halves, SmallPieces, SmallOuts;
    match a
    case Receive(keep) => AbsorbKeepsCaps(c, s, keep, WorkerCtx, ToSelect);
    case DrainReceive(keep) => AbsorbKeepsCaps(c, s, keep, CtxOf(s.sender.pc.goal), ToDrain(s.sender.pc.goal));
    case Pack(_, _) => PackKeepsCaps(c, s, a);
    case PackFail(_, _) => PackKeepsCaps(c, s, a);
    case SplitPiece(bl, br) => SplitKeepsCaps(c, s.sets, s.sender.pc.stack, bl, br);
    case _ => OthersKeepCaps(c, s, a);
  }

  lemma StepKeepsCaps(c: Config, s: State, a: Action)
    requires c.Valid() && Enabled(c, s, a) && Inv(c, s) && Capped(c, s.sender)
    ensures Capped(c, Step(c, s, a).sender)
  {
    hide Capped, SenderStep, CallStep, WorkerStep, CallerStep, SenderEnabled, CallEnabled, WorkerEnabled, CallerEnabled;
    match a
    case BySender(x) => SenderKeepsCaps(c, s, x);
    case ByCall(x) => CallLeavesRest(c, s, x);
    case ByWorker(i, x) => WorkerLeavesRest(c, s, i, x);
    case ByCaller(x) => CallerLeavesSender(c, s, x);
  }

  lemma CallerLeavesSender(c: Config, s: State, a: CallerAction)
    requires CallerEnabled(c, s, a)
    ensures CallerStep(c, s, a).sender == s.sender
  {
  }

  /** In every run: whoever chooses the steps, no batch and no piece of one ever leaves the sender
      with more than `batchSize` records, none is added to once a cap is reached, and none had
      reached the byte cap before its last record. */
  lemma {:induction false} CapsAreKept(c: Config, run: seq<State>, steps: seq<Action>)
    requires c.Valid() && Chronicle(c, run, steps)
    ensures Capped(c, run[|steps|].sender)
    decreases |steps|
  {
    hide Inv, Enabled, Step, Capped;
    if steps == [] {
      AtFirst(c);
    } else {
      var n := |steps| - 1;
      LastStep(c, run, steps);
      CapsAreKept(c, run[..n + 1], steps[..n]);
      ChronicleKeepsInv(c, run[..n + 1], steps[..n]);
      StepKeepsCaps(c, run[n], steps[n]);
    }
  }

  lemma AtFirst(c: Config)
    requires c.Valid()
    ensures Capped(c, Init(c).sender)
  {
  }
}
