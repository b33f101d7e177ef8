/** Order and conservation of records. The batches that left the sender, the pieces it is
    still dispatching, its accumulation buffer and the queue are together, byte for byte and
    in order, the records whose queue send succeeded; and every record counted in `enqueued`
    is counted once more as sent or dropped, or still held somewhere. */
module Fifo {
  import opened Records
  import opened Pipeline
  import opened Ownership

  // ---- order ----

  ghost function OutRecords(outs: seq<Out>): (records: seq<Bytes>) {
    if outs == [] then [] else OutRecords(outs[..|outs| - 1]) + outs[|outs| - 1].records
  }

  ghost function BatchRecords(batches: seq<Batch>): (records: seq<Bytes>) {
    if batches == [] then [] else batches[0].records + BatchRecords(batches[1..])
  }

  /** The records waiting in the queue, read from their buffers. */
  ghost function QueueRecords(t: Intake): (records: seq<Bytes>)
    requires IntakeOk(t)
  {
    seq(|t.queue|, k requires 0 <= k < |t.queue| => t.bufs[t.queue[k]])
  }

  ghost predicate FifoOk(s: State) {
    && s.intake.head <= |s.intake.accepted|
    && OutRecords(s.sender.outs) + BatchRecords(Stack(s.sender.pc)) + Cut'(s.sender.buf, s.sender.bounds)
       == s.intake.accepted[..s.intake.head]
  }

  lemma OutAppend(outs: seq<Out>, o: Out)
    ensures OutRecords(outs + [o]) == OutRecords(outs) + o.records
  {
    assert (outs + [o])[..|outs|] == outs;
  }

  lemma BatchPrepend(b: Batch, batches: seq<Batch>)
    ensures BatchRecords([b] + batches) == b.records + BatchRecords(batches)
  {
    assert ([b] + batches)[1..] == batches;
  }

  lemma AbsorbKeepsFifo(c: Config, s: State, keep: bool, ctx: Ctx, next: Then)
    requires s.intake.queue != [] && s.intake.queue[0] in s.intake.bufs
    requires IntakeOk(s.intake) && SenderOk(s.sender) && FifoOk(s)
    requires s.sender.pc.Selecting? || s.sender.pc.Draining?
    ensures FifoOk(Absorb(c, s, keep, ctx, next))
  {
    var t, d, r := s.intake, s.sender, Absorb(c, s, keep, ctx, next);
    AbsorbKeepsIntake(c, s, keep, ctx, next);
    CutAppend(d.buf, d.bounds, t.bufs[t.queue[0]]);
    assert t.accepted[..t.head + 1] == t.accepted[..t.head] + [t.accepted[t.head]];
    assert BatchRecords(Stack(r.sender.pc)) == [];
    var a, b, x := OutRecords(d.outs), Cut(d.buf, d.bounds), [t.accepted[t.head]];
    assert a + [] + (b + x) == (a + [] + b) + x;
  }

  /** The batch on top of the stack leaves the sender. */
  lemma PopKeepsFifo(d: Sender, o: Out, pc: SenderPc)
    requires Stack(d.pc) != [] && o.records == Stack(d.pc)[0].records && Stack(pc) == Stack(d.pc)[1..]
    ensures OutRecords(d.outs + [o]) + BatchRecords(Stack(pc)) == OutRecords(d.outs) + BatchRecords(Stack(d.pc))
  {
    OutAppend(d.outs, o);
    var a, b, x := OutRecords(d.outs), BatchRecords(Stack(pc)), o.records;
    assert (a + x) + b == a + (x + b);
  }

  lemma NothingCut()
    ensures Cut'([], []) == []
  {
  }

  lemma PackKeepsFifo(c: Config, s: State, a: SenderAction)
    requires SenderEnabled(c, s, a) && (a.Pack? || a.PackFail?) && FifoOk(s)
    ensures FifoOk(SenderStep(c, s, a))
  {
    hide Obtainable, Stats.Lose, Sets.Give, Sets.Release, Sets.Intact, Full, TakeSet, Cut';
    var d, r := s.sender, SenderStep(c, s, a);
    var records := Cut'(d.buf, d.bounds);
    NothingCut();
    if a.Pack? {
      OneBatchRecords(Stack(r.sender.pc));
    } else {
      OutAppend(d.outs, Lost(records));
      assert Stack(r.sender.pc) == [];
    }
    assert Stack(d.pc) == [];
    Unpadded(OutRecords(d.outs), records);
  }

  lemma OneBatchRecords(stack: seq<Batch>)
    requires |stack| == 1
    ensures BatchRecords(stack) == stack[0].records
  {
    assert stack[1..] == [];
  }

  lemma Unpadded<T>(a: seq<T>, b: seq<T>)
    ensures a + [] + b == a + b == a + b + [] == a + b + [] + []
  {
  }

  lemma SplitKeepsFifo(c: Config, s: State, bl: nat, br: nat)
    requires SenderEnabled(c, s, SplitPiece(bl, br)) && FifoOk(s)
    ensures FifoOk(SenderStep(c, s, SplitPiece(bl, br)))
  {
    hide Halves, Cut', Sets.Intact, OutRecords, BatchRecords;
    var stack := s.sender.pc.stack;
    HalvesIntact(s.sets, stack[0], bl, br);
    HalvesPrepend(Halves(s.sets, stack[0], bl, br), stack[1..]);
    FirstBatch(stack);
  }

  lemma HalvesPrepend(h: seq<Batch>, rest: seq<Batch>)
    requires |h| == 2
    ensures BatchRecords(h + rest) == h[0].records + h[1].records + BatchRecords(rest)
  {
    assert h + rest == [h[0]] + ([h[1]] + rest);
    BatchPrepend(h[1], rest);
    BatchPrepend(h[0], [h[1]] + rest);
    Assoc(h[0].records, h[1].records, BatchRecords(rest));
  }

  lemma FirstBatch(batches: seq<Batch>)
    requires batches != []
    ensures BatchRecords(batches) == batches[0].records + BatchRecords(batches[1..])
  {
  }

  lemma SenderKeepsFifo(c: Config, s: State, a: SenderAction)
    requires SenderEnabled(c, s, a) && IntakeOk(s.intake) && SenderOk(s.sender) && FifoOk(s)
    ensures FifoOk(SenderStep(c, s, a))
  {
    var d, r := s.sender, SenderStep(c, s, a);
    match a
    case Receive(keep) => AbsorbKeepsFifo(c, s, keep, WorkerCtx, ToSelect);
    case DrainReceive(keep) => AbsorbKeepsFifo(c, s, keep, CtxOf(d.pc.goal), ToDrain(d.pc.goal));
    case Pack(_, _) => PackKeepsFifo(c, s, a);
    case PackFail(_, _) => PackKeepsFifo(c, s, a);
    case HandOff => PopKeepsFifo(d, Handed(s.uploads.sends, d.pc.stack[0].records), r.sender.pc);
    case Abandon(_) => PopKeepsFifo(d, Lost(d.pc.stack[0].records), r.sender.pc);
    case DropOversize(_) => PopKeepsFifo(d, Lost(d.pc.stack[0].records), r.sender.pc);
    case SplitFail(_) => PopKeepsFifo(d, Lost(d.pc.stack[0].records), r.sender.pc);
    case SplitPiece(bl, br) => SplitKeepsFifo(c, s, bl, br);
    case _ => assert Stack(r.sender.pc) == Stack(d.pc);
  }

  lemma CallKeepsFifo(c: Config, s: State, a: CallAction)
    requires CallEnabled(c, s, a) && FifoOk(s)
    ensures FifoOk(CallStep(c, s, a))
  {
    var t, r := s.intake, CallStep(c, s, a).intake;
    assert r.accepted[..r.head] == t.accepted[..t.head];
  }

  /** The whole history, with the queue read from memory. */
  lemma WholeHistory(s: State)
    requires IntakeOk(s.intake) && SenderOk(s.sender) && FifoOk(s)
    ensures OutRecords(s.sender.outs) + BatchRecords(Stack(s.sender.pc)) + Cut(s.sender.buf, s.sender.bounds)
            + QueueRecords(s.intake) == s.intake.accepted
  {
    var t := s.intake;
    assert QueueRecords(t) == t.accepted[t.head..];
    assert t.accepted == t.accepted[..t.head] + t.accepted[t.head..];
  }

  // ---- conservation ----

  /** Between counting its record and counting its fate. */
  function Midway(p: CallPhase): nat {
    if p.Counted? || p.Refusing? then 1 else 0
  }

  function CallSizes(calls: seq<CallPhase>): (sizes: seq<nat>) {
    seq(|calls|, i requires 0 <= i < |calls| => Midway(calls[i]))
  }

  function BatchSizes(batches: seq<Batch>): (sizes: seq<nat>) {
    seq(|batches|, i requires 0 <= i < |batches| => |batches[i].bounds|)
  }

  function JobSizes(jobs: seq<Job>): (sizes: seq<nat>) {
    seq(|jobs|, i requires 0 <= i < |jobs| => |jobs[i].batch.bounds|)
  }

  ghost function WorkerSize(w: Worker): nat {
    if w.Busy? then Total(BatchSizes(w.pieces)) else 0
  }

  ghost function WorkerSizes(workers: seq<Worker>): (sizes: seq<nat>) {
    seq(|workers|, i requires 0 <= i < |workers| => WorkerSize(workers[i]))
  }

  /** Records counted in `enqueued` and in no other counter yet. */
  ghost function Held(s: State): int {
    Total(CallSizes(s.intake.calls)) + (|s.intake.queue| - s.control.leftover) + |s.sender.bounds|
    + Total(BatchSizes(Stack(s.sender.pc))) + Total(JobSizes(s.uploads.jobs)) + Total(WorkerSizes(s.uploads.workers))
  }

  ghost predicate Conserved(s: State) {
    s.stats.enqueued == s.stats.sent + s.stats.Dropped() + Held(s)
  }

  lemma CallUpdate(calls: seq<CallPhase>, i: nat, p: CallPhase)
    requires i < |calls|
    ensures Total(CallSizes(calls[i := p])) == Total(CallSizes(calls)) - Midway(calls[i]) + Midway(p)
  {
    assert CallSizes(calls[i := p]) == CallSizes(calls)[i := Midway(p)];
    TotalUpdate(CallSizes(calls), i, Midway(p));
  }

  lemma CallAppend(calls: seq<CallPhase>, p: CallPhase)
    ensures Total(CallSizes(calls + [p])) == Total(CallSizes(calls)) + Midway(p)
  {
    assert CallSizes(calls + [p]) == CallSizes(calls) + [Midway(p)];
    TotalConcat(CallSizes(calls), [Midway(p)]);
  }

  /** A call moves to another phase, or begins. */
  lemma CallsSized(c: Config, s: State, a: CallAction)
    requires CallEnabled(c, s, a)
    ensures var t, r := s.intake.calls, CallStep(c, s, a).intake.calls;
      if a.CallRefused? || a.CallBegin?
      then |r| == |t| + 1 && Total(CallSizes(r)) == Total(CallSizes(t)) + Midway(r[|t|])
      else |r| == |t| && Total(CallSizes(r)) == Total(CallSizes(t)) - Midway(t[a.call]) + Midway(r[a.call])
  {
    hide Total, Stats.Lose;
    var t, r := s.intake, CallStep(c, s, a).intake;
    if a.CallRefused? || a.CallBegin? {
      CallAppend(t.calls, r.calls[|t.calls|]);
    } else {
      assert r.calls == t.calls[a.call := r.calls[a.call]];
      CallUpdate(t.calls, a.call, r.calls[a.call]);
    }
  }

  lemma CallKeepsConserved(c: Config, s: State, a: CallAction)
    requires CallEnabled(c, s, a) && Conserved(s)
    ensures Conserved(CallStep(c, s, a))
  {
    hide Total, CallSizes, BatchSizes, JobSizes, WorkerSizes;
    CallsSized(c, s, a);
  }

  lemma SizesConcat(a: seq<Batch>, b: seq<Batch>)
    ensures Total(BatchSizes(a + b)) == Total(BatchSizes(a)) + Total(BatchSizes(b))
  {
    assert BatchSizes(a + b) == BatchSizes(a) + BatchSizes(b);
    TotalConcat(BatchSizes(a), BatchSizes(b));
  }

  lemma SizesFirst(a: seq<Batch>)
    requires a != []
    ensures Total(BatchSizes(a)) == |a[0].bounds| + Total(BatchSizes(a[1..]))
  {
    assert BatchSizes(a)[1..] == BatchSizes(a[1..]);
  }

  lemma HalvesSizes(x: Sets, b: Batch, bl: nat, br: nat, rest: seq<Batch>)
    requires x.Intact(b) && |b.bounds| >= 2
    ensures Total(BatchSizes(Halves(x, b, bl, br) + rest)) == |b.bounds| + Total(BatchSizes(rest))
  {
    HalvesIntact(x, b, bl, br);
    var h := Halves(x, b, bl, br);
    SizesConcat(h, rest);
    SizesFirst(h);
    SizesFirst(h[1..]);
  }

  lemma JobAppend(jobs: seq<Job>, j: Job)
    ensures Total(JobSizes(jobs + [j])) == Total(JobSizes(jobs)) + |j.batch.bounds|
  {
    assert JobSizes(jobs + [j]) == JobSizes(jobs) + [|j.batch.bounds|];
    TotalConcat(JobSizes(jobs), [|j.batch.bounds|]);
  }

  lemma SenderKeepsConserved(c: Config, s: State, a: SenderAction)
    requires SenderEnabled(c, s, a) && Conserved(s) && (s.control.leftover == 0 || s.sender.pc.Gone?)
    ensures Conserved(SenderStep(c, s, a))
  {
    var d, r := s.sender, SenderStep(c, s, a);
    if Stack(d.pc) != [] { SizesFirst(Stack(d.pc)); }
    match a
    case Pack(_, _) =>
      SizesFirst(Stack(r.sender.pc));
    case HandOff => JobAppend(s.uploads.jobs, Job(s.uploads.sends, d.pc.stack[0]));
    case SplitPiece(bl, br) => HalvesSizes(s.sets, d.pc.stack[0], bl, br, d.pc.stack[1..]);
    case _ =>
  }

  lemma WorkerUpdate(workers: seq<Worker>, i: nat, w: Worker)
    requires i < |workers|
    ensures Total(WorkerSizes(workers[i := w])) == Total(WorkerSizes(workers)) - WorkerSize(workers[i]) + WorkerSize(w)
  {
    assert WorkerSizes(workers[i := w]) == WorkerSizes(workers)[i := WorkerSize(w)];
    TotalUpdate(WorkerSizes(workers), i, WorkerSize(w));
  }

  lemma TakeKeepsConserved(c: Config, s: State, i: nat)
    requires WorkerEnabled(c, s, i, Take) && Conserved(s)
    ensures Conserved(WorkerStep(c, s, i, Take))
  {
    var u := s.uploads;
    var j := u.jobs[0];
    WorkerUpdate(u.workers, i, Busy(j.no, j.batch, [j.batch], P.Fine));
    assert JobSizes(u.jobs)[1..] == JobSizes(u.jobs[1..]);
    SizesFirst([j.batch]);
  }

  lemma ResolveKeepsConserved(c: Config, s: State, i: nat, fate: Fate)
    requires WorkerEnabled(c, s, i, Resolve(fate)) && Conserved(s)
    ensures Conserved(WorkerStep(c, s, i, Resolve(fate)))
  {
    var u, t := s.uploads, WorkerStep(c, s, i, Resolve(fate));
    SizesFirst(u.workers[i].pieces);
    WorkerUpdate(u.workers, i, t.uploads.workers[i]);
    assert t.uploads.workers == u.workers[i := t.uploads.workers[i]];
  }

  lemma WorkerKeepsConserved(c: Config, s: State, i: nat, a: WorkerAction)
    requires WorkerEnabled(c, s, i, a) && Conserved(s)
    ensures Conserved(WorkerStep(c, s, i, a))
  {
    var u := s.uploads;
    var w := u.workers[i];
    match a
    case Take => TakeKeepsConserved(c, s, i);
    case Resolve(fate) => ResolveKeepsConserved(c, s, i, fate);
    case SplitUpload(bl, br) =>
      SizesFirst(w.pieces);
      HalvesSizes(s.sets, w.pieces[0], bl, br, w.pieces[1..]);
      WorkerUpdate(u.workers, i, w.(pieces := Halves(s.sets, w.pieces[0], bl, br) + w.pieces[1..]));
    case ReleaseSet(_) => WorkerUpdate(u.workers, i, Reporting(w.no, w.err));
    case Complete => WorkerUpdate(u.workers, i, Idle);
    case Quit_ => WorkerUpdate(u.workers, i, Exited);
  }

  lemma CallerKeepsConserved(c: Config, s: State, a: CallerAction)
    requires CallerEnabled(c, s, a) && Conserved(s)
    requires a.CloseCount? ==> s.control.leftover == 0
    ensures Conserved(CallerStep(c, s, a))
  {
  }
}
