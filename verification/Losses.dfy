/** Why records are lost, read off what happened: each counter is the number of records that
    were offered, sent, or lost to its own cause. */
module Losses {
  import opened Records
  import opened Pipeline
  import opened Ownership
  import opened FlushGuarantee
  import opened Chronicles
  import P = UploadPool

  // ---- the counters ----

  datatype Column = Offered | Uploaded | LostTo(why: Drop)

  /** What the client reports in a column. */
  function Shown(stats: Stats, column: Column): nat {
    match column
    case Offered => stats.enqueued
    case Uploaded => stats.sent
    case LostTo(QueueFull) => stats.queueFull
    case LostTo(Burst) => stats.burst
    case LostTo(Backlog) => stats.backlog
    case LostTo(Rejected) => stats.rejected
    case LostTo(Oversize) => stats.oversize
    case LostTo(Closed) => stats.closed
  }

  /** How many calls have been refused for this reason and are about to count it. */
  function Pending(calls: seq<CallPhase>, column: Column): nat {
    if calls == [] then 0
    else Pending(calls[..|calls| - 1], column) + Awaits(calls[|calls| - 1], column)
  }

  function Awaits(p: CallPhase, column: Column): nat {
    if p.Refusing? && column == LostTo(p.why) then 1 else 0
  }

  // ---- the causes ----

  /** The call found the queue holding `maxQueue` records. */
  predicate FoundFull(c: Config, s: State, a: Action) {
    && a.ByCall? && (a.call.CallFull? || (a.call.CallShed? && a.call.why.QueueFull?))
    && |s.intake.queue| >= c.maxQueue
  }

  /** The limiter refused the call. */
  predicate Limited(a: Action) {
    a.ByCall? && a.call.CallShed? && a.call.why.Burst?
  }

  /** The call came after Close had begun. */
  predicate CameLate(s: State, a: Action) {
    a.ByCall? && a.call.CallRefused? && s.control.done
  }

  /** The call's record cannot fit a request by itself. */
  predicate TooLarge(c: Config, s: State, a: Action) {
    && a.ByCall? && a.call.CallOversize?
    && var i := a.call.call;
    && i < |s.intake.calls| && s.intake.calls[i].Counted? && s.intake.calls[i].buf in s.intake.bufs
    && |s.intake.bufs[s.intake.calls[i].buf]| > c.hardMax
  }

  /** The piece the sender is about to hand off, at a step by which it gives the piece up. */
  function GivenUp(s: State): seq<Bytes> {
    if s.sender.pc.Dispatching? && s.sender.pc.stack != [] then s.sender.pc.stack[0].records else []
  }

  /** The records of the piece a worker has settled. */
  function Settled(s: State, i: nat): seq<Bytes> {
    if i < |s.uploads.workers| && s.uploads.workers[i].Busy? && s.uploads.workers[i].pieces != []
    then s.uploads.workers[i].pieces[0].records
    else []
  }

  /** How many records a step adds to a column. Records are counted where they are: in the call,
      in the accumulation buffer, in the piece, in the queue. */
  ghost function Adds(c: Config, s: State, a: Action, column: Column): nat {
    match column
    case Offered =>
      if a.ByCall? && (CameLate(s, a) || FoundFullEarly(c, s, a) || Limited(a) || a.call.CallCount?) then 1 else 0
    case Uploaded => if a.ByWorker? && a.work == Resolve(Delivered) then |Settled(s, a.worker)| else 0
    case LostTo(QueueFull) => if FoundFull(c, s, a) then 1 else 0
    case LostTo(Burst) => if Limited(a) then 1 else 0
    case LostTo(Backlog) =>
      if a.BySender? && a.send.Abandon? && !s.control.done then |GivenUp(s)| else 0
    case LostTo(Oversize) =>
      if TooLarge(c, s, a) then 1
      else if a.BySender? && a.send.DropOversize? && TopTooBig(c, s.sender.pc) && |GivenUp(s)| == 1 then 1
      else Failing(s, a, Oversize)
    case LostTo(Rejected) =>
      if a.BySender? && a.send.PackFail? then |Cut'(s.sender.buf, s.sender.bounds)|
      else if a.BySender? && a.send.SplitFail? then |GivenUp(s)|
      else Failing(s, a, Rejected)
    case LostTo(Closed) =>
      if CameLate(s, a) then 1
      else if a.BySender? && a.send.Abandon? && s.control.done then |GivenUp(s)|
      else if a == ByCaller(CloseCount) then |s.intake.queue|
      else Failing(s, a, Closed)
  }

  predicate FoundFullEarly(c: Config, s: State, a: Action) {
    FoundFull(c, s, a) && a.call.CallShed?
  }

  /** The records of a piece a worker could not deliver. */
  function Failing(s: State, a: Action, why: Drop): nat {
    if a.ByWorker? && a.work.Resolve? && a.work.fate.Failed? && a.work.fate.why == why then |Settled(s, a.worker)| else 0
  }

  /** How many records a run adds to a column. */
  ghost function Added(c: Config, run: seq<State>, steps: seq<Action>, column: Column): nat
    requires |run| == |steps| + 1
    decreases |steps|
  {
    if steps == [] then 0
    else
      var n := |steps| - 1;
      Added(c, run[..n + 1], steps[..n], column) + Adds(c, run[n], steps[n], column)
  }

  // ---- calls about to count ----

  lemma {:induction false} PendingUpdate(calls: seq<CallPhase>, i: nat, p: CallPhase, column: Column)
    requires i < |calls|
    ensures Pending(calls[i := p], column) == Pending(calls, column) - Awaits(calls[i], column) + Awaits(p, column)
    decreases |calls|
  {
    var n := |calls| - 1;
    var after := calls[i := p];
    if i < n {
      assert after[..n] == calls[..n][i := p];
      PendingUpdate(calls[..n], i, p, column);
    } else {
      assert after[..n] == calls[..n];
    }
  }

  lemma PendingMore(calls: seq<CallPhase>, p: CallPhase, column: Column)
    ensures Pending(calls + [p], column) == Pending(calls, column) + Awaits(p, column)
  {
    assert (calls + [p])[..|calls|] == calls;
  }

  /** What a column shows and what is about to be added to it. */
  function Due(s: State, column: Column): nat {
    Shown(s.stats, column) + Pending(s.intake.calls, column)
  }

  // ---- one step ----

  /** The steps of a call that count nothing. */
  predicate Silent(a: CallAction) {
    a.CallBegin? || a.CallEncode? || a.CallSend? || a.CallPut?
  }

  lemma SilentAdds(c: Config, s: State, a: CallAction, column: Column)
    requires CallEnabled(c, s, a) && Silent(a)
    ensures CallStep(c, s, a).stats == s.stats
    ensures Pending(CallStep(c, s, a).intake.calls, column) == Pending(s.intake.calls, column)
  {
    hide Pending;
    var calls := s.intake.calls;
    match a
    case CallBegin => PendingMore(calls, Passed, column);
    case CallEncode(i, b, _, ok) => PendingUpdate(calls, i, if ok then Holding(b) else PuttingBack(b), column);
    case CallSend(i) => PendingUpdate(calls, i, Returned, column);
    case CallPut(i, _) => PendingUpdate(calls, i, Returned, column);
  }

  lemma RefusalAdds(c: Config, s: State, a: CallAction, column: Column)
    requires CallEnabled(c, s, a) && (a.CallRefused? || a.CallShed? || a.CallTally?)
    ensures Due(CallStep(c, s, a), column) == Due(s, column) + Adds(c, s, ByCall(a), column)
  {
    hide Pending;
    var calls := s.intake.calls;
    match a
    case CallRefused => PendingMore(calls, Refusing(Closed), column);
    case CallShed(i, why) => PendingUpdate(calls, i, Refusing(why), column);
    case CallTally(i) => PendingUpdate(calls, i, Returned, column);
  }

  lemma OfferAdds(c: Config, s: State, a: CallAction, column: Column)
    requires CallEnabled(c, s, a) && (a.CallCount? || a.CallOversize? || a.CallFull?)
    ensures Due(CallStep(c, s, a), column) == Due(s, column) + Adds(c, s, ByCall(a), column)
  {
    hide Pending;
    var calls := s.intake.calls;
    match a
    case CallCount(i) => PendingUpdate(calls, i, Counted(calls[i].buf), column);
    case CallOversize(i) => PendingUpdate(calls, i, PuttingBack(calls[i].buf), column);
    case CallFull(i) => PendingUpdate(calls, i, PuttingBack(calls[i].buf), column);
  }

  lemma CallAdds(c: Config, s: State, a: CallAction, column: Column)
    requires CallEnabled(c, s, a)
    ensures Due(CallStep(c, s, a), column) == Due(s, column) + Adds(c, s, ByCall(a), column)
  {
    hide CallEnabled, CallStep, Pending, Shown;
    if Silent(a) {
      SilentAdds(c, s, a, column);
    } else if a.CallCount? || a.CallOversize? || a.CallFull? {
      OfferAdds(c, s, a, column);
    } else {
      RefusalAdds(c, s, a, column);
    }
  }

  /** A piece holds as many records as it has ends. */
  lemma PieceRecords(x: Sets, b: Batch)
    requires x.Intact(b)
    ensures |b.records| == |b.bounds|
  {
  }

  lemma TopRecords(s: State)
    requires BatchesOk(s) && s.sender.pc.Dispatching? && s.sender.pc.stack != []
    ensures |s.sender.pc.stack[0].records| == |s.sender.pc.stack[0].bounds| >= 1
  {
    hide Sets.Intact;
    var b := s.sender.pc.stack[0];
    assert Safe(s.sets, b, WithSender);
    PieceRecords(s.sets, b);
    assert s.sets.Intact(b) ==> |b.bounds| >= 1 by { Nonempty(s.sets, b); }
  }

  lemma Nonempty(x: Sets, b: Batch)
    ensures x.Intact(b) ==> |b.bounds| >= 1
  {
  }

  lemma SenderAdds(c: Config, s: State, a: SenderAction, column: Column)
    requires SenderEnabled(c, s, a) && BatchesOk(s) && SenderOk(s.sender)
    ensures Due(SenderStep(c, s, a), column) == Due(s, column) + Adds(c, s, BySender(a), column)
  {
    hide Pending, BatchesOk, SenderOk, Due, Adds, SenderEnabled, SenderStep;
    if a.Abandon? || a.DropOversize? || a.SplitFail? {
      DiscardAdds(c, s, a, column);
    } else if a.PackFail? {
      PackFailAdds(c, s, a, column);
    } else {
      SenderCountsNothing(c, s, a, column);
    }
  }

  lemma DiscardAdds(c: Config, s: State, a: SenderAction, column: Column)
    requires SenderEnabled(c, s, a) && BatchesOk(s) && (a.Abandon? || a.DropOversize? || a.SplitFail?)
    ensures Due(SenderStep(c, s, a), column) == Due(s, column) + Adds(c, s, BySender(a), column)
  {
    hide Pending, BatchesOk, Sets.Intact, Sets.Release;
    TopRecords(s);
  }

  lemma PackFailAdds(c: Config, s: State, a: SenderAction, column: Column)
    requires SenderEnabled(c, s, a) && SenderOk(s.sender) && a.PackFail?
    ensures Due(SenderStep(c, s, a), column) == Due(s, column) + Adds(c, s, BySender(a), column)
  {
    hide Pending, SenderOk, Sets.Release, TakeSet, Obtainable, Bounded, Cut';
    BufferRecords(s.sender);
  }

  /** The rest of what the sender does counts nothing. */
  lemma SenderCountsNothing(c: Config, s: State, a: SenderAction, column: Column)
    requires SenderEnabled(c, s, a) && !a.Abandon? && !a.DropOversize? && !a.SplitFail? && !a.PackFail?
    ensures Due(SenderStep(c, s, a), column) == Due(s, column) && Adds(c, s, BySender(a), column) == 0
  {
    hide Pending, Shown, Sets.Intact, Halves, Sets.Release, Sets.Give, TakeSet, Obtainable, Full, Cut';
    hide P.OnDispatch, P.OnAwait, P.OnShutdown;
  }

  lemma BufferRecords(d: Sender)
    requires SenderOk(d)
    ensures |Cut'(d.buf, d.bounds)| == |d.bounds|
  {
  }

  lemma WorkerAdds(c: Config, s: State, i: nat, a: WorkerAction, column: Column)
    requires WorkerEnabled(c, s, i, a) && BatchesOk(s)
    ensures Due(WorkerStep(c, s, i, a), column) == Due(s, column) + Adds(c, s, ByWorker(i, a), column)
  {
    hide Pending, BatchesOk, Due, Adds, WorkerEnabled, WorkerStep;
    if a.Resolve? {
      ResolveAdds(c, s, i, a, column);
    } else {
      WorkerCountsNothing(c, s, i, a, column);
    }
  }

  lemma ResolveAdds(c: Config, s: State, i: nat, a: WorkerAction, column: Column)
    requires WorkerEnabled(c, s, i, a) && BatchesOk(s) && a.Resolve?
    ensures Due(WorkerStep(c, s, i, a), column) == Due(s, column) + Adds(c, s, ByWorker(i, a), column)
  {
    hide Pending, BatchesOk;
    WorkerRecords(s, i);
  }

  lemma WorkerCountsNothing(c: Config, s: State, i: nat, a: WorkerAction, column: Column)
    requires WorkerEnabled(c, s, i, a) && !a.Resolve?
    ensures Due(WorkerStep(c, s, i, a), column) == Due(s, column) && Adds(c, s, ByWorker(i, a), column) == 0
  {
    hide Pending, Shown, Sets.Intact, Halves, Sets.Release, P.OnComplete;
  }

  lemma WorkerRecords(s: State, i: nat)
    requires BatchesOk(s) && i < |s.uploads.workers|
    requires s.uploads.workers[i].Busy? && s.uploads.workers[i].pieces != []
    ensures var b := s.uploads.workers[i].pieces[0]; |b.records| == |b.bounds|
  {
    hide Sets.Intact;
    var w := s.uploads.workers[i];
    assert WorkerOk(s.sets, w);
    PieceRecords(s.sets, w.pieces[0]);
  }

  lemma CallerAdds(c: Config, s: State, a: CallerAction, column: Column)
    requires CallerEnabled(c, s, a)
    ensures Due(CallerStep(c, s, a), column) == Due(s, column) + Adds(c, s, ByCaller(a), column)
  {
    hide Pending;
  }

  /** A step adds to each column what was offered, sent, or lost to that cause in it. */
  lemma StepAdds(c: Config, s: State, a: Action, column: Column)
    requires Enabled(c, s, a) && Inv(c, s)
    ensures Due(Step(c, s, a), column) == Due(s, column) + Adds(c, s, a, column)
  {
    hide Due, Adds, CallStep, SenderStep, WorkerStep, CallerStep, BatchesOk, SenderOk;
    hide CallEnabled, SenderEnabled, WorkerEnabled, CallerEnabled;
    match a
    case ByCall(x) => CallAdds(c, s, x, column);
    case BySender(x) => SenderAdds(c, s, x, column);
    case ByWorker(i, x) => WorkerAdds(c, s, i, x, column);
    case ByCaller(x) => CallerAdds(c, s, x, column);
  }

  // ---- whole runs ----

  lemma NothingDue(c: Config, column: Column)
    ensures Due(Init(c), column) == 0
  {
  }

  /** In every run, each of the eight counters is the number of records offered, sent, or lost to
      its own cause, but for the calls that have been refused and are about to say so. */
  lemma {:induction false} EachForItsCause(c: Config, run: seq<State>, steps: seq<Action>, column: Column)
    requires c.Valid() && Chronicle(c, run, steps)
    ensures var s := run[|steps|];
      Shown(s.stats, column) + Pending(s.intake.calls, column) == Added(c, run, steps, column)
    decreases |steps|
  {
    hide Inv, Enabled, Step, Adds, Shown, Pending;
    if steps == [] {
      NothingDue(c, column);
    } else {
      var n := |steps| - 1;
      LastStep(c, run, steps);
      EachForItsCause(c, run[..n + 1], steps[..n], column);
      ChronicleKeepsInv(c, run[..n + 1], steps[..n]);
      StepAdds(c, run[n], steps[n], column);
    }
  }

  // ---- a full queue ----

  /** A call that finds no room in the queue raises `queueFull` by one and no other counter. */
  lemma FullRaisesQueueFull(c: Config, s: State, i: nat)
    requires Enabled(c, s, ByCall(CallFull(i)))
    ensures |s.intake.queue| >= c.maxQueue
    ensures var x, y := s.stats, Step(c, s, ByCall(CallFull(i))).stats;
      && y.queueFull == x.queueFull + 1
      && y.enqueued == x.enqueued && y.sent == x.sent && y.burst == x.burst && y.backlog == x.backlog
      && y.rejected == x.rejected && y.oversize == x.oversize && y.closed == x.closed
  {
  }

  /** And `queueFull` rises in no other way than by a call that finds, or a moment ago found, the
      queue full. */
  lemma OnlyFullRaisesIt(c: Config, s: State, a: Action)
    requires Enabled(c, s, a) && Step(c, s, a).stats.queueFull != s.stats.queueFull
    ensures Step(c, s, a).stats.queueFull == s.stats.queueFull + 1 && a.ByCall?
    ensures (a.call.CallFull? && |s.intake.queue| >= c.maxQueue)
      || (a.call.CallTally? && s.intake.calls[a.call.call] == Refusing(QueueFull))
  {
  }

  lemma StepKeepsQueueShort(c: Config, s: State, a: Action)
    requires Enabled(c, s, a) && |s.intake.queue| <= c.maxQueue
    ensures |Step(c, s, a).intake.queue| <= c.maxQueue
  {
  }

  /** The queue never holds more than `maxQueue` records. */
  lemma {:induction false} QueueIsBounded(c: Config, run: seq<State>, steps: seq<Action>)
    requires Chronicle(c, run, steps)
    ensures |run[|steps|].intake.queue| <= c.maxQueue
    decreases |steps|
  {
    hide Enabled, Step;
    if steps != [] {
      var n := |steps| - 1;
      LastStep(c, run, steps);
      QueueIsBounded(c, run[..n + 1], steps[..n]);
      StepKeepsQueueShort(c, run[n], steps[n]);
    }
  }
}
