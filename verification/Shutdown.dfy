/** Shutdown. Apart from report ticks and callers that only now arrive, every step of the
    pipeline uses up a finite amount of work; and once Close has signalled the sender,
    some step of the sender or a worker is possible until the sender has gone. */
module Shutdown {
  import opened Records
  import opened Pipeline
  import opened Ownership
  import opened Fifo
  import opened FlushSafety
  import opened FlushGuarantee
  import opened PipelineTheorems

  // ---- the work still to do ----

  /** A batch of n records can be dispatched in at most 2n-1 pieces, splits included. */
  function PieceWork(b: Batch): nat {
    if b.bounds == [] then 0 else 2 * |b.bounds| - 1
  }

  function PieceWorks(batches: seq<Batch>): (r: seq<nat>) {
    seq(|batches|, i requires 0 <= i < |batches| => PieceWork(batches[i]))
  }

  function JobWorks(jobs: seq<Job>): (r: seq<nat>) {
    seq(|jobs|, i requires 0 <= i < |jobs| => PieceWork(jobs[i].batch) + 4)
  }

  ghost function WorkerWork(w: Worker): nat {
    match w
    case Idle => 1
    case Busy(_, _, pieces, _) => 3 + Total(PieceWorks(pieces))
    case Reporting(_, _) => 2
    case Exited => 0
  }

  ghost function WorkerWorks(workers: seq<Worker>): (r: seq<nat>) {
    seq(|workers|, i requires 0 <= i < |workers| => WorkerWork(workers[i]))
  }

  function CallWork(p: CallPhase): nat {
    match p
    case Passed => 35
    case Holding(_) => 33
    case Counted(_) => 32
    case Refusing(_) => 1
    case PuttingBack(_) => 1
    case Returned => 0
  }

  function CallWorks(calls: seq<CallPhase>): (r: seq<nat>) {
    seq(|calls|, i requires 0 <= i < |calls| => CallWork(calls[i]))
  }

  function FlushWork(f: Flush): nat {
    (match f.phase case Offering => 60 case Waiting => 1 case Back => 0) + (if f.expired then 0 else 1)
  }

  function FlushWorks(flushes: seq<Flush>): (r: seq<nat>) {
    seq(|flushes|, i requires 0 <= i < |flushes| => FlushWork(flushes[i]))
  }

  function NextWork(next: Then): nat {
    match next
    case ToSelect => 20
    case ToDrain(goal) => if goal.Quit? then 15 else 35
    case ToGoal(goal) => if goal.Quit? then 10 else 25
  }

  ghost function PcWork(pc: SenderPc): nat {
    match pc
    case Selecting => 20
    case Draining(goal) => if goal.Quit? then 15 else 35
    case Flushing(_, next) => NextWork(next) + 2
    case Dispatching(stack, _, next) => NextWork(next) + 1 + 8 * Total(PieceWorks(stack))
    case Recording(stack, _, next) => NextWork(next) + 2 + 8 * Total(PieceWorks(stack))
    case Answering(_) => 25
    case Stopping => 10
    case Joining => 9
    case Leaving => 5
    case Gone => 0
  }

  function BufWork(d: Sender): nat {
    16 * |d.bounds| + (if d.pc.Flushing? || d.bounds == [] then 0 else 5)
  }

  function CloserWork(k: Control): nat {
    (match k.closer
     case NotClosed => 200 case DoneClosed => 150 case CloseFlush(_) => 80
     case ShutdownClosed => 50 case Joined => 40 case CloseReturned => 0)
    + (if k.cancelled then 0 else 1)
  }

  /** A bound on the steps that are left. */
  ghost function Work(s: State): nat {
    Total(CallWorks(s.intake.calls)) + 30 * |s.intake.queue| + PcWork(s.sender.pc) + BufWork(s.sender)
    + Total(JobWorks(s.uploads.jobs)) + Total(WorkerWorks(s.uploads.workers))
    + Total(FlushWorks(s.control.flushes)) + CloserWork(s.control)
  }

  /** Report ticks, and calls that begin. */
  predicate External(a: Action) {
    a == BySender(ReportTick) || a == ByCall(CallRefused) || a == ByCall(CallBegin) || a == ByCaller(FlushBegin)
  }

  // ---- every other step uses up work ----

  lemma CallWorkUpdate(calls: seq<CallPhase>, i: nat, p: CallPhase)
    requires i < |calls|
    ensures Total(CallWorks(calls[i := p])) == Total(CallWorks(calls)) - CallWork(calls[i]) + CallWork(p)
  {
    assert CallWorks(calls[i := p]) == CallWorks(calls)[i := CallWork(p)];
    TotalUpdate(CallWorks(calls), i, CallWork(p));
  }

  lemma FlushWorkUpdate(fs: seq<Flush>, i: nat, f: Flush)
    requires i < |fs|
    ensures Total(FlushWorks(fs[i := f])) == Total(FlushWorks(fs)) - FlushWork(fs[i]) + FlushWork(f)
  {
    assert FlushWorks(fs[i := f]) == FlushWorks(fs)[i := FlushWork(f)];
    TotalUpdate(FlushWorks(fs), i, FlushWork(f));
  }

  lemma WorkerWorkUpdate(workers: seq<Worker>, i: nat, w: Worker)
    requires i < |workers|
    ensures Total(WorkerWorks(workers[i := w])) == Total(WorkerWorks(workers)) - WorkerWork(workers[i]) + WorkerWork(w)
  {
    assert WorkerWorks(workers[i := w]) == WorkerWorks(workers)[i := WorkerWork(w)];
    TotalUpdate(WorkerWorks(workers), i, WorkerWork(w));
  }

  lemma PieceWorkFirst(batches: seq<Batch>)
    requires batches != []
    ensures Total(PieceWorks(batches)) == PieceWork(batches[0]) + Total(PieceWorks(batches[1..]))
  {
    assert PieceWorks(batches)[1..] == PieceWorks(batches[1..]);
  }

  lemma HalvesWork(x: Sets, b: Batch, bl: nat, br: nat, rest: seq<Batch>)
    requires x.Intact(b) && |b.bounds| >= 2
    ensures Total(PieceWorks(Halves(x, b, bl, br) + rest)) == PieceWork(b) - 1 + Total(PieceWorks(rest))
  {
    HalvesIntact(x, b, bl, br);
    var h := Halves(x, b, bl, br);
    var all := h + rest;
    assert all[1..] == h[1..] + rest && all[1..][1..] == rest;
    PieceWorkFirst(all);
    PieceWorkFirst(all[1..]);
  }

  lemma CallUsesWork(c: Config, s: State, a: CallAction)
    requires CallEnabled(c, s, a) && !External(ByCall(a))
    ensures Work(CallStep(c, s, a)) < Work(s)
  {
    hide FlushWorks, WorkerWorks, JobWorks, PcWork, BufWork, CloserWork, Stats.Lose, Total, CallWorks;
    var t := CallStep(c, s, a);
    CallWorkUpdate(s.intake.calls, a.call, t.intake.calls[a.call]);
    assert t.intake.calls == s.intake.calls[a.call := t.intake.calls[a.call]];
  }

  lemma FlushCallerUsesWork(c: Config, s: State, a: CallerAction)
    requires CallerEnabled(c, s, a) && (a.FlushExpire? || a.FlushRefused? || a.FlushGiveUp? || a.FlushReply?)
    ensures Work(CallerStep(c, s, a)) < Work(s)
  {
    var t := CallerStep(c, s, a);
    FlushWorkUpdate(s.control.flushes, a.request, t.control.flushes[a.request]);
    assert t.control.flushes == s.control.flushes[a.request := t.control.flushes[a.request]];
  }

  lemma CloserUsesWork(c: Config, s: State, a: CallerAction)
    requires CallerEnabled(c, s, a) && !External(ByCaller(a))
    requires !a.FlushExpire? && !a.FlushRefused? && !a.FlushGiveUp? && !a.FlushReply?
    ensures Work(CallerStep(c, s, a)) < Work(s)
  {
    if a == CloseOffer {
      var fs := s.control.flushes;
      assert FlushWorks(fs + [NEW_FLUSH]) == FlushWorks(fs) + [61];
      TotalConcat(FlushWorks(fs), [61]);
    }
  }

  lemma CallerUsesWork(c: Config, s: State, a: CallerAction)
    requires CallerEnabled(c, s, a) && !External(ByCaller(a))
    ensures Work(CallerStep(c, s, a)) < Work(s)
  {
    if a.FlushExpire? || a.FlushRefused? || a.FlushGiveUp? || a.FlushReply? {
      FlushCallerUsesWork(c, s, a);
    } else {
      CloserUsesWork(c, s, a);
    }
  }

  /** A step of worker i: its work is its own and the jobs'. */
  lemma WorkOfWorker(s: State, t: State, i: nat, w: Worker)
    requires i < |s.uploads.workers| && t.uploads.workers == s.uploads.workers[i := w]
    requires t.intake == s.intake && t.sender == s.sender && t.control == s.control
    ensures Work(t) - Work(s) == WorkerWork(w) - WorkerWork(s.uploads.workers[i])
                                 + Total(JobWorks(t.uploads.jobs)) - Total(JobWorks(s.uploads.jobs))
  {
    hide CallWorks, WorkerWorks, FlushWorks, JobWorks, PcWork, BufWork, CloserWork, Total, WorkerWork;
    WorkerWorkUpdate(s.uploads.workers, i, w);
  }

  lemma TakeUsesWork(c: Config, s: State, i: nat)
    requires WorkerEnabled(c, s, i, Take)
    ensures Work(WorkerStep(c, s, i, Take)) < Work(s)
  {
    hide Work, PieceWork, PieceWorks;
    var jobs, t := s.uploads.jobs, WorkerStep(c, s, i, Take);
    WorkOfWorker(s, t, i, t.uploads.workers[i]);
    assert JobWorks(jobs)[1..] == JobWorks(jobs[1..]);
    OnePieceWork([jobs[0].batch]);
  }

  lemma PieceUsesWork(c: Config, s: State, i: nat, a: WorkerAction)
    requires WorkerEnabled(c, s, i, a) && (a.Resolve? || a.SplitUpload?) && BatchesOk(s)
    ensures Work(WorkerStep(c, s, i, a)) < Work(s)
  {
    hide Work, PieceWorks, Total, JobWorks, Halves, Stats.Lose, Safe;
    var pieces, t := s.uploads.workers[i].pieces, WorkerStep(c, s, i, a);
    assert WorkerOk(s.sets, s.uploads.workers[i]);
    WorkOfWorker(s, t, i, t.uploads.workers[i]);
    PieceWorkFirst(pieces);
    if a.SplitUpload? {
      HalvesWork(s.sets, pieces[0], a.bodyLeft, a.bodyRight, pieces[1..]);
    }
  }

  lemma WorkerUsesWork(c: Config, s: State, i: nat, a: WorkerAction)
    requires WorkerEnabled(c, s, i, a) && BatchesOk(s)
    ensures Work(WorkerStep(c, s, i, a)) < Work(s)
  {
    hide Work, JobWorks, BatchesOk, PieceWorks;
    match a
    case Take => TakeUsesWork(c, s, i);
    case Resolve(_) => PieceUsesWork(c, s, i, a);
    case SplitUpload(_, _) => PieceUsesWork(c, s, i, a);
    case _ =>
      var t := WorkerStep(c, s, i, a);
      WorkOfWorker(s, t, i, t.uploads.workers[i]);
  }

  lemma OnePieceWork(stack: seq<Batch>)
    requires |stack| == 1
    ensures Total(PieceWorks(stack)) == PieceWork(stack[0])
  {
    PieceWorkFirst(stack);
  }

  lemma JobWorkAppend(jobs: seq<Job>, j: Job)
    ensures Total(JobWorks(jobs + [j])) == Total(JobWorks(jobs)) + PieceWork(j.batch) + 4
  {
    assert JobWorks(jobs + [j]) == JobWorks(jobs) + [PieceWork(j.batch) + 4];
    TotalConcat(JobWorks(jobs), [PieceWork(j.batch) + 4]);
  }

  predicate Dispatches(a: SenderAction) {
    a.HandOff? || a.Abandon? || a.DropOversize? || a.SplitPiece? || a.SplitFail?
  }

  /** A step that moves no record and no request: its work is the sender's own and the jobs'. */
  lemma WorkOfSender(s: State, t: State)
    requires t.intake.calls == s.intake.calls && |t.intake.queue| == |s.intake.queue|
    requires t.uploads.workers == s.uploads.workers && t.control.flushes == s.control.flushes
    requires t.control.closer == s.control.closer && t.control.cancelled == s.control.cancelled
    ensures Work(t) - Work(s) == PcWork(t.sender.pc) - PcWork(s.sender.pc) + BufWork(t.sender) - BufWork(s.sender)
                                 + Total(JobWorks(t.uploads.jobs)) - Total(JobWorks(s.uploads.jobs))
  {
    hide CallWorks, WorkerWorks, FlushWorks, JobWorks, PcWork, BufWork, Total;
  }

  /** Taking the top piece off the stack, whatever becomes of it. */
  lemma PopWork(c: Config, s: State, a: SenderAction)
    requires SenderEnabled(c, s, a) && Dispatches(a) && !a.SplitPiece? && a != HandOff && BatchesOk(s)
    ensures Work(SenderStep(c, s, a)) < Work(s)
  {
    hide Work, JobWorks, Total, BatchesOk, Sets.Give, Sets.Release, Sets.Intact, Stats.Lose, PieceWorks;
    var stack, t := s.sender.pc.stack, SenderStep(c, s, a);
    TopWork(s, stack);
    WorkOfSender(s, t);
  }

  /** A piece has work to it. */
  lemma TopWork(s: State, stack: seq<Batch>)
    requires BatchesOk(s) && stack == Stack(s.sender.pc) && stack != []
    ensures PieceWork(stack[0]) >= 1
    ensures Total(PieceWorks(stack)) == PieceWork(stack[0]) + Total(PieceWorks(stack[1..]))
  {
    PieceWorkFirst(stack);
    assert Safe(s.sets, stack[0], WithSender);
    hide JobsOk, WorkersOk, SetsOk;
  }

  lemma HandOffUsesWork(c: Config, s: State)
    requires SenderEnabled(c, s, HandOff) && BatchesOk(s)
    ensures Work(SenderStep(c, s, HandOff)) < Work(s)
  {
    hide Work, JobWorks, Total, BatchesOk, Sets.Give, PieceWorks, PieceWork;
    var stack, t := s.sender.pc.stack, SenderStep(c, s, HandOff);
    TopWork(s, stack);
    WorkOfSender(s, t);
    JobWorkAppend(s.uploads.jobs, Job(s.uploads.sends, stack[0]));
  }

  lemma SplitUsesWork(c: Config, s: State, bl: nat, br: nat)
    requires SenderEnabled(c, s, SplitPiece(bl, br)) && BatchesOk(s)
    ensures Work(SenderStep(c, s, SplitPiece(bl, br))) < Work(s)
  {
    hide Work, JobWorks, Total, BatchesOk, Sets.Give, Sets.Intact, PieceWorks, Halves;
    var stack, t := s.sender.pc.stack, SenderStep(c, s, SplitPiece(bl, br));
    TopWork(s, stack);
    WorkOfSender(s, t);
    HalvesWork(s.sets, stack[0], bl, br, stack[1..]);
  }

  lemma DispatchUsesWork(c: Config, s: State, a: SenderAction)
    requires SenderEnabled(c, s, a) && Dispatches(a) && BatchesOk(s)
    ensures Work(SenderStep(c, s, a)) < Work(s)
  {
    hide Work, SenderStep, BatchesOk;
    match a
    case HandOff => HandOffUsesWork(c, s);
    case SplitPiece(bl, br) => SplitUsesWork(c, s, bl, br);
    case _ => PopWork(c, s, a);
  }

  lemma PackUsesWork(c: Config, s: State, a: SenderAction)
    requires SenderEnabled(c, s, a) && (a.Pack? || a.PackFail?) && SenderOk(s.sender)
    ensures Work(SenderStep(c, s, a)) < Work(s)
  {
    hide Work, JobWorks, Total, PieceWorks, Cut', TakeSet, Stats.Lose, Sets.Release, Bounded;
    var t := SenderStep(c, s, a);
    WorkOfSender(s, t);
    if a.Pack? {
      OnePieceWork(Stack(t.sender.pc));
    }
  }

  lemma EmptyStackWork(stack: seq<Batch>)
    requires stack == []
    ensures Total(PieceWorks(stack)) == 0
  {
  }

  lemma AbsorbUsesWork(c: Config, s: State, a: SenderAction)
    requires SenderEnabled(c, s, a) && (a.Receive? || a.DrainReceive?)
    ensures Work(SenderStep(c, s, a)) < Work(s)
  {
    hide CallWorks, WorkerWorks, FlushWorks, JobWorks, CloserWork, Total, PieceWorks, Full;
  }

  lemma MoveUsesWork(c: Config, s: State, a: SenderAction)
    requires SenderEnabled(c, s, a) && !Dispatches(a) && !a.TakeFlush? && !a.Register? && a != ReportTick
    requires !a.Pack? && !a.PackFail? && !a.Receive? && !a.DrainReceive?
    ensures Work(SenderStep(c, s, a)) < Work(s)
  {
    hide Work, JobWorks, Total, PieceWorks, P.OnShutdown, P.OnDispatch;
    var t := SenderStep(c, s, a);
    WorkOfSender(s, t);
    if a == Dispatched {
      EmptyStackWork(Stack(s.sender.pc));
    }
  }

  lemma AssemblyUsesWork(c: Config, s: State, a: SenderAction)
    requires SenderEnabled(c, s, a) && !Dispatches(a) && !a.TakeFlush? && !a.Register? && a != ReportTick
    requires SenderOk(s.sender)
    ensures Work(SenderStep(c, s, a)) < Work(s)
  {
    hide Work, SenderStep, SenderOk;
    if a.Pack? || a.PackFail? {
      PackUsesWork(c, s, a);
    } else if a.Receive? || a.DrainReceive? {
      AbsorbUsesWork(c, s, a);
    } else {
      MoveUsesWork(c, s, a);
    }
  }

  lemma RequestUsesWork(c: Config, s: State, a: SenderAction)
    requires SenderEnabled(c, s, a) && (a.TakeFlush? || a.Register?)
    ensures Work(SenderStep(c, s, a)) < Work(s)
  {
    var r, t := if a.Register? then s.sender.pc.request else a.request, SenderStep(c, s, a);
    FlushWorkUpdate(s.control.flushes, r, t.control.flushes[r]);
    assert t.control.flushes == s.control.flushes[r := t.control.flushes[r]];
  }

  lemma SenderUsesWork(c: Config, s: State, a: SenderAction)
    requires SenderEnabled(c, s, a) && !External(BySender(a)) && BatchesOk(s) && SenderOk(s.sender)
    ensures Work(SenderStep(c, s, a)) < Work(s)
  {
    if Dispatches(a) {
      DispatchUsesWork(c, s, a);
    } else if a.TakeFlush? || a.Register? {
      RequestUsesWork(c, s, a);
    } else {
      AssemblyUsesWork(c, s, a);
    }
  }

  /** Every step except a tick or an arrival uses up work. */
  lemma StepUsesWork(c: Config, s: State, a: Action)
    requires Enabled(c, s, a) && Inv(c, s) && !External(a)
    ensures Work(Step(c, s, a)) < Work(s)
  {
    match a
    case ByCall(x) => CallUsesWork(c, s, x);
    case BySender(x) => SenderUsesWork(c, s, x);
    case ByWorker(i, x) => WorkerUsesWork(c, s, i, x);
    case ByCaller(x) => CallerUsesWork(c, s, x);
  }

  // ---- and some step is always possible ----

  /** A worker that has not exited can take a step while there are jobs or the jobs channel
      is closed. */
  lemma WorkerMove(c: Config, s: State, i: nat) returns (a: Action)
    requires Inv(c, s) && i < |s.uploads.workers| && !s.uploads.workers[i].Exited?
    requires s.uploads.jobs != [] || s.uploads.jobsClosed
    ensures a.ByWorker? && Enabled(c, s, a)
  {
    var w := s.uploads.workers[i];
    assert WorkerOk(s.sets, w);
    match w
    case Idle => a := ByWorker(i, if s.uploads.jobs != [] then Take else Quit_);
    case Busy(_, _, pieces, _) => a := ByWorker(i, if pieces == [] then ReleaseSet(true) else Resolve(Delivered));
    case Reporting(_, _) => a := ByWorker(i, Complete);
  }

  /** A piece on the stack that fits, or can be dropped or split. */
  lemma PieceMove(c: Config, s: State) returns (a: Action)
    requires BatchesOk(s) && s.sender.pc.Dispatching? && s.sender.pc.stack != []
    requires s.sender.pc.stack[0].bodyLen <= c.hardMax ==> |s.uploads.jobs| < c.workers
    ensures a.BySender? && !External(a) && Enabled(c, s, a)
  {
    var b := s.sender.pc.stack[0];
    assert Safe(s.sets, b, WithSender);
    a := BySender(if b.bodyLen <= c.hardMax then HandOff else if |b.bounds| < 2 then DropOversize(true) else SplitPiece(0, 0));
  }

  lemma DispatchMove(c: Config, s: State) returns (a: Action)
    requires Inv(c, s) && s.sender.pc.Dispatching?
    ensures (a.BySender? || a.ByWorker?) && !External(a) && Enabled(c, s, a)
  {
    hide IntakeOk, BatchesOk, NumbersOk, SenderOk, FifoOk, Conserved, PoolOk, CoverOk, MarksOk, InOrder, HonestOk, CloseOk;
    if s.sender.pc.stack == [] {
      a := BySender(Dispatched);
    } else if s.sender.pc.stack[0].bodyLen <= c.hardMax && |s.uploads.jobs| >= c.workers {
      assert !s.uploads.workers[0].Exited?;
      a := WorkerMove(c, s, 0);
    } else {
      a := PieceMove(c, s);
    }
  }

  /** Steps the sender can take whatever the rest of the state is. */
  lemma OwnMove(c: Config, s: State) returns (a: Action)
    requires s.control.shutdown
    requires s.sender.pc.Selecting? || s.sender.pc.Recording? || s.sender.pc.Stopping? || s.sender.pc.Leaving?
    ensures a.BySender? && !External(a) && Enabled(c, s, a)
  {
    match s.sender.pc
    case Selecting => a := BySender(SeeShutdown);
    case Recording(_, _, _) => a := BySender(Record);
    case Stopping => a := BySender(CloseJobs);
    case Leaving => a := BySender(Exit);
  }

  lemma DrainMove(c: Config, s: State) returns (a: Action)
    requires s.sender.pc.Draining? && IntakeOk(s.intake)
    ensures a.BySender? && !External(a) && Enabled(c, s, a)
  {
    a := BySender(if s.intake.queue == [] then DrainEmpty else DrainReceive(true));
  }

  lemma AnswerMove(c: Config, s: State) returns (a: Action)
    requires s.sender.pc.Answering? && PoolOk(s)
    ensures a.BySender? && !External(a) && Enabled(c, s, a)
  {
    assert Serving(s.sender.pc, s.sender.pc.request);
    a := BySender(Register);
  }

  lemma JoinMove(c: Config, s: State) returns (a: Action)
    requires s.sender.pc.Joining? && Inv(c, s)
    ensures (a.BySender? || a.ByWorker?) && !External(a) && Enabled(c, s, a)
  {
    hide IntakeOk, BatchesOk, NumbersOk, SenderOk, FifoOk, Conserved, PoolOk, CoverOk, MarksOk, InOrder, HonestOk, CloseOk;
    if i :| 0 <= i < |s.uploads.workers| && !s.uploads.workers[i].Exited? {
      a := WorkerMove(c, s, i);
    } else {
      a := BySender(FinishPool);
    }
  }

  /** Once Close has closed the shutdown channel the sender never gets stuck: it, or a
      worker it waits for, can move until it has gone. */
  lemma NextMove(c: Config, s: State) returns (a: Action)
    requires Inv(c, s) && s.control.shutdown && !s.sender.pc.Gone?
    ensures (a.BySender? || a.ByWorker?) && !External(a) && Enabled(c, s, a)
  {
    hide Enabled, External, IntakeOk, BatchesOk, NumbersOk, SenderOk, FifoOk, Conserved, ControlOk, PoolOk;
    hide CoverOk, MarksOk, InOrder, HonestOk, CloseOk;
    match s.sender.pc
    case Draining(_) => a := DrainMove(c, s);
    case Flushing(_, _) => a := FlushMove(c, s);
    case Dispatching(_, _, _) => a := DispatchMove(c, s);
    case Answering(_) => a := AnswerMove(c, s);
    case Joining => a := JoinMove(c, s);
    case _ => a := OwnMove(c, s);
  }

  lemma FlushMove(c: Config, s: State) returns (a: Action)
    requires s.sender.pc.Flushing?
    ensures a.BySender? && !External(a) && Enabled(c, s, a)
  {
    var id := Fresh(s.sets.raw.Keys);
    a := BySender(Pack(id, 0));
  }

  /** A set that has never been used. */
  lemma Fresh(used: set<nat>) returns (id: nat)
    ensures id !in used
  {
    id := Highest(used) + 1;
    if id in used { HighestBounds(used, id); }
  }

  ghost function Highest(used: set<nat>): nat {
    if used == {} then 0
    else
      var x :| x in used;
      if Highest(used - {x}) > x then Highest(used - {x}) else x
  }

  lemma HighestBounds(used: set<nat>, y: nat)
    requires y in used
    ensures y <= Highest(used)
  {
    var x :| x in used && Highest(used) == if Highest(used - {x}) > x then Highest(used - {x}) else x;
    if y != x { HighestBounds(used - {x}, y); }
  }

  // ---- runs ----

  ghost predicate QuietNext(c: Config, s: State, t: State) {
    exists a :: Enabled(c, s, a) && !External(a) && t == Step(c, s, a)
  }

  /** States joined by steps that are neither ticks nor arrivals. */
  ghost predicate QuietRun(c: Config, run: seq<State>) {
    run != [] && forall i :: 0 < i < |run| ==> QuietNext(c, run[i - 1], run[i])
  }

  lemma QuietStepKeepsInv(c: Config, s: State, t: State)
    requires QuietNext(c, s, t) && Inv(c, s)
    ensures Inv(c, t)
  {
    var a :| Enabled(c, s, a) && !External(a) && t == Step(c, s, a);
    StepKeepsInv(c, s, a);
  }

  /** What every quiet step keeps, every quiet run keeps. */
  lemma {:induction false} QuietRunKeeps(c: Config, run: seq<State>, n: nat, keeps: State -> bool)
    requires QuietRun(c, run) && keeps(run[0]) && n < |run|
    requires forall s, t :: keeps(s) && QuietNext(c, s, t) ==> keeps(t)
    ensures keeps(run[n])
  {
    if n > 0 {
      QuietRunKeeps(c, run, n - 1, keeps);
    }
  }

  lemma QuietRunKeepsInv(c: Config, run: seq<State>, n: nat)
    requires QuietRun(c, run) && Inv(c, run[0]) && n < |run|
    ensures Inv(c, run[n])
  {
    var keeps := s => Inv(c, s);
    forall s, t | keeps(s) && QuietNext(c, s, t) ensures keeps(t) {
      QuietStepKeepsInv(c, s, t);
    }
    QuietRunKeeps(c, run, n, keeps);
  }

  lemma QuietStepUsesWork(c: Config, s: State, t: State)
    requires QuietNext(c, s, t) && Inv(c, s)
    ensures Work(t) < Work(s)
  {
    var a :| Enabled(c, s, a) && !External(a) && t == Step(c, s, a);
    StepUsesWork(c, s, a);
  }

  /** A run without ticks and arrivals takes at most `Work` steps from where it begins; a
      longer one does not exist, whatever the schedule. */
  lemma {:induction false} QuietRunsEnd(c: Config, run: seq<State>, n: nat)
    requires QuietRun(c, run) && Inv(c, run[0]) && n < |run|
    ensures n + Work(run[n]) <= Work(run[0])
  {
    hide Inv, Work, QuietNext;
    if n > 0 {
      QuietRunsEnd(c, run, n - 1);
      QuietRunKeepsInv(c, run, n - 1);
      QuietStepUsesWork(c, run[n - 1], run[n]);
    }
  }

  /** Only ticks and arrivals are possible. */
  ghost predicate AtRest(c: Config, s: State) {
    forall t :: !QuietNext(c, s, t)
  }

  /** A run that has been shut down and cannot go on quietly has ended: the sender is gone. */
  lemma AtRestMeansGone(c: Config, s: State)
    requires Inv(c, s) && s.control.shutdown && AtRest(c, s)
    ensures s.sender.pc.Gone?
  {
    if !s.sender.pc.Gone? {
      var a := NextMove(c, s);
      assert QuietNext(c, s, Step(c, s, a));
    }
  }
}
