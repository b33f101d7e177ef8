/** The delivery pipeline as a step machine. Any number of Enqueue, Flush and Close
    callers, one sender and `workers` upload workers take atomic steps in any order; a
    step is one channel operation, one atomic add or one critical section together with
    the private work up to the next one. The server, the clock, cancellation, admission
    control and compression appear as the arguments of an action: any value may be chosen.

    Record buffers and batch buffer sets live in a memory that is really reused, so a
    batch's records are whatever bytes its range holds when somebody reads them. */
module Pipeline {
  import opened Records
  import P = UploadPool

  datatype Config = Config(batchSize: nat, maxBatchBytes: nat, maxQueue: nat, workers: nat, hardMax: nat)
  {
    /** What NewClient validates. */
    predicate Valid() {
      batchSize >= 1 && maxBatchBytes >= 1 && maxQueue >= 1 && workers >= 1
    }
  }

  // ---- counters ----

  datatype Drop = QueueFull | Burst | Backlog | Rejected | Oversize | Closed

  datatype Stats = Stats(enqueued: nat, sent: nat, queueFull: nat, burst: nat, backlog: nat,
                         rejected: nat, oversize: nat, closed: nat)
  {
    function Dropped(): nat {
      queueFull + burst + backlog + rejected + oversize + closed
    }

    function Lose(why: Drop, n: nat): Stats {
      match why
      case QueueFull => this.(queueFull := queueFull + n)
      case Burst => this.(burst := burst + n)
      case Backlog => this.(backlog := backlog + n)
      case Rejected => this.(rejected := rejected + n)
      case Oversize => this.(oversize := oversize + n)
      case Closed => this.(closed := closed + n)
    }
  }

  // ---- intake: Enqueue calls, record buffers and the queue ----

  type BufId = nat

  datatype CallPhase =
    | Passed                  // found the client open
    | Holding(buf: BufId)     // encoded its record, not counted yet
    | Counted(buf: BufId)     // counted in enqueued, not queued yet
    | Refusing(why: Drop)     // counted in enqueued, its drop not counted yet
    | PuttingBack(buf: BufId) // done with its buffer
    | Returned

  /** Who may touch a record buffer: history, no step depends on it. */
  datatype BufOwner = BufPool | Caller(call: nat) | Queued(ticket: nat) | BufCollector

  /** `accepted` is every record whose queue send succeeded and `head` counts those the
      sender has received: both are history. */
  datatype Intake = Intake(calls: seq<CallPhase>, bufs: map<BufId, Bytes>, freeBufs: multiset<BufId>,
                           queue: seq<BufId>, bufOwner: map<BufId, BufOwner>, accepted: seq<Bytes>, head: nat)

  // ---- batches ----

  type SetId = nat

  /** A batch reads bytes lo..hi of a buffer set; `owns` says it must release the set.
      `records` is what it held when it was packed: history. */
  datatype Batch = Batch(set_: SetId, lo: nat, hi: nat, bounds: seq<nat>, bodyLen: nat, owns: bool,
                         records: seq<Bytes>)

  datatype SetOwner = SetPool | WithSender | WithBatch(no: nat) | SetCollector

  datatype Sets = Sets(raw: map<SetId, Bytes>, free: multiset<SetId>, owner: map<SetId, SetOwner>)
  {
    /** The bytes a batch reads. */
    ghost function Read(b: Batch): Bytes
      requires b.set_ in raw && b.lo <= b.hi <= |raw[b.set_]|
    {
      raw[b.set_][b.lo..b.hi]
    }

    /** The batch still reads exactly the records it was packed from. */
    ghost predicate Intact(b: Batch) {
      && b.set_ in raw && b.lo <= b.hi <= |raw[b.set_]|
      && |b.bounds| >= 1
      && Bounded(Read(b), b.bounds)
      && Cut(Read(b), b.bounds) == b.records
    }

    /** releaseBatch: the set goes back to the pool, or is left to the collector when it
        has grown too large; a batch that owns no set releases nothing. */
    function Release(b: Batch, keep: bool): Sets {
      if !b.owns then this
      else if keep then this.(free := free + multiset{b.set_}, owner := owner[b.set_ := SetPool])
      else this.(owner := owner[b.set_ := SetCollector])
    }

    function Give(b: Batch, o: SetOwner): Sets {
      if b.owns then this.(owner := owner[b.set_ := o]) else this
    }
  }

  // ---- the sender ----

  datatype Ctx = WorkerCtx | FlushCtx(request: nat)
  datatype Goal = Answer(request: nat) | Quit
  datatype Then = ToSelect | ToDrain(goal: Goal) | ToGoal(goal: Goal)

  datatype SenderPc =
    | Selecting
    | Draining(goal: Goal)
    | Flushing(ctx: Ctx, next: Then)
    | Dispatching(stack: seq<Batch>, ctx: Ctx, next: Then)  // the pieces still to hand off, next one first
    | Recording(stack: seq<Batch>, ctx: Ctx, next: Then)    // sent on jobs, not counted as dispatched
    | Answering(request: nat)
    | Stopping
    | Joining
    | Leaving
    | Gone

  /** What became of each batch leaving the sender, in order: history. */
  datatype Out = Handed(no: nat, records: seq<Bytes>) | Lost(records: seq<Bytes>)

  datatype Sender = Sender(pc: SenderPc, buf: Bytes, bounds: seq<nat>, outs: seq<Out>)

  // ---- uploads ----

  datatype Worker =
    | Idle
    | Busy(no: nat, batch: Batch, pieces: seq<Batch>, err: P.Outcome)
    | Reporting(no: nat, err: P.Outcome)
    | Exited

  datatype Job = Job(no: nat, batch: Batch)

  /** `sends` counts the sends on the jobs channel, so a job's number is its position among
      them; `finished` holds the numbers whose completion was recorded: history. */
  datatype Uploads = Uploads(jobs: seq<Job>, jobsClosed: bool, workers: seq<Worker>, pool: P.State,
                             sends: nat, finished: set<nat>)

  // ---- Flush and Close callers ----

  datatype FlushPhase = Offering | Waiting | Back

  /** `mark` is how many records had been accepted when the sender took the request, `cover`
      how many batches had left the sender and `target` how many were dispatched when its
      waiter was registered: history. */
  datatype Flush = Flush(phase: FlushPhase, expired: bool, taken: bool, registered: bool, mark: nat, cover: nat, target: nat)

  datatype Closer = NotClosed | DoneClosed | CloseFlush(request: nat) | ShutdownClosed | Joined | CloseReturned

  /** `leftover` is how many queued records Close counted, and `raced` whether an Enqueue
      was under way when Close was called: history. */
  datatype Control = Control(done: bool, shutdown: bool, cancelled: bool, closer: Closer,
                             flushes: seq<Flush>, leftover: nat, raced: bool, panicked: bool)

  datatype State = State(stats: Stats, intake: Intake, sets: Sets, sender: Sender, uploads: Uploads, control: Control)

  // ---- actions ----

  datatype CallAction =
    | CallRefused
    | CallBegin
    | CallShed(call: nat, why: Drop)
    | CallTally(call: nat)
    | CallEncode(call: nat, buf: BufId, record: Bytes, ok: bool)
    | CallCount(call: nat)
    | CallOversize(call: nat)
    | CallSend(call: nat)
    | CallFull(call: nat)
    | CallPut(call: nat, keep: bool)

  datatype SenderAction =
    | Receive(keep: bool)
    | TimerFlush
    | TakeFlush(request: nat)
    | SeeShutdown
    | DrainReceive(keep: bool)
    | DrainEmpty
    | Pack(set_: SetId, bodyLen: nat)
    | PackFail(set_: SetId, keep: bool)
    | HandOff
    | Record
    | Abandon(keep: bool)
    | DropOversize(keep: bool)
    | SplitPiece(bodyLeft: nat, bodyRight: nat)
    | SplitFail(keep: bool)
    | Dispatched
    | Register
    | CloseJobs
    | FinishPool
    | Exit
    | ReportTick

  datatype Fate = Delivered | Failed(why: Drop, error: P.Error)

  datatype WorkerAction =
    | Take
    | Resolve(fate: Fate)
    | SplitUpload(bodyLeft: nat, bodyRight: nat)
    | ReleaseSet(keep: bool)
    | Complete
    | Quit_

  datatype CallerAction =
    | FlushBegin
    | FlushExpire(request: nat)
    | FlushRefused(request: nat)
    | FlushGiveUp(request: nat)
    | FlushReply(request: nat)
    | CloseBegin
    | CloseOffer
    | CloseSignal
    | CloseTimeout
    | CloseJoin
    | CloseCount

  datatype Action =
    | ByCall(call: CallAction)
    | BySender(send: SenderAction)
    | ByWorker(worker: nat, work: WorkerAction)
    | ByCaller(act: CallerAction)

  ghost function Init(c: Config): State {
    State(
      Stats(0, 0, 0, 0, 0, 0, 0, 0),
      Intake([], map[], multiset{}, [], map[], [], 0),
      Sets(map[], multiset{}, map[]),
      Sender(Selecting, [], [], []),
      Uploads([], false, seq(c.workers, _ => Idle), P.IDLE, 0, {}),
      Control(false, false, false, NotClosed, [], 0, false, false))
  }

  // ---- Enqueue ----

  predicate Active(p: CallPhase) {
    p.Passed? || p.Holding? || p.Counted?
  }

  /** A buffer from the pool, or a new one. */
  predicate Obtainable<T>(id: nat, free: multiset<nat>, known: map<nat, T>) {
    id in free || id !in known
  }

  predicate CallEnabled(c: Config, s: State, a: CallAction) {
    var t := s.intake;
    match a
    case CallRefused => s.control.done
    case CallBegin => !s.control.done
    case CallShed(i, why) =>
      i < |t.calls| && t.calls[i].Passed? && (why.Burst? || (why.QueueFull? && |t.queue| == c.maxQueue))
    case CallTally(i) => i < |t.calls| && t.calls[i].Refusing?
    case CallEncode(i, b, _, _) => i < |t.calls| && t.calls[i].Passed? && Obtainable(b, t.freeBufs, t.bufs)
    case CallCount(i) => i < |t.calls| && t.calls[i].Holding?
    case CallOversize(i) =>
      i < |t.calls| && t.calls[i].Counted? && t.calls[i].buf in t.bufs && |t.bufs[t.calls[i].buf]| > c.hardMax
    case CallSend(i) =>
      i < |t.calls| && t.calls[i].Counted? && t.calls[i].buf in t.bufs && |t.queue| < c.maxQueue
    case CallFull(i) => i < |t.calls| && t.calls[i].Counted? && |t.queue| >= c.maxQueue
    case CallPut(i, _) => i < |t.calls| && t.calls[i].PuttingBack?
  }

  function CallStep(c: Config, s: State, a: CallAction): State
    requires CallEnabled(c, s, a)
  {
    var t := s.intake;
    match a
    case CallRefused =>
      s.(stats := s.stats.(enqueued := s.stats.enqueued + 1),
         intake := t.(calls := t.calls + [Refusing(Closed)]))
    case CallBegin => s.(intake := t.(calls := t.calls + [Passed]))
    case CallShed(i, why) =>
      s.(stats := s.stats.(enqueued := s.stats.enqueued + 1), intake := t.(calls := t.calls[i := Refusing(why)]))
    case CallTally(i) =>
      s.(stats := s.stats.Lose(t.calls[i].why, 1), intake := t.(calls := t.calls[i := Returned]))
    case CallEncode(i, b, record, ok) =>
      s.(intake := t.(calls := t.calls[i := if ok then Holding(b) else PuttingBack(b)],
                      bufs := t.bufs[b := record],
                      freeBufs := t.freeBufs - multiset{b},
                      bufOwner := t.bufOwner[b := Caller(i)]))
    case CallCount(i) =>
      s.(stats := s.stats.(enqueued := s.stats.enqueued + 1),
         intake := t.(calls := t.calls[i := Counted(t.calls[i].buf)]))
    case CallOversize(i) =>
      s.(stats := s.stats.Lose(Oversize, 1), intake := t.(calls := t.calls[i := PuttingBack(t.calls[i].buf)]))
    case CallSend(i) =>
      var b := t.calls[i].buf;
      s.(intake := t.(calls := t.calls[i := Returned],
                      queue := t.queue + [b],
                      bufOwner := t.bufOwner[b := Queued(|t.accepted|)],
                      accepted := t.accepted + [t.bufs[b]]))
    case CallFull(i) =>
      s.(stats := s.stats.Lose(QueueFull, 1), intake := t.(calls := t.calls[i := PuttingBack(t.calls[i].buf)]))
    case CallPut(i, keep) =>
      s.(intake := PutBuf(t.(calls := t.calls[i := Returned]), t.calls[i].buf, keep))
  }

  /** putRecordBuf: back to the pool, or to the collector when it is outsized. */
  function PutBuf(t: Intake, b: BufId, keep: bool): Intake {
    if keep then t.(freeBufs := t.freeBufs + multiset{b}, bufOwner := t.bufOwner[b := BufPool])
    else t.(bufOwner := t.bufOwner[b := BufCollector])
  }

  // ---- the sender ----

  predicate Full(c: Config, buf: Bytes, bounds: seq<nat>) {
    |bounds| >= c.batchSize || |buf| >= c.maxBatchBytes
  }

  predicate Expired(s: State, ctx: Ctx) {
    match ctx
    case WorkerCtx => s.control.cancelled
    case FlushCtx(r) => r < |s.control.flushes| && s.control.flushes[r].expired
  }

  function CtxOf(goal: Goal): Ctx {
    match goal case Answer(r) => FlushCtx(r) case Quit => WorkerCtx
  }

  function Continue(next: Then): SenderPc {
    match next
    case ToSelect => Selecting
    case ToDrain(goal) => Draining(goal)
    case ToGoal(Answer(r)) => Answering(r)
    case ToGoal(Quit) => Stopping
  }

  predicate TopFits(c: Config, pc: SenderPc) {
    pc.Dispatching? && pc.stack != [] && pc.stack[0].bodyLen <= c.hardMax
  }

  predicate TopTooBig(c: Config, pc: SenderPc) {
    pc.Dispatching? && pc.stack != [] && pc.stack[0].bodyLen > c.hardMax
  }

  ghost predicate SenderEnabled(c: Config, s: State, a: SenderAction) {
    var pc, t, u := s.sender.pc, s.intake, s.uploads;
    match a
    case Receive(_) => pc.Selecting? && t.queue != [] && t.queue[0] in t.bufs
    case TimerFlush => pc.Selecting? && s.sender.bounds != []
    case TakeFlush(r) => pc.Selecting? && r < |s.control.flushes| && s.control.flushes[r].phase.Offering?
    case SeeShutdown => pc.Selecting? && s.control.shutdown
    case DrainReceive(_) => pc.Draining? && t.queue != [] && t.queue[0] in t.bufs
    case DrainEmpty => pc.Draining? && t.queue == []
    case Pack(x, _) => pc.Flushing? && Obtainable(x, s.sets.free, s.sets.raw)
    case PackFail(x, _) => pc.Flushing? && Obtainable(x, s.sets.free, s.sets.raw)
    case HandOff => TopFits(c, pc) && |u.jobs| < c.workers
    case Record => pc.Recording?
    case Abandon(_) => TopFits(c, pc) && Expired(s, pc.ctx)
    case DropOversize(_) => TopTooBig(c, pc) && |pc.stack[0].bounds| < 2
    case SplitPiece(_, _) => TopTooBig(c, pc) && |pc.stack[0].bounds| >= 2 && s.sets.Intact(pc.stack[0])
    case SplitFail(_) => TopTooBig(c, pc) && |pc.stack[0].bounds| >= 2
    case Dispatched => pc.Dispatching? && pc.stack == []
    case Register => pc.Answering? && pc.request < |s.control.flushes|
    case CloseJobs => pc.Stopping?
    case FinishPool => pc.Joining? && forall i :: 0 <= i < |u.workers| ==> u.workers[i].Exited?
    case Exit => pc.Leaving?
    case ReportTick => true
  }

  ghost function SenderStep(c: Config, s: State, a: SenderAction): State
    requires SenderEnabled(c, s, a)
  {
    var d, u, k := s.sender, s.uploads, s.control;
    match a
    case Receive(keep) => Absorb(c, s, keep, WorkerCtx, ToSelect)
    case TimerFlush => s.(sender := d.(pc := Flushing(WorkerCtx, ToSelect)))
    case TakeFlush(r) =>
      s.(sender := d.(pc := Draining(Answer(r))),
         control := k.(flushes := k.flushes[r := k.flushes[r].(phase := Waiting, taken := true, mark := |s.intake.accepted|)]))
    case SeeShutdown => s.(sender := d.(pc := Draining(Quit)))
    case DrainReceive(keep) => Absorb(c, s, keep, CtxOf(d.pc.goal), ToDrain(d.pc.goal))
    case DrainEmpty =>
      var next := ToGoal(d.pc.goal);
      s.(sender := d.(pc := if d.bounds == [] then Continue(next) else Flushing(CtxOf(d.pc.goal), next)))
    case Pack(x, bodyLen) =>
      var b := Batch(x, 0, |d.buf|, d.bounds, bodyLen, true, Cut'(d.buf, d.bounds));
      s.(sets := TakeSet(s.sets, x, d.buf),
         sender := d.(pc := Dispatching([b], d.pc.ctx, d.pc.next), buf := [], bounds := []))
    case PackFail(x, keep) =>
      var b := Batch(x, 0, |d.buf|, d.bounds, 0, true, Cut'(d.buf, d.bounds));
      s.(stats := s.stats.Lose(Rejected, |d.bounds|),
         sets := TakeSet(s.sets, x, d.buf).Release(b, keep),
         sender := d.(pc := Continue(d.pc.next), buf := [], bounds := [], outs := d.outs + [Lost(b.records)]))
    case HandOff =>
      var b := d.pc.stack[0];
      s.(sets := s.sets.Give(b, WithBatch(u.sends)),
         sender := d.(pc := Recording(d.pc.stack[1..], d.pc.ctx, d.pc.next), outs := d.outs + [Handed(u.sends, b.records)]),
         uploads := u.(jobs := u.jobs + [Job(u.sends, b)], sends := u.sends + 1),
         control := k.(panicked := k.panicked || u.jobsClosed))
    case Record =>
      s.(sender := d.(pc := Dispatching(d.pc.stack, d.pc.ctx, d.pc.next)),
         uploads := u.(pool := P.OnDispatch(u.pool)))
    case Abandon(keep) => Discard(s, if k.done then Closed else Backlog, keep)
    case DropOversize(keep) => Discard(s, Oversize, keep)
    case SplitPiece(bl, br) =>
      var b := d.pc.stack[0];
      s.(sets := s.sets.Give(b, SetCollector),
         sender := d.(pc := Dispatching(Halves(s.sets, b, bl, br) + d.pc.stack[1..], d.pc.ctx, d.pc.next)))
    case SplitFail(keep) => Discard(s, Rejected, keep)
    case Dispatched => s.(sender := d.(pc := Continue(d.pc.next)))
    case Register =>
      var r := d.pc.request;
      s.(sender := d.(pc := Selecting),
         uploads := u.(pool := P.OnAwait(u.pool, r)),
         control := k.(flushes := k.flushes[r :=
           k.flushes[r].(registered := true, cover := |d.outs|, target := u.pool.dispatched)]))
    case CloseJobs => s.(sender := d.(pc := Joining), uploads := u.(jobsClosed := true))
    case FinishPool => s.(sender := d.(pc := Leaving), uploads := u.(pool := P.OnShutdown(u.pool)))
    case Exit => s.(sender := d.(pc := Gone))
    case ReportTick => s
  }

  /** Records of a run, for any bytes and offsets. */
  ghost function Cut'(raw: Bytes, bounds: seq<nat>): seq<Bytes> {
    if Bounded(raw, bounds) then Cut(raw, bounds) else []
  }

  /** Moves one record from the queue into the accumulation buffer, returns its buffer to
      the pool, and starts a flush when the batch is full. */
  function Absorb(c: Config, s: State, keep: bool, ctx: Ctx, next: Then): State
    requires s.intake.queue != [] && s.intake.queue[0] in s.intake.bufs
  {
    var t, d := s.intake, s.sender;
    var b := t.queue[0];
    var buf := d.buf + t.bufs[b];
    var bounds := d.bounds + [|buf|];
    s.(intake := PutBuf(t.(queue := t.queue[1..], head := t.head + 1), b, keep),
       sender := d.(buf := buf, bounds := bounds,
                    pc := if Full(c, buf, bounds) then Flushing(ctx, next) else d.pc))
  }

  /** getBatchBufs and the copy into it. */
  function TakeSet(x: Sets, id: SetId, raw: Bytes): Sets {
    Sets(x.raw[id := raw], x.free - multiset{id}, x.owner[id := WithSender])
  }

  /** Loses the batch on top of the dispatch stack. */
  function Discard(s: State, why: Drop, keep: bool): State
    requires s.sender.pc.Dispatching? && s.sender.pc.stack != []
  {
    var d := s.sender;
    var b := d.pc.stack[0];
    s.(stats := s.stats.Lose(why, |b.bounds|),
       sets := s.sets.Release(b, keep),
       sender := d.(pc := Dispatching(d.pc.stack[1..], d.pc.ctx, d.pc.next), outs := d.outs + [Lost(b.records)]))
  }

  /** Both halves of a batch, cut from the bytes it reads; neither owns the set. */
  ghost function Halves(x: Sets, b: Batch, bodyLeft: nat, bodyRight: nat): (r: seq<Batch>)
    requires x.Intact(b) && |b.bounds| >= 2
    ensures |r| == 2
  {
    var mid := |b.bounds| / 2;
    var cut := b.bounds[mid - 1];
    var right := Rebase(b.bounds[mid..], cut);
    var raw := x.Read(b);
    [Batch(b.set_, b.lo, b.lo + cut, b.bounds[..mid], bodyLeft, false, Cut'(raw[..cut], b.bounds[..mid])),
     Batch(b.set_, b.lo + cut, b.hi, right, bodyRight, false, Cut'(raw[cut..], right))]
  }

  // ---- upload workers ----

  ghost predicate WorkerEnabled(c: Config, s: State, i: nat, a: WorkerAction) {
    var u := s.uploads;
    i < |u.workers| &&
    var w := u.workers[i];
    match a
    case Take => w.Idle? && u.jobs != []
    case Resolve(fate) =>
      w.Busy? && w.pieces != [] && (fate.Failed? ==> fate.why in {Rejected, Oversize, Closed})
    case SplitUpload(_, _) =>
      w.Busy? && w.pieces != [] && |w.pieces[0].bounds| >= 2 && s.sets.Intact(w.pieces[0])
    case ReleaseSet(_) => w.Busy? && w.pieces == []
    case Complete => w.Reporting?
    case Quit_ => w.Idle? && u.jobs == [] && u.jobsClosed
  }

  ghost function WorkerStep(c: Config, s: State, i: nat, a: WorkerAction): State
    requires WorkerEnabled(c, s, i, a)
  {
    var u := s.uploads;
    var w := u.workers[i];
    match a
    case Take =>
      var j := u.jobs[0];
      s.(uploads := u.(jobs := u.jobs[1..], workers := u.workers[i := Busy(j.no, j.batch, [j.batch], P.Fine)]))
    case Resolve(fate) =>
      var n := |w.pieces[0].bounds|;
      var rest := w.pieces[1..];
      (match fate
       case Delivered =>
         s.(stats := s.stats.(sent := s.stats.sent + n), uploads := u.(workers := u.workers[i := w.(pieces := rest)]))
       case Failed(why, e) =>
         s.(stats := s.stats.Lose(why, n),
            uploads := u.(workers := u.workers[i := w.(pieces := rest, err := if w.err == P.Fine then P.Failed(e) else w.err)])))
    case SplitUpload(bl, br) =>
      s.(uploads := u.(workers := u.workers[i := w.(pieces := Halves(s.sets, w.pieces[0], bl, br) + w.pieces[1..])]))
    case ReleaseSet(keep) =>
      s.(sets := s.sets.Release(w.batch, keep), uploads := u.(workers := u.workers[i := Reporting(w.no, w.err)]))
    case Complete =>
      s.(uploads := u.(workers := u.workers[i := Idle], pool := P.OnComplete(u.pool, w.err), finished := u.finished + {w.no}))
    case Quit_ => s.(uploads := u.(workers := u.workers[i := Exited]))
  }

  // ---- Flush and Close callers ----

  predicate CallerEnabled(c: Config, s: State, a: CallerAction) {
    var k := s.control;
    match a
    case FlushBegin => true
    case FlushExpire(r) => r < |k.flushes| && !k.flushes[r].expired
    case FlushRefused(r) => r < |k.flushes| && k.flushes[r].phase.Offering? && s.sender.pc.Gone?
    case FlushGiveUp(r) => r < |k.flushes| && !k.flushes[r].phase.Back? && k.flushes[r].expired
    case FlushReply(r) => r < |k.flushes| && k.flushes[r].phase.Waiting? && r in s.uploads.pool.replies
    case CloseBegin => k.closer.NotClosed?
    case CloseOffer => k.closer.DoneClosed?
    case CloseSignal => k.closer.CloseFlush? && k.closer.request < |k.flushes| && k.flushes[k.closer.request].phase.Back?
    case CloseTimeout => k.closer.ShutdownClosed? && !k.cancelled
    case CloseJoin => k.closer.ShutdownClosed? && s.sender.pc.Gone?
    case CloseCount => k.closer.Joined?
  }

  const NEW_FLUSH := Flush(Offering, false, false, false, 0, 0, 0)

  function CallerStep(c: Config, s: State, a: CallerAction): State
    requires CallerEnabled(c, s, a)
  {
    var k := s.control;
    match a
    case FlushBegin => s.(control := k.(flushes := k.flushes + [NEW_FLUSH]))
    case FlushExpire(r) => s.(control := k.(flushes := k.flushes[r := k.flushes[r].(expired := true)]))
    case FlushRefused(r) => s.(control := k.(flushes := k.flushes[r := k.flushes[r].(phase := Back)]))
    case FlushGiveUp(r) => s.(control := k.(flushes := k.flushes[r := k.flushes[r].(phase := Back)]))
    case FlushReply(r) => s.(control := k.(flushes := k.flushes[r := k.flushes[r].(phase := Back)]))
    case CloseBegin =>
      s.(control := k.(done := true, closer := DoneClosed,
                       raced := exists i :: 0 <= i < |s.intake.calls| && Active(s.intake.calls[i])))
    case CloseOffer => s.(control := k.(flushes := k.flushes + [NEW_FLUSH], closer := CloseFlush(|k.flushes|)))
    case CloseSignal => s.(control := k.(shutdown := true, closer := ShutdownClosed))
    case CloseTimeout => s.(control := k.(cancelled := true))
    case CloseJoin => s.(control := k.(cancelled := true, closer := Joined))
    case CloseCount =>
      s.(stats := s.stats.Lose(Closed, |s.intake.queue|),
         control := k.(leftover := |s.intake.queue|, closer := CloseReturned))
  }

  // ---- runs ----

  ghost predicate Enabled(c: Config, s: State, a: Action) {
    match a
    case ByCall(x) => CallEnabled(c, s, x)
    case BySender(x) => SenderEnabled(c, s, x)
    case ByWorker(i, x) => WorkerEnabled(c, s, i, x)
    case ByCaller(x) => CallerEnabled(c, s, x)
  }

  ghost function Step(c: Config, s: State, a: Action): State
    requires Enabled(c, s, a)
  {
    match a
    case ByCall(x) => CallStep(c, s, x)
    case BySender(x) => SenderStep(c, s, x)
    case ByWorker(i, x) => WorkerStep(c, s, i, x)
    case ByCaller(x) => CallerStep(c, s, x)
  }

  ghost predicate Next(c: Config, s: State, t: State) {
    exists a :: Enabled(c, s, a) && t == Step(c, s, a)
  }

  /** A run from the initial state: consecutive states are related by `Next`. */
  ghost predicate Run(c: Config, run: seq<State>) {
    && run != []
    && run[0] == Init(c)
    && forall i :: 0 <= i < |run| - 1 ==> Next(c, run[i], run[i + 1])
  }

  ghost predicate Reachable(c: Config, s: State) {
    exists run :: Run(c, run) && run[|run| - 1] == s
  }
}
