/** Who may touch a buffer. Every record buffer and every batch buffer set has at most one
    owner in every reachable state, and no batch reads a set that is in the pool, although
    sets are overwritten as soon as they are taken out again. */
module Ownership {
  import opened Records
  import opened Pipeline

  // ---- record buffers ----

  predicate HasBuf(p: CallPhase) {
    p.Holding? || p.Counted? || p.PuttingBack?
  }

  /** The ghost owner of each buffer agrees with where its identity really is; a ticket is
      a position in `accepted`, so the queue holds the accepted records byte for byte. */
  ghost predicate IntakeOk(t: Intake) {
    && t.bufs.Keys == t.bufOwner.Keys
    && |t.accepted| == t.head + |t.queue|
    && (forall b :: b in t.freeBufs <==> b in t.bufOwner && t.bufOwner[b] == BufPool)
    && (forall b :: t.freeBufs[b] <= 1)
    && (forall i :: 0 <= i < |t.calls| && HasBuf(t.calls[i]) ==>
          t.calls[i].buf in t.bufOwner && t.bufOwner[t.calls[i].buf] == Caller(i))
    && (forall k :: 0 <= k < |t.queue| ==>
          && t.queue[k] in t.bufOwner && t.bufOwner[t.queue[k]] == Queued(t.head + k)
          && t.bufs[t.queue[k]] == t.accepted[t.head + k])
  }

  /** Returning a buffer nobody else holds. */
  lemma PutKeepsIntake(t: Intake, b: BufId, keep: bool)
    requires IntakeOk(t) && b in t.bufOwner && b !in t.freeBufs && b !in t.queue
    requires forall i :: 0 <= i < |t.calls| && HasBuf(t.calls[i]) ==> t.calls[i].buf != b
    ensures IntakeOk(PutBuf(t, b, keep))
  {
  }

  /** A call's phase changes, and it keeps its buffer or has none afterwards. */
  lemma PhaseKeepsIntake(t: Intake, i: nat, p: CallPhase)
    requires IntakeOk(t) && i < |t.calls|
    requires HasBuf(p) ==> HasBuf(t.calls[i]) && p.buf == t.calls[i].buf
    ensures IntakeOk(t.(calls := t.calls[i := p]))
  {
  }

  lemma EncodeKeepsIntake(t: Intake, i: nat, b: BufId, record: Bytes, p: CallPhase)
    requires IntakeOk(t) && i < |t.calls| && !HasBuf(t.calls[i]) && Obtainable(b, t.freeBufs, t.bufs)
    requires HasBuf(p) && p.buf == b
    ensures IntakeOk(t.(calls := t.calls[i := p], bufs := t.bufs[b := record],
                        freeBufs := t.freeBufs - multiset{b}, bufOwner := t.bufOwner[b := Caller(i)]))
  {
    assert forall k :: 0 <= k < |t.queue| ==> t.queue[k] != b;
  }

  lemma SendKeepsIntake(t: Intake, i: nat)
    requires IntakeOk(t) && i < |t.calls| && t.calls[i].Counted? && t.calls[i].buf in t.bufs
    ensures var b := t.calls[i].buf;
      IntakeOk(t.(calls := t.calls[i := Returned], queue := t.queue + [b],
                  bufOwner := t.bufOwner[b := Queued(|t.accepted|)], accepted := t.accepted + [t.bufs[b]]))
  {
    var b := t.calls[i].buf;
    assert forall k :: 0 <= k < |t.queue| ==> t.queue[k] != b;
  }

  lemma NewCallKeepsIntake(t: Intake, p: CallPhase)
    requires IntakeOk(t) && !HasBuf(p)
    ensures IntakeOk(t.(calls := t.calls + [p]))
  {
  }

  /** A call done with its buffer gives it back. */
  lemma ReturnKeepsIntake(t: Intake, i: nat, keep: bool)
    requires IntakeOk(t) && i < |t.calls| && t.calls[i].PuttingBack?
    ensures IntakeOk(PutBuf(t.(calls := t.calls[i := Returned]), t.calls[i].buf, keep))
  {
    PhaseKeepsIntake(t, i, Returned);
    PutKeepsIntake(t.(calls := t.calls[i := Returned]), t.calls[i].buf, keep);
  }

  lemma CallKeepsIntake(c: Config, s: State, a: CallAction)
    requires CallEnabled(c, s, a) && IntakeOk(s.intake)
    ensures IntakeOk(CallStep(c, s, a).intake)
  {
    hide IntakeOk;
    var t := s.intake;
    match a
    case CallRefused => NewCallKeepsIntake(t, Refusing(Closed));
    case CallBegin => NewCallKeepsIntake(t, Passed);
    case CallShed(i, why) => PhaseKeepsIntake(t, i, Refusing(why));
    case CallTally(i) => PhaseKeepsIntake(t, i, Returned);
    case CallEncode(i, b, record, ok) =>
      EncodeKeepsIntake(t, i, b, record, if ok then Holding(b) else PuttingBack(b));
    case CallCount(i) => PhaseKeepsIntake(t, i, Counted(t.calls[i].buf));
    case CallOversize(i) => PhaseKeepsIntake(t, i, PuttingBack(t.calls[i].buf));
    case CallSend(i) => SendKeepsIntake(t, i);
    case CallFull(i) => PhaseKeepsIntake(t, i, PuttingBack(t.calls[i].buf));
    case CallPut(i, keep) => ReturnKeepsIntake(t, i, keep);
  }

  lemma AbsorbKeepsIntake(c: Config, s: State, keep: bool, ctx: Ctx, next: Then)
    requires s.intake.queue != [] && s.intake.queue[0] in s.intake.bufs && IntakeOk(s.intake)
    ensures IntakeOk(Absorb(c, s, keep, ctx, next).intake)
    ensures s.intake.bufs[s.intake.queue[0]] == s.intake.accepted[s.intake.head]
  {
    var t, r := s.intake, Absorb(c, s, keep, ctx, next).intake;
    assert forall k :: 0 <= k < |r.queue| ==> r.queue[k] == t.queue[k + 1];
  }

  /** What the annotations amount to: no two of the pool, the Enqueue calls and the queue
      positions ever hold the same buffer, and the pool holds each buffer once. */
  lemma BuffersHaveOneOwner(t: Intake)
    requires IntakeOk(t)
    ensures forall b :: t.freeBufs[b] <= 1
    ensures forall i :: 0 <= i < |t.calls| && HasBuf(t.calls[i]) ==>
              t.calls[i].buf !in t.freeBufs && t.calls[i].buf !in t.queue
    ensures forall k :: 0 <= k < |t.queue| ==> t.queue[k] !in t.freeBufs
    ensures forall i, j :: 0 <= i < j < |t.calls| && HasBuf(t.calls[i]) && HasBuf(t.calls[j]) ==>
              t.calls[i].buf != t.calls[j].buf
    ensures forall k, l :: 0 <= k < l < |t.queue| ==> t.queue[k] != t.queue[l]
  {
  }

  // ---- batch buffer sets ----

  function Stack(pc: SenderPc): seq<Batch> {
    if pc.Dispatching? || pc.Recording? then pc.stack else []
  }

  ghost predicate SetsOk(x: Sets) {
    && x.raw.Keys == x.owner.Keys
    && (forall id :: id in x.free <==> id in x.owner && x.owner[id] == SetPool)
    && (forall id :: x.free[id] <= 1)
  }

  /** A batch is intact, and its set belongs to `o`, or to nobody any more. */
  ghost predicate Safe(x: Sets, b: Batch, o: SetOwner) {
    && x.Intact(b)
    && b.set_ in x.owner
    && x.owner[b.set_] == if b.owns then o else SetCollector
  }

  ghost predicate StackOk(x: Sets, stack: seq<Batch>) {
    && (forall i :: 0 <= i < |stack| ==> Safe(x, stack[i], WithSender))
    && (forall i :: 0 <= i < |stack| && stack[i].owns ==> |stack| == 1)
  }

  ghost predicate JobsOk(x: Sets, jobs: seq<Job>) {
    forall k :: 0 <= k < |jobs| ==> Safe(x, jobs[k].batch, WithBatch(jobs[k].no))
  }

  ghost predicate WorkerOk(x: Sets, w: Worker) {
    w.Busy? ==>
      && Safe(x, w.batch, WithBatch(w.no))
      && forall j :: 0 <= j < |w.pieces| ==> w.pieces[j].set_ == w.batch.set_ && x.Intact(w.pieces[j])
  }

  ghost predicate WorkersOk(x: Sets, workers: seq<Worker>) {
    forall i :: 0 <= i < |workers| ==> WorkerOk(x, workers[i])
  }

  ghost predicate BatchesOk(s: State) {
    && SetsOk(s.sets)
    && StackOk(s.sets, Stack(s.sender.pc))
    && JobsOk(s.sets, s.uploads.jobs)
    && WorkersOk(s.sets, s.uploads.workers)
  }

  // ---- dispatch numbers ----

  predicate HasNo(w: Worker) {
    w.Busy? || w.Reporting?
  }

  /** Jobs are numbered in the order they were sent, so those taken by a worker are the
      lowest numbers; each is with one worker or finished, never both. */
  ghost predicate NumbersOk(u: Uploads) {
    && |u.jobs| <= u.sends
    && (forall k :: 0 <= k < |u.jobs| ==> u.jobs[k].no == u.sends - |u.jobs| + k)
    && (forall i :: 0 <= i < |u.workers| && HasNo(u.workers[i]) ==>
          u.workers[i].no < u.sends - |u.jobs| && u.workers[i].no !in u.finished)
    && (forall i, j :: 0 <= i < j < |u.workers| && HasNo(u.workers[i]) && HasNo(u.workers[j]) ==>
          u.workers[i].no != u.workers[j].no)
    && (forall n :: n in u.finished ==> n < u.sends - |u.jobs|)
    && (forall n: nat :: n < u.sends - |u.jobs| && n !in u.finished ==>
          exists i :: 0 <= i < |u.workers| && HasNo(u.workers[i]) && u.workers[i].no == n)
  }

  // ---- steps of the sender ----

  /** Taking a set out of the pool overwrites no batch. */
  lemma TakeKeepsSafe(x: Sets, id: SetId, raw: Bytes, b: Batch, o: SetOwner)
    requires SetsOk(x) && Obtainable(id, x.free, x.raw)
    requires b.set_ in x.owner && x.owner[b.set_] != SetPool && x.Intact(b)
    ensures TakeSet(x, id, raw).Intact(b)
    ensures TakeSet(x, id, raw).owner[b.set_] == x.owner[b.set_]
  {
  }

  lemma TakeKeepsSets(x: Sets, id: SetId, raw: Bytes)
    requires SetsOk(x) && Obtainable(id, x.free, x.raw)
    ensures SetsOk(TakeSet(x, id, raw))
  {
  }

  lemma TakeKeepsOthers(s: State, id: SetId, raw: Bytes)
    requires BatchesOk(s) && Obtainable(id, s.sets.free, s.sets.raw)
    ensures SetsOk(TakeSet(s.sets, id, raw))
    ensures StackOk(TakeSet(s.sets, id, raw), Stack(s.sender.pc))
    ensures JobsOk(TakeSet(s.sets, id, raw), s.uploads.jobs)
    ensures WorkersOk(TakeSet(s.sets, id, raw), s.uploads.workers)
  {
    hide SetsOk, TakeSet, Sets.Intact;
    TakeKeepsSets(s.sets, id, raw);
    var x, y := s.sets, TakeSet(s.sets, id, raw);
    var stack, jobs, workers := Stack(s.sender.pc), s.uploads.jobs, s.uploads.workers;
    forall i | 0 <= i < |stack| ensures Safe(y, stack[i], WithSender) {
      TakeKeepsSafe(x, id, raw, stack[i], WithSender);
    }
    forall k | 0 <= k < |jobs| ensures Safe(y, jobs[k].batch, WithBatch(jobs[k].no)) {
      TakeKeepsSafe(x, id, raw, jobs[k].batch, WithBatch(jobs[k].no));
    }
    forall i | 0 <= i < |workers| ensures WorkerOk(y, workers[i]) {
      if workers[i].Busy? {
        var w := workers[i];
        TakeKeepsSafe(x, id, raw, w.batch, WithBatch(w.no));
        forall j | 0 <= j < |w.pieces| ensures y.Intact(w.pieces[j]) {
          TakeKeepsSafe(x, id, raw, w.pieces[j], WithBatch(w.no));
        }
      }
    }
  }

  /** Re-assigning the set of a batch owned by `o` disturbs nothing owned by anyone else. */
  lemma ReassignKeepsOthers(s: State, b: Batch, o: SetOwner, y: Sets)
    requires b.owns && b.set_ in s.sets.owner && s.sets.owner[b.set_] == o
    requires y.raw == s.sets.raw
    requires forall id :: id != b.set_ && id in s.sets.owner ==> id in y.owner && y.owner[id] == s.sets.owner[id]
    requires o != SetCollector
    requires BatchesOk(s)
    ensures o != WithSender ==> StackOk(y, Stack(s.sender.pc))
    ensures forall k :: 0 <= k < |s.uploads.jobs| && o != WithBatch(s.uploads.jobs[k].no) ==>
              Safe(y, s.uploads.jobs[k].batch, WithBatch(s.uploads.jobs[k].no))
    ensures forall i ::
              0 <= i < |s.uploads.workers| && (s.uploads.workers[i].Busy? ==> o != WithBatch(s.uploads.workers[i].no)) ==>
              WorkerOk(y, s.uploads.workers[i])
  {
    assert forall p: Batch :: s.sets.Intact(p) ==> y.Intact(p);
    forall k | 0 <= k < |s.uploads.jobs| && o != WithBatch(s.uploads.jobs[k].no)
      ensures Safe(y, s.uploads.jobs[k].batch, WithBatch(s.uploads.jobs[k].no))
    {
      assert Safe(s.sets, s.uploads.jobs[k].batch, WithBatch(s.uploads.jobs[k].no));
    }
    forall i | 0 <= i < |s.uploads.workers| && (s.uploads.workers[i].Busy? ==> o != WithBatch(s.uploads.workers[i].no))
      ensures WorkerOk(y, s.uploads.workers[i])
    {
      assert WorkerOk(s.sets, s.uploads.workers[i]);
    }
    if o != WithSender {
      forall i | 0 <= i < |Stack(s.sender.pc)|
        ensures Safe(y, Stack(s.sender.pc)[i], WithSender)
      {
        assert Safe(s.sets, Stack(s.sender.pc)[i], WithSender);
      }
    }
  }

  /** A range of a set that holds these records is an intact batch. */
  lemma RangeIntact(x: Sets, b: Batch, raw: Bytes)
    requires b.set_ in x.raw && b.lo <= b.hi <= |x.raw[b.set_]| && raw == x.raw[b.set_][b.lo..b.hi]
    requires |b.bounds| >= 1 && Bounded(raw, b.bounds) && b.records == Cut(raw, b.bounds)
    ensures x.Intact(b)
  {
  }

  /** Both halves of an intact batch are intact, and their records are its records. */
  lemma HalvesIntact(x: Sets, b: Batch, bodyLeft: nat, bodyRight: nat)
    requires x.Intact(b) && |b.bounds| >= 2
    ensures var h := Halves(x, b, bodyLeft, bodyRight);
      && x.Intact(h[0]) && x.Intact(h[1])
      && h[0].records + h[1].records == b.records
      && |h[0].bounds| + |h[1].bounds| == |b.bounds|
      && |h[0].bounds| == |b.bounds| / 2
  {
    var whole, raw, mid := x.raw[b.set_], x.Read(b), |b.bounds| / 2;
    var cut := b.bounds[mid - 1];
    var h := Halves(x, b, bodyLeft, bodyRight);
    CutSplit(raw, b.bounds, mid);
    HalfSlices(whole, b.lo, b.hi, cut);
    hide Bounded, Cut;
    RangeIntact(x, h[0], raw[..cut]);
    RangeIntact(x, h[1], raw[cut..]);
  }

  /** The accumulation buffer between steps. */
  ghost predicate SenderOk(d: Sender) {
    && Bounded(d.buf, d.bounds)
    && (d.pc.Flushing? ==> d.bounds != [])
    && (d.pc.Selecting? || d.pc.Draining? || d.pc.Flushing? || d.bounds == [])
  }

  lemma AbsorbKeepsSender(c: Config, s: State, keep: bool, ctx: Ctx, next: Then)
    requires s.intake.queue != [] && s.intake.queue[0] in s.intake.bufs && SenderOk(s.sender)
    requires s.sender.pc.Selecting? || s.sender.pc.Draining?
    ensures SenderOk(Absorb(c, s, keep, ctx, next).sender)
  {
    CutAppend(s.sender.buf, s.sender.bounds, s.intake.bufs[s.intake.queue[0]]);
  }

  lemma SenderKeepsSender(c: Config, s: State, a: SenderAction)
    requires SenderEnabled(c, s, a) && SenderOk(s.sender)
    ensures SenderOk(SenderStep(c, s, a).sender)
  {
    match a
    case Receive(keep) => AbsorbKeepsSender(c, s, keep, WorkerCtx, ToSelect);
    case DrainReceive(keep) => AbsorbKeepsSender(c, s, keep, CtxOf(s.sender.pc.goal), ToDrain(s.sender.pc.goal));
    case _ =>
  }

  lemma PackKeepsBatches(c: Config, s: State, x: SetId, bodyLen: nat)
    requires SenderEnabled(c, s, Pack(x, bodyLen)) && BatchesOk(s) && SenderOk(s.sender)
    ensures BatchesOk(SenderStep(c, s, Pack(x, bodyLen)))
  {
    var d, t := s.sender, SenderStep(c, s, Pack(x, bodyLen));
    TakeKeepsOthers(s, x, d.buf);
    assert t.sets.raw[x][0..|d.buf|] == d.buf;
  }

  lemma PackFailKeepsBatches(c: Config, s: State, x: SetId, keep: bool)
    requires SenderEnabled(c, s, PackFail(x, keep)) && BatchesOk(s)
    ensures BatchesOk(SenderStep(c, s, PackFail(x, keep)))
  {
    hide SetsOk, JobsOk, WorkersOk, Safe;
    TakeKeepsOthers(s, x, s.sender.buf);
    var taken := s.(sets := TakeSet(s.sets, x, s.sender.buf));
    var b := Batch(x, 0, |s.sender.buf|, s.sender.bounds, 0, true, Cut'(s.sender.buf, s.sender.bounds));
    ReleaseTaken(taken, b, keep);
  }

  /** Releasing a set the sender took, and nobody else has. */
  lemma ReleaseTaken(s: State, b: Batch, keep: bool)
    requires BatchesOk(s) && b.owns && b.set_ in s.sets.owner && s.sets.owner[b.set_] == WithSender
    ensures SetsOk(s.sets.Release(b, keep))
    ensures JobsOk(s.sets.Release(b, keep), s.uploads.jobs)
    ensures WorkersOk(s.sets.Release(b, keep), s.uploads.workers)
  {
    var y := s.sets.Release(b, keep);
    ReassignKeepsOthers(s, b, WithSender, y);
    hide Safe, WorkerOk;
  }

  lemma DiscardKeepsBatches(s: State, why: Drop, keep: bool)
    requires s.sender.pc.Dispatching? && s.sender.pc.stack != [] && BatchesOk(s)
    ensures BatchesOk(Discard(s, why, keep))
  {
    var b, t := s.sender.pc.stack[0], Discard(s, why, keep);
    assert Safe(s.sets, b, WithSender);
    if b.owns {
      ReassignKeepsOthers(s, b, WithSender, t.sets);
    }
  }

  lemma HandOffKeepsBatches(c: Config, s: State)
    requires SenderEnabled(c, s, HandOff) && BatchesOk(s)
    ensures BatchesOk(SenderStep(c, s, HandOff))
  {
    var b, t := s.sender.pc.stack[0], SenderStep(c, s, HandOff);
    assert Safe(s.sets, b, WithSender);
    if b.owns {
      ReassignKeepsOthers(s, b, WithSender, t.sets);
    }
  }

  lemma SplitKeepsBatches(c: Config, s: State, bl: nat, br: nat)
    requires SenderEnabled(c, s, SplitPiece(bl, br)) && BatchesOk(s)
    ensures BatchesOk(SenderStep(c, s, SplitPiece(bl, br)))
  {
    var b, t := s.sender.pc.stack[0], SenderStep(c, s, SplitPiece(bl, br));
    assert Safe(s.sets, b, WithSender);
    HalvesIntact(s.sets, b, bl, br);
    if b.owns {
      ReassignKeepsOthers(s, b, WithSender, t.sets);
    }
    forall i | 0 <= i < |Stack(t.sender.pc)|
      ensures Safe(t.sets, Stack(t.sender.pc)[i], WithSender) && !Stack(t.sender.pc)[i].owns
    {
      if i >= 2 {
        assert Stack(t.sender.pc)[i] == s.sender.pc.stack[i - 1];
        assert Safe(s.sets, s.sender.pc.stack[i - 1], WithSender);
      }
    }
  }

  lemma SenderKeepsBatches(c: Config, s: State, a: SenderAction)
    requires SenderEnabled(c, s, a) && BatchesOk(s) && SenderOk(s.sender)
    ensures BatchesOk(SenderStep(c, s, a))
  {
    hide Cut', Obtainable, Stats.Lose, Full, Safe, SetsOk, JobsOk, WorkersOk;
    match a
    case Pack(x, bodyLen) => PackKeepsBatches(c, s, x, bodyLen);
    case PackFail(x, keep) => PackFailKeepsBatches(c, s, x, keep);
    case HandOff => HandOffKeepsBatches(c, s);
    case Abandon(keep) => DiscardKeepsBatches(s, if s.control.done then Closed else Backlog, keep);
    case DropOversize(keep) => DiscardKeepsBatches(s, Oversize, keep);
    case SplitPiece(bl, br) => SplitKeepsBatches(c, s, bl, br);
    case SplitFail(keep) => DiscardKeepsBatches(s, Rejected, keep);
    case _ =>
  }

  lemma SenderKeepsNumbers(c: Config, s: State, a: SenderAction)
    requires SenderEnabled(c, s, a) && NumbersOk(s.uploads)
    ensures NumbersOk(SenderStep(c, s, a).uploads)
  {
  }

  // ---- steps of the workers ----

  lemma WorkerSplitKeepsBatches(c: Config, s: State, i: nat, bl: nat, br: nat)
    requires WorkerEnabled(c, s, i, SplitUpload(bl, br)) && BatchesOk(s)
    ensures BatchesOk(WorkerStep(c, s, i, SplitUpload(bl, br)))
  {
    var w := s.uploads.workers[i];
    assert WorkerOk(s.sets, w);
    HalvesIntact(s.sets, w.pieces[0], bl, br);
    var pieces := Halves(s.sets, w.pieces[0], bl, br) + w.pieces[1..];
    forall j | 0 <= j < |pieces|
      ensures pieces[j].set_ == w.batch.set_ && s.sets.Intact(pieces[j])
    {
      assert j < 2 || pieces[j] == w.pieces[j - 1];
    }
  }

  lemma ReleaseKeepsBatches(c: Config, s: State, i: nat, keep: bool)
    requires WorkerEnabled(c, s, i, ReleaseSet(keep)) && BatchesOk(s) && NumbersOk(s.uploads)
    ensures BatchesOk(WorkerStep(c, s, i, ReleaseSet(keep)))
  {
    var u, t := s.uploads, WorkerStep(c, s, i, ReleaseSet(keep));
    var w := u.workers[i];
    assert WorkerOk(s.sets, w);
    if w.batch.owns {
      ReassignKeepsOthers(s, w.batch, WithBatch(w.no), t.sets);
    }
  }

  lemma UpdateKeepsWorkers(x: Sets, workers: seq<Worker>, i: nat, w: Worker)
    requires WorkersOk(x, workers) && i < |workers| && WorkerOk(x, w)
    ensures WorkersOk(x, workers[i := w])
  {
  }

  lemma TakeKeepsBatches(c: Config, s: State, i: nat)
    requires WorkerEnabled(c, s, i, Take) && BatchesOk(s)
    ensures BatchesOk(WorkerStep(c, s, i, Take))
  {
    var u, v := s.uploads, WorkerStep(c, s, i, Take).uploads;
    assert Safe(s.sets, u.jobs[0].batch, WithBatch(u.jobs[0].no));
    UpdateKeepsWorkers(s.sets, u.workers, i, v.workers[i]);
    forall k | 0 <= k < |v.jobs|
      ensures Safe(s.sets, v.jobs[k].batch, WithBatch(v.jobs[k].no))
    {
      assert v.jobs[k] == u.jobs[k + 1];
    }
  }

  lemma WorkerKeepsBatches(c: Config, s: State, i: nat, a: WorkerAction)
    requires WorkerEnabled(c, s, i, a) && BatchesOk(s) && NumbersOk(s.uploads)
    ensures BatchesOk(WorkerStep(c, s, i, a))
  {
    var u := s.uploads;
    assert WorkerOk(s.sets, u.workers[i]);
    match a
    case Take => TakeKeepsBatches(c, s, i);
    case SplitUpload(bl, br) => WorkerSplitKeepsBatches(c, s, i, bl, br);
    case ReleaseSet(keep) => ReleaseKeepsBatches(c, s, i, keep);
    case Resolve(fate) => UpdateKeepsWorkers(s.sets, u.workers, i, WorkerStep(c, s, i, a).uploads.workers[i]);
    case Complete => UpdateKeepsWorkers(s.sets, u.workers, i, Idle);
    case Quit_ => UpdateKeepsWorkers(s.sets, u.workers, i, Exited);
  }

  lemma TakeKeepsNumbers(c: Config, s: State, i: nat)
    requires WorkerEnabled(c, s, i, Take) && NumbersOk(s.uploads)
    ensures NumbersOk(WorkerStep(c, s, i, Take).uploads)
  {
    var u, v := s.uploads, WorkerStep(c, s, i, Take).uploads;
    forall n: nat | n < v.sends - |v.jobs| && n !in v.finished
      ensures exists j :: 0 <= j < |v.workers| && HasNo(v.workers[j]) && v.workers[j].no == n
    {
      if n == u.jobs[0].no {
        assert v.workers[i].no == n;
      } else {
        var j :| 0 <= j < |u.workers| && HasNo(u.workers[j]) && u.workers[j].no == n;
        assert v.workers[j] == u.workers[j];
      }
    }
  }

  /** A worker keeps the number it had, or finishes it. */
  lemma SameNoKeepsNumbers(u: Uploads, i: nat, w: Worker, v: Uploads)
    requires NumbersOk(u) && i < |u.workers|
    requires v.jobs == u.jobs && v.sends == u.sends && v.workers == u.workers[i := w]
    requires if HasNo(u.workers[i]) && !HasNo(w) then v.finished == u.finished + {u.workers[i].no}
             else v.finished == u.finished && HasNo(w) == HasNo(u.workers[i]) && (HasNo(w) ==> w.no == u.workers[i].no)
    ensures NumbersOk(v)
  {
    forall n: nat | n < v.sends - |v.jobs| && n !in v.finished
      ensures exists j :: 0 <= j < |v.workers| && HasNo(v.workers[j]) && v.workers[j].no == n
    {
      var j :| 0 <= j < |u.workers| && HasNo(u.workers[j]) && u.workers[j].no == n;
      assert j != i ==> v.workers[j] == u.workers[j];
      assert j == i ==> v.workers[j] == w;
    }
  }

  lemma WorkerKeepsNumbers(c: Config, s: State, i: nat, a: WorkerAction)
    requires WorkerEnabled(c, s, i, a) && NumbersOk(s.uploads)
    ensures NumbersOk(WorkerStep(c, s, i, a).uploads)
  {
    if a == Take {
      TakeKeepsNumbers(c, s, i);
    } else {
      SameNoKeepsNumbers(s.uploads, i, WorkerStep(c, s, i, a).uploads.workers[i], WorkerStep(c, s, i, a).uploads);
    }
  }
}
