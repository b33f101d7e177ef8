/** The sender's loop: it accumulates records, keeps the batch timer in step with them, and
    hands batches on. Timers are those before Go 1.23: a fire stays in the channel until it
    is received, whatever Stop does. */
module Sender {
  import opened Records
  import opened Options
  import opened Encoder
  import opened Packer

  // ---- the timer ----

  class Timer {
    var running: bool
    var pending: bool

    constructor ()
      ensures !running && !pending
    {
      running, pending := false, false;
    }

    /** The interval may run out at any moment; the fire goes into a channel of one. */
    method Tick()
      modifies this
      ensures old(running) && !running ==> pending
      ensures !(old(running) && !running) ==> running == old(running) && pending == old(pending)
    {
      if running {
        if * {
          running, pending := false, true;
        }
      }
    }

    /** Reset is documented to be correct only for a stopped timer with an empty channel. */
    method Reset()
      requires !running && !pending
      modifies this
      ensures running && !pending
    {
      running := true;
    }

    method Stop() returns (stopped: bool)
      modifies this
      ensures stopped == old(running) && !running && pending == old(pending)
    {
      stopped := running;
      running := false;
    }

    /** A receive that finds its value waiting, and so does not block. */
    method Receive()
      requires pending
      modifies this
      ensures !pending && running == old(running)
    {
      pending := false;
    }
  }

  // ---- the queue ----

  /** `coming` is every record whose queue send is still to succeed. */
  class Queue {
    var waiting: seq<Bytes>
    var coming: seq<Bytes>

    constructor (coming: seq<Bytes>)
      ensures waiting == [] && this.coming == coming
    {
      waiting, this.coming := [], coming;
    }

    ghost function All(): seq<Bytes>
      reads this
    {
      waiting + coming
    }

    /** Sends may succeed at any moment. */
    method Arrive()
      modifies this
      ensures All() == old(All()) && |old(waiting)| <= |waiting|
    {
      var k :| 0 <= k <= |coming|;
      waiting, coming := waiting + coming[..k], coming[k..];
    }

    method Receive() returns (rec: Bytes)
      requires waiting != []
      modifies this
      ensures [rec] + All() == old(All())
      ensures waiting == old(waiting)[1..] && coming == old(coming)
    {
      rec := waiting[0];
      waiting := waiting[1..];
    }
  }

  // ---- Close, and what a hand-off waits for ----

  /** What a hand-off's select finds ready: a slot in the jobs channel, the report ticker, or the
      end of the context. */
  datatype Wake = Slot | Tick | Expired

  /** Whether Close has begun (once it has, it has), how many report ticks are still to come, and
      how many hand-offs have been ended by their context. */
  class Signals {
    var done: bool
    var ticks: nat
    var expiries: nat

    constructor (ticks: nat)
      ensures !done && expiries == 0
    {
      done, this.ticks, expiries := false, ticks, 0;
    }

    /** Close may begin at any moment. */
    method Closing() returns (closing: bool)
      modifies this
      ensures closing == done && (old(done) ==> done)
      ensures ticks == old(ticks) && expiries == old(expiries)
    {
      if * {
        done := true;
      }
      closing := done;
    }

    method Select() returns (wake: Wake)
      modifies this
      ensures done == old(done) && expiries == old(expiries) + if wake.Expired? then 1 else 0
      ensures ticks == old(ticks) - if wake.Tick? then 1 else 0
    {
      if
      case true => wake := Slot;
      case ticks > 0 => wake, ticks := Tick, ticks - 1;
      case true => wake, expiries := Expired, expiries + 1;
    }

    /** Waits through any number of report ticks for a slot, or for the end of the context. */
    method Wait() returns (slot: bool)
      modifies this
      ensures done == old(done) && expiries == old(expiries) + if slot then 0 else 1
    {
      var wake := Select();
      while wake.Tick?
        invariant done == old(done) && expiries == old(expiries) + if wake.Expired? then 1 else 0
        decreases ticks, wake.Tick?
      {
        wake := Select();
      }
      slot := wake.Slot?;
    }
  }

  // ---- what leaves ----

  datatype Fate = Handed | LostClosing | LostBacklog | TooBig | Unsplit | Unpacked

  /** A batch, or a piece of one, that left the sender. */
  datatype Out = Out(records: seq<Bytes>, bodyLen: nat, fate: Fate)

  function Gone(outs: seq<Out>): seq<Bytes> {
    if outs == [] then [] else Gone(outs[..|outs| - 1]) + outs[|outs| - 1].records
  }

  function Lost(outs: seq<Out>, fate: Fate): nat {
    if outs == [] then 0
    else Lost(outs[..|outs| - 1], fate) + (if outs[|outs| - 1].fate == fate then |outs[|outs| - 1].records| else 0)
  }

  /** How many pieces were handed on. */
  function Handings(outs: seq<Out>): nat {
    if outs == [] then 0
    else Handings(outs[..|outs| - 1]) + (if outs[|outs| - 1].fate.Handed? then 1 else 0)
  }

  lemma OutAppended(outs: seq<Out>, o: Out)
    ensures Gone(outs + [o]) == Gone(outs) + o.records
    ensures forall f :: Lost(outs + [o], f) == Lost(outs, f) + (if o.fate == f then |o.records| else 0)
    ensures Handings(outs + [o]) == Handings(outs) + if o.fate.Handed? then 1 else 0
  {
    assert (outs + [o])[..|outs|] == outs;
  }

  datatype Limits = Limits(batchSize: nat, maxBatchBytes: nat, hardMax: nat)

  /** A piece is handed on or abandoned only if its body is within the hard limit; a piece
      over it is lost only as a single record, or because halving it failed. */
  predicate WithinHardLimit(o: Out, hardMax: nat) {
    match o.fate
    case Handed => o.bodyLen <= hardMax
    case LostClosing => o.bodyLen <= hardMax
    case LostBacklog => o.bodyLen <= hardMax
    case TooBig => o.bodyLen > hardMax && |o.records| == 1
    case Unsplit => o.bodyLen > hardMax && |o.records| >= 2
    case Unpacked => true
  }

  /** A flushed batch: within the record cap, and under the byte cap until its last record. */
  ghost predicate WithinCaps(b: Run, limits: Limits) {
    && b.Ok()
    && 1 <= |b.bounds| <= limits.batchSize
    && Start(b.bounds, |b.bounds| - 1) < limits.maxBatchBytes
  }

  /** What the sender has let go of, and the counters that say so. */
  class Log {
    const limits: Limits
    ghost var outs: seq<Out>
    ghost var batches: seq<Run>
    var dispatched: nat
    var rejected: nat
    var oversize: nat
    var closed: nat
    var backlog: nat

    constructor (limits: Limits)
      ensures Valid() && outs == [] && batches == [] && this.limits == limits
    {
      this.limits := limits;
      outs, batches, dispatched := [], [], 0;
      rejected, oversize, closed, backlog := 0, 0, 0, 0;
    }

    /** The records no worker ever saw. */
    function Abandoned(): nat
      reads this
    {
      closed + backlog
    }

    /** Every record that left is counted under what became of it, and every batch and
        every piece of one kept to its limits. */
    ghost predicate Valid()
      reads this
    {
      && dispatched == Handings(outs)
      && rejected == Lost(outs, Unpacked) + Lost(outs, Unsplit)
      && oversize == Lost(outs, TooBig)
      && closed == Lost(outs, LostClosing)
      && backlog == Lost(outs, LostBacklog)
      && (forall o :: o in outs ==> WithinHardLimit(o, limits.hardMax))
      && (forall b :: b in batches ==> WithinCaps(b, limits))
    }

    method Leave(n: nat, fate: Fate, ghost o: Out)
      requires Valid() && o.fate == fate && |o.records| == n && WithinHardLimit(o, limits.hardMax)
      modifies this
      ensures Valid() && outs == old(outs) + [o] && batches == old(batches)
      ensures Gone(outs) == Gone(old(outs)) + o.records
      ensures rejected == old(rejected) + (if fate.Unsplit? || fate.Unpacked? then n else 0)
      ensures closed == old(closed) + (if fate.LostClosing? then n else 0)
      ensures backlog == old(backlog) + (if fate.LostBacklog? then n else 0)
    {
      hide WithinCaps, WithinHardLimit, Gone, Lost, Handings;
      OutAppended(outs, o);
      outs := outs + [o];
      match fate
      case Handed => dispatched := dispatched + 1;
      case LostClosing => closed := closed + n;
      case LostBacklog => backlog := backlog + n;
      case TooBig => oversize := oversize + n;
      case Unsplit => rejected := rejected + n;
      case Unpacked => rejected := rejected + n;
    }

    ghost method Flushed(b: Run)
      requires Valid() && WithinCaps(b, limits)
      modifies `batches
      ensures Valid() && batches == old(batches) + [b]
    {
      batches := batches + [b];
    }
  }

  /** One record more keeps a batch that is not full within its caps. */
  lemma AppendKeepsCaps(buf: Bytes, bounds: seq<nat>, rec: Bytes, limits: Limits)
    requires Bounded(buf, bounds) && |bounds| < limits.batchSize && |buf| < limits.maxBatchBytes
    ensures WithinCaps(Run(buf + rec, bounds + [|buf| + |rec|]), limits)
    ensures Cut(buf + rec, bounds + [|buf| + |rec|]) == Cut(buf, bounds) + [rec]
    ensures StrictlyIncreasing(bounds) && rec != [] ==> StrictlyIncreasing(bounds + [|buf| + |rec|])
  {
    CutAppend(buf, bounds, rec);
  }

  lemma EmptyBatch()
    ensures Bounded([], []) && Cut([], []) == [] && StrictlyIncreasing([])
  {
  }

  lemma NoBytes(buf: Bytes, bounds: seq<nat>)
    requires Bounded(buf, bounds) && bounds == []
    ensures buf == []
  {
  }

  lemma HoldsBytes(run: Run)
    requires Bounded(run.raw, run.bounds) && run.bounds != [] && StrictlyIncreasing(run.bounds)
    ensures run.raw != []
  {
  }

  lemma Regroup<T>(a: seq<T>, b: seq<T>, x: T, c: seq<T>)
    ensures a + (b + [x]) + c == a + b + ([x] + c)
  {
  }

  /** What has gone wrong so far and the records it has cost: compressions that failed and records
      rejected, hand-offs ended by their context and records abandoned. */
  datatype Entry = Entry(failures: nat, rejected: nat, expiries: nat, abandoned: nat)

  class Sender {
    const limits: Limits
    const pk: Packer
    const timer: Timer
    const queue: Queue
    const signals: Signals
    const log: Log
    var buf: Bytes
    var bounds: seq<nat>
    var n: nat
    var armed: bool

    constructor (limits: Limits, pk: Packer, queue: Queue, ticks: nat)
      requires limits.batchSize >= 1 && limits.maxBatchBytes >= 1 && pk.Valid()
      requires pk.format.JSONArray? ==> [] !in queue.All()
      ensures AtSelect() && Seen() == queue.All()
      ensures fresh(log) && fresh(timer) && fresh(signals)
    {
      this.limits, this.pk, this.queue := limits, pk, queue;
      timer := new Timer();
      signals := new Signals(ticks);
      log := new Log(limits);
      buf, bounds, n, armed := [], [], 0, false;
    }

    /** The batch and what has left it are in order. */
    ghost predicate Valid()
      reads this, log, queue
    {
      && limits.batchSize >= 1 && limits.maxBatchBytes >= 1 && pk.Valid()
      && n == |bounds| && Bounded(buf, bounds)
      && (n > 0 ==> WithinCaps(Run(buf, bounds), limits))
      && log.limits == limits && log.Valid()
      && (pk.format.JSONArray? ==> StrictlyIncreasing(bounds) && [] !in queue.All())
    }

    /** The timer runs or holds a fire exactly when `armed` says so, never both. */
    ghost predicate TimerOk()
      reads this, timer
    {
      (armed <==> timer.running || timer.pending) && !(timer.running && timer.pending)
    }

    predicate Full()
      reads this
    {
      n >= limits.batchSize || |buf| >= limits.maxBatchBytes
    }

    /** Ready to take a record. */
    ghost predicate Open()
      reads this, log, queue, timer
    {
      Valid() && TimerOk() && !Full() && (n > 0 ==> armed)
    }

    /** At every select of the loop. */
    ghost predicate AtSelect()
      reads this, log, queue, timer
    {
      Open() && (armed <==> n > 0)
    }

    /** All records in the order they were queued: those that left, those in the batch, those
        in the queue and those to come. No step changes this. */
    ghost function Seen(): seq<Bytes>
      requires Bounded(buf, bounds)
      reads this, log, queue
    {
      Gone(log.outs) + Cut(buf, bounds) + queue.All()
    }

    method Arm()
      requires TimerOk()
      modifies timer, `armed
      ensures TimerOk() && armed
    {
      if armed {
        return;
      }
      timer.Reset();
      armed := true;
    }

    /** Stops the timer, taking a fire that got away first; the receive cannot block. */
    method Disarm()
      requires TimerOk()
      modifies timer, `armed
      ensures TimerOk() && !armed
    {
      timer.Tick();
      if !armed {
        return;
      }
      var stopped := timer.Stop();
      if !stopped {
        timer.Receive();
      }
      armed := false;
    }

    /** Takes one record out of the queue into the batch. */
    method AppendRecord()
      requires Open() && queue.waiting != []
      modifies this, timer, queue
      ensures Valid() && TimerOk() && n == old(n) + 1 && armed
      ensures Seen() == old(Seen())
      ensures queue.All() == old(queue.All())[1..] && queue.waiting == old(queue.waiting)[1..]
    {
      var rec := queue.Receive();
      AppendKeepsCaps(buf, bounds, rec, limits);
      Regroup(Gone(log.outs), Cut(buf, bounds), rec, queue.All());
      buf := buf + rec;
      bounds := bounds + [|buf|];
      n := n + 1;
      if n == 1 {
        Arm();
      }
    }

    /** A batch fit to hand on. */
    ghost predicate Ready(b: Batch)
      reads b.raw.mem, b.body
    {
      && b.Ok() && b.records >= 1 && b.raw.mem !in pk.Repr() && b.body !in pk.Repr()
      && b.body.data == pk.Body(b.raw.Bytes(), b.records)
      && (pk.format.JSONArray? ==> StrictlyIncreasing(b.bounds))
    }

    lemma HalvesReady(b: Batch, left: Batch, right: Batch)
      requires pk.IsSplit(b, left, right) && Ready(b) && left.body !in pk.Repr() && right.body !in pk.Repr()
      ensures Ready(left) && Ready(right)
      ensures left.records < b.records && right.records < b.records
      ensures left.AsRun().Records() + right.AsRun().Records() == b.AsRun().Records()
      ensures left.AsRun().Records() == b.AsRun().Records()[..b.records / 2]
      ensures right.AsRun().Records() == b.AsRun().Records()[b.records / 2..]
    {
      StrictFromHalves(b.AsRun());
    }

    /** The size of the body that carries these records. */
    ghost function Size(records: seq<Bytes>): nat {
      |pk.Body(Joined(records), |records|)|
    }

    lemma SizeOfBody(b: Batch)
      requires Ready(b)
      ensures |b.body.data| == Size(b.AsRun().Records())
    {
      JoinedOfCut(b.raw.Bytes(), b.bounds);
    }

    /** How a packed batch leaves: whole if its body is within the hard limit, as the pieces of
        its halves, left before right, if it is not; a single record over it is too big, and a
        batch whose halves cannot be packed is lost whole. */
    ghost predicate Pieces(records: seq<Bytes>, outs: seq<Out>)
      decreases |records|
    {
      var size, mid := Size(records), |records| / 2;
      if size <= limits.hardMax then Whole(records, size, outs)
      else if |records| < 2 then outs == [Out(records, size, TooBig)]
      else
        || outs == [Out(records, size, Unsplit)]
        || exists k :: 0 <= k <= |outs| && Pieces(records[..mid], outs[..k]) && Pieces(records[mid..], outs[k..])
    }

    ghost predicate Whole(records: seq<Bytes>, size: nat, outs: seq<Out>) {
      |outs| == 1 && outs[0].records == records && outs[0].bodyLen == size
      && (outs[0].fate.Handed? || outs[0].fate.LostClosing? || outs[0].fate.LostBacklog?)
    }

    lemma TwoPieces(records: seq<Bytes>, before: seq<Out>, between: seq<Out>, after: seq<Out>)
      requires |records| >= 2 && Size(records) > limits.hardMax && before <= between && between <= after
      requires Pieces(records[..|records| / 2], between[|before|..])
      requires Pieces(records[|records| / 2..], after[|between|..])
      ensures Pieces(records, after[|before|..])
    {
      hide Size, Whole, Packer.Body;
      var outs, k := after[|before|..], |between| - |before|;
      assert outs[..k] == between[|before|..] && outs[k..] == after[|between|..];
      assert Pieces(records[..|records| / 2], outs[..k]) && Pieces(records[|records| / 2..], outs[k..]);
    }

    /** A batch that leaves as one. */
    lemma OnePiece(records: seq<Bytes>, before: seq<Out>, after: seq<Out>, o: Out)
      requires records != [] && after == before + [o] && o.records == records
      requires match o.fate
               case TooBig => Size(records) > limits.hardMax && |records| == 1 && o.bodyLen == Size(records)
               case Unsplit => Size(records) > limits.hardMax && |records| >= 2 && o.bodyLen == Size(records)
               case Unpacked => false
               case _ => o.bodyLen == Size(records) <= limits.hardMax
      ensures Pieces(records, after[|before|..])
    {
      hide Size;
      assert after[|before|..] == [o];
    }

    ghost function Books(): Entry
      reads log, signals, pk.Repr()
    {
      Entry(pk.Failures(), log.rejected, signals.expiries, log.Abandoned())
    }

    /** Records are rejected here exactly if compressing fails, and abandoned exactly if a
        hand-off's context ends. */
    ghost predicate LossesFit(was: Entry)
      reads log, signals, pk.Repr()
    {
      && was.failures <= pk.Failures() && was.rejected <= log.rejected
      && (was.failures == pk.Failures() <==> was.rejected == log.rejected)
      && was.expiries <= signals.expiries && was.abandoned <= log.Abandoned()
      && (was.expiries == signals.expiries <==> was.abandoned == log.Abandoned())
    }

    /** Dispatch: a batch over the hard limit goes as halves, left before right, and theirs;
        whatever becomes of the pieces, its records leave in order, each counted once. */
    method Dispatch(b: Batch, ghost records: seq<Bytes>)
      requires pk.Valid() && log.Valid() && log.limits == limits
      requires Ready(b) && records == b.AsRun().Records()
      modifies log, signals, pk.Repr()
      ensures log.Valid() && log.batches == old(log.batches)
      ensures old(log.outs) <= log.outs && Gone(log.outs) == old(Gone(log.outs)) + records
      ensures Pieces(records, log.outs[|old(log.outs)|..])
      ensures LossesFit(old(Books()))
      ensures DropsFit(old(signals.done), old(log.closed), old(log.backlog))
      decreases b.records, 0
    {
      hide Bounded, Cut, StrictlyIncreasing, Packer.IsSplit, Gone, Lost, Log.Valid, Pieces, Size, Packer.Body;
      var size := |b.body.data|;
      SizeOfBody(b);
      ghost var outs := log.outs;
      if size <= limits.hardMax {
        HandOff(b, size, records);
        OnePiece(records, outs, log.outs, log.outs[|outs|]);
        return;
      }
      if b.records < 2 {
        log.Leave(1, TooBig, Out(records, size, TooBig));
        OnePiece(records, outs, log.outs, Out(records, size, TooBig));
        return;
      }
      var halves := pk.Split(b);
      if halves == None {
        log.Leave(b.records, Unsplit, Out(records, size, Unsplit));
        OnePiece(records, outs, log.outs, Out(records, size, Unsplit));
        return;
      }
      var (left, right) := halves.value;
      HalvesReady(b, left, right);
      DispatchHalves(left, right, records);
    }

    /** The halves of a batch over the hard limit, left before right. */
    method DispatchHalves(left: Batch, right: Batch, ghost records: seq<Bytes>)
      requires pk.Valid() && log.Valid() && log.limits == limits
      requires Ready(left) && Ready(right) && |records| >= 2 && Size(records) > limits.hardMax
      requires left.AsRun().Records() == records[..|records| / 2] && right.AsRun().Records() == records[|records| / 2..]
      requires left.records < |records| && right.records < |records|
      modifies log, signals, pk.Repr()
      ensures log.Valid() && log.batches == old(log.batches)
      ensures old(log.outs) <= log.outs && Gone(log.outs) == old(Gone(log.outs)) + records
      ensures Pieces(records, log.outs[|old(log.outs)|..])
      ensures LossesFit(old(Books()))
      ensures DropsFit(old(signals.done), old(log.closed), old(log.backlog))
      decreases |records| - 1, 1
    {
      hide Bounded, Cut, StrictlyIncreasing, Gone, Lost, Log.Valid, Pieces, Size, Packer.Body;
      ghost var outs, before, mid := log.outs, Gone(log.outs), |records| / 2;
      Dispatch(left, records[..mid]);
      ghost var middle := log.outs;
      Dispatch(right, records[mid..]);
      TwoPieces(records, outs, middle, log.outs);
      assert records[..mid] + records[mid..] == records;
      assert before + records[..mid] + records[mid..] == before + (records[..mid] + records[mid..]);
    }

    /** A record abandoned for want of a slot counts as closed only once Close has begun, and as
        backlog only before. */
    ghost predicate DropsFit(done: bool, closed: nat, backlog: nat)
      reads signals, log
    {
      && (done ==> signals.done && log.backlog == backlog)
      && (!signals.done ==> log.closed == closed)
    }

    /** HandOff waits for a slot, seeing to the report ticker meanwhile: the jobs channel takes the
        batch, or the context ends the wait and the batch is abandoned, as a casualty of shutdown
        or of a full backlog. */
    method HandOff(b: Batch, size: nat, ghost records: seq<Bytes>)
      requires log.Valid() && log.limits == limits && size <= limits.hardMax && |records| == b.records >= 1
      modifies log, signals
      ensures DropsFit(old(signals.done), old(log.closed), old(log.backlog))
      ensures LossesFit(old(Books()))
      ensures |log.outs| == |old(log.outs)| + 1 && Whole(records, size, log.outs[|old(log.outs)|..])
      ensures match log.outs[|old(log.outs)|].fate
              case LostClosing => signals.done && signals.expiries == old(signals.expiries) + 1
              case LostBacklog => !signals.done && signals.expiries == old(signals.expiries) + 1
              case fate => fate == Handed && signals.expiries == old(signals.expiries)
      ensures log.Valid() && log.batches == old(log.batches) && log.rejected == old(log.rejected)
      ensures old(log.outs) <= log.outs && Gone(log.outs) == old(Gone(log.outs)) + records
    {
      hide Gone, Lost, Log.Valid;
      var slot := signals.Wait();
      if slot {
        log.Leave(b.records, Handed, Out(records, size, Handed));
      } else {
        var closing := signals.Closing();
        var why := if closing then LostClosing else LostBacklog;
        log.Leave(b.records, why, Out(records, size, why));
      }
    }

    /** How a batch leaves: in pieces, or lost whole because it could not be packed. */
    ghost predicate Leaves(records: seq<Bytes>, outs: seq<Out>) {
      Pieces(records, outs) || outs == [Out(records, 0, Unpacked)]
    }

    /** Packs a finished run and dispatches it. */
    method Complete(raw: Slice, ends: seq<nat>, ghost run: Run)
      requires pk.Valid() && log.Valid() && log.limits == limits
      requires raw.Ok() && raw.mem !in pk.Repr() && run == Run(raw.Bytes(), ends) && run.Ok() && ends != []
      requires pk.format.JSONArray? ==> StrictlyIncreasing(ends)
      modifies log, signals, pk.Repr()
      ensures log.Valid() && log.batches == old(log.batches)
      ensures old(log.outs) <= log.outs && Gone(log.outs) == old(Gone(log.outs)) + run.Records()
      ensures DropsFit(old(signals.done), old(log.closed), old(log.backlog))
      ensures LossesFit(old(Books()))
      ensures Leaves(run.Records(), log.outs[|old(log.outs)|..])
    {
      hide Cut, Gone, Lost, Pieces;
      if pk.format.JSONArray? {
        HoldsBytes(run);
      }
      var b := pk.Pack(raw, ends);
      if b == None {
        log.Leave(|ends|, Unpacked, Out(run.Records(), 0, Unpacked));
      } else {
        Dispatch(b.value, run.Records());
      }
    }

    lemma NothingLostYet()
      ensures LossesFit(Books())
    {
    }

    /** Flush: the batch leaves and the next one starts empty; the timer is not touched. */
    method Flush()
      requires Valid()
      modifies `buf, `bounds, `n, log, signals, pk.Repr()
      ensures DropsFit(old(signals.done), old(log.closed), old(log.backlog))
      ensures Valid() && n == 0 && buf == [] && Seen() == old(Seen())
      ensures log.batches == old(log.batches) + if old(n) == 0 then [] else [Run(old(buf), old(bounds))]
      ensures LossesFit(old(Books()))
      ensures old(log.outs) <= log.outs
      ensures if old(n) == 0 then log.outs == old(log.outs)
              else Leaves(old(Run(buf, bounds).Records()), log.outs[|old(log.outs)|..])
    {
      hide Bounded, Cut, StrictlyIncreasing, WithinCaps, Gone, Lost, WithinHardLimit, LossesFit, Leaves, Packer.Failures;
      EmptyBatch();
      ghost var books := Books();
      if n == 0 {
        NoBytes(buf, bounds);
        NothingLostYet();
        return;
      }
      var ends := bounds;
      var raw := new Buffer(buf);
      var slice := Slice(raw, 0, |raw.data|);
      ghost var run, before := Run(buf, bounds), Gone(log.outs);
      assert slice.Bytes() == run.raw;
      log.Flushed(run);
      buf, bounds, n := [], [], 0;
      assert Books() == books;
      Complete(slice, ends, run);
      assert before + run.Records() + [] == before + run.Records();
    }

    /** A batch that has reached a cap. */
    predicate Filled(b: Run) {
      |b.bounds| >= limits.batchSize || |b.raw| >= limits.maxBatchBytes
    }

    /** Only full batches have been flushed since there were so many. */
    ghost predicate FilledSince(batches: nat)
      reads log
    {
      batches <= |log.batches| && forall k :: batches <= k < |log.batches| ==> Filled(log.batches[k])
    }

    /** One record more, and a flush if that fills the batch. */
    method DrainOne()
      requires Open() && queue.waiting != []
      modifies this, timer, queue, log, signals, pk.Repr()
      ensures Open() && Seen() == old(Seen()) && queue.All() == old(queue.All())[1..]
      ensures LossesFit(old(Books()))
      ensures old(log.batches) <= log.batches && FilledSince(|old(log.batches)|)
    {
      hide Bounded, Cut, StrictlyIncreasing, WithinCaps, Gone, Lost, WithinHardLimit, Log.Valid, Pieces, Leaves;
      AppendRecord();
      if Full() {
        Flush();
      }
    }

    /** Drain: everything in the queue goes into batches, flushed when they are full and not
        before. The timer may be left armed with an empty batch. */
    method Drain()
      requires Open()
      modifies this, timer, queue, log, signals, pk.Repr()
      ensures Open() && queue.waiting == [] && Seen() == old(Seen())
      ensures old(log.batches) <= log.batches
      ensures FilledSince(|old(log.batches)|) && LossesFit(old(Books()))
    {
      hide Bounded, Cut, StrictlyIncreasing, WithinCaps, Gone, Lost, WithinHardLimit, Log.Valid;
      while true
        invariant Open() && Seen() == old(Seen())
        invariant old(log.batches) <= log.batches
        invariant FilledSince(|old(log.batches)|) && LossesFit(old(Books()))
        decreases |queue.All()|
      {
        queue.Arrive();
        timer.Tick();
        if queue.waiting == [] {
          return;
        }
        DrainOne();
      }
    }

    /** A batch of n records that has reached a cap. */
    predicate FillsUp(b: Run, n: nat) {
      |b.bounds| == n && Filled(b)
    }

    /** A record arrives: it joins the batch, which leaves if that makes it full. */
    method OnRecord()
      requires AtSelect() && queue.waiting != []
      modifies this, timer, queue, log, signals, pk.Repr()
      ensures AtSelect() && Seen() == old(Seen())
      ensures queue.All() == old(queue.All())[1..] && LossesFit(old(Books()))
      ensures if n > 0 then n == old(n) + 1 && log.batches == old(log.batches)
              else
                && |log.batches| == |old(log.batches)| + 1 && old(log.batches) <= log.batches
                && FillsUp(log.batches[|old(log.batches)|], old(n) + 1)
    {
      hide Bounded, Cut, StrictlyIncreasing, Gone, Lost, WithinHardLimit, LossesFit, Leaves, Log.Valid, DropsFit;
      ghost var books := Books();
      NothingLostYet();
      AppendRecord();
      assert Books() == books;
      if Full() {
        Disarm();
        Flush();
      }
    }

    /** The interval has run out: there is always something to flush. */
    method OnTimer()
      requires AtSelect() && timer.pending
      modifies this, timer, log, signals, pk.Repr()
      ensures AtSelect() && Seen() == old(Seen())
      ensures n == 0 && |log.batches| == |old(log.batches)| + 1 && LossesFit(old(Books()))
    {
      hide Bounded, Cut, StrictlyIncreasing, WithinCaps, Gone, Lost, WithinHardLimit;
      timer.Receive();
      armed := false;
      if n > 0 {
        Flush();
      }
    }

    /** A flush request, or shutdown: everything queued so far leaves. */
    method FlushAll()
      requires AtSelect()
      modifies this, timer, queue, log, signals, pk.Repr()
      ensures AtSelect() && Seen() == old(Seen())
      ensures n == 0 && queue.waiting == [] && !timer.running && !timer.pending
      ensures Seen() == Gone(log.outs) + queue.coming
      ensures LossesFit(old(Books()))
      ensures forall k :: |old(log.batches)| <= k < |log.batches| - 1 ==> Filled(log.batches[k])
    {
      hide Bounded, Cut, StrictlyIncreasing, WithinCaps, Gone, Lost, WithinHardLimit;
      EmptyBatch();
      Drain();
      Disarm();
      Flush();
      assert Gone(log.outs) + [] + queue.All() == Gone(log.outs) + queue.coming;
    }

    /** One turn of the loop: some case that is ready. */
    method Select() returns (quit: bool)
      requires AtSelect()
      modifies this, timer, queue, log, signals, pk.Repr()
      ensures AtSelect() && Seen() == old(Seen()) && LossesFit(old(Books()))
      ensures quit ==> n == 0 && !timer.running && !timer.pending && Seen() == Gone(log.outs) + queue.coming
    {
      hide Bounded, Cut, StrictlyIncreasing, WithinCaps, Gone, Lost, WithinHardLimit;
      quit := false;
      queue.Arrive();
      timer.Tick();
      if
      case queue.waiting != [] => OnRecord();
      case timer.pending => OnTimer();
      case true => // the drop report's ticker
      case true => FlushAll();
      case true =>
        FlushAll();
        quit := true;
    }

    /** Any number of turns, from the start or from anywhere a turn may begin. */
    method Turns(most: nat) returns (quit: bool)
      requires AtSelect()
      modifies this, timer, queue, log, signals, pk.Repr()
      ensures AtSelect() && Seen() == old(Seen()) && LossesFit(old(Books()))
      ensures quit ==> n == 0 && !timer.running && !timer.pending && Seen() == Gone(log.outs) + queue.coming
    {
      hide Bounded, Cut, StrictlyIncreasing, WithinCaps, Gone, Lost, WithinHardLimit;
      quit := false;
      var i := 0;
      while i < most && !quit
        invariant AtSelect() && Seen() == old(Seen()) && LossesFit(old(Books()))
        invariant quit ==> n == 0 && !timer.running && !timer.pending && Seen() == Gone(log.outs) + queue.coming
      {
        quit := Select();
        i := i + 1;
      }
    }
  }
}
