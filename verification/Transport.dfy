/** Delivering a batch: a retry loop inside a recursion over halves the server found too
    large. Each method does to the worker and its world what the course of a delivery says. */
module Transport {
  import opened Records
  import opened Options
  import opened Encoder
  import opened Packer
  import opened Backoff
  import opened Int64
  import opened Delivery
  import opened Course
  import opened LateUploads

  /** Everything outside the client, by a script nothing is known of: any script may be
      chosen. Time never runs backwards and a cancelled context stays cancelled. */
  class World {
    const script: nat -> Turn
    const obeys: bool
    const date: Bytes -> Option<int>
    var turn: nat
    var now: int
    var cancelled: bool
    ghost var requests: seq<Request>
    ghost var naps: seq<Nap>
    ghost var events: seq<Event>

    constructor (script: nat -> Turn, obeys: bool, date: Bytes -> Option<int>, now: int)
      ensures this.script == script && this.obeys == obeys && this.date == date && this.now == now
      ensures turn == 0 && !cancelled && requests == [] && naps == [] && events == []
    {
      this.script, this.obeys, this.date, this.now := script, obeys, date, now;
      turn, cancelled, requests, naps, events := 0, false, [], [], [];
    }

    /** An upload begins. */
    ghost method Begin()
      modifies `events
      ensures events == old(events) + [Began(now)]
    {
      events := events + [Began(now)];
    }

    method Clock() returns (t: int)
      modifies `now, `turn
      ensures now == old(now) + script(old(turn)).takes == t && turn == old(turn) + 1
    {
      now := now + script(turn).takes;
      turn := turn + 1;
      t := now;
    }

    /** One request, answered somehow. */
    method Do(ghost records: seq<Bytes>, body: Buffer) returns (a: Answer)
      modifies `now, `turn, `cancelled, `requests, `events
      ensures turn == old(turn) + 1 && now == old(now) + script(old(turn)).takes
      ensures cancelled == (old(cancelled) || script(old(turn)).cancels)
      ensures requests == old(requests) + [Request(records, body.data, a, now)]
      ensures events == old(events) + [Asking(old(now), now)]
      ensures a == if obeys && old(cancelled) then Error else script(old(turn)).answer
    {
      ghost var from := now;
      var t := script(turn);
      now, turn := now + t.takes, turn + 1;
      a := if obeys && cancelled then Error else t.answer;
      cancelled := cancelled || t.cancels;
      requests := requests + [Request(records, body.data, a, now)];
      events := events + [Asking(from, now)];
    }

    /** sleepCtx: waits at least d, unless the context is cancelled first. */
    method Sleep(d: nat) returns (done: bool)
      modifies `now, `turn, `cancelled, `naps, `events
      ensures turn == old(turn) + 1 && cancelled == (old(cancelled) || script(old(turn)).cancels)
      ensures done == (!cancelled || (d > 0 && !script(old(turn)).cuts))
      ensures now == old(now) + (if done then d else 0) + script(old(turn)).takes
      ensures naps == old(naps) + [Nap(old(now), d, done)]
      ensures events == old(events) + [Waited(old(now), old(now) + d, done, now)]
    {
      ghost var from := now;
      var t := script(turn);
      turn := turn + 1;
      cancelled := cancelled || t.cancels;
      done := !cancelled || (d > 0 && !t.cuts);
      now := now + (if done then d else 0) + t.takes;
      naps := naps + [Nap(from, d, done)];
      events := events + [Waited(from, from + d, done, now)];
    }
  }

  /** The counters deliveries go under. */
  class Stats {
    var sent: nat
    var rejected: nat
    var oversize: nat
    var closed: nat
    var retries: nat
    ghost var resolved: seq<Resolved>
    ghost var calls: nat    // uploads begun
    ghost var deepest: nat  // how far splits have gone

    constructor ()
      ensures sent == rejected == oversize == closed == retries == calls == deepest == 0 && resolved == []
    {
      sent, rejected, oversize, closed, retries := 0, 0, 0, 0, 0;
      resolved, calls, deepest := [], 0, 0;
    }
  }

  datatype Config = Config(maxRetries: nat, retryBackoff: int64, retryCeiling: nat, dryRun: bool,
                           format: Format, gzip: Option<Bytes -> Bytes>)

  datatype Failure = Failure(records: nat, why: Why)

  /** The body that carries these records. */
  ghost function BodyOf(format: Format, gzip: Option<Bytes -> Bytes>, records: seq<Bytes>): Bytes {
    var framed := Framed(format, Joined(records), |records|);
    if gzip.Some? then gzip.value(framed) else framed
  }

  ghost function BodyMaker(cfg: Config): seq<Bytes> -> Bytes {
    records => BodyOf(cfg.format, cfg.gzip, records)
  }

  class Worker {
    const cfg: Config
    const pick: (nat, int) -> int
    const world: World
    const stats: Stats
    var pk: Packer?

    constructor (cfg: Config, pick: (nat, int) -> int, world: World, stats: Stats)
      requires forall k: nat, n :: n > 0 ==> 0 <= pick(k, n) < n
      ensures Valid() && this.cfg == cfg && this.pick == pick && this.world == world && this.stats == stats && pk == null
    {
      this.cfg, this.pick, this.world, this.stats := cfg, pick, world, stats;
      pk := null;
    }

    ghost predicate Valid()
      reads this
    {
      Law().Valid() && (pk != null ==> Suits(pk))
    }

    ghost predicate Suits(p: Packer) {
      && p.Valid() && p.format == cfg.format
      && p.gz.Some? == cfg.gzip.Some?
      && (cfg.gzip.Some? ==> p.gz.value.gzip == cfg.gzip.value)
    }

    /** The buffers the worker's packer writes to. */
    ghost function Buffers(): set<object>
      reads this
    {
      if pk == null then {} else pk.Repr()
    }

    ghost function Now(): Shot
      reads this, world, stats
    {
      Shot(world.now, world.cancelled, stats.sent, stats.rejected, stats.oversize, stats.closed, stats.retries,
           stats.calls, stats.deepest, world.requests, world.naps, stats.resolved, world.events)
    }

    ghost function Here(): Point
      reads this, world, stats
    {
      Point(Now(), world.turn)
    }

    ghost function Law(): Rules {
      Rules(world.script, world.obeys, world.date, pick, cfg.maxRetries, cfg.retryBackoff, cfg.gzip.Some?, BodyMaker(cfg))
    }

    /** A batch fit to send: it has records, its own body made from them, and shares no
        buffer with the packer. */
    ghost predicate Ready(b: Batch)
      reads this, b.raw.mem, b.body
    {
      && b.Ok() && b.records >= 1
      && (cfg.format.JSONArray? ==> StrictlyIncreasing(b.bounds))
      && b.body.data == BodyOf(cfg.format, cfg.gzip, b.AsRun().Records())
      && b.raw.mem !in Buffers() && b.body !in Buffers()
    }

    /** How often compressing has failed. */
    ghost function Failures(): nat
      reads this, Buffers()
    {
      if pk == null then 0 else pk.Failures()
    }

    /** The worker's packer, built the first time a batch has to be split. */
    method GetPacker() returns (p: Packer)
      requires Valid()
      modifies `pk
      ensures Valid() && pk == p && Failures() == old(Failures())
      ensures pk == old(pk) || fresh(Buffers())
    {
      if pk == null {
        var gz: Option<Compressor> := None;
        if cfg.gzip.Some? {
          var c := new Compressor(cfg.gzip.value);
          gz := Some(c);
        }
        pk := new Packer(cfg.format, gz);
      }
      p := pk;
    }

    /** Counts a batch under its fate. */
    method Settle(b: Batch, why: Why, ghost last: Answer)
      requires b.Ok()
      modifies stats
      ensures Here() == Counts(old(Here()), b.AsRun().Records(), why, last)
    {
      stats.resolved := stats.resolved + [Resolved(b.AsRun().Records(), why, last)];
      match why
      case Sent => stats.sent := stats.sent + b.records;
      case Rejected => stats.rejected := stats.rejected + b.records;
      case Oversize => stats.oversize := stats.oversize + b.records;
      case Closed => stats.closed := stats.closed + b.records;
    }

    /** The wait before attempt number `attempt`, not begun at all if it would end past the
        deadline. */
    method Pause(attempt: nat, retryAfter: int64, deadline: int) returns (p: Paused)
      requires Valid() && attempt >= 1
      modifies world
      ensures (Here(), p) == Pauses(Law(), old(Here()), deadline, attempt, retryAfter)
    {
      hide BodyMaker, Cap, FitsDelay;
      var turn := world.turn;
      var delay := Delay(cfg.retryBackoff, attempt, retryAfter, n => pick(turn, n));
      var now := world.Clock();
      if now + delay > deadline {
        return TooLate;
      }
      var done := world.Sleep(delay);
      p := if done then Rested else CutShort;
    }

    /** Attempt number `attempt`, counted as a retry unless it is the first. */
    method Send(b: Batch, attempt: nat) returns (answer: Answer)
      requires Ready(b)
      modifies world, stats`retries
      ensures answer == AnswerAt(Law(), old(Here()))
      ensures Here() == Asks(Law(), Retried(old(Here()), attempt), b.AsRun().Records())
    {
      hide Bounded, Cut, StrictlyIncreasing, BodyOf;
      if attempt > 0 {
        stats.retries := stats.retries + 1;
      }
      answer := world.Do(b.AsRun().Records(), b.body);
    }

    /** The retry loop of UploadBy, up to the exit that settles or splits the batch. */
    method Attempts(b: Batch, deadline: int) returns (end: End, ghost last: Answer)
      requires Valid() && Ready(b)
      modifies world, stats`retries
      ensures Tried(Here(), end, last) == Tries(Law(), old(Here()), b.AsRun().Records(), deadline, 0, 0, Error)
    {
      hide Bounded, Cut, StrictlyIncreasing, BodyOf, BodyMaker, Pauses, Asks;
      ghost var start, records := Here(), b.AsRun().Records();
      var retryAfter: int64 := 0;
      var attempt := 0;
      last := Error;
      while attempt <= cfg.maxRetries
        invariant 0 <= attempt <= cfg.maxRetries + 1
        invariant Tries(Law(), start, records, deadline, 0, 0, Error)
               == Tries(Law(), Here(), records, deadline, attempt, retryAfter, last)
        decreases cfg.maxRetries + 1 - attempt
      {
        if attempt > 0 {
          var paused := Pause(attempt, retryAfter, deadline);
          if paused.TooLate? {
            break;
          }
          if paused.CutShort? {
            return Settled(Closed), last;
          }
        }
        retryAfter := 0;
        ghost var before := Here();
        var answer := Send(b, attempt);
        last := answer;
        match answer {
          case Error =>
            if world.cancelled {
              return Settled(Closed), last;
            }
          case Response(status, header) =>
            if 200 <= status <= 299 {
              return Settled(Sent), last;
            }
            if status == 413 && b.records > 1 {
              return TooLarge, last;
            }
            if !Retryable(status) {
              return Settled(if status == 413 then Oversize else Rejected), last;
            }
            retryAfter := ParseRetryAfter(header, world.now, world.date);
        }
        attempt := attempt + 1;
      }
      end := Settled(Rejected);
    }

    /** An upload is entered, and goes down in history. */
    ghost method Enter(depth: nat)
      modifies world`events, stats`calls, stats`deepest
      ensures Here() == Enters(old(Here()), depth)
    {
      world.Begin();
      stats.calls := stats.calls + 1;
      stats.deepest := if depth > stats.deepest then depth else stats.deepest;
    }

    /** UploadBy goes the course of a delivery, in which the compressor fails as often as it did;
        so the batch's records are resolved once each, in order, within 2n-1 uploads, none deeper
        than its halvings go. */
    method UploadBy(b: Batch, deadline: int, ghost depth: nat) returns (err: Option<Failure>, ghost luck: Luck)
      requires Valid() && Ready(b)
      modifies this, world, stats, Buffers()
      ensures Valid() && (pk == old(pk) || fresh(Buffers()))
      ensures old(b.AsRun().Records()) != []
      ensures Failures() >= old(Failures())
      ensures Done(Here(), err == None, Failures() - old(Failures()))
        == Delivered(Law(), old(Here()), old(b.AsRun().Records()), deadline, depth, luck)
      ensures Delivers(old(Now()), Now(), Law().Promise(deadline), old(b.AsRun().Records()), 2 * b.records - 1,
                       depth + Halvings(b.records), err == None)
      decreases b.records, 1
    {
      hide Bounded, Cut, StrictlyIncreasing, BodyOf, Delivers, BodyMaker, Halvings, Tries, Counts, Enters, Course.Halved;
      ghost var start, records := Here(), b.AsRun().Records();
      Enter(depth);
      var end, last := Attempts(b, deadline);
      match end {
        case TooLarge =>
          err, luck := SplitAndSend(b, deadline, records, depth, last);
        case Settled(why) =>
          luck := Fails;
          Settle(b, why, last);
          err := if why == Sent then None else Some(Failure(b.records, why));
      }
      DeliveryGoes(Law(), start, records, deadline, depth, depth + Halvings(|records|), luck);
    }

    /** Two halves fit to send, or nothing if compressing one failed. */
    method Halve(b: Batch) returns (halves: Option<(Batch, Batch)>)
      requires Valid() && Ready(b) && b.records >= 2
      modifies this, Buffers()
      ensures Valid() && (pk == old(pk) || fresh(Buffers()))
      ensures Failures() == old(Failures()) + if halves == None then 1 else 0
      ensures cfg.gzip == None ==> halves.Some?
      ensures halves.Some? ==> AreHalves(old(b.AsRun().Records()), halves.value.0, halves.value.1)
    {
      hide Bounded, Cut, StrictlyIncreasing, BodyOf, Packer.IsSplit, AreHalves;
      ghost var records := b.AsRun().Records();
      var p := GetPacker();
      halves := p.Split(b);
      if halves.Some? {
        HalvesReady(b, halves.value.0, halves.value.1, records);
      }
    }

    /** Two batches fit to send, holding the first half of these records and the second. */
    ghost predicate AreHalves(records: seq<Bytes>, left: Batch, right: Batch)
      reads this, left.raw.mem, left.body, right.raw.mem, right.body
    {
      && Ready(left) && Ready(right)
      && left.AsRun().Records() == records[..|records| / 2] && right.AsRun().Records() == records[|records| / 2..]
    }

    lemma HalvesReady(b: Batch, left: Batch, right: Batch, records: seq<Bytes>)
      requires pk != null && Suits(pk) && pk.IsSplit(b, left, right)
      requires cfg.format.JSONArray? ==> StrictlyIncreasing(b.bounds)
      requires records == b.AsRun().Records()
      requires b.raw.mem !in Buffers() && left.body !in Buffers() && right.body !in Buffers()
      ensures AreHalves(records, left, right)
    {
      StrictFromHalves(b.AsRun());
      HalfBody(left);
      HalfBody(right);
    }

    /** A packed half's body is made from its own records. */
    lemma HalfBody(b: Batch)
      requires b.Ok() && pk != null && Suits(pk)
      requires b.body.data == pk.Body(b.raw.Bytes(), b.records)
      ensures b.body.data == BodyOf(cfg.format, cfg.gzip, b.AsRun().Records())
    {
      JoinedOfCut(b.raw.Bytes(), b.bounds);
    }

    /** SplitAndSend: both halves are delivered, one after the other, whatever the first one
        does, against the deadline their parent had. */
    method SplitAndSend(b: Batch, deadline: int, ghost records: seq<Bytes>, ghost depth: nat, ghost answer: Answer)
      returns (err: Option<Failure>, ghost luck: Luck)
      requires Valid() && Ready(b) && b.records >= 2 && records == b.AsRun().Records()
      modifies this, world, stats, Buffers()
      ensures Valid() && (pk == old(pk) || fresh(Buffers()))
      ensures Failures() >= old(Failures())
      ensures Done(Here(), err == None, Failures() - old(Failures()))
        == if SplitWorks(Law(), luck) then Course.Halved(Law(), old(Here()), records, deadline, depth, luck)
           else Done(Counts(old(Here()), records, Rejected, answer), false, 1)
      decreases b.records, 0
    {
      hide Bounded, Cut, StrictlyIncreasing, BodyOf, BodyMaker, Delivers, Delivered, AreHalves, Counts, Halvings, Rules.Promise;
      ghost var start := Here();
      var halves := Halve(b);
      if halves == None {
        Settle(b, Rejected, answer);
        return Some(Failure(b.records, Rejected)), Fails;
      }
      var (left, right) := halves.value;
      err, luck := SendHalves(left, right, deadline, records, depth);
    }

    method SendHalves(left: Batch, right: Batch, deadline: int, ghost records: seq<Bytes>, ghost depth: nat)
      returns (err: Option<Failure>, ghost luck: Luck)
      requires Valid() && |records| >= 2 && AreHalves(records, left, right)
      modifies this, world, stats, Buffers()
      ensures Valid() && (pk == old(pk) || fresh(Buffers()))
      ensures luck.Works? && Failures() >= old(Failures())
      ensures Done(Here(), err == None, Failures() - old(Failures()))
        == Course.Halved(Law(), old(Here()), records, deadline, depth, luck)
      decreases |records| - 1, 2
    {
      hide Bounded, Cut, StrictlyIncreasing, BodyOf, BodyMaker, Delivers, Delivered, AreHalves, Halvings, Rules.Promise;
      TheHalves(records, left, right);
      var errLeft, l := UploadBy(left, deadline, depth + 1);
      var errRight, r := UploadBy(right, deadline, depth + 1);
      err := if errLeft.Some? then errLeft else errRight;
      luck := Works(l, r);
    }

    lemma TheHalves(records: seq<Bytes>, left: Batch, right: Batch)
      requires AreHalves(records, left, right)
      ensures Ready(left) && Ready(right)
      ensures left.AsRun().Records() == records[..|records| / 2] && right.AsRun().Records() == records[|records| / 2..]
      ensures left.records == |records| / 2 && right.records == |records| - |records| / 2
    {
    }

    /** Upload: one batch, one deadline. A dry run sends nothing and counts the batch as
        sent. */
    method Upload(b: Batch) returns (err: Option<Failure>, ghost deadline: int, ghost luck: Luck)
      requires Valid() && Ready(b)
      modifies this, world, stats, Buffers()
      ensures Valid() && (pk == old(pk) || fresh(Buffers()))
      ensures cfg.dryRun ==> err == None && Here() == old(Here()).(shot := old(Now()).(sent := old(stats.sent) + b.records))
      ensures old(b.AsRun().Records()) != []
      ensures !cfg.dryRun ==>
        && deadline == Looks(Law(), old(Here())).shot.now + cfg.retryCeiling
        && Failures() >= old(Failures())
        && Done(Here(), err == None, Failures() - old(Failures()))
           == Delivered(Law(), Looks(Law(), old(Here())), old(b.AsRun().Records()), deadline, 0, luck)
        && Delivers(Looks(Law(), old(Here())).shot, Now(), Law().Promise(deadline), old(b.AsRun().Records()),
                    2 * b.records - 1, Halvings(b.records), err == None)
    {
      hide Delivers, BodyOf, BodyMaker, Bounded, Cut, StrictlyIncreasing, Halvings, Delivered;
      deadline, luck := 0, Fails;
      if cfg.dryRun {
        stats.sent := stats.sent + b.records;
        return None, deadline, luck;
      }
      var now := world.Clock();
      deadline := now + cfg.retryCeiling;
      err, luck := UploadBy(b, now + cfg.retryCeiling, 0);
    }
  }

  // ---- runs of the worker ----

  /** Any batch of two records or more, any deadline and any worker: with the server that is
      slow to refuse, the halves are requested after the deadline, unless compressing one fails
      and there was but one upload. */
  method LateHalves(w: Worker, b: Batch, deadline: int) returns (ghost s: Point)
    requires w.Valid() && w.Ready(b) && b.records >= 2
    requires w.world.script == SlowRefusal(w.world.now, deadline) && !w.world.cancelled
    modifies w, w.world, w.stats, w.Buffers()
    ensures w.Valid() && s == old(w.Here())
    ensures Late(s, w.Here(), deadline) || (w.Failures() > old(w.Failures()) && w.stats.calls == s.shot.calls + 1)
  {
    hide Delivers, BodyOf, BodyMaker, Bounded, Cut, StrictlyIncreasing, Halvings, Late, Delivered;
    s := w.Here();
    ghost var records := b.AsRun().Records();
    var err, luck := w.UploadBy(b, deadline, 0);
    if SplitWorks(w.Law(), luck) {
      SlowRefusalIsLate(w.Law(), s, records, deadline, 0, luck);
    } else {
      UnsplitStartsOnce(w.Law(), s, records, deadline, 0, luck);
    }
  }

  /** And with a client that does not obey cancellation, any such batch can have waits scheduled
      for twice the time there is until the deadline. */
  method CutHalves(w: Worker, b: Batch, secs: nat) returns (ghost s: Shot)
    requires w.Valid() && w.Ready(b) && b.records >= 2
    requires !w.world.obeys && w.cfg.maxRetries >= 1 && 1 <= secs <= 60
    requires w.world.script == CutShortScript(w.world.turn, secs)
    modifies w, w.world, w.stats, w.Buffers()
    ensures w.Valid() && s == old(w.Now()) && s.naps <= w.Now().naps
    ensures Scheduled(NewNaps(s, w.Now())) == 2 * (secs * SECOND)
      || (w.Failures() > old(w.Failures()) && w.stats.calls == s.calls + 1)
  {
    hide Delivers, BodyOf, BodyMaker, Bounded, Cut, StrictlyIncreasing, Halvings, Delivered;
    s := w.Now();
    ghost var start, records := w.Here(), b.AsRun().Records();
    var err, luck := w.UploadBy(b, w.world.now + secs * SECOND, 0);
    if SplitWorks(w.Law(), luck) {
      CutWaits(w.Law(), start, records, 0, luck, secs);
    } else {
      UnsplitStartsOnce(w.Law(), start, records, s.now + secs * SECOND, 0, luck);
    }
    DeliveryExtends(s, w.Now(), w.Law().Promise(s.now + secs * SECOND), records, 2 * |records| - 1, Halvings(|records|),
                    err == None);
  }

  /** Such workers exist: two records, and ten seconds. */
  method TenSecondsTwice() returns (w: Worker, ghost s: Shot)
    ensures s.now == 0 && s.naps <= w.Now().naps && Scheduled(NewNaps(s, w.Now())) == 20 * SECOND
  {
    hide BodyMaker, Cut;
    var world := new World(CutShortScript(0, 10), false, _ => None, 0);
    var b;
    w, b := TwoRecords(world, 1);
    s := CutHalves(w, b, 10);
  }

  /** The halves requested after a deadline in ten. */
  method LateByTen() returns (w: Worker, ghost s: Point)
    ensures s.shot.now == 0 && Late(s, w.Here(), 10)
  {
    hide BodyMaker, Cut;
    var world := new World(SlowRefusal(0, 10), true, _ => None, 0);
    var b;
    w, b := TwoRecords(world, 0);
    s := LateHalves(w, b, 10);
  }

  /** A worker, and two records it can send. */
  method TwoRecords(world: World, maxRetries: nat) returns (w: Worker, b: Batch)
    ensures w.Valid() && w.Ready(b) && b.records == 2 && fresh(w) && fresh(w.stats) && w.pk == null && w.world == world
    ensures w.cfg.gzip == None && w.cfg.maxRetries == maxRetries
  {
    hide BodyMaker, Cut;
    var stats := new Stats();
    w := new Worker(Config(maxRetries, 0, 10, false, NDJSON, None), (_, _) => 0, world, stats);
    var raw := new Buffer([123, 125, 10, 123, 125, 10]);
    var body := new Buffer([123, 125, 10, 123, 125, 10]);
    b := Batch(body, 2, 6, Slice(raw, 0, 6), [3, 6]);
    assert b.raw.Bytes() == raw.data;
    JoinedOfCut(raw.data, [3, 6]);
  }
}
