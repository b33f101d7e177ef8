/** The delivery of a batch, seen from the pipeline: a run of the step machine's upload worker
    that resolves the batch's pieces and counts what the delivery counts. */
module WorkerRuns {
  import opened Records
  import opened Pipeline
  import opened Ownership
  import C = Course
  import D = Delivery
  import P = UploadPool

  /** Steps of worker i, one after the other. */
  ghost predicate Runs(c: Config, s: State, i: nat, steps: seq<WorkerAction>)
    decreases |steps|
  {
    steps == [] || (WorkerEnabled(c, s, i, steps[0]) && Runs(c, WorkerStep(c, s, i, steps[0]), i, steps[1..]))
  }

  ghost function After(c: Config, s: State, i: nat, steps: seq<WorkerAction>): State
    requires Runs(c, s, i, steps)
    decreases |steps|
  {
    if steps == [] then s else After(c, WorkerStep(c, s, i, steps[0]), i, steps[1..])
  }

  lemma {:induction false} RunsConcat(c: Config, s: State, i: nat, x: seq<WorkerAction>, y: seq<WorkerAction>)
    requires Runs(c, s, i, x) && Runs(c, After(c, s, i, x), i, y)
    ensures Runs(c, s, i, x + y) && After(c, s, i, x + y) == After(c, After(c, s, i, x), i, y)
    decreases |x|
  {
    if x == [] {
      assert x + y == y;
    } else {
      assert (x + y)[0] == x[0] && (x + y)[1..] == x[1..] + y;
      RunsConcat(c, WorkerStep(c, s, i, x[0]), i, x[1..], y);
    }
  }

  lemma RunsOne(c: Config, s: State, i: nat, a: WorkerAction)
    requires WorkerEnabled(c, s, i, a)
    ensures Runs(c, s, i, [a]) && After(c, s, i, [a]) == WorkerStep(c, s, i, a)
  {
    var steps := [a];
    assert steps[1..] == [];
    assert Runs(c, WorkerStep(c, s, i, a), i, steps[1..]);
  }

  // ---- what the two have in common ----

  /** The counters grew alike. */
  predicate CountAlike(a: Stats, b: Stats, s: D.Shot, t: D.Shot) {
    && b == a.(sent := b.sent, rejected := b.rejected, oversize := b.oversize, closed := b.closed)
    && b.sent - a.sent == t.sent - s.sent && b.rejected - a.rejected == t.rejected - s.rejected
    && b.oversize - a.oversize == t.oversize - s.oversize && b.closed - a.closed == t.closed - s.closed
  }

  /** A worker with these pieces to deliver, the first of them holding these records. */
  ghost predicate AtWork(s: State, i: nat, records: seq<Bytes>, rest: seq<Batch>) {
    && i < |s.uploads.workers| && s.uploads.workers[i].Busy?
    && var w := s.uploads.workers[i];
    && w.pieces != [] && w.pieces[1..] == rest
    && s.sets.Intact(w.pieces[0]) && w.pieces[0].records == records
  }

  /** The worker is done with its first piece; nothing else has changed but the counters. */
  ghost predicate Finished(s: State, t: State, i: nat, rest: seq<Batch>, err: P.Outcome) {
    && i < |s.uploads.workers| && s.uploads.workers[i].Busy?
    && t == s.(stats := t.stats,
               uploads := s.uploads.(workers := s.uploads.workers[i := s.uploads.workers[i].(pieces := rest, err := err)]))
  }

  /** The first error of a batch is kept. */
  function Kept(err: P.Outcome, ok: bool, e: P.Error): P.Outcome {
    if !ok && err == P.Fine then P.Failed(e) else err
  }

  function FateOf(why: D.Why, e: P.Error): Fate {
    match why
    case Sent => Delivered
    case Rejected => Failed(Drop.Rejected, e)
    case Oversize => Failed(Drop.Oversize, e)
    case Closed => Failed(Drop.Closed, e)
  }

  /** An upload counts nothing until its batch is settled. */
  lemma UploadCountsNothing(e: C.Rules, p: C.Point, records: seq<Bytes>, deadline: int, depth: nat)
    requires e.Valid() && records != []
    ensures var s, t := p.shot, C.Upload(e, p, records, deadline, depth).at.shot;
      t.sent == s.sent && t.rejected == s.rejected && t.oversize == s.oversize && t.closed == s.closed
  {
    hide C.Upload, D.Requests, D.Waits, D.Logs, D.Went;
    var made, waits := C.UploadGoes(e, p, records, deadline, depth);
    D.CountsCover(D.NewResolved(p.shot, C.Upload(e, p, records, deadline, depth).at.shot));
  }

  /** A piece is settled. */
  lemma SettleStep(c: Config, s: State, i: nat, records: seq<Bytes>, rest: seq<Batch>, p: C.Point, why: D.Why,
                   last: D.Answer, e: P.Error)
    requires AtWork(s, i, records, rest)
    ensures WorkerEnabled(c, s, i, Resolve(FateOf(why, e)))
    ensures var t := WorkerStep(c, s, i, Resolve(FateOf(why, e)));
      && CountAlike(s.stats, t.stats, p.shot, C.Counts(p, records, why, last).shot)
      && Finished(s, t, i, rest, Kept(s.uploads.workers[i].err, why == D.Sent, e))
  {
    var w := s.uploads.workers[i];
    assert |w.pieces[0].bounds| == |records|;
  }

  /** A piece is split; the halves hold its records. */
  lemma SplitStep(c: Config, s: State, i: nat, records: seq<Bytes>, rest: seq<Batch>) returns (right: Batch)
    requires AtWork(s, i, records, rest) && |records| >= 2
    ensures WorkerEnabled(c, s, i, SplitUpload(0, 0))
    ensures var t := WorkerStep(c, s, i, SplitUpload(0, 0));
      && AtWork(t, i, records[..|records| / 2], [right] + rest) && t.stats == s.stats && t.sets == s.sets
      && Finished(s, t, i, t.uploads.workers[i].pieces, s.uploads.workers[i].err)
      && t.sets.Intact(right) && right.records == records[|records| / 2..]
  {
    hide Bounded, Cut;
    var b := s.uploads.workers[i].pieces[0];
    HalvesIntact(s.sets, b, 0, 0);
    var h := Halves(s.sets, b, 0, 0);
    right := h[1];
    assert |b.bounds| == |records|;
    assert (h + rest)[1..] == [right] + rest;
    HalfRecords(h[0].records, h[1].records, records, |records| / 2);
  }

  lemma HalfRecords(a: seq<Bytes>, b: seq<Bytes>, records: seq<Bytes>, mid: nat)
    requires a + b == records && |a| == mid
    ensures a == records[..mid] && b == records[mid..]
  {
  }

  // ---- a delivery is a run ----

  lemma SettledRuns(c: Config, s: State, i: nat, records: seq<Bytes>, rest: seq<Batch>, p: C.Point, q: C.Point, why: D.Why,
                    last: D.Answer, e: P.Error)
    returns (steps: seq<WorkerAction>)
    requires AtWork(s, i, records, rest)
    requires q.shot.sent == p.shot.sent && q.shot.rejected == p.shot.rejected
    requires q.shot.oversize == p.shot.oversize && q.shot.closed == p.shot.closed
    ensures Runs(c, s, i, steps)
    ensures CountAlike(s.stats, After(c, s, i, steps).stats, p.shot, C.Counts(q, records, why, last).shot)
    ensures Finished(s, After(c, s, i, steps), i, rest, Kept(s.uploads.workers[i].err, why == D.Sent, e))
  {
    hide WorkerEnabled, WorkerStep, AtWork, Finished;
    SettleStep(c, s, i, records, rest, q, why, last, e);
    RunsOne(c, s, i, Resolve(FateOf(why, e)));
    steps := [Resolve(FateOf(why, e))];
  }

  /** Whatever the server, the clock and the compressor do, there is a run of the machine's
      worker, made of settling pieces and splitting them, that takes the batch from the worker
      and adds to each counter what the delivery adds; it notes an error exactly if the
      delivery fails. */
  lemma {:induction false} DeliveryRuns(c: Config, s: State, i: nat, records: seq<Bytes>, rest: seq<Batch>, r: C.Rules,
                                        p: C.Point, deadline: int, depth: nat, luck: C.Luck, e: P.Error)
    returns (steps: seq<WorkerAction>)
    requires r.Valid() && records != [] && AtWork(s, i, records, rest)
    ensures var d := C.Delivered(r, p, records, deadline, depth, luck);
      && Runs(c, s, i, steps)
      && CountAlike(s.stats, After(c, s, i, steps).stats, p.shot, d.at.shot)
      && Finished(s, After(c, s, i, steps), i, rest, Kept(s.uploads.workers[i].err, d.ok, e))
    decreases |records|, 1
  {
    hide AtWork, Finished, CountAlike, Kept, WorkerEnabled, WorkerStep, Runs, After, C.Upload, C.Halved, C.Counts;
    var t := C.Upload(r, p, records, deadline, depth);
    UploadCountsNothing(r, p, records, deadline, depth);
    match t.end
    case Settled(why) => steps := SettledRuns(c, s, i, records, rest, p, t.at, why, t.last, e);
    case TooLarge =>
      if C.SplitWorks(r, luck) {
        steps := HalvesRun(c, s, i, records, rest, r, t.at, deadline, depth, luck, e);
        AlikeFromHere(s.stats, After(c, s, i, steps).stats, p.shot, t.at.shot,
                      C.Halved(r, t.at, records, deadline, depth, luck).at.shot);
      } else {
        steps := SettledRuns(c, s, i, records, rest, p, t.at, D.Rejected, t.last, e);
      }
  }

  lemma AlikeFromHere(a: Stats, b: Stats, s: D.Shot, m: D.Shot, t: D.Shot)
    requires CountAlike(a, b, m, t)
    requires m.sent == s.sent && m.rejected == s.rejected && m.oversize == s.oversize && m.closed == s.closed
    ensures CountAlike(a, b, s, t)
  {
  }

  lemma {:induction false} HalvesRun(c: Config, s: State, i: nat, records: seq<Bytes>, rest: seq<Batch>, r: C.Rules, p: C.Point,
                                     deadline: int, depth: nat, luck: C.Luck, e: P.Error)
    returns (steps: seq<WorkerAction>)
    requires r.Valid() && |records| >= 2 && AtWork(s, i, records, rest)
    ensures var d := C.Halved(r, p, records, deadline, depth, luck);
      && Runs(c, s, i, steps)
      && CountAlike(s.stats, After(c, s, i, steps).stats, p.shot, d.at.shot)
      && Finished(s, After(c, s, i, steps), i, rest, Kept(s.uploads.workers[i].err, d.ok, e))
    decreases |records|, 0
  {
    hide WorkerEnabled, WorkerStep, Runs, After, C.Delivered, AtWork, Finished, CountAlike, Kept;
    var mid := |records| / 2;
    IsBusy(s, i, records, rest);
    var right := SplitStep(c, s, i, records, rest);
    RunsOne(c, s, i, SplitUpload(0, 0));
    var m := WorkerStep(c, s, i, SplitUpload(0, 0));
    IsBusy(m, i, records[..mid], [right] + rest);
    var x := DeliveryRuns(c, m, i, records[..mid], [right] + rest, r, p, deadline, depth + 1, C.LeftOf(luck), e);
    var l, n := C.Delivered(r, p, records[..mid], deadline, depth + 1, C.LeftOf(luck)), After(c, m, i, x);
    RightIsNext(m, n, i, records[mid..], right, rest, l.ok, e);
    IsBusy(n, i, records[mid..], rest);
    var y := DeliveryRuns(c, n, i, records[mid..], rest, r, l.at, deadline, depth + 1, C.RightOf(luck), e);
    var d, t := C.Delivered(r, l.at, records[mid..], deadline, depth + 1, C.RightOf(luck)), After(c, n, i, y);
    RunsConcat(c, m, i, x, y);
    RunsConcat(c, s, i, [SplitUpload(0, 0)], x + y);
    steps := [SplitUpload(0, 0)] + (x + y);
    BothAlike(m.stats, n.stats, t.stats, p.shot, l.at.shot, d.at.shot);
    BothFinished(s, m, n, t, i, [right] + rest, rest, l.ok, d.ok, e);
  }

  lemma IsBusy(s: State, i: nat, records: seq<Bytes>, rest: seq<Batch>)
    requires AtWork(s, i, records, rest)
    ensures i < |s.uploads.workers| && s.uploads.workers[i].Busy?
  {
  }

  /** Once the left half is done the right one is the worker's next piece. */
  lemma RightIsNext(m: State, n: State, i: nat, records: seq<Bytes>, right: Batch, rest: seq<Batch>, ok: bool, e: P.Error)
    requires i < |m.uploads.workers| && m.uploads.workers[i].Busy?
    requires Finished(m, n, i, [right] + rest, Kept(m.uploads.workers[i].err, ok, e))
    requires m.sets.Intact(right) && right.records == records
    ensures AtWork(n, i, records, rest)
  {
    assert ([right] + rest)[1..] == rest;
  }

  lemma BothAlike(a: Stats, b: Stats, d: Stats, s: D.Shot, m: D.Shot, t: D.Shot)
    requires CountAlike(a, b, s, m) && CountAlike(b, d, m, t)
    ensures CountAlike(a, d, s, t)
  {
  }

  lemma BothFinished(s: State, m: State, n: State, t: State, i: nat, more: seq<Batch>, rest: seq<Batch>,
                     okLeft: bool, okRight: bool, e: P.Error)
    requires i < |s.uploads.workers| && s.uploads.workers[i].Busy?
    requires i < |m.uploads.workers| && m.uploads.workers[i].Busy? && i < |n.uploads.workers| && n.uploads.workers[i].Busy?
    requires Finished(s, m, i, m.uploads.workers[i].pieces, s.uploads.workers[i].err)
    requires Finished(m, n, i, more, Kept(m.uploads.workers[i].err, okLeft, e))
    requires Finished(n, t, i, rest, Kept(n.uploads.workers[i].err, okRight, e))
    ensures Finished(s, t, i, rest, Kept(s.uploads.workers[i].err, okLeft && okRight, e))
  {
  }
}
