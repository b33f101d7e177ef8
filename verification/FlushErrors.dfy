/** What a flush hears about failed uploads, over whole runs of the pipeline. */
module FlushErrors {
  import opened Pipeline
  import opened Ownership
  import opened FlushSafety
  import opened FlushGuarantee
  import opened PipelineTheorems
  import opened Chronicles
  import H = PoolHistory
  import P = UploadPool

  // ---- the run as the pool's history ----

  /** The first failure of worker i's batch: what went wrong with its pieces since it took the
      batch. */
  function BatchOutcome(steps: seq<Action>, i: nat): P.Outcome {
    if steps == [] then P.Fine
    else
      var n := |steps| - 1;
      match steps[n]
      case ByWorker(j, Take) => if j == i then P.Fine else BatchOutcome(steps[..n], i)
      case ByWorker(j, Resolve(Failed(_, error))) =>
        if j == i && BatchOutcome(steps[..n], i) == P.Fine then P.Failed(error) else BatchOutcome(steps[..n], i)
      case _ => BatchOutcome(steps[..n], i)
  }

  /** What a step tells the pool. */
  function EventOf(s: State, a: Action, before: seq<Action>): seq<H.Event> {
    match a
    case BySender(Record) => [H.Dispatched]
    case BySender(Register) => if s.sender.pc.Answering? then [H.Awaited(s.sender.pc.request)] else []
    case BySender(FinishPool) => [H.Shut]
    case ByWorker(i, Complete) => [H.Completed(BatchOutcome(before, i))]
    case _ => []
  }

  function EventsOf(run: seq<State>, steps: seq<Action>): seq<H.Event>
    requires |run| == |steps| + 1
    decreases |steps|
  {
    if steps == [] then []
    else
      var n := |steps| - 1;
      EventsOf(run[..n + 1], steps[..n]) + EventOf(run[n], steps[n], steps[..n])
  }

  // ---- the pool follows it ----

  /** A worker holding a batch holds its first failure. */
  ghost predicate ErrorsKept(s: State, steps: seq<Action>) {
    forall i: nat :: i < |s.uploads.workers| && HasNo(s.uploads.workers[i]) ==>
      s.uploads.workers[i].err == BatchOutcome(steps, i)
  }

  ghost predicate OnceOnly(s: State, events: seq<H.Event>) {
    && H.Fresh(events)
    && forall q: nat :: H.Registered(events, q) ==> q < |s.control.flushes| && s.control.flushes[q].registered
  }

  lemma OutcomeNext(before: seq<Action>, a: Action, i: nat)
    ensures BatchOutcome(before + [a], i)
      == match a
         case ByWorker(j, Take) => if j == i then P.Fine else BatchOutcome(before, i)
         case ByWorker(j, Resolve(Failed(_, error))) =>
           if j == i && BatchOutcome(before, i) == P.Fine then P.Failed(error) else BatchOutcome(before, i)
         case _ => BatchOutcome(before, i)
  {
    assert (before + [a])[..|before|] == before;
  }

  lemma OthersLeaveWorkers(c: Config, s: State, a: Action)
    requires Enabled(c, s, a) && !a.ByWorker?
    ensures Step(c, s, a).uploads.workers == s.uploads.workers
  {
    hide Cut', TakeSet, Obtainable, Stats.Lose, Sets.Give, Sets.Release, Sets.Intact, Full, Halves;
    hide P.OnAwait, P.OnDispatch, P.OnShutdown;
  }

  lemma WorkerKeepsErrors(c: Config, s: State, i: nat, a: WorkerAction, before: seq<Action>)
    requires WorkerEnabled(c, s, i, a) && ErrorsKept(s, before)
    ensures ErrorsKept(WorkerStep(c, s, i, a), before + [ByWorker(i, a)])
  {
    hide BatchOutcome, Halves, Sets.Release, Sets.Intact, Stats.Lose, P.OnComplete;
    forall j: nat | j < |s.uploads.workers| {
      OutcomeNext(before, ByWorker(i, a), j);
    }
  }

  lemma StepKeepsErrors(c: Config, s: State, a: Action, before: seq<Action>)
    requires Enabled(c, s, a) && ErrorsKept(s, before)
    ensures ErrorsKept(Step(c, s, a), before + [a])
  {
    hide BatchOutcome, CallStep, SenderStep, CallerStep, WorkerStep;
    if a.ByWorker? {
      WorkerKeepsErrors(c, s, a.worker, a.work, before);
    } else {
      OthersLeaveWorkers(c, s, a);
      forall j: nat | j < |s.uploads.workers| {
        OutcomeNext(before, a, j);
      }
    }
  }

  /** What the pool does in a step is what the step tells it. */
  lemma StepTells(c: Config, s: State, a: Action, before: seq<Action>)
    requires Enabled(c, s, a) && ErrorsKept(s, before)
    ensures var told := EventOf(s, a, before);
      && |told| <= 1
      && Step(c, s, a).uploads.pool == if told == [] then s.uploads.pool else H.Happens(s.uploads.pool, told[0])
  {
    hide BatchOutcome, Cut', TakeSet, Obtainable, Stats.Lose, Sets.Give, Sets.Release, Sets.Intact, Full, Halves;
    hide P.OnAwait, P.OnDispatch, P.OnShutdown, P.OnComplete;
  }

  lemma RegisteredStays(c: Config, s: State, a: Action, r: nat)
    requires Enabled(c, s, a) && PoolOk(s) && r < |s.control.flushes| && s.control.flushes[r].registered
    ensures var fs := Step(c, s, a).control.flushes; r < |fs| && fs[r].registered
  {
    hide PoolOk, SenderStep, CallStep;
    match a
    case BySender(x) => SenderKeepsCovers(c, s, x, r);
    case ByWorker(i, x) => WorkerLeavesRest(c, s, i, x);
    case ByCall(x) => CallLeavesRest(c, s, x);
    case ByCaller(x) => CallerKeepsRegistered(c, s, x, r);
  }

  lemma CallerKeepsRegistered(c: Config, s: State, a: CallerAction, r: nat)
    requires CallerEnabled(c, s, a) && r < |s.control.flushes| && s.control.flushes[r].registered
    ensures var fs := CallerStep(c, s, a).control.flushes; r < |fs| && fs[r].registered
  {
    hide Active, Stats.Lose;
    var fs, gs := s.control.flushes, CallerStep(c, s, a).control.flushes;
    assert gs == fs + [NEW_FLUSH] || |gs| == |fs|;
  }

  lemma FreshMore(events: seq<H.Event>, e: H.Event)
    requires H.Fresh(events) && (e.Awaited? ==> !H.Registered(events, e.reply))
    ensures H.Fresh(events + [e])
    ensures forall q: nat :: H.Registered(events + [e], q) ==> H.Registered(events, q) || e == H.Awaited(q)
  {
    var more := events + [e];
    assert forall i :: 0 <= i < |events| ==> more[i] == events[i];
    assert more[|events|] == e;
    forall i | 0 <= i < |events| && events[i].Awaited? && e.Awaited? ensures events[i].reply != e.reply {
      assert H.Registered(events, events[i].reply) by {
        assert events[i] == H.Awaited(events[i].reply);
      }
    }
  }

  /** Only the sender's registration of a flush tells the pool of a request. */
  lemma ToldOfRequest(c: Config, s: State, a: Action, before: seq<Action>)
    requires Enabled(c, s, a) && PoolOk(s)
    requires var told := EventOf(s, a, before); told != [] && told[0].Awaited?
    ensures var r := EventOf(s, a, before)[0].reply;
      && r < |s.control.flushes| && !s.control.flushes[r].registered
      && var fs := Step(c, s, a).control.flushes; r < |fs| && fs[r].registered
  {
    hide BatchOutcome, PoolOk;
    RegisterIsNew(c, s, s.sender.pc.request);
  }

  lemma StepKeepsOnce(c: Config, s: State, a: Action, before: seq<Action>, events: seq<H.Event>)
    requires Enabled(c, s, a) && PoolOk(s) && OnceOnly(s, events)
    ensures OnceOnly(Step(c, s, a), events + EventOf(s, a, before))
  {
    hide H.Fresh, H.Registered, Step, Enabled, BatchOutcome, PoolOk;
    var told, t := EventOf(s, a, before), Step(c, s, a);
    forall q: nat | H.Registered(events, q) ensures q < |t.control.flushes| && t.control.flushes[q].registered {
      RegisteredStays(c, s, a, q);
    }
    if told == [] {
      assert events + told == events;
    } else {
      if told[0].Awaited? {
        ToldOfRequest(c, s, a, before);
      }
      FreshMore(events, told[0]);
    }
  }

  lemma RegisterIsNew(c: Config, s: State, r: nat)
    requires s.sender.pc == Answering(r) && PoolOk(s) && SenderEnabled(c, s, Register)
    ensures r < |s.control.flushes| && !s.control.flushes[r].registered
    ensures var fs := SenderStep(c, s, Register).control.flushes; r < |fs| && fs[r].registered
  {
    assert Serving(s.sender.pc, r);
  }

  /** The pool's state at the end of any run is what its history makes of it. */
  lemma {:induction false} PoolFollows(c: Config, run: seq<State>, steps: seq<Action>)
    requires c.Valid() && Chronicle(c, run, steps)
    ensures run[|steps|].uploads.pool == H.After(EventsOf(run, steps))
    ensures ErrorsKept(run[|steps|], steps) && OnceOnly(run[|steps|], EventsOf(run, steps))
    decreases |steps|
  {
    hide Inv, Enabled, Step, EventOf, BatchOutcome, ErrorsKept, OnceOnly;
    if steps == [] {
      AtFirst(c);
    } else {
      var n := |steps| - 1;
      var before, s, events := steps[..n], run[n], EventsOf(run[..n + 1], steps[..n]);
      LastStep(c, run, steps);
      PoolFollows(c, run[..n + 1], before);
      ChronicleKeepsInv(c, run[..n + 1], before);
      assert PoolOk(s) by { InvHasPool(c, s); }
      StepTells(c, s, steps[n], before);
      StepKeepsErrors(c, s, steps[n], before);
      StepKeepsOnce(c, s, steps[n], before, events);
      assert before + [steps[n]] == steps;
      Extended(events, EventOf(s, steps[n], before));
    }
  }

  lemma InvHasPool(c: Config, s: State)
    requires Inv(c, s)
    ensures PoolOk(s)
  {
  }

  lemma AtFirst(c: Config)
    ensures Init(c).uploads.pool == H.After([]) && ErrorsKept(Init(c), []) && OnceOnly(Init(c), [])
  {
  }

  lemma Extended(events: seq<H.Event>, told: seq<H.Event>)
    requires |told| <= 1
    ensures H.After(events + told) == if told == [] then H.After(events) else H.Happens(H.After(events), told[0])
  {
    if told == [] {
      assert events + told == events;
    } else {
      assert told == [told[0]];
      H.AfterNext(events, told[0]);
    }
  }

  // ---- what a flush hears ----

  /** The history has its say. */
  lemma Heard(events: seq<H.Event>, told: seq<H.Event>, q: nat)
    requires |told| == 1 && H.Fresh(events + told)
    requires q in H.After(events + told).replies && q !in H.After(events).replies
    ensures H.After(events + told).replies[q]
      == if exists p :: H.NewlyAnswered(events, told[0], p) && H.Before(events + told, p, q) then P.Fine
         else H.FirstFailure(H.Since(events) + told)
  {
    hide H.After, H.Fresh, H.Before, H.FirstFailure, H.Since;
    assert told == [told[0]];
    H.RepliesTell(events, told[0], q);
  }

  /** In every run, when a step answers flushes, the one registered first among them hears the
      first failure of a batch completed since flushes were last answered, or nothing if none
      failed, and the others hear nothing. */
  lemma FlushHears(c: Config, run: seq<State>, steps: seq<Action>, q: nat)
    requires c.Valid() && Chronicle(c, run, steps) && steps != []
    requires var n := |steps| - 1; q in run[n + 1].uploads.pool.replies && q !in run[n].uploads.pool.replies
    ensures var n := |steps| - 1;
      var events, told := EventsOf(run[..n + 1], steps[..n]), EventOf(run[n], steps[n], steps[..n]);
      && |told| == 1
      && run[n + 1].uploads.pool.replies[q]
         == if exists p :: H.NewlyAnswered(events, told[0], p) && H.Before(events + told, p, q) then P.Fine
            else H.FirstFailure(H.Since(events) + told)
  {
    hide Inv, Enabled, Step, EventOf, BatchOutcome, ErrorsKept;
    hide H.After, H.Happens, H.Fresh, H.Before, H.FirstFailure, H.Since, H.NewlyAnswered, H.Registered;
    var n := |steps| - 1;
    var events, told := EventsOf(run[..n + 1], steps[..n]), EventOf(run[n], steps[n], steps[..n]);
    LastStep(c, run, steps);
    PoolFollows(c, run[..n + 1], steps[..n]);
    PoolFollows(c, run, steps);
    StepTells(c, run[n], steps[n], steps[..n]);
    Extended(events, told);
    Heard(events, told, q);
  }
}
