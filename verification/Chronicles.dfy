/** Runs of the pipeline together with the steps taken, so that one can speak of what happened. */
module Chronicles {
  import opened Pipeline
  import opened FlushGuarantee
  import opened PipelineTheorems

  /** A run and its steps. */
  ghost predicate Chronicle(c: Config, run: seq<State>, steps: seq<Action>) {
    && |run| == |steps| + 1 && run[0] == Init(c)
    && forall i :: 0 <= i < |steps| ==> Taken(c, run[i], steps[i], run[i + 1])
  }

  ghost predicate Taken(c: Config, s: State, a: Action, t: State) {
    Enabled(c, s, a) && t == Step(c, s, a)
  }

  /** The end of a chronicle, and the chronicle up to its last step. */
  lemma LastStep(c: Config, run: seq<State>, steps: seq<Action>)
    requires Chronicle(c, run, steps) && steps != []
    ensures var n := |steps| - 1;
      Chronicle(c, run[..n + 1], steps[..n]) && Taken(c, run[n], steps[n], run[n + 1])
  {
    hide Taken;
    var n := |steps| - 1;
    forall i | 0 <= i < n
      ensures Taken(c, run[..n + 1][i], steps[..n][i], run[..n + 1][i + 1])
    {
      assert Taken(c, run[i], steps[i], run[i + 1]);
    }
  }

  lemma {:induction false} ChronicleKeepsInv(c: Config, run: seq<State>, steps: seq<Action>)
    requires c.Valid() && Chronicle(c, run, steps)
    ensures Inv(c, run[|steps|])
    decreases |steps|
  {
    hide Inv, Enabled, Step;
    if steps == [] {
      InitOk(c);
    } else {
      var n := |steps| - 1;
      LastStep(c, run, steps);
      ChronicleKeepsInv(c, run[..n + 1], steps[..n]);
      StepKeepsInv(c, run[n], steps[n]);
    }
  }

  /** Every reachable state has a chronicle. */
  lemma ReachedBy(c: Config, s: State) returns (run: seq<State>, steps: seq<Action>)
    requires Reachable(c, s)
    ensures Chronicle(c, run, steps) && run[|steps|] == s
  {
    run :| Run(c, run) && run[|run| - 1] == s;
    steps := StepsOf(c, run);
  }

  lemma {:induction false} StepsOf(c: Config, run: seq<State>) returns (steps: seq<Action>)
    requires Run(c, run)
    ensures Chronicle(c, run, steps)
    decreases |run|
  {
    hide Enabled, Step;
    if |run| == 1 {
      steps := [];
    } else {
      var n := |run| - 1;
      forall i | 0 <= i < |run[..n]| - 1 ensures Next(c, run[..n][i], run[..n][i + 1]) {
        assert Next(c, run[i], run[i + 1]);
      }
      var before := StepsOf(c, run[..n]);
      assert Next(c, run[n - 1], run[n - 1 + 1]);
      var a :| Enabled(c, run[n - 1], a) && run[n] == Step(c, run[n - 1], a);
      steps := before + [a];
      forall i | 0 <= i < |steps| ensures Taken(c, run[i], steps[i], run[i + 1]) {
        if i < n - 1 {
          assert Taken(c, run[..n][i], before[i], run[..n][i + 1]);
        }
      }
    }
  }
}
