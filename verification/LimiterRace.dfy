/** Many callers of one limiter at once: each reads the clock when it likes, however stale
    the reading, then loads and compares-and-swaps in any interleaving with the others. */
module LimiterRace {
  import opened Int64
  import opened Limiter

  datatype Caller =
    | Reading                        // has not read the clock
    | Loading(now: int)
    | Deciding(now: int, before: int) // loaded `before`
    | Admitted(now: int)
    | Refused(now: int)

  /** One successful compare-and-swap: history. */
  datatype Grant = Grant(now: int, before: int, after: int)

  datatype State = State(tat: int, callers: seq<Caller>, grants: seq<Grant>)

  datatype Action = Call | Read(who: nat, now: int) | Load(who: nat) | Refuse(who: nat) | Swap(who: nat)

  /** A reading is any time not before the limiter was built; `r.window` short of the end of
      the clock, where nothing saturates. */
  predicate Enabled(r: Rate, s: State, a: Action) {
    match a
    case Call => true
    case Read(k, now) => k < |s.callers| && s.callers[k].Reading? && 0 <= now <= MAX_INT64 - r.window
    case Load(k) => k < |s.callers| && s.callers[k].Loading?
    case Refuse(k) => k < |s.callers| && s.callers[k].Deciding? && !Admits(r, s.callers[k].before, s.callers[k].now)
    case Swap(k) => k < |s.callers| && s.callers[k].Deciding? && Admits(r, s.callers[k].before, s.callers[k].now)
  }

  function Step(r: Rate, s: State, a: Action): State
    requires Enabled(r, s, a)
  {
    match a
    case Call => s.(callers := s.callers + [Reading])
    case Read(k, now) => s.(callers := s.callers[k := Loading(now)])
    case Load(k) => s.(callers := s.callers[k := Deciding(s.callers[k].now, s.tat)])
    case Refuse(k) => s.(callers := s.callers[k := Refused(s.callers[k].now)])
    case Swap(k) =>
      var c := s.callers[k];
      if s.tat != c.before then s.(callers := s.callers[k := Loading(c.now)])
      else
        var next := Advance(r, c.before, c.now);
        State(next, s.callers[k := Admitted(c.now)], s.grants + [Grant(c.now, c.before, next)])
  }

  /** A run from a state, action by action. */
  predicate Runs(r: Rate, s: State, actions: seq<Action>)
    decreases |actions|
  {
    actions == [] || (Enabled(r, s, actions[0]) && Runs(r, Step(r, s, actions[0]), actions[1..]))
  }

  function End(r: Rate, s: State, actions: seq<Action>): State
    requires Runs(r, s, actions)
    decreases |actions|
  {
    if actions == [] then s else End(r, Step(r, s, actions[0]), actions[1..])
  }

  function Start(tat: int): State {
    State(tat, [], [])
  }

  // ---- what every step keeps ----

  predicate GrantOk(r: Rate, g: Grant) {
    g.after == Max(g.before, g.now) + r.interval && g.after <= g.now + r.window
  }

  /** Each grant starts no earlier than the one before it ended. */
  predicate Chained(r: Rate, grants: seq<Grant>, tat: int) {
    grants == [] ||
    (var last := grants[|grants| - 1];
     GrantOk(r, last) && last.after <= tat && Chained(r, grants[..|grants| - 1], last.before))
  }

  /** The grants follow one another up to `tat`; what a caller loaded, or was refused on, the
      word has only moved on from. */
  predicate Inv(r: Rate, s: State) {
    && Chained(r, s.grants, s.tat)
    && (forall c :: c in s.callers && c.Deciding? ==> c.before <= s.tat)
    && (forall c :: c in s.callers && c.Refused? ==> s.tat - c.now > r.window - r.interval)
    && (forall c :: c in s.callers && !c.Reading? ==> 0 <= c.now <= MAX_INT64 - r.window)
  }

  lemma {:induction false} StepKeepsInv(r: Rate, s: State, a: Action)
    requires r.Valid() && Inv(r, s) && Enabled(r, s, a)
    ensures Inv(r, Step(r, s, a)) && s.tat <= Step(r, s, a).tat
  {
    hide Chained, Admits, Advance;
    if a.Swap? && s.tat == s.callers[a.who].before {
      GrantKeepsInv(r, s, a.who);
    } else if a.Refuse? {
      RefuseKeepsInv(r, s, a.who);
    } else if !a.Call? {
      assert s.callers[a.who] in s.callers;
    }
  }

  /** An admission adds a grant to the chain. */
  lemma {:induction false} GrantKeepsInv(r: Rate, s: State, k: nat)
    requires r.Valid() && Inv(r, s) && Enabled(r, s, Swap(k)) && s.tat == s.callers[k].before
    ensures Inv(r, Step(r, s, Swap(k))) && s.tat <= Step(r, s, Swap(k)).tat
  {
    var c := s.callers[k];
    assert c in s.callers;
    GrantChained(r, s.grants, s.tat, c.now);
    hide Chained;
  }

  lemma {:induction false} GrantChained(r: Rate, grants: seq<Grant>, tat: int, now: int)
    requires r.Valid() && Chained(r, grants, tat) && Admits(r, tat, now) && 0 <= now <= MAX_INT64 - r.window
    ensures Advance(r, tat, now) == Arrival(tat, now) + r.interval >= tat
    ensures Chained(r, grants + [Grant(now, tat, Advance(r, tat, now))], Advance(r, tat, now))
  {
    assert (grants + [Grant(now, tat, Advance(r, tat, now))])[..|grants|] == grants;
  }

  /** A refusal is justified by the value loaded, and so by any later one. */
  lemma {:induction false} RefuseKeepsInv(r: Rate, s: State, k: nat)
    requires r.Valid() && Inv(r, s) && Enabled(r, s, Refuse(k))
    ensures Inv(r, Step(r, s, Refuse(k)))
  {
    hide Chained;
    assert s.callers[k] in s.callers;
  }

  lemma {:induction false} RunKeepsInv(r: Rate, s: State, actions: seq<Action>)
    requires r.Valid() && Inv(r, s) && Runs(r, s, actions)
    ensures Inv(r, End(r, s, actions)) && s.tat <= End(r, s, actions).tat
    decreases |actions|
  {
    if actions != [] {
      StepKeepsInv(r, s, actions[0]);
      RunKeepsInv(r, Step(r, s, actions[0]), actions[1..]);
    }
  }

  /** How many admitted callers read a time between a and b. */
  function Admissions(callers: seq<Caller>, a: int, b: int): nat {
    if callers == [] then 0 else Counts(callers[0], a, b) + Admissions(callers[1..], a, b)
  }

  function Counts(c: Caller, a: int, b: int): nat {
    if c.Admitted? && a <= c.now <= b then 1 else 0
  }

  lemma {:induction false} AdmissionsConcat(x: seq<Caller>, y: seq<Caller>, a: int, b: int)
    ensures Admissions(x + y, a, b) == Admissions(x, a, b) + Admissions(y, a, b)
  {
    if x == [] {
      assert x + y == y;
    } else {
      assert (x + y)[1..] == x[1..] + y;
      AdmissionsConcat(x[1..], y, a, b);
    }
  }

  lemma AdmissionsUpdate(callers: seq<Caller>, k: nat, c: Caller, a: int, b: int)
    requires k < |callers|
    ensures Admissions(callers[k := c], a, b) == Admissions(callers, a, b) - Counts(callers[k], a, b) + Counts(c, a, b)
  {
    var x, y := callers[..k], callers[k + 1..];
    assert callers == x + ([callers[k]] + y) && callers[k := c] == x + ([c] + y);
    assert ([callers[k]] + y)[1..] == y && ([c] + y)[1..] == y;
    AdmissionsConcat(x, [callers[k]] + y, a, b);
    AdmissionsConcat(x, [c] + y, a, b);
  }

  lemma {:induction false} AdmissionStep(r: Rate, s: State, act: Action, a: int, b: int)
    requires Enabled(r, s, act) && Admissions(s.callers, a, b) == Within(s.grants, a, b)
    ensures Admissions(Step(r, s, act).callers, a, b) == Within(Step(r, s, act).grants, a, b)
  {
    hide Admissions, Within, Admits, Advance;
    var t := Step(r, s, act);
    if act.Call? {
      AdmissionsJoin(s.callers, a, b);
    } else {
      AdmissionsUpdate(s.callers, act.who, t.callers[act.who], a, b);
      if t.grants != s.grants {
        WithinJoin(s.grants, t.grants[|s.grants|], a, b);
      }
    }
  }

  lemma AdmissionsJoin(callers: seq<Caller>, a: int, b: int)
    ensures Admissions(callers + [Reading], a, b) == Admissions(callers, a, b)
  {
    var one := [Reading];
    AdmissionsConcat(callers, one, a, b);
    assert one[1..] == [];
  }

  lemma WithinJoin(grants: seq<Grant>, g: Grant, a: int, b: int)
    ensures Within(grants + [g], a, b) == Within(grants, a, b) + if a <= g.now <= b then 1 else 0
  {
    assert (grants + [g])[..|grants|] == grants;
  }

  /** Every admitted caller has its own grant, at its own reading. */
  lemma {:induction false} GrantEach(r: Rate, s: State, actions: seq<Action>, a: int, b: int)
    requires Runs(r, s, actions) && Admissions(s.callers, a, b) == Within(s.grants, a, b)
    ensures Admissions(End(r, s, actions).callers, a, b) == Within(End(r, s, actions).grants, a, b)
    decreases |actions|
  {
    if actions != [] {
      AdmissionStep(r, s, actions[0], a, b);
      GrantEach(r, Step(r, s, actions[0]), actions[1..], a, b);
    }
  }

  // ---- the rate limit ----

  /** How many grants went to readings between a and b. */
  function Within(grants: seq<Grant>, a: int, b: int): nat {
    if grants == [] then 0
    else
      var last := grants[|grants| - 1];
      Within(grants[..|grants| - 1], a, b) + (if a <= last.now <= b then 1 else 0)
  }

  /** Each of them pushed `tat` on by an interval, and the first began no earlier than a. */
  lemma {:induction false} GrantsPush(r: Rate, grants: seq<Grant>, tat: int, a: int, b: int)
    requires r.Valid() && Chained(r, grants, tat)
    ensures Within(grants, a, b) > 0 ==> a + Within(grants, a, b) * r.interval <= tat
    decreases |grants|
  {
    if grants != [] {
      var last := grants[|grants| - 1];
      GrantsPush(r, grants[..|grants| - 1], last.before, a, b);
      var k := Within(grants[..|grants| - 1], a, b);
      assert (k + 1) * r.interval == k * r.interval + r.interval;
    }
  }

  /** And the last of them ended no later than b and a window. */
  lemma {:induction false} GrantsFit(r: Rate, grants: seq<Grant>, tat: int, a: int, b: int)
    requires r.Valid() && Chained(r, grants, tat)
    ensures Within(grants, a, b) > 0 ==> Within(grants, a, b) * r.interval <= b - a + r.window
    decreases |grants|
  {
    if grants != [] {
      var rest, last := grants[..|grants| - 1], grants[|grants| - 1];
      GrantsFit(r, rest, last.before, a, b);
      if a <= last.now <= b {
        GrantsPush(r, rest, last.before, a, b);
        var k := Within(rest, a, b);
        assert (k + 1) * r.interval == k * r.interval + r.interval;
      }
    }
  }

  /** In every run, the admitted calls whose reading lies in [a, b] number at most
      (b - a + W) / I, whatever the readings and the interleaving. */
  lemma RateLimit(r: Rate, tat: int, actions: seq<Action>, a: int, b: int)
    requires r.Valid() && r.interval > 0 && Runs(r, Start(tat), actions) && a <= b
    ensures Admissions(End(r, Start(tat), actions).callers, a, b) <= (b - a + r.window) / r.interval
  {
    var s := End(r, Start(tat), actions);
    GrantEach(r, Start(tat), actions, a, b);
    RunKeepsInv(r, Start(tat), actions);
    GrantsFit(r, s.grants, s.tat, a, b);
    AtMost(Within(s.grants, a, b), b - a + r.window, r.interval);
  }

  lemma AtMost(k: int, w: int, i: int)
    requires i > 0 && k * i <= w
    ensures k <= w / i
  {
    DivMod(w, i);
    var q := w / i;
    assert (q + 1) * i == i * q + i;
    Squeeze(k, q + 1, i);
  }

  lemma AtLeast(k: int, w: int, i: int)
    requires i > 0 && k * i > w - i
    ensures k >= w / i
  {
    DivMod(w, i);
    var q := w / i;
    assert (k + 1) * i == k * i + i && q * i == i * q;
    Squeeze(q, k + 1, i);
  }

  // ---- a frozen clock ----

  /** Every reading taken is the same. */
  predicate Frozen(c: int, actions: seq<Action>) {
    forall a :: a in actions && a.Read? ==> a.now == c
  }

  predicate FrozenInv(r: Rate, s: State, tat: int, c: int) {
    && (forall x :: x in s.callers && !x.Reading? ==> x.now == c)
    && (if s.grants == [] then s.tat == tat else s.tat == c + |s.grants| * r.interval)
    && Within(s.grants, c, c) == |s.grants|
  }

  lemma {:induction false} FrozenStep(r: Rate, s: State, a: Action, tat: int, c: int)
    requires r.Valid() && r.interval > 0 && tat <= c
    requires Inv(r, s) && FrozenInv(r, s, tat, c) && Enabled(r, s, a)
    requires a.Read? ==> a.now == c
    ensures FrozenInv(r, Step(r, s, a), tat, c)
  {
    hide Chained, Within, Admissions, Admits, Advance;
    if !a.Call? {
      assert s.callers[a.who] in s.callers;
    }
    if a.Swap? && s.tat == s.callers[a.who].before {
      Times(0, |s.grants|, r.interval);
      FrozenNext(r, |s.grants|, s.tat, c);
      WithinJoin(s.grants, Grant(c, s.tat, Advance(r, s.tat, c)), c, c);
    }
  }

  /** Each admission moves the word one interval past the reading. */
  lemma FrozenNext(r: Rate, k: nat, tat: int, c: int)
    requires r.Valid() && c <= MAX_INT64 - r.window && Admits(r, tat, c)
    requires if k == 0 then tat <= c else tat == c + k * r.interval >= c
    ensures Advance(r, tat, c) == c + (k + 1) * r.interval
  {
    assert (k + 1) * r.interval == k * r.interval + r.interval;
  }

  lemma {:induction false} FrozenRun(r: Rate, s: State, actions: seq<Action>, tat: int, c: int)
    requires r.Valid() && r.interval > 0 && tat <= c
    requires Inv(r, s) && FrozenInv(r, s, tat, c) && Runs(r, s, actions) && Frozen(c, actions)
    ensures Inv(r, End(r, s, actions)) && FrozenInv(r, End(r, s, actions), tat, c)
    decreases |actions|
  {
    if actions != [] {
      assert actions[0] in actions;
      assert forall a :: a in actions[1..] ==> a in actions;
      StepKeepsInv(r, s, actions[0]);
      FrozenStep(r, s, actions[0], tat, c);
      FrozenRun(r, Step(r, s, actions[0]), actions[1..], tat, c);
    }
  }

  /** From an idle bucket at a frozen clock, exactly W / I calls are admitted once any call
      has been refused, and never more; by WindowsWorth that is `max` exactly when the
      division left over less than an interval. */
  lemma FrozenBurst(r: Rate, tat: int, actions: seq<Action>, c: int)
    requires r.Valid() && r.interval > 0 && tat <= c
    requires Runs(r, Start(tat), actions) && Frozen(c, actions)
    ensures Admissions(End(r, Start(tat), actions).callers, c, c) <= r.window / r.interval
    ensures (exists x :: x in End(r, Start(tat), actions).callers && x.Refused?)
            ==> Admissions(End(r, Start(tat), actions).callers, c, c) == r.window / r.interval
  {
    var s := End(r, Start(tat), actions);
    FrozenRun(r, Start(tat), actions, tat, c);
    GrantEach(r, Start(tat), actions, c, c);
    RateLimit(r, tat, actions, c, c);
    if x :| x in s.callers && x.Refused? {
      AtLeast(|s.grants|, r.window, r.interval);
    }
  }

  // ---- how many of k calls ----

  predicate Settled(callers: seq<Caller>) {
    forall x :: x in callers ==> x.Admitted? || x.Refused?
  }

  lemma {:induction false} AdmissionsOfAll(callers: seq<Caller>, a: int, b: int)
    requires forall x :: x in callers ==> x.Admitted? && a <= x.now <= b
    ensures Admissions(callers, a, b) == |callers|
  {
    if callers != [] {
      AdmissionsOfAll(callers[1..], a, b);
    }
  }

  lemma {:induction false} AdmissionsAtMost(callers: seq<Caller>, a: int, b: int)
    ensures Admissions(callers, a, b) <= |callers|
  {
    if callers != [] {
      AdmissionsAtMost(callers[1..], a, b);
    }
  }

  /** From an idle bucket at a frozen clock, of any number of calls that have had their
      answer exactly W / I are admitted, or all of them if they are fewer. */
  lemma FrozenExactly(r: Rate, tat: int, actions: seq<Action>, c: int)
    requires r.Valid() && r.interval > 0 && tat <= c
    requires Runs(r, Start(tat), actions) && Frozen(c, actions)
    requires Settled(End(r, Start(tat), actions).callers)
    ensures var callers := End(r, Start(tat), actions).callers;
      Admissions(callers, c, c) == Min(|callers|, r.window / r.interval)
  {
    var s := End(r, Start(tat), actions);
    FrozenBurst(r, tat, actions, c);
    FrozenRun(r, Start(tat), actions, tat, c);
    AdmissionsAtMost(s.callers, c, c);
    if forall x :: x in s.callers ==> x.Admitted? {
      AdmissionsOfAll(s.callers, c, c);
    }
  }

  lemma {:induction false} RunsConcat(r: Rate, s: State, x: seq<Action>, y: seq<Action>)
    requires Runs(r, s, x) && Runs(r, End(r, s, x), y)
    ensures Runs(r, s, x + y) && End(r, s, x + y) == End(r, End(r, s, x), y)
    decreases |x|
  {
    if x == [] {
      assert x + y == y;
    } else {
      assert (x + y)[0] == x[0] && (x + y)[1..] == x[1..] + y;
      RunsConcat(r, Step(r, s, x[0]), x[1..], y);
    }
  }

  lemma OneMore(r: Rate, s: State, x: seq<Action>, a: Action)
    requires Runs(r, s, x) && Enabled(r, End(r, s, x), a)
    ensures Runs(r, s, x + [a]) && End(r, s, x + [a]) == Step(r, End(r, s, x), a)
  {
    var m := End(r, s, x);
    assert [a][1..] == [];
    assert Runs(r, Step(r, m, a), []);
    assert Runs(r, m, [a]) && End(r, m, [a]) == Step(r, m, a);
    RunsConcat(r, s, x, [a]);
  }

  /** One whole call at reading c with nobody else moving, after some run. */
  lemma OneCall(r: Rate, s: State, x: seq<Action>, c: int) returns (y: seq<Action>)
    requires Runs(r, s, x) && 0 <= c <= MAX_INT64 - r.window
    ensures Runs(r, s, x + y) && Frozen(c, y)
    ensures var m, t := End(r, s, x), End(r, s, x + y);
      if Admits(r, m.tat, c)
      then t == State(Advance(r, m.tat, c), m.callers + [Admitted(c)], m.grants + [Grant(c, m.tat, Advance(r, m.tat, c))])
      else t == m.(callers := m.callers + [Refused(c)])
  {
    var m := End(r, s, x);
    var i := |m.callers|;
    var last := if Admits(r, m.tat, c) then Swap(i) else Refuse(i);
    y := [Call, Read(i, c), Load(i), last];
    OneMore(r, s, x, Call);
    OneMore(r, s, x + [Call], Read(i, c));
    OneMore(r, s, x + [Call] + [Read(i, c)], Load(i));
    var d := End(r, s, x + [Call] + [Read(i, c)] + [Load(i)]);
    assert d == m.(callers := m.callers + [Deciding(c, m.tat)]);
    OneMore(r, s, x + [Call] + [Read(i, c)] + [Load(i)], last);
    assert x + y == x + [Call] + [Read(i, c)] + [Load(i)] + [last];
    var who := if Admits(r, m.tat, c) then Admitted(c) else Refused(c);
    assert (m.callers + [Deciding(c, m.tat)])[i := who] == m.callers + [who];
  }

  /** There are such runs for every number of calls. */
  lemma {:induction false} CallsInTurn(r: Rate, tat: int, c: int, k: nat) returns (x: seq<Action>)
    requires r.Valid() && 0 <= c <= MAX_INT64 - r.window
    ensures Runs(r, Start(tat), x) && Frozen(c, x)
    ensures |End(r, Start(tat), x).callers| == k && Settled(End(r, Start(tat), x).callers)
    decreases k
  {
    if k == 0 {
      x := [];
    } else {
      var before := CallsInTurn(r, tat, c, k - 1);
      var y := OneCall(r, Start(tat), before, c);
      x := before + y;
    }
  }

  /** Eleven calls at once against seven in a window of ten nanoseconds: ten go through. */
  lemma TenForSeven() returns (x: seq<Action>)
    ensures var r := NewRate(7, 10);
      && Runs(r, Start(0), x) && Frozen(0, x)
      && |End(r, Start(0), x).callers| == 11 && Settled(End(r, Start(0), x).callers)
      && Admissions(End(r, Start(0), x).callers, 0, 0) == 10
  {
    var r := NewRate(7, 10);
    x := CallsInTurn(r, 0, 0, 11);
    FrozenExactly(r, 0, x, 0);
  }

  // ---- as many as possible ----

  /** No reading of the run is earlier than a or later than b. */
  predicate ReadsWithin(actions: seq<Action>, a: int, b: int) {
    forall x :: x in actions && x.Read? ==> a <= x.now <= b
  }

  lemma ReadsConcat(x: seq<Action>, y: seq<Action>, a: int, b: int, c: int, d: int)
    requires ReadsWithin(x, a, b) && ReadsWithin(y, c, c) && a <= c <= d && b <= d
    ensures ReadsWithin(x + y, a, d)
  {
  }

  /** The earliest reading at which the k-th call after an idle bucket is admitted. */
  function Earliest(r: Rate, a: int, k: nat): int {
    a + Max(0, k * r.interval - r.window)
  }

  /** It is admitted then, and the word is k intervals past the first reading. */
  lemma AdmittedEarliest(r: Rate, tat: int, a: int, k: nat)
    requires r.Valid() && k >= 1 && 0 <= a && Earliest(r, a, k) <= MAX_INT64 - r.window
    requires if k == 1 then tat <= a else tat == a + (k - 1) * r.interval
    ensures Admits(r, tat, Earliest(r, a, k)) && Advance(r, tat, Earliest(r, a, k)) == a + k * r.interval
    ensures a <= Earliest(r, a, k - 1) <= Earliest(r, a, k)
  {
    var q := (k - 1) * r.interval;
    assert k * r.interval == q + r.interval;
    Times(0, k - 1, r.interval);
  }

  /** k calls, each as early as it can be: all are admitted. */
  lemma {:induction false} Steady(r: Rate, tat: int, a: int, k: nat) returns (x: seq<Action>)
    requires r.Valid() && tat <= a && 0 <= a && Earliest(r, a, k) <= MAX_INT64 - r.window
    ensures Runs(r, Start(tat), x) && ReadsWithin(x, a, Earliest(r, a, k))
    ensures var s := End(r, Start(tat), x);
      && |s.callers| == k && s.tat == (if k == 0 then tat else a + k * r.interval)
      && forall c :: c in s.callers ==> c.Admitted? && a <= c.now <= Earliest(r, a, k)
    decreases k
  {
    if k == 0 {
      x := [];
    } else {
      var q := (k - 1) * r.interval;
      assert k * r.interval == q + r.interval;
      var before := Steady(r, tat, a, k - 1);
      var m, c := End(r, Start(tat), before), Earliest(r, a, k);
      AdmittedEarliest(r, m.tat, a, k);
      hide Earliest, Admits, Advance;
      var y := OneCall(r, Start(tat), before, c);
      ReadsConcat(before, y, a, Earliest(r, a, k - 1), c, c);
      x := before + y;
    }
  }

  /** The bound of RateLimit is reached: from an idle bucket, for every interval of time there
      is a run whose readings all lie in it and that admits exactly so many. */
  lemma RateReached(r: Rate, tat: int, a: int, b: int) returns (x: seq<Action>)
    requires r.Valid() && r.interval > 0 && tat <= a && 0 <= a <= b <= MAX_INT64 - r.window
    ensures Runs(r, Start(tat), x) && ReadsWithin(x, a, b)
    ensures Admissions(End(r, Start(tat), x).callers, a, b) == (b - a + r.window) / r.interval
  {
    var k := (b - a + r.window) / r.interval;
    DivMod(b - a + r.window, r.interval);
    DivBounds(b - a + r.window, r.interval);
    assert k * r.interval == r.interval * k;
    x := Steady(r, tat, a, k);
    AdmissionsOfAll(End(r, Start(tat), x).callers, a, b);
  }

  /** In every run and at every time, at most `max` calls are admitted whose readings lie in one
      window. */
  ghost predicate WindowKept(max: int64, window: int64)
    requires max > 0 && window > 0
  {
    forall actions, a :: 0 <= a && Runs(NewRate(max, window), Start(0), actions) ==> AtMostMax(max, window, actions, a)
  }

  predicate AtMostMax(max: int64, window: int64, actions: seq<Action>, a: int)
    requires max > 0 && window > 0 && Runs(NewRate(max, window), Start(0), actions)
  {
    Admissions(End(NewRate(max, window), Start(0), actions).callers, a, a + window - 1) <= max
  }

  /** One call more than the limit allows, all of them within one window. */
  lemma OneTooMany(max: int64, window: int64) returns (x: seq<Action>)
    requires max >= 2 && 0 < window <= MAX_INT64 - window
    ensures Runs(NewRate(max, window), Start(0), x)
    ensures Admissions(End(NewRate(max, window), Start(0), x).callers, 0, window - 1) == max + 1
  {
    var r := NewRate(max, window);
    DivMod(window, max);
    assert max * r.interval <= window;
    Times(2, max, r.interval);
    assert (max + 1) * r.interval == max * r.interval + r.interval;
    x := Steady(r, 0, 0, max + 1);
    AdmissionsOfAll(End(r, Start(0), x).callers, 0, window - 1);
  }

  lemma OnePerWindow(window: int64, actions: seq<Action>, a: int)
    requires window > 0 && Runs(NewRate(1, window), Start(0), actions)
    ensures Admissions(End(NewRate(1, window), Start(0), actions).callers, a, a + window - 1) <= 1
  {
    var r := NewRate(1, window);
    RateLimit(r, 0, actions, a, a + window - 1);
    var q := (window - 1 + window) / window;
    DivMod(window - 1 + window, window);
    assert window * q == q * window;
    Squeeze(q, 2, window);
  }

  /** At most `max` records per window: the bucket refills while it drains, so over all runs
      this holds for a limit of one and for no other. */
  lemma WindowKeptIff(max: int64, window: int64)
    requires max > 0 && 0 < window <= MAX_INT64 - window
    ensures WindowKept(max, window) <==> max == 1
  {
    if max == 1 {
      forall actions, a | 0 <= a && Runs(NewRate(max, window), Start(0), actions)
        ensures AtMostMax(max, window, actions, a)
      {
        OnePerWindow(window, actions, a);
      }
    } else {
      var x := OneTooMany(max, window);
      assert !AtMostMax(max, window, x, 0);
    }
  }

  /** A burst, every reading the same, after an idle time: never more than `max`. */
  ghost predicate BurstKept(max: int64, window: int64, c: int)
    requires max > 0 && window > 0
  {
    forall tat, actions :: tat <= c && Runs(NewRate(max, window), Start(tat), actions) && Frozen(c, actions) ==>
      Admissions(End(NewRate(max, window), Start(tat), actions).callers, c, c) <= max
  }

  /** A full window's worth back to back: it is no more than `max` exactly when what the
      division of the window left over is less than the interval. */
  lemma BurstKeptIff(max: int64, window: int64, c: int)
    requires max > 0 && window > 0 && 0 <= c <= MAX_INT64 - window
    ensures BurstKept(max, window, c) <==> window % max < NewRate(max, window).interval
  {
    var r := NewRate(max, window);
    DivMod(window, max);
    assert (max + 1) * r.interval == max * r.interval + r.interval;
    if window % max < r.interval {
      WindowsWorth(max, window);
      forall tat, actions | tat <= c && Runs(r, Start(tat), actions) && Frozen(c, actions)
        ensures Admissions(End(r, Start(tat), actions).callers, c, c) <= max
      {
        FrozenBurst(r, tat, actions, c);
      }
    } else {
      var x := Steady(r, c, c, max + 1);
      AdmissionsOfAll(End(r, Start(c), x).callers, c, c);
      assert Frozen(c, x);
    }
  }

  // ---- an interval of zero ----

  predicate ZeroInv(r: Rate, s: State, a: int) {
    && s.tat <= a + r.window
    && (forall x :: x in s.callers && !x.Reading? ==> a <= x.now <= a + r.window)
    && (forall x :: x in s.callers && x.Deciding? ==> x.before <= a + r.window)
    && (forall x :: x in s.callers ==> !x.Refused?)
  }

  lemma {:induction false} ZeroRun(r: Rate, s: State, actions: seq<Action>, a: int)
    requires r.Valid() && r.interval == 0 && ZeroInv(r, s, a)
    requires Runs(r, s, actions) && ReadsWithin(actions, a, a + r.window)
    ensures ZeroInv(r, End(r, s, actions), a)
    decreases |actions|
  {
    if actions != [] {
      var act := actions[0];
      assert act in actions && forall x :: x in actions[1..] ==> x in actions;
      ZeroStep(r, s, act, a);
      ZeroRun(r, Step(r, s, act), actions[1..], a);
    }
  }

  lemma ZeroStep(r: Rate, s: State, act: Action, a: int)
    requires r.Valid() && r.interval == 0 && ZeroInv(r, s, a) && Enabled(r, s, act)
    requires act.Read? ==> a <= act.now <= a + r.window
    ensures ZeroInv(r, Step(r, s, act), a)
  {
    if !act.Call? {
      assert s.callers[act.who] in s.callers;
    }
  }

  /** With an interval of zero no call of any run is refused, as long as all readings lie
      within one window and the word starts no later than its end. */
  lemma ZeroAdmitsAll(r: Rate, tat: int, actions: seq<Action>, a: int)
    requires r.Valid() && r.interval == 0 && tat <= a + r.window
    requires Runs(r, Start(tat), actions) && ReadsWithin(actions, a, a + r.window)
    ensures forall x :: x in End(r, Start(tat), actions).callers ==> !x.Refused?
  {
    ZeroRun(r, Start(tat), actions, a);
  }

  /** Readings one nanosecond further apart are enough for a refusal: a caller reads the clock
      at 0, another is admitted at a window and one later, and the first is refused. */
  lemma ZeroRefuses(r: Rate) returns (x: seq<Action>)
    requires r.Valid() && r.interval == 0 && r.window + 1 <= MAX_INT64 - r.window
    ensures Runs(r, Start(0), x) && ReadsWithin(x, 0, r.window + 1)
    ensures End(r, Start(0), x).callers == [Refused(0), Admitted(r.window + 1)]
  {
    var first := [Call, Read(0, 0)];
    OneMore(r, Start(0), [], Call);
    OneMore(r, Start(0), [] + [Call], Read(0, 0));
    assert [] + [Call] + [Read(0, 0)] == first;
    var y := OneCall(r, Start(0), first, r.window + 1);
    var m := End(r, Start(0), first + y);
    assert m.tat == r.window + 1 && m.callers == [Loading(0), Admitted(r.window + 1)];
    OneMore(r, Start(0), first + y, Load(0));
    OneMore(r, Start(0), first + y + [Load(0)], Refuse(0));
    x := first + y + [Load(0)] + [Refuse(0)];
    assert End(r, Start(0), x).callers == [Loading(0), Admitted(r.window + 1)][0 := Deciding(0, r.window + 1)][0 := Refused(0)];
  }
}
