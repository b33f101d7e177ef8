/** The cache of symbolized call sites: two generations, one being filled, the previous one
    still readable. Looked up by one goroutine at a time. */
module SourceCache {
  import opened Options

  type PC = nat

  datatype Site = Site(function_: string, file: string, line: int)

  /** What the runtime knows of a program counter; an empty frame resolves to nothing. */
  function Symbolize(frames: PC -> Site, pc: PC): Option<Site> {
    if frames(pc) == Site("", "", 0) then None else Some(frames(pc))
  }

  // ---- a history of lookups ----

  /** One lookup: the generation it fell in and whether the cache answered it. */
  datatype Lookup = Lookup(pc: PC, gen: int, hit: bool)

  function Resolves(frames: PC -> Site, pc: PC): bool {
    Symbolize(frames, pc).Some?
  }

  /** The sites looked up in a generation. */
  function Used(frames: PC -> Site, trace: seq<Lookup>, gen: int): set<PC> {
    if trace == [] then {}
    else
      var last := trace[|trace| - 1];
      Used(frames, trace[..|trace| - 1], gen)
      + (if last.gen == gen && Resolves(frames, last.pc) then {last.pc} else {})
  }

  /** How many sites were newly discovered in a generation. */
  function Discovered(frames: PC -> Site, trace: seq<Lookup>, gen: int): nat {
    if trace == [] then 0
    else
      var last := trace[|trace| - 1];
      Discovered(frames, trace[..|trace| - 1], gen)
      + (if last.gen == gen && !last.hit && Resolves(frames, last.pc) then 1 else 0)
  }

  /** The generation the next lookup falls in: it changes when `max` sites are new. */
  function GenAfter(frames: PC -> Site, max: nat, trace: seq<Lookup>): int {
    if trace == [] then 0
    else
      var last := trace[|trace| - 1];
      if !last.hit && Resolves(frames, last.pc) && Discovered(frames, trace, last.gen) >= max then last.gen + 1
      else last.gen
  }

  /** What the cache holds between lookups. */
  function Held(frames: PC -> Site, trace: seq<Lookup>, gen: int): set<PC> {
    Used(frames, trace, gen) + Used(frames, trace, gen - 1)
  }

  /** Each lookup was answered from the cache exactly when its site had been looked up in
      its own generation or the one before. */
  predicate Lawful(frames: PC -> Site, max: nat, trace: seq<Lookup>) {
    trace == [] ||
    (var init, last := trace[..|trace| - 1], trace[|trace| - 1];
     && Lawful(frames, max, init)
     && last.gen == GenAfter(frames, max, init)
     && (last.hit <==> last.pc in Held(frames, init, last.gen)))
  }

  // ---- the cache ----

  class Generation {
    var sites: map<PC, Site>

    constructor ()
      ensures sites == map[]
    {
      sites := map[];
    }

    method LoadOrStore(pc: PC, site: Site) returns (loaded: bool)
      modifies this
      ensures loaded == (pc in old(sites))
      ensures sites == if loaded then old(sites) else old(sites)[pc := site]
    {
      loaded := pc in sites;
      if !loaded {
        sites := sites[pc := site];
      }
    }

    method Delete(pc: PC)
      modifies this
      ensures sites == old(sites) - {pc}
    {
      sites := sites - {pc};
    }
  }

  /** A trace one lookup longer. */
  lemma Extended(frames: PC -> Site, max: nat, trace: seq<Lookup>, next: Lookup, gen: int)
    ensures Used(frames, trace + [next], gen)
         == Used(frames, trace, gen) + (if next.gen == gen && Resolves(frames, next.pc) then {next.pc} else {})
    ensures Discovered(frames, trace + [next], gen)
         == Discovered(frames, trace, gen) + (if next.gen == gen && !next.hit && Resolves(frames, next.pc) then 1 else 0)
    ensures (Lawful(frames, max, trace) && next.gen == GenAfter(frames, max, trace)
             && (next.hit <==> next.pc in Held(frames, trace, next.gen)))
            ==> Lawful(frames, max, trace + [next])
  {
    assert (trace + [next])[..|trace|] == trace;
  }

  /** Nothing has been used in a generation still to come. */
  lemma {:induction false} NoneYet(frames: PC -> Site, max: nat, trace: seq<Lookup>, gen: int)
    requires Lawful(frames, max, trace) && gen > GenAfter(frames, max, trace)
    ensures Used(frames, trace, gen) == {}
    ensures Discovered(frames, trace, gen) == 0
    decreases |trace|
  {
    if trace != [] {
      NoneYet(frames, max, trace[..|trace| - 1], gen);
    }
  }

  class SourceCache {
    const max: nat
    const frames: PC -> Site
    var hot: Generation
    var cold: Generation?
    var n: nat
    ghost var trace: seq<Lookup>

    constructor (max: nat, frames: PC -> Site)
      requires max >= 1
      ensures Valid() && this.max == max && this.frames == frames && trace == []
    {
      this.max, this.frames := max, frames;
      hot := new Generation();
      cold, n, trace := null, 0, [];
    }

    ghost function Gen(): int
      reads this
    {
      GenAfter(frames, max, trace)
    }

    function ColdSites(): map<PC, Site>
      reads this, cold
    {
      if cold == null then map[] else cold.sites
    }

    /** Hot holds the sites used in this generation; cold those used in the previous one and
        not yet in this. */
    ghost predicate Valid()
      reads this, hot, cold
    {
      && max >= 1 && hot != cold
      && Lawful(frames, max, trace)
      && hot.sites.Keys == Used(frames, trace, Gen())
      && ColdSites().Keys == Used(frames, trace, Gen() - 1) - Used(frames, trace, Gen())
      && n == Discovered(frames, trace, Gen()) < max
      && (forall pc :: pc in hot.sites ==> Symbolize(frames, pc) == Some(hot.sites[pc]))
      && (forall pc :: pc in ColdSites() ==> Symbolize(frames, pc) == Some(ColdSites()[pc]))
    }

    /** Lookup answers as direct symbolization does. */
    method LookUp(pc: PC) returns (site: Option<Site>, ghost hit: bool)
      requires Valid()
      modifies this, hot, cold
      ensures Valid() && (hot == old(hot) || fresh(hot)) && (cold == old(cold) || cold == old(hot))
      ensures site == Symbolize(frames, pc)
      ensures site == None <==> frames(pc).function_ == "" && frames(pc).file == "" && frames(pc).line == 0
      ensures site != None ==> site.value.function_ == frames(pc).function_ && site.value.file == frames(pc).file
      ensures site != None ==> site.value.line == frames(pc).line
      ensures trace == old(trace) + [Lookup(pc, old(Gen()), hit)]
      ensures hit <==> pc in old(hot.sites) || pc in old(ColdSites())
    {
      if pc in hot.sites {
        site, hit := Some(hot.sites[pc]), true;
        Note(pc, true);
        return;
      }
      if cold != null {
        if pc in cold.sites {
          var found := cold.sites[pc];
          Promote(pc, found);
          return Some(found), true;
        }
      }
      var f := frames(pc);
      if f.file == "" && f.function_ == "" && f.line == 0 {
        Note(pc, false);
        return None, false;
      }
      Remember(pc, f);
      return Some(f), false;
    }

    /** A lookup that changes nothing the cache holds. */
    ghost method Note(pc: PC, hit: bool)
      requires Valid() && (if hit then pc in hot.sites else !Resolves(frames, pc) && pc !in hot.sites)
      modifies `trace
      ensures Valid() && trace == old(trace) + [Lookup(pc, old(Gen()), hit)]
    {
      var next := Lookup(pc, Gen(), hit);
      OnlyResolved(frames, trace, Gen());
      OnlyResolved(frames, trace, Gen() - 1);
      Extended(frames, max, trace, next, Gen());
      Extended(frames, max, trace, next, Gen() - 1);
      trace := trace + [next];
    }

    method Remember(pc: PC, site: Site)
      requires Valid() && pc !in hot.sites && pc !in ColdSites() && Symbolize(frames, pc) == Some(site)
      modifies this, hot
      ensures Valid() && (hot == old(hot) || fresh(hot)) && (cold == old(cold) || cold == old(hot))
      ensures trace == old(trace) + [Lookup(pc, old(Gen()), false)]
    {
      hide Used, Discovered, Lawful;
      ghost var next, gen := Lookup(pc, Gen(), false), Gen();
      Extended(frames, max, trace, next, gen);
      Extended(frames, max, trace, next, gen - 1);
      Extended(frames, max, trace, next, gen + 1);
      NoneYet(frames, max, trace, gen + 1);
      var loaded := hot.LoadOrStore(pc, site);
      n := n + 1;
      trace := trace + [next];
      if n >= max {
        Rotate();
      }
    }

    /** Carries a site still in use into the generation being filled, uncounted. */
    method Promote(pc: PC, site: Site)
      requires Valid() && cold != null && pc in cold.sites && cold.sites[pc] == site
      modifies this, hot, cold
      ensures Valid() && hot == old(hot) && cold == old(cold)
      ensures trace == old(trace) + [Lookup(pc, old(Gen()), true)]
    {
      ghost var next, gen := Lookup(pc, Gen(), true), Gen();
      OnlyResolved(frames, trace, gen - 1);
      Extended(frames, max, trace, next, gen);
      Extended(frames, max, trace, next, gen - 1);
      var loaded := hot.LoadOrStore(pc, site);
      cold.Delete(pc);
      trace := trace + [next];
    }

    method Rotate()
      modifies `hot, `cold, `n
      ensures cold == old(hot) && fresh(hot) && hot.sites == map[] && n == 0
    {
      cold := hot;
      hot := new Generation();
      n := 0;
    }
  }

  lemma {:induction false} OnlyResolved(frames: PC -> Site, trace: seq<Lookup>, gen: int)
    ensures forall pc :: pc in Used(frames, trace, gen) ==> Resolves(frames, pc)
  {
    if trace != [] {
      OnlyResolved(frames, trace[..|trace| - 1], gen);
    }
  }

  // ---- what a history promises ----

  /** Membership in `Used`, spelled out. */
  lemma {:induction false} UsedIff(frames: PC -> Site, trace: seq<Lookup>, gen: int, pc: PC)
    ensures pc in Used(frames, trace, gen)
      <==> Resolves(frames, pc) && exists i :: 0 <= i < |trace| && trace[i].pc == pc && trace[i].gen == gen
  {
    if trace != [] {
      var init := trace[..|trace| - 1];
      UsedIff(frames, init, gen, pc);
      if i :| 0 <= i < |init| && init[i].pc == pc && init[i].gen == gen {
        assert trace[i].pc == pc;
      }
    }
  }

  lemma {:induction false} LawfulPrefix(frames: PC -> Site, max: nat, trace: seq<Lookup>, k: nat)
    requires Lawful(frames, max, trace) && k <= |trace|
    ensures Lawful(frames, max, trace[..k])
    decreases |trace|
  {
    if k < |trace| {
      LawfulPrefix(frames, max, trace[..|trace| - 1], k);
      assert trace[..|trace| - 1][..k] == trace[..k];
    } else {
      assert trace[..k] == trace;
    }
  }

  lemma {:induction false} GensGrow(frames: PC -> Site, max: nat, trace: seq<Lookup>, i: nat)
    requires Lawful(frames, max, trace) && i < |trace|
    ensures trace[i].gen <= GenAfter(frames, max, trace)
    decreases |trace|
  {
    if i < |trace| - 1 {
      GensGrow(frames, max, trace[..|trace| - 1], i);
    }
  }

  /** A lookup is answered from the cache exactly when its site resolves and was looked up
      earlier in the same generation or the one before. */
  lemma HitIff(frames: PC -> Site, max: nat, trace: seq<Lookup>, j: nat)
    requires Lawful(frames, max, trace) && j < |trace|
    ensures trace[j].hit <==>
      Resolves(frames, trace[j].pc)
      && exists i :: 0 <= i < j && trace[i].pc == trace[j].pc && trace[j].gen - 1 <= trace[i].gen
  {
    var init := trace[..j];
    LawfulPrefix(frames, max, trace, j + 1);
    assert trace[..j + 1][..j] == init;
    var pc, gen := trace[j].pc, trace[j].gen;
    UsedIff(frames, init, gen, pc);
    UsedIff(frames, init, gen - 1, pc);
    forall i | 0 <= i < j
      ensures init[i] == trace[i] && trace[i].gen <= gen
    {
      GensGrow(frames, max, init, i);
    }
  }

  predicate LookedUp(trace: seq<Lookup>, pc: PC, gen: int) {
    exists k :: 0 <= k < |trace| && trace[k].pc == pc && trace[k].gen == gen
  }

  /** A site looked up at least once in every generation from one lookup of it to another is
      never evicted in between: the later lookup is answered from the cache. */
  lemma KeptEveryGeneration(frames: PC -> Site, max: nat, trace: seq<Lookup>, i: nat, j: nat)
    requires Lawful(frames, max, trace) && i < j < |trace|
    requires trace[i].pc == trace[j].pc && Resolves(frames, trace[j].pc)
    requires forall g :: trace[i].gen <= g < trace[j].gen ==> LookedUp(trace, trace[j].pc, g)
    ensures trace[j].hit
  {
    HitIff(frames, max, trace, j);
    Ordered(frames, max, trace, i, j);
    if trace[i].gen < trace[j].gen {
      var g := trace[j].gen - 1;
      assert LookedUp(trace, trace[j].pc, g);
      var k :| 0 <= k < |trace| && trace[k].pc == trace[j].pc && trace[k].gen == g;
      if k >= j {
        Ordered(frames, max, trace, j, k);
      }
    }
  }

  lemma Ordered(frames: PC -> Site, max: nat, trace: seq<Lookup>, i: nat, j: nat)
    requires Lawful(frames, max, trace) && i <= j < |trace|
    ensures trace[i].gen <= trace[j].gen
  {
    if i < j {
      LawfulPrefix(frames, max, trace, j + 1);
      assert trace[..j + 1][..j] == trace[..j];
      GensGrow(frames, max, trace[..j], i);
    }
  }

  /** How many sites these lookups newly discovered. */
  function NewSites(frames: PC -> Site, lookups: seq<Lookup>): nat {
    if lookups == [] then 0
    else
      var last := lookups[|lookups| - 1];
      NewSites(frames, lookups[..|lookups| - 1]) + (if !last.hit && Resolves(frames, last.pc) then 1 else 0)
  }

  /** What a generation that begins after lookup i has discovered, the lookups since i have. */
  lemma {:induction false} DiscoveredSince(frames: PC -> Site, trace: seq<Lookup>, i: nat, gen: int)
    requires i < |trace| && forall k :: 0 <= k <= i ==> trace[k].gen != gen
    ensures Discovered(frames, trace, gen) <= NewSites(frames, trace[i + 1..])
    decreases |trace|
  {
    var init := trace[..|trace| - 1];
    if i < |trace| - 1 {
      DiscoveredSince(frames, init, i, gen);
      assert trace[i + 1..][..|trace| - i - 2] == init[i + 1..];
    } else {
      NotDiscovered(frames, trace, gen);
    }
  }

  lemma {:induction false} NotDiscovered(frames: PC -> Site, trace: seq<Lookup>, gen: int)
    requires forall k :: 0 <= k < |trace| ==> trace[k].gen != gen
    ensures Discovered(frames, trace, gen) == 0
  {
    if trace != [] {
      NotDiscovered(frames, trace[..|trace| - 1], gen);
    }
  }

  lemma {:induction false} GensCount(frames: PC -> Site, max: nat, trace: seq<Lookup>)
    requires Lawful(frames, max, trace)
    ensures GenAfter(frames, max, trace) >= 0
    decreases |trace|
  {
    if trace != [] {
      GensCount(frames, max, trace[..|trace| - 1]);
    }
  }

  /** Between lookups of generations that are not neighbours a whole one was filled. */
  lemma FilledBetween(frames: PC -> Site, max: nat, trace: seq<Lookup>, i: nat, j: nat)
    requires Lawful(frames, max, trace) && max >= 1 && i < j < |trace| && trace[i].gen + 1 < trace[j].gen
    ensures NewSites(frames, trace[i + 1..j]) >= max
  {
    hide Used, Discovered, GenAfter, NewSites, Resolves;
    var init, gen := trace[..j], trace[i].gen + 1;
    LawfulPrefix(frames, max, trace, i + 1);
    LawfulPrefix(frames, max, trace, j + 1);
    assert trace[..i + 1][..i] == trace[..i] && trace[..j + 1][..j] == init;
    GensCount(frames, max, trace[..i]);
    FinishedIsFull(frames, max, init, gen);
    forall k | 0 <= k <= i ensures init[k].gen != gen {
      Ordered(frames, max, trace, k, i);
    }
    DiscoveredSince(frames, init, i, gen);
    assert init[i + 1..] == trace[i + 1..j];
  }

  /** A site used at least once in the time it takes to meet `max` new ones is never evicted:
      if fewer than `max` sites were discovered between two lookups of it, the later one is
      answered from the cache. */
  lemma NeverEvicted(frames: PC -> Site, max: nat, trace: seq<Lookup>, i: nat, j: nat)
    requires Lawful(frames, max, trace) && max >= 1 && i < j < |trace|
    requires trace[i].pc == trace[j].pc && Resolves(frames, trace[j].pc)
    requires NewSites(frames, trace[i + 1..j]) < max
    ensures trace[j].hit
  {
    HitIff(frames, max, trace, j);
    if trace[i].gen + 1 < trace[j].gen {
      FilledBetween(frames, max, trace, i, j);
      assert false;
    }
  }

  // ---- how much is held ----

  /** Sites a generation took over from the one before. */
  function Carried(frames: PC -> Site, trace: seq<Lookup>, gen: int): set<PC> {
    Used(frames, trace, gen) * Used(frames, trace, gen - 1)
  }

  lemma OneMoreSite(u: set<PC>, p: set<PC>, pc: PC)
    requires pc !in u
    ensures |u + {pc}| == |u| + 1
    ensures |(u + {pc}) * p| == |u * p| + if pc in p then 1 else 0
  {
    assert (u + {pc}) * p == if pc in p then u * p + {pc} else u * p;
  }

  /** A lookup in the current generation adds to its sites what it newly discovers or carries
      over. */
  lemma UsedCountStep(frames: PC -> Site, max: nat, trace: seq<Lookup>, gen: int)
    requires trace != [] && Lawful(frames, max, trace) && trace[|trace| - 1].gen == gen
    requires var init := trace[..|trace| - 1];
      |Used(frames, init, gen)| == Discovered(frames, init, gen) + |Carried(frames, init, gen)|
    ensures |Used(frames, trace, gen)| == Discovered(frames, trace, gen) + |Carried(frames, trace, gen)|
  {
    hide GenAfter, Resolves, Used, Discovered;
    var init, last := trace[..|trace| - 1], trace[|trace| - 1];
    var u, p := Used(frames, init, gen), Used(frames, init, gen - 1);
    WithLast(frames, trace, gen);
    WithLast(frames, trace, gen - 1);
    CountSites(u, p, last, Resolves(frames, last.pc), Discovered(frames, init, gen));
  }

  /** What the last lookup adds. */
  lemma WithLast(frames: PC -> Site, trace: seq<Lookup>, gen: int)
    requires trace != []
    ensures var init, last := trace[..|trace| - 1], trace[|trace| - 1];
      && Used(frames, trace, gen)
         == Used(frames, init, gen) + (if last.gen == gen && Resolves(frames, last.pc) then {last.pc} else {})
      && (last.gen != gen ==> Used(frames, trace, gen) == Used(frames, init, gen))
      && Discovered(frames, trace, gen)
         == Discovered(frames, init, gen) + (if last.gen == gen && !last.hit && Resolves(frames, last.pc) then 1 else 0)
  {
  }

  lemma CountSites(u: set<PC>, p: set<PC>, last: Lookup, resolves: bool, n: nat)
    requires |u| == n + |u * p| && (last.hit <==> last.pc in u || last.pc in p)
    ensures var v := u + (if resolves then {last.pc} else {});
      |v| == n + (if !last.hit && resolves then 1 else 0) + |v * p|
  {
    if resolves && last.pc !in u {
      OneMoreSite(u, p, last.pc);
    } else {
      assert u + (if resolves then {last.pc} else {}) == u;
    }
  }

  /** A generation's sites are the new ones and those carried over. */
  lemma {:induction false} UsedCount(frames: PC -> Site, max: nat, trace: seq<Lookup>, gen: int)
    requires Lawful(frames, max, trace)
    ensures |Used(frames, trace, gen)| == Discovered(frames, trace, gen) + |Carried(frames, trace, gen)|
    decreases |trace|
  {
    if trace != [] {
      var init, last := trace[..|trace| - 1], trace[|trace| - 1];
      UsedCount(frames, max, init, gen);
      if last.gen == gen {
        UsedCountStep(frames, max, trace, gen);
      } else if last.gen < gen {
        NoneYet(frames, max, init, gen);
      } else {
        assert Discovered(frames, trace, gen) == Discovered(frames, init, gen);
      }
    }
  }

  /** A finished generation discovered exactly `max` sites. */
  lemma {:induction false} FinishedIsFull(frames: PC -> Site, max: nat, trace: seq<Lookup>, gen: int)
    requires max >= 1 && Lawful(frames, max, trace) && gen >= 0
    ensures gen < GenAfter(frames, max, trace) ==> Discovered(frames, trace, gen) == max
    ensures gen == GenAfter(frames, max, trace) ==> Discovered(frames, trace, gen) < max
    decreases |trace|
  {
    if trace != [] {
      var init := trace[..|trace| - 1];
      FinishedIsFull(frames, max, init, gen);
      if gen == trace[|trace| - 1].gen + 1 {
        NoneYet(frames, max, init, gen);
      }
    }
  }

  /** So the entries held number `max`, what this generation discovered, and what the
      previous one carried over: within 2 * max exactly when the last two make at most max. */
  lemma HeldExactly(frames: PC -> Site, max: nat, trace: seq<Lookup>, gen: int)
    requires max >= 1 && Lawful(frames, max, trace) && gen == GenAfter(frames, max, trace) > 0
    ensures |Held(frames, trace, gen)|
         == max + Discovered(frames, trace, gen) + |Carried(frames, trace, gen - 1)|
    ensures |Held(frames, trace, gen)| <= 2 * max
       <==> Discovered(frames, trace, gen) + |Carried(frames, trace, gen - 1)| <= max
  {
    hide Used, Discovered, Lawful, GenAfter;
    UsedCount(frames, max, trace, gen);
    UsedCount(frames, max, trace, gen - 1);
    FinishedIsFull(frames, max, trace, gen - 1);
    SizeOfUnion(Used(frames, trace, gen), Used(frames, trace, gen - 1));
  }

  lemma SizeOfUnion(u: set<PC>, p: set<PC>)
    ensures |u + p| == |u| + |p| - |u * p|
  {
    assert u + p == (u - p) + p;
    assert u == (u - p) + (u * p);
  }

  // ---- and how it grows ----

  /** The next lookup's entry. */
  function Next(frames: PC -> Site, max: nat, trace: seq<Lookup>, pc: PC): Lookup {
    var gen := GenAfter(frames, max, trace);
    Lookup(pc, gen, pc in Held(frames, trace, gen))
  }

  function LookAll(frames: PC -> Site, max: nat, trace: seq<Lookup>, pcs: seq<PC>): seq<Lookup>
    decreases |pcs|
  {
    if pcs == [] then trace else LookAll(frames, max, trace + [Next(frames, max, trace, pcs[0])], pcs[1..])
  }

  /** Every program counter resolves. */
  ghost predicate AllResolve(frames: PC -> Site) {
    forall pc {:trigger frames(pc)} :: frames(pc) != Site("", "", 0)
  }

  /** A generation after sites 0 to `old_`, all the previous one's, in which those up to
      `here` have been looked up, `found` of them new. */
  predicate Between(frames: PC -> Site, max: nat, trace: seq<Lookup>, here: nat, old_: nat, found: nat, gen: int) {
    && Lawful(frames, max, trace) && GenAfter(frames, max, trace) == gen
    && Used(frames, trace, gen - 1) == UpTo(old_) && Used(frames, trace, gen) == UpTo(here)
    && Discovered(frames, trace, gen) == found
  }

  function UpTo(k: nat): (s: set<PC>)
    ensures forall pc: nat :: pc in s <==> pc < k
  {
    if k == 0 then {} else UpTo(k - 1) + {k - 1}
  }

  lemma {:induction false} UpToSize(k: nat)
    ensures |UpTo(k)| == k
  {
    if k > 0 {
      UpToSize(k - 1);
    }
  }

  function Range(from: nat, n: nat): seq<PC> {
    seq(n, i requires 0 <= i < n => from + i)
  }

  /** One more site of the previous generation is looked up. */
  lemma CarryOne(frames: PC -> Site, max: nat, trace: seq<Lookup>, here: nat, old_: nat, gen: int)
    requires AllResolve(frames) && here < old_ && Between(frames, max, trace, here, old_, 0, gen)
    ensures Between(frames, max, trace + [Next(frames, max, trace, here)], here + 1, old_, 0, gen)
  {
    var next := Next(frames, max, trace, here);
    assert next.hit;
    Extended(frames, max, trace, next, gen);
    Extended(frames, max, trace, next, gen - 1);
    assert (trace + [next])[|trace|] == next;
    assert UpTo(here) + {here} == UpTo(here + 1);
  }

  /** Looking the cold sites up again moves them all into the generation being filled. */
  lemma {:induction false} CarryAll(frames: PC -> Site, max: nat, trace: seq<Lookup>, here: nat, more: nat, gen: int)
    requires AllResolve(frames) && Between(frames, max, trace, here, here + more, 0, gen)
    ensures Between(frames, max, LookAll(frames, max, trace, Range(here, more)), here + more, here + more, 0, gen)
    decreases more
  {
    hide Between, UpTo, Next, AllResolve;
    if more > 0 {
      CarryOne(frames, max, trace, here, here + more, gen);
      assert Range(here, more)[0] == here && Range(here, more)[1..] == Range(here + 1, more - 1);
      CarryAll(frames, max, trace + [Next(frames, max, trace, here)], here + 1, more - 1, gen);
    }
  }

  /** One more new site, not yet the last of its generation. */
  lemma FindOne(frames: PC -> Site, max: nat, trace: seq<Lookup>, here: nat, old_: nat, found: nat, gen: int)
    requires AllResolve(frames) && old_ <= here && found + 1 < max && Between(frames, max, trace, here, old_, found, gen)
    ensures Between(frames, max, trace + [Next(frames, max, trace, here)], here + 1, old_, found + 1, gen)
  {
    var next := Next(frames, max, trace, here);
    assert !next.hit;
    Extended(frames, max, trace, next, gen);
    Extended(frames, max, trace, next, gen - 1);
    assert (trace + [next])[|trace|] == next;
    assert UpTo(here) + {here} == UpTo(here + 1);
  }

  /** The last new site of a generation begins the next one. */
  lemma FindLast(frames: PC -> Site, max: nat, trace: seq<Lookup>, here: nat, old_: nat, gen: int)
    requires AllResolve(frames) && old_ <= here && max >= 1 && Between(frames, max, trace, here, old_, max - 1, gen)
    ensures Between(frames, max, trace + [Next(frames, max, trace, here)], 0, here + 1, 0, gen + 1)
  {
    var next := Next(frames, max, trace, here);
    assert !next.hit;
    Extended(frames, max, trace, next, gen);
    Extended(frames, max, trace, next, gen + 1);
    NoneYet(frames, max, trace, gen + 1);
    assert (trace + [next])[|trace|] == next;
    assert UpTo(here) + {here} == UpTo(here + 1) && UpTo(0) == {};
  }

  lemma {:induction false} FindAll(frames: PC -> Site, max: nat, trace: seq<Lookup>,
                                     here: nat, old_: nat, found: nat, more: nat, gen: int)
    requires AllResolve(frames) && old_ <= here && more >= 1 && found + more == max
    requires Between(frames, max, trace, here, old_, found, gen)
    ensures Between(frames, max, LookAll(frames, max, trace, Range(here, more)), 0, here + more, 0, gen + 1)
    decreases more
  {
    hide Between, UpTo, Next, AllResolve;
    var t := trace + [Next(frames, max, trace, here)];
    assert Range(here, more)[0] == here && Range(here, more)[1..] == Range(here + 1, more - 1);
    if more > 1 {
      FindOne(frames, max, trace, here, old_, found, gen);
      FindAll(frames, max, t, here + 1, old_, found + 1, more - 1, gen);
    } else {
      FindLast(frames, max, trace, here, old_, gen);
      assert LookAll(frames, max, t, []) == t;
    }
  }

  /** A whole generation: every held site again, then `max` new ones. */
  lemma OneGeneration(frames: PC -> Site, max: nat, trace: seq<Lookup>, n: nat, gen: int) returns (next: seq<Lookup>)
    requires AllResolve(frames) && max >= 1 && Between(frames, max, trace, 0, n, 0, gen)
    ensures Between(frames, max, next, 0, n + max, 0, gen + 1)
  {
    hide Between, UpTo, Next, AllResolve;
    CarryAll(frames, max, trace, 0, n, gen);
    next := LookAll(frames, max, trace, Range(0, n));
    FindAll(frames, max, next, n, n, 0, max, gen);
    next := LookAll(frames, max, next, Range(n, max));
  }

  lemma HeldBetween(frames: PC -> Site, max: nat, trace: seq<Lookup>, n: nat, gen: int)
    requires Between(frames, max, trace, 0, n, 0, gen)
    ensures Lawful(frames, max, trace) && gen == GenAfter(frames, max, trace)
    ensures |Held(frames, trace, gen)| == n
  {
    hide Used, Lawful, GenAfter, Discovered;
    UpToSize(n);
    assert UpTo(0) + UpTo(n) == UpTo(n);
  }

  /** For generations of any size: look every held site up again, then `max` new ones. What is
      held grows by `max` each time, past 2 * max and past any bound. */
  lemma {:induction false} HeldWithoutBound(frames: PC -> Site, max: nat, k: nat) returns (trace: seq<Lookup>, gen: int)
    requires AllResolve(frames) && max >= 1
    ensures Lawful(frames, max, trace) && gen == GenAfter(frames, max, trace)
    ensures |Held(frames, trace, gen)| == k * max
    ensures Between(frames, max, trace, 0, k * max, 0, gen)
    decreases k
  {
    hide Between, UpTo, Next, AllResolve, Used, Lawful, GenAfter, Discovered;
    if k == 0 {
      trace, gen := [], 0;
      NothingYet(frames, max);
    } else {
      trace, gen := HeldWithoutBound(frames, max, k - 1);
      assert (k - 1) * max + max == k * max;
      trace := OneGeneration(frames, max, trace, (k - 1) * max, gen);
      gen := gen + 1;
    }
    HeldBetween(frames, max, trace, k * max, gen);
  }

  lemma NothingYet(frames: PC -> Site, max: nat)
    ensures Between(frames, max, [], 0, 0, 0, 0)
  {
  }
}
