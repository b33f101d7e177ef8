/** What AppendObject's output means: when it fails, and what a reader recovers. */
module FastJsonResults {
  import opened Records
  import opened Utf8
  import opened Options
  import opened JsonText
  import opened JsonReader
  import opened JsonRoundTrip
  import opened JsonHeap

  // ---- depth ----

  predicate Container(v: Val) {
    v.VMap? || v.VSlice?
  }

  /** w is an element of the container v. */
  ghost predicate Child(h: Heap, v: Val, w: Val)
    requires h.Known(v)
  {
    match v
    case VMap(r) => exists k :: k in h.maps[r] && h.maps[r][k] == w
    case VSlice(r) => w in h.slices[r]
    case _ => false
  }

  /** Containers, each inside the one before it. A heap that contains itself has paths of
      every length. */
  ghost predicate Path(h: Heap, p: seq<Val>) {
    && (forall i :: 0 <= i < |p| ==> Container(p[i]) && h.Known(p[i]))
    && (forall i :: 0 < i < |p| ==> Child(h, p[i - 1], p[i]))
  }

  ghost predicate Nests(h: Heap, v: Val, n: nat) {
    exists p :: Path(h, p) && |p| == n && p != [] && p[0] == v
  }

  /** A path of containers from v to one that w is an element of. */
  ghost predicate LeadsTo(h: Heap, p: seq<Val>, v: Val, w: Val) {
    Path(h, p) && p != [] && p[0] == v && Child(h, p[|p| - 1], w)
  }

  /** Every value found in v, or in a container below it, encodes. */
  ghost predicate EncodesBelow(h: Heap, v: Val) {
    forall p, w :: LeadsTo(h, p, v, w) ==> w != Other(None)
  }

  /** Members fault exactly when some member does, and then for the same reason. */
  lemma {:induction false} MembersFault(h: Heap, m: map<Bytes, Val>, keys: seq<Bytes>, depth: nat)
    requires h.Closed() && depth <= MAX_DEPTH
    requires forall k :: k in keys ==> k in m && h.Known(m[k])
    ensures UnfoldMembers(h, m, keys, depth).Err? <==> exists k :: k in keys && Unfold(h, m[k], depth).Err?
    ensures UnfoldMembers(h, m, keys, depth).Err? ==>
              exists k :: k in keys && Unfold(h, m[k], depth) == Err(UnfoldMembers(h, m, keys, depth).fault)
    decreases |keys|
  {
    if keys != [] {
      var n := |keys| - 1;
      MembersFault(h, m, keys[..n], depth);
      assert keys == keys[..n] + [keys[n]];
      assert Unfold(h, m[keys[n]], depth) == Unfold(h, m[keys[n]], depth);
    }
  }

  lemma {:induction false} ItemsFault(h: Heap, items: seq<Val>, depth: nat)
    requires h.Closed() && depth <= MAX_DEPTH
    requires forall i :: 0 <= i < |items| ==> h.Known(items[i])
    ensures UnfoldItems(h, items, depth).Err? <==> exists i :: 0 <= i < |items| && Unfold(h, items[i], depth).Err?
    ensures UnfoldItems(h, items, depth).Err? ==>
              exists i :: 0 <= i < |items| && Unfold(h, items[i], depth) == Err(UnfoldItems(h, items, depth).fault)
    decreases |items|
  {
    if items != [] {
      var n := |items| - 1;
      ItemsFault(h, items[..n], depth);
      assert forall i :: 0 <= i < n ==> items[..n][i] == items[i];
    }
  }

  lemma MapUnfolds(h: Heap, r: nat, depth: nat)
    requires h.Closed() && r in h.maps && depth < MAX_DEPTH
    ensures match UnfoldMembers(h, h.maps[r], SortedKeys(h.maps[r].Keys), depth + 1)
            case Err(f) => Unfold(h, VMap(r), depth) == Err(f)
            case Ok(_) => Unfold(h, VMap(r), depth).Ok?
  {
  }

  lemma FaultFromMember(h: Heap, r: nat, depth: nat) returns (w: Val)
    requires h.Closed() && r in h.maps && depth < MAX_DEPTH && Unfold(h, VMap(r), depth).Err?
    ensures Child(h, VMap(r), w) && h.Known(w) && Unfold(h, w, depth + 1) == Err(Unfold(h, VMap(r), depth).fault)
  {
    hide Unfold, UnfoldMembers, UnfoldItems;
    var m := h.maps[r];
    MembersFault(h, m, SortedKeys(m.Keys), depth + 1);
    MapUnfolds(h, r, depth);
    var k :| k in SortedKeys(m.Keys) && Unfold(h, m[k], depth + 1) == Err(Unfold(h, VMap(r), depth).fault);
    w := m[k];
  }

  lemma FaultFromItem(h: Heap, r: nat, depth: nat) returns (w: Val)
    requires h.Closed() && r in h.slices && depth < MAX_DEPTH && Unfold(h, VSlice(r), depth).Err?
    ensures Child(h, VSlice(r), w) && h.Known(w) && Unfold(h, w, depth + 1) == Err(Unfold(h, VSlice(r), depth).fault)
  {
    hide Unfold, UnfoldMembers, UnfoldItems;
    var items := h.slices[r];
    ItemsFault(h, items, depth + 1);
    SliceUnfolds(h, r, depth);
    var i :| 0 <= i < |items| && Unfold(h, items[i], depth + 1) == Err(Unfold(h, VSlice(r), depth).fault);
    w := items[i];
  }

  /** A container that faults below the limit has a child that faults, for the same reason. */
  lemma FaultFromChild(h: Heap, v: Val, depth: nat) returns (w: Val)
    requires h.Closed() && h.Known(v) && depth < MAX_DEPTH && Container(v)
    requires Unfold(h, v, depth).Err?
    ensures Child(h, v, w) && h.Known(w) && Unfold(h, w, depth + 1) == Err(Unfold(h, v, depth).fault)
  {
    hide Unfold, Child;
    match v
    case VMap(r) => w := FaultFromMember(h, r, depth);
    case VSlice(r) => w := FaultFromItem(h, r, depth);
  }

  lemma MemberFaults(h: Heap, r: nat, k: Bytes, depth: nat)
    requires h.Closed() && r in h.maps && depth < MAX_DEPTH
    requires k in h.maps[r] && h.Known(h.maps[r][k]) && Unfold(h, h.maps[r][k], depth + 1).Err?
    ensures Unfold(h, VMap(r), depth).Err?
  {
    hide Unfold, UnfoldMembers;
    var m := h.maps[r];
    assert k in SortedKeys(m.Keys);
    MembersFault(h, m, SortedKeys(m.Keys), depth + 1);
    MapUnfolds(h, r, depth);
  }

  lemma ItemFaults(h: Heap, r: nat, i: nat, depth: nat)
    requires h.Closed() && r in h.slices && depth < MAX_DEPTH
    requires i < |h.slices[r]| && h.Known(h.slices[r][i]) && Unfold(h, h.slices[r][i], depth + 1).Err?
    ensures Unfold(h, VSlice(r), depth).Err?
  {
    hide Unfold, UnfoldItems;
    ItemsFault(h, h.slices[r], depth + 1);
    SliceUnfolds(h, r, depth);
  }

  /** And a container faults if any child does. */
  lemma ChildFaults(h: Heap, v: Val, w: Val, depth: nat)
    requires h.Closed() && h.Known(v) && depth < MAX_DEPTH && Container(v)
    requires Child(h, v, w) && h.Known(w) && Unfold(h, w, depth + 1).Err?
    ensures Unfold(h, v, depth).Err?
  {
    hide Unfold;
    match v
    case VMap(r) =>
      var k :| k in h.maps[r] && h.maps[r][k] == w;
      MemberFaults(h, r, k, depth);
    case VSlice(r) =>
      var i :| 0 <= i < |h.slices[r]| && h.slices[r][i] == w;
      ItemFaults(h, r, i, depth);
  }

  /** What holds below a container holds of its children and below them. */
  lemma ChildEncodes(h: Heap, v: Val, w: Val)
    requires EncodesBelow(h, v) && h.Known(v) && Container(v) && Child(h, v, w)
    ensures w != Other(None) && EncodesBelow(h, w)
  {
    assert LeadsTo(h, [v], v, w);
    forall q, x | LeadsTo(h, q, w, x)
      ensures x != Other(None)
    {
      PathUp(h, v, q);
      assert LeadsTo(h, [v] + q, v, x);
    }
  }

  lemma PathUp(h: Heap, v: Val, q: seq<Val>)
    requires Path(h, q) && q != [] && Container(v) && h.Known(v) && Child(h, v, q[0])
    ensures Path(h, [v] + q) && ([v] + q)[0] == v
  {
    var p := [v] + q;
    forall i | 0 < i < |p|
      ensures Child(h, p[i - 1], p[i])
    {
      if i > 1 { assert Child(h, q[i - 1 - 1], q[i - 1]); }
    }
  }

  lemma ScalarsPrint(h: Heap, v: Val, depth: nat)
    requires h.Closed() && h.Known(v) && depth <= MAX_DEPTH && !Container(v) && v != Other(None)
    ensures Unfold(h, v, depth).Ok?
  {
  }

  lemma TooDeepAtTheLimit(h: Heap, v: Val)
    requires h.Closed() && h.Known(v) && Container(v)
    ensures Unfold(h, v, MAX_DEPTH) == Err(TooDeep)
  {
  }

  /** If every leaf encodes, only depth can fail. */
  lemma {:induction false} OnlyDepthFails(h: Heap, v: Val, depth: nat)
    requires h.Closed() && h.Known(v) && depth <= MAX_DEPTH && EncodesBelow(h, v) && v != Other(None)
    requires Unfold(h, v, depth).Err?
    ensures Unfold(h, v, depth).fault == TooDeep
    decreases MAX_DEPTH - depth
  {
    if !Container(v) {
      ScalarsPrint(h, v, depth);
    } else if depth == MAX_DEPTH {
      TooDeepAtTheLimit(h, v);
    } else {
      var w := FaultFromChild(h, v, depth);
      ChildEncodes(h, v, w);
      OnlyDepthFails(h, w, depth + 1);
    }
  }

  lemma NestsDown(h: Heap, v: Val, n: nat) returns (w: Val)
    requires n >= 1 && Nests(h, v, n + 1)
    ensures Container(v) && Child(h, v, w) && h.Known(w) && Nests(h, w, n)
  {
    var p :| Path(h, p) && |p| == n + 1 && p[0] == v;
    w := p[1];
    var tail := p[1..];
    forall i | 0 < i < |tail|
      ensures Child(h, tail[i - 1], tail[i])
    {
      assert Child(h, p[i + 1 - 1], p[i + 1]);
    }
    assert Path(h, tail) && tail[0] == w;
    assert Child(h, p[1 - 1], p[1]);
  }

  lemma NestsUp(h: Heap, v: Val, w: Val, n: nat)
    requires Container(v) && h.Known(v) && Child(h, v, w) && Nests(h, w, n)
    ensures Nests(h, v, n + 1)
  {
    var q :| Path(h, q) && |q| == n && q != [] && q[0] == w;
    PathUp(h, v, q);
  }

  lemma NestsOne(h: Heap, v: Val, n: nat)
    requires h.Known(v)
    ensures Nests(h, v, 1) <==> Container(v)
    ensures Nests(h, v, n) ==> Container(v)
  {
    if Container(v) {
      assert Path(h, [v]) && [v][0] == v;
    }
  }

  /** Printing fails exactly when containers nest too deeply below. */
  lemma {:induction false} FailsIffNested(h: Heap, v: Val, depth: nat)
    requires h.Closed() && h.Known(v) && depth <= MAX_DEPTH && EncodesBelow(h, v) && v != Other(None)
    ensures Unfold(h, v, depth).Err? <==> Nests(h, v, MAX_DEPTH + 1 - depth)
    decreases MAX_DEPTH - depth
  {
    hide Unfold, Nests, EncodesBelow, Child;
    var n := MAX_DEPTH - depth;
    NestsOne(h, v, n + 1);
    if !Container(v) {
      ScalarsPrint(h, v, depth);
    } else if n == 0 {
      TooDeepAtTheLimit(h, v);
    } else {
      if Unfold(h, v, depth).Err? {
        var w := FaultFromChild(h, v, depth);
        ChildEncodes(h, v, w);
        FailsIffNested(h, w, depth + 1);
        NestsUp(h, v, w, n);
      }
      if Nests(h, v, n + 1) {
        var w := NestsDown(h, v, n);
        ChildEncodes(h, v, w);
        FailsIffNested(h, w, depth + 1);
        ChildFaults(h, v, w, depth);
      }
    }
  }

  /** On any finite heap, cyclic ones included: if every leaf below it encodes, AppendObject fails
      with ErrMaxDepth exactly when some path of containers from the root is longer than 50,
      and with nothing else. */
  lemma MaxDepthExactly(h: Heap, ref: nat)
    requires h.Closed() && ref in h.maps && EncodesBelow(h, VMap(ref))
    ensures Unfold(h, VMap(ref), 0) == Err(TooDeep) <==> Nests(h, VMap(ref), 51)
    ensures Unfold(h, VMap(ref), 0).Ok? <==> !Nests(h, VMap(ref), 51)
  {
    FailsIffNested(h, VMap(ref), 0);
    if Unfold(h, VMap(ref), 0).Err? { OnlyDepthFails(h, VMap(ref), 0); }
  }

  /** A map that holds itself is never printed. */
  lemma SelfReferenceFails(h: Heap, ref: nat, key: Bytes)
    requires h.Closed() && ref in h.maps && EncodesBelow(h, VMap(ref))
    requires key in h.maps[ref] && h.maps[ref][key] == VMap(ref)
    ensures Unfold(h, VMap(ref), 0) == Err(TooDeep)
  {
    var p := seq(MAX_DEPTH + 1, _ => VMap(ref));
    assert Child(h, VMap(ref), h.maps[ref][key]);
    assert Path(h, p) && p[0] == VMap(ref);
    MaxDepthExactly(h, ref);
  }

  // ---- key order ----

  /** Keys strictly increase in every object. */
  ghost predicate KeysIncrease(j: Json)
    decreases j
  {
    match j
    case Arr(items) => forall x :: x in items ==> KeysIncrease(x)
    case Obj(members) =>
      && (forall i, k :: 0 <= i < k < |members| ==> Less(members[i].key, members[k].key))
      && (forall m :: m in members ==> KeysIncrease(m.value))
    case _ => true
  }

  /** What other packages encode for v, and below it, is one JSON value each, with no raw
      control character. */
  ghost predicate ReadableBelow(h: Heap, v: Val) {
    OtherReadable(v) && forall p, w :: LeadsTo(h, p, v, w) ==> OtherReadable(w)
  }

  predicate OtherReadable(v: Val) {
    v.Other? && v.text.Some? ==> Readable(v.text.value)
  }

  lemma ChildReadable(h: Heap, v: Val, w: Val)
    requires ReadableBelow(h, v) && h.Known(v) && Container(v) && Child(h, v, w)
    ensures ReadableBelow(h, w)
  {
    assert LeadsTo(h, [v], v, w);
    forall q, x | LeadsTo(h, q, w, x)
      ensures OtherReadable(x)
    {
      PathUp(h, v, q);
      assert LeadsTo(h, [v] + q, v, x);
    }
  }

  lemma {:induction false} UnfoldShape(h: Heap, v: Val, depth: nat)
    requires h.Closed() && h.Known(v) && depth <= MAX_DEPTH && Unfold(h, v, depth).Ok?
    ensures KeysIncrease(Unfold(h, v, depth).value)
    ensures ReadableBelow(h, v) ==> Legible(Unfold(h, v, depth).value)
    decreases MAX_DEPTH - depth, 0, 1
  {
    hide Readable, Print, Path, LeadsTo, Child;
    match v
    case VMap(r) => MapShape(h, r, depth);
    case VSlice(r) =>
      if ReadableBelow(h, v) { ItemsReadable(h, r); }
      ItemsShape(h, h.slices[r], depth + 1);
    case _ =>
  }

  lemma MapShape(h: Heap, r: nat, depth: nat)
    requires h.Closed() && r in h.maps && depth <= MAX_DEPTH && Unfold(h, VMap(r), depth).Ok?
    ensures KeysIncrease(Unfold(h, VMap(r), depth).value)
    ensures ReadableBelow(h, VMap(r)) ==> Legible(Unfold(h, VMap(r), depth).value)
    decreases MAX_DEPTH - depth, 0, 0
  {
    hide ReadableBelow, Readable, Print;
    if ReadableBelow(h, VMap(r)) {
      MembersReadable(h, r);
    }
    MembersShape(h, h.maps[r], SortedKeys(h.maps[r].Keys), depth + 1);
  }

  lemma MembersReadable(h: Heap, r: nat)
    requires h.Closed() && r in h.maps && ReadableBelow(h, VMap(r))
    ensures forall k :: k in h.maps[r] ==> ReadableBelow(h, h.maps[r][k])
  {
    forall k | k in h.maps[r] ensures ReadableBelow(h, h.maps[r][k]) {
      ChildReadable(h, VMap(r), h.maps[r][k]);
    }
  }

  lemma ItemsReadable(h: Heap, r: nat)
    requires h.Closed() && r in h.slices && ReadableBelow(h, VSlice(r))
    ensures forall i :: 0 <= i < |h.slices[r]| ==> ReadableBelow(h, h.slices[r][i])
  {
    forall i | 0 <= i < |h.slices[r]| ensures ReadableBelow(h, h.slices[r][i]) {
      ChildReadable(h, VSlice(r), h.slices[r][i]);
    }
  }

  lemma {:induction false} MembersShape(h: Heap, m: map<Bytes, Val>, keys: seq<Bytes>, depth: nat)
    requires h.Closed() && depth <= MAX_DEPTH
    requires forall k :: k in keys ==> k in m && h.Known(m[k])
    requires UnfoldMembers(h, m, keys, depth).Ok?
    ensures var ms := UnfoldMembers(h, m, keys, depth).value;
      && (forall x :: x in ms ==> KeysIncrease(x.value))
      && ((forall k :: k in keys ==> ReadableBelow(h, m[k])) ==> forall x :: x in ms ==> Legible(x.value))
    decreases MAX_DEPTH - depth, |keys|
  {
    hide ReadableBelow, Legible, KeysIncrease;
    if keys != [] {
      var n := |keys| - 1;
      MembersShape(h, m, keys[..n], depth);
      UnfoldShape(h, m[keys[n]], depth);
    }
  }

  lemma {:induction false} ItemsShape(h: Heap, items: seq<Val>, depth: nat)
    requires h.Closed() && depth <= MAX_DEPTH
    requires forall i :: 0 <= i < |items| ==> h.Known(items[i])
    requires UnfoldItems(h, items, depth).Ok?
    ensures var js := UnfoldItems(h, items, depth).value;
      && (forall x :: x in js ==> KeysIncrease(x))
      && ((forall i :: 0 <= i < |items| ==> ReadableBelow(h, items[i])) ==> forall x :: x in js ==> Legible(x))
    decreases MAX_DEPTH - depth, |items|
  {
    hide ReadableBelow, Legible, KeysIncrease;
    if items != [] {
      var n := |items| - 1;
      ItemsShape(h, items[..n], depth);
      UnfoldShape(h, items[n], depth);
    }
  }

  // ---- what is printed is what was there ----

  /** These are the keys, each once, in increasing order. */
  ghost predicate InOrder(keys: seq<Bytes>, all: set<Bytes>) {
    Sorted(keys) && forall k :: k in keys <==> k in all
  }

  /** A document shows a value: each scalar as itself, a map as an object with exactly its keys,
      each with its own value, a slice as an array of its items in order. A string is shown by
      its code points, a value of another package by what its text reads as. */
  ghost predicate Shows(h: Heap, v: Val, d: Doc)
    requires h.Closed() && h.Known(v)
    decreases d
  {
    match v
    case VNull => d == DNull
    case VBool(b) => d == DBool(b)
    case VInt(n) => d == DInt(n)
    case VStr(s) => d == DStr(Runes(s))
    case Other(text) => text.Some? && ReadValue(text.value).Some? && d == ReadValue(text.value).value.value
    case VMap(r) => d.DObj? && exists keys :: InOrder(keys, h.maps[r].Keys) && ShowsMembers(h, h.maps[r], keys, d.members)
    case VSlice(r) =>
      d.DArr? && |d.items| == |h.slices[r]| && forall i :: 0 <= i < |d.items| ==> Shows(h, h.slices[r][i], d.items[i])
  }

  ghost predicate ShowsMembers(h: Heap, m: map<Bytes, Val>, keys: seq<Bytes>, members: seq<DMember>)
    requires h.Closed() && forall k :: k in m ==> h.Known(m[k])
    decreases members
  {
    && |members| == |keys|
    && forall i :: 0 <= i < |members| ==>
         keys[i] in m && members[i].key == Runes(keys[i]) && Shows(h, m[keys[i]], members[i].value)
  }

  lemma {:induction false} DocsAt(items: seq<Json>, i: nat)
    requires i < |items| && forall x :: x in items ==> Legible(x)
    ensures DocsOf(items)[i] == DocOf(items[i])
  {
    hide DocOf, Legible;
    if i > 0 {
      DocsAt(items[1..], i - 1);
    }
  }

  lemma {:induction false} DocMembersAt(members: seq<Member>, i: nat)
    requires i < |members| && forall m :: m in members ==> Legible(m.value)
    ensures DocMembersOf(members)[i] == DMember(Runes(members[i].key), DocOf(members[i].value))
  {
    hide DocOf, Legible, Runes;
    if i > 0 {
      DocMembersAt(members[1..], i - 1);
    }
  }

  lemma {:induction false} UnfoldShows(h: Heap, v: Val, depth: nat)
    requires h.Closed() && h.Known(v) && depth <= MAX_DEPTH && Unfold(h, v, depth).Ok?
    requires Legible(Unfold(h, v, depth).value)
    ensures Shows(h, v, DocOf(Unfold(h, v, depth).value))
    decreases MAX_DEPTH - depth, 1
  {
    match v
    case VMap(r) => MapShows(h, r, depth);
    case VSlice(r) => SliceShows(h, r, depth);
    case Other(_) => LeafShows(h, v, depth);
    case _ =>
  }

  lemma LeafShows(h: Heap, v: Val, depth: nat)
    requires h.Closed() && depth <= MAX_DEPTH && v.Other? && Unfold(h, v, depth).Ok? && Legible(Unfold(h, v, depth).value)
    ensures Shows(h, v, DocOf(Unfold(h, v, depth).value))
  {
    hide ReadValue;
  }

  lemma MapUnfolded(h: Heap, r: nat, depth: nat)
    requires h.Closed() && r in h.maps && depth <= MAX_DEPTH && Unfold(h, VMap(r), depth).Ok?
    requires Legible(Unfold(h, VMap(r), depth).value)
    ensures depth < MAX_DEPTH && UnfoldMembers(h, h.maps[r], SortedKeys(h.maps[r].Keys), depth + 1).Ok?
    ensures var members := UnfoldMembers(h, h.maps[r], SortedKeys(h.maps[r].Keys), depth + 1).value;
      && Unfold(h, VMap(r), depth).value == Obj(members) && (forall m :: m in members ==> Legible(m.value))
      && DocOf(Obj(members)) == DObj(DocMembersOf(members))
  {
    hide UnfoldMembers, SortedKeys, DocMembersOf;
  }

  lemma {:induction false} MapShows(h: Heap, r: nat, depth: nat)
    requires h.Closed() && r in h.maps && depth <= MAX_DEPTH && Unfold(h, VMap(r), depth).Ok?
    requires Legible(Unfold(h, VMap(r), depth).value)
    ensures Shows(h, VMap(r), DocOf(Unfold(h, VMap(r), depth).value))
    decreases MAX_DEPTH - depth, 0
  {
    hide Unfold, UnfoldMembers, SortedKeys, Runes, Sorted, DocOf, DocMembersOf, Legible;
    MapUnfolded(h, r, depth);
    var m, keys := h.maps[r], SortedKeys(h.maps[r].Keys);
    var members := UnfoldMembers(h, m, keys, depth + 1).value;
    var docs := DocMembersOf(members);
    forall i | 0 <= i < |docs|
      ensures keys[i] in m && docs[i].key == Runes(keys[i]) && Shows(h, m[keys[i]], docs[i].value)
    {
      MemberAt(h, m, keys, depth + 1, i);
      UnfoldShows(h, m[keys[i]], depth + 1);
      DocMembersAt(members, i);
    }
    MapIsShown(h, r, keys, docs);
  }

  lemma MapIsShown(h: Heap, r: nat, keys: seq<Bytes>, docs: seq<DMember>)
    requires h.Closed() && r in h.maps && InOrder(keys, h.maps[r].Keys) && |docs| == |keys|
    requires forall i :: 0 <= i < |docs| ==>
               keys[i] in h.maps[r] && docs[i].key == Runes(keys[i]) && Shows(h, h.maps[r][keys[i]], docs[i].value)
    ensures Shows(h, VMap(r), DObj(docs))
  {
    hide InOrder, Runes;
    assert ShowsMembers(h, h.maps[r], keys, docs);
  }

  lemma {:induction false} MemberAt(h: Heap, m: map<Bytes, Val>, keys: seq<Bytes>, depth: nat, i: nat)
    requires h.Closed() && depth <= MAX_DEPTH && i < |keys|
    requires forall k :: k in keys ==> k in m && h.Known(m[k])
    requires UnfoldMembers(h, m, keys, depth).Ok?
    ensures var members := UnfoldMembers(h, m, keys, depth).value;
      members[i].key == keys[i] && Unfold(h, m[keys[i]], depth) == Ok(members[i].value)
    decreases |keys|
  {
    hide Unfold;
    if i < |keys| - 1 {
      MemberAt(h, m, keys[..|keys| - 1], depth, i);
    }
  }

  lemma {:induction false} ItemAt(h: Heap, items: seq<Val>, depth: nat, i: nat)
    requires h.Closed() && depth <= MAX_DEPTH && i < |items|
    requires forall k :: 0 <= k < |items| ==> h.Known(items[k])
    requires UnfoldItems(h, items, depth).Ok?
    ensures Unfold(h, items[i], depth) == Ok(UnfoldItems(h, items, depth).value[i])
    decreases |items|
  {
    hide Unfold;
    if i < |items| - 1 {
      ItemAt(h, items[..|items| - 1], depth, i);
    }
  }

  lemma {:induction false} SliceShows(h: Heap, r: nat, depth: nat)
    requires h.Closed() && r in h.slices && depth <= MAX_DEPTH && Unfold(h, VSlice(r), depth).Ok?
    requires Legible(Unfold(h, VSlice(r), depth).value)
    ensures Shows(h, VSlice(r), DocOf(Unfold(h, VSlice(r), depth).value))
    decreases MAX_DEPTH - depth, 0
  {
    var slice := h.slices[r];
    var items := UnfoldItems(h, slice, depth + 1).value;
    assert Unfold(h, VSlice(r), depth).value == Arr(items);
    hide Unfold, UnfoldItems;
    forall i | 0 <= i < |items|
      ensures Shows(h, slice[i], DocOf(items[i])) && DocsOf(items)[i] == DocOf(items[i])
    {
      ItemAt(h, slice, depth + 1, i);
      UnfoldShows(h, slice[i], depth + 1);
      DocsAt(items, i);
    }
  }

  // ---- along a path ----

  datatype Hop = Key(key: Bytes) | Item(i: nat)

  /** The value met along a path of keys and indices. */
  function At(h: Heap, v: Val, path: seq<Hop>): Option<Val>
    decreases |path|
  {
    if path == [] then Some(v)
    else
      match path[0]
      case Key(k) => if v.VMap? && v.ref in h.maps && k in h.maps[v.ref] then At(h, h.maps[v.ref][k], path[1..]) else None
      case Item(i) =>
        if v.VSlice? && v.ref in h.slices && i < |h.slices[v.ref]| then At(h, h.slices[v.ref][i], path[1..]) else None
  }

  /** The part of the document at the same place: a key is at the position it has among the keys
      of its map, under its code points. */
  ghost predicate Met(h: Heap, v: Val, path: seq<Hop>, d: Doc, x: Doc)
    decreases |path|
  {
    if path == [] then x == d
    else
      match path[0]
      case Key(k) =>
        && v.VMap? && v.ref in h.maps && k in h.maps[v.ref] && d.DObj?
        && exists keys, i: nat :: InOrder(keys, h.maps[v.ref].Keys) && MemberMet(keys, i, k, d.members)
             && Met(h, h.maps[v.ref][k], path[1..], d.members[i].value, x)
      case Item(i) =>
        && v.VSlice? && v.ref in h.slices && i < |h.slices[v.ref]| && d.DArr? && i < |d.items|
        && Met(h, h.slices[v.ref][i], path[1..], d.items[i], x)
  }

  predicate MemberMet(keys: seq<Bytes>, i: nat, k: Bytes, members: seq<DMember>) {
    i < |keys| == |members| && keys[i] == k && members[i].key == Runes(k)
  }

  /** Whatever is met on a path through the heap is met at the same place in a document that
      shows it: the scalars as themselves, and whole maps and slices too. */
  lemma {:induction false} PathShown(h: Heap, v: Val, path: seq<Hop>, d: Doc) returns (x: Doc)
    requires h.Closed() && h.Known(v) && Shows(h, v, d) && At(h, v, path).Some?
    ensures Met(h, v, path, d, x) && h.Known(At(h, v, path).value) && Shows(h, At(h, v, path).value, x)
    decreases |path|
  {
    if path == [] {
      x := d;
    } else if path[0].Key? {
      var k, m := path[0].key, h.maps[v.ref];
      var keys :| InOrder(keys, m.Keys) && ShowsMembers(h, m, keys, d.members);
      assert k in keys;
      var i: nat :| i < |keys| && keys[i] == k;
      x := PathShown(h, m[k], path[1..], d.members[i].value);
      assert MemberMet(keys, i, k, d.members);
    } else {
      var i := path[0].i;
      x := PathShown(h, h.slices[v.ref][i], path[1..], d.items[i]);
    }
  }

  // ---- the round trip ----

  /** Every string of the tree is valid UTF-8. */
  ghost predicate AllValid(j: Json)
    decreases j, 1, 0
  {
    match j
    case Str(s) => Valid(s)
    case Arr(items) => AllValidItems(items)
    case Obj(members) => AllValidMembers(members)
    case _ => true
  }

  ghost predicate AllValidItems(items: seq<Json>)
    decreases items, 0, |items|
  {
    items == [] || (AllValid(items[0]) && AllValidItems(items[1..]))
  }

  ghost predicate AllValidMembers(members: seq<Member>)
    decreases members, 0, |members|
  {
    members == [] || (Valid(members[0].key) && AllValid(members[0].value) && AllValidMembers(members[1..]))
  }

  function EncodeRunes(rs: seq<int>): Bytes {
    if forall i :: 0 <= i < |rs| ==> Scalar(rs[i]) then EncodeAll(rs) else []
  }

  /** The tree a document stands for, with its strings encoded again. */
  ghost function Rebuild(d: Doc): Json
    decreases d, 1, 0
  {
    match d
    case DNull => Null
    case DBool(b) => Bool(b)
    case DInt(n) => Int(n)
    case DNum(text) => Leaf(text)
    case DStr(s) => Str(EncodeRunes(s))
    case DArr(items) => Arr(RebuildItems(items))
    case DObj(members) => Obj(RebuildMembers(members))
  }

  ghost function RebuildItems(items: seq<Doc>): seq<Json>
    decreases items, 0, |items|
  {
    if items == [] then [] else [Rebuild(items[0])] + RebuildItems(items[1..])
  }

  ghost function RebuildMembers(members: seq<DMember>): seq<Member>
    decreases members, 0, |members|
  {
    if members == [] then []
    else [Member(EncodeRunes(members[0].key), Rebuild(members[0].value))] + RebuildMembers(members[1..])
  }

  /** The tree itself, with copied text replaced by what it stands for. */
  ghost function Settled(j: Json): Json
    requires Legible(j)
    decreases j, 1, 0
  {
    match j
    case Leaf(_) => Rebuild(DocOf(j))
    case Arr(items) => Arr(SettledItems(items))
    case Obj(members) => Obj(SettledMembers(members))
    case _ => j
  }

  ghost function SettledItems(items: seq<Json>): seq<Json>
    requires forall x :: x in items ==> Legible(x)
    decreases items, 0, |items|
  {
    if items == [] then [] else [Settled(items[0])] + SettledItems(items[1..])
  }

  ghost function SettledMembers(members: seq<Member>): seq<Member>
    requires forall m :: m in members ==> Legible(m.value)
    decreases members, 0, |members|
  {
    if members == [] then []
    else [Member(members[0].key, Settled(members[0].value))] + SettledMembers(members[1..])
  }

  /** A tree comes back exactly when all its strings are valid UTF-8. */
  lemma {:induction false} RebuildExactly(j: Json)
    requires Legible(j)
    ensures Rebuild(DocOf(j)) == Settled(j) <==> AllValid(j)
    decreases j, 1, 0
  {
    match j
    case Str(s) => ExactIffValid(s);
    case Arr(items) => RebuildItemsExactly(items);
    case Obj(members) => RebuildMembersExactly(members);
    case _ =>
  }

  lemma {:induction false} RebuildItemsExactly(items: seq<Json>)
    requires forall x :: x in items ==> Legible(x)
    ensures RebuildItems(DocsOf(items)) == SettledItems(items) <==> AllValidItems(items)
    decreases items, 0, |items|
  {
    hide Rebuild, Settled, DocOf, Legible, AllValid;
    if items != [] {
      RebuildExactly(items[0]);
      RebuildItemsExactly(items[1..]);
      var d := DocsOf(items);
      assert d[0] == DocOf(items[0]) && d[1..] == DocsOf(items[1..]);
      assert RebuildItems(d) == [Rebuild(d[0])] + RebuildItems(d[1..]);
      SameParts(Rebuild(d[0]), RebuildItems(d[1..]), Settled(items[0]), SettledItems(items[1..]));
    }
  }

  lemma SameParts<T>(a: T, x: seq<T>, b: T, y: seq<T>)
    ensures [a] + x == [b] + y <==> a == b && x == y
  {
    if [a] + x == [b] + y {
      assert ([a] + x)[0] == ([b] + y)[0];
      assert x == ([a] + x)[1..] == ([b] + y)[1..] == y;
    }
  }

  lemma {:induction false} RebuildMembersExactly(members: seq<Member>)
    requires forall m :: m in members ==> Legible(m.value)
    ensures RebuildMembers(DocMembersOf(members)) == SettledMembers(members) <==> AllValidMembers(members)
    decreases members, 0, |members|
  {
    hide Rebuild, Settled, DocOf, Legible, AllValid, Runes, EncodeRunes, Valid;
    if members != [] {
      var m := members[0];
      assert m.value < m;
      RebuildExactly(m.value);
      KeyExactly(m.key);
      RebuildMembersExactly(members[1..]);
      var d := DocMembersOf(members);
      assert d[0] == DMember(Runes(m.key), DocOf(m.value)) && d[1..] == DocMembersOf(members[1..]);
      var a, b := Member(EncodeRunes(d[0].key), Rebuild(d[0].value)), Member(m.key, Settled(m.value));
      assert RebuildMembers(d) == [a] + RebuildMembers(d[1..]);
      SameParts(a, RebuildMembers(d[1..]), b, SettledMembers(members[1..]));
    }
  }

  lemma KeyExactly(key: Bytes)
    ensures EncodeRunes(Runes(key)) == key <==> Valid(key)
  {
    ExactIffValid(key);
  }

  /** The whole of fastjson: if AppendObject succeeds, a reader recovers from its output the
      tree the heap stands for, key for key in increasing order, each invalid UTF-8 byte as
      U+FFFD; valid UTF-8 comes back exactly; and no byte of the output is a control
      character. Times, floats and values of other packages are whatever JSON value their
      text is. */
  lemma ObjectRoundTrip(h: Heap, ref: nat)
    requires h.Closed() && ref in h.maps && ReadableBelow(h, VMap(ref)) && Unfold(h, VMap(ref), 0).Ok?
    ensures var j := Unfold(h, VMap(ref), 0).value;
      && KeysIncrease(j) && Legible(j)
      && Parse(Print(j)) == Some(DocOf(j)) && Shows(h, VMap(ref), DocOf(j))
      && (Rebuild(DocOf(j)) == Settled(j) <==> AllValid(j))
      && Printable(Print(j))
  {
    hide Unfold;
    var j := Unfold(h, VMap(ref), 0).value;
    UnfoldShape(h, VMap(ref), 0);
    UnfoldShows(h, VMap(ref), 0);
    ParsePrint(j);
    RebuildExactly(j);
    LegiblePrintable(j);
    PrintIsPrintable(j);
  }
}
