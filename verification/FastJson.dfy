/** fastjson's AppendObject: printing a value that lives on a heap. */
module FastJson {
  import opened Records
  import opened JsonString
  import opened Options
  import opened JsonText
  import opened JsonReader
  import opened JsonRoundTrip
  import opened JsonHeap
  import opened FastJsonResults

  // ---- keys ----

  /** Collects a map's keys in whatever order iteration yields them. */
  method FillKeys(keys: set<Bytes>) returns (r: seq<Bytes>)
    ensures forall k :: k in r <==> k in keys
    ensures forall i, j :: 0 <= i < j < |r| ==> r[i] != r[j]
  {
    r := [];
    var left := keys;
    while left != {}
      invariant left <= keys
      invariant forall k :: k in r <==> k in keys && k !in left
      invariant forall i, j :: 0 <= i < j < |r| ==> r[i] != r[j]
      decreases left
    {
      var k :| k in left;
      left := left - {k};
      r := r + [k];
    }
  }

  /** Sorts distinct keys, by insertion. */
  method SortKeys(keys: seq<Bytes>) returns (r: seq<Bytes>)
    requires forall i, j :: 0 <= i < j < |keys| ==> keys[i] != keys[j]
    ensures Sorted(r) && forall k :: k in r <==> k in keys
  {
    r := [];
    for n := 0 to |keys|
      invariant Sorted(r)
      invariant forall k :: k in r <==> k in keys[..n]
    {
      assert keys[n] !in keys[..n];
      InsertSorted(r, keys[n]);
      r := Insert(r, keys[n]);
      assert keys[..n + 1] == keys[..n] + [keys[n]];
    }
    assert keys[..|keys|] == keys;
  }

  // ---- printing in place ----

  /** The buffer was extended by the printed tree, or still begins with what was in it. */
  ghost predicate Appended(dst: Bytes, r: Bytes, err: Option<Fault>, u: Result<Json>) {
    match u
    case Ok(j) => err == None && r == dst + Print(j)
    case Err(f) => err == Some(f) && dst <= r
  }

  lemma {:induction false} PrintMembersAppend(ms: seq<Member>, m: Member)
    ensures PrintMembers(ms + [m]) == if ms == [] then PrintMember(m) else PrintMembers(ms) + [44] + PrintMember(m)
  {
    if |ms| > 1 {
      PrintMembersAppend(ms[1..], m);
      assert (ms + [m])[1..] == ms[1..] + [m];
    } else if |ms| == 1 {
      assert (ms + [m])[1..] == [m];
    }
  }

  lemma {:induction false} PrintItemsAppend(items: seq<Json>, j: Json)
    ensures PrintItems(items + [j]) == if items == [] then Print(j) else PrintItems(items) + [44] + Print(j)
  {
    hide Print;
    if |items| > 1 {
      PrintItemsAppend(items[1..], j);
      assert (items + [j])[1..] == items[1..] + [j];
    } else if |items| == 1 {
      assert (items + [j])[1..] == [j];
    }
  }

  lemma {:induction false} MembersFaultStays(h: Heap, m: map<Bytes, Val>, keys: seq<Bytes>, n: nat, depth: nat)
    requires h.Closed() && depth <= MAX_DEPTH && n <= |keys|
    requires forall k :: k in keys ==> k in m && h.Known(m[k])
    requires UnfoldMembers(h, m, keys[..n], depth).Err?
    ensures UnfoldMembers(h, m, keys, depth) == UnfoldMembers(h, m, keys[..n], depth)
    decreases |keys|
  {
    if n < |keys| {
      assert keys[..|keys| - 1][..n] == keys[..n];
      MembersFaultStays(h, m, keys[..|keys| - 1], n, depth);
    } else {
      assert keys[..n] == keys;
    }
  }

  lemma {:induction false} ItemsFaultStays(h: Heap, items: seq<Val>, n: nat, depth: nat)
    requires h.Closed() && depth <= MAX_DEPTH && n <= |items|
    requires forall i :: 0 <= i < |items| ==> h.Known(items[i])
    requires UnfoldItems(h, items[..n], depth).Err?
    ensures UnfoldItems(h, items, depth) == UnfoldItems(h, items[..n], depth)
    decreases |items|
  {
    if n < |items| {
      assert items[..|items| - 1][..n] == items[..n];
      ItemsFaultStays(h, items[..|items| - 1], n, depth);
    } else {
      assert items[..n] == items;
    }
  }

  lemma PrefixTransitive(a: Bytes, b: Bytes, c: Bytes)
    requires a <= b && b <= c
    ensures a <= c
  {
  }

  lemma ExtendsPrefix(a: Bytes, b: Bytes, c: Bytes)
    requires a + b <= c
    ensures a <= c
  {
    PrefixTransitive(a, a + b, c);
  }

  lemma MemberText(before: Bytes, key: Bytes, j: Json)
    ensures before + Quoted(key) + [58] + Print(j) == before + PrintMember(Member(key, j))
  {
    var q, t := Quoted(key), Print(j);
    assert before + q + [58] + t == before + (q + [58] + t);
  }

  lemma MembersGrow(dst: Bytes, done: seq<Member>, m: Member)
    ensures dst + PrintMembers(done) + Comma(done == []) + PrintMember(m) == dst + PrintMembers(done + [m])
  {
    PrintMembersAppend(done, m);
    var b, t := PrintMembers(done), PrintMember(m);
    assert dst + b + [44] + t == dst + (b + [44] + t);
    assert dst + [] + [] + t == dst + t;
  }

  lemma ObjectCloses(dst: Bytes, done: seq<Member>)
    ensures dst + [123] + PrintMembers(done) + [125] == dst + Print(Obj(done))
  {
    var t := PrintMembers(done);
    assert dst + [123] + t + [125] == dst + ([123] + t + [125]);
  }

  /** The separator, if one is due. */
  function Comma(first: bool): Bytes {
    if first then [] else [44]
  }

  /** One pass of the object's loop: separator, key, colon and value. */
  method AppendMember(h: Heap, dst: Bytes, first: bool, key: Bytes, v: Val, depth: nat)
    returns (r: Bytes, err: Option<Fault>)
    requires h.Closed() && h.Known(v) && 1 <= depth <= MAX_DEPTH
    ensures match Unfold(h, v, depth)
            case Ok(j) => err == None && r == dst + Comma(first) + PrintMember(Member(key, j))
            case Err(f) => err == Some(f) && dst <= r
    decreases MAX_DEPTH + 1 - depth, 1
  {
    r := dst + Comma(first);
    ghost var before := r;
    r := AppendString(r, key);
    r := r + [58];
    r, err := AppendValue(h, r, v, depth);
    if err == None {
      MemberText(before, key, Unfold(h, v, depth).value);
    } else {
      ExtendsPrefix(before + Quoted(key), [58], r);
      ExtendsPrefix(before, Quoted(key), r);
      ExtendsPrefix(dst, Comma(first), r);
    }
  }

  /** The object's loop over its sorted keys. */
  method AppendMembers(h: Heap, dst: Bytes, m: map<Bytes, Val>, keys: seq<Bytes>, depth: nat)
    returns (r: Bytes, err: Option<Fault>)
    requires h.Closed() && 1 <= depth <= MAX_DEPTH
    requires forall k :: k in keys ==> k in m && h.Known(m[k])
    ensures match UnfoldMembers(h, m, keys, depth)
            case Ok(members) => err == None && r == dst + PrintMembers(members)
            case Err(f) => err == Some(f) && dst <= r
    decreases MAX_DEPTH + 1 - depth, 2
  {
    hide Print, PrintMember, Unfold, Quoted;
    r, err := dst, None;
    ghost var done: seq<Member> := [];
    for i := 0 to |keys|
      invariant UnfoldMembers(h, m, keys[..i], depth) == Ok(done)
      invariant err == None && r == dst + PrintMembers(done)
    {
      assert keys[..i + 1][..i] == keys[..i];
      r, err := AppendMember(h, r, i == 0, keys[i], m[keys[i]], depth);
      if err.Some? {
        MembersFaultStays(h, m, keys, i + 1, depth);
        ExtendsPrefix(dst, PrintMembers(done), r);
        return;
      }
      ghost var member := Member(keys[i], Unfold(h, m[keys[i]], depth).value);
      MembersGrow(dst, done, member);
      done := done + [member];
    }
    assert keys[..|keys|] == keys;
  }

  /** `depth` is the nesting depth of the object itself. */
  method AppendObjectAt(h: Heap, dst: Bytes, ref: nat, depth: nat) returns (r: Bytes, err: Option<Fault>)
    requires h.Closed() && ref in h.maps && 1 <= depth <= MAX_DEPTH + 1
    ensures Appended(dst, r, err, Unfold(h, VMap(ref), depth - 1))
    decreases MAX_DEPTH + 1 - depth, 3
  {
    if depth > MAX_DEPTH {
      return dst, Some(TooDeep);
    }
    var m := h.maps[ref];
    var keys := FillKeys(m.Keys);
    keys := SortKeys(keys);
    SortedUnique(keys, SortedKeys(m.Keys));
    r, err := AppendMembers(h, dst + [123], m, keys, depth);
    if err.Some? {
      ExtendsPrefix(dst, [123], r);
      return;
    }
    ObjectCloses(dst, UnfoldMembers(h, m, keys, depth).value);
    r := r + [125];
  }

  lemma ItemsGrow(dst: Bytes, done: seq<Json>, j: Json)
    ensures dst + PrintItems(done) + Comma(done == []) + Print(j) == dst + PrintItems(done + [j])
  {
    hide Print;
    PrintItemsAppend(done, j);
    Regroup(dst, PrintItems(done), [44], Print(j));
  }

  lemma Regroup(a: Bytes, b: Bytes, c: Bytes, d: Bytes)
    ensures a + b + c + d == a + (b + c + d)
  {
  }

  lemma ArrayCloses(dst: Bytes, done: seq<Json>)
    ensures PrintItems([]) == []
    ensures dst + [91] + PrintItems(done) + [93] == dst + Print(Arr(done))
  {
    Regroup(dst, [91], PrintItems(done), [93]);
  }

  /** One item more, unless it faults. */
  lemma ItemsStep(h: Heap, items: seq<Val>, i: nat, depth: nat)
    requires h.Closed() && depth <= MAX_DEPTH && i < |items|
    requires forall k :: 0 <= k < |items| ==> h.Known(items[k])
    requires UnfoldItems(h, items[..i], depth).Ok?
    ensures UnfoldItems(h, items[..i + 1], depth) ==
      match Unfold(h, items[i], depth)
      case Err(f) => Err(f)
      case Ok(j) => Ok(UnfoldItems(h, items[..i], depth).value + [j])
  {
    hide Unfold;
    assert items[..i + 1][..i] == items[..i];
  }

  method AppendArrayAt(h: Heap, dst: Bytes, ref: nat, depth: nat) returns (r: Bytes, err: Option<Fault>)
    requires h.Closed() && ref in h.slices && 1 <= depth <= MAX_DEPTH + 1
    ensures Appended(dst, r, err, Unfold(h, VSlice(ref), depth - 1))
    decreases MAX_DEPTH + 1 - depth, 2
  {
    if depth > MAX_DEPTH {
      TooDeepSlice(h, ref);
      return dst, Some(TooDeep);
    }
    r, err := AppendItems(h, dst, ref, depth);
  }

  lemma TooDeepSlice(h: Heap, ref: nat)
    requires h.Closed() && ref in h.slices
    ensures Unfold(h, VSlice(ref), MAX_DEPTH) == Err(TooDeep)
  {
  }

  method AppendItems(h: Heap, dst: Bytes, ref: nat, depth: nat) returns (r: Bytes, err: Option<Fault>)
    requires h.Closed() && ref in h.slices && 1 <= depth <= MAX_DEPTH
    ensures Appended(dst, r, err, Unfold(h, VSlice(ref), depth - 1))
    decreases MAX_DEPTH + 1 - depth, 1
  {
    hide Print, PrintItems, Unfold, UnfoldItems;
    r, err := dst + [91], None;
    var items := h.slices[ref];
    SliceUnfolds(h, ref, depth - 1);
    ArrayCloses(dst, []);
    ghost var done: seq<Json> := [];
    for i := 0 to |items|
      invariant UnfoldItems(h, items[..i], depth) == Ok(done) && |done| == i
      invariant err == None && r == dst + [91] + PrintItems(done)
    {
      ItemsStep(h, items, i, depth);
      if i > 0 {
        r := r + [44];
      }
      ghost var before := r;
      r, err := AppendValue(h, r, items[i], depth);
      if err.Some? {
        ItemsFaultStays(h, items, i + 1, depth);
        ItemFaulted(dst, PrintItems(done), Comma(done == []), before, r);
        return;
      }
      ghost var j := Unfold(h, items[i], depth).value;
      ItemsGrow(dst + [91], done, j);
      assert before == dst + [91] + PrintItems(done) + Comma(done == []);
      done := done + [j];
    }
    ArrayCloses(dst, done);
    r := r + [93];
  }

  lemma ItemFaulted(dst: Bytes, printed: Bytes, comma: Bytes, before: Bytes, r: Bytes)
    requires before == dst + [91] + printed + comma && before <= r
    ensures dst <= r
  {
    Regroup(dst, [91], printed, comma);
    ExtendsPrefix(dst, [91] + printed + comma, r);
  }

  /** `depth` is that of the container the value was found in. */
  method AppendValue(h: Heap, dst: Bytes, v: Val, depth: nat) returns (r: Bytes, err: Option<Fault>)
    requires h.Closed() && h.Known(v) && depth <= MAX_DEPTH
    ensures Appended(dst, r, err, Unfold(h, v, depth))
    decreases MAX_DEPTH + 1 - depth, 0
  {
    match v
    case VNull => return dst + [110, 117, 108, 108], None;
    case VBool(b) => return dst + (if b then [116, 114, 117, 101] else [102, 97, 108, 115, 101]), None;
    case VInt(n) => return dst + PrintInt(n), None;
    case VStr(s) =>
      r := AppendString(dst, s);
      err := None;
    case Other(None) => return dst, Some(LeafFailed);
    case Other(Some(text)) => return dst + text, None;
    case VMap(ref) => r, err := AppendObjectAt(h, dst, ref, depth + 1);
    case VSlice(ref) => r, err := AppendArrayAt(h, dst, ref, depth + 1);
  }

  /** AppendObject: the text appended reads as a document that shows the map, whatever is in it;
      on any error the buffer comes back as it was; and if everything in the map encodes, the
      error is that containers nest more than 50 deep. */
  method AppendObject(h: Heap, dst: Bytes, ref: nat) returns (r: Bytes, err: Option<Fault>)
    requires h.Closed() && ref in h.maps
    ensures match Unfold(h, VMap(ref), 0)
            case Ok(j) => err == None && r == dst + Print(j)
            case Err(f) => err == Some(f) && r == dst
    ensures err == None ==> dst <= r && (ReadableBelow(h, VMap(ref)) ==> ReadsAs(h, ref, r[|dst|..]))
    ensures EncodesBelow(h, VMap(ref)) ==> err == if Nests(h, VMap(ref), 51) then Some(TooDeep) else None
  {
    hide Shows, ReadableBelow, EncodesBelow, Nests, Unfold, Print, Parse;
    var n := |dst|;
    r, err := AppendObjectAt(h, dst, ref, 1);
    if err.Some? {
      r := r[..n];
    } else if ReadableBelow(h, VMap(ref)) {
      ObjectRoundTrip(h, ref);
      assert r[n..] == Print(Unfold(h, VMap(ref), 0).value);
    }
    if EncodesBelow(h, VMap(ref)) {
      MaxDepthExactly(h, ref);
    }
  }

  /** Text that reads as a document showing a map of the heap, and holds no control character. */
  ghost predicate ReadsAs(h: Heap, ref: nat, text: Bytes)
    requires h.Closed() && ref in h.maps
  {
    Printable(text) && Parse(text).Some? && Shows(h, VMap(ref), Parse(text).value)
  }
}
