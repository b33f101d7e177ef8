/** What fastjson prints: a value that lives on a heap of maps and slices, which may share
    parts and may contain itself, and the tree it stands for. */
module JsonHeap {
  import opened Records
  import opened Options
  import opened JsonText

  const MAX_DEPTH: nat := 50

  // ---- key order ----

  /** Byte-wise lexicographic order, as Go compares strings. */
  predicate Less(a: Bytes, b: Bytes) {
    b != [] && (a == [] || a[0] < b[0] || (a[0] == b[0] && Less(a[1..], b[1..])))
  }

  lemma {:induction false} LessTotal(a: Bytes, b: Bytes)
    ensures Less(a, b) || a == b || Less(b, a)
  {
    if a != [] && b != [] && a[0] == b[0] {
      LessTotal(a[1..], b[1..]);
      assert a == [a[0]] + a[1..] && b == [b[0]] + b[1..];
    }
  }

  lemma {:induction false} LessTransitive(a: Bytes, b: Bytes, c: Bytes)
    requires Less(a, b) && Less(b, c)
    ensures Less(a, c)
  {
    if a != [] && a[0] == b[0] == c[0] {
      LessTransitive(a[1..], b[1..], c[1..]);
    }
  }

  lemma {:induction false} LessIrreflexive(a: Bytes)
    ensures !Less(a, a)
  {
    if a != [] { LessIrreflexive(a[1..]); }
  }

  /** Strictly increasing. */
  predicate Sorted(keys: seq<Bytes>) {
    forall i, j :: 0 <= i < j < |keys| ==> Less(keys[i], keys[j])
  }

  lemma FirstIsIn(a: seq<Bytes>)
    ensures a != [] ==> a[0] in a
  {
  }

  /** Two sorted lists of the same keys are the same list. */
  lemma {:induction false} SortedUnique(a: seq<Bytes>, b: seq<Bytes>)
    requires Sorted(a) && Sorted(b)
    requires forall k :: k in a <==> k in b
    ensures a == b
    decreases |a|
  {
    if a == [] {
      FirstIsIn(b);
    } else {
      assert a[0] in b && b != [];
      assert b[0] in a;
      if a[0] != b[0] {
        var i :| 0 <= i < |b| && b[i] == a[0];
        var j :| 0 <= j < |a| && a[j] == b[0];
        LessTransitive(a[0], b[0], a[0]);
        LessIrreflexive(a[0]);
        assert false;
      }
      var x := a[0];
      LessIrreflexive(x);
      forall k ensures k in a[1..] <==> k in b[1..] {
        InTail(a, k);
        InTail(b, k);
      }
      SortedUnique(a[1..], b[1..]);
      assert a == [x] + a[1..] && b == [x] + b[1..];
    }
  }

  lemma InTail(a: seq<Bytes>, k: Bytes)
    requires a != [] && Sorted(a)
    ensures k in a[1..] <==> k in a && k != a[0]
  {
    LessIrreflexive(a[0]);
    assert a == [a[0]] + a[1..];
    if k in a[1..] {
      var i :| 0 <= i < |a| - 1 && a[1..][i] == k;
      assert a[i + 1] == k;
    }
  }

  /** A key put where it belongs in a sorted list. */
  function Insert(keys: seq<Bytes>, k: Bytes): (r: seq<Bytes>)
    ensures |r| == |keys| + 1 && forall x :: x in r <==> x == k || x in keys
  {
    if keys == [] then [k]
    else if Less(k, keys[0]) then [k] + keys
    else [keys[0]] + Insert(keys[1..], k)
  }

  lemma {:induction false} InsertSorted(keys: seq<Bytes>, k: Bytes)
    requires Sorted(keys) && k !in keys
    ensures Sorted(Insert(keys, k))
  {
    if keys == [] {
    } else if Less(k, keys[0]) {
      forall j | 0 <= j < |keys| ensures Less(k, keys[j]) {
        if j > 0 { LessTransitive(k, keys[0], keys[j]); }
      }
    } else {
      LessTotal(k, keys[0]);
      assert k != keys[0];
      InsertSorted(keys[1..], k);
      var r := Insert(keys[1..], k);
      forall j | 0 <= j < |r| ensures Less(keys[0], r[j]) {
        assert r[j] in r;
        if r[j] != k {
          var i :| 0 <= i < |keys| - 1 && keys[1..][i] == r[j];
          assert keys[i + 1] == r[j];
        }
      }
    }
  }

  /** The keys of a set in order. */
  ghost function SortedKeys(keys: set<Bytes>): (r: seq<Bytes>)
    ensures Sorted(r) && forall k :: k in r <==> k in keys
  {
    if keys == {} then []
    else
      var k :| k in keys;
      var rest := SortedKeys(keys - {k});
      InsertSorted(rest, k);
      Insert(rest, k)
  }

  // ---- the heap ----

  /** What an `any` may hold. `Other` is a value encoded by its own package: the text it
      appends, or nothing when that fails. */
  datatype Val =
    | VNull | VBool(b: bool) | VInt(n: int) | VStr(s: Bytes) | Other(text: Option<Bytes>)
    | VMap(ref: nat) | VSlice(ref: nat)

  datatype Heap = Heap(maps: map<nat, map<Bytes, Val>>, slices: map<nat, seq<Val>>)
  {
    predicate Known(v: Val) {
      (v.VMap? ==> v.ref in maps) && (v.VSlice? ==> v.ref in slices)
    }

    ghost predicate Closed() {
      && (forall r, k :: r in maps && k in maps[r] ==> Known(maps[r][k]))
      && (forall r, i :: r in slices && 0 <= i < |slices[r]| ==> Known(slices[r][i]))
    }
  }

  datatype Fault = TooDeep | LeafFailed
  datatype Result<+T> = Ok(value: T) | Err(fault: Fault)

  /** The tree a value stands for, met inside `depth` containers: the heap unfolded, or the
      first fault in printing order. */
  ghost function Unfold(h: Heap, v: Val, depth: nat): (u: Result<Json>)
    requires h.Closed() && h.Known(v) && depth <= MAX_DEPTH
    decreases MAX_DEPTH - depth, 0
  {
    match v
    case VNull => Ok(Null)
    case VBool(b) => Ok(Bool(b))
    case VInt(n) => Ok(Int(n))
    case VStr(s) => Ok(Str(s))
    case Other(None) => Err(LeafFailed)
    case Other(Some(text)) => Ok(Leaf(text))
    case VMap(r) =>
      if depth + 1 > MAX_DEPTH then Err(TooDeep)
      else
        (match UnfoldMembers(h, h.maps[r], SortedKeys(h.maps[r].Keys), depth + 1)
         case Err(f) => Err(f)
         case Ok(members) => Ok(Obj(members)))
    case VSlice(r) =>
      if depth + 1 > MAX_DEPTH then Err(TooDeep)
      else
        (match UnfoldItems(h, h.slices[r], depth + 1)
         case Err(f) => Err(f)
         case Ok(items) => Ok(Arr(items)))
  }

  ghost function UnfoldMembers(h: Heap, m: map<Bytes, Val>, keys: seq<Bytes>, depth: nat): (u: Result<seq<Member>>)
    requires h.Closed() && depth <= MAX_DEPTH
    requires forall k :: k in keys ==> k in m && h.Known(m[k])
    ensures u.Ok? ==> |u.value| == |keys| && forall i :: 0 <= i < |keys| ==> u.value[i].key == keys[i]
    decreases MAX_DEPTH - depth, |keys|
  {
    if keys == [] then Ok([])
    else
      var n := |keys| - 1;
      match UnfoldMembers(h, m, keys[..n], depth)
      case Err(f) => Err(f)
      case Ok(members) =>
        match Unfold(h, m[keys[n]], depth)
        case Err(f) => Err(f)
        case Ok(j) => Ok(members + [Member(keys[n], j)])
  }

  ghost function UnfoldItems(h: Heap, items: seq<Val>, depth: nat): (u: Result<seq<Json>>)
    requires h.Closed() && depth <= MAX_DEPTH
    requires forall i :: 0 <= i < |items| ==> h.Known(items[i])
    ensures u.Ok? ==> |u.value| == |items|
    decreases MAX_DEPTH - depth, |items|
  {
    if items == [] then Ok([])
    else
      var n := |items| - 1;
      match UnfoldItems(h, items[..n], depth)
      case Err(f) => Err(f)
      case Ok(done) =>
        match Unfold(h, items[n], depth)
        case Err(f) => Err(f)
        case Ok(j) => Ok(done + [j])
  }

  lemma SliceUnfolds(h: Heap, r: nat, depth: nat)
    requires h.Closed() && r in h.slices && depth < MAX_DEPTH
    ensures UnfoldItems(h, h.slices[r][..0], depth + 1) == Ok([])
    ensures h.slices[r][..|h.slices[r]|] == h.slices[r]
    ensures match UnfoldItems(h, h.slices[r], depth + 1)
            case Err(f) => Unfold(h, VSlice(r), depth) == Err(f)
            case Ok(items) => Unfold(h, VSlice(r), depth) == Ok(Arr(items))
  {
    assert h.slices[r][..0] == [];
  }
}
