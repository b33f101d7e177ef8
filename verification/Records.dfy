/** Runs of encoded records: the bytes of many records back to back, and the end
    offset of each one. The sender's accumulation buffer, a batch's raw bytes and both
    halves of a split all have this shape. */
module Records {

  type byte = x: int | 0 <= x < 256 witness 0
  type Bytes = seq<byte>

  /** `bounds[i]` is where record i ends: never decreasing, and ending at `|raw|`. */
  ghost predicate Bounded(raw: Bytes, bounds: seq<nat>) {
    && (forall i, j :: 0 <= i < j < |bounds| ==> bounds[i] <= bounds[j])
    && (forall i :: 0 <= i < |bounds| ==> bounds[i] <= |raw|)
    && (if bounds == [] then raw == [] else bounds[|bounds| - 1] == |raw|)
  }

  ghost predicate StrictlyIncreasing(bounds: seq<nat>) {
    && (forall i, j :: 0 <= i < j < |bounds| ==> bounds[i] < bounds[j])
    && (forall i :: 0 <= i < |bounds| ==> 0 < bounds[i])
  }

  /** Where record i begins. */
  function Start(bounds: seq<nat>, i: nat): nat
    requires i < |bounds|
  {
    if i == 0 then 0 else bounds[i - 1]
  }

  /** The records themselves, cut out of the run. */
  ghost function Cut(raw: Bytes, bounds: seq<nat>): (records: seq<Bytes>)
    requires Bounded(raw, bounds)
    ensures |records| == |bounds|
    ensures forall i {:trigger records[i]} :: 0 <= i < |bounds| ==> records[i] == raw[Start(bounds, i)..bounds[i]]
  {
    seq(|bounds|, i requires 0 <= i < |bounds| => raw[Start(bounds, i)..bounds[i]])
  }

  /** All records of a list, back to back. */
  ghost function Joined(records: seq<Bytes>): (raw: Bytes) {
    if records == [] then [] else Joined(records[..|records| - 1]) + records[|records| - 1]
  }

  /** The end offsets of a list of records. */
  ghost function Ends(records: seq<Bytes>): (bounds: seq<nat>)
    ensures |bounds| == |records|
  {
    if records == [] then [] else Ends(records[..|records| - 1]) + [|Joined(records)|]
  }

  /** Offsets of the records after a cut, moved onto their own slice. */
  function Rebase(bounds: seq<nat>, cut: nat): (r: seq<nat>)
    requires forall i :: 0 <= i < |bounds| ==> cut <= bounds[i]
    ensures |r| == |bounds|
    ensures forall i {:trigger r[i]} :: 0 <= i < |bounds| ==> r[i] == bounds[i] - cut
  {
    seq(|bounds|, i requires 0 <= i < |bounds| => bounds[i] - cut)
  }

  lemma CutAppend(raw: Bytes, bounds: seq<nat>, record: Bytes)
    requires Bounded(raw, bounds)
    ensures Bounded(raw + record, bounds + [|raw| + |record|])
    ensures Cut(raw + record, bounds + [|raw| + |record|]) == Cut(raw, bounds) + [record]
  {
    var whole, ends := raw + record, bounds + [|raw| + |record|];
    forall i | 0 <= i < |ends|
      ensures Cut(whole, ends)[i] == (Cut(raw, bounds) + [record])[i]
    {
      if i < |bounds| {
        assert Start(ends, i) == Start(bounds, i);
        assert Start(bounds, i) <= bounds[i] <= |raw|;
        assert whole[Start(bounds, i)..bounds[i]] == raw[Start(bounds, i)..bounds[i]];
      } else {
        assert Start(ends, i) == |raw|;
        assert whole[|raw|..|raw| + |record|] == record;
      }
    }
  }

  lemma CutPrefix(raw: Bytes, bounds: seq<nat>, mid: nat)
    requires Bounded(raw, bounds) && 0 < mid < |bounds|
    ensures bounds[mid - 1] <= |raw|
    ensures Bounded(raw[..bounds[mid - 1]], bounds[..mid])
    ensures Cut(raw[..bounds[mid - 1]], bounds[..mid]) == Cut(raw, bounds)[..mid]
  {
    var cut := bounds[mid - 1];
    assert bounds[..mid][mid - 1] == cut;
    forall i | 0 <= i < mid
      ensures Cut(raw[..cut], bounds[..mid])[i] == Cut(raw, bounds)[i]
    {
      assert Start(bounds[..mid], i) == Start(bounds, i) <= bounds[i] <= cut;
    }
  }

  lemma RebaseBounded(raw: Bytes, bounds: seq<nat>, mid: nat)
    requires Bounded(raw, bounds) && 0 < mid < |bounds|
    ensures bounds[mid - 1] <= |raw|
    ensures forall i :: 0 <= i < |bounds| - mid ==> bounds[mid - 1] <= bounds[mid..][i]
    ensures Bounded(raw[bounds[mid - 1]..], Rebase(bounds[mid..], bounds[mid - 1]))
  {
    var cut := bounds[mid - 1];
    var tail := bounds[mid..];
    assert forall i, j :: 0 <= i < j < |tail| ==> tail[i] <= tail[j];
    assert forall i :: 0 <= i < |tail| ==> cut <= tail[i] <= |raw|;
    assert tail[|tail| - 1] == |raw|;
  }

  lemma CutSuffix(raw: Bytes, bounds: seq<nat>, mid: nat)
    requires Bounded(raw, bounds) && 0 < mid < |bounds|
    requires bounds[mid - 1] <= |raw|
    requires forall i :: 0 <= i < |bounds| - mid ==> bounds[mid - 1] <= bounds[mid..][i]
    requires Bounded(raw[bounds[mid - 1]..], Rebase(bounds[mid..], bounds[mid - 1]))
    ensures Cut(raw[bounds[mid - 1]..], Rebase(bounds[mid..], bounds[mid - 1])) == Cut(raw, bounds)[mid..]
  {
    var cut := bounds[mid - 1];
    var right := Rebase(bounds[mid..], cut);
    var half, whole := Cut(raw[cut..], right), Cut(raw, bounds);
    forall i | 0 <= i < |right|
      ensures half[i] == whole[mid + i]
    {
      assert right[i] == bounds[mid..][i] - cut == bounds[mid + i] - cut;
      assert Start(bounds, mid + i) <= bounds[mid + i] <= |raw|;
      if i > 0 {
        assert right[i - 1] == bounds[mid..][i - 1] - cut == bounds[mid + i - 1] - cut;
      }
      SliceOfSuffix(raw, cut, Start(right, i), right[i]);
    }
  }

  lemma SliceOfSuffix(raw: Bytes, cut: nat, lo: nat, hi: nat)
    requires cut <= |raw| && lo <= hi <= |raw| - cut
    ensures raw[cut..][lo..hi] == raw[cut + lo..cut + hi]
  {
  }

  lemma SliceOfSlice(raw: Bytes, lo: nat, hi: nat, a: nat, b: nat)
    requires lo <= hi <= |raw| && a <= b <= hi - lo
    ensures raw[lo..hi][a..b] == raw[lo + a..lo + b]
  {
    var mid := raw[lo..hi];
    assert forall k :: 0 <= k < b - a ==> mid[a..b][k] == mid[a + k] == raw[lo + (a + k)];
  }

  lemma HalfSlices(data: Bytes, lo: nat, hi: nat, cut: nat)
    requires lo <= hi <= |data| && cut <= hi - lo
    ensures data[lo..lo + cut] == data[lo..hi][..cut]
    ensures data[lo + cut..hi] == data[lo..hi][cut..]
  {
    SliceOfSlice(data, lo, hi, cut, hi - lo);
  }

  /** Dividing a run at a record boundary loses, adds and re-cuts nothing. */
  lemma CutSplit(raw: Bytes, bounds: seq<nat>, mid: nat)
    requires Bounded(raw, bounds) && 0 < mid < |bounds|
    ensures bounds[mid - 1] <= |raw|
    ensures forall i :: 0 <= i < |bounds| - mid ==> bounds[mid - 1] <= bounds[mid..][i]
    ensures Bounded(raw[..bounds[mid - 1]], bounds[..mid])
    ensures Bounded(raw[bounds[mid - 1]..], Rebase(bounds[mid..], bounds[mid - 1]))
    ensures Cut(raw[..bounds[mid - 1]], bounds[..mid])
            + Cut(raw[bounds[mid - 1]..], Rebase(bounds[mid..], bounds[mid - 1])) == Cut(raw, bounds)
  {
    CutPrefix(raw, bounds, mid);
    RebaseBounded(raw, bounds, mid);
    CutSuffix(raw, bounds, mid);
    TakeDrop(Cut(raw, bounds), mid);
    hide Cut;
  }

  lemma TakeDrop<T>(x: seq<T>, n: nat)
    requires n <= |x|
    ensures x == x[..n] + x[n..]
  {
  }

  /** The offsets and bytes of a run are determined by its records, so a list of records
      and the run holding it are two views of one thing. */
  lemma {:induction false} CutOfJoined(records: seq<Bytes>)
    ensures Bounded(Joined(records), Ends(records))
    ensures Cut(Joined(records), Ends(records)) == records
  {
    if records == [] {
    } else {
      var init, last := records[..|records| - 1], records[|records| - 1];
      CutOfJoined(init);
      CutAppend(Joined(init), Ends(init), last);
      assert records == init + [last];
    }
  }

  lemma {:induction false} JoinedOfCut(raw: Bytes, bounds: seq<nat>)
    requires Bounded(raw, bounds)
    ensures Joined(Cut(raw, bounds)) == raw
    decreases |bounds|
  {
    var n, records := |bounds|, Cut(raw, bounds);
    if n == 0 {
    } else if n == 1 {
      assert records[0] == raw[0..bounds[0]] == raw;
      assert records[..0] == [];
    } else {
      var cut := bounds[n - 2];
      CutPrefix(raw, bounds, n - 1);
      JoinedOfCut(raw[..cut], bounds[..n - 1]);
      assert cut <= bounds[n - 1] == |raw|;
      assert records[n - 1] == raw[cut..bounds[n - 1]];
      assert raw == raw[..cut] + raw[cut..bounds[n - 1]];
    }
  }

  predicate NoneEmpty(records: seq<Bytes>) {
    forall i :: 0 <= i < |records| ==> records[i] != []
  }

  lemma NoneEmptyHalves(records: seq<Bytes>, mid: nat)
    requires mid <= |records|
    ensures NoneEmpty(records) <==> NoneEmpty(records[..mid]) && NoneEmpty(records[mid..])
  {
    var l, r := records[..mid], records[mid..];
    assert forall i :: mid <= i < |records| ==> records[i] == r[i - mid];
    assert forall i :: 0 <= i < mid ==> records[i] == l[i];
  }

  lemma RecordLength(raw: Bytes, bounds: seq<nat>, i: nat)
    requires Bounded(raw, bounds) && i < |bounds|
    ensures Start(bounds, i) <= bounds[i] && |Cut(raw, bounds)[i]| == bounds[i] - Start(bounds, i)
  {
    assert Cut(raw, bounds)[i] == raw[Start(bounds, i)..bounds[i]];
  }

  lemma StrictIfRising(bounds: seq<nat>)
    requires forall i, j :: 0 <= i < j < |bounds| ==> bounds[i] <= bounds[j]
    requires forall i {:trigger Start(bounds, i)} :: 0 <= i < |bounds| ==> Start(bounds, i) < bounds[i]
    ensures StrictlyIncreasing(bounds)
  {
    forall j | 0 <= j < |bounds|
      ensures 0 < bounds[j] && forall i :: 0 <= i < j ==> bounds[i] < bounds[j]
    {
      var before := Start(bounds, j);
      assert forall i :: 0 <= i < j ==> bounds[i] <= before;
    }
  }

  /** Offsets increase strictly exactly when no record is empty. */
  lemma StrictIffNonEmpty(raw: Bytes, bounds: seq<nat>)
    requires Bounded(raw, bounds)
    ensures StrictlyIncreasing(bounds) <==> NoneEmpty(Cut(raw, bounds))
  {
    var records := Cut(raw, bounds);
    forall i {:trigger Start(bounds, i)} | 0 <= i < |bounds|
      ensures records[i] != [] <==> Start(bounds, i) < bounds[i]
    {
      RecordLength(raw, bounds, i);
    }
    if NoneEmpty(records) {
      StrictIfRising(bounds);
    } else {
      var i :| 0 <= i < |bounds| && records[i] == [];
      assert Start(bounds, i) >= bounds[i];
    }
  }

  lemma Assoc<T>(x: seq<T>, y: seq<T>, z: seq<T>)
    ensures x + y + z == x + (y + z)
  {
  }

  /** The total of a list of sizes. */
  ghost function Total(sizes: seq<nat>): (n: nat) {
    if sizes == [] then 0 else sizes[0] + Total(sizes[1..])
  }

  lemma {:induction false} TotalConcat(a: seq<nat>, b: seq<nat>)
    ensures Total(a + b) == Total(a) + Total(b)
  {
    if a == [] {
      assert a + b == b;
    } else {
      assert (a + b)[1..] == a[1..] + b;
      TotalConcat(a[1..], b);
    }
  }

  lemma {:induction false} TotalUpdate(a: seq<nat>, i: nat, n: nat)
    requires i < |a|
    ensures Total(a[i := n]) == Total(a) - a[i] + n
  {
    assert a == a[..i] + [a[i]] + a[i + 1..];
    assert a[i := n] == a[..i] + [n] + a[i + 1..];
    TotalConcat(a[..i] + [a[i]], a[i + 1..]);
    TotalConcat(a[..i], [a[i]]);
    TotalConcat(a[..i] + [n], a[i + 1..]);
    TotalConcat(a[..i], [n]);
  }
}
