/** Turning a run of encoded records into a request body, and halving a batch the server or
    the size check found too large. Buffers are objects, so that what aliases what shows. */
module Packer {
  import opened Records
  import opened Options
  import opened Encoder
  import opened JsonRoundTrip
  import opened JsonText

  /** A range of somebody's buffer. */
  datatype Slice = Slice(mem: Buffer, lo: nat, hi: nat)
  {
    ghost predicate Ok()
      reads mem
    {
      lo <= hi <= |mem.data|
    }

    function Bytes(): Bytes
      requires lo <= hi <= |mem.data|
      reads mem
    {
      mem.data[lo..hi]
    }
  }

  /** A request body and what it was made from. `raw` is kept unframed, so that the batch
      can be split; a half's raw is a range of its parent's. */
  datatype Batch = Batch(body: Buffer, records: nat, rawBytes: nat, raw: Slice, bounds: seq<nat>)
  {
    ghost predicate Ok()
      reads raw.mem
    {
      raw.Ok() && records == |bounds| && Bounded(raw.Bytes(), bounds)
    }

    ghost function AsRun(): (run: Run)
      requires Ok()
      reads raw.mem
      ensures run.Ok()
    {
      Run(raw.Bytes(), bounds)
    }
  }

  /** A reused gzip writer over a reused output buffer; compression may fail part of the way
      through. `failures` is how often it has: history. */
  class Compressor {
    const gzip: Bytes -> Bytes
    const out: Buffer
    ghost var failures: nat

    constructor (gzip: Bytes -> Bytes)
      ensures this.gzip == gzip && failures == 0 && fresh(out)
    {
      this.gzip := gzip;
      this.out := new Buffer([]);
      failures := 0;
    }

    /** The result is this compressor's own buffer, good until the next call. */
    method Compress(src: Slice) returns (r: Option<Slice>)
      requires src.Ok() && src.mem != out
      modifies out, `failures
      ensures failures == old(failures) + if r == None then 1 else 0
      ensures r.Some? ==> r.value.mem == out && r.value.Ok() && r.value.Bytes() == gzip(src.Bytes())
    {
      out.data := [];
      var whole := gzip(src.Bytes());
      if * {
        var written: nat :| written <= |whole|;
        out.data := whole[..written];
        failures := failures + 1;
        return None;
      }
      out.data := whole;
      return Some(Slice(out, 0, |whole|));
    }
  }

  /** The offsets of the right half, on a slice of their own: the parent's stay as they are. */
  method MoveTo(bounds: seq<nat>, cut: nat) returns (moved: seq<nat>)
    requires forall i :: 0 <= i < |bounds| ==> cut <= bounds[i]
    ensures moved == Rebase(bounds, cut)
  {
    var a := new nat[|bounds|];
    var i := 0;
    while i < |bounds|
      invariant 0 <= i <= |bounds|
      invariant forall k :: 0 <= k < i ==> a[k] == bounds[k] - cut
    {
      a[i] := bounds[i] - cut;
      i := i + 1;
    }
    moved := a[..];
  }

  class Packer {
    const format: Format
    const identity: bool
    const scratch: Buffer
    const gz: Option<Compressor>

    constructor (format: Format, gz: Option<Compressor>)
      ensures Valid() && this.format == format && this.gz == gz && fresh(scratch)
    {
      this.format := format;
      this.identity := FrameIsIdentity(format);
      this.scratch := new Buffer([]);
      this.gz := gz;
    }

    ghost predicate Valid() {
      identity == FrameIsIdentity(format) && (gz.Some? ==> gz.value.out != scratch)
    }

    /** What this packer reuses from batch to batch. */
    ghost function Repr(): set<object> {
      {scratch} + (if gz.Some? then {gz.value.out, gz.value} else {})
    }

    /** How often compressing has failed. */
    ghost function Failures(): nat
      reads Repr()
    {
      if gz.Some? then gz.value.failures else 0
    }

    /** The body of a run of n records. */
    ghost function Body(raw: Bytes, n: nat): Bytes {
      var framed := Framed(format, raw, n);
      if gz.Some? then gz.value.gzip(framed) else framed
    }

    /** The server's side: inflating the body, if it was compressed, and reading it gives the
        documents of its records in order, whatever trees fastjson printed. */
    lemma BodyReads(inflate: Bytes -> Bytes, js: seq<Json>)
      requires !format.Custom? && Trees(js) && js != []
      requires gz.Some? ==> forall x :: inflate(gz.value.gzip(x)) == x
      ensures var body := Body(Joined(RecordTexts(format, js)), |js|);
        ReadBody(format, if gz.Some? then inflate(body) else body) == Some(DocsOf(js))
    {
      hide Trees, RecordTexts, Joined, DocsOf, ReadBody;
      FramedReads(format, js);
    }

    /** Pack: `raw` is framed without being written to, and the batch gets a body that is an
        alias of nothing. Nothing but compressing can fail. */
    method Pack(raw: Slice, bounds: seq<nat>) returns (r: Option<Batch>)
      requires Valid() && raw.Ok() && raw.mem !in Repr()
      requires format.JSONArray? && bounds != [] ==> raw.Bytes() != []
      modifies Repr()
      ensures Failures() == old(Failures()) + if r == None then 1 else 0
      ensures r.Some? ==>
        var b := r.value;
        && fresh(b.body)
        && b.body.data == Body(raw.Bytes(), |bounds|)
        && b.records == |bounds| && b.raw == raw && b.bounds == bounds
        && b.rawBytes == |Framed(format, raw.Bytes(), |bounds|)|
    {
      var framed := raw;
      if !identity {
        scratch.data := raw.Bytes();
        Frame(format, scratch, |bounds|);
        framed := Slice(scratch, 0, |scratch.data|);
      }
      ghost var text := Framed(format, raw.Bytes(), |bounds|);
      assert framed.Bytes() == text;
      var rawBytes := framed.hi - framed.lo;
      var body := framed;
      if gz.Some? {
        var compressed := gz.value.Compress(framed);
        if compressed == None {
          return None;
        }
        body := compressed.value;
      }
      var own := new Buffer(body.Bytes());
      r := Some(Batch(own, |bounds|, rawBytes, raw, bounds));
    }

    /** Two non-empty halves that read ranges of the parent's bytes, left before right, each
        with a body made from its own records. */
    ghost predicate IsSplit(b: Batch, left: Batch, right: Batch)
      reads b.raw.mem, left.raw.mem, right.raw.mem, left.body, right.body
    {
      && left.Ok() && right.Ok() && b.Ok() && b.records >= 2
      && left.records == b.records / 2 && right.records == b.records - b.records / 2
      && left.raw.mem == right.raw.mem == b.raw.mem
      && b.raw.lo == left.raw.lo && left.raw.hi == right.raw.lo && right.raw.hi == b.raw.hi
      && left.body.data == Body(left.raw.Bytes(), left.records)
      && right.body.data == Body(right.raw.Bytes(), right.records)
      && left.AsRun() == LeftHalf(b.AsRun()) && right.AsRun() == RightHalf(b.AsRun())
      && left.AsRun().Records() + right.AsRun().Records() == b.AsRun().Records()
    }

    /** Split. It may fail halfway; whatever happens, the parent's bytes stay as they are. */
    method Split(b: Batch) returns (r: Option<(Batch, Batch)>)
      requires Valid() && b.Ok() && b.raw.mem !in Repr() && b.records >= 2
      requires format.JSONArray? ==> StrictlyIncreasing(b.bounds)
      modifies Repr()
      ensures Failures() == old(Failures()) + if r == None then 1 else 0
      ensures r.Some? ==> IsSplit(b, r.value.0, r.value.1)
      ensures r.Some? ==> fresh(r.value.0.body) && fresh(r.value.1.body) && r.value.0.body != r.value.1.body
    {
      hide StrictlyIncreasing, Cut, Bounded, Body, Framed, FrameIsIdentity, Failures;
      var mid := b.records / 2;
      var cut := b.bounds[mid - 1];
      ghost var bytes := b.raw.Bytes();
      CutSplit(bytes, b.bounds, mid);

      var rightBounds := MoveTo(b.bounds[mid..], cut);

      var low := Slice(b.raw.mem, b.raw.lo, b.raw.lo + cut);
      var high := Slice(b.raw.mem, b.raw.lo + cut, b.raw.hi);
      HalfSlices(b.raw.mem.data, b.raw.lo, b.raw.hi, cut);
      SplitPointInside(bytes, b.bounds, mid);

      var left := Pack(low, b.bounds[..mid]);
      if left == None {
        return None;
      }
      var right := Pack(high, rightBounds);
      if right == None {
        return None;
      }
      r := Some((left.value, right.value));
    }
  }

  /** With no empty records both sides of a record boundary hold bytes. */
  lemma SplitPointInside(raw: Bytes, bounds: seq<nat>, mid: nat)
    requires Bounded(raw, bounds) && 0 < mid < |bounds|
    ensures StrictlyIncreasing(bounds) ==> 0 < bounds[mid - 1] < |raw|
  {
  }
}
