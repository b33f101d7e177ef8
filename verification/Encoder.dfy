/** The two JSON encoders: a record's bytes on their own, and a body framed from any run of
    records. Records are encoded by fastjson. */
module Encoder {
  import opened Records
  import opened Options
  import opened JsonText
  import opened JsonReader
  import opened JsonRoundTrip
  import opened JsonHeap
  import opened FastJson
  import opened FastJsonResults

  /** `Custom` is an encoder the caller supplies: any framing at all. */
  datatype Format = NDJSON | JSONArray | Custom(frame: (Bytes, nat) -> Bytes, identity: bool)

  /** A growable byte slice. */
  class Buffer {
    var data: Bytes

    constructor (data: Bytes)
      ensures this.data == data
    {
      this.data := data;
    }
  }

  /** One record's contribution to a body: a trailing newline, or a leading comma. */
  function RecordText(f: Format, text: Bytes): Bytes
    requires !f.Custom?
  {
    if f.NDJSON? then text + [10] else [44] + text
  }

  /** The body made of a run of n records. */
  function Framed(f: Format, raw: Bytes, n: nat): Bytes {
    match f
    case NDJSON => raw
    case JSONArray => if n == 0 || raw == [] then raw + [91, 93] else [91] + raw[1..] + [93]
    case Custom(frame, identity) => if identity then raw else frame(raw, n)
  }

  predicate FrameIsIdentity(f: Format) {
    f.NDJSON? || (f.Custom? && f.identity)
  }

  lemma RecordAppended(f: Format, before: Bytes, text: Bytes)
    requires !f.Custom?
    ensures before + RecordText(f, text) == if f.NDJSON? then before + text + [10] else before + [44] + text
  {
  }

  /** AppendRecord: the buffer is extended by one record, or is what it was. */
  method AppendRecord(f: Format, buf: Buffer, h: Heap, ref: nat) returns (err: Option<Fault>)
    requires !f.Custom? && h.Closed() && ref in h.maps
    modifies buf
    ensures match Unfold(h, VMap(ref), 0)
            case Ok(j) => err == None && buf.data == old(buf.data) + RecordText(f, Print(j))
            case Err(e) => err == Some(e) && buf.data == old(buf.data)
    ensures err == None ==> exists text ::
      buf.data == old(buf.data) + RecordText(f, text) && (ReadableBelow(h, VMap(ref)) ==> ReadsAs(h, ref, text))
  {
    hide ReadsAs, ReadableBelow, EncodesBelow, Nests, Unfold, Print;
    var n := |buf.data|;
    ghost var before := buf.data;
    var dst := buf.data;
    if f.JSONArray? {
      dst := dst + [44];
    }
    var r;
    r, err := AppendObject(h, dst, ref);
    if err.Some? {
      buf.data := r[..n];
      return;
    }
    assert r[|dst|..] == Print(Unfold(h, VMap(ref), 0).value);
    if f.NDJSON? {
      r := r + [10];
    }
    ghost var text := Print(Unfold(h, VMap(ref), 0).value);
    RecordAppended(f, before, text);
    buf.data := r;
  }

  /** Frame: the array encoder overwrites the first record's comma in place. */
  method Frame(f: Format, buf: Buffer, n: nat)
    requires f.JSONArray? && n > 0 ==> buf.data != []
    modifies buf
    ensures buf.data == Framed(f, old(buf.data), n)
  {
    match f
    case NDJSON =>
    case JSONArray =>
      if n == 0 {
        buf.data := buf.data + [91, 93];
      } else {
        buf.data := buf.data[0 := 91];
        buf.data := buf.data + [93];
        assert old(buf.data)[0 := 91] == [91] + old(buf.data)[1..];
      }
    case Custom(frame, identity) => buf.data := if identity then buf.data else frame(buf.data, n);
  }

  // ---- reading a body ----

  function LineEnd(s: Bytes): (n: nat)
    ensures n <= |s|
  {
    if s == [] || s[0] == 10 then 0 else 1 + LineEnd(s[1..])
  }

  /** Newline-delimited JSON: one document per line, each line terminated. */
  function ReadLines(s: Bytes): Option<seq<Doc>>
    decreases |s|
  {
    if s == [] then Some([])
    else
      var n := LineEnd(s);
      if n == |s| then None
      else
        match (Parse(s[..n]), ReadLines(s[n + 1..]))
        case (Some(d), Some(ds)) => Some([d] + ds)
        case _ => None
  }

  /** The documents in a body. */
  function ReadBody(f: Format, body: Bytes): Option<seq<Doc>>
    requires !f.Custom?
  {
    if f.NDJSON? then ReadLines(body)
    else
      match Parse(body)
      case Some(DArr(items)) => Some(items)
      case _ => None
  }

  /** The encoded records of a list of trees. */
  function RecordTexts(f: Format, js: seq<Json>): (r: seq<Bytes>)
    requires !f.Custom?
    ensures |r| == |js|
  {
    seq(|js|, i requires 0 <= i < |js| => RecordText(f, Print(js[i])))
  }

  ghost predicate Trees(js: seq<Json>) {
    forall j :: j in js ==> Legible(j)
  }

  // ---- what a framed batch reads as ----

  /** Records back to back, first one first. */
  function Chain(f: Format, js: seq<Json>): Bytes
    requires !f.Custom?
  {
    if js == [] then [] else RecordText(f, Print(js[0])) + Chain(f, js[1..])
  }

  lemma {:induction false} ChainAppend(f: Format, js: seq<Json>, j: Json)
    requires !f.Custom?
    ensures Chain(f, js + [j]) == Chain(f, js) + RecordText(f, Print(j))
  {
    if js == [] {
      assert ([] + [j])[1..] == [];
    } else {
      ChainAppend(f, js[1..], j);
      assert (js + [j])[1..] == js[1..] + [j];
      var x, y, z := RecordText(f, Print(js[0])), Chain(f, js[1..]), RecordText(f, Print(j));
      assert x + (y + z) == (x + y) + z;
    }
  }

  lemma {:induction false} JoinedIsChain(f: Format, js: seq<Json>)
    requires !f.Custom?
    ensures Joined(RecordTexts(f, js)) == Chain(f, js)
    decreases |js|
  {
    hide Print;
    if js != [] {
      var n := |js| - 1;
      JoinedIsChain(f, js[..n]);
      ChainAppend(f, js[..n], js[n]);
      assert js[..n] + [js[n]] == js;
      assert RecordTexts(f, js)[..n] == RecordTexts(f, js[..n]);
    }
  }

  lemma Commas(a: Bytes, b: Bytes)
    ensures ([44] + a) + ([44] + b) == [44] + (a + [44] + b)
  {
  }

  /** The array encoder's chain of leading commas, one comma dropped, is the inside of an
      array. */
  lemma {:induction false} ChainIsItems(js: seq<Json>)
    requires js != []
    ensures Chain(JSONArray, js) == [44] + PrintItems(js)
  {
    hide Print;
    if |js| == 1 {
      assert js[1..] == [];
      assert Chain(JSONArray, js) == [44] + Print(js[0]) + [];
    } else {
      ChainIsItems(js[1..]);
      Commas(Print(js[0]), PrintItems(js[1..]));
    }
  }

  lemma {:induction false} LineEndOf(text: Bytes, rest: Bytes)
    requires Printable(text)
    ensures LineEnd(text + [10] + rest) == |text|
  {
    var s := text + [10] + rest;
    if text != [] {
      assert s[0] == text[0] && s[1..] == text[1..] + [10] + rest;
      LineEndOf(text[1..], rest);
    } else {
      assert s[0] == 10;
    }
  }

  lemma {:induction false} TextPrintable(j: Json)
    requires Legible(j)
    ensures Printable(Print(j))
    decreases j
  {
    LegiblePrintable(j);
    PrintIsPrintable(j);
  }

  lemma {:induction false} ReadsLines(js: seq<Json>)
    requires Trees(js)
    ensures ReadLines(Chain(NDJSON, js)) == Some(DocsOf(js))
  {
    if js != [] {
      var text, rest := Print(js[0]), Chain(NDJSON, js[1..]);
      var s := text + [10] + rest;
      assert Chain(NDJSON, js) == s;
      TextPrintable(js[0]);
      LineEndOf(text, rest);
      assert s[..|text|] == text && s[|text| + 1..] == rest;
      ParsePrint(js[0]);
      ReadsLines(js[1..]);
    }
  }

  /** A framed run of one or more records reads as their documents, in order. */
  lemma FramedReads(f: Format, js: seq<Json>)
    requires !f.Custom? && Trees(js) && js != []
    ensures ReadBody(f, Framed(f, Joined(RecordTexts(f, js)), |js|)) == Some(DocsOf(js))
  {
    hide Print, Parse, Chain, DocsOf, ReadLines;
    JoinedIsChain(f, js);
    if f.NDJSON? {
      ReadsLines(js);
    } else {
      ArrayFramed(js);
      ParsePrint(Arr(js));
    }
  }

  /** Overwriting the first comma and closing the bracket makes the chain an array. */
  lemma ArrayFramed(js: seq<Json>)
    requires js != []
    ensures Framed(JSONArray, Chain(JSONArray, js), |js|) == Print(Arr(js))
  {
    hide Chain, PrintItems;
    ChainIsItems(js);
    var inner := PrintItems(js);
    assert ([44] + inner)[1..] == inner;
  }

  // ---- halvings ----

  /** Any way of halving a batch again and again. */
  datatype Halving = Keep | Halve(left: Halving, right: Halving)

  /** Only batches of two records or more are halved. */
  predicate Fits(t: Halving, n: nat) {
    match t
    case Keep => n >= 1
    case Halve(l, r) => n >= 2 && Fits(l, n / 2) && Fits(r, n - n / 2)
  }

  /** A run of records and where each one ends. */
  datatype Run = Run(raw: Bytes, bounds: seq<nat>)
  {
    ghost predicate Ok() {
      Bounded(raw, bounds)
    }

    ghost function Records(): (r: seq<Bytes>)
      requires Ok()
      ensures |r| == |bounds|
    {
      Cut(raw, bounds)
    }
  }

  /** The halves of a run: cut out of its bytes, offsets moved onto their own slice. */
  ghost function LeftHalf(run: Run): (r: Run)
    requires run.Ok() && |run.bounds| >= 2
    ensures r.Ok() && |r.bounds| == |run.bounds| / 2
    ensures r.Records() == run.Records()[..|run.bounds| / 2]
  {
    var mid := |run.bounds| / 2;
    CutPrefix(run.raw, run.bounds, mid);
    Run(run.raw[..run.bounds[mid - 1]], run.bounds[..mid])
  }

  ghost function RightHalf(run: Run): (r: Run)
    requires run.Ok() && |run.bounds| >= 2
    ensures r.Ok() && |r.bounds| == |run.bounds| - |run.bounds| / 2
    ensures r.Records() == run.Records()[|run.bounds| / 2..]
  {
    var mid := |run.bounds| / 2;
    RebaseBounded(run.raw, run.bounds, mid);
    CutSuffix(run.raw, run.bounds, mid);
    Run(run.raw[run.bounds[mid - 1]..], Rebase(run.bounds[mid..], run.bounds[mid - 1]))
  }

  /** Reads the leaves of a halving, left before right, each framed by itself. */
  ghost function ReadLeaves(f: Format, t: Halving, run: Run): Option<seq<Doc>>
    requires !f.Custom? && run.Ok() && Fits(t, |run.bounds|)
    decreases t
  {
    match t
    case Keep => ReadBody(f, Framed(f, run.raw, |run.bounds|))
    case Halve(l, r) =>
      match (ReadLeaves(f, l, LeftHalf(run)), ReadLeaves(f, r, RightHalf(run)))
      case (Some(a), Some(b)) => Some(a + b)
      case _ => None
  }

  lemma {:induction false} DocsOfConcat(a: seq<Json>, b: seq<Json>)
    requires Trees(a) && Trees(b)
    ensures Trees(a + b) && DocsOf(a + b) == DocsOf(a) + DocsOf(b)
  {
    hide DocOf, Legible;
    if a == [] {
      assert a + b == b;
    } else {
      assert (a + b)[1..] == a[1..] + b && (a + b)[0] == a[0];
      DocsOfConcat(a[1..], b);
      Assoc([DocOf(a[0])], DocsOf(a[1..]), DocsOf(b));
    }
  }

  /** The run holds the encodings of these trees. */
  ghost predicate Holds(f: Format, run: Run, js: seq<Json>)
    requires !f.Custom?
  {
    run.Ok() && Trees(js) && run.Records() == RecordTexts(f, js)
  }

  lemma HalvesHoldHalves(f: Format, run: Run, js: seq<Json>)
    requires !f.Custom? && Holds(f, run, js) && |run.bounds| >= 2
    ensures |js| == |run.bounds|
    ensures Holds(f, LeftHalf(run), js[..|js| / 2]) && Holds(f, RightHalf(run), js[|js| / 2..])
  {
    var mid := |run.bounds| / 2;
    assert |run.Records()| == |js|;
    assert RecordTexts(f, js)[..mid] == RecordTexts(f, js[..mid]);
    assert RecordTexts(f, js)[mid..] == RecordTexts(f, js[mid..]);
  }

  lemma KeepReads(f: Format, run: Run, js: seq<Json>)
    requires !f.Custom? && Holds(f, run, js) && run.bounds != []
    ensures ReadBody(f, Framed(f, run.raw, |run.bounds|)) == Some(DocsOf(js))
  {
    JoinedOfCut(run.raw, run.bounds);
    assert |run.Records()| == |js|;
    FramedReads(f, js);
  }

  /** However a batch is halved, its framed leaves read in order as the documents of its
      records. */
  lemma {:induction false} LeavesRead(f: Format, t: Halving, run: Run, js: seq<Json>)
    requires !f.Custom? && Holds(f, run, js) && Fits(t, |run.bounds|)
    ensures ReadLeaves(f, t, run) == Some(DocsOf(js))
    decreases t
  {
    hide Bounded, Cut, ReadBody, Framed, Print, RecordTexts, DocsOf;
    match t
    case Keep => KeepReads(f, run, js);
    case Halve(l, r) =>
      HalvesHoldHalves(f, run, js);
      var a, b := js[..|js| / 2], js[|js| / 2..];
      LeavesRead(f, l, LeftHalf(run), a);
      LeavesRead(f, r, RightHalf(run), b);
      DocsOfConcat(a, b);
      assert a + b == js;
  }

  /** Which is also how the framed whole reads. */
  lemma LeavesReadAsTheWhole(f: Format, t: Halving, run: Run, js: seq<Json>)
    requires !f.Custom? && Holds(f, run, js) && Fits(t, |run.bounds|) && run.bounds != []
    ensures ReadLeaves(f, t, run) == ReadBody(f, Framed(f, run.raw, |run.bounds|)) == Some(DocsOf(js))
  {
    LeavesRead(f, t, run, js);
    KeepReads(f, run, js);
  }

  /** Offsets increase strictly and end at the end of the bytes in every leaf of every
      halving, and no leaf is empty, as long as records are not empty. */
  ghost predicate LeavesWellShaped(t: Halving, run: Run)
    requires run.Ok() && Fits(t, |run.bounds|)
    decreases t
  {
    match t
    case Keep => StrictlyIncreasing(run.bounds) && run.bounds != [] && run.bounds[|run.bounds| - 1] == |run.raw| > 0
    case Halve(l, r) => LeavesWellShaped(l, LeftHalf(run)) && LeavesWellShaped(r, RightHalf(run))
  }

  lemma {:induction false} HalvingsKeepShape(t: Halving, run: Run)
    requires run.Ok() && Fits(t, |run.bounds|)
    ensures LeavesWellShaped(t, run) <==> StrictlyIncreasing(run.bounds)
    decreases t
  {
    hide Bounded, StrictlyIncreasing;
    match t
    case Keep => KeepsShape(run);
    case Halve(l, r) =>
      HalvingsKeepShape(l, LeftHalf(run));
      HalvingsKeepShape(r, RightHalf(run));
      StrictFromHalves(run);
  }

  lemma KeepsShape(run: Run)
    requires run.Ok() && run.bounds != []
    ensures StrictlyIncreasing(run.bounds) ==> run.bounds[|run.bounds| - 1] == |run.raw| > 0
  {
  }

  /** A run increases strictly exactly when both its halves do. */
  lemma StrictFromHalves(run: Run)
    requires run.Ok() && |run.bounds| >= 2
    ensures StrictlyIncreasing(run.bounds)
      <==> StrictlyIncreasing(LeftHalf(run).bounds) && StrictlyIncreasing(RightHalf(run).bounds)
  {
    hide Bounded, Cut, StrictlyIncreasing, NoneEmpty;
    var l, r := LeftHalf(run), RightHalf(run);
    StrictIffNonEmpty(run.raw, run.bounds);
    StrictIffNonEmpty(l.raw, l.bounds);
    StrictIffNonEmpty(r.raw, r.bounds);
    NoneEmptyHalves(run.Records(), |run.bounds| / 2);
  }
}
