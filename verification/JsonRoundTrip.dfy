/** Reading undoes printing. */
module JsonRoundTrip {
  import opened Records
  import opened Utf8
  import opened JsonString
  import opened Options
  import opened Decimal
  import opened JsonText
  import opened JsonReader

  // ---- what is read back ----

  predicate Printable(text: Bytes) {
    forall i :: 0 <= i < |text| ==> text[i] >= 0x20
  }

  /** One JSON value and nothing else, no space before it and no control character in it:
      what the printer asks of text it copies from elsewhere. */
  predicate Readable(text: Bytes) {
    && Printable(text) && text != [] && text[0] != 0x20
    && match ReadValue(text)
       case Some(r) => r.rest == []
       case None => false
  }

  ghost predicate Legible(j: Json)
    decreases j
  {
    match j
    case Leaf(text) => Readable(text)
    case Arr(items) => forall x :: x in items ==> Legible(x)
    case Obj(members) => forall m :: m in members ==> Legible(m.value)
    case _ => true
  }

  /** The same tree with every string decoded: an invalid byte reads as U+FFFD. */
  ghost function DocOf(j: Json): Doc
    requires Legible(j)
    decreases j, 1, 0
  {
    match j
    case Null => DNull
    case Bool(b) => DBool(b)
    case Int(n) => DInt(n)
    case Str(s) => DStr(Runes(s))
    case Leaf(text) => ReadValue(text).value.value
    case Arr(items) => DArr(DocsOf(items))
    case Obj(members) => DObj(DocMembersOf(members))
  }

  ghost function DocsOf(items: seq<Json>): (docs: seq<Doc>)
    requires forall x :: x in items ==> Legible(x)
    ensures |docs| == |items|
    decreases items, 0, |items|
  {
    if items == [] then [] else [DocOf(items[0])] + DocsOf(items[1..])
  }

  ghost function DocMembersOf(members: seq<Member>): (docs: seq<DMember>)
    requires forall m :: m in members ==> Legible(m.value)
    ensures |docs| == |members|
    decreases members, 0, |members|
  {
    if members == [] then []
    else [DMember(Runes(members[0].key), DocOf(members[0].value))] + DocMembersOf(members[1..])
  }

  // ---- numbers ----

  lemma {:induction false} RunOfDigits(ds: Bytes)
    requires AllDigits(ds)
    ensures DigitRun(ds) == |ds|
  {
    if ds != [] {
      RunOfDigits(ds[1..]);
    }
  }

  /** Input that begins with a digit or a minus sign is a number. */
  lemma NumberFirst(s: Bytes)
    requires s != [] && (Digit(s[0]) || s[0] == 45)
    ensures ReadValue(s) == ReadNumber(s)
  {
    hide ReadNumber, ReadItems, ReadMembers, ReadString, ReadWord;
    assert SkipSpace(s) == s;
  }

  function Signed(size: int, negative: bool): int {
    if negative then -size else size
  }

  lemma ReadsSize(size: nat, negative: bool)
    ensures ReadSize(Digits(size), negative) == Some(Read(DInt(Signed(size, negative)), []))
  {
    var ds := Digits(size);
    DigitsValueOf(size);
    RunOfDigits(ds);
    assert ds[..|ds|] == ds && ds[|ds|..] == [] && ds[|ds|..|ds| + 0] == [];
    assert NumberTail([]) == Some(0);
  }

  lemma ReadsWholeInt(n: int)
    ensures ReadNumber(PrintInt(n)) == Some(Read(DInt(n), []))
    ensures Digit(PrintInt(n)[0]) || PrintInt(n)[0] == 45
  {
    var size := if n < 0 then -n else n;
    var s, ds := PrintInt(n), Digits(size);
    ReadsSize(size, n < 0);
    assert Digit(ds[0]);
    assert n < 0 ==> s[0] == 45 && s[1..] == ds;
  }

  lemma ReadsInt(n: int, rest: Bytes)
    requires Delimited(rest)
    ensures ReadValue(PrintInt(n) + rest) == Some(Read(DInt(n), rest))
  {
    var s := PrintInt(n) + rest;
    ReadsWholeInt(n);
    LocalNumber(PrintInt(n), rest);
    assert s[0] == PrintInt(n)[0] && [] + rest == rest;
    NumberFirst(s);
  }

  // ---- strings and words ----

  lemma ReadsString(s: Bytes, rest: Bytes)
    ensures ReadString(Quoted(s) + rest) == Some(Read(Runes(s), rest))
    ensures SkipSpace(Quoted(s) + rest) == Quoted(s) + rest
  {
    StringRoundTrip(s, rest);
    assert (Quoted(s) + rest)[1..] == Escape(s) + [QUOTE] + rest;
  }

  lemma ReadsWord(word: Bytes, rest: Bytes, d: Doc)
    requires word != []
    ensures ReadWord(word + rest, word, d) == Some(Read(d, rest))
  {
    assert (word + rest)[|word|..] == rest;
  }

  lemma ReadsScalar(j: Json, rest: Bytes)
    requires j.Null? || j.Bool? || j.Str?
    ensures ReadValue(Print(j) + rest) == Some(Read(DocOf(j), rest))
  {
    var s := Print(j) + rest;
    match j
    case Null =>
      ReadsWord([110, 117, 108, 108], rest, DNull);
      assert s[0] == 110 && SkipSpace(s) == s;
    case Bool(b) =>
      ReadsWord([116, 114, 117, 101], rest, DBool(true));
      ReadsWord([102, 97, 108, 115, 101], rest, DBool(false));
      assert s[0] == (if b then 116 else 102) && SkipSpace(s) == s;
    case Str(x) =>
      ReadsString(x, rest);
      assert s[0] == QUOTE;
  }

  /** Copied text reads the same wherever it is copied to. */
  lemma ReadsLeaf(text: Bytes, rest: Bytes)
    requires Readable(text) && Delimited(rest)
    ensures ReadValue(text + rest) == Some(Read(DocOf(Leaf(text)), rest))
  {
    LocalValue(text, rest);
    assert [] + rest == rest;
  }

  // ---- the round trip ----

  /** A printed value begins with no space and no closing bracket. */
  lemma PrintStarts(j: Json, rest: Bytes)
    requires Legible(j)
    ensures Print(j) != [] && Print(j)[0] !in {0x20, 0x09, 0x0A, 0x0D, 93, 125}
    ensures SkipSpace(Print(j) + rest) == Print(j) + rest
  {
    assert (Print(j) + rest)[0] == Print(j)[0];
  }

  lemma {:induction false} ReadsPrint(j: Json, rest: Bytes)
    requires Legible(j) && Delimited(rest)
    ensures ReadValue(Print(j) + rest) == Some(Read(DocOf(j), rest))
    decreases j, 1, 0
  {
    match j
    case Int(n) => ReadsInt(n, rest);
    case Leaf(text) => ReadsLeaf(text, rest);
    case Arr(items) => ReadsArray(items, rest);
    case Obj(members) => ReadsObject(members, rest);
    case _ => ReadsScalar(j, rest);
  }

  lemma ArrayText(items: seq<Json>, rest: Bytes)
    requires Legible(Arr(items))
    ensures forall x :: x in items ==> Legible(x)
    ensures Print(Arr(items)) + rest == [91] + (PrintItems(items) + [93] + rest)
    ensures DocOf(Arr(items)) == DArr(DocsOf(items))
  {
    hide PrintItems;
  }

  lemma ReadsArray(items: seq<Json>, rest: Bytes)
    requires Legible(Arr(items))
    ensures ReadValue(Print(Arr(items)) + rest) == Some(Read(DocOf(Arr(items)), rest))
    decreases items, 1, |items|
  {
    hide ReadString, ReadMembers, ReadNumber, ReadWord, Legible, DocOf, Print;
    ArrayText(items, rest);
    var s := Print(Arr(items)) + rest;
    assert s[0] == 91 && SkipSpace(s) == s;
    var t := PrintItems(items) + [93] + rest;
    assert s[1..] == t;
    if items == [] {
      assert t == [93] + rest && SkipSpace(t) == t && t[1..] == rest;
    } else {
      ItemsStart(items, [93] + rest);
      assert PrintItems(items) + ([93] + rest) == t;
      ReadsItems(items, rest);
    }
  }

  lemma ItemsStart(items: seq<Json>, rest: Bytes)
    requires items != [] && forall x :: x in items ==> Legible(x)
    ensures var t := PrintItems(items) + rest;
      t != [] && t[0] != 93 && SkipSpace(t) == t
  {
    PrintStarts(items[0], []);
    var t := PrintItems(items) + rest;
    assert t[0] == Print(items[0])[0];
  }

  lemma {:induction false} ReadsItems(items: seq<Json>, rest: Bytes)
    requires items != [] && forall x :: x in items ==> Legible(x)
    ensures ReadItems(PrintItems(items) + [93] + rest) == Some(Read(DocsOf(items), rest))
    decreases items, 0, |items|
  {
    hide ReadValue, Print, DocOf, Legible;
    var first := Print(items[0]);
    if |items| == 1 {
      var t := [93] + rest;
      assert PrintItems(items) + [93] + rest == first + t;
      ReadsPrint(items[0], t);
      assert SkipSpace(t) == t && t[1..] == rest && items[1..] == [];
      assert DocsOf(items) == [DocOf(items[0])];
    } else {
      var more := PrintItems(items[1..]) + [93] + rest;
      var t := [44] + more;
      assert PrintItems(items) + [93] + rest == first + t;
      ReadsPrint(items[0], t);
      assert SkipSpace(t) == t && t[1..] == more;
      ReadsItems(items[1..], rest);
    }
  }

  lemma ObjectText(members: seq<Member>, rest: Bytes)
    requires Legible(Obj(members))
    ensures forall m :: m in members ==> Legible(m.value)
    ensures Print(Obj(members)) + rest == [123] + (PrintMembers(members) + [125] + rest)
    ensures DocOf(Obj(members)) == DObj(DocMembersOf(members))
    ensures members != [] ==> PrintMembers(members) != [] && PrintMembers(members)[0] == QUOTE
  {
    hide DocMembersOf;
  }

  lemma ReadsObject(members: seq<Member>, rest: Bytes)
    requires Legible(Obj(members))
    ensures ReadValue(Print(Obj(members)) + rest) == Some(Read(DocOf(Obj(members)), rest))
    decreases members, 2, |members|
  {
    hide ReadString, ReadItems, ReadNumber, ReadWord, Legible, DocOf, Print, PrintMember;
    ObjectText(members, rest);
    var s := Print(Obj(members)) + rest;
    assert s[0] == 123 && SkipSpace(s) == s;
    var t := PrintMembers(members) + [125] + rest;
    assert s[1..] == t;
    if members == [] {
      assert t == [125] + rest && SkipSpace(t) == t && t[1..] == rest;
    } else {
      assert t[0] == QUOTE;
      ReadsMembers(members, rest);
    }
  }

  lemma ReadsMember(m: Member, rest: Bytes)
    requires Legible(m.value) && Delimited(rest)
    ensures ReadMember(PrintMember(m) + rest) == Some(Read(DMember(Runes(m.key), DocOf(m.value)), rest))
    decreases m, 0, 0
  {
    var t := [58] + (Print(m.value) + rest);
    assert PrintMember(m) + rest == Quoted(m.key) + t;
    ReadsString(m.key, t);
    assert SkipSpace(t) == t && t[1..] == Print(m.value) + rest;
    ReadsPrint(m.value, rest);
  }

  lemma {:induction false} ReadsMembers(members: seq<Member>, rest: Bytes)
    requires members != [] && forall m :: m in members ==> Legible(m.value)
    ensures ReadMembers(PrintMembers(members) + [125] + rest) == Some(Read(DocMembersOf(members), rest))
    decreases members, 1, |members|
  {
    hide ReadMember, PrintMember, Runes, DocOf, Legible;
    var first := PrintMember(members[0]);
    if |members| == 1 {
      var t := [125] + rest;
      assert PrintMembers(members) + [125] + rest == first + t;
      ReadsMember(members[0], t);
      assert SkipSpace(t) == t && t[1..] == rest && members[1..] == [];
      assert DocMembersOf(members) == [DMember(Runes(members[0].key), DocOf(members[0].value))];
    } else {
      var more := PrintMembers(members[1..]) + [125] + rest;
      var t := [44] + more;
      assert PrintMembers(members) + [125] + rest == first + t;
      ReadsMember(members[0], t);
      assert SkipSpace(t) == t && t[1..] == more;
      ReadsMembers(members[1..], rest);
    }
  }

  /** Parsing what was printed recovers the tree. */
  lemma ParsePrint(j: Json)
    requires Legible(j)
    ensures Parse(Print(j)) == Some(DocOf(j))
  {
    ReadsPrint(j, []);
    assert Print(j) + [] == Print(j);
  }

  // ---- no control characters ----

  ghost predicate LeavesPrintable(j: Json)
    decreases j
  {
    match j
    case Leaf(text) => Printable(text)
    case Arr(items) => forall x :: x in items ==> LeavesPrintable(x)
    case Obj(members) => forall m :: m in members ==> LeavesPrintable(m.value)
    case _ => true
  }

  lemma QuotedIsPrintable(s: Bytes)
    ensures Printable(Quoted(s))
  {
    EscapeIsPrintable(s);
  }

  /** What is printed holds no control character, so no newline. */
  lemma {:induction false} PrintIsPrintable(j: Json)
    requires LeavesPrintable(j)
    ensures Printable(Print(j))
    decreases j, 1, 0
  {
    match j
    case Str(s) => QuotedIsPrintable(s);
    case Arr(items) => ItemsArePrintable(items);
    case Obj(members) => MembersArePrintable(members);
    case _ =>
  }

  lemma {:induction false} ItemsArePrintable(items: seq<Json>)
    requires forall x :: x in items ==> LeavesPrintable(x)
    ensures Printable(PrintItems(items))
    decreases items, 0, |items|
  {
    if items != [] {
      PrintIsPrintable(items[0]);
      if |items| > 1 { ItemsArePrintable(items[1..]); }
    }
  }

  lemma {:induction false} MembersArePrintable(members: seq<Member>)
    requires forall m :: m in members ==> LeavesPrintable(m.value)
    ensures Printable(PrintMembers(members))
    decreases members, 0, |members|
  {
    if members != [] {
      assert members[0].value < members[0];
      QuotedIsPrintable(members[0].key);
      PrintIsPrintable(members[0].value);
      if |members| > 1 { MembersArePrintable(members[1..]); }
    }
  }

  lemma {:induction false} LegiblePrintable(j: Json)
    requires Legible(j)
    ensures LeavesPrintable(j)
    decreases j
  {
    match j
    case Arr(items) =>
      forall x | x in items ensures LeavesPrintable(x) { LegiblePrintable(x); }
    case Obj(members) =>
      forall m | m in members ensures LeavesPrintable(m.value) { LegiblePrintable(m.value); }
    case _ =>
  }

  // ---- text copied from elsewhere ----

  /** What this printer prints is such text. */
  lemma PrintedReadable(j: Json)
    requires Legible(j)
    ensures Readable(Print(j)) && DocOf(Leaf(Print(j))) == DocOf(j)
  {
    LegiblePrintable(j);
    PrintIsPrintable(j);
    PrintStarts(j, []);
    ReadsPrint(j, []);
    assert Print(j) + [] == Print(j);
  }

  /** And so is a quoted string, such as a timestamp. */
  lemma QuotedReadable(s: Bytes)
    ensures Readable(Quoted(s)) && DocOf(Leaf(Quoted(s))) == DStr(Runes(s))
  {
    PrintedReadable(Str(s));
  }

  /** Characters that need no escape. */
  predicate Plain(s: Bytes) {
    forall i :: 0 <= i < |s| ==> 0x20 <= s[i] < 0x80 && s[i] != QUOTE && s[i] != BACKSLASH
  }

  lemma {:induction false} PlainIsQuoted(s: Bytes)
    requires Plain(s)
    ensures Quoted(s) == [QUOTE] + s + [QUOTE]
  {
    PlainEscape(s);
  }

  lemma PlainUnit(s: Bytes)
    requires s != [] && 0x20 <= s[0] < 0x80 && s[0] != QUOTE && s[0] != BACKSLASH
    ensures Decode(s).size == 1 && EscapeUnit(Decode(s), s[..1]) == [s[0]]
  {
    assert s[..1] == [s[0]];
  }

  lemma {:induction false} PlainEscape(s: Bytes)
    requires Plain(s)
    ensures Escape(s) == s
  {
    hide Decode, EscapeUnit;
    if s != [] {
      PlainUnit(s);
      PlainEscape(s[1..]);
      assert s == [s[0]] + s[1..];
    }
  }

  /** The text of a float: digits, perhaps a point and more digits, perhaps an exponent. */
  function FloatText(negative: bool, whole: nat, fraction: Bytes, exponent: Bytes): Bytes {
    (if negative then [45] else []) + (Digits(whole) + (fraction + exponent))
  }

  predicate FractionText(fraction: Bytes) {
    fraction == [] || (fraction[0] == 46 && |fraction| > 1 && AllDigits(fraction[1..]))
  }

  predicate ExponentText(exponent: Bytes) {
    exponent == [] || (exponent[0] == 101 && |exponent| > 2 && exponent[1] in {43, 45} && AllDigits(exponent[2..]))
  }

  lemma FloatTail(fraction: Bytes, exponent: Bytes)
    requires FractionText(fraction) && ExponentText(exponent)
    ensures NumberTail(fraction + exponent) == Some(|fraction| + |exponent|)
  {
    var s := fraction + exponent;
    if fraction != [] {
      RunOfDigits(fraction[1..]);
      DigitRunOf(fraction[1..], exponent);
      assert s[0] == 46 && s[1..] == fraction[1..] + exponent;
    } else {
      assert s == exponent;
    }
    assert Fraction(s) == Some(|fraction|);
    assert s[|fraction|..] == exponent;
    if exponent != [] {
      RunOfDigits(exponent[2..]);
      assert Exponent(exponent) == Some(|exponent|);
    }
  }

  lemma {:induction false} DigitRunOf(ds: Bytes, rest: Bytes)
    requires AllDigits(ds) && (rest == [] || !Digit(rest[0]))
    ensures DigitRun(ds + rest) == |ds|
  {
    if ds == [] {
      assert ds + rest == rest;
    } else {
      assert (ds + rest)[0] == ds[0] && (ds + rest)[1..] == ds[1..] + rest;
      DigitRunOf(ds[1..], rest);
    }
  }

  lemma SizeReadable(whole: nat, tail: Bytes, negative: bool)
    requires NumberTail(tail) == Some(|tail|) && (tail == [] || !Digit(tail[0]))
    ensures ReadSize(Digits(whole) + tail, negative).Some?
    ensures ReadSize(Digits(whole) + tail, negative).value.rest == []
  {
    hide NumberTail, NumberDoc;
    var ds := Digits(whole);
    var s := ds + tail;
    DigitsValueOf(whole);
    DigitRunOf(ds, tail);
    assert s[|ds|..] == tail && s[0] == ds[0] && s[|ds| + |tail|..] == [];
  }

  /** Text in the shape floats are written in is such text too. */
  lemma FloatReadable(negative: bool, whole: nat, fraction: Bytes, exponent: Bytes)
    requires FractionText(fraction) && ExponentText(exponent)
    ensures Readable(FloatText(negative, whole, fraction, exponent))
  {
    hide ReadSize, NumberTail, Digits, ReadValue;
    var ds, tail, s := Digits(whole), fraction + exponent, FloatText(negative, whole, fraction, exponent);
    FloatTail(fraction, exponent);
    SizeReadable(whole, tail, negative);
    assert Digit(ds[0]) && (ds + tail)[0] == ds[0];
    assert negative ==> s[0] == 45 && s[1..] == ds + tail;
    assert !negative ==> s == ds + tail;
    NumberFirst(s);
    FloatPrintable(negative, ds, fraction, exponent);
  }

  lemma FloatPrintable(negative: bool, ds: Bytes, fraction: Bytes, exponent: Bytes)
    requires AllDigits(ds) && FractionText(fraction) && ExponentText(exponent)
    ensures Printable((if negative then [45] else []) + (ds + (fraction + exponent)))
  {
    assert forall i :: 1 <= i < |fraction| ==> fraction[i] == fraction[1..][i - 1];
    assert forall i :: 2 <= i < |exponent| ==> exponent[i] == exponent[2..][i - 2];
  }
}
