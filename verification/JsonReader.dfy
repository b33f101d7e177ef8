/** A reader for JSON text as sections 2 to 7 of RFC 8259 define it, and what it never does:
    let bytes that follow a complete value change what it read. */
module JsonReader {
  import opened Records
  import opened Utf8
  import opened JsonString
  import opened Options
  import opened Decimal

  /** A document as a reader sees it: strings are code points, and a number that is not
      written as an integer is its text. */
  datatype Doc =
    | DNull | DBool(b: bool) | DInt(n: int) | DNum(text: Bytes) | DStr(s: seq<int>)
    | DArr(items: seq<Doc>) | DObj(members: seq<DMember>)
  datatype DMember = DMember(key: seq<int>, value: Doc)

  datatype Read<+T> = Read(value: T, rest: Bytes)

  function SkipSpace(s: Bytes): (r: Bytes)
    ensures |r| <= |s|
  {
    if s != [] && s[0] in {0x20, 0x09, 0x0A, 0x0D} then SkipSpace(s[1..]) else s
  }

  /** How many digits the input begins with. */
  function DigitRun(s: Bytes): (n: nat)
    ensures n <= |s| && AllDigits(s[..n])
    ensures n < |s| ==> !Digit(s[n])
  {
    if s != [] && Digit(s[0]) then
      var n := 1 + DigitRun(s[1..]);
      assert s[..n] == [s[0]] + s[1..][..n - 1];
      n
    else 0
  }

  /** The length of a fraction at the front of the input; a point with no digits is wrong. */
  function Fraction(s: Bytes): (n: Option<nat>)
    ensures n.Some? ==> n.value <= |s|
  {
    if s == [] || s[0] != 46 then Some(0)
    else
      var d := DigitRun(s[1..]);
      if d == 0 then None else Some(1 + d)
  }

  /** The length of an exponent at the front of the input. */
  function Exponent(s: Bytes): (n: Option<nat>)
    ensures n.Some? ==> n.value <= |s|
  {
    if s == [] || s[0] !in {69, 101} then Some(0)
    else
      var sign := if |s| > 1 && s[1] in {43, 45} then 1 else 0;
      var d := DigitRun(s[1 + sign..]);
      if d == 0 then None else Some(1 + sign + d)
  }

  /** The length of what may follow an integer in a number. */
  function NumberTail(s: Bytes): (n: Option<nat>)
    ensures n.Some? ==> n.value <= |s|
  {
    match Fraction(s)
    case None => None
    case Some(f) =>
      match Exponent(s[f..])
      case None => None
      case Some(e) => Some(f + e)
  }

  /** A number without superfluous leading zeros. One with a fraction or an exponent is kept
      as its text. */
  function ReadNumber(s: Bytes): (r: Option<Read<Doc>>)
    ensures r.Some? ==> |r.value.rest| < |s|
  {
    if s != [] && s[0] == 45 then ReadSize(s[1..], true) else ReadSize(s, false)
  }

  function ReadSize(s: Bytes, negative: bool): (r: Option<Read<Doc>>)
    ensures r.Some? ==> |r.value.rest| < |s|
  {
    var n := DigitRun(s);
    if n == 0 || (n > 1 && s[0] == 48) then None
    else
      match NumberTail(s[n..])
      case None => None
      case Some(k) => Some(Read(NumberDoc(negative, s[..n], s[n..n + k]), s[n + k..]))
  }

  function NumberDoc(negative: bool, digits: Bytes, tail: Bytes): Doc
    requires AllDigits(digits)
  {
    var size: int := DigitsValue(digits);
    if tail != [] then DNum((if negative then [45] else []) + digits + tail)
    else DInt(if negative then -size else size)
  }

  function ReadWord(s: Bytes, word: Bytes, d: Doc): (r: Option<Read<Doc>>)
    requires word != []
    ensures r.Some? ==> |r.value.rest| < |s|
  {
    if word <= s then Some(Read(d, s[|word|..])) else None
  }

  function ReadString(s: Bytes): (r: Option<Read<seq<int>>>)
    ensures r.Some? ==> |r.value.rest| < |s|
  {
    if s == [] || s[0] != QUOTE then None
    else
      match ReadChars(s[1..])
      case None => None
      case Some(c) => Some(Read(c.runes, c.rest))
  }

  function ReadValue(input: Bytes): (r: Option<Read<Doc>>)
    ensures r.Some? ==> |r.value.rest| < |input|
    decreases |input|, 0
  {
    var s := SkipSpace(input);
    if s == [] then None
    else if s[0] == 110 then ReadWord(s, [110, 117, 108, 108], DNull)
    else if s[0] == 116 then ReadWord(s, [116, 114, 117, 101], DBool(true))
    else if s[0] == 102 then ReadWord(s, [102, 97, 108, 115, 101], DBool(false))
    else if s[0] == QUOTE then
      match ReadString(s)
      case None => None
      case Some(c) => Some(Read(DStr(c.value), c.rest))
    else if s[0] == 91 then
      var t := SkipSpace(s[1..]);
      if t != [] && t[0] == 93 then Some(Read(DArr([]), t[1..]))
      else
        match ReadItems(s[1..])
        case None => None
        case Some(r) => Some(Read(DArr(r.value), r.rest))
    else if s[0] == 123 then
      var t := SkipSpace(s[1..]);
      if t != [] && t[0] == 125 then Some(Read(DObj([]), t[1..]))
      else
        match ReadMembers(s[1..])
        case None => None
        case Some(r) => Some(Read(DObj(r.value), r.rest))
    else ReadNumber(s)
  }

  /** The values of an array up to its closing bracket. */
  function ReadItems(s: Bytes): (r: Option<Read<seq<Doc>>>)
    ensures r.Some? ==> |r.value.rest| < |s|
    decreases |s|, 1
  {
    match ReadValue(s)
    case None => None
    case Some(v) =>
      var t := SkipSpace(v.rest);
      if t != [] && t[0] == 93 then Some(Read([v.value], t[1..]))
      else if t != [] && t[0] == 44 then
        match ReadItems(t[1..])
        case None => None
        case Some(r) => Some(Read([v.value] + r.value, r.rest))
      else None
  }

  function ReadMember(s: Bytes): (r: Option<Read<DMember>>)
    ensures r.Some? ==> |r.value.rest| < |s|
    decreases |s|, 1
  {
    match ReadString(SkipSpace(s))
    case None => None
    case Some(k) =>
      var t := SkipSpace(k.rest);
      if t == [] || t[0] != 58 then None
      else
        match ReadValue(t[1..])
        case None => None
        case Some(v) => Some(Read(DMember(k.value, v.value), v.rest))
  }

  /** The members of an object up to its closing brace. */
  function ReadMembers(s: Bytes): (r: Option<Read<seq<DMember>>>)
    ensures r.Some? ==> |r.value.rest| < |s|
    decreases |s|, 2
  {
    match ReadMember(s)
    case None => None
    case Some(m) =>
      var t := SkipSpace(m.rest);
      if t != [] && t[0] == 125 then Some(Read([m.value], t[1..]))
      else if t != [] && t[0] == 44 then
        match ReadMembers(t[1..])
        case None => None
        case Some(r) => Some(Read([m.value] + r.value, r.rest))
      else None
  }

  /** A whole text: one value and nothing after it but space. */
  function Parse(s: Bytes): Option<Doc> {
    match ReadValue(s)
    case None => None
    case Some(r) => if SkipSpace(r.rest) == [] then Some(r.value) else None
  }

  // ---- what follows a value does not change it ----

  /** What may follow a printed value: nothing, a comma, a closing bracket or a newline. */
  predicate Delimited(rest: Bytes) {
    rest == [] || rest[0] in {44, 93, 125, 10}
  }

  /** The input goes on after what was read, or what is added to it begins with a delimiter. */
  predicate Ends(rest: Bytes, t: Bytes) {
    rest != [] || Delimited(t)
  }

  lemma {:induction false} LocalSpace(s: Bytes, t: Bytes)
    requires SkipSpace(s) != []
    ensures SkipSpace(s + t) == SkipSpace(s) + t
  {
    assert (s + t)[0] == s[0] && (s + t)[1..] == s[1..] + t;
    if s[0] in {0x20, 0x09, 0x0A, 0x0D} {
      LocalSpace(s[1..], t);
    }
  }

  lemma {:induction false} LocalDigits(s: Bytes, t: Bytes)
    requires Ends(s[DigitRun(s)..], t)
    ensures DigitRun(s + t) == DigitRun(s)
  {
    if s != [] && Digit(s[0]) {
      assert (s + t)[0] == s[0] && (s + t)[1..] == s[1..] + t;
      assert s[DigitRun(s)..] == s[1..][DigitRun(s[1..])..];
      LocalDigits(s[1..], t);
    } else if s == [] {
      assert s + t == t;
    } else {
      assert (s + t)[0] == s[0];
    }
  }

  lemma LocalFraction(s: Bytes, t: Bytes)
    requires Fraction(s).Some? && Ends(s[Fraction(s).value..], t)
    ensures Fraction(s + t) == Fraction(s)
  {
    if s == [] {
      assert s + t == t;
    } else {
      assert (s + t)[0] == s[0] && (s + t)[1..] == s[1..] + t;
      if s[0] == 46 {
        assert s[Fraction(s).value..] == s[1..][DigitRun(s[1..])..];
        LocalDigits(s[1..], t);
      }
    }
  }

  lemma LocalExponent(s: Bytes, t: Bytes)
    requires Exponent(s).Some? && Ends(s[Exponent(s).value..], t)
    ensures Exponent(s + t) == Exponent(s)
  {
    if s == [] {
      assert s + t == t;
    } else {
      assert (s + t)[0] == s[0];
      if s[0] in {69, 101} {
        var sign := if |s| > 1 && s[1] in {43, 45} then 1 else 0;
        var digits := s[1 + sign..];
        assert |s| > 1 && (s + t)[1] == s[1];
        assert (s + t)[1 + sign..] == digits + t;
        assert s[Exponent(s).value..] == digits[DigitRun(digits)..];
        LocalDigits(digits, t);
      }
    }
  }

  lemma LocalNumberTail(s: Bytes, t: Bytes)
    requires NumberTail(s).Some? && Ends(s[NumberTail(s).value..], t)
    ensures NumberTail(s + t) == NumberTail(s)
  {
    var f := Fraction(s).value;
    assert s[NumberTail(s).value..] == s[f..][Exponent(s[f..]).value..];
    LocalFraction(s, t);
    LocalExponent(s[f..], t);
    assert (s + t)[f..] == s[f..] + t;
  }

  lemma LocalIntegerPart(digits: Bytes, t: Bytes, n: nat, k: nat)
    requires n == DigitRun(digits) && NumberTail(digits[n..]) == Some(k)
    requires Ends(digits[n + k..], t)
    ensures DigitRun(digits + t) == n && NumberTail((digits + t)[n..]) == Some(k)
    ensures (digits + t)[..n] == digits[..n] && (digits + t)[n + k..] == digits[n + k..] + t
    ensures n > 0 ==> (digits + t)[0] == digits[0]
  {
    hide NumberTail;
    assert digits[n..][k..] == digits[n + k..];
    LocalDigits(digits, t);
    LocalNumberTail(digits[n..], t);
    assert (digits + t)[n..] == digits[n..] + t && (digits + t)[..n] == digits[..n];
  }

  lemma LocalSize(s: Bytes, negative: bool, t: Bytes)
    requires ReadSize(s, negative).Some? && Ends(ReadSize(s, negative).value.rest, t)
    ensures ReadSize(s + t, negative)
         == Some(Read(ReadSize(s, negative).value.value, ReadSize(s, negative).value.rest + t))
  {
    hide NumberTail, NumberDoc;
    var n := DigitRun(s);
    var k := NumberTail(s[n..]).value;
    LocalIntegerPart(s, t, n, k);
    assert (s + t)[n..n + k] == s[n..n + k];
  }

  lemma LocalNumber(s: Bytes, t: Bytes)
    requires ReadNumber(s).Some? && Ends(ReadNumber(s).value.rest, t)
    ensures ReadNumber(s + t) == Some(Read(ReadNumber(s).value.value, ReadNumber(s).value.rest + t))
  {
    hide ReadSize;
    assert (s + t)[0] == s[0];
    if s[0] == 45 {
      assert (s + t)[1..] == s[1..] + t;
      LocalSize(s[1..], true, t);
    } else {
      LocalSize(s, false, t);
    }
  }

  lemma LocalHex(s: Bytes, t: Bytes)
    requires Hex4(s).Some?
    ensures Hex4(s + t) == Hex4(s)
  {
  }

  lemma HexLength(s: Bytes)
    ensures Hex4(s).Some? ==> |s| >= 4
  {
  }

  lemma LocalDecode(s: Bytes, t: Bytes)
    requires s != [] && Decode(s).valid
    ensures Decode(s + t) == Decode(s)
  {
    var n := Decode(s).size;
    assert s + t == s[..n] + (s[n..] + t);
    DecodeExtends(s, s[n..] + t);
  }

  /** A pair of surrogate escapes is one whether or not more input follows. */
  predicate Pair(s: Bytes, hi: int) {
    && 0xD800 <= hi < 0xDC00 && |s| >= 12 && s[6] == BACKSLASH && s[7] == 117
    && Hex4(s[8..]).Some? && 0xDC00 <= Hex4(s[8..]).value < 0xE000
  }

  lemma LocalPair(s: Bytes, t: Bytes, hi: int)
    requires |s| >= 6 && (Pair(s, hi) || ReadChars(s[6..]).Some?)
    ensures Pair(s + t, hi) == Pair(s, hi)
  {
    if |s| >= 12 {
      LocalHexAt(s, t);
    } else {
      assert (s + t)[6] == s[6];
      assert s[6..][0] == s[6];
      if s[6] == BACKSLASH {
        assert s[6..][1] == s[7] && (s + t)[7] == s[7];
        assert s[7] == 117 ==> Hex4(s[6..][2..]).Some?;
      }
    }
  }

  lemma LocalHexAt(s: Bytes, t: Bytes)
    requires |s| >= 12
    ensures Hex4((s + t)[8..]) == Hex4(s[8..])
  {
    assert (s + t)[8..] == s[8..] + t;
  }

  lemma {:induction false} LocalChars(s: Bytes, t: Bytes)
    requires ReadChars(s).Some?
    ensures ReadChars(s + t) == Some(Chars(ReadChars(s).value.runes, ReadChars(s).value.rest + t))
    decreases |s|, 1
  {
    assert (s + t)[0] == s[0];
    if s[0] == QUOTE {
      assert (s + t)[1..] == s[1..] + t;
    } else if s[0] == BACKSLASH && s[1] == 117 {
      LocalUnicode(s, t);
    } else if s[0] == BACKSLASH {
      LocalShort(s, t);
    } else {
      var n := Decode(s).size;
      LocalDecode(s, t);
      assert (s + t)[n..] == s[n..] + t;
      LocalChars(s[n..], t);
    }
  }

  lemma {:induction false} LocalShort(s: Bytes, t: Bytes)
    requires ReadChars(s).Some? && s[0] == BACKSLASH && s[1] != 117
    ensures ReadChars(s + t) == Some(Chars(ReadChars(s).value.runes, ReadChars(s).value.rest + t))
    decreases |s|, 0
  {
    assert (s + t)[0] == s[0] && (s + t)[1] == s[1] && (s + t)[2..] == s[2..] + t;
    LocalChars(s[2..], t);
  }

  lemma {:induction false} LocalUnicode(s: Bytes, t: Bytes)
    requires ReadChars(s).Some? && s[0] == BACKSLASH && s[1] == 117
    ensures ReadChars(s + t) == Some(Chars(ReadChars(s).value.runes, ReadChars(s).value.rest + t))
    decreases |s|, 0
  {
    hide Hex4, Decode, ShortEscape;
    var hi := Hex4(s[2..]).value;
    assert (s + t)[0] == s[0] && (s + t)[1] == s[1] && (s + t)[2..] == s[2..] + t;
    LocalHex(s[2..], t);
    HexLength(s[2..]);
    assert !Pair(s, hi) ==> ReadChars(s) == Prepend(hi, ReadChars(s[6..]));
    LocalPair(s, t, hi);
    if Pair(s, hi) {
      LocalHexAt(s, t);
      assert (s + t)[12..] == s[12..] + t;
      LocalChars(s[12..], t);
    } else {
      assert (s + t)[6..] == s[6..] + t;
      LocalChars(s[6..], t);
    }
  }

  lemma LocalString(s: Bytes, t: Bytes)
    requires ReadString(s).Some?
    ensures ReadString(s + t) == Some(Read(ReadString(s).value.value, ReadString(s).value.rest + t))
  {
    assert (s + t)[0] == s[0] && (s + t)[1..] == s[1..] + t;
    LocalChars(s[1..], t);
  }

  lemma LocalWord(s: Bytes, word: Bytes, d: Doc, t: Bytes)
    requires word != [] && ReadWord(s, word, d).Some?
    ensures ReadWord(s + t, word, d) == Some(Read(d, ReadWord(s, word, d).value.rest + t))
  {
    assert (s + t)[..|word|] == s[..|word|] == word;
    assert (s + t)[|word|..] == s[|word|..] + t;
  }

  /** Bytes that come after a value change neither the value nor where it ends. */
  lemma {:induction false} LocalValue(input: Bytes, t: Bytes)
    requires ReadValue(input).Some? && Ends(ReadValue(input).value.rest, t)
    ensures ReadValue(input + t) == Some(Read(ReadValue(input).value.value, ReadValue(input).value.rest + t))
    decreases |input|, 3
  {
    hide ReadNumber, ReadString, ReadItems, ReadMembers;
    var s := SkipSpace(input);
    LocalSpace(input, t);
    assert (s + t)[0] == s[0];
    if s[0] == 110 {
      LocalWord(s, [110, 117, 108, 108], DNull, t);
    } else if s[0] == 116 {
      LocalWord(s, [116, 114, 117, 101], DBool(true), t);
    } else if s[0] == 102 {
      LocalWord(s, [102, 97, 108, 115, 101], DBool(false), t);
    } else if s[0] == QUOTE {
      LocalString(s, t);
    } else if s[0] == 91 {
      LocalArray(input, t);
    } else if s[0] == 123 {
      LocalObject(input, t);
    } else {
      LocalNumber(s, t);
    }
  }

  lemma {:induction false} LocalArray(input: Bytes, t: Bytes)
    requires ReadValue(input).Some? && SkipSpace(input) != [] && SkipSpace(input)[0] == 91
    ensures ReadValue(input + t) == Some(Read(ReadValue(input).value.value, ReadValue(input).value.rest + t))
    decreases |input|, 2
  {
    hide ReadNumber, ReadString, ReadItems, ReadMembers, ReadWord;
    var s := SkipSpace(input);
    LocalSpace(input, t);
    assert (s + t)[0] == s[0] && (s + t)[1..] == s[1..] + t;
    SpaceThenItems(s[1..]);
    LocalSpace(s[1..], t);
    var u := SkipSpace(s[1..]);
    assert (u + t)[0] == u[0];
    if u[0] == 93 {
      assert (u + t)[1..] == u[1..] + t;
    } else {
      LocalItems(s[1..], t);
    }
  }

  lemma {:induction false} LocalObject(input: Bytes, t: Bytes)
    requires ReadValue(input).Some? && SkipSpace(input) != [] && SkipSpace(input)[0] == 123
    ensures ReadValue(input + t) == Some(Read(ReadValue(input).value.value, ReadValue(input).value.rest + t))
    decreases |input|, 2
  {
    hide ReadNumber, ReadString, ReadItems, ReadMembers, ReadWord;
    var s := SkipSpace(input);
    LocalSpace(input, t);
    assert (s + t)[0] == s[0] && (s + t)[1..] == s[1..] + t;
    SpaceThenMembers(s[1..]);
    LocalSpace(s[1..], t);
    var u := SkipSpace(s[1..]);
    assert (u + t)[0] == u[0];
    if u[0] == 125 {
      assert (u + t)[1..] == u[1..] + t;
    } else {
      LocalMembers(s[1..], t);
    }
  }

  lemma SpaceThenItems(s: Bytes)
    ensures ReadItems(s).Some? ==> SkipSpace(s) != []
  {
    hide ReadString, ReadMembers, ReadNumber;
    assert ReadItems(s).Some? ==> ReadValue(s).Some?;
  }

  lemma SpaceThenMembers(s: Bytes)
    ensures ReadMembers(s).Some? ==> SkipSpace(s) != []
  {
    hide ReadValue;
    assert ReadMembers(s).Some? ==> ReadMember(s).Some?;
  }

  lemma {:induction false} LocalItems(s: Bytes, t: Bytes)
    requires ReadItems(s).Some?
    ensures ReadItems(s + t) == Some(Read(ReadItems(s).value.value, ReadItems(s).value.rest + t))
    decreases |s|, 4
  {
    hide ReadValue;
    var v := ReadValue(s).value;
    var u := SkipSpace(v.rest);
    assert v.rest != [];
    LocalValue(s, t);
    LocalSpace(v.rest, t);
    assert (u + t)[0] == u[0] && (u + t)[1..] == u[1..] + t;
    if u[0] == 44 {
      LocalItems(u[1..], t);
    }
  }

  lemma {:induction false} LocalMember(s: Bytes, t: Bytes)
    requires ReadMember(s).Some? && Ends(ReadMember(s).value.rest, t)
    ensures ReadMember(s + t) == Some(Read(ReadMember(s).value.value, ReadMember(s).value.rest + t))
    decreases |s|, 4
  {
    hide ReadValue, ReadString;
    var k := ReadString(SkipSpace(s)).value;
    var u := SkipSpace(k.rest);
    NoEmptyString();
    LocalSpace(s, t);
    LocalString(SkipSpace(s), t);
    LocalSpace(k.rest, t);
    assert (u + t)[0] == u[0] && (u + t)[1..] == u[1..] + t;
    LocalValue(u[1..], t);
  }

  lemma NoEmptyString()
    ensures ReadString([]) == None
  {
  }

  lemma {:induction false} LocalMembers(s: Bytes, t: Bytes)
    requires ReadMembers(s).Some?
    ensures ReadMembers(s + t) == Some(Read(ReadMembers(s).value.value, ReadMembers(s).value.rest + t))
    decreases |s|, 5
  {
    hide ReadMember;
    var m := ReadMember(s).value;
    var u := SkipSpace(m.rest);
    assert m.rest != [];
    LocalMember(s, t);
    LocalSpace(m.rest, t);
    assert (u + t)[0] == u[0] && (u + t)[1..] == u[1..] + t;
    if u[0] == 44 {
      LocalMembers(u[1..], t);
    }
  }
}
