/** JSON strings: the run-copying escape loop, the per-code-point escape it refines, and a
    reader for section 7 of RFC 8259 that undoes it. */
module JsonString {
  import opened Records
  import opened Utf8
  import opened Options

  const QUOTE: byte := 34
  const BACKSLASH: byte := 92

  function HexDigit(n: int): byte
    requires 0 <= n < 16
  {
    if n < 10 then 48 + n else 87 + n
  }

  /** The escape of one unit: `raw` is the bytes it was decoded from. */
  function EscapeUnit(u: Unit, raw: Bytes): (e: Bytes) {
    if !u.valid then [92, 117, 102, 102, 102, 100]
    else if u.rune == 34 then [92, 34]
    else if u.rune == 92 then [92, 92]
    else if u.rune == 8 then [92, 98]
    else if u.rune == 12 then [92, 102]
    else if u.rune == 10 then [92, 110]
    else if u.rune == 13 then [92, 114]
    else if u.rune == 9 then [92, 116]
    else if 0 <= u.rune < 0x20 then [92, 117, 48, 48, HexDigit(u.rune / 16), HexDigit(u.rune % 16)]
    else if u.rune == 0x2028 then [92, 117, 50, 48, 50, 56]
    else if u.rune == 0x2029 then [92, 117, 50, 48, 50, 57]
    else raw
  }

  /** The escaped body of a string, unit by unit. */
  function Escape(s: Bytes): (e: Bytes)
    decreases |s|
  {
    if s == [] then []
    else
      var u := Decode(s);
      EscapeUnit(u, s[..u.size]) + Escape(s[u.size..])
  }

  function Quoted(s: Bytes): Bytes {
    [QUOTE] + Escape(s) + [QUOTE]
  }

  /** The escape of the unit at i. */
  function EscapeAt(s: Bytes, i: nat): (e: Bytes)
    requires i < |s|
  {
    EscapeUnit(Decode(s[i..]), s[i..][..Decode(s[i..]).size])
  }

  lemma EscapeFrom(s: Bytes, i: nat)
    requires i < |s|
    ensures var n := Decode(s[i..]).size;
      i + n <= |s| && Escape(s[i..]) == EscapeAt(s, i) + Escape(s[i + n..])
  {
    var n := Decode(s[i..]).size;
    assert s[i..][n..] == s[i + n..];
  }

  /** What the output will be once the run start..i and the rest of s are appended to r. */
  function Finished(r: Bytes, s: Bytes, start: nat, i: nat): Bytes
    requires start <= i <= |s|
  {
    r + s[start..i] + Escape(s[i..])
  }

  /** Extending the pending run by a unit that needs no escape. */
  lemma RunGrows(r: Bytes, s: Bytes, start: nat, i: nat)
    requires start <= i < |s| && i + Decode(s[i..]).size <= |s|
    requires EscapeAt(s, i) == s[i..][..Decode(s[i..]).size]
    ensures Finished(r, s, start, i + Decode(s[i..]).size) == Finished(r, s, start, i)
  {
    hide Escape, EscapeAt, Decode;
    var n := Decode(s[i..]).size;
    EscapeFrom(s, i);
    var run, e, t := s[start..i], s[i..][..n], Escape(s[i + n..]);
    assert s[start..i + n] == run + e;
    Assoc(r, run, e);
    Assoc(r + run, e, t);
  }

  /** Copying the pending run and then a unit's escape. */
  lemma RunEnds(r: Bytes, s: Bytes, start: nat, i: nat, e: Bytes)
    requires start <= i < |s| && i + Decode(s[i..]).size <= |s|
    requires e == EscapeAt(s, i)
    ensures var n := Decode(s[i..]).size;
      Finished(r + s[start..i] + e, s, i + n, i + n) == Finished(r, s, start, i)
  {
    hide Escape, EscapeAt, Decode;
    var n := Decode(s[i..]).size;
    EscapeFrom(s, i);
    assert s[i + n..i + n] == [];
    Assoc(r + s[start..i], e, Escape(s[i + n..]));
  }

  /** The escape of a byte below 0x80, as the switch in the loop chooses it. */
  function EscapeByte(b: byte): Bytes
    requires b < 0x20 || b == QUOTE || b == BACKSLASH
  {
    if b == QUOTE || b == BACKSLASH then [92, b]
    else if b == 8 then [92, 98]
    else if b == 12 then [92, 102]
    else if b == 10 then [92, 110]
    else if b == 13 then [92, 114]
    else if b == 9 then [92, 116]
    else [92, 117, 48, 48, HexDigit(b / 16), HexDigit(b % 16)]
  }

  lemma AsciiAt(s: Bytes, i: nat)
    requires i < |s| && s[i] < 0x80
    ensures Decode(s[i..]) == Unit(s[i], 1, true) && s[i..][..1] == [s[i]]
    ensures EscapeAt(s, i) == if s[i] < 0x20 || s[i] == QUOTE || s[i] == BACKSLASH then EscapeByte(s[i]) else [s[i]]
  {
  }

  /** Above 0x7f a unit is escaped if it is broken or a line separator. */
  lemma WideAt(s: Bytes, i: nat)
    requires i < |s| && s[i] >= 0x80
    ensures var u := Decode(s[i..]);
      i + u.size <= |s| &&
      EscapeAt(s, i) ==
        if u.rune == REPLACEMENT && u.size == 1 then [92, 117, 102, 102, 102, 100]
        else if u.rune == 0x2028 || u.rune == 0x2029 then [92, 117, 50, 48, 50, HexDigit(u.rune % 16)]
        else s[i..][..u.size]
  {
  }

  lemma Unstarted(r: Bytes, s: Bytes)
    ensures Finished(r, s, 0, 0) == r + Escape(s)
  {
    assert s[0..] == s && s[0..0] == [] && r + [] == r;
  }

  lemma AllEscaped(r: Bytes, s: Bytes, start: nat)
    requires start <= |s|
    ensures Finished(r, s, start, |s|) == r + s[start..]
  {
    assert s[start..|s|] == s[start..] && s[|s|..] == [];
    assert Escape([]) == [];
  }

  lemma Closed(dst: Bytes, s: Bytes)
    ensures dst + [QUOTE] + Escape(s) + [QUOTE] == dst + Quoted(s)
  {
    var e := Escape(s);
    assert dst + [QUOTE] + e + [QUOTE] == dst + ([QUOTE] + e + [QUOTE]);
  }

  /** appendString: bytes that need no escape are copied in runs. */
  method AppendString(dst: Bytes, s: Bytes) returns (r: Bytes)
    ensures r == dst + Quoted(s)
  {
    hide Finished, Escape, EscapeAt, EscapeByte, Decode;
    r := dst + [QUOTE];
    var start, i := 0, 0;
    ghost var goal := Finished(r, s, 0, 0);
    Unstarted(r, s);
    while i < |s|
      invariant 0 <= start <= i <= |s|
      invariant Finished(r, s, start, i) == goal
      decreases |s| - i
    {
      var b, u := s[i], Decode(s[i..]);
      if b < 0x80 {
        AsciiAt(s, i);
        if b >= 0x20 && b != QUOTE && b != BACKSLASH {
          RunGrows(r, s, start, i);
          i := i + 1;
          continue;
        }
        RunEnds(r, s, start, i, EscapeByte(b));
        r := r + s[start..i];
        r := r + EscapeByte(b);
        i := i + 1;
        start := i;
        continue;
      }
      WideAt(s, i);
      if u.rune == REPLACEMENT && u.size == 1 {
        RunEnds(r, s, start, i, [92, 117, 102, 102, 102, 100]);
        r := r + s[start..i];
        r := r + [92, 117, 102, 102, 102, 100];
      } else if u.rune == 0x2028 || u.rune == 0x2029 {
        RunEnds(r, s, start, i, [92, 117, 50, 48, 50, HexDigit(u.rune % 16)]);
        r := r + s[start..i];
        r := r + [92, 117, 50, 48, 50, HexDigit(u.rune % 16)];
      } else {
        RunGrows(r, s, start, i);
        i := i + u.size;
        continue;
      }
      i := i + u.size;
      start := i;
    }
    AllEscaped(r, s, start);
    r := r + s[start..];
    r := r + [QUOTE];
    Closed(dst, s);
  }

  // ---- reading strings ----

  /** Code points read, and the input after the closing quote. */
  datatype Chars = Chars(runes: seq<int>, rest: Bytes)

  function HexValue(b: byte): Option<int> {
    if 48 <= b < 58 then Some(b - 48)
    else if 97 <= b < 103 then Some(b - 87)
    else if 65 <= b < 71 then Some(b - 55)
    else None
  }

  /** The four hexadecimal digits at the front of the input. */
  function Hex4(s: Bytes): Option<int> {
    if |s| < 4 then None
    else
      match (HexValue(s[0]), HexValue(s[1]), HexValue(s[2]), HexValue(s[3]))
      case (Some(a), Some(b), Some(c), Some(d)) => Some(a * 4096 + b * 256 + c * 16 + d)
      case _ => None
  }

  /** The one-character escapes, after the backslash. */
  function ShortEscape(b: byte): Option<int> {
    if b == 34 || b == 92 || b == 47 then Some(b as int)
    else if b == 98 then Some(8)
    else if b == 102 then Some(12)
    else if b == 110 then Some(10)
    else if b == 114 then Some(13)
    else if b == 116 then Some(9)
    else None
  }

  function Prepend(rune: int, tail: Option<Chars>): Option<Chars> {
    match tail
    case None => None
    case Some(c) => Some(Chars([rune] + c.runes, c.rest))
  }

  /** The characters of a string up to its closing quote: escapes, surrogate pairs, and
      unescaped code points, which must be valid UTF-8 and not below U+0020. */
  function ReadChars(s: Bytes): (c: Option<Chars>)
    ensures c.Some? ==> |c.value.rest| < |s|
    decreases |s|
  {
    if s == [] then None
    else if s[0] == QUOTE then Some(Chars([], s[1..]))
    else if s[0] == BACKSLASH then
      if |s| < 2 then None
      else if s[1] == 117 then
        match Hex4(s[2..])
        case None => None
        case Some(hi) =>
          if 0xD800 <= hi < 0xDC00 && |s| >= 12 && s[6] == BACKSLASH && s[7] == 117
             && Hex4(s[8..]).Some? && 0xDC00 <= Hex4(s[8..]).value < 0xE000
          then Prepend(0x10000 + (hi - 0xD800) * 1024 + (Hex4(s[8..]).value - 0xDC00), ReadChars(s[12..]))
          else Prepend(hi, ReadChars(s[6..]))
      else
        match ShortEscape(s[1])
        case None => None
        case Some(r) => Prepend(r, ReadChars(s[2..]))
    else if s[0] < 0x20 then None
    else
      var u := Decode(s);
      if u.valid then Prepend(u.rune, ReadChars(s[u.size..])) else None
  }

  lemma ReadsShort(b: byte, t: Bytes)
    requires ShortEscape(b).Some?
    ensures ReadChars([92, b] + t) == Prepend(ShortEscape(b).value, ReadChars(t))
  {
    var w := [92, b] + t;
    assert w[0] == 92 && w[1] == b && w[2..] == t;
  }

  lemma ReadsHex(a: byte, b: byte, c: byte, d: byte, t: Bytes)
    requires Hex4([a, b, c, d]).Some? && !(0xD800 <= Hex4([a, b, c, d]).value < 0xDC00)
    ensures ReadChars([92, 117, a, b, c, d] + t) == Prepend(Hex4([a, b, c, d]).value, ReadChars(t))
  {
    var w := [92, 117, a, b, c, d] + t;
    assert w[0] == 92 && w[1] == 117 && w[6..] == t;
    var h := w[2..];
    assert h[0] == a && h[1] == b && h[2] == c && h[3] == d;
  }

  lemma ReadsControl(r: int, t: Bytes)
    requires 0 <= r < 0x20
    ensures ReadChars([92, 117, 48, 48, HexDigit(r / 16), HexDigit(r % 16)] + t) == Prepend(r, ReadChars(t))
  {
    ReadsHex(48, 48, HexDigit(r / 16), HexDigit(r % 16), t);
  }

  lemma ReadsRaw(s: Bytes, t: Bytes)
    requires s != [] && Decode(s).valid && s[0] >= 0x20 && s[0] != QUOTE && s[0] != BACKSLASH
    ensures ReadChars(s[..Decode(s).size] + t) == Prepend(Decode(s).rune, ReadChars(t))
  {
    var n := Decode(s).size;
    var w := s[..n] + t;
    DecodeExtends(s, t);
    assert w[n..] == t && w[0] == s[0];
  }

  /** One unit's escape is read back as its code point, whatever follows. */
  lemma ReadsUnit(s: Bytes, t: Bytes)
    requires s != []
    ensures ReadChars(EscapeUnit(Decode(s), s[..Decode(s).size]) + t) == Prepend(Decode(s).rune, ReadChars(t))
  {
    var r := Decode(s).rune;
    if !Decode(s).valid {
      ReadsHex(102, 102, 102, 100, t);
    } else if r in {34, 92} {
      ReadsShort(r, t);
    } else if r in {8, 9, 10, 12, 13} {
      ReadsShort(if r == 8 then 98 else if r == 12 then 102 else if r == 10 then 110 else if r == 13 then 114 else 116, t);
    } else if r < 0x20 {
      ReadsControl(r, t);
    } else if r == 0x2028 {
      ReadsHex(50, 48, 50, 56, t);
    } else if r == 0x2029 {
      ReadsHex(50, 48, 50, 57, t);
    } else {
      ReadsRaw(s, t);
    }
  }

  lemma ReadsClosing(rest: Bytes)
    ensures ReadChars([QUOTE] + rest) == Some(Chars([], rest))
  {
    assert ([QUOTE] + rest)[1..] == rest;
  }

  /** Reading an escaped string recovers the decoded code points of the original. */
  lemma {:induction false} ReadsEscape(s: Bytes, rest: Bytes)
    ensures ReadChars(Escape(s) + [QUOTE] + rest) == Some(Chars(Runes(s), rest))
    decreases |s|
  {
    if s == [] {
      ReadsClosing(rest);
      assert Escape(s) + [QUOTE] + rest == [QUOTE] + rest;
    } else {
      hide ReadChars, EscapeUnit, Decode;
      var n := Decode(s).size;
      var e, t := EscapeUnit(Decode(s), s[..n]), Escape(s[n..]);
      ReadsEscape(s[n..], rest);
      ReadsUnit(s, t + [QUOTE] + rest);
      Assoc(e, t, [QUOTE]);
      Assoc(e, t + [QUOTE], rest);
    }
  }

  /** The output of the loop, read back: the code points of the input, and for valid UTF-8
      the input itself. */
  lemma StringRoundTrip(s: Bytes, rest: Bytes)
    ensures Quoted(s) + rest == [QUOTE] + (Escape(s) + [QUOTE] + rest)
    ensures ReadChars(Escape(s) + [QUOTE] + rest) == Some(Chars(Runes(s), rest))
    ensures EncodeAll(Runes(s)) == s <==> Valid(s)
  {
    ReadsEscape(s, rest);
    ExactIffValid(s);
  }

  /** No control character survives: nothing in the output is below 0x20. */
  lemma {:induction false} EscapeIsPrintable(s: Bytes)
    ensures forall i :: 0 <= i < |Escape(s)| ==> Escape(s)[i] >= 0x20
    decreases |s|
  {
    if s == [] {
    } else {
      var u := Decode(s);
      EscapeIsPrintable(s[u.size..]);
      UnitIsPrintable(s);
    }
  }

  lemma UnitIsPrintable(s: Bytes)
    requires s != []
    ensures var e := EscapeUnit(Decode(s), s[..Decode(s).size]);
      forall i :: 0 <= i < |e| ==> e[i] >= 0x20
  {
  }
}
