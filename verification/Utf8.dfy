/** UTF-8 as RFC 3629 section 4 defines it, decoded the way Go's DecodeRune does: a byte that
    begins no valid encoding is one unit of size 1 standing for U+FFFD. */
module Utf8 {
  import opened Records

  const REPLACEMENT := 0xFFFD

  /** A Unicode scalar value: a code point that is not a surrogate. */
  predicate Scalar(r: int) {
    0 <= r < 0xD800 || 0xE000 <= r < 0x110000
  }

  datatype Unit = Unit(rune: int, size: nat, valid: bool)

  predicate Tail(b: byte) {
    0x80 <= b < 0xC0
  }

  const BROKEN := Unit(REPLACEMENT, 1, false)

  /** The second byte of a three-byte encoding is restricted after E0 and ED. */
  predicate Second3(b0: byte, b1: byte) {
    Tail(b1) && (b0 == 0xE0 ==> b1 >= 0xA0) && (b0 == 0xED ==> b1 < 0xA0)
  }

  /** And that of a four-byte encoding after F0 and F4. */
  predicate Second4(b0: byte, b1: byte) {
    Tail(b1) && (b0 == 0xF0 ==> b1 >= 0x90) && (b0 == 0xF4 ==> b1 < 0x90)
  }

  /** The first unit of a non-empty string. */
  function Decode(s: Bytes): (u: Unit)
    requires s != []
    ensures 1 <= u.size <= |s| && u.size <= 4 && Scalar(u.rune)
    ensures !u.valid ==> u == BROKEN
  {
    var b0: int := s[0];
    if b0 < 0x80 then Unit(b0, 1, true)
    else if 0xC2 <= b0 < 0xE0 then
      if |s| >= 2 && Tail(s[1]) then Unit((b0 - 0xC0) * 64 + Six(s[1]), 2, true) else BROKEN
    else if 0xE0 <= b0 < 0xF0 then
      if |s| >= 3 && Second3(b0, s[1]) && Tail(s[2])
      then Unit((b0 - 0xE0) * 4096 + Six(s[1]) * 64 + Six(s[2]), 3, true) else BROKEN
    else if 0xF0 <= b0 < 0xF5 then
      if |s| >= 4 && Second4(b0, s[1]) && Tail(s[2]) && Tail(s[3])
      then Unit((b0 - 0xF0) * 262144 + Six(s[1]) * 4096 + Six(s[2]) * 64 + Six(s[3]), 4, true) else BROKEN
    else BROKEN
  }

  /** The six payload bits of a tail byte. */
  function Six(b: int): int {
    b - 0x80
  }

  /** The encoding of a scalar value. */
  function Encode(r: int): (s: Bytes)
    requires Scalar(r)
    ensures s != []
  {
    if r < 0x80 then [r]
    else if r < 0x800 then [0xC0 + r / 64, 0x80 + r % 64]
    else if r < 0x10000 then [0xE0 + r / 4096, 0x80 + r / 64 % 64, 0x80 + r % 64]
    else [0xF0 + r / 262144, 0x80 + r / 4096 % 64, 0x80 + r / 64 % 64, 0x80 + r % 64]
  }

  /** The decoded code points of any bytes. */
  function Runes(s: Bytes): (rs: seq<int>)
    ensures forall i :: 0 <= i < |rs| ==> Scalar(rs[i])
    decreases |s|
  {
    if s == [] then []
    else [Decode(s).rune] + Runes(s[Decode(s).size..])
  }

  predicate Valid(s: Bytes)
    decreases |s|
  {
    s == [] || (Decode(s).valid && Valid(s[Decode(s).size..]))
  }

  function EncodeAll(rs: seq<int>): (s: Bytes)
    requires forall i :: 0 <= i < |rs| ==> Scalar(rs[i])
  {
    if rs == [] then [] else Encode(rs[0]) + EncodeAll(rs[1..])
  }

  /** What follows a valid unit does not change it. */
  lemma DecodeExtends(s: Bytes, t: Bytes)
    requires s != [] && Decode(s).valid
    ensures Decode(s[..Decode(s).size] + t) == Decode(s)
  {
    var u := Decode(s);
    var w := s[..u.size] + t;
    assert forall i :: 0 <= i < u.size ==> w[i] == s[i];
  }

  lemma Encodes2(a: int, b: int)
    requires 2 <= a < 32 && 0 <= b < 64
    ensures Encode(a * 64 + b) == [0xC0 + a, 0x80 + b]
  {
  }

  lemma Encodes3(a: int, b: int, c: int)
    requires 0 <= a < 16 && 0 <= b < 64 && 0 <= c < 64
    requires a * 4096 + b * 64 + c >= 0x800 && Scalar(a * 4096 + b * 64 + c)
    ensures Encode(a * 4096 + b * 64 + c) == [0xE0 + a, 0x80 + b, 0x80 + c]
  {
    var r := a * 4096 + b * 64 + c;
    assert r / 64 == a * 64 + b && r / 4096 == a;
  }

  lemma Encodes4(a: int, b: int, c: int, d: int)
    requires 0 <= a < 5 && 0 <= b < 64 && 0 <= c < 64 && 0 <= d < 64
    requires a * 262144 + b * 4096 + c * 64 + d >= 0x10000 && Scalar(a * 262144 + b * 4096 + c * 64 + d)
    ensures Encode(a * 262144 + b * 4096 + c * 64 + d) == [0xF0 + a, 0x80 + b, 0x80 + c, 0x80 + d]
  {
    var r := a * 262144 + b * 4096 + c * 64 + d;
    assert r / 64 == a * 4096 + b * 64 + c && r / 4096 == a * 64 + b && r / 262144 == a;
  }

  /** A valid unit is the encoding of its code point. */
  lemma DecodeThenEncode(s: Bytes)
    requires s != [] && Decode(s).valid
    ensures Encode(Decode(s).rune) == s[..Decode(s).size]
  {
    hide Encode, Scalar;
    var b0: int := s[0];
    match Decode(s).size
    case 1 => OneByte(b0);
    case 2 => Encodes2(b0 - 0xC0, Six(s[1]));
    case 3 => Encodes3(b0 - 0xE0, Six(s[1]), Six(s[2]));
    case _ => Encodes4(b0 - 0xF0, Six(s[1]), Six(s[2]), Six(s[3]));
  }

  lemma OneByte(b: int)
    requires 0 <= b < 0x80
    ensures Encode(b) == [b]
  {
  }

  /** The encoding of a scalar value decodes to it, whatever follows. */
  lemma EncodeThenDecode(r: int, t: Bytes)
    requires Scalar(r)
    ensures Decode(Encode(r) + t) == Unit(r, |Encode(r)|, true)
  {
    var e, w := Encode(r), Encode(r) + t;
    assert forall i :: 0 <= i < |e| ==> w[i] == e[i];
    if |e| == 3 {
      assert r / 64 / 64 == r / 4096;
    } else if |e| == 4 {
      assert r / 64 / 64 == r / 4096 && r / 4096 / 64 == r / 262144;
    }
  }

  lemma {:induction false} EncodeAllIsValid(rs: seq<int>)
    requires forall i :: 0 <= i < |rs| ==> Scalar(rs[i])
    ensures Valid(EncodeAll(rs)) && Runes(EncodeAll(rs)) == rs
  {
    if rs == [] {
    } else {
      var e, t := Encode(rs[0]), EncodeAll(rs[1..]);
      EncodeAllIsValid(rs[1..]);
      EncodeThenDecode(rs[0], t);
      assert (e + t)[|e|..] == t;
    }
  }

  lemma EncodeAllFirst(r: int, rs: seq<int>)
    requires Scalar(r) && forall i :: 0 <= i < |rs| ==> Scalar(rs[i])
    ensures EncodeAll([r] + rs) == Encode(r) + EncodeAll(rs)
  {
    hide Scalar, Encode;
    assert ([r] + rs)[1..] == rs;
  }

  lemma {:induction false} ValidComesBack(s: Bytes)
    requires Valid(s)
    ensures EncodeAll(Runes(s)) == s
    decreases |s|
  {
    hide Decode, Encode, Scalar;
    if s != [] {
      var n := Decode(s).size;
      var head, rest := s[..n], s[n..];
      DecodeThenEncode(s);
      ValidComesBack(rest);
      EncodeAllFirst(Decode(s).rune, Runes(rest));
      assert head + rest == s;
    }
  }

  /** Decoding loses nothing exactly when the bytes are valid UTF-8. */
  lemma ExactIffValid(s: Bytes)
    ensures EncodeAll(Runes(s)) == s <==> Valid(s)
  {
    EncodeAllIsValid(Runes(s));
    if Valid(s) { ValidComesBack(s); }
  }
}
