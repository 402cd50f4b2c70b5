/**
  Unpadded base64url (gateway/auth.py:253-259): RFC 4648 sections 4 and 5, with the padding
  stripped on the way out and restored by length on the way in.

  The library decoder is lenient: it takes both alphabets, skips characters of neither, and
  stops at a complete padding.
*/
module Base64Url {
  import opened Wrappers

  type byte = x: int | 0 <= x < 256
  type sextet = x: int | 0 <= x < 64

  // ----- The alphabet -----

  function Char(v: sextet): char {
    if v < 26 then 'A' + v as char
    else if v < 52 then 'a' + (v - 26) as char
    else if v < 62 then '0' + (v - 52) as char
    else if v == 62 then '-'
    else '_'
  }

  /** The value of a character in the standard alphabet, after `-` and `_` became `+` and `/`. */
  function Value(c: char): Option<sextet> {
    if 'A' <= c <= 'Z' then Some((c - 'A') as int)
    else if 'a' <= c <= 'z' then Some((c - 'a') as int + 26)
    else if '0' <= c <= '9' then Some((c - '0') as int + 52)
    else if c == '+' || c == '-' then Some(62)
    else if c == '/' || c == '_' then Some(63)
    else None
  }

  predicate UrlSafe(c: char) {
    Value(c).Some? && c != '+' && c != '/'
  }

  predicate AllUrlSafe(s: string) {
    forall i :: 0 <= i < |s| ==> UrlSafe(s[i])
  }

  lemma CharValue(v: sextet)
    ensures Value(Char(v)) == Some(v) && UrlSafe(Char(v))
  {
  }

  lemma ValueChar(c: char)
    requires UrlSafe(c)
    ensures Char(Value(c).value) == c
  {
  }

  /** Table 2 of section 5, and the two characters of Table 1 that it replaces. */
  const ALPHABET := "ABCDEFGHIJKLMNOPQRSTUVWXYZ" + "abcdefghijklmnopqrstuvwxyz" + "0123456789-_"

  lemma {:induction false} AlphabetExact(v: sextet, c: char)
    ensures |ALPHABET| == 64 && Char(v) == ALPHABET[v] && Value(ALPHABET[v]) == Some(v)
    ensures Value('+') == Some(62) && Value('/') == Some(63)
    ensures c !in ALPHABET && c != '+' && c != '/' ==> Value(c) == None
  {
    CharValue(v);
    if Value(c).Some? && c != '+' && c != '/' {
      ValueChar(c);
      CharIsListed(Value(c).value);
      assert c == ALPHABET[Value(c).value];
    }
    CharIsListed(v);
  }

  lemma {:induction false} CharIsListed(v: sextet)
    ensures Char(v) == ALPHABET[v]
  {
    var upper, lower, rest := "ABCDEFGHIJKLMNOPQRSTUVWXYZ", "abcdefghijklmnopqrstuvwxyz", "0123456789-_";
    assert forall k :: 0 <= k < 26 ==> upper[k] == 'A' + k as char && lower[k] == 'a' + k as char;
    assert forall k :: 0 <= k < 10 ==> rest[k] == '0' + k as char;
  }

  // ----- Encoding -----

  // Three bytes as four groups of six bits, and back.

  function First(x: byte): sextet { x / 4 }

  function Second(x: byte, y: byte): sextet { x % 4 * 16 + y / 16 }

  function Third(y: byte, z: byte): sextet { y % 16 * 4 + z / 64 }

  function Fourth(z: byte): sextet { z % 64 }

  function Join(a: sextet, b: sextet): byte { a * 4 + b / 16 }

  function Join'(b: sextet, c: sextet): byte { b % 16 * 16 + c / 4 }

  function Join''(c: sextet, d: sextet): byte { c % 4 * 64 + d }

  lemma SplitJoin(x: byte, y: byte, z: byte)
    ensures Join(First(x), Second(x, y)) == x
    ensures Join'(Second(x, y), Third(y, z)) == y
    ensures Join''(Third(y, z), Fourth(z)) == z
  {
  }

  lemma JoinSplit(a: sextet, b: sextet, c: sextet, d: sextet)
    ensures First(Join(a, b)) == a
    ensures Second(Join(a, b), Join'(b, c)) == b
    ensures Third(Join'(b, c), Join''(c, d)) == c
    ensures Fourth(Join''(c, d)) == d
  {
  }

  /** The four groups are the 24 bits of the three bytes, in their order. */
  lemma {:induction false} SameBits(x: byte, y: byte, z: byte)
    ensures First(x) * 262144 + Second(x, y) * 4096 + Third(y, z) * 64 + Fourth(z) == x * 65536 + y * 256 + z
  {
    assert x == First(x) * 4 + x % 4 && y == y / 16 * 16 + y % 16 && z == z / 64 * 64 + z % 64;
  }

  /** Three bytes as four characters. */
  function Quad(x: byte, y: byte, z: byte): (r: string)
    ensures |r| == 4
  {
    [Char(First(x)), Char(Second(x, y)), Char(Third(y, z)), Char(Fourth(z))]
  }

  /** The encoding with `=` padding; a short last group is filled up with zero bits. */
  function EncodePadded(data: seq<byte>): string {
    if data == [] then ""
    else if |data| == 1 then Quad(data[0], 0, 0)[..2] + "=="
    else if |data| == 2 then Quad(data[0], data[1], 0)[..3] + "="
    else Quad(data[0], data[1], data[2]) + EncodePadded(data[3..])
  }

  function StripPadding(s: string, c: char): string {
    if s != "" && s[|s| - 1] == c then StripPadding(s[..|s| - 1], c) else s
  }

  /** `_b64url` */
  function Encode(data: seq<byte>): string {
    StripPadding(EncodePadded(data), '=')
  }

  // ----- Decoding -----

  /** Where the decoder is in a group of four: how many characters it has, the bits left over from the
      last one, and how many `=` it has just seen. */
  datatype Group = Group(have: nat, bits: int, pads: nat)

  const NewGroup := Group(0, 0, 0)

  predicate ValidGroup(g: Group) {
    && g.have < 4
    && (g.have == 0 ==> g.bits == 0)
    && (g.have == 1 ==> 0 <= g.bits < 64)
    && (g.have == 2 ==> 0 <= g.bits < 16)
    && (g.have == 3 ==> 0 <= g.bits < 4)
  }

  function DecodeFrom(s: string, g: Group): (r: Option<seq<byte>>)
    requires ValidGroup(g)
    decreases |s|
  {
    if s == "" then
      if g.have == 0 then Some([]) else None
    else if s[0] == '=' then
      if g.have >= 2 && g.have + g.pads + 1 >= 4 then Some([])
      else DecodeFrom(s[1..], g.(pads := if g.have >= 2 then g.pads + 1 else g.pads))
    else
      match Value(s[0])
      case None => DecodeFrom(s[1..], g)
      case Some(v) =>
        match g.have
        case 0 => DecodeFrom(s[1..], Group(1, v, 0))
        case 1 => Prepend(g.bits * 4 + v / 16, DecodeFrom(s[1..], Group(2, v % 16, 0)))
        case 2 => Prepend(g.bits * 16 + v / 4, DecodeFrom(s[1..], Group(3, v % 4, 0)))
        case _ => Prepend(g.bits * 64 + v, DecodeFrom(s[1..], NewGroup))
  }

  function Prepend(b: byte, rest: Option<seq<byte>>): Option<seq<byte>> {
    if rest.Some? then Some([b] + rest.value) else None
  }

  function Equals(n: nat): string {
    seq(n, _ => '=')
  }

  /** `-len(value) % 4` */
  function PadLength(n: nat): nat {
    (4 - n % 4) % 4
  }

  predicate Ascii(s: string) {
    forall i :: 0 <= i < |s| ==> s[i] < 128 as char
  }

  /** `_b64decode`; `None` stands for the ValueError both of its steps can raise. */
  function Decode(s: string): Option<seq<byte>> {
    if Ascii(s) then DecodeFrom(s + Equals(PadLength(|s|)), NewGroup) else None
  }

  // ----- What the stripped form looks like -----

  /** The characters that carry data, without padding. */
  function EncodeBare(data: seq<byte>): string {
    if data == [] then ""
    else if |data| == 1 then Quad(data[0], 0, 0)[..2]
    else if |data| == 2 then Quad(data[0], data[1], 0)[..3]
    else Quad(data[0], data[1], data[2]) + EncodeBare(data[3..])
  }

  lemma QuadUrlSafe(x: byte, y: byte, z: byte)
    ensures AllUrlSafe(Quad(x, y, z))
  {
    CharValue(First(x));
    CharValue(Second(x, y));
    CharValue(Third(y, z));
    CharValue(Fourth(z));
  }

  lemma {:induction false} BareUrlSafe(data: seq<byte>)
    ensures AllUrlSafe(EncodeBare(data))
  {
    if |data| == 1 {
      QuadUrlSafe(data[0], 0, 0);
    } else if |data| == 2 {
      QuadUrlSafe(data[0], data[1], 0);
    } else if |data| >= 3 {
      QuadUrlSafe(data[0], data[1], data[2]);
      BareUrlSafe(data[3..]);
    }
  }

  /** Four more characters in front change neither the length modulo 4 nor the padding. */
  lemma PadCons(quad: string, tail: string)
    requires |quad| == 4
    ensures |quad + tail| % 4 == |tail| % 4
    ensures PadLength(|quad + tail|) == PadLength(|tail|)
    ensures (quad + tail) + Equals(PadLength(|tail|)) == quad + (tail + Equals(PadLength(|tail|)))
  {
  }

  lemma {:induction false} BareLength(data: seq<byte>)
    ensures |EncodeBare(data)| % 4 != 1
  {
    if data == [] {
    } else if |data| == 1 {
      assert |EncodeBare(data)| == 2;
    } else if |data| == 2 {
      assert |EncodeBare(data)| == 3;
    } else {
      BareLength(data[3..]);
      var quad, tail := Quad(data[0], data[1], data[2]), EncodeBare(data[3..]);
      PadCons(quad, tail);
      assert EncodeBare(data) == quad + tail;
    }
  }

  lemma {:induction false} BarePadding(data: seq<byte>)
    ensures EncodePadded(data) == EncodeBare(data) + Equals(PadLength(|EncodeBare(data)|))
  {
    if data == [] {
      assert Equals(0) == "";
    } else if |data| == 1 {
      assert PadLength(2) == 2 && Equals(2) == "==";
      assert |EncodeBare(data)| == 2;
    } else if |data| == 2 {
      assert PadLength(3) == 1 && Equals(1) == "=";
      assert |EncodeBare(data)| == 3;
    } else {
      var quad, tail := Quad(data[0], data[1], data[2]), EncodeBare(data[3..]);
      BarePadding(data[3..]);
      PadCons(quad, tail);
      assert EncodeBare(data) == quad + tail;
      assert EncodePadded(data) == quad + EncodePadded(data[3..]);
    }
  }

  lemma {:induction false} StripEquals(s: string, n: nat)
    requires AllUrlSafe(s)
    ensures StripPadding(s + Equals(n), '=') == s
  {
    if n > 0 {
      StripEquals(s, n - 1);
      assert (s + Equals(n))[..|s| + n - 1] == s + Equals(n - 1);
    } else {
      assert s + Equals(0) == s;
    }
  }

  lemma {:induction false} EncodeIsBare(data: seq<byte>)
    ensures Encode(data) == EncodeBare(data)
  {
    BareUrlSafe(data);
    BarePadding(data);
    StripEquals(EncodeBare(data), PadLength(|EncodeBare(data)|));
  }

  /** The text `_b64url` prints: only URL-safe characters, so none of `$`, `.` and `=`; a length that is
      never 1 modulo 4; and exactly the padding that its length calls for was stripped. */
  lemma {:induction false} EncodeShape(data: seq<byte>)
    ensures AllUrlSafe(Encode(data))
    ensures |Encode(data)| % 4 != 1
    ensures Encode(data) + Equals(PadLength(|Encode(data)|)) == EncodePadded(data)
  {
    EncodeIsBare(data);
    BareUrlSafe(data);
    BareLength(data);
    BarePadding(data);
  }

  // ----- Round trip -----

  // One data character: the byte it completes, if any, and the bits it leaves over.

  lemma DecodeFirst(v: sextet, rest: string)
    ensures DecodeFrom([Char(v)] + rest, NewGroup) == DecodeFrom(rest, Group(1, v, 0))
  {
    CharValue(v);
    assert ([Char(v)] + rest)[1..] == rest;
  }

  lemma DecodeSecond(v: sextet, rest: string, bits: sextet)
    ensures DecodeFrom([Char(v)] + rest, Group(1, bits, 0))
         == Prepend(Join(bits, v), DecodeFrom(rest, Group(2, v % 16, 0)))
  {
    CharValue(v);
    assert ([Char(v)] + rest)[1..] == rest;
  }

  lemma DecodeThird(b: sextet, c: sextet, rest: string)
    ensures DecodeFrom([Char(c)] + rest, Group(2, b % 16, 0))
         == Prepend(Join'(b, c), DecodeFrom(rest, Group(3, c % 4, 0)))
  {
    CharValue(c);
    assert ([Char(c)] + rest)[1..] == rest;
  }

  lemma DecodeFourth(c: sextet, d: sextet, rest: string)
    ensures DecodeFrom([Char(d)] + rest, Group(3, c % 4, 0)) == Prepend(Join''(c, d), DecodeFrom(rest, NewGroup))
  {
    CharValue(d);
    assert ([Char(d)] + rest)[1..] == rest;
  }

  lemma {:induction false} DecodePair(a: sextet, b: sextet, rest: string)
    ensures DecodeFrom([Char(a), Char(b)] + rest, NewGroup)
         == Prepend(Join(a, b), DecodeFrom(rest, Group(2, b % 16, 0)))
  {
    DecodeFirst(a, [Char(b)] + rest);
    DecodeSecond(b, rest, a);
    assert [Char(a), Char(b)] + rest == [Char(a)] + ([Char(b)] + rest);
  }

  lemma {:induction false} DecodeTriple(a: sextet, b: sextet, c: sextet, rest: string)
    ensures DecodeFrom([Char(a), Char(b), Char(c)] + rest, NewGroup)
         == Prepend(Join(a, b), Prepend(Join'(b, c), DecodeFrom(rest, Group(3, c % 4, 0))))
  {
    var tail := [Char(c)] + rest;
    DecodePair(a, b, tail);
    DecodeThird(b, c, rest);
    assert [Char(a), Char(b), Char(c)] + rest == [Char(a), Char(b)] + tail;
  }

  lemma {:induction false} DecodeQuad(a: sextet, b: sextet, c: sextet, d: sextet, rest: string)
    ensures DecodeFrom([Char(a), Char(b), Char(c), Char(d)] + rest, NewGroup)
         == Prepend(Join(a, b), Prepend(Join'(b, c), Prepend(Join''(c, d), DecodeFrom(rest, NewGroup))))
  {
    var tail := [Char(d)] + rest;
    DecodeTriple(a, b, c, tail);
    DecodeFourth(c, d, rest);
    assert [Char(a), Char(b), Char(c), Char(d)] + rest == [Char(a), Char(b), Char(c)] + tail;
  }

  lemma {:induction false} DecodeTail2(a: sextet, b: sextet)
    ensures DecodeFrom([Char(a), Char(b)] + "==", NewGroup) == Some([Join(a, b)])
  {
    DecodePair(a, b, "==");
    assert "=="[1..] == "=";
    assert DecodeFrom("=", Group(2, b % 16, 1)) == Some([]);
    assert [Join(a, b)] + [] == [Join(a, b)];
  }

  lemma {:induction false} DecodeTail3(a: sextet, b: sextet, c: sextet)
    ensures DecodeFrom([Char(a), Char(b), Char(c)] + "=", NewGroup) == Some([Join(a, b), Join'(b, c)])
  {
    DecodeTriple(a, b, c, "=");
    assert DecodeFrom("=", Group(3, c % 4, 0)) == Some([]);
    assert [Join(a, b)] + ([Join'(b, c)] + []) == [Join(a, b), Join'(b, c)];
  }

  lemma PrependThree(x: byte, y: byte, z: byte, rest: Option<seq<byte>>)
    ensures rest.None? ==> Prepend(x, Prepend(y, Prepend(z, rest))) == None
    ensures rest.Some? ==> Prepend(x, Prepend(y, Prepend(z, rest))) == Some([x, y, z] + rest.value)
  {
    if rest.Some? {
      assert [x] + ([y] + ([z] + rest.value)) == [x, y, z] + rest.value;
    }
  }

  lemma {:induction false} DecodeBytes(x: byte, y: byte, z: byte, rest: string)
    ensures DecodeFrom(Quad(x, y, z)[..2] + "==", NewGroup) == Some([Join(First(x), Second(x, y))])
    ensures DecodeFrom(Quad(x, y, z)[..3] + "=", NewGroup) == Some([x, Join'(Second(x, y), Third(y, z))])
    ensures DecodeFrom(Quad(x, y, z) + rest, NewGroup)
         == Prepend(x, Prepend(y, Prepend(z, DecodeFrom(rest, NewGroup))))
  {
    SplitJoin(x, y, z);
    DecodeTail2(First(x), Second(x, y));
    DecodeTail3(First(x), Second(x, y), Third(y, z));
    DecodeQuad(First(x), Second(x, y), Third(y, z), Fourth(z), rest);
    assert Quad(x, y, z)[..2] == [Char(First(x)), Char(Second(x, y))];
    assert Quad(x, y, z)[..3] == [Char(First(x)), Char(Second(x, y)), Char(Third(y, z))];
  }

  lemma {:induction false} DecodeThree(x: byte, y: byte, z: byte, more: seq<byte>, rest: string)
    requires DecodeFrom(rest, NewGroup) == Some(more)
    ensures DecodeFrom(Quad(x, y, z) + rest, NewGroup) == Some([x, y, z] + more)
  {
    DecodeBytes(x, y, z, rest);
    PrependThree(x, y, z, Some(more));
  }

  lemma {:induction false} DecodeOne(x: byte)
    ensures DecodeFrom(EncodePadded([x]), NewGroup) == Some([x])
  {
    DecodeBytes(x, 0, 0, "");
    SplitJoin(x, 0, 0);
  }

  lemma {:induction false} DecodeTwo(x: byte, y: byte)
    ensures DecodeFrom(EncodePadded([x, y]), NewGroup) == Some([x, y])
  {
    DecodeBytes(x, y, 0, "");
    SplitJoin(x, y, 0);
  }

  lemma {:induction false} DecodePadded(data: seq<byte>)
    ensures DecodeFrom(EncodePadded(data), NewGroup) == Some(data)
  {
    if data == [] {
    } else if |data| == 1 {
      DecodeOne(data[0]);
      assert data == [data[0]];
    } else if |data| == 2 {
      DecodeTwo(data[0], data[1]);
      assert data == [data[0], data[1]];
    } else {
      var rest := EncodePadded(data[3..]);
      DecodePadded(data[3..]);
      DecodeThree(data[0], data[1], data[2], data[3..], rest);
      assert [data[0], data[1], data[2]] + data[3..] == data;
      assert EncodePadded(data) == Quad(data[0], data[1], data[2]) + rest;
    }
  }

  lemma UrlSafeAscii(s: string)
    requires AllUrlSafe(s)
    ensures Ascii(s)
  {
  }

  /** Every byte string comes back. */
  lemma {:induction false} RoundTrip(data: seq<byte>)
    ensures Decode(Encode(data)) == Some(data)
  {
    EncodeShape(data);
    UrlSafeAscii(Encode(data));
    DecodePadded(data);
  }

  // ----- The other way round -----

  /** The bits a last, incomplete group carries beyond its whole bytes. */
  function SpareBits(s: string): int
    requires AllUrlSafe(s)
  {
    var n := |s|;
    if n % 4 == 2 then Value(s[n - 1]).value % 16
    else if n % 4 == 3 then Value(s[n - 1]).value % 4
    else 0
  }

  lemma CharInjective(v: sextet, w: sextet)
    ensures Char(v) == Char(w) <==> v == w
  {
    CharValue(v);
    CharValue(w);
  }

  /** Decoding and printing again gives the text back exactly when it had no spare bits set. */
  ghost predicate Exact(s: string)
    requires AllUrlSafe(s)
  {
    if |s| % 4 == 1 then Decode(s).None?
    else Decode(s).Some? && (Encode(Decode(s).value) == s <==> SpareBits(s) == 0)
  }

  lemma {:induction false} Exact1(s: string)
    requires AllUrlSafe(s) && |s| == 1
    ensures Exact(s)
  {
    ValueChar(s[0]);
    UrlSafeAscii(s);
    var a := Value(s[0]).value;
    DecodeFirst(a, "===");
    assert s + Equals(3) == [Char(a)] + "===";
    assert "==="[1..] == "==" && "=="[1..] == "=" && "="[1..] == "";
    assert DecodeFrom("=", Group(1, a, 0)) == None;
    assert DecodeFrom("==", Group(1, a, 0)) == None;
  }

  /** A last group of two characters prints back its first, and its second without the spare bits. */
  lemma {:induction false} PrintBack2(a: sextet, b: sextet)
    ensures Encode([Join(a, b)]) == [Char(a), Char(b / 16 * 16)]
  {
    EncodeIsBare([Join(a, b)]);
    assert First(Join(a, b)) == a && Second(Join(a, b), 0) == b / 16 * 16;
  }

  lemma {:induction false} PrintBack3(a: sextet, b: sextet, c: sextet)
    ensures Encode([Join(a, b), Join'(b, c)]) == [Char(a), Char(b), Char(c / 4 * 4)]
  {
    EncodeIsBare([Join(a, b), Join'(b, c)]);
    JoinSplit(a, b, c, 0);
    assert Third(Join'(b, c), 0) == c / 4 * 4;
  }

  lemma {:induction false} Text2(a: sextet, b: sextet)
    ensures Decode([Char(a), Char(b)]) == Some([Join(a, b)])
  {
    CharValue(a);
    CharValue(b);
    DecodeTail2(a, b);
    assert [Char(a), Char(b)] + Equals(2) == [Char(a), Char(b)] + "==";
  }

  lemma {:induction false} Text3(a: sextet, b: sextet, c: sextet)
    ensures Decode([Char(a), Char(b), Char(c)]) == Some([Join(a, b), Join'(b, c)])
  {
    ThreeAscii(a, b, c);
    DecodeTail3(a, b, c);
    OneEqual([Char(a), Char(b), Char(c)]);
  }

  lemma OneEqual(s: string)
    requires |s| == 3
    ensures s + Equals(PadLength(|s|)) == s + "="
  {
    assert Equals(1) == "=";
  }

  lemma {:induction false} ThreeAscii(a: sextet, b: sextet, c: sextet)
    ensures Ascii([Char(a), Char(b), Char(c)])
  {
    CharValue(a);
    CharValue(b);
    CharValue(c);
    UrlSafeAscii([Char(a), Char(b), Char(c)]);
  }

  lemma {:induction false} Exact2(s: string)
    requires AllUrlSafe(s) && |s| == 2
    ensures Exact(s)
  {
    ValueChar(s[0]);
    ValueChar(s[1]);
    var a, b := Value(s[0]).value, Value(s[1]).value;
    assert s == [Char(a), Char(b)];
    Text2(a, b);
    PrintBack2(a, b);
    CharInjective(b / 16 * 16, b);
  }

  lemma {:induction false} Exact3(s: string)
    requires AllUrlSafe(s) && |s| == 3
    ensures Exact(s)
  {
    ValueChar(s[0]);
    ValueChar(s[1]);
    ValueChar(s[2]);
    var a, b, c := Value(s[0]).value, Value(s[1]).value, Value(s[2]).value;
    assert s == [Char(a), Char(b), Char(c)];
    Text3(a, b, c);
    PrintBack3(a, b, c);
    CharInjective(c / 4 * 4, c);
  }

  /** A complete group at the front decodes to three bytes that print as its four characters. */
  lemma {:induction false} PrintBackQuad(a: sextet, b: sextet, c: sextet, d: sextet, tail: seq<byte>)
    ensures Encode([Join(a, b), Join'(b, c), Join''(c, d)] + tail)
         == [Char(a), Char(b), Char(c), Char(d)] + Encode(tail)
  {
    var data := [Join(a, b), Join'(b, c), Join''(c, d)] + tail;
    assert data[3..] == tail;
    EncodeIsBare(data);
    EncodeIsBare(tail);
    JoinSplit(a, b, c, d);
  }

  lemma {:induction false} DecodeCons(quad: string, rest: string, a: sextet, b: sextet, c: sextet, d: sextet)
    requires quad == [Char(a), Char(b), Char(c), Char(d)] && AllUrlSafe(quad) && AllUrlSafe(rest)
    ensures Decode(rest).None? ==> Decode(quad + rest).None?
    ensures Decode(rest).Some? ==>
              Decode(quad + rest) == Some([Join(a, b), Join'(b, c), Join''(c, d)] + Decode(rest).value)
  {
    UrlSafeAscii(quad + rest);
    UrlSafeAscii(rest);
    PadCons(quad, rest);
    var padded := rest + Equals(PadLength(|rest|));
    DecodeQuad(a, b, c, d, padded);
    PrependThree(Join(a, b), Join'(b, c), Join''(c, d), DecodeFrom(padded, NewGroup));
  }

  lemma SpareBitsCons(quad: string, rest: string)
    requires |quad| == 4 && AllUrlSafe(quad) && AllUrlSafe(rest)
    ensures AllUrlSafe(quad + rest) && |quad + rest| % 4 == |rest| % 4
    ensures SpareBits(quad + rest) == SpareBits(rest)
  {
    PadCons(quad, rest);
    assert |rest| > 0 ==> (quad + rest)[|quad + rest| - 1] == rest[|rest| - 1];
  }

  lemma {:induction false} PrintsBackCons(quad: string, rest: string, bytes: seq<byte>, tail: seq<byte>)
    requires Encode(bytes + tail) == quad + Encode(tail)
    ensures Encode(bytes + tail) == quad + rest <==> Encode(tail) == rest
  {
    SamePrefix(quad, Encode(tail), rest);
  }

  lemma {:induction false} ExactQuad(quad: string, rest: string, a: sextet, b: sextet, c: sextet, d: sextet)
    requires quad == [Char(a), Char(b), Char(c), Char(d)] && AllUrlSafe(quad) && AllUrlSafe(rest)
    requires Exact(rest)
    ensures AllUrlSafe(quad + rest) && Exact(quad + rest)
  {
    DecodeCons(quad, rest, a, b, c, d);
    SpareBitsCons(quad, rest);
    if Decode(rest).Some? {
      var tail := Decode(rest).value;
      PrintBackQuad(a, b, c, d, tail);
      PrintsBackCons(quad, rest, [Join(a, b), Join'(b, c), Join''(c, d)], tail);
    }
  }

  lemma {:induction false} ExactCons(s: string)
    requires AllUrlSafe(s) && |s| >= 4 && Exact(s[4..])
    ensures Exact(s)
  {
    ValueChar(s[0]);
    ValueChar(s[1]);
    ValueChar(s[2]);
    ValueChar(s[3]);
    ExactQuad(s[..4], s[4..], Value(s[0]).value, Value(s[1]).value, Value(s[2]).value, Value(s[3]).value);
    assert s == s[..4] + s[4..];
  }

  lemma SamePrefix(p: string, s: string, t: string)
    ensures p + s == p + t <==> s == t
  {
    assert (p + s)[|p|..] == s && (p + t)[|p|..] == t;
  }

  /** Of the texts over the URL-safe alphabet, exactly those of length 1 modulo 4 do not decode, and exactly
      those with no spare bits set are what `_b64url` prints. */
  lemma {:induction false} DecodeExact(s: string)
    requires AllUrlSafe(s)
    ensures Decode(s).None? <==> |s| % 4 == 1
    ensures |s| % 4 != 1 ==> (Encode(Decode(s).value) == s <==> SpareBits(s) == 0)
  {
    ExactAlways(s);
  }

  lemma {:induction false} ExactAlways(s: string)
    requires AllUrlSafe(s)
    ensures Exact(s)
  {
    if |s| == 0 {
      assert s + Equals(0) == "";
    } else if |s| == 1 {
      Exact1(s);
    } else if |s| == 2 {
      Exact2(s);
    } else if |s| == 3 {
      Exact3(s);
    } else {
      ExactAlways(s[4..]);
      ExactCons(s);
    }
  }
}
