/**
  UTF-8 as `str::as_bytes` produces it and `String::from_utf8` accepts it:
  the shortest encoding of each scalar value, and a decoder that takes only
  well-formed sequences (no overlong forms, no surrogates, nothing above
  U+10FFFF), per section 3 of RFC 3629.
*/
module Utf8 {
  import opened Ints
  import opened Wrappers

  /** The bytes of one character. */
  function EncodeChar(c: char): (b: Bytes)
    ensures 1 <= |b| <= 4
  {
    var n := c as int;
    if n < 0x80 then [n as u8]
    else if n < 0x800 then [(0xC0 + n / 0x40) as u8, (0x80 + n % 0x40) as u8]
    else if n < 0x1_0000 then
      [(0xE0 + n / 0x1000) as u8, (0x80 + n / 0x40 % 0x40) as u8, (0x80 + n % 0x40) as u8]
    else
      [(0xF0 + n / 0x4_0000) as u8, (0x80 + n / 0x1000 % 0x40) as u8,
       (0x80 + n / 0x40 % 0x40) as u8, (0x80 + n % 0x40) as u8]
  }

  /** `s.as_bytes()`. */
  function Encode(s: string): (b: Bytes)
    ensures |s| <= |b| <= 4 * |s|
  {
    if s == [] then [] else EncodeChar(s[0]) + Encode(s[1..])
  }

  lemma {:induction false} EncodeConcat(s: string, t: string)
    ensures Encode(s + t) == Encode(s) + Encode(t)
  {
    if s == [] {
      assert s + t == t;
    } else {
      assert (s + t)[0] == s[0] && (s + t)[1..] == s[1..] + t;
      EncodeConcat(s[1..], t);
    }
  }

  predicate IsContinuation(b: u8) { 0x80 <= b < 0xC0 }

  /** A scalar value: a code point that is not a surrogate. */
  predicate IsScalar(n: int) { 0 <= n < 0xD800 || 0xE000 <= n < 0x11_0000 }

  /**
    The first character of `b` and how many bytes it takes, if `b` starts
    with a well-formed sequence.
  */
  function DecodeFirst(b: Bytes): (r: Option<(char, nat)>)
    ensures r.Some? ==> 1 <= r.value.1 <= |b|
  {
    if b == [] then None
    else
      var b0 := b[0] as int;
      if b0 < 0x80 then Some((b0 as char, 1))
      else if 0xC2 <= b0 < 0xE0 && |b| >= 2 && IsContinuation(b[1]) then
        var n := (b0 - 0xC0) * 0x40 + (b[1] as int - 0x80);
        Some((n as char, 2))
      else if 0xE0 <= b0 < 0xF0 && |b| >= 3 && IsContinuation(b[1]) && IsContinuation(b[2]) then
        var n := (b0 - 0xE0) * 0x1000 + (b[1] as int - 0x80) * 0x40 + (b[2] as int - 0x80);
        if 0x800 <= n && IsScalar(n) then Some((n as char, 3)) else None
      else if 0xF0 <= b0 < 0xF5 && |b| >= 4 && IsContinuation(b[1]) && IsContinuation(b[2]) && IsContinuation(b[3]) then
        var n := (b0 - 0xF0) * 0x4_0000 + (b[1] as int - 0x80) * 0x1000
                 + (b[2] as int - 0x80) * 0x40 + (b[3] as int - 0x80);
        if 0x1_0000 <= n < 0x11_0000 then Some((n as char, 4)) else None
      else None
  }

  /** `String::from_utf8(b).ok()`. */
  function Decode(b: Bytes): (r: Option<string>)
    ensures r.Some? ==> |r.value| <= |b|
    decreases |b|
  {
    if b == [] then Some([])
    else match DecodeFirst(b)
      case None => None
      case Some((c, k)) =>
        match Decode(b[k..])
        case None => None
        case Some(rest) => Some([c] + rest)
  }

  /** A character's encoding decodes to that character, whatever follows it. */
  lemma DecodeFirstChar(c: char, rest: Bytes)
    ensures DecodeFirst(EncodeChar(c) + rest) == Some((c, |EncodeChar(c)|))
  {
    var n := c as int;
    if n < 0x80 {
      assert (EncodeChar(c) + rest)[0] as int == n;
    } else if n < 0x800 {
      DecodeTwo(c, rest);
    } else if n < 0x1_0000 {
      DecodeThree(c, rest);
    } else {
      DecodeFour(c, rest);
    }
  }

  lemma DecodeTwo(c: char, rest: Bytes)
    requires 0x80 <= c as int < 0x800
    ensures DecodeFirst(EncodeChar(c) + rest) == Some((c, 2))
  {
    var n := c as int;
    var b := EncodeChar(c) + rest;
    assert b[0] as int == 0xC0 + n / 0x40 && b[1] as int == 0x80 + n % 0x40;
    assert (b[0] as int - 0xC0) * 0x40 + (b[1] as int - 0x80) == n;
  }

  lemma DecodeThree(c: char, rest: Bytes)
    requires 0x800 <= c as int < 0x1_0000
    ensures DecodeFirst(EncodeChar(c) + rest) == Some((c, 3))
  {
    var n := c as int;
    var b := EncodeChar(c) + rest;
    var x, y, z := n / 0x1000, n / 0x40 % 0x40, n % 0x40;
    assert x * 0x1000 + y * 0x40 + z == n;
    assert b[0] as int == 0xE0 + x && b[1] as int == 0x80 + y && b[2] as int == 0x80 + z;
    assert IsContinuation(b[1]) && IsContinuation(b[2]);
    assert (b[0] as int - 0xE0) * 0x1000 + (b[1] as int - 0x80) * 0x40 + (b[2] as int - 0x80) == n;
  }

  lemma DecodeFour(c: char, rest: Bytes)
    requires 0x1_0000 <= c as int
    ensures DecodeFirst(EncodeChar(c) + rest) == Some((c, 4))
  {
    var n := c as int;
    var b := EncodeChar(c) + rest;
    var w, x, y, z := n / 0x4_0000, n / 0x1000 % 0x40, n / 0x40 % 0x40, n % 0x40;
    FourGroups(n);
    assert b[0] as int == 0xF0 + w && b[1] as int == 0x80 + x;
    assert b[2] as int == 0x80 + y && b[3] as int == 0x80 + z;
    assert IsContinuation(b[1]) && IsContinuation(b[2]) && IsContinuation(b[3]);
  }

  /** The four groups of a supplementary code point: three bits and then three times six. */
  lemma FourGroups(n: int)
    requires 0x1_0000 <= n < 0x11_0000
    ensures 0 <= n / 0x4_0000 <= 4
    ensures 0 <= n / 0x1000 % 0x40 < 0x40 && 0 <= n / 0x40 % 0x40 < 0x40 && 0 <= n % 0x40 < 0x40
    ensures n / 0x4_0000 * 0x4_0000 + n / 0x1000 % 0x40 * 0x1000 + n / 0x40 % 0x40 * 0x40 + n % 0x40 == n
  {
    var q1 := n / 0x40;
    var q2 := q1 / 0x40;
    var q3 := q2 / 0x40;
    assert n == q1 * 0x40 + n % 0x40;
    assert q1 == q2 * 0x40 + q1 % 0x40;
    assert q2 == q3 * 0x40 + q2 % 0x40;
    assert q2 == n / 0x1000;
    assert q3 == n / 0x4_0000;
  }

  /** Decoding what was encoded gives the text back: the check in `from_utf8` never fails on it. */
  lemma {:induction false} DecodeEncode(s: string)
    ensures Decode(Encode(s)) == Some(s)
    decreases |s|
  {
    if s != [] {
      var b := Encode(s);
      var k := |EncodeChar(s[0])|;
      DecodeFirstChar(s[0], Encode(s[1..]));
      assert b[k..] == Encode(s[1..]);
      DecodeEncode(s[1..]);
      assert [s[0]] + s[1..] == s;
    }
  }

  /** Each well-formed sequence `DecodeFirst` accepts is the encoding of the character it yields. */
  lemma EncodeFirst(b: Bytes)
    requires DecodeFirst(b).Some?
    ensures DecodeFirst(b).value.1 <= |b|
    ensures EncodeChar(DecodeFirst(b).value.0) == b[..DecodeFirst(b).value.1]
  {
    var b0 := b[0] as int;
    if b0 < 0x80 {
    } else if b0 < 0xE0 {
      EncodeFirstTwo(b);
    } else if b0 < 0xF0 {
      EncodeFirstThree(b);
    } else {
      EncodeFirstFour(b);
    }
  }

  lemma EncodeFirstTwo(b: Bytes)
    requires |b| >= 2 && 0xC2 <= b[0] < 0xE0 && IsContinuation(b[1])
    ensures EncodeChar(DecodeFirst(b).value.0) == b[..2]
  {
    var x, z := b[0] as int - 0xC0, b[1] as int - 0x80;
    Group(x, z);
    var n := x * 0x40 + z;
    assert DecodeFirst(b) == Some((n as char, 2));
    assert EncodeChar(n as char) == [b[0], b[1]];
  }

  lemma EncodeFirstThree(b: Bytes)
    requires |b| >= 3 && 0xE0 <= b[0] < 0xF0 && IsContinuation(b[1]) && IsContinuation(b[2])
    requires DecodeFirst(b).Some?
    ensures EncodeChar(DecodeFirst(b).value.0) == b[..3]
  {
    var x, y, z := b[0] as int - 0xE0, b[1] as int - 0x80, b[2] as int - 0x80;
    var m := x * 0x40 + y;
    var n := m * 0x40 + z;
    Group(x, y);
    Group(m, z);
    assert n == x * 0x1000 + y * 0x40 + z;
    assert n / 0x1000 == x by {
      assert n / 0x40 == m;
      DivTwice(n);
    }
    assert DecodeFirst(b) == Some((n as char, 3));
    assert EncodeChar(n as char) == [b[0], b[1], b[2]];
  }

  lemma EncodeFirstFour(b: Bytes)
    requires |b| >= 4 && 0xF0 <= b[0] < 0xF5
    requires IsContinuation(b[1]) && IsContinuation(b[2]) && IsContinuation(b[3])
    requires DecodeFirst(b).Some?
    ensures EncodeChar(DecodeFirst(b).value.0) == b[..4]
  {
    var w, x, y, z := b[0] as int - 0xF0, b[1] as int - 0x80, b[2] as int - 0x80, b[3] as int - 0x80;
    var l := w * 0x40 + x;
    var m := l * 0x40 + y;
    var n := m * 0x40 + z;
    Group(w, x);
    Group(l, y);
    Group(m, z);
    assert n == w * 0x4_0000 + x * 0x1000 + y * 0x40 + z;
    assert n / 0x1000 == l by {
      assert n / 0x40 == m;
      DivTwice(n);
    }
    assert n / 0x4_0000 == w by {
      DivThrice(n);
    }
    assert DecodeFirst(b) == Some((n as char, 4));
    assert EncodeChar(n as char) == [b[0], b[1], b[2], b[3]];
  }

  /** Appending a six-bit group: dividing by 64 and taking the remainder undo it. */
  lemma Group(q: int, r: int)
    requires 0 <= q && 0 <= r < 0x40
    ensures (q * 0x40 + r) / 0x40 == q && (q * 0x40 + r) % 0x40 == r
  {
  }

  lemma DivTwice(n: nat)
    ensures n / 0x40 / 0x40 == n / 0x1000
  {
    var q1 := n / 0x40;
    var q2 := q1 / 0x40;
    assert n == q1 * 0x40 + n % 0x40;
    assert q1 == q2 * 0x40 + q1 % 0x40;
  }

  lemma DivThrice(n: nat)
    ensures n / 0x40 / 0x40 / 0x40 == n / 0x4_0000
  {
    var q1 := n / 0x40;
    var q2 := q1 / 0x40;
    var q3 := q2 / 0x40;
    assert n == q1 * 0x40 + n % 0x40;
    assert q1 == q2 * 0x40 + q1 % 0x40;
    assert q2 == q3 * 0x40 + q2 % 0x40;
  }

  /** A successful decode is the first character followed by the decode of the rest. */
  lemma DecodeCons(b: Bytes)
    requires b != [] && Decode(b).Some?
    ensures DecodeFirst(b).Some?
    ensures Decode(b[DecodeFirst(b).value.1..]).Some?
    ensures Decode(b).value == [DecodeFirst(b).value.0] + Decode(b[DecodeFirst(b).value.1..]).value
  {
  }

  /** Bytes that split into a character's encoding and a text's encoding encode the two joined. */
  lemma EncodeCons(b: Bytes, k: nat, c: char, t: string)
    requires k <= |b| && EncodeChar(c) == b[..k] && Encode(t) == b[k..]
    ensures Encode([c] + t) == b
  {
    var s := [c] + t;
    assert s[0] == c && s[1..] == t;
    assert Encode(s) == EncodeChar(c) + Encode(t);
    assert b[..k] + b[k..] == b;
  }

  /**
    The other direction of the round trip: whatever `from_utf8` accepts is
    exactly the encoding of the text it returns.
  */
  lemma {:induction false} EncodeDecode(b: Bytes)
    requires Decode(b).Some?
    ensures Encode(Decode(b).value) == b
    decreases |b|
  {
    if b != [] {
      DecodeCons(b);
      var c, k := DecodeFirst(b).value.0, DecodeFirst(b).value.1;
      var rest := Decode(b[k..]).value;
      EncodeDecode(b[k..]);
      EncodeFirst(b);
      EncodeCons(b, k, c, rest);
    }
  }
}
