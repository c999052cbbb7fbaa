/**
  The unsigned varint of the multiformats project (LEB128-style: seven value
  bits per byte, least significant group first, the high bit set on every byte
  but the last), as the `unsigned-varint` crate's `encode::u64` and
  `decode::u64` compute it. filecoin_spec uses the pair to turn a storage
  provider id into a prover id and back. The crate itself is not part of this
  model's source; its two routines are modelled here.
*/
module UnsignedVarint {
  import opened Ints
  import opened Wrappers

  /** Length of `encode::u64_buffer()`: room for any 64-bit value. */
  const U64_LEN: nat := 10

  /** Index of the last byte `decode::u64` reads before reporting Overflow. */
  const MAX_INDEX: nat := 9

  function Pow128(k: nat): (r: nat)
    ensures r >= 1
  {
    if k == 0 then 1 else 128 * Pow128(k - 1)
  }

  lemma Pow128Ten()
    ensures Pow128(U64_LEN) == 0x40_0000_0000_0000_0000  // 2^70
  {
    assert Pow128(1) == 0x80;
    assert Pow128(2) == 0x4000;
    assert Pow128(3) == 0x20_0000;
    assert Pow128(4) == 0x1000_0000;
    assert Pow128(5) == 0x8_0000_0000;
    assert Pow128(6) == 0x400_0000_0000;
    assert Pow128(7) == 0x2_0000_0000_0000;
    assert Pow128(8) == 0x100_0000_0000_0000;
    assert Pow128(9) == 0x8000_0000_0000_0000;
  }

  /** The canonical (minimal) encoding of `n`. */
  function Varint(n: nat): (r: Bytes)
    ensures |r| >= 1
  {
    if n < 128 then [n as u8] else [(n % 128 + 128) as u8] + Varint(n / 128)
  }

  /** Values below 128^k take at most k bytes. */
  lemma {:induction false} VarintLength(n: nat, k: nat)
    requires 1 <= k && n < Pow128(k)
    ensures |Varint(n)| <= k
  {
    if n >= 128 {
      assert Pow128(1) == 128;
      assert k >= 2;
      assert n / 128 < Pow128(k - 1);
      VarintLength(n / 128, k - 1);
    }
  }

  /** Every u64 fits the ten-byte buffer. */
  lemma VarintFits(n: u64)
    ensures |Varint(n as nat)| <= U64_LEN
  {
    Pow128Ten();
    VarintLength(n as nat, U64_LEN);
  }

  /**
    `encode::u64(number, &mut buf)`: each byte takes the low seven bits of `n`,
    `n` is shifted right by seven, and the byte keeps its continuation bit
    (`| 0x80`) unless nothing is left; the filled prefix of the buffer is
    returned.
  */
  method EncodeU64(number: u64) returns (encoded: Bytes)
    ensures encoded == Varint(number as nat)
    ensures 1 <= |encoded| <= U64_LEN
  {
    var buf := new u8[U64_LEN](_ => 0);
    var n: nat := number as nat;
    var i: nat := 0;
    VarintFits(number);
    while true
      invariant i + |Varint(n)| <= U64_LEN
      invariant buf[..i] + Varint(n) == Varint(number as nat)
      decreases U64_LEN - i
    {
      var group := n % 128;
      if n / 128 == 0 {
        buf[i] := group as u8;
        assert buf[..i + 1] == buf[..i] + Varint(n);
        break;
      }
      ghost var before := buf[..i];
      buf[i] := (group + 128) as u8;
      assert buf[..i + 1] == before + [(group + 128) as u8];
      VarintStep(before, n);
      n := n / 128;
      i := i + 1;
    }
    encoded := buf[..i + 1];
  }

  /** The encoder's step: the low group with the continuation bit, then the encoding of the rest. */
  lemma VarintStep(written: Bytes, n: nat)
    requires n >= 128
    ensures written + [(n % 128 + 128) as u8] + Varint(n / 128) == written + Varint(n)
    ensures |Varint(n)| == 1 + |Varint(n / 128)|
  {
    assert Varint(n) == [(n % 128 + 128) as u8] + Varint(n / 128);
  }

  datatype DecodeError = Insufficient | Overflow | NotMinimal

  /**
    `decode::u64`: the value and the bytes after its last byte. Groups occupy
    disjoint bits, so `n |= k << (7 * i)` adds them up; the tenth group's shift
    by 63 keeps only its lowest bit, which is the final reduction modulo 2^64.
  */
  function DecodeU64(buf: Bytes): (r: Result<(u64, Bytes), DecodeError>)
    ensures r.Ok? ==> 1 <= |buf| - |r.value.1| <= U64_LEN && r.value.1 == buf[|buf| - |r.value.1|..]
  {
    match DecodeFrom(buf, 0)
    case Ok((v, rest)) => Ok(((v % U64_LIMIT) as u64, rest))
    case Err(e) => Err(e)
  }

  /**
    The decoder's loop from byte index `i` on, where `rest` is what is left of
    the input: the unreduced value of the groups from here on, least
    significant first, and what follows the last byte.
  */
  function DecodeFrom(rest: Bytes, i: nat): (r: Result<(nat, Bytes), DecodeError>)
    requires i <= MAX_INDEX
    ensures r.Ok? ==> 1 <= |rest| - |r.value.1| <= U64_LEN - i && r.value.1 == rest[|rest| - |r.value.1|..]
    decreases |rest|
  {
    if rest == [] then Err(Insufficient)
    else
      var b := rest[0];
      if b < 128 then
        if b == 0 && i > 0 then Err(NotMinimal)
        else Ok((b as nat, rest[1..]))
      else if i == MAX_INDEX then Err(Overflow)
      else
        match DecodeFrom(rest[1..], i + 1)
        case Ok((v, after)) => Ok(((b as nat - 128) + 128 * v, after))
        case Err(e) => Err(e)
  }

  /** Decoding an encoding that starts at byte index `i` gives its value back. */
  lemma {:induction false} DecodeVarintFrom(m: nat, i: nat, rest: Bytes)
    requires i + |Varint(m)| <= U64_LEN
    requires i > 0 ==> m > 0
    ensures DecodeFrom(Varint(m) + rest, i) == Ok((m, rest))
    decreases m
  {
    var buf := Varint(m) + rest;
    if m < 128 {
      assert buf[0] == m as u8 && buf[1..] == rest;
    } else {
      var b := (m % 128 + 128) as u8;
      assert Varint(m) == [b] + Varint(m / 128);
      assert buf[0] == b;
      assert buf[1..] == Varint(m / 128) + rest;
      DecodeVarintFrom(m / 128, i + 1, rest);
    }
  }

  /** Round trip: the decoder returns exactly the encoded value, and leaves what follows untouched. */
  lemma DecodeEncoded(n: u64, rest: Bytes)
    ensures DecodeU64(Varint(n as nat) + rest) == Ok((n, rest))
  {
    VarintFits(n);
    DecodeVarintFrom(n as nat, 0, rest);
    ModBelow(n as nat, U64_LIMIT);
  }

  lemma ModBelow(x: nat, m: nat)
    requires x < m
    ensures x % m == x
  {
  }

  /** Bytes after the terminating byte are never read: appending to the input only extends the remainder. */
  lemma {:induction false} DecodeFromIgnoresTrailing(buf: Bytes, i: nat, extra: Bytes)
    requires i <= MAX_INDEX && DecodeFrom(buf, i).Ok?
    ensures DecodeFrom(buf + extra, i) == Ok((DecodeFrom(buf, i).value.0, DecodeFrom(buf, i).value.1 + extra))
    decreases |buf|
  {
    assert (buf + extra)[0] == buf[0];
    assert (buf + extra)[1..] == buf[1..] + extra;
    if buf[0] >= 128 {
      DecodeFromIgnoresTrailing(buf[1..], i + 1, extra);
    }
  }

  lemma DecodeIgnoresTrailing(buf: Bytes, extra: Bytes)
    requires DecodeU64(buf).Ok?
    ensures DecodeU64(buf + extra) == Ok((DecodeU64(buf).value.0, DecodeU64(buf).value.1 + extra))
  {
    DecodeFromIgnoresTrailing(buf, 0, extra);
  }

  /** The bytes the decoder consumed decode, on their own, to the same value with nothing left over. */
  lemma {:induction false} DecodeFromPrefix(buf: Bytes, i: nat)
    requires i <= MAX_INDEX && DecodeFrom(buf, i).Ok?
    ensures var k := |buf| - |DecodeFrom(buf, i).value.1|;
      DecodeFrom(buf[..k], i) == Ok((DecodeFrom(buf, i).value.0, []))
    decreases |buf|
  {
    var r := DecodeFrom(buf, i);
    var k := |buf| - |r.value.1|;
    var p := buf[..k];
    assert p[0] == buf[0];
    if buf[0] >= 128 {
      DecodeFromPrefix(buf[1..], i + 1);
      assert p[1..] == buf[1..][..k - 1];
    } else {
      assert r.value.1 == buf[1..];
      assert p == [buf[0]];
    }
  }

  lemma DecodePrefix(buf: Bytes)
    requires DecodeU64(buf).Ok?
    ensures var k := |buf| - |DecodeU64(buf).value.1|;
      DecodeU64(buf[..k]) == Ok((DecodeU64(buf).value.0, []))
  {
    DecodeFromPrefix(buf, 0);
  }
}
