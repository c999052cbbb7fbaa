/**
  The padded base64 encoding of section 4 of RFC 4648 (standard alphabet,
  '=' padding), the wire form of tickets, commitments and job outputs.
*/
module Base64 {
  import opened Ints

  /** The standard alphabet: A-Z, a-z, 0-9, '+', '/' for the values 0 to 63. */
  function Digit(v: int): (c: char)
    requires 0 <= v < 64
    ensures c != '='
  {
    if v < 26 then ('A' as int + v) as char
    else if v < 52 then ('a' as int + v - 26) as char
    else if v < 62 then ('0' as int + v - 52) as char
    else if v == 62 then '+'
    else '/'
  }

  /** Each group of three bytes becomes four characters; a final one or two bytes are padded with '='. */
  function Encode(b: Bytes): (s: string)
    ensures |s| == 4 * ((|b| + 2) / 3)
    decreases |b|
  {
    if |b| == 0 then ""
    else
      var x := b[0] as int;
      assert 0 <= x < 256;
      if |b| == 1 then
        [Digit(x / 4), Digit((x % 4) * 16), '=', '=']
      else
        var y := b[1] as int;
        assert 0 <= y < 256;
        if |b| == 2 then
          [Digit(x / 4), Digit((x % 4) * 16 + y / 16), Digit((y % 16) * 4), '=']
        else
          var z := b[2] as int;
          assert 0 <= z < 256;
          assert (|b| + 2) / 3 == (|b[3..]| + 2) / 3 + 1;
          [Digit(x / 4), Digit((x % 4) * 16 + y / 16), Digit((y % 16) * 4 + z / 64), Digit(z % 64)]
          + Encode(b[3..])
  }

  function Repeat(s: string, k: nat): string
  {
    if k == 0 then "" else s + Repeat(s, k - 1)
  }

  lemma {:induction false} RepeatSum(s: string, a: nat, b: nat)
    ensures Repeat(s, a + b) == Repeat(s, a) + Repeat(s, b)
  {
    if a > 0 {
      RepeatSum(s, a - 1, b);
    }
  }

  /** Three bytes of 0x01 encode as "AQEB". */
  lemma EncodeOnesGroup(b: Bytes)
    requires |b| >= 3 && b[0] == 1 && b[1] == 1 && b[2] == 1
    ensures Encode(b) == "AQEB" + Encode(b[3..])
  {
    var x, y, z := b[0] as int, b[1] as int, b[2] as int;
    assert Encode(b) == [Digit(x / 4), Digit((x % 4) * 16 + y / 16), Digit((y % 16) * 4 + z / 64), Digit(z % 64)]
                        + Encode(b[3..]);
    assert x / 4 == 0 && (x % 4) * 16 + y / 16 == 16 && (y % 16) * 4 + z / 64 == 4 && z % 64 == 1;
    assert Digit(0) == 'A' && Digit(16) == 'Q' && Digit(4) == 'E' && Digit(1) == 'B';
  }

  /** Two bytes of 0x01 encode as "AQE=". */
  lemma EncodeOnesTail(b: Bytes)
    requires |b| == 2 && b[0] == 1 && b[1] == 1
    ensures Encode(b) == "AQE="
  {
    assert Digit(0) == 'A' && Digit(16) == 'Q' && Digit(4) == 'E';
  }

  /** 3k + 2 bytes of 0x01 encode as k copies of "AQEB" and the padded tail "AQE=". */
  lemma {:induction false} EncodeOnes(b: Bytes)
    requires |b| % 3 == 2
    requires forall i :: 0 <= i < |b| ==> b[i] == 1
    ensures Encode(b) == Repeat("AQEB", |b| / 3) + "AQE="
    decreases |b|
  {
    if |b| == 2 {
      EncodeOnesTail(b);
    } else {
      var k := |b| / 3;
      var tail := b[3..];
      assert |tail| / 3 == k - 1;
      EncodeOnesGroup(b);
      EncodeOnes(tail);
      var r := Repeat("AQEB", k - 1);
      assert Repeat("AQEB", k) == "AQEB" + r;
      assert "AQEB" + r + "AQE=" == "AQEB" + (r + "AQE=");
    }
  }
}
