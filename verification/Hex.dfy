// Package encoding/hex, used both for virtual IDs and for the parts of a login token.
module Hex {
  import opened Wrappers

  newtype byte = b: int | 0 <= b < 256

  const DIGITS := "0123456789abcdef"

  function Pair(b: byte): string
  {
    [DIGITS[b as int / 16], DIGITS[b as int % 16]]
  }

  function Encode(data: seq<byte>): (text: string)
    ensures |text| == 2 * |data|
  {
    if data == [] then [] else Pair(data[0]) + Encode(data[1..])
  }

  // Both letter cases are read, as hex.DecodeString does.
  function Nibble(c: char): Option<int>
  {
    if '0' <= c <= '9' then Some(c as int - '0' as int)
    else if 'a' <= c <= 'f' then Some(c as int - 'a' as int + 10)
    else if 'A' <= c <= 'F' then Some(c as int - 'A' as int + 10)
    else None
  }

  lemma NibbleRange(c: char)
    ensures Nibble(c).Some? ==> 0 <= Nibble(c).value < 16
  {}

  // None stands for the decoder's error: an odd length or a character that is not a hex digit.
  function Decode(text: string): Option<seq<byte>>
  {
    if text == [] then Some([])
    else if |text| == 1 then None
    else
      match (Nibble(text[0]), Nibble(text[1]), Decode(text[2..]))
      case (Some(hi), Some(lo), Some(rest)) =>
        NibbleRange(text[0]);
        NibbleRange(text[1]);
        Some([(16 * hi + lo) as byte] + rest)
      case _ => None
  }

  lemma DigitNibble(d: nat)
    requires d < 16
    ensures Nibble(DIGITS[d]) == Some(d)
  {
    if d < 10 {
      assert DIGITS[d] as int == '0' as int + d;
    } else {
      assert DIGITS[d] as int == 'a' as int + (d - 10);
    }
  }

  lemma {:induction false} EncodeIsHex(data: seq<byte>)
    ensures forall c | c in Encode(data) :: '0' <= c <= '9' || 'a' <= c <= 'f'
  {
    if data != [] {
      EncodeIsHex(data[1..]);
    }
  }

  lemma {:induction false} EncodeConcat(a: seq<byte>, b: seq<byte>)
    ensures Encode(a + b) == Encode(a) + Encode(b)
  {
    if a == [] {
      assert a + b == b;
    } else {
      assert (a + b)[0] == a[0] && (a + b)[1..] == a[1..] + b;
      EncodeConcat(a[1..], b);
      EncodeHead(a + b);
      EncodeHead(a);
    }
  }

  lemma EncodeHead(data: seq<byte>)
    requires data != []
    ensures Encode(data) == Pair(data[0]) + Encode(data[1..])
  {}

  // One encoded byte is read back, and what follows it after it.
  lemma DecodeHead(b: byte, text: string)
    ensures Decode(Pair(b) + text) == match Decode(text) case Some(rest) => Some([b] + rest) case None => None
  {
    var whole := Pair(b) + text;
    assert whole[2..] == text;
    DigitNibble(b as int / 16);
    DigitNibble(b as int % 16);
  }

  // Decoding undoes encoding.
  lemma {:induction false} RoundTrip(data: seq<byte>)
    ensures Decode(Encode(data)) == Some(data)
  {
    if data != [] {
      RoundTrip(data[1..]);
      EncodeHead(data);
      DecodeHead(data[0], Encode(data[1..]));
      assert [data[0]] + data[1..] == data;
    }
  }
}
