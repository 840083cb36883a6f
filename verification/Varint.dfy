/** Variable length integers, as in section 16 of RFC 9000: the two top bits of the first byte
    give the length, one, two, four or eight bytes, and the others the value, most significant
    byte first. */
module Varint {
  import opened Media

  type Int62 = v: nat | v < 0x4000_0000_0000_0000

  // ----- Numbers as bytes -----

  function Power(n: nat): (p: nat)
    ensures p > 0
  {
    if n == 0 then 1 else 256 * Power(n - 1)
  }

  lemma Powers()
    ensures Power(0) == 1 && Power(1) == 0x100 && Power(2) == 0x1_0000 && Power(3) == 0x100_0000
    ensures Power(4) == 0x1_0000_0000 && Power(7) == 0x100_0000_0000_0000 && Power(8) == 0x1_0000_0000_0000_0000
  {
    assert Power(2) == 256 * Power(1) && Power(3) == 256 * Power(2) && Power(4) == 256 * Power(3);
    assert Power(5) == 256 * Power(4) && Power(6) == 256 * Power(5) && Power(7) == 256 * Power(6);
  }

  /** v in n bytes, most significant first. */
  function Big(v: nat, n: nat): (bs: seq<Byte>)
    requires v < Power(n)
    ensures |bs| == n
  {
    if n == 0 then []
    else
      DivMod(v, Power(n - 1));
      [v / Power(n - 1)] + Big(v % Power(n - 1), n - 1)
  }

  lemma DivMod(v: nat, p: nat)
    requires p > 0 && v < 256 * p
    ensures 0 <= v / p < 256 && 0 <= v % p < p && v == (v / p) * p + v % p
  {
    assert v == p * (v / p) + v % p;
  }

  function Value(bs: seq<Byte>): nat {
    if bs == [] then 0 else bs[0] * Power(|bs| - 1) + Value(bs[1..])
  }

  lemma {:induction false} ValueOfBig(v: nat, n: nat)
    requires v < Power(n)
    ensures Value(Big(v, n)) == v
  {
    if n > 0 {
      DivMod(v, Power(n - 1));
      ValueOfBig(v % Power(n - 1), n - 1);
      assert Big(v, n)[1..] == Big(v % Power(n - 1), n - 1);
    }
  }

  // ----- The integers of the protocol -----

  /** Two to the tag is the length. */
  function Tag(v: Int62): (t: nat)
    ensures t < 4
  {
    if v < 64 then 0 else if v < 0x4000 then 1 else if v < 0x4000_0000 then 2 else 3
  }

  function LengthOf(tag: nat): nat
    requires tag < 4
  {
    if tag == 0 then 1 else if tag == 1 then 2 else if tag == 2 then 4 else 8
  }

  /** picoquic_frames_varint_encode_length. */
  function Size(v: Int62): nat {
    LengthOf(Tag(v))
  }

  /** What the tag adds to the value. */
  function Mark(tag: nat): nat
    requires tag < 4
  {
    tag * 64 * Power(LengthOf(tag) - 1)
  }

  lemma MarkedFits(v: Int62)
    ensures Mark(Tag(v)) + v < Power(Size(v))
    ensures (Mark(Tag(v)) + v) / Power(Size(v) - 1) / 64 == Tag(v)
  {
    Powers();
  }

  function Encode(v: Int62): (bs: seq<Byte>)
    ensures |bs| == Size(v)
  {
    MarkedFits(v);
    Big(Mark(Tag(v)) + v, Size(v))
  }

  /** An integer and what follows it, unless the bytes end too early. */
  function Decode(bs: seq<Byte>): Option<(Int62, seq<Byte>)> {
    if bs == [] then None
    else
      var tag := bs[0] / 64;
      var n := LengthOf(tag);
      if |bs| < n then None
      else
        var v := Value(bs[..n]);
        ValueFits(bs[..n]);
        Some((v - Mark(tag), bs[n..]))
  }

  lemma {:induction false} ValueBelow(bs: seq<Byte>)
    ensures Value(bs) < Power(|bs|)
  {
    if bs != [] {
      ValueBelow(bs[1..]);
      Digit(bs[0], Power(|bs| - 1), Value(bs[1..]));
    }
  }

  lemma Digit(b: Byte, p: nat, low: nat)
    requires low < p
    ensures b * p + low < 256 * p
  {
    assert b * p <= 255 * p;
  }

  lemma ValueFits(bs: seq<Byte>)
    requires bs != [] && |bs| == LengthOf(bs[0] / 64)
    ensures 0 <= Value(bs) - Mark(bs[0] / 64) < 0x4000_0000_0000_0000
  {
    Powers();
    ValueBelow(bs[1..]);
  }

  lemma RoundTrip(v: Int62, rest: seq<Byte>)
    ensures Decode(Encode(v) + rest) == Some((v, rest))
  {
    var bs := Encode(v) + rest;
    MarkedFits(v);
    ValueOfBig(Mark(Tag(v)) + v, Size(v));
    assert bs[..Size(v)] == Encode(v) && bs[Size(v)..] == rest;
    assert bs[0] == (Mark(Tag(v)) + v) / Power(Size(v) - 1);
  }

  /** More bytes at the end change nothing but the rest. */
  lemma Stable(bs: seq<Byte>, more: seq<Byte>)
    requires Decode(bs).Some?
    ensures Decode(bs + more) == Some((Decode(bs).value.0, Decode(bs).value.1 + more))
  {
    var n := LengthOf(bs[0] / 64);
    assert (bs + more)[..n] == bs[..n] && (bs + more)[n..] == bs[n..] + more;
  }
}
