/** Little-endian 32-bit words, the unit in which all metadata is stored on disk. */
module Codec {
  type byte = bv8

  const WORD_LIMIT: nat := 0x1_0000_0000

  function Zeros(n: nat): (z: seq<byte>)
    ensures |z| == n && forall i | 0 <= i < n :: z[i] == 0
  {
    seq(n, i => 0)
  }

  predicate Fits(ws: seq<nat>) {
    forall i | 0 <= i < |ws| :: ws[i] < WORD_LIMIT
  }

  /** The byte of value `x`, counted up from 0. */
  function ByteOf(x: nat): (b: byte)
    requires x < 256
    ensures b as nat == x
  {
    if x == 0 then 0 else ByteOf(x - 1) + 1
  }

  function WordBytes(w: nat): (bs: seq<byte>)
    requires w < WORD_LIMIT
    ensures |bs| == 4
  {
    [ByteOf(w % 256), ByteOf(w / 256 % 256), ByteOf(w / 65536 % 256), ByteOf(w / 16777216 % 256)]
  }

  function WordOf(bs: seq<byte>): (w: nat)
    requires |bs| == 4
  {
    bs[0] as nat + 256 * (bs[1] as nat) + 65536 * (bs[2] as nat) + 16777216 * (bs[3] as nat)
  }

  lemma Digits(w: nat)
    requires w < WORD_LIMIT
    ensures w == w % 256 + 256 * (w / 256 % 256) + 65536 * (w / 65536 % 256) + 16777216 * (w / 16777216 % 256)
  {
    var a := w / 256;
    var b := a / 256;
    var c := b / 256;
    assert b == w / 65536 && c == w / 16777216;
    assert c < 256;
  }

  lemma WordRoundTrip(w: nat)
    requires w < WORD_LIMIT
    ensures WordOf(WordBytes(w)) == w
  {
    Digits(w);
  }

  function Encode(ws: seq<nat>): (bs: seq<byte>)
    requires Fits(ws)
    ensures |bs| == 4 * |ws|
  {
    if ws == [] then [] else WordBytes(ws[0]) + Encode(ws[1..])
  }

  /** The first `n` words of a byte sequence. */
  function Decode(bs: seq<byte>, n: nat): (ws: seq<nat>)
    requires |bs| >= 4 * n
    ensures |ws| == n
  {
    if n == 0 then [] else [WordOf(bs[..4])] + Decode(bs[4..], n - 1)
  }

  /** Words survive a round trip, whatever padding follows them. */
  lemma {:induction false} RoundTrip(ws: seq<nat>, pad: seq<byte>)
    requires Fits(ws)
    ensures Decode(Encode(ws) + pad, |ws|) == ws
  {
    if ws != [] {
      var bs := Encode(ws) + pad;
      assert bs[..4] == WordBytes(ws[0]);
      assert bs[4..] == Encode(ws[1..]) + pad;
      WordRoundTrip(ws[0]);
      RoundTrip(ws[1..], pad);
    }
  }

  /** A block of zeros is an empty pointer table. */
  lemma {:induction false} DecodeZeros(bs: seq<byte>, n: nat)
    requires |bs| >= 4 * n
    requires forall i | 0 <= i < |bs| :: bs[i] == 0
    ensures forall i | 0 <= i < n :: Decode(bs, n)[i] == 0
  {
    if n > 0 {
      DecodeZeros(bs[4..], n - 1);
    }
  }
}
