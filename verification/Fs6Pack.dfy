/**
 Packing of the downlink soft bits, one bit per byte, for the FS6 split: `fs6Dlpack` works on 16 bytes
 at a time with SIMD operations, `fs6Dlunpack` byte by byte with a lookup table.
 */
module Fs6Pack {

  /** `ceil16_bytes`: packed bytes for n bits, padded to 16 bits. */
  function Ceil16Bytes(n: nat): nat { (n + 15) / 16 * 16 / 8 }

  // ---- The SIMD operations, on 16 lanes numbered from the lowest ----

  /** `_mm_cmpgt_epi8` against zero, on the 16 signed bytes from offset o on. */
  function GreaterZero(x: seq<int>, o: nat): seq<bool>
    requires o + 16 <= |x|
  {
    seq(16, (i: nat) requires i < 16 => x[o + i] > 0)
  }

  /** The shuffle mask, from lane 0 up. */
  const SHUFFLE: seq<nat> := [7, 6, 5, 4, 3, 2, 1, 0, 15, 14, 13, 12, 11, 10, 9, 8]

  function ShuffleLanes(l: seq<bool>): seq<bool>
    requires |l| == 16
  {
    seq(16, (i: nat) requires i < 16 => l[SHUFFLE[i]])
  }

  /** Bits o to o + 7 of `_mm_movemask_epi8`: bit i is lane i. */
  function MaskByte(l: seq<bool>, o: nat): bv8
    requires o + 8 <= |l|
  {
    (if l[o] then 1 else 0) | (if l[o + 1] then 2 else 0) | (if l[o + 2] then 4 else 0) | (if l[o + 3] then 8 else 0)
    | (if l[o + 4] then 16 else 0) | (if l[o + 5] then 32 else 0)
    | (if l[o + 6] then 64 else 0) | (if l[o + 7] then 128 else 0)
  }

  /** One entry of the lookup table: element 7 - j is bit j. */
  function Lut(v: bv8): seq<bv8> {
    [(v >> 7) & 1, (v >> 6) & 1, (v >> 5) & 1, (v >> 4) & 1, (v >> 3) & 1, (v >> 2) & 1, (v >> 1) & 1, v & 1]
  }

  // ---- Specification: bytes of eight bits, first bit highest ----

  /** The byte that holds the signs of the eight values from offset o on. */
  function PackedByte(x: seq<int>, o: nat): bv8
    requires o + 8 <= |x|
  {
    (if x[o] > 0 then 128 else 0) | (if x[o + 1] > 0 then 64 else 0)
    | (if x[o + 2] > 0 then 32 else 0) | (if x[o + 3] > 0 then 16 else 0)
    | (if x[o + 4] > 0 then 8 else 0) | (if x[o + 5] > 0 then 4 else 0)
    | (if x[o + 6] > 0 then 2 else 0) | (if x[o + 7] > 0 then 1 else 0)
  }

  /** The first n packed bytes. */
  function Packed(x: seq<int>, n: nat): (p: seq<bv8>)
    requires 8 * n <= |x|
    ensures |p| == n && IsPacking(x, p)
  {
    seq(n, (i: nat) requires i < n => PackedByte(x, 8 * i))
  }

  ghost predicate IsPacking(x: seq<int>, p: seq<bv8>) {
    8 * |p| <= |x| && forall i :: 0 <= i < |p| ==> p[i] == PackedByte(x, 8 * i)
  }

  /** Comparing, reversing the lanes of each half and taking the mask yields the two packed bytes. */
  lemma SimdPacks(x: seq<int>, o: nat)
    requires o + 16 <= |x|
    ensures var l := ShuffleLanes(GreaterZero(x, o));
            MaskByte(l, 0) == PackedByte(x, o) && MaskByte(l, 8) == PackedByte(x, o + 8)
  {
    var l := ShuffleLanes(GreaterZero(x, o));
    HalfPacks(x, o, l, 0);
    HalfPacks(x, o + 8, l, 8);
  }

  lemma HalfPacks(x: seq<int>, o: nat, l: seq<bool>, h: nat)
    requires o + 8 <= |x| && h + 8 <= |l|
    requires l[h] == (x[o + 7] > 0) && l[h + 1] == (x[o + 6] > 0)
    requires l[h + 2] == (x[o + 5] > 0) && l[h + 3] == (x[o + 4] > 0)
    requires l[h + 4] == (x[o + 3] > 0) && l[h + 5] == (x[o + 2] > 0)
    requires l[h + 6] == (x[o + 1] > 0) && l[h + 7] == (x[o] > 0)
    ensures MaskByte(l, h) == PackedByte(x, o)
  {
  }

  /** `fs6Dlpack`: two packed bytes per round, the low byte of the mask first. */
  method Pack(x: seq<int>, szUnpacked: nat) returns (out: seq<bv8>)
    requires 8 * Ceil16Bytes(szUnpacked) <= |x|
    ensures |out| == Ceil16Bytes(szUnpacked) && IsPacking(x, out) && out == Packed(x, Ceil16Bytes(szUnpacked))
  {
    out := [];
    var rounds := Ceil16Bytes(szUnpacked) / 2;
    for i := 0 to rounds
      invariant |out| == 2 * i && IsPacking(x, out)
    {
      SimdPacks(x, 16 * i);
      var lanes := ShuffleLanes(GreaterZero(x, 16 * i));
      TwoMorePacked(x, out, MaskByte(lanes, 0), MaskByte(lanes, 8));
      out := out + [MaskByte(lanes, 0), MaskByte(lanes, 8)];
    }
    PackingUnique(x, out, Packed(x, Ceil16Bytes(szUnpacked)));
  }

  lemma TwoMorePacked(x: seq<int>, p: seq<bv8>, a: bv8, b: bv8)
    requires IsPacking(x, p) && 8 * |p| + 16 <= |x| && a == PackedByte(x, 8 * |p|) && b == PackedByte(x, 8 * |p| + 8)
    ensures IsPacking(x, p + [a, b])
  {
  }

  lemma PackingUnique(x: seq<int>, p: seq<bv8>, p': seq<bv8>)
    requires IsPacking(x, p) && IsPacking(x, p') && |p| == |p'|
    ensures p == p'
  {
  }

  ghost predicate IsUnpacking(p: seq<bv8>, x: seq<bv8>) {
    |x| == 8 * |p| && forall i :: 0 <= i < |p| ==> x[8 * i..8 * i + 8] == Lut(p[i])
  }

  /** `fs6Dlunpack`: eight bytes per packed byte. */
  method Unpack(p: seq<bv8>, szUnpacked: nat) returns (out: seq<bv8>)
    requires Ceil16Bytes(szUnpacked) <= |p|
    ensures IsUnpacking(p[..Ceil16Bytes(szUnpacked)], out) && out == Expanded(p[..Ceil16Bytes(szUnpacked)])
  {
    out := [];
    var sz := Ceil16Bytes(szUnpacked);
    for i := 0 to sz
      invariant IsUnpacking(p[..i], out)
    {
      UnpackOneMore(p, i, out);
      out := out + Lut(p[i]);
    }
    ExpandedIsUnpacking(p[..sz]);
    UnpackingUnique(p[..sz], out, Expanded(p[..sz]));
  }

  /** Eight elements per packed byte. */
  function Expanded(p: seq<bv8>): (x: seq<bv8>)
    ensures |x| == 8 * |p|
  {
    seq(8 * |p|, (j: nat) requires j < 8 * |p| => Lut(p[j / 8])[j % 8])
  }

  lemma ExpandedAt(p: seq<bv8>, i: nat, k: nat)
    requires i < |p| && k < 8
    ensures Expanded(p)[8 * i + k] == Lut(p[i])[k]
  {
    assert (8 * i + k) / 8 == i && (8 * i + k) % 8 == k;
  }

  lemma ExpandedIsUnpacking(p: seq<bv8>)
    ensures IsUnpacking(p, Expanded(p))
  {
    var x := Expanded(p);
    forall i | 0 <= i < |p| ensures x[8 * i..8 * i + 8] == Lut(p[i]) {
      var l, y := Lut(p[i]), x[8 * i..8 * i + 8];
      forall k | 0 <= k < 8 ensures y[k] == l[k] { ExpandedAt(p, i, k); }
      assert y == l;
    }
  }

  lemma UnpackingUnique(p: seq<bv8>, x: seq<bv8>, x': seq<bv8>)
    requires IsUnpacking(p, x) && IsUnpacking(p, x')
    ensures x == x'
  {
    forall j | 0 <= j < |x| ensures x[j] == x'[j] {
      var i, k := j / 8, j % 8;
      var y, y' := x[8 * i..8 * i + 8], x'[8 * i..8 * i + 8];
      assert y == Lut(p[i]) && y' == Lut(p[i]);
      assert 8 * i + k == j && y[k] == x[8 * i + k] && y'[k] == x'[8 * i + k];
    }
  }

  lemma UnpackOneMore(p: seq<bv8>, i: nat, x: seq<bv8>)
    requires i < |p| && IsUnpacking(p[..i], x)
    ensures IsUnpacking(p[..i + 1], x + Lut(p[i]))
  {
    var q, x' := p[..i + 1], x + Lut(p[i]);
    forall k | 0 <= k < |q| ensures x'[8 * k..8 * k + 8] == Lut(q[k]) {
      if k < i {
        assert x'[8 * k..8 * k + 8] == x[8 * k..8 * k + 8];
        assert x[8 * k..8 * k + 8] == Lut(p[..i][k]);
      } else {
        assert x'[8 * i..8 * i + 8] == Lut(p[i]);
      }
    }
  }

  // ---- Round trips ----

  lemma LutOfPacked(x: seq<int>, o: nat, k: nat)
    requires o + 8 <= |x| && k < 8
    ensures Lut(PackedByte(x, o))[k] == if x[o + k] > 0 then 1 else 0
  {
    var v := PackedByte(x, o);
    assert Lut(v)[0] == if x[o] > 0 then 1 else 0;
    assert Lut(v)[1] == if x[o + 1] > 0 then 1 else 0;
    assert Lut(v)[2] == if x[o + 2] > 0 then 1 else 0;
    assert Lut(v)[3] == if x[o + 3] > 0 then 1 else 0;
    assert Lut(v)[4] == if x[o + 4] > 0 then 1 else 0;
    assert Lut(v)[5] == if x[o + 5] > 0 then 1 else 0;
    assert Lut(v)[6] == if x[o + 6] > 0 then 1 else 0;
    assert Lut(v)[7] == if x[o + 7] > 0 then 1 else 0;
  }

  /** Packing, then unpacking: every byte becomes 1 if it was positive as a signed byte, else 0, over the
      whole padded length; bytes that were 0 or 1 come back unchanged. */
  lemma PackUnpack(x: seq<int>, p: seq<bv8>, out: seq<bv8>)
    requires IsPacking(x, p) && IsUnpacking(p, out)
    ensures forall j :: 0 <= j < |out| ==> out[j] == if x[j] > 0 then 1 else 0
    ensures forall j :: 0 <= j < |out| && (x[j] == 0 || x[j] == 1) ==> out[j] as int == x[j]
  {
    forall j | 0 <= j < |out| ensures out[j] == if x[j] > 0 then 1 else 0 {
      var i, k := j / 8, j % 8;
      assert out[8 * i..8 * i + 8][k] == out[j];
      LutOfPacked(x, 8 * i, k);
    }
  }

  lemma PackOfLut(x: seq<int>, o: nat, v: bv8, l: seq<bv8>)
    requires o + 8 <= |x| && l == Lut(v) && forall k :: 0 <= k < 8 ==> (l[k] == 1 <==> x[o + k] > 0)
    ensures PackedByte(x, o) == v
  {
    assert (x[o] > 0 <==> l[0] == 1) && (x[o + 1] > 0 <==> l[1] == 1);
    assert (x[o + 2] > 0 <==> l[2] == 1) && (x[o + 3] > 0 <==> l[3] == 1);
    assert (x[o + 4] > 0 <==> l[4] == 1) && (x[o + 5] > 0 <==> l[5] == 1);
    assert (x[o + 6] > 0 <==> l[6] == 1) && (x[o + 7] > 0 <==> l[7] == 1);
  }

  /** Unpacking, then packing, is the identity on packed bytes. */
  lemma UnpackPack(p: seq<bv8>, out: seq<bv8>, x: seq<int>, p': seq<bv8>)
    requires IsUnpacking(p, out) && |x| == |out| && forall j :: 0 <= j < |out| ==> (x[j] > 0 <==> out[j] == 1)
    requires IsPacking(x, p') && |p'| == |p|
    ensures p' == p
  {
    forall i | 0 <= i < |p| ensures p'[i] == p[i] {
      var l := out[8 * i..8 * i + 8];
      assert forall k :: 0 <= k < 8 ==> l[k] == out[8 * i + k];
      PackOfLut(x, 8 * i, p[i], l);
    }
  }

  /** `contentBytes` grows by exactly the bytes packed, and these cover all bits. */
  lemma PackedSize(n: nat)
    ensures 8 * Ceil16Bytes(n) >= n && 8 * Ceil16Bytes(n) < n + 16 && Ceil16Bytes(n) % 2 == 0
  {
  }
}
