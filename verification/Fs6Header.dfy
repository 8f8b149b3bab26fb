/**
 The second header of an FS6 datagram: the common part at the start of a content (PRACH results in
 uplink, DCI, PBCH and PHICH data in downlink).  The sender writes it into the first block of the zone; the
 receiver reads it from the first datagram that arrived.  `sendSubFrame` is meant to copy it into all
 blocks but copies each common part onto itself.
 */
module Fs6Header {
  import opened Fs6Zone
  import opened Fs6Transport
  import opened Fs6Uplink
  import opened Fs6Link

  /** What the receiver of a zone takes for the common part. */
  function CommonPart(z: seq<Byte>, common: nat): seq<Byte>
    requires HEADER + common <= |z|
  {
    z[HEADER..HEADER + common]
  }

  /** At least one of n datagrams arrived, in the order of the given numbers. */
  ghost predicate Delivery(order: seq<nat>, n: nat) {
    order != [] && forall k :: 0 <= k < |order| ==> order[k] < n
  }

  /** What `SendSubFrame` guarantees of the datagrams of a subframe, all with a common part. */
  ghost predicate SentAs(ds: seq<seq<Byte>>, bodies: seq<seq<Byte>>, stamp: seq<Byte>, contentType: nat, common: nat) {
    && |stamp| == 8 && |ds| == |bodies| && CarryAll(ds, stamp, |bodies|, contentType, bodies)
    && forall k :: 0 <= k < |bodies| ==> common <= |bodies[k]|
  }

  /** The receiver reads the common part of the block that arrived first. */
  lemma FirstArrivalDecides(ds: seq<seq<Byte>>, bodies: seq<seq<Byte>>, stamp: seq<Byte>, contentType: nat,
                            common: nat, order: seq<nat>)
    requires SentAs(ds, bodies, stamp, contentType, common) && Delivery(order, |ds|)
    ensures var z := Concat(Picked(ds, order));
            HEADER + common <= |z| && CommonPart(z, common) == bodies[order[0]][..common]
  {
    var d, body := ds[order[0]], bodies[order[0]];
    CarriedWhole(ds, bodies, stamp, contentType, order[0]);
    var z := Concat(Picked(ds, order));
    assert Picked(ds, order)[0] == d;
    assert z == d + Concat(Picked(ds, order)[1..]);
    PrefixSlice(d, Concat(Picked(ds, order)[1..]), HEADER, HEADER + |body|, common);
  }

  lemma PrefixSlice(d: seq<Byte>, rest: seq<Byte>, lo: nat, hi: nat, n: nat)
    requires lo + n <= hi <= |d|
    ensures (d + rest)[lo..lo + n] == d[lo..hi][..n]
  {
    var a, b := (d + rest)[lo..lo + n], d[lo..hi];
    forall k | 0 <= k < n ensures a[k] == b[k] { assert a[k] == d[lo + k]; }
  }

  /** The receiver of this delivery reads the common part that the sender wrote into the first block. */
  ghost predicate HeaderArrives(ds: seq<seq<Byte>>, order: seq<nat>, common: nat, header: seq<Byte>) {
    Delivery(order, |ds|)
    && var z := Concat(Picked(ds, order)); HEADER + common <= |z| && CommonPart(z, common) == header
  }

  /** Main result.  The sender's common part is read in every delivery if and only if all blocks happen to
      hold the same bytes in that place. */
  lemma HeaderArrivesExactly(ds: seq<seq<Byte>>, bodies: seq<seq<Byte>>, stamp: seq<Byte>,
                             contentType: nat, common: nat)
    requires SentAs(ds, bodies, stamp, contentType, common) && bodies != []
    ensures (forall order :: Delivery(order, |ds|) ==> HeaderArrives(ds, order, common, bodies[0][..common]))
       <==> (forall k :: 0 <= k < |bodies| ==> bodies[k][..common] == bodies[0][..common])
  {
    forall order | Delivery(order, |ds|)
      ensures HeaderArrives(ds, order, common, bodies[0][..common])
         <==> bodies[order[0]][..common] == bodies[0][..common]
    {
      FirstArrivalDecides(ds, bodies, stamp, contentType, common, order);
    }
    forall k | 0 <= k < |bodies|
      ensures HeaderArrives(ds, [k], common, bodies[0][..common]) <==> bodies[k][..common] == bodies[0][..common]
    {
      assert Delivery([k], |ds|);
    }
    if forall order :: Delivery(order, |ds|) ==> HeaderArrives(ds, order, common, bodies[0][..common]) {
      forall k | 0 <= k < |bodies| ensures bodies[k][..common] == bodies[0][..common] {
        assert Delivery([k], |ds|);
      }
    }
  }

  /** What stands there instead: an appended block keeps the bytes that the memory of the zone held, which nobody
      has cleared.  If the second of two blocks arrives first, the receiver reads those. */
  lemma OvertakenHeaderIsMemory(z: seq<Byte>, first: seq<Byte>, common: nat, payload: seq<Byte>,
                                ds: seq<seq<Byte>>, stamp: seq<Byte>, contentType: nat)
    requires Size([first]) + HEADER + common <= |z|
    requires SentAs(ds, [first, NewBody(z, Size([first]), common, payload)], stamp, contentType, common)
    ensures HeaderArrives(ds, [1, 0], common, z[Size([first]) + HEADER..Size([first]) + HEADER + common])
  {
    var body := NewBody(z, Size([first]), common, payload);
    assert Delivery([1, 0], |ds|);
    FirstArrivalDecides(ds, [first, body], stamp, contentType, common, [1, 0]);
    assert body[..common] == z[Size([first]) + HEADER..Size([first]) + HEADER + common];
  }

  // ---- A concrete subframe ----

  /** A datagram as `sendSubFrame` makes it, with a zero sender clock and zero padding. */
  function Datagram(stamp: seq<Byte>, nb: nat, id: nat, contentType: nat, body: seq<Byte>): seq<Byte>
    requires |stamp| == 8
  {
    Head(stamp, nb, id, contentType, |body|) + body + seq(Aligned(|body|) - HEADER - |body|, _ => 0)
  }

  function Head(stamp: seq<Byte>, nb: nat, id: nat, contentType: nat, size: nat): (h: seq<Byte>)
    requires |stamp| == 8
    ensures |h| == HEADER
  {
    stamp + Word16(nb) + Word16(id) + Word16(contentType) + Word16(size) + seq(8, _ => 0)
  }

  lemma HeadFields(stamp: seq<Byte>, nb: nat, id: nat, contentType: nat, size: nat)
    requires |stamp| == 8 && nb < 0x1_0000 && id < 0x1_0000 && contentType < 0x1_0000 && size < 0x1_0000
    ensures var h := Head(stamp, nb, id, contentType, size);
            && h[..8] == stamp && Get16(h, NB_BLOCKS) == nb && Get16(h, BLOCK_ID) == id
            && Get16(h, CONTENT_TYPE) == contentType && Get16(h, CONTENT_BYTES) == size
  {
    var h := Head(stamp, nb, id, contentType, size);
    assert h[8..10] == Word16(nb) && h[10..12] == Word16(id);
    assert h[12..14] == Word16(contentType) && h[14..16] == Word16(size);
    Word16At(h, NB_BLOCKS, nb);
    Word16At(h, BLOCK_ID, id);
    Word16At(h, CONTENT_TYPE, contentType);
    Word16At(h, CONTENT_BYTES, size);
  }

  lemma DatagramCarries(stamp: seq<Byte>, nb: nat, id: nat, contentType: nat, body: seq<Byte>)
    requires |stamp| == 8 && nb < 0x1_0000 && id < 0x1_0000 && contentType < 0x1_0000 && |body| < 0x1_0000
    ensures Carries(Datagram(stamp, nb, id, contentType, body), stamp, nb, id, contentType, body)
  {
    var h, d := Head(stamp, nb, id, contentType, |body|), Datagram(stamp, nb, id, contentType, body);
    HeadFields(stamp, nb, id, contentType, |body|);
    assert forall k :: 0 <= k < HEADER ==> d[k] == h[k];
    assert d[..8] == h[..8];
    assert d[HEADER..HEADER + |body|] == body;
  }

  /** Two blocks whose common parts (one byte) differ: the header does not arrive if they change places. */
  lemma OvertakenHeaderIsLost(stamp: seq<Byte>, contentType: nat)
    requires |stamp| == 8 && contentType < 0x1_0000
    ensures var ds := [Datagram(stamp, 2, 0, contentType, [7]), Datagram(stamp, 2, 1, contentType, [0])];
            && SentAs(ds, [[7], [0]], stamp, contentType, 1)
            && HeaderArrives(ds, [0, 1], 1, [7]) && !HeaderArrives(ds, [1, 0], 1, [7])
  {
    var ds := [Datagram(stamp, 2, 0, contentType, [7]), Datagram(stamp, 2, 1, contentType, [0])];
    DatagramCarries(stamp, 2, 0, contentType, [7]);
    DatagramCarries(stamp, 2, 1, contentType, [0]);
    assert SentAs(ds, [[7], [0]], stamp, contentType, 1);
    assert Delivery([0, 1], |ds|) && Delivery([1, 0], |ds|);
    FirstArrivalDecides(ds, [[7], [0]], stamp, contentType, 1, [0, 1]);
    FirstArrivalDecides(ds, [[7], [0]], stamp, contentType, 1, [1, 0]);
    assert [7][..1] == [7] && [0][..1] == [0];
  }
}
