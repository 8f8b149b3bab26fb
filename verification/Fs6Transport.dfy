/**
 FS6 transport: `sendSubFrame` sends every block of a zone as one UDP datagram, `receiveSubFrame`
 gathers the datagrams of one subframe and keeps a datagram of the next subframe for the next call.
 */
module Fs6Transport {
  import opened Fs6Zone

  // ---- Sending ----

  /** The 64-bit timestamp at the head of a header. */
  function Stamp(d: seq<Byte>): nat
    requires HEADER <= |d|
  {
    Get16(d, 0) + 0x1_0000 * (Get16(d, 2) + 0x1_0000 * (Get16(d, 4) + 0x1_0000 * Get16(d, 6)))
  }

  function NbBlocks(d: seq<Byte>): nat
    requires HEADER <= |d|
  {
    Get16(d, NB_BLOCKS)
  }

  /** d carries the content body as block id of nb, for the subframe whose timestamp bytes are given. */
  ghost predicate Carries(d: seq<Byte>, stamp: seq<Byte>, nb: nat, id: nat, contentType: nat, body: seq<Byte>)
    requires |stamp| == 8
  {
    && |d| == Aligned(|body|)
    && d[..8] == stamp && NbBlocks(d) == nb && Get16(d, BLOCK_ID) == id && Get16(d, CONTENT_TYPE) == contentType
    && Get16(d, CONTENT_BYTES) == |body|
    && d[HEADER..HEADER + |body|] == body
  }

  /** The datagrams carry the first blocks, numbered from 0, of a subframe with nb blocks. */
  ghost predicate CarryAll(ds: seq<seq<Byte>>, stamp: seq<Byte>, nb: nat, contentType: nat, bodies: seq<seq<Byte>>)
    requires |stamp| == 8
  {
    |ds| <= |bodies| && forall k :: 0 <= k < |ds| ==> Carries(ds[k], stamp, nb, k, contentType, bodies[k])
  }

  lemma CarryOneMore(ds: seq<seq<Byte>>, d: seq<Byte>, stamp: seq<Byte>, nb: nat, contentType: nat,
                     bodies: seq<seq<Byte>>)
    requires |stamp| == 8 && CarryAll(ds, stamp, nb, contentType, bodies) && |ds| < |bodies|
    requires Carries(d, stamp, nb, |ds|, contentType, bodies[|ds|])
    ensures CarryAll(ds + [d], stamp, nb, contentType, bodies)
  {
  }

  /** Blocks before number k are sent; z is untouched from block k on, which starts at offset o. */
  ghost predicate Sending(z: seq<Byte>, o: nat, k: nat, stamp: seq<Byte>, contentType: nat, bodies: seq<seq<Byte>>)
    requires |stamp| == 8
  {
    && k <= |bodies| < 0x1_0000 && (if k == 0 then o == 0 else o >= ALIGN)
    && HeaderFields(z, 0, stamp, |bodies|, contentType)
    && Chain(z, o, k, bodies[k..])
  }

  /** The datagrams that `sendto` accepts: it refuses those above the largest size of the network (65507 bytes for UDP
      over IPv4), which `sendSubFrame` only logs. */
  function Accepted(ds: seq<seq<Byte>>, maxDatagram: nat): seq<seq<Byte>> {
    if ds == [] then []
    else
      var n := |ds| - 1;
      Accepted(ds[..n], maxDatagram) + if |ds[n]| <= maxDatagram then [ds[n]] else []
  }

  lemma AcceptedOneMore(ds: seq<seq<Byte>>, d: seq<Byte>, maxDatagram: nat)
    ensures Accepted(ds + [d], maxDatagram) == Accepted(ds, maxDatagram) + if |d| <= maxDatagram then [d] else []
  {
    assert (ds + [d])[..|ds|] == ds;
  }

  /** Nothing is refused exactly when every block fits a datagram. */
  lemma {:induction false} AllAcceptedExactly(ds: seq<seq<Byte>>, maxDatagram: nat)
    ensures |Accepted(ds, maxDatagram)| <= |ds|
    ensures Accepted(ds, maxDatagram) == ds <==> forall k :: 0 <= k < |ds| ==> |ds[k]| <= maxDatagram
  {
    if ds != [] {
      var n := |ds| - 1;
      AllAcceptedExactly(ds[..n], maxDatagram);
      assert ds == ds[..n] + [ds[n]];
    }
  }

  /** Whether a datagram is accepted does not depend on the others. */
  lemma {:induction false} AcceptedEach(a: seq<seq<Byte>>, d: seq<Byte>, b: seq<seq<Byte>>, maxDatagram: nat)
    ensures Accepted(a + [d] + b, maxDatagram)
      == Accepted(a, maxDatagram) + (if |d| <= maxDatagram then [d] else []) + Accepted(b, maxDatagram)
  {
    if b == [] {
      assert a + [d] + b == a + [d];
      AcceptedOneMore(a, d, maxDatagram);
    } else {
      var n := |b| - 1;
      AcceptedEach(a, d, b[..n], maxDatagram);
      assert a + [d] + b == (a + [d] + b[..n]) + [b[n]];
      AcceptedOneMore(a + [d] + b[..n], b[n], maxDatagram);
    }
  }

  /** The content of a block fits a datagram. */
  predicate FitsDatagram(body: seq<Byte>, maxDatagram: nat) { Aligned(|body|) <= maxDatagram }

  ghost predicate AllFitDatagrams(bodies: seq<seq<Byte>>, maxDatagram: nat) {
    forall k :: 0 <= k < |bodies| ==> FitsDatagram(bodies[k], maxDatagram)
  }

  lemma FittingAccepted(ds: seq<seq<Byte>>, stamp: seq<Byte>, contentType: nat, bodies: seq<seq<Byte>>,
                        maxDatagram: nat)
    requires |stamp| == 8 && |ds| == |bodies| && CarryAll(ds, stamp, |bodies|, contentType, bodies)
    ensures Accepted(ds, maxDatagram) == ds <==> AllFitDatagrams(bodies, maxDatagram)
  {
    forall k | 0 <= k < |ds| ensures |ds[k]| == Aligned(|bodies[k]|) {
      assert Carries(ds[k], stamp, |bodies|, k, contentType, bodies[k]);
    }
    AllAcceptedExactly(ds, maxDatagram);
  }

  /** `sendSubFrame`: one datagram per block, in order, as far as the network accepts them. */
  method SendSubFrame(zone: array<Byte>, contentType: nat, clock: seq<Byte>, maxDatagram: nat,
                      ghost bodies: seq<seq<Byte>>)
    returns (datagrams: seq<seq<Byte>>, ghost made: seq<seq<Byte>>)
    requires Holds(zone[..], bodies) && contentType < 0x1_0000 && |clock| == 8
    modifies zone
    ensures |made| == |bodies| && CarryAll(made, old(zone[..])[..8], |bodies|, contentType, bodies)
    ensures datagrams == Accepted(made, maxDatagram)
    ensures made != [] ==> made[0][SENDER_CLOCK..HEADER] == clock
  {
    var nbBlocks := Word(zone[NB_BLOCKS], zone[NB_BLOCKS + 1]);
    ghost var stamp := zone[..][..8];
    StampFirst(zone, contentType, clock, bodies);
    datagrams, made := SendBlocks(zone, nbBlocks, maxDatagram, stamp, contentType, bodies);
  }

  lemma OneMoreSent(made: seq<seq<Byte>>, d: seq<Byte>, stamp: seq<Byte>, contentType: nat, bodies: seq<seq<Byte>>,
                    maxDatagram: nat)
    requires |stamp| == 8 && CarryAll(made, stamp, |bodies|, contentType, bodies) && |made| < |bodies|
    requires Carries(d, stamp, |bodies|, |made|, contentType, bodies[|made|])
    ensures CarryAll(made + [d], stamp, |bodies|, contentType, bodies)
    ensures Accepted(made + [d], maxDatagram) == Accepted(made, maxDatagram) + if |d| <= maxDatagram then [d] else []
  {
    CarryOneMore(made, d, stamp, |bodies|, contentType, bodies);
    AcceptedOneMore(made, d, maxDatagram);
  }

  /** The loop of `sendSubFrame`. */
  method SendBlocks(zone: array<Byte>, nbBlocks: nat, maxDatagram: nat,
                    ghost stamp: seq<Byte>, ghost contentType: nat, ghost bodies: seq<seq<Byte>>)
    returns (datagrams: seq<seq<Byte>>, ghost made: seq<seq<Byte>>)
    requires |stamp| == 8 && nbBlocks == |bodies| && Sending(zone[..], 0, 0, stamp, contentType, bodies)
    modifies zone
    ensures |made| == |bodies| && CarryAll(made, stamp, |bodies|, contentType, bodies)
    ensures datagrams == Accepted(made, maxDatagram)
    ensures made != [] ==> made[0][SENDER_CLOCK..HEADER] == old(zone[..])[SENDER_CLOCK..HEADER]
  {
    datagrams, made := [], [];
    var o: nat := 0;
    for blockId := 0 to nbBlocks
      invariant |made| == blockId
      invariant Sending(zone[..], o, blockId, stamp, contentType, bodies)
      invariant CarryAll(made, stamp, |bodies|, contentType, bodies)
      invariant datagrams == Accepted(made, maxDatagram)
      invariant made == [] ==> zone[..] == old(zone[..])
      invariant made != [] ==> made[0][SENDER_CLOCK..HEADER] == old(zone[..])[SENDER_CLOCK..HEADER]
    {
      var d := SendBlock(zone, o, blockId, stamp, contentType, bodies);
      OneMoreSent(made, d, stamp, contentType, bodies, maxDatagram);
      made := made + [d];
      if |d| <= maxDatagram {
        datagrams := datagrams + [d];
      }
      o := o + |d|;
    }
  }

  /** Content type and sender clock go into the first header. */
  method StampFirst(zone: array<Byte>, contentType: nat, clock: seq<Byte>, ghost bodies: seq<seq<Byte>>)
    requires Holds(zone[..], bodies) && contentType < 0x1_0000 && |clock| == 8
    modifies zone
    ensures Sending(zone[..], 0, 0, old(zone[..])[..8], contentType, bodies)
    ensures zone[..][SENDER_CLOCK..HEADER] == clock
  {
    ghost var before := zone[..];
    WordBytes(contentType);
    WordFormula(zone[NB_BLOCKS], zone[NB_BLOCKS + 1]);
    zone[CONTENT_TYPE], zone[CONTENT_TYPE + 1] := contentType % 256, contentType / 256;
    forall i | 0 <= i < 8 { zone[SENDER_CLOCK + i] := clock[i]; }
    assert zone[..][..8] == before[..8];
    ChainHeaderFrame(before, zone[..], 0, 0, bodies);
    assert bodies[0..] == bodies;
  }

  /** One round of the loop.  The copy of the second header that follows the header fields has the same
      source and destination, since the pointer it reads from has moved along: contents stay as they
      are. */
  method SendBlock(zone: array<Byte>, o: nat, id: nat,
                   ghost stamp: seq<Byte>, ghost contentType: nat, ghost bodies: seq<seq<Byte>>)
    returns (d: seq<Byte>)
    requires |stamp| == 8 && id < |bodies| && Sending(zone[..], o, id, stamp, contentType, bodies)
    modifies zone
    ensures Carries(d, stamp, |bodies|, id, contentType, bodies[id])
    ensures Sending(zone[..], o + |d|, id + 1, stamp, contentType, bodies)
    ensures id == 0 ==> d[SENDER_CLOCK..HEADER] == old(zone[..])[SENDER_CLOCK..HEADER]
  {
    assert bodies[id..][0] == bodies[id] && bodies[id..][1..] == bodies[id + 1..];
    if id > 0 {
      WriteHeader(zone, o, id, bodies[id..]);
    }
    var sz := Aligned(Word(zone[o + CONTENT_BYTES], zone[o + CONTENT_BYTES + 1]));
    Cut(zone[..], o, stamp, |bodies|, id, contentType, bodies[id]);
    d := zone[o..o + sz];
  }

  /** Timestamp, block count and content type at offset o. */
  ghost predicate HeaderFields(z: seq<Byte>, o: nat, stamp: seq<Byte>, nb: nat, contentType: nat)
    requires |stamp| == 8
  {
    && o + HEADER <= |z|
    && z[o..o + 8] == stamp && Get16(z, o + NB_BLOCKS) == nb && Get16(z, o + CONTENT_TYPE) == contentType
  }

  lemma Cut(z: seq<Byte>, o: nat, stamp: seq<Byte>, nb: nat, id: nat, contentType: nat, body: seq<Byte>)
    requires |stamp| == 8 && HeaderFields(z, o, stamp, nb, contentType) && BlockAt(z, o, id, body)
    ensures Carries(z[o..o + Aligned(|body|)], stamp, nb, id, contentType, body)
  {
    var d := z[o..o + Aligned(|body|)];
    assert |d| >= HEADER && forall k :: 0 <= k < |d| ==> d[k] == z[o + k];
    assert d[..8] == z[o..o + 8];
    assert d[HEADER..HEADER + |body|] == z[o + HEADER..o + HEADER + |body|];
  }

  /** Of a block at offset o, number, size and content are read by a chain. */
  predicate ReadAt(o: nat, i: nat) {
    o + BLOCK_ID <= i < o + CONTENT_TYPE || o + CONTENT_BYTES <= i < o + 16 || o + HEADER <= i
  }

  /** A chain does not read timestamp, block count, content type and sender clock of its first block. */
  lemma ChainHeaderFrame(z: seq<Byte>, z': seq<Byte>, o: nat, id: nat, bodies: seq<seq<Byte>>)
    requires Chain(z, o, id, bodies) && |z'| == |z|
    requires forall i :: 0 <= i < |z| && ReadAt(o, i) ==> z'[i] == z[i]
    ensures Chain(z', o, id, bodies)
  {
    if bodies != [] {
      BlockHeaderFrame(z, z', o, id, bodies[0]);
      ChainFrame(z, z', o + Aligned(|bodies[0]|), id + 1, bodies[1..]);
    }
  }

  lemma BlockHeaderFrame(z: seq<Byte>, z': seq<Byte>, o: nat, id: nat, body: seq<Byte>)
    requires BlockAt(z, o, id, body) && |z'| == |z|
    requires forall i :: 0 <= i < |z| && ReadAt(o, i) ==> z'[i] == z[i]
    ensures BlockAt(z', o, id, body)
  {
    assert z'[o + HEADER..o + HEADER + |body|] == z[o + HEADER..o + HEADER + |body|];
  }

  /** The header fields of a later block, copied from the first one. */
  method WriteHeader(zone: array<Byte>, o: nat, id: nat, ghost rest: seq<seq<Byte>>)
    requires ALIGN <= o && rest != [] && Chain(zone[..], o, id, rest) && id < 0x1_0000
    modifies zone
    ensures Chain(zone[..], o, id, rest)
    ensures forall i :: 0 <= i < ALIGN ==> zone[i] == old(zone[i])
    ensures zone[..][..8] == old(zone[..])[..8]
    ensures HeaderFields(zone[..], o, zone[..][..8], Get16(zone[..], NB_BLOCKS), Get16(zone[..], CONTENT_TYPE))
  {
    ghost var before := zone[..];
    WordFormula(zone[o + BLOCK_ID], zone[o + BLOCK_ID + 1]);
    forall i | 0 <= i < BLOCK_ID { zone[o + i] := zone[i]; }
    zone[o + BLOCK_ID], zone[o + BLOCK_ID + 1] := id % 256, id / 256;
    zone[o + CONTENT_TYPE], zone[o + CONTENT_TYPE + 1] := zone[CONTENT_TYPE], zone[CONTENT_TYPE + 1];
    ghost var after := zone[..];
    assert after[o..o + 8] == after[..8];
    assert after[o + BLOCK_ID] == before[o + BLOCK_ID] && after[o + BLOCK_ID + 1] == before[o + BLOCK_ID + 1];
    ChainHeaderFrame(before, after, o, id, rest);
  }
}
