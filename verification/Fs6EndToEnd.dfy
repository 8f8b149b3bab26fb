/**
 FS6 subframes from end to end: a zone is sent as datagrams, which arrive in any order and are gathered into a zone
 at the other end.  In uplink the DU cuts the soft bits of UEs into segments and appends a block for each; the CU puts
 the segments back in place.
 */
module Fs6EndToEnd {
  import opened Fs6Zone
  import opened Fs6Transport
  import opened Fs6Uplink
  import opened Fs6Link
  import R = Fs6Receive

  /** The numbers 0 to n - 1 in some order. */
  ghost predicate EachOnce(order: seq<nat>, n: nat) {
    && |order| == n && (forall k :: 0 <= k < n ==> order[k] < n)
    && (forall i: nat :: i < n ==> i in order) && (forall j, k :: 0 <= j < k < n ==> order[j] != order[k])
  }

  // ---- Datagrams become packets ----

  /** The packets of the datagrams that arrive. */
  function PacketsOf(ds: seq<seq<Byte>>): (ps: seq<R.Packet>)
    requires forall k :: 0 <= k < |ds| ==> HEADER <= |ds[k]|
    ensures |ps| == |ds| && forall k :: 0 <= k < |ds| ==> ps[k] == R.Parse(ds[k])
  {
    seq(|ds|, (k: nat) requires k < |ds| => R.Parse(ds[k]))
  }

  /** The zone into which packets were received one behind the other. */
  function ZoneOf(ps: seq<R.Packet>): seq<Byte> {
    if ps == [] then [] else ps[0].bytes + ZoneOf(ps[1..])
  }

  lemma {:induction false} ZoneOfPackets(ds: seq<seq<Byte>>)
    requires forall k :: 0 <= k < |ds| ==> HEADER <= |ds[k]|
    ensures ZoneOf(PacketsOf(ds)) == Concat(ds)
  {
    if ds != [] {
      ZoneOfPackets(ds[1..]);
      assert PacketsOf(ds)[1..] == PacketsOf(ds[1..]);
    }
  }

  lemma {:induction false} PickedAt(xs: seq<seq<Byte>>, order: seq<nat>, k: nat)
    requires (forall i :: 0 <= i < |order| ==> order[i] < |xs|) && k < |order|
    ensures |Picked(xs, order)| == |order| && Picked(xs, order)[k] == xs[order[k]]
  {
    if k > 0 {
      PickedAt(xs, order[1..], k - 1);
    } else if |order| > 1 {
      PickedAt(xs, order[1..], 0);
    }
  }

  lemma {:induction false} PickedLength(xs: seq<seq<Byte>>, order: seq<nat>)
    requires forall i :: 0 <= i < |order| ==> order[i] < |xs|
    ensures |Picked(xs, order)| == |order|
  {
    if order != [] { PickedLength(xs, order[1..]); }
  }

  lemma StampOfBytes(d: seq<Byte>, d': seq<Byte>)
    requires HEADER <= |d| && HEADER <= |d'| && d[..8] == d'[..8]
    ensures Stamp(d) == Stamp(d')
  {
    assert forall k :: 0 <= k < 8 ==> d[k] == d[..8][k] && d'[k] == d'[..8][k];
  }

  /** The packets of a subframe, in any order, are what a call of `receiveSubFrame` waits for. */
  lemma AllSurvive(ds: seq<seq<Byte>>, bodies: seq<seq<Byte>>, stamp: seq<Byte>, contentType: nat, order: seq<nat>)
    requires |stamp| == 8 && 0 < |ds| == |bodies| && CarryAll(ds, stamp, |bodies|, contentType, bodies)
    requires EachOnce(order, |ds|)
    ensures var got := Picked(ds, order);
            && |got| == |ds| && (forall k :: 0 <= k < |got| ==> HEADER <= |got[k]|)
            && R.Survivors(PacketsOf(got), contentType)
  {
    var got := Picked(ds, order);
    PickedLength(ds, order);
    forall k | 0 <= k < |got|
      ensures HEADER <= |got[k]| && got[k][..8] == stamp && NbBlocks(got[k]) == |ds|
           && Get16(got[k], CONTENT_TYPE) == contentType
    {
      PickedAt(ds, order, k);
      assert Carries(ds[order[k]], stamp, |bodies|, order[k], contentType, bodies[order[k]]);
    }
    forall k | 0 <= k < |got| ensures Stamp(got[k]) == Stamp(got[0]) { StampOfBytes(got[k], got[0]); }
  }

  /** `receiveSubFrame` returns with all of them in the zone, in the order of arrival. */
  lemma ReceivesAll(ds: seq<seq<Byte>>, bodies: seq<seq<Byte>>, stamp: seq<Byte>, contentType: nat, order: seq<nat>)
    requires |stamp| == 8 && 0 < |ds| == |bodies| && CarryAll(ds, stamp, |bodies|, contentType, bodies)
    requires EachOnce(order, |ds|)
    ensures var got := Picked(ds, order);
            && (forall k :: 0 <= k < |got| ==> HEADER <= |got[k]|)
            && var r := R.Gather([], R.Events(PacketsOf(got)), contentType);
               |r.gathered| == |bodies| && ZoneOf(r.gathered) == Concat(got) && r.kept == []
  {
    var got := Picked(ds, order);
    AllSurvive(ds, bodies, stamp, contentType, order);
    var ps := PacketsOf(got);
    R.GathersSurvivors(ps, 0, [], contentType);
    assert ps[..0] == [] && ps[0..] == ps && R.Events(ps) + [] == R.Events(ps);
    ZoneOfPackets(got);
  }

  /** The datagrams in the given order of arrival make `receiveSubFrame` return a zone in which the blocks are met in
      that order. */
  ghost predicate Gathered(ds: seq<seq<Byte>>, bodies: seq<seq<Byte>>, contentType: nat, order: seq<nat>)
    requires forall k :: 0 <= k < |order| ==> order[k] < |ds| && order[k] < |bodies|
  {
    var got := Picked(ds, order);
    && (forall k :: 0 <= k < |got| ==> HEADER <= |got[k]|)
    && var r := R.Gather([], R.Events(PacketsOf(got)), contentType);
       |r.gathered| == |Picked(bodies, order)| && Meets(ZoneOf(r.gathered), 0, Picked(bodies, order))
  }

  lemma GathersInAnyOrder(ds: seq<seq<Byte>>, bodies: seq<seq<Byte>>, stamp: seq<Byte>, contentType: nat,
                          order: seq<nat>)
    requires |stamp| == 8 && 0 < |ds| == |bodies| && CarryAll(ds, stamp, |bodies|, contentType, bodies)
    requires EachOnce(order, |ds|)
    ensures Gathered(ds, bodies, contentType, order)
  {
    ReceivesAll(ds, bodies, stamp, contentType, order);
    DeliveredInAnyOrder([], ds, bodies, stamp, contentType, order);
    assert [] + Concat(Picked(ds, order)) == Concat(Picked(ds, order));
    PickedLength(bodies, order);
  }

  /** From a zone to a zone: `sendSubFrame` at one end, any order of arrival, `receiveSubFrame` at the other. */
  method Transfer(zone: array<Byte>, contentType: nat, clock: seq<Byte>, maxDatagram: nat, order: seq<nat>,
                  receiver: R.Receiver, ghost bodies: seq<seq<Byte>>)
    returns (received: seq<Byte>, nbBlocks: nat)
    requires Holds(zone[..], bodies) && bodies != [] && AllFitDatagrams(bodies, maxDatagram)
    requires contentType < 0x1_0000 && |clock| == 8 && EachOnce(order, |bodies|) && receiver.crossData == []
    modifies zone, receiver
    ensures nbBlocks == |Picked(bodies, order)| && Meets(received, 0, Picked(bodies, order))
  {
    ghost var stamp := zone[..][..8];
    var datagrams, made := SendSubFrame(zone, contentType, clock, maxDatagram, bodies);
    FittingAccepted(made, stamp, contentType, bodies, maxDatagram);
    GathersInAnyOrder(datagrams, bodies, stamp, contentType, order);
    var r := receiver.ReceiveSubFrame(R.Events(PacketsOf(Picked(datagrams, order))), contentType);
    return ZoneOf(r.gathered), |r.gathered|;
  }

  // ---- Uplink data ----

  /** Applying the blocks gives the buffer of key the first n bytes of the sender's buffer. */
  ghost predicate Restored(y: Layout, cu: Cu, met: seq<seq<Byte>>, key: Key, buffer: seq<Byte>, n: nat) {
    && AllReadable(y, cu.buffers, met)
    && var after := ApplyAll(y, cu, met).buffers;
       key in after && n <= |buffer| && n <= |after[key]| && after[key][..n] == buffer[..n]
  }

  /** Every segment of the buffer is in some block. */
  ghost predicate AllHeld(y: Layout, bodies: seq<seq<Byte>>, key: Key, buffer: seq<Byte>, sizes: seq<nat>) {
    forall r :: 0 <= r < |sizes| ==> HoldsSegment(y, bodies, key, buffer, sizes, r)
  }

  lemma PickedReadable(y: Layout, source: map<Key, seq<Byte>>, bodies: seq<seq<Byte>>, order: seq<nat>,
                       buffers: map<Key, seq<Byte>>)
    requires AllReadable(y, buffers, bodies) && PiecesOf(y, source, bodies) && EachOnce(order, |bodies|)
    ensures AllReadable(y, buffers, Picked(bodies, order)) && PiecesOf(y, source, Picked(bodies, order))
  {
    PickedLength(bodies, order);
    forall k | 0 <= k < |order|
      ensures Readable(y, buffers, Picked(bodies, order)[k]) && PieceOf(y, source, Picked(bodies, order)[k])
    {
      PickedAt(bodies, order, k);
      assert Readable(y, buffers, bodies[order[k]]) && PieceOf(y, source, bodies[order[k]]);
    }
  }

  lemma PickedHolds(y: Layout, bodies: seq<seq<Byte>>, order: seq<nat>, key: Key, buffer: seq<Byte>,
                    sizes: seq<nat>, r: nat)
    requires r < |sizes| && HoldsSegment(y, bodies, key, buffer, sizes, r) && EachOnce(order, |bodies|)
    ensures HoldsSegment(y, Picked(bodies, order), key, buffer, sizes, r)
  {
    var i :| 0 <= i < |bodies| && IsSegment(y, bodies[i], key, buffer, sizes, r);
    assert i in order;
    var k :| 0 <= k < |order| && order[k] == i;
    PickedAt(bodies, order, k);
    assert IsSegment(y, Picked(bodies, order)[k], key, buffer, sizes, r);
  }

  /** Main result on data.  Blocks of any number of UEs, with control blocks among them, arriving in any order: every
      buffer all of whose segments were sent is restored. */
  lemma UplinkRestores(y: Layout, cu: Cu, source: map<Key, seq<Byte>>, bodies: seq<seq<Byte>>, order: seq<nat>,
                       key: Key, sizes: seq<nat>)
    requires AllReadable(y, cu.buffers, bodies) && PiecesOf(y, source, bodies) && EachOnce(order, |bodies|)
    requires key in source && key in cu.buffers && 0 < |sizes| && AllHeld(y, bodies, key, source[key], sizes)
    requires 2 * Offset(sizes, |sizes|) <= |source[key]| && 2 * Offset(sizes, |sizes|) <= |cu.buffers[key]|
    ensures Restored(y, cu, Picked(bodies, order), key, source[key], 2 * Offset(sizes, |sizes|))
  {
    PickedReadable(y, source, bodies, order, cu.buffers);
    forall r | 0 <= r < |sizes| ensures HoldsSegment(y, Picked(bodies, order), key, source[key], sizes, r) {
      PickedHolds(y, bodies, order, key, source[key], sizes, r);
    }
    SegmentsArrive(y, cu, Picked(bodies, order), source, key, sizes);
  }

  /** The elements with the given numbers, in the given order. */
  function PickedSents(xs: seq<Sent>, order: seq<nat>): (r: seq<Sent>)
    requires forall k :: 0 <= k < |order| ==> order[k] < |xs|
    ensures |r| == |order| && forall k :: 0 <= k < |order| ==> r[k] == xs[order[k]]
  {
    seq(|order|, (k: nat) requires k < |order| => xs[order[k]])
  }

  /** Main result on control elements: each is replayed once, in the order of arrival, and no block is reported
      impossible. */
  lemma UplinkReplays(y: Layout, cu: Cu, sents: seq<Sent>, bodies: seq<seq<Byte>>, order: seq<nat>)
    requires ValidLayout(y) && BlocksOf(y, sents, bodies) && AllReadable(y, cu.buffers, bodies)
    requires EachOnce(order, |bodies|)
    ensures AllReadable(y, cu.buffers, Picked(bodies, order))
    ensures var cu' := ApplyAll(y, cu, Picked(bodies, order));
            cu'.replayed == cu.replayed + ControlElements(PickedSents(sents, order)) && cu'.errors == cu.errors
  {
    var met, said := Picked(bodies, order), PickedSents(sents, order);
    PickedLength(bodies, order);
    forall k | 0 <= k < |order| ensures Readable(y, cu.buffers, met[k]) && BlockOf(y, said[k], met[k]) {
      PickedAt(bodies, order, k);
      assert Readable(y, cu.buffers, bodies[order[k]]) && BlockOf(y, sents[order[k]], bodies[order[k]]);
    }
    ReplaysInOrder(y, cu, said, met);
  }

  // ---- The data of one UE among the others ----

  lemma SegmentInside(y: Layout, body: seq<Byte>, key: Key, buffer: seq<Byte>, sizes: seq<nat>, r: nat,
                      buffers: map<Key, seq<Byte>>, source: map<Key, seq<Byte>>)
    requires r < |sizes| && IsSegment(y, body, key, buffer, sizes, r) && key in buffers
    requires 2 * Offset(sizes, |sizes|) <= |buffers[key]| && key in source && source[key] == buffer
    ensures Readable(y, buffers, body) && PieceOf(y, source, body)
  {
    OffsetsGrow(sizes, r + 1, |sizes|);
  }

  /** Blocks of a UE appended behind others that can be read and are pieces of the source. */
  lemma SegmentsBehind(y: Layout, earlier: seq<seq<Byte>>, sent: seq<seq<Byte>>, key: Key, sizes: seq<nat>,
                       buffers: map<Key, seq<Byte>>, source: map<Key, seq<Byte>>)
    requires AllReadable(y, buffers, earlier) && PiecesOf(y, source, earlier)
    requires key in source && AllSegments(y, key, source[key], sizes, sent) && |sent| == |sizes| && key in buffers
    requires 2 * Offset(sizes, |sizes|) <= |buffers[key]|
    ensures AllReadable(y, buffers, earlier + sent) && PiecesOf(y, source, earlier + sent)
    ensures AllHeld(y, earlier + sent, key, source[key], sizes)
  {
    var bodies, n := earlier + sent, |earlier|;
    forall k | 0 <= k < |bodies| ensures Readable(y, buffers, bodies[k]) && PieceOf(y, source, bodies[k]) {
      if k >= n { SegmentInside(y, sent[k - n], key, source[key], sizes, k - n, buffers, source); }
    }
    forall r | 0 <= r < |sizes| ensures HoldsSegment(y, bodies, key, source[key], sizes, r) {
      assert IsSegment(y, bodies[n + r], key, source[key], sizes, r);
    }
  }

  /** Bytes of the soft bits that are sent for G bits: the largest multiple of the modulation order. */
  function SentBytes(g: nat, qm: nat): nat
    requires 0 < qm
  {
    2 * (g / qm * qm)
  }

  /** There is room for the blocks behind the earlier ones, and all fit a datagram. */
  ghost predicate Fitting(y: Layout, sizes: seq<nat>, earlier: seq<seq<Byte>>, room: nat, maxDatagram: nat) {
    && AllFitDatagrams(earlier, maxDatagram)
    && (forall r :: 0 <= r < |sizes| ==> Aligned(COMMON + y.schHeader + 2 * sizes[r]) <= maxDatagram)
    && (forall r :: 0 <= r < |sizes| ==> COMMON + y.schHeader + 2 * sizes[r] < 0x1_0000)
    && Size(earlier) + SegmentsSize(y, sizes, |sizes|) <= room
  }

  /** `UL_du_fs6` and `UL_cu_fs6`: the segments of a UE, appended to whatever the zone held before and transferred in
      any order, are restored at the CU. */
  method UplinkSubframe(zone: array<Byte>, y: Layout, key: Key, buffer: seq<Byte>, sizes: seq<nat>,
                        fillers: seq<Byte>, more: seq<Byte>, contentType: nat, clock: seq<Byte>, maxDatagram: nat,
                        order: seq<nat>, receiver: R.Receiver, cu: CuReceiver,
                        ghost earlier: seq<seq<Byte>>, ghost source: map<Key, seq<Byte>>)
    requires Holds(zone[..], earlier) && zone.Length <= BUFFER_SIZE
    requires ValidLayout(y) && |fillers| == 4 && |more| == y.schHeader - 16 && key.ue < 0x8000 && key.harq < 256
    requires 0 < |sizes| && Offset(sizes, |sizes|) < 0x4000_0000
    requires Fitting(y, sizes, earlier, zone.Length, maxDatagram)
    requires contentType < 0x1_0000 && |clock| == 8 && EachOnce(order, |earlier| + |sizes|) && receiver.crossData == []
    requires AllReadable(y, cu.buffers, earlier) && PiecesOf(y, source, earlier)
    requires key in source && source[key] == buffer && key in cu.buffers
    requires 2 * Offset(sizes, |sizes|) <= |buffer| && 2 * Offset(sizes, |sizes|) <= |cu.buffers[key]|
    modifies zone, receiver, cu
    ensures var n := 2 * Offset(sizes, |sizes|);
            key in cu.buffers && n <= |cu.buffers[key]| && cu.buffers[key][..n] == buffer[..n]
  {
    ghost var sent := SendSegments(zone, y, key, buffer, sizes, fillers, more, earlier);
    NothingCut(y, sizes, sent);
    UplinkPrepared(y, cu.State(), earlier, sent, key, sizes, source, order, maxDatagram);
    TransferAndRestore(zone, y, key, contentType, clock, maxDatagram, order, receiver, cu,
                       earlier + sent, buffer, 2 * Offset(sizes, |sizes|));
  }

  lemma NothingCut(y: Layout, sizes: seq<nat>, sent: seq<seq<Byte>>)
    requires SizesFit(y, sizes, sent) && forall r :: 0 <= r < |sizes| ==> COMMON + y.schHeader + 2 * sizes[r] < 0x1_0000
    ensures AllKept(sent) == sent
  {
  }

  /** The sizes that `ulsch_decoding_data` chooses for G bits add up to all bits that the modulation order allows. */
  lemma SizesTotal(g: nat, qm: nat, c: nat)
    requires 0 < qm && 0 < c && g < 0x4000_0000
    ensures |SegmentSizes(g, qm, c)| == c && Offset(SegmentSizes(g, qm, c), c) < 0x4000_0000
    ensures 2 * Offset(SegmentSizes(g, qm, c), c) == SentBytes(g, qm)
  {
    SegmentsTile(g, qm, c);
  }

  /** The second half: from the filled zone of the DU to the buffers of the CU. */
  method TransferAndRestore(zone: array<Byte>, y: Layout, key: Key,
                            contentType: nat, clock: seq<Byte>, maxDatagram: nat,
                            order: seq<nat>, receiver: R.Receiver, cu: CuReceiver,
                            ghost bodies: seq<seq<Byte>>, ghost buffer: seq<Byte>, ghost n: nat)
    requires ValidLayout(y) && Holds(zone[..], bodies) && bodies != [] && AllFitDatagrams(bodies, maxDatagram)
    requires contentType < 0x1_0000 && |clock| == 8 && EachOnce(order, |bodies|) && receiver.crossData == []
    requires Restored(y, cu.State(), Picked(bodies, order), key, buffer, n)
    modifies zone, receiver, cu
    ensures key in cu.buffers && n <= |cu.buffers[key]| && n <= |buffer| && cu.buffers[key][..n] == buffer[..n]
  {
    var received, nbBlocks := Transfer(zone, contentType, clock, maxDatagram, order, receiver, bodies);
    cu.RecvFs6Ul(y, received, nbBlocks, Picked(bodies, order));
  }

  lemma UplinkPrepared(y: Layout, cu: Cu, earlier: seq<seq<Byte>>, sent: seq<seq<Byte>>, key: Key, sizes: seq<nat>,
                       source: map<Key, seq<Byte>>, order: seq<nat>, maxDatagram: nat)
    requires AllReadable(y, cu.buffers, earlier) && PiecesOf(y, source, earlier)
    requires key in source && AllSegments(y, key, source[key], sizes, sent) && SizesFit(y, sizes, sent)
    requires 0 < |sent| == |sizes| && key in cu.buffers && EachOnce(order, |earlier + sent|)
    requires 2 * Offset(sizes, |sizes|) <= |source[key]| && 2 * Offset(sizes, |sizes|) <= |cu.buffers[key]|
    requires AllFitDatagrams(earlier, maxDatagram)
    requires forall r :: 0 <= r < |sizes| ==> Aligned(COMMON + y.schHeader + 2 * sizes[r]) <= maxDatagram
    ensures AllFitDatagrams(earlier + sent, maxDatagram)
    ensures Restored(y, cu, Picked(earlier + sent, order), key, source[key], 2 * Offset(sizes, |sizes|))
  {
    SegmentsFit(y, sizes, earlier, sent, maxDatagram);
    SegmentsBehind(y, earlier, sent, key, sizes, cu.buffers, source);
    UplinkRestores(y, cu, source, earlier + sent, order, key, sizes);
  }

  lemma SegmentsFit(y: Layout, sizes: seq<nat>, earlier: seq<seq<Byte>>, sent: seq<seq<Byte>>, maxDatagram: nat)
    requires AllFitDatagrams(earlier, maxDatagram) && SizesFit(y, sizes, sent)
    requires forall r :: 0 <= r < |sizes| ==> Aligned(COMMON + y.schHeader + 2 * sizes[r]) <= maxDatagram
    ensures AllFitDatagrams(earlier + sent, maxDatagram)
  {
    forall k | 0 <= k < |earlier + sent| ensures FitsDatagram((earlier + sent)[k], maxDatagram) {
      if k >= |earlier| { assert |sent[k - |earlier|]| == COMMON + y.schHeader + 2 * sizes[k - |earlier|]; }
    }
  }
}
