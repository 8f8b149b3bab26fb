/**
 The DU and CU ends of the FS6 uplink as the programs run them, and the path between them: segments
 written into a zone, sent as datagrams, received in any order, walked and put back in place.
 */
module Fs6Link {
  import Arith
  import opened Fs6Zone
  import opened Fs6Transport
  import opened Fs6Uplink

  // ---- DU: one block per segment ----

  /** Bytes that the first r segments take in the zone. */
  function SegmentsSize(y: Layout, sizes: seq<nat>, r: nat): nat
    requires r <= |sizes|
  {
    Offset(BlockSizes(y, sizes), r)
  }

  /** Bytes that the block of each segment takes. */
  function BlockSizes(y: Layout, sizes: seq<nat>): (b: seq<nat>)
    ensures |b| == |sizes|
  {
    seq(|sizes|, (r: nat) requires r < |sizes| => Aligned(COMMON + y.schHeader + 2 * sizes[r]))
  }

  /** What the zone keeps of the contents. */
  function AllKept(sent: seq<seq<Byte>>): (r: seq<seq<Byte>>)
    ensures |r| == |sent| && forall k :: 0 <= k < |sent| ==> r[k] == Kept(sent[k])
  {
    seq(|sent|, (k: nat) requires k < |sent| => Kept(sent[k]))
  }

  /** The split branch of `ulsch_decoding_data`: `sendFs6Ul` for every segment of the buffer.  Contents of
      65536 bytes or more are cut short. */
  method SendSegments(zone: array<Byte>, y: Layout, key: Key, buffer: seq<Byte>, sizes: seq<nat>,
                      fillers: seq<Byte>, more: seq<Byte>, ghost bodies: seq<seq<Byte>>)
    returns (ghost sent: seq<seq<Byte>>)
    requires Holds(zone[..], bodies) && zone.Length <= BUFFER_SIZE
    requires ValidLayout(y) && |fillers| == 4 && |more| == y.schHeader - 16
    requires key.ue < 0x8000 && key.harq < 256
    requires Offset(sizes, |sizes|) < 0x4000_0000 && 2 * Offset(sizes, |sizes|) <= |buffer|
    requires Size(bodies) + SegmentsSize(y, sizes, |sizes|) <= zone.Length
    modifies zone
    ensures Holds(zone[..], bodies + AllKept(sent)) && |sent| == |sizes|
    ensures AllSegments(y, key, buffer, sizes, sent) && SizesFit(y, sizes, sent)
  {
    sent := [];
    assert bodies + AllKept(sent) == bodies;
    var rOffset := 0;
    for r := 0 to |sizes|
      invariant rOffset == Offset(sizes, r) && |sent| == r
      invariant Holds(zone[..], bodies + AllKept(sent))
      invariant Size(bodies + AllKept(sent)) <= Size(bodies) + SegmentsSize(y, sizes, r)
      invariant AllSegments(y, key, buffer, sizes, sent) && SizesFit(y, sizes, sent)
    {
      RoomLeft(y, sizes, r, Size(bodies + AllKept(sent)), Size(bodies), zone.Length);
      ghost var body := SendNext(zone, y, key, buffer, sizes, fillers, more, bodies + AllKept(sent), r, rOffset);
      OneMoreSegment(y, key, buffer, sizes, sent, body);
      OneMoreSize(y, sizes, bodies, sent, body);
      OneMoreFits(y, sizes, sent, body);
      SegmentFits(sizes, r);
      sent := sent + [body];
      rOffset := rOffset + sizes[r];
    }
  }

  /** The blocks are as long as their segments ask for. */
  ghost predicate SizesFit(y: Layout, sizes: seq<nat>, sent: seq<seq<Byte>>) {
    |sent| <= |sizes| && forall r :: 0 <= r < |sent| ==> |sent[r]| == COMMON + y.schHeader + 2 * sizes[r]
  }

  /** One round of the loop. */
  method SendNext(zone: array<Byte>, y: Layout, key: Key, buffer: seq<Byte>, sizes: seq<nat>,
                  fillers: seq<Byte>, more: seq<Byte>, ghost bodies: seq<seq<Byte>>, r: nat, rOffset: nat)
    returns (ghost body: seq<Byte>)
    requires Holds(zone[..], bodies) && zone.Length <= BUFFER_SIZE && r < |sizes|
    requires ValidLayout(y) && |fillers| == 4 && |more| == y.schHeader - 16
    requires key.ue < 0x8000 && key.harq < 256 && rOffset == Offset(sizes, r)
    requires Offset(sizes, |sizes|) < 0x4000_0000 && 2 * Offset(sizes, |sizes|) <= |buffer|
    requires Size(bodies) + Aligned(COMMON + y.schHeader + 2 * sizes[r]) <= zone.Length
    modifies zone
    ensures Holds(zone[..], bodies + [Kept(body)])
    ensures IsSegment(y, body, key, buffer, sizes, r) && |body| == COMMON + y.schHeader + 2 * sizes[r]
  {
    SegmentFits(sizes, r);
    var segment := Segment(key, rOffset, buffer[2 * rOffset..2 * (rOffset + sizes[r])]);
    SegmentCut(key, buffer, sizes, r, segment);
    body := SendSegment(zone, y, segment, fillers, more, bodies);
  }

  /** There is room for the next block. */
  lemma RoomLeft(y: Layout, sizes: seq<nat>, r: nat, used: nat, before: nat, room: nat)
    requires r < |sizes| && used <= before + SegmentsSize(y, sizes, r)
    requires before + SegmentsSize(y, sizes, |sizes|) <= room
    ensures used + Aligned(COMMON + y.schHeader + 2 * sizes[r]) <= room
  {
    RoomInGeneral(BlockSizes(y, sizes), r, used, before, room);
  }

  lemma RoomInGeneral(blocks: seq<nat>, r: nat, used: nat, before: nat, room: nat)
    requires r < |blocks| && used <= before + Offset(blocks, r) && before + Offset(blocks, |blocks|) <= room
    ensures used + blocks[r] <= room
  {
    NextOffset(blocks, r);
  }

  lemma SegmentCut(key: Key, buffer: seq<Byte>, sizes: seq<nat>, r: nat, segment: Segment)
    requires r < |sizes| && Offset(sizes, r + 1) <= Offset(sizes, |sizes|) < 0x4000_0000
    requires 2 * Offset(sizes, |sizes|) <= |buffer|
    requires key.ue < 0x8000 && key.harq < 256
    requires segment == Segment(key, Offset(sizes, r), buffer[2 * Offset(sizes, r)..2 * (Offset(sizes, r) + sizes[r])])
    ensures Sendable(segment) && |segment.data| == 2 * sizes[r] && segment == SegmentOf(key, buffer, sizes, r)
  {
  }

  lemma OneMoreFits(y: Layout, sizes: seq<nat>, sent: seq<seq<Byte>>, body: seq<Byte>)
    requires SizesFit(y, sizes, sent) && |sent| < |sizes| && |body| == COMMON + y.schHeader + 2 * sizes[|sent|]
    ensures SizesFit(y, sizes, sent + [body])
  {
  }

  lemma SegmentFits(sizes: seq<nat>, r: nat)
    requires r < |sizes|
    ensures Offset(sizes, r) + sizes[r] == Offset(sizes, r + 1) <= Offset(sizes, |sizes|)
  {
    OffsetsGrow(sizes, r + 1, |sizes|);
  }

  /** The first r blocks hold the first r segments of the buffer. */
  ghost predicate AllSegments(y: Layout, key: Key, buffer: seq<Byte>, sizes: seq<nat>, sent: seq<seq<Byte>>) {
    |sent| <= |sizes| && forall s :: 0 <= s < |sent| ==> IsSegment(y, sent[s], key, buffer, sizes, s)
  }

  lemma OneMoreSegment(y: Layout, key: Key, buffer: seq<Byte>, sizes: seq<nat>, sent: seq<seq<Byte>>, body: seq<Byte>)
    requires AllSegments(y, key, buffer, sizes, sent)
    requires |sent| < |sizes| && IsSegment(y, body, key, buffer, sizes, |sent|)
    ensures AllSegments(y, key, buffer, sizes, sent + [body])
  {
  }

  lemma OneMoreSize(y: Layout, sizes: seq<nat>, bodies: seq<seq<Byte>>, sent: seq<seq<Byte>>, body: seq<Byte>)
    requires |sent| < |sizes| && Size(bodies + AllKept(sent)) <= Size(bodies) + SegmentsSize(y, sizes, |sent|)
    requires |body| == COMMON + y.schHeader + 2 * sizes[|sent|]
    ensures bodies + AllKept(sent) + [Kept(body)] == bodies + AllKept(sent + [body])
    ensures Size(bodies + AllKept(sent + [body])) <= Size(bodies) + SegmentsSize(y, sizes, |sent| + 1)
  {
    SizeSnoc(bodies + AllKept(sent), Kept(body));
    AlignedGrows(|Kept(body)|, |body|);
    assert bodies + AllKept(sent) + [Kept(body)] == bodies + AllKept(sent + [body]);
  }

  /** `sendFs6Ul`. */
  method SendSegment(zone: array<Byte>, y: Layout, segment: Segment, fillers: seq<Byte>, more: seq<Byte>,
                     ghost bodies: seq<seq<Byte>>)
    returns (ghost body: seq<Byte>)
    requires Holds(zone[..], bodies) && zone.Length <= BUFFER_SIZE
    requires ValidLayout(y) && Sendable(segment) && |fillers| == 4 && |more| == y.schHeader - 16
    requires Size(bodies) + Aligned(COMMON + y.schHeader + |segment.data|) <= zone.Length
    modifies zone
    ensures Holds(zone[..], bodies + [Kept(body)])
    ensures |body| == COMMON + y.schHeader + |segment.data| && body[COMMON] == SCH_TYPE
    ensures IsSch(y, body) && ReadSegment(y, body) == segment
  {
    var payload := SchPayload(segment, fillers, more);
    ghost var z := zone[..];
    body := NewBody(z, Size(bodies), COMMON, payload);
    PayloadRead(y, z, Size(bodies), segment, fillers, more);
    Append(zone, COMMON, payload, bodies);
  }

  lemma PayloadRead(y: Layout, z: seq<Byte>, o: nat, segment: Segment, fillers: seq<Byte>, more: seq<Byte>)
    requires ValidLayout(y) && Sendable(segment) && |fillers| == 4 && |more| == y.schHeader - 16
    requires o + HEADER + COMMON <= |z|
    ensures |SchPayload(segment, fillers, more)| == y.schHeader + |segment.data|
    ensures var body := NewBody(z, o, COMMON, SchPayload(segment, fillers, more));
            && |body| == COMMON + y.schHeader + |segment.data| && body[COMMON] == SCH_TYPE
            && IsSch(y, body) && ReadSegment(y, body) == segment
  {
    SegmentRoundTrip(y, z[o + HEADER..o + HEADER + COMMON], segment, fillers, more);
  }

  lemma SizeSnoc(bodies: seq<seq<Byte>>, body: seq<Byte>)
    ensures Size(bodies + [body]) == Size(bodies) + Aligned(|body|)
  {
    SizeAppend(bodies, [body]);
    assert [body][1..] == [];
    assert Size([body]) == Aligned(|body|);
  }

  // ---- Between: datagrams in any order ----

  function Concat(ds: seq<seq<Byte>>): seq<Byte> {
    if ds == [] then [] else ds[0] + Concat(ds[1..])
  }

  lemma ContentInside(pre: seq<Byte>, d: seq<Byte>, post: seq<Byte>, body: seq<Byte>)
    requires ContentAt(d, 0, body) && |d| == Aligned(|body|)
    ensures ContentAt(pre + (d + post), |pre|, body)
  {
    var z := pre + (d + post);
    assert forall k :: 0 <= k < |d| ==> z[|pre| + k] == d[k];
    assert z[|pre| + HEADER..|pre| + HEADER + |body|] == d[HEADER..HEADER + |body|];
  }

  /** The elements with the given numbers, in the given order. */
  function Picked(xs: seq<seq<Byte>>, order: seq<nat>): seq<seq<Byte>>
    requires forall k :: 0 <= k < |order| ==> order[k] < |xs|
  {
    if order == [] then [] else [xs[order[0]]] + Picked(xs, order[1..])
  }

  /** d is a whole block with the given content. */
  ghost predicate Whole(d: seq<Byte>, body: seq<Byte>) { |d| == Aligned(|body|) && ContentAt(d, 0, body) }

  lemma CarriedWhole(ds: seq<seq<Byte>>, bodies: seq<seq<Byte>>, stamp: seq<Byte>, contentType: nat, k: nat)
    requires |stamp| == 8 && |ds| == |bodies| && CarryAll(ds, stamp, |bodies|, contentType, bodies) && k < |ds|
    ensures Whole(ds[k], bodies[k])
  {
    assert Carries(ds[k], stamp, |bodies|, k, contentType, bodies[k]);
  }

  lemma MeetsNext(pre: seq<Byte>, d: seq<Byte>, post: seq<Byte>, body: seq<Byte>, later: seq<seq<Byte>>)
    requires Whole(d, body) && Meets((pre + d) + post, |pre + d|, later)
    ensures Meets(pre + (d + post), |pre|, [body] + later)
  {
    ContentInside(pre, d, post, body);
    assert (pre + d) + post == pre + (d + post);
    assert ([body] + later)[1..] == later;
  }

  /** The datagrams of `sendSubFrame`, delivered in the order given by their numbers, are met as the blocks
      sent, in that order. */
  lemma {:induction false} DeliveredInAnyOrder(pre: seq<Byte>, ds: seq<seq<Byte>>, bodies: seq<seq<Byte>>,
                                               stamp: seq<Byte>, contentType: nat, order: seq<nat>)
    requires |stamp| == 8 && |ds| == |bodies| && CarryAll(ds, stamp, |bodies|, contentType, bodies)
    requires forall k :: 0 <= k < |order| ==> order[k] < |ds|
    ensures Meets(pre + Concat(Picked(ds, order)), |pre|, Picked(bodies, order))
    decreases |order|
  {
    if order != [] {
      var d, body := ds[order[0]], bodies[order[0]];
      var later := Picked(ds, order[1..]);
      CarriedWhole(ds, bodies, stamp, contentType, order[0]);
      DeliveredInAnyOrder(pre + d, ds, bodies, stamp, contentType, order[1..]);
      MeetsNext(pre, d, Concat(later), body, Picked(bodies, order[1..]));
      assert Picked(ds, order)[1..] == later;
    }
  }

  // ---- CU: walk and apply ----

  class CuReceiver {
    var buffers: map<Key, seq<Byte>>
    var replayed: seq<seq<Byte>>
    var errors: nat

    constructor (buffers: map<Key, seq<Byte>>)
      ensures this.buffers == buffers && replayed == [] && errors == 0
    {
      this.buffers, replayed, errors := buffers, [], 0;
    }

    function State(): Cu
      reads this
    {
      Cu(buffers, replayed, errors)
    }

    /** `recvFs6Ul` on the blocks actually received. */
    method RecvFs6Ul(y: Layout, zone: seq<Byte>, nbBlocks: nat, ghost bodies: seq<seq<Byte>>)
      requires ValidLayout(y) && Meets(zone, 0, bodies) && nbBlocks == |bodies| && AllReadable(y, buffers, bodies)
      modifies this
      ensures State() == ApplyAll(y, old(State()), bodies)
    {
      ghost var cu := State();
      var bufPtr: nat := 0;
      assert bodies[0..] == bodies;
      for i := 0 to nbBlocks
        invariant Meets(zone, bufPtr, bodies[i..])
        invariant State() == ApplyAll(y, cu, bodies[..i])
      {
        bufPtr := ReceiveNext(y, zone, bufPtr, bodies, i, cu);
      }
      assert bodies[..nbBlocks] == bodies;
    }

    /** One round of the loop. */
    method ReceiveNext(y: Layout, zone: seq<Byte>, bufPtr: nat,
                       ghost bodies: seq<seq<Byte>>, ghost i: nat, ghost cu: Cu)
      returns (next: nat)
      requires ValidLayout(y) && AllReadable(y, cu.buffers, bodies) && i < |bodies|
      requires Meets(zone, bufPtr, bodies[i..]) && State() == ApplyAll(y, cu, bodies[..i])
      modifies this
      ensures Meets(zone, next, bodies[i + 1..]) && State() == ApplyAll(y, cu, bodies[..i + 1])
    {
      NextMet(zone, bufPtr, bodies, i);
      ApplyPrefix(y, cu, bodies, i);
      next := ReceiveAt(y, zone, bufPtr, bodies[i]);
    }

    method ReceiveAt(y: Layout, zone: seq<Byte>, bufPtr: nat, ghost body: seq<Byte>) returns (next: nat)
      requires ValidLayout(y) && Readable(y, buffers, body) && ContentAt(zone, bufPtr, body)
      modifies this
      ensures State() == Apply(y, old(State()), body) && next == bufPtr + Aligned(|body|)
    {
      var contentBytes := Get16(zone, bufPtr + CONTENT_BYTES);
      ReceiveBlock(y, zone[bufPtr + HEADER..bufPtr + HEADER + contentBytes]);
      next := bufPtr + Aligned(contentBytes);
    }

    /** The body of the loop: one block. */
    method ReceiveBlock(y: Layout, body: seq<Byte>)
      requires ValidLayout(y) && Readable(y, buffers, body)
      modifies this
      ensures State() == Apply(y, old(State()), body)
    {
      if |body| > COMMON {
        if body[COMMON] == SCH_TYPE {
          var segment := ReadSegment(y, body);
          buffers := buffers[segment.key := Overwrite(buffers[segment.key], 2 * segment.offset, segment.data)];
        } else if body[COMMON] == CCH_TYPE {
          ReceiveElements(y, body);
        } else {
          errors := errors + 1;
        }
      }
    }

    method ReceiveElements(y: Layout, body: seq<Byte>)
      requires ValidLayout(y) && IsCch(y, body)
      modifies this
      ensures State() == ReplayAll(old(State()), Elements(y, body, Get16(body, COMMON + 2)))
    {
      var nbUci := Get16(body, COMMON + 2);
      ghost var cu := State();
      var at := COMMON + 4;
      for j := 0 to nbUci
        invariant at == COMMON + 4 + j * y.element
        invariant COMMON + 4 + j * y.element <= |body|
        invariant State() == ReplayAll(cu, Elements(y, body, j))
      {
        ElementFits(y, body, j, nbUci);
        var element := body[at..at + y.element];
        ghost var all := Elements(y, body, j + 1);
        assert all == Elements(y, body, j) + [element] && all[..|all| - 1] == Elements(y, body, j);
        if element[0] == HARQ_ELEMENT || element[0] == SR_ELEMENT {
          replayed := replayed + [element];
        } else {
          errors := errors + 1;
        }
        at := at + y.element;
      }
    }
  }

  lemma ApplyPrefix(y: Layout, cu: Cu, bodies: seq<seq<Byte>>, i: nat)
    requires AllReadable(y, cu.buffers, bodies) && i < |bodies|
    ensures var before := ApplyAll(y, cu, bodies[..i]);
            Readable(y, before.buffers, bodies[i]) && ApplyAll(y, cu, bodies[..i + 1]) == Apply(y, before, bodies[i])
  {
    assert bodies[..i + 1][..i] == bodies[..i];
    AppliesLast(y, cu, bodies[..i + 1]);
  }

  lemma ElementFits(y: Layout, body: seq<Byte>, j: nat, n: nat)
    requires 0 < y.element && j < n && COMMON + 4 + n * y.element <= |body|
    ensures COMMON + 4 + j * y.element + y.element == COMMON + 4 + (j + 1) * y.element <= |body|
  {
    Arith.Distribute(j, 1, y.element);
    Arith.Distribute(j + 1, n - j - 1, y.element);
    assert (n - j - 1) * y.element >= 0;
  }
}
