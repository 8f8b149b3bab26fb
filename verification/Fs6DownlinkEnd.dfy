/** A downlink subframe from end to end: blocks appended by the CU, transferred in any order and walked by the DU. */
module Fs6DownlinkEnd {
  import opened Fs6Zone
  import opened Fs6Transport
  import opened Fs6Orders
  import opened Fs6Downlink
  import K = Fs6Link
  import E = Fs6EndToEnd
  import R = Fs6Receive

  /** What was sent, in the order of arrival. */
  function PickedSents(xs: seq<Sent>, order: seq<nat>): (r: seq<Sent>)
    requires forall k :: 0 <= k < |order| ==> order[k] < |xs|
    ensures |r| == |order| && forall k :: 0 <= k < |order| ==> r[k] == xs[order[k]]
  {
    seq(|order|, (k: nat) requires k < |order| => xs[order[k]])
  }

  lemma PickedBlocks(y: Layout, sents: seq<Sent>, bodies: seq<seq<Byte>>, order: seq<nat>)
    requires BlocksOf(y, sents, bodies) && E.EachOnce(order, |bodies|)
    ensures BlocksOf(y, PickedSents(sents, order), K.Picked(bodies, order))
  {
    E.PickedLength(bodies, order);
    forall k | 0 <= k < |order| ensures BlockOf(y, sents[order[k]], K.Picked(bodies, order)[k]) {
      E.PickedAt(bodies, order, k);
      assert BlockOf(y, sents[order[k]], bodies[order[k]]);
    }
  }

  /** No two blocks speak of the same process, schedule or control variables. */
  ghost predicate DistinctTargets(sents: seq<Sent>) {
    forall j, k :: 0 <= j < |sents| && 0 <= k < |sents| && j != k ==> !SameTarget(sents[j], sents[k])
  }

  /** Nor of the same UE. */
  ghost predicate DistinctUes(sents: seq<Sent>) {
    forall j, k :: 0 <= j < |sents| && 0 <= k < |sents| && j != k ==> !SameUeTarget(sents[j], sents[k])
  }

  /** The DU holds what all blocks said, and of the UEs as well if they are distinct. */
  ghost predicate AllHeld(y: Layout, du: Du, at: When, sents: seq<Sent>) {
    && (forall k :: 0 <= k < |sents| ==> Meaningful(sents[k]) && Held(du, at, OrderOf(y, sents[k])))
    && (DistinctUes(sents) ==>
          forall k :: 0 <= k < |sents| ==> Meaningful(sents[k]) && HeldUe(du, at, OrderOf(y, sents[k])))
  }

  lemma OneHeld(y: Layout, du: Du, at: When, sents: seq<Sent>, bodies: seq<seq<Byte>>, order: seq<nat>, k: nat)
    requires ValidLayout(y) && BlocksOf(y, sents, bodies) && E.EachOnce(order, |bodies|) && k < |sents|
    requires DistinctTargets(sents)
    ensures AllParsable(y, K.Picked(bodies, order)) && Meaningful(sents[k])
    ensures var du' := DoAll(du, at, ParseAll(y, K.Picked(bodies, order)));
            Held(du', at, OrderOf(y, sents[k])) && (DistinctUes(sents) ==> HeldUe(du', at, OrderOf(y, sents[k])))
  {
    var said, met := PickedSents(sents, order), K.Picked(bodies, order);
    PickedBlocks(y, sents, bodies, order);
    assert k in order;
    var p :| 0 <= p < |order| && order[p] == k;
    forall l | p < l < |said| ensures !SameTarget(said[l], said[p]) { assert order[l] != order[p]; }
    SubframeArrives(y, du, at, said, met, p);
    if DistinctUes(sents) {
      forall l | p < l < |said| ensures !SameUeTarget(said[l], said[p]) { assert order[l] != order[p]; }
      UeOfSubframeArrives(y, du, at, said, met, p);
    }
  }

  /** Main result: blocks with distinct targets, arriving in any order, are all held by the DU. */
  lemma DownlinkArrives(y: Layout, du: Du, at: When, sents: seq<Sent>, bodies: seq<seq<Byte>>, order: seq<nat>)
    requires ValidLayout(y) && BlocksOf(y, sents, bodies) && E.EachOnce(order, |bodies|) && DistinctTargets(sents)
    ensures AllParsable(y, K.Picked(bodies, order))
    ensures AllHeld(y, DoAll(du, at, ParseAll(y, K.Picked(bodies, order))), at, sents)
  {
    PickedBlocks(y, sents, bodies, order);
    OrdersArrive(y, PickedSents(sents, order), K.Picked(bodies, order));
    var after := DoAll(du, at, ParseAll(y, K.Picked(bodies, order)));
    forall k | 0 <= k < |sents|
      ensures Meaningful(sents[k]) && Held(after, at, OrderOf(y, sents[k]))
      ensures DistinctUes(sents) ==> HeldUe(after, at, OrderOf(y, sents[k]))
    {
      OneHeld(y, du, at, sents, bodies, order, k);
    }
  }

  /** `DL_cu_fs6` and `DL_du_fs6` on a zone that the CU has filled. */
  method DownlinkSubframe(zone: array<Byte>, y: Layout, contentType: nat, clock: seq<Byte>, maxDatagram: nat,
                          order: seq<nat>, receiver: R.Receiver, du: DuReceiver, at: When,
                          ghost sents: seq<Sent>, ghost bodies: seq<seq<Byte>>)
    requires ValidLayout(y) && Holds(zone[..], bodies) && bodies != [] && AllFitDatagrams(bodies, maxDatagram)
    requires BlocksOf(y, sents, bodies) && DistinctTargets(sents)
    requires contentType < 0x1_0000 && |clock| == 8 && E.EachOnce(order, |bodies|) && receiver.crossData == []
    modifies zone, receiver, du
    ensures AllHeld(y, du.State(), at, sents)
  {
    DownlinkArrives(y, du.State(), at, sents, bodies, order);
    var received, nbBlocks := E.Transfer(zone, contentType, clock, maxDatagram, order, receiver, bodies);
    du.RcvFs6DL(y, received, nbBlocks, at, K.Picked(bodies, order));
  }
}
