/**
 `receiveSubFrame`: gathers the datagrams of one subframe, drops late ones, and keeps the first
 datagram of a later subframe (`crossData`) for the next call.
 */
module Fs6Receive {
  import opened Fs6Zone
  import opened Fs6Transport

  /** A datagram with the header fields the receiver looks at. */
  datatype Packet = Packet(stamp: nat, nbBlocks: nat, contentType: nat, bytes: seq<Byte>)

  function Parse(d: seq<Byte>): Packet
    requires HEADER <= |d|
  {
    Packet(Stamp(d), NbBlocks(d), Get16(d, CONTENT_TYPE), d)
  }

  datatype Event = Datagram(packet: Packet) | Timeout | Broken

  datatype Status = Complete | Overtaken | TimedOut | SocketError | Aborted

  /** Result of one call: how it ended, the packets gathered in the zone, the late ones it dropped, the
      one it keeps for the next call (if any) and the number of events used. */
  datatype Result = Result(status: Status, gathered: seq<Packet>, late: seq<Packet>, kept: seq<Packet>, used: nat)

  predicate Satisfied(gathered: seq<Packet>) {
    gathered != [] && |gathered| >= gathered[0].nbBlocks
  }

  /** What a call that has gathered some packets does with the events to come (nothing more arriving is
      a timeout). */
  function Gather(gathered: seq<Packet>, events: seq<Event>, contentType: nat): Result
    decreases |events|
  {
    if events == [] then Result(TimedOut, gathered, [], [], 0)
    else
      match events[0]
      case Timeout => Result(TimedOut, gathered, [], [], 1)
      case Broken => Result(SocketError, gathered, [], [], 1)
      case Datagram(d) =>
        if d.contentType != contentType then Result(Aborted, gathered, [], [], 1)
        else if gathered != [] && gathered[0].stamp != d.stamp then
          if d.stamp > gathered[0].stamp then Result(Overtaken, gathered, [], [d], 1)
          else if Satisfied(gathered) then Result(Complete, gathered, [d], [], 1)
          else
            var r := Gather(gathered, events[1..], contentType);
            r.(late := [d] + r.late, used := r.used + 1)
        else if Satisfied(gathered + [d]) then Result(Complete, gathered + [d], [], [], 1)
        else
          var r := Gather(gathered + [d], events[1..], contentType);
          r.(used := r.used + 1)
  }

  /** A result seen from further back: some packets dropped and events used before. */
  function After(late: seq<Packet>, used: nat, r: Result): Result {
    r.(late := late + r.late, used := used + r.used)
  }

  class Receiver {
    /** The static `crossData`: at most one packet. */
    var crossData: seq<Packet>

    constructor ()
      ensures crossData == []
    {
      crossData := [];
    }

    method ReceiveSubFrame(events: seq<Event>, contentType: nat) returns (r: Result)
      requires |crossData| <= 1
      modifies this
      ensures r == Gather(old(crossData), events, contentType)
      ensures crossData == r.kept && |crossData| <= 1
    {
      var gathered := crossData;
      crossData := [];
      var late := [];
      var used := 0;
      ghost var start := gathered;
      while true
        invariant used <= |events| && crossData == []
        invariant Gather(start, events, contentType) == After(late, used, Gather(gathered, events[used..], contentType))
        decreases |events| - used
      {
        assert late + [] == late;
        if used == |events| {
          return Result(TimedOut, gathered, late, [], used);
        }
        assert events[used..][0] == events[used] && events[used..][1..] == events[used + 1..];
        ghost var more := Gather(gathered, events[used + 1..], contentType).late;
        used := used + 1;
        match events[used - 1]
        case Timeout => return Result(TimedOut, gathered, late, [], used);
        case Broken => return Result(SocketError, gathered, late, [], used);
        case Datagram(d) =>
          if d.contentType != contentType {
            return Result(Aborted, gathered, late, [], used);
          }
          if gathered != [] && gathered[0].stamp != d.stamp {
            if d.stamp > gathered[0].stamp {
              crossData := [d];
              return Result(Overtaken, gathered, late, [d], used);
            }
            assert late + ([d] + more) == (late + [d]) + more;
            late := late + [d];
          } else {
            gathered := gathered + [d];
          }
          if Satisfied(gathered) {
            return Result(Complete, gathered, late, [], used);
          }
      }
    }
  }

  // ---- Properties of one call ----

  ghost predicate SameStamp(ds: seq<Packet>) {
    forall k :: 0 <= k < |ds| ==> ds[k].stamp == ds[0].stamp
  }

  /** All packets of a zone belong to one subframe; what was dropped is older, what is kept is newer. */
  lemma {:induction false} OneSubframe(gathered: seq<Packet>, events: seq<Event>, contentType: nat)
    requires SameStamp(gathered)
    ensures var r := Gather(gathered, events, contentType);
            && SameStamp(r.gathered) && gathered <= r.gathered
            && (r.gathered == [] ==> r.late == [] && r.kept == [])
            && (forall d :: d in r.late ==> r.gathered != [] && d.stamp < r.gathered[0].stamp)
            && (forall d :: d in r.kept ==> r.gathered != [] && d.stamp > r.gathered[0].stamp)
    decreases |events|
  {
    if events != [] && events[0].Datagram? {
      var d := events[0].packet;
      if d.contentType != contentType {
      } else if gathered != [] && gathered[0].stamp != d.stamp {
        if d.stamp < gathered[0].stamp && !Satisfied(gathered) { OneSubframe(gathered, events[1..], contentType); }
      } else if !Satisfied(gathered + [d]) {
        OneSubframe(gathered + [d], events[1..], contentType);
      }
    }
  }

  /** A datagram of the expected type. */
  predicate Regular(e: Event, contentType: nat) { e.Datagram? && e.packet.contentType == contentType }

  /** How a call may end: all events before the last one it used were regular, and the last one decides. */
  ghost predicate EndsBy(events: seq<Event>, contentType: nat, r: Result) {
    && r.used <= |events| && (forall i :: 0 <= i < r.used - 1 ==> Regular(events[i], contentType))
    && (r.status.TimedOut? && r.used < |events| ==> r.used > 0 && events[r.used - 1].Timeout?)
    && (r.used > 0 ==>
          && (r.status.SocketError? <==> events[r.used - 1].Broken?)
          && (r.status.Aborted? <==> events[r.used - 1].Datagram? && !Regular(events[r.used - 1], contentType))
          && (events[r.used - 1].Timeout? ==> r.status.TimedOut?))
    && (r.status.Complete? ==> r.used > 0 && Satisfied(r.gathered) && r.kept == [])
    && (r.status.Overtaken? ==> r.used > 0 && events[r.used - 1].Datagram? && r.kept == [events[r.used - 1].packet])
    && (!r.status.Overtaken? ==> r.kept == [])
    && (r.status.SocketError? || r.status.Aborted? ==> r.used > 0)
  }

  lemma {:induction false} EndsExactly(gathered: seq<Packet>, events: seq<Event>, contentType: nat)
    ensures EndsBy(events, contentType, Gather(gathered, events, contentType))
    decreases |events|
  {
    if events != [] && Regular(events[0], contentType) {
      var d := events[0].packet;
      if gathered != [] && gathered[0].stamp != d.stamp {
        if d.stamp < gathered[0].stamp && !Satisfied(gathered) {
          EndsExactly(gathered, events[1..], contentType);
          EndsLater(events, contentType, Gather(gathered, events[1..], contentType), [d]);
        }
      } else if !Satisfied(gathered + [d]) {
        EndsExactly(gathered + [d], events[1..], contentType);
        EndsLater(events, contentType, Gather(gathered + [d], events[1..], contentType), []);
      }
    }
  }

  lemma EndsLater(events: seq<Event>, contentType: nat, r: Result, late: seq<Packet>)
    requires events != [] && Regular(events[0], contentType) && EndsBy(events[1..], contentType, r)
    ensures EndsBy(events, contentType, r.(late := late + r.late, used := r.used + 1))
  {
    assert forall i :: 0 < i < |events| ==> events[i] == events[1..][i - 1];
  }

  function Packets(events: seq<Event>): seq<Packet> {
    if events == [] then []
    else (if events[0].Datagram? then [events[0].packet] else []) + Packets(events[1..])
  }

  /** ps is a and b shuffled together, each keeping its order. */
  ghost predicate Shuffle(ps: seq<Packet>, a: seq<Packet>, b: seq<Packet>)
    decreases |ps|
  {
    if ps == [] then a == [] && b == []
    else
      || (a != [] && a[0] == ps[0] && Shuffle(ps[1..], a[1..], b))
      || (b != [] && b[0] == ps[0] && Shuffle(ps[1..], a, b[1..]))
  }

  /** The packets that arrived are, in order, those added to the zone and those dropped or kept. */
  ghost predicate Conserved(gathered: seq<Packet>, events: seq<Event>, r: Result) {
    && r.used <= |events| && gathered <= r.gathered
    && Shuffle(Packets(events[..r.used]), r.gathered[|gathered|..], r.late + r.kept)
  }

  lemma ConservedLate(gathered: seq<Packet>, events: seq<Event>, r0: Result)
    requires events != [] && events[0].Datagram? && Conserved(gathered, events[1..], r0)
    ensures Conserved(gathered, events, r0.(late := [events[0].packet] + r0.late, used := r0.used + 1))
  {
    var d := events[0].packet;
    var u := events[..r0.used + 1];
    assert u[0] == events[0] && u[1..] == events[1..][..r0.used];
    var b := ([d] + r0.late) + r0.kept;
    assert b[0] == d && b[1..] == r0.late + r0.kept;
    assert Packets(u)[1..] == Packets(u[1..]);
  }

  lemma ConservedTaken(gathered: seq<Packet>, events: seq<Event>, r0: Result)
    requires events != [] && events[0].Datagram? && Conserved(gathered + [events[0].packet], events[1..], r0)
    ensures Conserved(gathered, events, r0.(used := r0.used + 1))
  {
    var d := events[0].packet;
    var u := events[..r0.used + 1];
    assert u[0] == events[0] && u[1..] == events[1..][..r0.used];
    var a := r0.gathered[|gathered|..];
    assert a[0] == (gathered + [d])[|gathered|] == d;
    assert a[1..] == r0.gathered[|gathered| + 1..];
    assert Packets(u)[1..] == Packets(u[1..]);
  }

  lemma ConservedNow(gathered: seq<Packet>, events: seq<Event>, r: Result)
    requires events != [] && r.used == 1 && gathered <= r.gathered
    requires r.gathered[|gathered|..] + (r.late + r.kept) == if events[0].Datagram? then [events[0].packet] else []
    ensures Conserved(gathered, events, r)
  {
    var u := events[..1];
    assert u[0] == events[0] && u[1..] == [] && Packets(u[1..]) == [];
    var a, b := r.gathered[|gathered|..], r.late + r.kept;
    assert Packets(u) == a + b;
    if a != [] { assert a[1..] == [] && b == []; }
    if b != [] { assert b[1..] == [] && a == []; }
    assert Shuffle([], [], []);
  }

  /** Calls that stop with the first event. */
  lemma ConservedAtOnce(gathered: seq<Packet>, events: seq<Event>, contentType: nat)
    requires events != [] && Gather(gathered, events, contentType).used == 1
    requires !Gather(gathered, events, contentType).status.Aborted?
    requires events[0].Datagram? && events[1..] == [] ==> !Gather(gathered, events, contentType).status.TimedOut?
    ensures Conserved(gathered, events, Gather(gathered, events, contentType))
  {
    if events[0].Datagram? {
      var d := events[0].packet;
      assert (gathered + [d])[|gathered|..] == [d];
    }
    ConservedNow(gathered, events, Gather(gathered, events, contentType));
  }

  /** No packet is lost, duplicated or reordered by a call. */
  lemma {:induction false} PacketsConserved(gathered: seq<Packet>, events: seq<Event>, contentType: nat)
    requires !Gather(gathered, events, contentType).status.Aborted?
    ensures Conserved(gathered, events, Gather(gathered, events, contentType))
    decreases |events|
  {
    if events == [] {
      assert gathered[|gathered|..] == [];
    } else if !events[0].Datagram? {
      ConservedAtOnce(gathered, events, contentType);
    } else if gathered != [] && gathered[0].stamp != events[0].packet.stamp {
      if events[0].packet.stamp > gathered[0].stamp || Satisfied(gathered) {
        ConservedAtOnce(gathered, events, contentType);
      } else {
        PacketsConserved(gathered, events[1..], contentType);
        ConservedLate(gathered, events, Gather(gathered, events[1..], contentType));
      }
    } else if Satisfied(gathered + [events[0].packet]) {
      ConservedAtOnce(gathered, events, contentType);
    } else {
      PacketsConserved(gathered + [events[0].packet], events[1..], contentType);
      ConservedTaken(gathered, events, Gather(gathered + [events[0].packet], events[1..], contentType));
    }
  }

  // ---- Lost datagrams ----

  function Events(ds: seq<Packet>): seq<Event> {
    seq(|ds|, i requires 0 <= i < |ds| => Datagram(ds[i]))
  }

  /** What survives of one subframe: at least one packet, all of one subframe, at most nbBlocks. */
  ghost predicate Survivors(g: seq<Packet>, contentType: nat) {
    && 0 < |g| <= g[0].nbBlocks
    && (forall k :: 0 <= k < |g| ==> g[k].stamp == g[0].stamp && g[k].nbBlocks == g[0].nbBlocks)
    && forall k :: 0 <= k < |g| ==> g[k].contentType == contentType
  }

  /** The events start with a packet of a later subframe, or nothing comes any more. */
  ghost predicate LaterThan(stamp: nat, events: seq<Event>, contentType: nat) {
    events != [] ==>
      events[0].Datagram? && events[0].packet.stamp > stamp && events[0].packet.contentType == contentType
  }

  /** A call that has the first n survivors of a subframe gathers the others and nothing else; it stops
      behind the last one, or takes the first packet of the next subframe along. */
  lemma {:induction false} GathersSurvivors(g: seq<Packet>, n: nat, rest: seq<Event>, contentType: nat)
    requires Survivors(g, contentType) && n <= |g| && LaterThan(g[0].stamp, rest, contentType)
    ensures var r := Gather(g[..n], Events(g[n..]) + rest, contentType);
            && r.gathered == g && r.late == []
            && (if n < |g| == g[0].nbBlocks || rest == [] then r.kept == [] && r.used == |g| - n
                else r.kept == [rest[0].packet] && r.used == |g| - n + 1)
    decreases |g| - n
  {
    var evs := Events(g[n..]) + rest;
    assert n > 0 ==> g[..n][0] == g[0];
    if n == |g| {
      assert evs == rest && g[..n] == g;
    } else {
      assert evs[0] == Datagram(g[n]) && evs[1..] == Events(g[n + 1..]) + rest;
      assert g[..n] + [g[n]] == g[..n + 1] && g[..n + 1][0] == g[0];
      if n + 1 == g[0].nbBlocks {
        assert g[..n + 1] == g;
      } else {
        GathersSurvivors(g, n + 1, rest, contentType);
      }
    }
  }

  /** Zones returned by as many calls as there are subframes. */
  function Calls(kept: seq<Packet>, events: seq<Event>, contentType: nat, n: nat): seq<seq<Packet>>
    decreases n
  {
    if n == 0 then []
    else
      var r := Gather(kept, events, contentType);
      [r.gathered] + if r.used <= |events| then Calls(r.kept, events[r.used..], contentType, n - 1) else []
  }

  function AllEvents(groups: seq<seq<Packet>>): seq<Event> {
    if groups == [] then [] else Events(groups[0]) + AllEvents(groups[1..])
  }

  /** Survivors of successive subframes, in the order sent. */
  ghost predicate InOrder(groups: seq<seq<Packet>>, contentType: nat) {
    && (forall k :: 0 <= k < |groups| ==> Survivors(groups[k], contentType))
    && (forall k :: 0 <= k < |groups| - 1 ==> groups[k][0].stamp < groups[k + 1][0].stamp)
  }

  lemma DropBoth(a: seq<Event>, b: seq<Event>, n: nat)
    requires n <= |b|
    ensures (a + b)[|a| + n..] == b[n..]
  {
  }

  lemma InOrderTail(groups: seq<seq<Packet>>, contentType: nat)
    requires InOrder(groups, contentType) && groups != []
    ensures InOrder(groups[1..], contentType)
  {
    var tail: seq<seq<Packet>> := groups[1..];
    forall k | 0 <= k < |tail| - 1 ensures tail[k][0].stamp < tail[k + 1][0].stamp {
      assert groups[k + 1][0].stamp < groups[k + 2][0].stamp;
    }
  }

  /** What the call before took along: the first packet of the first subframe, or nothing. */
  function Carried(groups: seq<seq<Packet>>, carried: bool): seq<Packet>
    requires carried ==> groups != [] && groups[0] != []
  {
    if carried then [groups[0][0]] else []
  }

  /** The events still to come. */
  function Coming(groups: seq<seq<Packet>>, carried: bool): seq<Event>
    requires carried ==> groups != [] && groups[0] != []
  {
    if carried then AllEvents(groups)[1..] else AllEvents(groups)
  }

  /** One call gathers one subframe and leaves the others to the calls after it. */
  lemma OneCall(groups: seq<seq<Packet>>, contentType: nat, carried: bool) returns (carried': bool)
    requires InOrder(groups, contentType) && groups != []
    ensures carried' ==> groups[1..] != [] && groups[1..][0] != []
    ensures var events := Coming(groups, carried);
            var r := Gather(Carried(groups, carried), events, contentType);
            && r.gathered == groups[0] && r.used <= |events|
            && r.kept == Carried(groups[1..], carried') && events[r.used..] == Coming(groups[1..], carried')
  {
    var g, tail := groups[0], groups[1..];
    assert Survivors(g, contentType);
    var n := if carried then 1 else 0;
    var rest := AllEvents(tail);
    assert AllEvents(groups)[n..] == Events(g[n..]) + rest;
    assert g[..n] == Carried(groups, carried);
    FirstOfRest(groups, contentType);
    GathersSurvivors(g, n, rest, contentType);
    var r := Gather(g[..n], Events(g[n..]) + rest, contentType);
    carried' := r.kept != [];
    assert |Events(g[n..])| == |g| - n;
    DropBoth(Events(g[n..]), rest, if carried' then 1 else 0);
  }

  /** What comes behind a subframe starts with the first packet of the next one. */
  lemma FirstOfRest(groups: seq<seq<Packet>>, contentType: nat)
    requires InOrder(groups, contentType) && groups != []
    ensures var rest := AllEvents(groups[1..]);
            && LaterThan(groups[0][0].stamp, rest, contentType)
            && (rest == [] <==> groups[1..] == [])
            && (groups[1..] != [] ==> groups[1..][0] != [] && rest[0] == Datagram(groups[1..][0][0]))
  {
    if |groups| > 1 {
      assert Survivors(groups[1], contentType);
      assert groups[1..][0] == groups[1];
      assert groups[0][0].stamp < groups[1][0].stamp;
    }
  }

  /** Main result.  Whatever datagrams get lost, as long as the others arrive in order, call after call
      returns exactly the surviving packets of one subframe after the other: nothing is attributed to
      a wrong subframe.  `carried` tells whether the first packet of the first subframe was already
      taken along by the call before. */
  lemma {:induction false} LossNeverMixesSubframes(groups: seq<seq<Packet>>, contentType: nat, carried: bool)
    requires InOrder(groups, contentType) && (carried ==> groups != [] && groups[0] != [])
    ensures Calls(Carried(groups, carried), Coming(groups, carried), contentType, |groups|) == groups
    decreases |groups|
  {
    if groups != [] {
      var carried' := OneCall(groups, contentType, carried);
      var tail := groups[1..];
      InOrderTail(groups, contentType);
      LossNeverMixesSubframes(tail, contentType, carried');
      var kept, events := Carried(groups, carried), Coming(groups, carried);
      var r := Gather(kept, events, contentType);
      CallsOneMore(kept, events, contentType, |tail|);
      assert Calls(r.kept, events[r.used..], contentType, |tail|) == tail;
      assert groups == [groups[0]] + tail;
    }
  }

  lemma CallsOneMore(kept: seq<Packet>, events: seq<Event>, contentType: nat, n: nat)
    requires Gather(kept, events, contentType).used <= |events|
    ensures var r := Gather(kept, events, contentType);
            Calls(kept, events, contentType, n + 1) == [r.gathered] + Calls(r.kept, events[r.used..], contentType, n)
  {
  }
}
