/**
 FS6 uplink from DU to CU: `ulsch_decoding_data` cuts the soft bits of a UE into segments and sends each
 as a block (`sendFs6Ul`); control information is sent element by element (`sendFs6Ulharq`);
 `recvFs6Ul` puts the segments back in place and replays the control elements.
 */
module Fs6Uplink {
  import opened Arith
  import opened Fs6Zone

  /** sizeof(fs6_ul_t): the part of a content that is common to all uplink blocks. */
  const COMMON := 32
  const SCH_TYPE := 28
  const CCH_TYPE := 29
  const HARQ_ELEMENT := 40
  const SR_ELEMENT := 41

  /** Sizes of the structures whose full layout is not modelled: the uplink data header (at least up to
      `r_offset`) and a control element. */
  datatype Layout = Layout(schHeader: nat, element: nat)

  ghost predicate ValidLayout(y: Layout) { 16 <= y.schHeader && 0 < y.element }

  function Get32(z: seq<Byte>, o: nat): nat
    requires o + 4 <= |z|
  {
    Join(Get16(z, o), Get16(z, o + 2))
  }

  /** A 32-bit number from its halves: lo + 65536 hi. */
  function Join(lo: nat, hi: nat): nat {
    if hi == 0 then lo else 0x1_0000 + Join(lo, hi - 1)
  }

  lemma {:induction false} JoinFormula(lo: nat, hi: nat)
    ensures Join(lo, hi) == lo + 0x1_0000 * hi
  {
    if hi > 0 { JoinFormula(lo, hi - 1); }
  }

  /** Remainder and quotient by repeated subtraction, which keeps the arithmetic on bytes linear; SplitNumber says that
      they are the ordinary ones. */
  function Rest(v: nat, m: nat): (r: nat)
    requires 0 < m
    ensures r < m
  {
    if v < m then v else Rest(v - m, m)
  }

  function Quotient(v: nat, m: nat): nat
    requires 0 < m
  {
    if v < m then 0 else 1 + Quotient(v - m, m)
  }

  lemma {:induction false} SplitNumber(v: nat, m: nat)
    requires 0 < m
    ensures Quotient(v, m) * m + Rest(v, m) == v
    ensures Rest(v, m) == v % m && Quotient(v, m) == v / m
  {
    if v >= m {
      SplitNumber(v - m, m);
      Distribute(1, Quotient(v - m, m), m);
    }
    DivModUnique(v, m, Quotient(v, m), Rest(v, m));
  }

  // The halves of a 32-bit number and the bytes of a 16-bit one, lowest first.
  function Lo(v: nat): nat { Rest(v, 0x1_0000) }
  function Hi(v: nat): nat { Quotient(v, 0x1_0000) }
  function B0(v: nat): Byte { Rest(v, 256) }
  function B1(v: nat): Byte { Rest(Quotient(v, 256), 256) }

  lemma Bytes16(v: nat)
    requires v < 0x1_0000
    ensures Word(B0(v), B1(v)) == v
  {
    SplitNumber(v, 256);
    WordFormula(B0(v), B1(v));
  }

  function Word16(v: nat): seq<Byte> { [B0(v), B1(v)] }

  function Word32(v: nat): seq<Byte> { Word16(Lo(v)) + Word16(Hi(v)) }

  lemma Word16At(z: seq<Byte>, o: nat, v: nat)
    requires o + 2 <= |z| && v < 0x1_0000 && z[o..o + 2] == Word16(v)
    ensures Get16(z, o) == v
  {
    Bytes16(v);
    assert z[o] == z[o..o + 2][0] && z[o + 1] == z[o..o + 2][1];
  }

  lemma Word32At(z: seq<Byte>, o: nat, v: nat)
    requires o + 4 <= |z| && v < 0x1_0000_0000 && z[o..o + 4] == Word32(v)
    ensures Get32(z, o) == v
  {
    SplitNumber(v, 0x1_0000);
    JoinFormula(Lo(v), Hi(v));
    assert z[o..o + 2] == z[o..o + 4][..2] == Word16(Lo(v));
    assert z[o + 2..o + 4] == z[o..o + 4][2..] == Word16(Hi(v));
    Word16At(z, o, Lo(v));
    Word16At(z, o + 2, Hi(v));
  }

  // ---- Contents of the blocks ----

  /** A UE and one of its HARQ processes. */
  datatype Key = Key(ue: nat, harq: nat)

  /** Segment of a soft-bit buffer: offset in 16-bit units, as `r_offset` counts, and the bytes. */
  datatype Segment = Segment(key: Key, offset: nat, data: seq<Byte>)

  ghost predicate Sendable(g: Segment) {
    g.key.ue < 0x8000 && g.key.harq < 256 && g.offset < 0x8000_0000 && |g.data| < 0x8000_0000
  }

  /** The head of fs6_ul_uespec_t up to `r_offset`; fillers are the padding bytes (and the segment
      number), which keep what the memory held. */
  function SchHead(g: Segment, fillers: seq<Byte>): seq<Byte>
    requires Sendable(g) && |fillers| == 4
  {
    [SCH_TYPE, fillers[0]] + Word16(g.key.ue) + ([g.key.harq] + fillers[1..]) + Word32(|g.data|) + Word32(g.offset)
  }

  /** What `sendFs6Ul` writes behind the common part; `more` is the rest of the header. */
  function SchPayload(g: Segment, fillers: seq<Byte>, more: seq<Byte>): seq<Byte>
    requires Sendable(g) && |fillers| == 4
  {
    SchHead(g, fillers) + (more + g.data)
  }

  /** A data block that `recvFs6Ul` can read in full. */
  ghost predicate IsSch(y: Layout, body: seq<Byte>) {
    && COMMON + y.schHeader <= |body| && 16 <= y.schHeader
    && body[COMMON] == SCH_TYPE
    && COMMON + y.schHeader + Get32(body, COMMON + 8) <= |body|
  }

  function ReadSegment(y: Layout, body: seq<Byte>): Segment
    requires IsSch(y, body)
  {
    Segment(Key(Get16(body, COMMON + 2), body[COMMON + 4]), Get32(body, COMMON + 12),
            body[COMMON + y.schHeader..COMMON + y.schHeader + Get32(body, COMMON + 8)])
  }

  /** Writing and reading back a segment. */
  lemma SegmentRoundTrip(y: Layout, common: seq<Byte>, g: Segment, fillers: seq<Byte>, more: seq<Byte>)
    requires ValidLayout(y) && |common| == COMMON && Sendable(g) && |fillers| == 4 && |more| == y.schHeader - 16
    ensures var body := common + SchPayload(g, fillers, more); IsSch(y, body) && ReadSegment(y, body) == g
  {
    var body := common + SchPayload(g, fillers, more);
    assert body[COMMON..COMMON + 16] == SchHead(g, fillers);
    HeadRead(body, g, fillers);
    assert body[COMMON + y.schHeader..] == g.data;
  }

  lemma HeadRead(body: seq<Byte>, g: Segment, fillers: seq<Byte>)
    requires Sendable(g) && |fillers| == 4 && COMMON + 16 <= |body| && body[COMMON..COMMON + 16] == SchHead(g, fillers)
    ensures body[COMMON] == SCH_TYPE && Get16(body, COMMON + 2) == g.key.ue && body[COMMON + 4] == g.key.harq
    ensures Get32(body, COMMON + 8) == |g.data| && Get32(body, COMMON + 12) == g.offset
  {
    var c, head := COMMON, SchHead(g, fillers);
    HeadParts(g, fillers);
    assert body[c] == head[0] && body[c + 4] == head[4];
    Part(body, c, head, 2, 4);
    Part(body, c, head, 8, 12);
    Part(body, c, head, 12, 16);
    Word16At(body, c + 2, g.key.ue);
    Word32At(body, c + 8, |g.data|);
    Word32At(body, c + 12, g.offset);
  }

  lemma Part(z: seq<Byte>, o: nat, part: seq<Byte>, lo: nat, hi: nat)
    requires lo <= hi <= |part| && o + |part| <= |z| && z[o..o + |part|] == part
    ensures z[o + lo..o + hi] == part[lo..hi]
  {
    var t := z[o..o + |part|];
    forall k | lo <= k < hi ensures z[o + k] == part[k] { assert t[k] == z[o + k]; }
  }

  lemma HeadParts(g: Segment, fillers: seq<Byte>)
    requires Sendable(g) && |fillers| == 4
    ensures var h := SchHead(g, fillers);
            && |h| == 16 && h[0] == SCH_TYPE && h[2..4] == Word16(g.key.ue) && h[4] == g.key.harq
            && h[8..12] == Word32(|g.data|) && h[12..16] == Word32(g.offset)
  {
  }

  /** What `sendFs6Ulharq` writes behind the common part: one element per block, since the static
      `current_fsf` it compares with is never set. */
  function CchPayload(element: seq<Byte>, filler: Byte): seq<Byte> {
    [CCH_TYPE, filler, 1, 0] + element
  }

  /** A control block whose elements all lie inside. */
  ghost predicate IsCch(y: Layout, body: seq<Byte>) {
    && COMMON + 4 <= |body| && body[COMMON] == CCH_TYPE
    && Get16(body, COMMON + 2) < 0x8000
    && COMMON + 4 + Get16(body, COMMON + 2) * y.element <= |body|
  }

  /** The first n control elements of a block. */
  function Elements(y: Layout, body: seq<Byte>, n: nat): seq<seq<Byte>>
    requires 0 < y.element && COMMON + 4 + n * y.element <= |body|
  {
    if n == 0 then []
    else
      Elements(y, body, n - 1) + [body[COMMON + 4 + (n - 1) * y.element..COMMON + 4 + (n - 1) * y.element + y.element]]
  }

  /** Writing and reading back a control element. */
  lemma ElementRoundTrip(y: Layout, common: seq<Byte>, element: seq<Byte>, filler: Byte)
    requires ValidLayout(y) && |common| == COMMON && |element| == y.element
    ensures var body := common + CchPayload(element, filler);
            IsCch(y, body) && Get16(body, COMMON + 2) == 1 && Elements(y, body, 1) == [element]
  {
    var body := common + CchPayload(element, filler);
    assert body[COMMON + 2] == 1 && body[COMMON + 3] == 0;
    assert Elements(y, body, 0) == [];
    assert body[COMMON + 4..COMMON + 4 + y.element] == element;
  }

  // ---- Receiving ----

  /** What `recvFs6Ul` works on: the soft-bit buffers, the control elements replayed (to
      `fill_uci_harq_indication` or `fill_sr_indication`) and the error messages. */
  datatype Cu = Cu(buffers: map<Key, seq<Byte>>, replayed: seq<seq<Byte>>, errors: nat)

  /** The buffers exist and are large enough for the block. */
  ghost predicate Readable(y: Layout, buffers: map<Key, seq<Byte>>, body: seq<Byte>) {
    |body| <= COMMON
    || (if body[COMMON] == SCH_TYPE then
          IsSch(y, body) && var g := ReadSegment(y, body);
          g.key in buffers && 2 * g.offset + |g.data| <= |buffers[g.key]|
        else body[COMMON] == CCH_TYPE ==> 0 < y.element && IsCch(y, body))
  }

  ghost predicate AllReadable(y: Layout, buffers: map<Key, seq<Byte>>, bodies: seq<seq<Byte>>) {
    forall k :: 0 <= k < |bodies| ==> Readable(y, buffers, bodies[k])
  }

  ghost predicate SameShape(a: map<Key, seq<Byte>>, b: map<Key, seq<Byte>>) {
    a.Keys == b.Keys && forall k :: k in a ==> |a[k]| == |b[k]|
  }

  function Overwrite(buffer: seq<Byte>, at: nat, data: seq<Byte>): seq<Byte>
    requires at + |data| <= |buffer|
  {
    buffer[..at] + data + buffer[at + |data|..]
  }

  function Replay(cu: Cu, element: seq<Byte>): Cu {
    if element != [] && (element[0] == HARQ_ELEMENT || element[0] == SR_ELEMENT)
    then cu.(replayed := cu.replayed + [element])
    else cu.(errors := cu.errors + 1)
  }

  function ReplayAll(cu: Cu, elements: seq<seq<Byte>>): Cu {
    if elements == [] then cu
    else Replay(ReplayAll(cu, elements[..|elements| - 1]), elements[|elements| - 1])
  }

  /** The effect of one block. */
  function Apply(y: Layout, cu: Cu, body: seq<Byte>): Cu
    requires Readable(y, cu.buffers, body)
  {
    if |body| <= COMMON then cu
    else if body[COMMON] == SCH_TYPE then
      var g := ReadSegment(y, body);
      cu.(buffers := cu.buffers[g.key := Overwrite(cu.buffers[g.key], 2 * g.offset, g.data)])
    else if body[COMMON] == CCH_TYPE then ReplayAll(cu, Elements(y, body, Get16(body, COMMON + 2)))
    else cu.(errors := cu.errors + 1)
  }

  lemma {:induction false} ReplayKeepsBuffers(cu: Cu, elements: seq<seq<Byte>>)
    ensures ReplayAll(cu, elements).buffers == cu.buffers
  {
    if elements != [] { ReplayKeepsBuffers(cu, elements[..|elements| - 1]); }
  }

  lemma ApplyShape(y: Layout, cu: Cu, body: seq<Byte>)
    requires Readable(y, cu.buffers, body)
    ensures SameShape(cu.buffers, Apply(y, cu, body).buffers)
  {
    if |body| > COMMON && body[COMMON] == CCH_TYPE {
      ReplayKeepsBuffers(cu, Elements(y, body, Get16(body, COMMON + 2)));
    }
  }

  /** The effect of blocks one after the other. */
  function ApplyAll(y: Layout, cu: Cu, bodies: seq<seq<Byte>>): (cu': Cu)
    requires AllReadable(y, cu.buffers, bodies)
    ensures SameShape(cu.buffers, cu'.buffers)
    decreases |bodies|
  {
    if bodies == [] then cu
    else
      var n := |bodies| - 1;
      var before := ApplyAll(y, cu, bodies[..n]);
      assert Readable(y, cu.buffers, bodies[n]);
      ApplyShape(y, before, bodies[n]);
      Apply(y, before, bodies[n])
  }

  // ---- What arrives ----

  /** Byte i of the buffer of key lies in a segment of one of the blocks. */
  ghost predicate Covered(y: Layout, bodies: seq<seq<Byte>>, key: Key, i: nat) {
    exists k :: 0 <= k < |bodies| && CoveredBy(y, bodies[k], key, i)
  }

  ghost predicate CoveredBy(y: Layout, body: seq<Byte>, key: Key, i: nat) {
    && |body| > COMMON && body[COMMON] == SCH_TYPE && IsSch(y, body)
    && var g := ReadSegment(y, body); g.key == key && 2 * g.offset <= i < 2 * g.offset + |g.data|
  }

  /** A data block holds a piece of the sender's buffer, from the place it names. */
  ghost predicate PieceOf(y: Layout, source: map<Key, seq<Byte>>, body: seq<Byte>) {
    |body| > COMMON && body[COMMON] == SCH_TYPE && IsSch(y, body) ==>
      var g := ReadSegment(y, body);
      && g.key in source && 2 * g.offset + |g.data| <= |source[g.key]|
      && g.data == source[g.key][2 * g.offset..2 * g.offset + |g.data|]
  }

  ghost predicate PiecesOf(y: Layout, source: map<Key, seq<Byte>>, bodies: seq<seq<Byte>>) {
    forall k :: 0 <= k < |bodies| ==> PieceOf(y, source, bodies[k])
  }

  /** Main result on user data: whatever the number, order and repetition of the blocks, after
      `recvFs6Ul` every byte covered by some segment is the sender's byte, and no other byte changed. */
  lemma {:induction false} Reassembles(y: Layout, cu: Cu, bodies: seq<seq<Byte>>, source: map<Key, seq<Byte>>,
                                       key: Key, i: nat)
    requires AllReadable(y, cu.buffers, bodies) && PiecesOf(y, source, bodies)
    requires key in cu.buffers && i < |cu.buffers[key]|
    ensures var after := ApplyAll(y, cu, bodies).buffers;
            && (Covered(y, bodies, key, i) ==> key in source && i < |source[key]| && after[key][i] == source[key][i])
            && (!Covered(y, bodies, key, i) ==> after[key][i] == cu.buffers[key][i])
    decreases |bodies|
  {
    if bodies != [] {
      var n := |bodies| - 1;
      var init, last := bodies[..n], bodies[n];
      Reassembles(y, cu, init, source, key, i);
      CoveredSnoc(y, bodies, key, i);
      var before := ApplyAll(y, cu, init);
      assert Readable(y, before.buffers, last) by { assert Readable(y, cu.buffers, last); }
      LastBlock(y, before, last, key, i);
      assert PieceOf(y, source, last);
    }
  }

  lemma CoveredSnoc(y: Layout, bodies: seq<seq<Byte>>, key: Key, i: nat)
    requires bodies != []
    ensures var n := |bodies| - 1;
            Covered(y, bodies, key, i) <==> (Covered(y, bodies[..n], key, i) || CoveredBy(y, bodies[n], key, i))
  {
    var n := |bodies| - 1;
    if Covered(y, bodies[..n], key, i) {
      var k :| 0 <= k < n && CoveredBy(y, bodies[..n][k], key, i);
      assert CoveredBy(y, bodies[k], key, i);
    }
    if Covered(y, bodies, key, i) {
      var k :| 0 <= k < |bodies| && CoveredBy(y, bodies[k], key, i);
      assert k < n ==> CoveredBy(y, bodies[..n][k], key, i);
    }
  }

  /** One block changes the bytes it covers, to its own, and no others. */
  lemma LastBlock(y: Layout, cu: Cu, body: seq<Byte>, key: Key, i: nat)
    requires Readable(y, cu.buffers, body) && key in cu.buffers && i < |cu.buffers[key]|
    ensures var after := Apply(y, cu, body).buffers;
            && key in after && i < |after[key]|
            && (CoveredBy(y, body, key, i) ==>
                  var g := ReadSegment(y, body); after[key][i] == g.data[i - 2 * g.offset])
            && (!CoveredBy(y, body, key, i) ==> after[key][i] == cu.buffers[key][i])
  {
    ApplyShape(y, cu, body);
    if |body| > COMMON && body[COMMON] == CCH_TYPE {
      ReplayKeepsBuffers(cu, Elements(y, body, Get16(body, COMMON + 2)));
    }
  }

  /** The order of the blocks, and repetitions, make no difference to the buffers. */
  lemma OrderIrrelevant(y: Layout, cu: Cu, a: seq<seq<Byte>>, b: seq<seq<Byte>>, source: map<Key, seq<Byte>>)
    requires AllReadable(y, cu.buffers, a) && AllReadable(y, cu.buffers, b) && PiecesOf(y, source, a)
    requires forall body :: body in a <==> body in b
    ensures ApplyAll(y, cu, a).buffers == ApplyAll(y, cu, b).buffers
  {
    var x, z := ApplyAll(y, cu, a).buffers, ApplyAll(y, cu, b).buffers;
    forall k | 0 <= k < |b| ensures PieceOf(y, source, b[k]) {
      assert b[k] in a;
    }
    forall key | key in cu.buffers ensures x[key] == z[key] {
      forall i | 0 <= i < |cu.buffers[key]| ensures x[key][i] == z[key][i] {
        Reassembles(y, cu, a, source, key, i);
        Reassembles(y, cu, b, source, key, i);
        SameCover(y, a, b, key, i);
        SameCover(y, b, a, key, i);
      }
    }
  }

  lemma SameCover(y: Layout, a: seq<seq<Byte>>, b: seq<seq<Byte>>, key: Key, i: nat)
    requires forall body :: body in a ==> body in b
    ensures Covered(y, a, key, i) ==> Covered(y, b, key, i)
  {
    if Covered(y, a, key, i) {
      var k :| 0 <= k < |a| && CoveredBy(y, a[k], key, i);
      assert a[k] in b;
      var l :| 0 <= l < |b| && b[l] == a[k];
      assert CoveredBy(y, b[l], key, i);
    }
  }

  // ---- Control elements ----

  /** What the DU sent, in the order of the calls. */
  datatype Sent =
    | Data(segment: Segment, fillers: seq<Byte>, more: seq<Byte>)
    | Control(element: seq<Byte>, filler: Byte)

  ghost predicate ValidSent(y: Layout, s: Sent) {
    match s
    case Data(g, f, m) => Sendable(g) && |f| == 4 && |m| == y.schHeader - 16
    case Control(e, _) => e != [] && |e| == y.element && (e[0] == HARQ_ELEMENT || e[0] == SR_ELEMENT)
  }

  function Payload(y: Layout, s: Sent): seq<Byte>
    requires ValidLayout(y) && ValidSent(y, s)
  {
    match s
    case Data(g, f, m) => SchPayload(g, f, m)
    case Control(e, f) => CchPayload(e, f)
  }

  /** The block holds the payload sent, behind some common part. */
  ghost predicate BlockOf(y: Layout, s: Sent, body: seq<Byte>)
    requires ValidLayout(y)
  {
    ValidSent(y, s) && COMMON <= |body| && body[COMMON..] == Payload(y, s)
  }

  ghost predicate BlocksOf(y: Layout, sents: seq<Sent>, bodies: seq<seq<Byte>>)
    requires ValidLayout(y)
  {
    |bodies| == |sents| && forall k :: 0 <= k < |sents| ==> BlockOf(y, sents[k], bodies[k])
  }

  function ControlElements(sents: seq<Sent>): seq<seq<Byte>> {
    if sents == [] then []
    else
      var n := |sents| - 1;
      ControlElements(sents[..n]) + if sents[n].Control? then [sents[n].element] else []
  }

  lemma ApplySent(y: Layout, cu: Cu, s: Sent, body: seq<Byte>)
    requires ValidLayout(y) && BlockOf(y, s, body) && Readable(y, cu.buffers, body)
    ensures Apply(y, cu, body).replayed == cu.replayed + if s.Control? then [s.element] else []
    ensures Apply(y, cu, body).errors == cu.errors
  {
    var common := body[..COMMON];
    assert body == common + Payload(y, s);
    match s
    case Data(g, f, m) => SegmentRoundTrip(y, common, g, f, m);
    case Control(e, f) =>
      ElementRoundTrip(y, common, e, f);
      assert [e][..0] == [];
      assert ReplayAll(cu, [e]) == Replay(ReplayAll(cu, []), e);
  }

  lemma AppliesLast(y: Layout, cu: Cu, bodies: seq<seq<Byte>>)
    requires bodies != [] && AllReadable(y, cu.buffers, bodies)
    ensures var n := |bodies| - 1;
            var before := ApplyAll(y, cu, bodies[..n]);
            Readable(y, before.buffers, bodies[n]) && ApplyAll(y, cu, bodies) == Apply(y, before, bodies[n])
  {
    assert Readable(y, cu.buffers, bodies[|bodies| - 1]);
  }

  /** Main result on control data: received in the order sent, every element is replayed exactly once
      and in the order of the calls, and no block is reported as impossible. */
  lemma {:induction false} ReplaysInOrder(y: Layout, cu: Cu, sents: seq<Sent>, bodies: seq<seq<Byte>>)
    requires ValidLayout(y) && BlocksOf(y, sents, bodies) && AllReadable(y, cu.buffers, bodies)
    ensures ApplyAll(y, cu, bodies).replayed == cu.replayed + ControlElements(sents)
    ensures ApplyAll(y, cu, bodies).errors == cu.errors
    decreases |sents|
  {
    if sents != [] {
      var n := |sents| - 1;
      ReplaysInOrder(y, cu, sents[..n], bodies[..n]);
      AppliesLast(y, cu, bodies);
      ApplySent(y, ApplyAll(y, cu, bodies[..n]), sents[n], bodies[n]);
      var last := if sents[n].Control? then [sents[n].element] else [];
      assert cu.replayed + ControlElements(sents) == cu.replayed + ControlElements(sents[..n]) + last;
    }
  }

  // ---- Whatever blocks arrive ----

  predicate Known(element: seq<Byte>) {
    element != [] && (element[0] == HARQ_ELEMENT || element[0] == SR_ELEMENT)
  }

  /** The elements with a known type. */
  function KnownOf(elements: seq<seq<Byte>>): seq<seq<Byte>> {
    if elements == [] then []
    else
      var n := |elements| - 1;
      KnownOf(elements[..n]) + if Known(elements[n]) then [elements[n]] else []
  }

  /** All control elements of a block; none, if it is not a control block. */
  function ElementsOf(y: Layout, buffers: map<Key, seq<Byte>>, body: seq<Byte>): seq<seq<Byte>>
    requires Readable(y, buffers, body)
  {
    if |body| > COMMON && body[COMMON] == CCH_TYPE then Elements(y, body, Get16(body, COMMON + 2)) else []
  }

  predicate Foreign(body: seq<Byte>) { |body| > COMMON && body[COMMON] != SCH_TYPE && body[COMMON] != CCH_TYPE }

  function One(b: bool): nat { if b then 1 else 0 }

  lemma {:induction false} ReplaysKnown(cu: Cu, elements: seq<seq<Byte>>)
    ensures ReplayAll(cu, elements).replayed == cu.replayed + KnownOf(elements)
    ensures ReplayAll(cu, elements).errors == cu.errors + |elements| - |KnownOf(elements)|
    ensures |KnownOf(elements)| <= |elements|
  {
    if elements != [] {
      var n := |elements| - 1;
      ReplaysKnown(cu, elements[..n]);
      var last := if Known(elements[n]) then [elements[n]] else [];
      assert cu.replayed + KnownOf(elements) == cu.replayed + KnownOf(elements[..n]) + last;
    }
  }

  /** Any block that can be read, whoever sent it: the control elements of known type are replayed in order, every other
      element and every block of a foreign type is reported, and nothing else is. */
  lemma AppliesAny(y: Layout, cu: Cu, body: seq<Byte>)
    requires Readable(y, cu.buffers, body)
    ensures var after, elements := Apply(y, cu, body), ElementsOf(y, cu.buffers, body);
            && after.replayed == cu.replayed + KnownOf(elements)
            && after.errors == cu.errors + |elements| - |KnownOf(elements)| + One(Foreign(body))
            && (Foreign(body) ==> after.buffers == cu.buffers)
  {
    if |body| > COMMON && body[COMMON] == CCH_TYPE { ReplaysKnown(cu, ElementsOf(y, cu.buffers, body)); }
  }

  /** The placeholder block of an empty subframe (content: the common part alone) has no effect. */
  lemma PlaceholderIsSilent(y: Layout, cu: Cu, body: seq<Byte>)
    requires |body| == COMMON
    ensures Readable(y, cu.buffers, body) && ApplyAll(y, cu, [body]) == cu
  {
    assert [body][..0] == [];
    assert AllReadable(y, cu.buffers, [body]);
    assert ApplyAll(y, cu, []) == cu;
  }

  // ---- Cutting a buffer into segments ----

  /** Soft bits before segment r, for segments of the given numbers of soft bits. */
  function Offset(sizes: seq<nat>, r: nat): nat
    requires r <= |sizes|
  {
    if r == 0 then 0 else Offset(sizes, r - 1) + sizes[r - 1]
  }

  lemma {:induction false} OffsetsGrow(sizes: seq<nat>, r: nat, s: nat)
    requires r <= s <= |sizes|
    ensures Offset(sizes, r) <= Offset(sizes, s)
    decreases s - r
  {
    if r < s { OffsetsGrow(sizes, r, s - 1); }
  }

  lemma NextOffset(sizes: seq<nat>, r: nat)
    requires r < |sizes|
    ensures Offset(sizes, r) + sizes[r] <= Offset(sizes, |sizes|)
  {
    OffsetsGrow(sizes, r + 1, |sizes|);
  }

  /** Which segment holds a bit. */
  lemma {:induction false} FindSegment(sizes: seq<nat>, n: nat, bit: nat) returns (r: nat)
    requires n <= |sizes| && bit < Offset(sizes, n)
    ensures r < n && Offset(sizes, r) <= bit < Offset(sizes, r + 1)
  {
    if Offset(sizes, n - 1) <= bit { r := n - 1; } else { r := FindSegment(sizes, n - 1, bit); }
  }

  /** Segment r of a buffer, two bytes per soft bit. */
  function SegmentOf(key: Key, buffer: seq<Byte>, sizes: seq<nat>, r: nat): Segment
    requires r < |sizes| && 2 * Offset(sizes, r + 1) <= |buffer|
  {
    Segment(key, Offset(sizes, r), buffer[2 * Offset(sizes, r)..2 * Offset(sizes, r + 1)])
  }

  /** The block holds segment r of the buffer. */
  ghost predicate IsSegment(y: Layout, body: seq<Byte>, key: Key, buffer: seq<Byte>, sizes: seq<nat>, r: nat)
    requires r < |sizes|
  {
    && |body| > COMMON && body[COMMON] == SCH_TYPE && IsSch(y, body)
    && 2 * Offset(sizes, r + 1) <= |buffer|
    && ReadSegment(y, body) == SegmentOf(key, buffer, sizes, r)
  }

  ghost predicate HoldsSegment(y: Layout, bodies: seq<seq<Byte>>, key: Key, buffer: seq<Byte>, sizes: seq<nat>, r: nat)
    requires r < |sizes|
  {
    exists k :: 0 <= k < |bodies| && IsSegment(y, bodies[k], key, buffer, sizes, r)
  }

  /** Main result, end to end: if the blocks received contain, in any order and among any others, all
      segments cut from the DU's buffer, the CU's buffer starts with the same soft bits. */
  lemma SegmentsArrive(y: Layout, cu: Cu, bodies: seq<seq<Byte>>, source: map<Key, seq<Byte>>,
                       key: Key, sizes: seq<nat>)
    requires AllReadable(y, cu.buffers, bodies) && PiecesOf(y, source, bodies)
    requires key in source && key in cu.buffers && |sizes| > 0
    requires 2 * Offset(sizes, |sizes|) <= |source[key]| && 2 * Offset(sizes, |sizes|) <= |cu.buffers[key]|
    requires forall r :: 0 <= r < |sizes| ==> HoldsSegment(y, bodies, key, source[key], sizes, r)
    ensures var n := 2 * Offset(sizes, |sizes|); ApplyAll(y, cu, bodies).buffers[key][..n] == source[key][..n]
  {
    var n := 2 * Offset(sizes, |sizes|);
    var after := ApplyAll(y, cu, bodies).buffers;
    forall i | 0 <= i < n ensures after[key][i] == source[key][i] {
      var r := FindSegment(sizes, |sizes|, i / 2);
      assert HoldsSegment(y, bodies, key, source[key], sizes, r);
      var k :| 0 <= k < |bodies| && IsSegment(y, bodies[k], key, source[key], sizes, r);
      assert CoveredBy(y, bodies[k], key, i);
      Reassembles(y, cu, bodies, source, key, i);
    }
  }

  // ---- The sizes ulsch_decoding_data chooses ----

  /** Number of modulation symbols in segment r out of c: gp symbols in all, evenly spread, the last
      segments taking one more. */
  function SegmentSymbols(gp: nat, c: nat, r: nat): nat
    requires 0 < c
  {
    if r < c - gp % c then gp / c else (if gp % c == 0 then 0 else 1) + gp / c
  }

  function AllSymbols(gp: nat, c: nat): seq<nat>
    requires 0 < c
  {
    seq(c, (r: nat) => SegmentSymbols(gp, c, r))
  }

  /** Numbers E of soft bits of the c segments, for g bits of modulation order qm. */
  function SegmentSizes(g: nat, qm: nat, c: nat): seq<nat>
    requires 0 < qm && 0 < c
  {
    seq(c, (r: nat) => qm * SegmentSymbols(g / qm, c, r))
  }

  /** The symbols before segment r, q per segment and one more in the last m. */
  function SymbolsBefore(q: nat, m: nat, c: nat, r: nat): nat {
    r * q + if r <= c - m then 0 else r - (c - m)
  }

  lemma {:induction false} OffsetClosed(gp: nat, c: nat, r: nat)
    requires 0 < c && r <= c
    ensures Offset(AllSymbols(gp, c), r) == SymbolsBefore(gp / c, gp % c, c, r)
  {
    DivMod(gp, c);
    if r > 0 {
      OffsetClosed(gp, c, r - 1);
      SymbolsStep(gp / c, gp % c, c, r, SegmentSymbols(gp, c, r - 1));
    }
  }

  lemma SymbolsStep(q: nat, m: nat, c: nat, r: nat, e: nat)
    requires 0 < r && m < c && e == if r - 1 < c - m then q else q + 1
    ensures SymbolsBefore(q, m, c, r) == SymbolsBefore(q, m, c, r - 1) + e
  {
    Distribute(r - 1, 1, q);
  }

  lemma {:induction false} ScaledOffset(u: nat, sizes: seq<nat>, symbols: seq<nat>, r: nat)
    requires r <= |sizes| == |symbols| && forall k :: 0 <= k < |sizes| ==> sizes[k] == u * symbols[k]
    ensures Offset(sizes, r) == u * Offset(symbols, r)
  {
    if r > 0 {
      ScaledOffset(u, sizes, symbols, r - 1);
      Distribute(Offset(symbols, r - 1), symbols[r - 1], u);
    }
  }

  /** The segments tile the buffer: together they hold the largest multiple of qm bits not above g. */
  lemma SegmentsTile(g: nat, qm: nat, c: nat)
    requires 0 < qm && 0 < c
    ensures Offset(SegmentSizes(g, qm, c), c) == g / qm * qm <= g
  {
    var gp := g / qm;
    DivMod(g, qm);
    ScaledOffset(qm, SegmentSizes(g, qm, c), AllSymbols(gp, c), c);
    SymbolsTile(gp, c);
  }

  /** And they are even: sizes grow by at most one symbol from the first segment to the last. */
  lemma SegmentsEven(g: nat, qm: nat, c: nat, r: nat, s: nat)
    requires 0 < qm && r <= s < c
    ensures var sizes := SegmentSizes(g, qm, c); sizes[r] <= sizes[s] <= sizes[r] + qm
  {
    var a, b := SegmentSymbols(g / qm, c, r), SegmentSymbols(g / qm, c, s);
    DivMod(g / qm, c);
    assert b == a || b == a + 1;
    Distribute(a, b - a, qm);
  }

  lemma SymbolsTile(gp: nat, c: nat)
    requires 0 < c
    ensures Offset(AllSymbols(gp, c), c) == gp
  {
    OffsetClosed(gp, c, c);
    DivMod(gp, c);
  }
}
