/**
 The FS6 buffer zone: a byte array that holds, one after the other, blocks of a 24-byte transport
 header and a variable content, each padded to a multiple of 32 bytes.  `sendFs6Ul`, `sendFs6Ulharq`,
 `appendFs6TxULUE`, `appendFs6DLUE` and `appendFs6DLUEcch` append blocks; the receivers walk them.
 */
module Fs6Zone {
  type Byte = x: int | 0 <= x < 256

  const HEADER := 24
  const ALIGN := 32
  const BUFFER_SIZE := 1_000_000

  // Offsets in commonUDP_t.
  const NB_BLOCKS := 8
  const BLOCK_ID := 10
  const CONTENT_TYPE := 12
  const CONTENT_BYTES := 14
  const SENDER_CLOCK := 16

  /** A 16-bit number from its bytes: lo + 256 hi. */
  function Word(lo: Byte, hi: Byte): nat {
    if hi == 0 then lo else 256 + Word(lo, hi - 1)
  }

  lemma {:induction false} WordFormula(lo: Byte, hi: Byte)
    ensures Word(lo, hi) == lo + 256 * hi < 0x1_0000
  {
    if hi > 0 { WordFormula(lo, hi - 1); }
  }

  /** The bytes of a 16-bit number make up that number. */
  lemma WordBytes(n: nat)
    requires n < 0x1_0000
    ensures Word(n % 256, n / 256) == n
  {
    WordFormula(n % 256, n / 256);
  }

  function Get16(z: seq<Byte>, o: nat): nat
    requires o + 2 <= |z|
  {
    Word(z[o], z[o + 1])
  }

  /** `alignedSize` of a block with n content bytes. */
  function Aligned(n: nat): (r: nat)
    ensures HEADER + n <= r < HEADER + n + ALIGN
  {
    Blocks(n) * ALIGN
  }

  /** The number of alignment units that cover header and content. */
  function Blocks(n: nat): (k: nat)
    ensures (k - 1) * ALIGN < HEADER + n <= k * ALIGN
  {
    (n + HEADER + ALIGN - 1) / ALIGN
  }

  /** It is the least multiple of the alignment that covers header and content. */
  lemma AlignedLeast(n: nat, k: nat)
    requires HEADER + n <= k * ALIGN
    ensures Aligned(n) <= k * ALIGN
  {
  }

  /** A 16-bit content size makes the next block start behind this one exactly when it did not wrap. */
  lemma DisjointExactly(n: nat)
    ensures HEADER + n <= Aligned(n % 0x1_0000) <==> n < 0x1_0000
  {
  }

  /** Bytes occupied by blocks with the given contents. */
  function Size(bodies: seq<seq<Byte>>): nat {
    if bodies == [] then 0 else Aligned(|bodies[0]|) + Size(bodies[1..])
  }

  /** At offset o, z holds a block with number id and the given content. */
  ghost predicate BlockAt(z: seq<Byte>, o: nat, id: nat, body: seq<Byte>) {
    && o + Aligned(|body|) <= |z|
    && Get16(z, o + BLOCK_ID) == id
    && Get16(z, o + CONTENT_BYTES) == |body|
    && z[o + HEADER..o + HEADER + |body|] == body
  }

  /** From offset o on, z holds blocks numbered from id, with the given contents. */
  ghost predicate Chain(z: seq<Byte>, o: nat, id: nat, bodies: seq<seq<Byte>>)
    decreases |bodies|
  {
    bodies == [] || (BlockAt(z, o, id, bodies[0]) && Chain(z, o + Aligned(|bodies[0]|), id + 1, bodies[1..]))
  }

  /** z starts with exactly these blocks: the first header holds their number. */
  ghost predicate Holds(z: seq<Byte>, bodies: seq<seq<Byte>>) {
    HEADER <= |z| && Get16(z, NB_BLOCKS) == |bodies| && Chain(z, 0, 0, bodies)
  }

  // ---- Facts about chains ----

  lemma {:induction false} SizeAppend(a: seq<seq<Byte>>, b: seq<seq<Byte>>)
    ensures Size(a + b) == Size(a) + Size(b)
  {
    if a == [] {
      assert a + b == b;
    } else {
      assert (a + b)[1..] == a[1..] + b;
      SizeAppend(a[1..], b);
    }
  }

  lemma {:induction false} SizeAtLeast(bodies: seq<seq<Byte>>)
    ensures Size(bodies) >= ALIGN * |bodies|
  {
    if bodies != [] { SizeAtLeast(bodies[1..]); }
  }

  /** A zone has room for fewer blocks than 16 bits count. */
  lemma FewBlocks(bodies: seq<seq<Byte>>)
    requires Size(bodies) <= BUFFER_SIZE
    ensures |bodies| < 0xFFFF
  {
    SizeAtLeast(bodies);
  }

  /** A chain reads nothing before its first block id and nothing behind its last block. */
  lemma {:induction false} ChainFrame(z: seq<Byte>, z': seq<Byte>, o: nat, id: nat, bodies: seq<seq<Byte>>)
    requires Chain(z, o, id, bodies) && |z'| == |z|
    requires forall i :: o + BLOCK_ID <= i < o + Size(bodies) && i < |z| ==> z'[i] == z[i]
    ensures Chain(z', o, id, bodies)
    decreases |bodies|
  {
    if bodies != [] {
      var n := |bodies[0]|;
      assert Size(bodies) == Aligned(n) + Size(bodies[1..]);
      ChainFrame(z, z', o + Aligned(n), id + 1, bodies[1..]);
      assert z'[o + HEADER..o + HEADER + n] == z[o + HEADER..o + HEADER + n];
    }
  }

  lemma {:induction false} ChainSnoc(z: seq<Byte>, o: nat, id: nat, bodies: seq<seq<Byte>>, b: seq<Byte>)
    requires Chain(z, o, id, bodies) && BlockAt(z, o + Size(bodies), id + |bodies|, b)
    ensures Chain(z, o, id, bodies + [b])
    decreases |bodies|
  {
    var all := bodies + [b];
    if bodies == [] {
      assert all[0] == b && all[1..] == [];
    } else {
      ChainSnoc(z, o + Aligned(|bodies[0]|), id + 1, bodies[1..], b);
      assert all[0] == bodies[0] && all[1..] == bodies[1..] + [b];
    }
  }

  // ---- Appending ----

  /** The loop at the head of every writer: move to the first free byte.  The block numbers met on the
      way are the ones the source asserts. */
  method MoveToEnd(zone: array<Byte>, ghost bodies: seq<seq<Byte>>) returns (firstFree: nat, curBlock: nat)
    requires Holds(zone[..], bodies)
    ensures firstFree == Size(bodies) && curBlock == |bodies|
  {
    firstFree, curBlock := 0, 0;
    ghost var rest := bodies;
    var nbBlocks := Word(zone[NB_BLOCKS], zone[NB_BLOCKS + 1]);
    for i := 0 to nbBlocks
      invariant curBlock == i && |rest| == |bodies| - i
      invariant firstFree + Size(rest) == Size(bodies)
      invariant Chain(zone[..], firstFree, curBlock, rest)
    {
      assert Word(zone[firstFree + BLOCK_ID], zone[firstFree + BLOCK_ID + 1]) == curBlock;
      var contentBytes := Word(zone[firstFree + CONTENT_BYTES], zone[firstFree + CONTENT_BYTES + 1]);
      firstFree := firstFree + Aligned(contentBytes);
      curBlock := curBlock + 1;
      rest := rest[1..];
    }
  }

  /** The two byte strings differ at most between lo and hi. */
  ghost predicate SameExcept(a: seq<Byte>, b: seq<Byte>, lo: nat, hi: nat) {
    |a| == |b| && forall i :: 0 <= i < |a| && (i < lo || hi <= i) ==> b[i] == a[i]
  }

  /** What is left of a content whose size is counted in 16 bits. */
  function Kept(body: seq<Byte>): (r: seq<Byte>)
    ensures |r| == |body| % 0x1_0000 && r <= body
    ensures |body| < 0x1_0000 ==> r == body
  {
    body[..|body| % 0x1_0000]
  }

  lemma AlignedGrows(m: nat, n: nat)
    requires m <= n
    ensures Aligned(m) <= Aligned(n)
  {
    AlignedLeast(m, Blocks(n));
  }

  /** Write number and content size of a block at offset o. */
  method WriteFields(zone: array<Byte>, o: nat, id: nat, n: nat)
    requires id < 0x1_0000 && o + HEADER <= zone.Length
    modifies zone
    ensures Get16(zone[..], o + BLOCK_ID) == id && Get16(zone[..], o + CONTENT_BYTES) == n % 0x1_0000
    ensures SameExcept(old(zone[..]), zone[..], o + BLOCK_ID, o + HEADER)
  {
    var contentBytes := n % 0x1_0000;
    WordBytes(id);
    WordBytes(contentBytes);
    zone[o + BLOCK_ID], zone[o + BLOCK_ID + 1] := id % 256, id / 256;
    zone[o + CONTENT_BYTES], zone[o + CONTENT_BYTES + 1] := contentBytes % 256, contentBytes / 256;
  }

  /** Write the header fields and the content of a block at offset o, from behind the common part on. */
  method WriteBlock(zone: array<Byte>, o: nat, id: nat, common: nat, payload: seq<Byte>)
    requires id < 0x1_0000 && o + Aligned(common + |payload|) <= zone.Length
    modifies zone
    ensures BlockAt(zone[..], o, id, Kept(old(zone[..])[o + HEADER..o + HEADER + common] + payload))
    ensures SameExcept(old(zone[..]), zone[..], o + BLOCK_ID, o + Aligned(common + |payload|))
  {
    var n := common + |payload|;
    WriteFields(zone, o, id, n);
    forall i | 0 <= i < |payload| { zone[o + HEADER + common + i] := payload[i]; }
    ghost var body := old(zone[..])[o + HEADER..o + HEADER + common] + payload;
    assert zone[..][o + HEADER..o + HEADER + n] == body;
    BlockWritten(zone[..], o, id, body);
  }

  lemma BlockWritten(z: seq<Byte>, o: nat, id: nat, body: seq<Byte>)
    requires o + Aligned(|body|) <= |z| && z[o + HEADER..o + HEADER + |body|] == body
    requires Get16(z, o + BLOCK_ID) == id && Get16(z, o + CONTENT_BYTES) == |body| % 0x1_0000
    ensures BlockAt(z, o, id, Kept(body))
  {
    var m := |body| % 0x1_0000;
    AlignedGrows(m, |body|);
    assert z[o + HEADER..o + HEADER + m] == body[..m];
  }

  /** `nbBlocks++` in the first header. */
  method BumpCount(zone: array<Byte>)
    requires HEADER <= zone.Length && Get16(zone[..], NB_BLOCKS) < 0xFFFF
    modifies zone
    ensures SameExcept(old(zone[..]), zone[..], NB_BLOCKS, NB_BLOCKS + 2)
    ensures Get16(zone[..], NB_BLOCKS) == old(Get16(zone[..], NB_BLOCKS)) + 1
  {
    var nbBlocks := Word(zone[NB_BLOCKS], zone[NB_BLOCKS + 1]) + 1;
    WordBytes(nbBlocks);
    zone[NB_BLOCKS], zone[NB_BLOCKS + 1] := nbBlocks % 256, nbBlocks / 256;
  }

  /** Append a block: the writers fill in the content from behind the common part on (whose bytes stay
      as they are: the caller or nobody writes them), the header fields and the block count.  Of a content of 65536
      bytes or more the chain holds as many bytes as 16 bits can count. */
  method Append(zone: array<Byte>, common: nat, payload: seq<Byte>, ghost bodies: seq<seq<Byte>>)
    requires Holds(zone[..], bodies) && zone.Length <= BUFFER_SIZE
    requires Size(bodies) + Aligned(common + |payload|) <= zone.Length
    modifies zone
    ensures Holds(zone[..], bodies + [Kept(NewBody(old(zone[..]), Size(bodies), common, payload))])
    ensures SameEarlier(old(zone[..]), zone[..], Size(bodies))
  {
    var o, curBlock := MoveToEnd(zone, bodies);
    FewBlocks(bodies);
    AppendAt(zone, o, curBlock, common, payload, bodies);
  }

  /** The writing part: count the block and write it behind the others. */
  method AppendAt(zone: array<Byte>, o: nat, curBlock: nat, common: nat, payload: seq<Byte>,
                  ghost bodies: seq<seq<Byte>>)
    requires Holds(zone[..], bodies) && o == Size(bodies) && curBlock == |bodies| < 0xFFFF
    requires o + Aligned(common + |payload|) <= zone.Length
    modifies zone
    ensures Holds(zone[..], bodies + [Kept(NewBody(old(zone[..]), o, common, payload))])
    ensures SameEarlier(old(zone[..]), zone[..], o)
  {
    ghost var before := zone[..];
    BumpCount(zone);
    ghost var counted := zone[..];
    WriteBlock(zone, o, curBlock, common, payload);
    AppendCorrect(before, counted, zone[..], common, payload, bodies);
  }

  /** The content of a block appended at offset o. */
  function NewBody(z: seq<Byte>, o: nat, common: nat, payload: seq<Byte>): seq<Byte>
    requires o + HEADER + common <= |z|
  {
    z[o + HEADER..o + HEADER + common] + payload
  }

  /** Before offset o nothing but the block count differs. */
  ghost predicate SameEarlier(a: seq<Byte>, b: seq<Byte>, o: nat) {
    |a| == |b| && forall i :: 0 <= i < |a| && i < o && i != NB_BLOCKS && i != NB_BLOCKS + 1 ==> b[i] == a[i]
  }

  lemma AppendCorrect(before: seq<Byte>, counted: seq<Byte>, after: seq<Byte>, common: nat, payload: seq<Byte>,
                      bodies: seq<seq<Byte>>)
    requires Holds(before, bodies) && Size(bodies) + Aligned(common + |payload|) <= |before|
    requires SameExcept(before, counted, NB_BLOCKS, NB_BLOCKS + 2) && Get16(counted, NB_BLOCKS) == |bodies| + 1
    requires SameExcept(counted, after, Size(bodies) + BLOCK_ID, Size(bodies) + Aligned(common + |payload|))
    requires BlockAt(after, Size(bodies), |bodies|, Kept(NewBody(counted, Size(bodies), common, payload)))
    ensures Holds(after, bodies + [Kept(NewBody(before, Size(bodies), common, payload))])
    ensures SameEarlier(before, after, Size(bodies))
  {
    var o := Size(bodies);
    EarlierSame(before, counted, after, o, o + Aligned(common + |payload|));
    NewBodySame(before, counted, o, common, payload);
    ChainFrame(before, after, 0, 0, bodies);
    ChainSnoc(after, 0, 0, bodies, Kept(NewBody(before, o, common, payload)));
  }

  lemma EarlierSame(before: seq<Byte>, counted: seq<Byte>, after: seq<Byte>, o: nat, hi: nat)
    requires SameExcept(before, counted, NB_BLOCKS, NB_BLOCKS + 2) && SameExcept(counted, after, o + BLOCK_ID, hi)
    requires HEADER <= |before|
    ensures SameEarlier(before, after, o)
    ensures Get16(after, NB_BLOCKS) == Get16(counted, NB_BLOCKS)
  {
    assert after[NB_BLOCKS] == counted[NB_BLOCKS] && after[NB_BLOCKS + 1] == counted[NB_BLOCKS + 1];
  }

  lemma NewBodySame(before: seq<Byte>, counted: seq<Byte>, o: nat, common: nat, payload: seq<Byte>)
    requires SameExcept(before, counted, NB_BLOCKS, NB_BLOCKS + 2) && o + HEADER + common <= |before|
    ensures NewBody(before, o, common, payload) == NewBody(counted, o, common, payload)
  {
    assert counted[o + HEADER..o + HEADER + common] == before[o + HEADER..o + HEADER + common];
  }

  // ---- Walking ----

  /** What a receiver that starts at offset o meets: contents found by their sizes alone, the block
      numbers are not looked at. */
  ghost predicate Meets(z: seq<Byte>, o: nat, bodies: seq<seq<Byte>>)
    decreases |bodies|
  {
    bodies == [] || (ContentAt(z, o, bodies[0]) && Meets(z, o + Aligned(|bodies[0]|), bodies[1..]))
  }

  ghost predicate ContentAt(z: seq<Byte>, o: nat, body: seq<Byte>) {
    && o + Aligned(|body|) <= |z|
    && Get16(z, o + CONTENT_BYTES) == |body|
    && z[o + HEADER..o + HEADER + |body|] == body
  }

  /** A receiver meets exactly the blocks appended, in order. */
  lemma {:induction false} MeetsChain(z: seq<Byte>, o: nat, id: nat, bodies: seq<seq<Byte>>)
    requires Chain(z, o, id, bodies)
    ensures Meets(z, o, bodies)
    decreases |bodies|
  {
    if bodies != [] { MeetsChain(z, o + Aligned(|bodies[0]|), id + 1, bodies[1..]); }
  }

  /** One step of a walk: the block met is bodies[i], and the walk goes on behind it. */
  lemma NextMet(z: seq<Byte>, o: nat, bodies: seq<seq<Byte>>, i: nat)
    requires i < |bodies| && Meets(z, o, bodies[i..])
    ensures ContentAt(z, o, bodies[i]) && Meets(z, o + Aligned(|bodies[i]|), bodies[i + 1..])
  {
    assert bodies[i..][0] == bodies[i] && bodies[i..][1..] == bodies[i + 1..];
  }

  /** And nothing else: the zone determines what is met. */
  lemma {:induction false} MeetsOnce(z: seq<Byte>, o: nat, a: seq<seq<Byte>>, b: seq<seq<Byte>>)
    requires Meets(z, o, a) && Meets(z, o, b) && |a| == |b|
    ensures a == b
    decreases |a|
  {
    if a != [] {
      assert a[0] == b[0];
      MeetsOnce(z, o + Aligned(|a[0]|), a[1..], b[1..]);
      assert a == [a[0]] + a[1..] && b == [b[0]] + b[1..];
    }
  }
}
