/**
 FS6 downlink from CU to DU: `appendFs6DLUE`, `appendFs6TxULUE` and `appendFs6DLUEcch` write the blocks of a
 subframe, `rcvFs6DL` walks them at the DU and restores soft bits and configurations.
 */
module Fs6Downlink {
  import Arith
  import opened Fs6Zone
  import U = Fs6Uplink
  import P = Fs6Pack
  import opened Fs6Orders

  const UL_CONFIG := 25
  const DL_CONFIG := 26
  const CCH_CONFIG := 27

  /** sizeof(fs6_dl_uespec_t), and the bytes of it between `harq_pid` and `dataLen`. */
  const DL_HEADER := 48
  const DL_PARAMS := 35

  /** Bytes of fs6_dl_uespec_t that are not written: padding, and CEmode. */
  const GAPS := 8

  /** Where the DU puts a byte of an uplink schedule: into the data of the UE (RNTI, HARQ mask, UE type, turbo and beta
      parameters and so on), into those of the process, or nowhere (padding, and fields it sets itself). */
  datatype Place = PerUe | PerProcess | Nowhere

  /** Sizes of the structures whose full layout is not modelled: the common part fs6_dl_t, an uplink schedule, and
      the head (UE id and padding) and the copied variables of a control entry; and the places of the bytes of a
      schedule behind its HARQ number. */
  datatype Layout = Layout(common: nat, sched: nat, entryHead: nat, uci: nat, place: nat -> Place)

  ghost predicate ValidLayout(y: Layout) { 5 <= y.sched && 2 <= y.entryHead }

  // ---- What the CU appends ----

  datatype Entry = Entry(ue: nat, padding: seq<Byte>, uci: seq<Byte>)

  datatype Sent =
    | Downlink(key: Key, ueConfig: DlUe, config: DlConfig, gaps: seq<Byte>, dataLen: nat, eDL: seq<Byte>)
    | Uplink(key: Key, filler: Byte, params: seq<Byte>)
    | Control(filler: Byte, entries: seq<Entry>)

  ghost predicate ValidEntry(y: Layout, e: Entry) {
    e.ue < 0x8000 && |e.padding| == y.entryHead - 2 && |e.uci| == y.uci
  }

  predicate ValidUe(u: DlUe) {
    u.rnti < 0x1_0000 && u.sqrtRhoA < 0x1_0000 && u.sqrtRhoB < 0x1_0000 && u.i0 < 0x1_0000
  }

  predicate ValidConfig(c: DlConfig) { c.nbRb < 0x1_0000 && |c.rbAlloc| == 16 }

  ghost predicate ValidSent(y: Layout, s: Sent) {
    match s
    case Downlink(key, ueConfig, config, gaps, dataLen, eDL) =>
      && key.ue < 0x8000_0000 && key.harq < 128 && ValidUe(ueConfig) && ValidConfig(config) && |gaps| == GAPS
      && dataLen < 0x8000_0000 && 8 * P.Ceil16Bytes(dataLen) <= |eDL|
    case Uplink(key, _, params) => key.ue < 0x1_0000 && key.harq < 128 && |params| == y.sched - 5
    case Control(_, entries) => 0 < |entries| < 0x8000 && forall k :: 0 <= k < |entries| ==> ValidEntry(y, entries[k])
  }

  /** A byte as the signed value that the SIMD comparison sees. */
  function Signed(b: Byte): int { if b < 128 then b else b - 256 }

  function Signeds(bytes: seq<Byte>): (r: seq<int>)
    ensures |r| == |bytes|
  {
    seq(|bytes|, (i: nat) requires i < |bytes| => Signed(bytes[i]))
  }

  /** A packed byte as a number, and back. */
  function ToByte(v: bv8): Byte {
    (if v & 128 != 0 then 128 else 0) + (if v & 64 != 0 then 64 else 0)
    + (if v & 32 != 0 then 32 else 0) + (if v & 16 != 0 then 16 else 0)
    + (if v & 8 != 0 then 8 else 0) + (if v & 4 != 0 then 4 else 0)
    + (if v & 2 != 0 then 2 else 0) + (if v & 1 != 0 then 1 else 0)
  }

  function FromByte(b: Byte): bv8 {
    var b6 := if b >= 128 then b - 128 else b;
    var b5 := if b6 >= 64 then b6 - 64 else b6;
    var b4 := if b5 >= 32 then b5 - 32 else b5;
    var b3 := if b4 >= 16 then b4 - 16 else b4;
    var b2 := if b3 >= 8 then b3 - 8 else b3;
    var b1 := if b2 >= 4 then b2 - 4 else b2;
    var b0 := if b1 >= 2 then b1 - 2 else b1;
    (if b >= 128 then 128 else 0) | (if b6 >= 64 then 64 else 0)
    | (if b5 >= 32 then 32 else 0) | (if b4 >= 16 then 16 else 0)
    | (if b3 >= 8 then 8 else 0) | (if b2 >= 4 then 4 else 0)
    | (if b1 >= 2 then 2 else 0) | (if b0 >= 1 then 1 else 0)
  }

  lemma ByteRoundTrip(v: bv8)
    ensures FromByte(ToByte(v)) == v
  {
  }

  function ToBytes(packed: seq<bv8>): (r: seq<Byte>)
    ensures |r| == |packed|
  {
    seq(|packed|, (i: nat) requires i < |packed| => ToByte(packed[i]))
  }

  function FromBytes(bytes: seq<Byte>): (r: seq<bv8>)
    ensures |r| == |bytes|
  {
    seq(|bytes|, (i: nat) requires i < |bytes| => FromByte(bytes[i]))
  }

  /** What `fs6Dlpack` makes of the soft bits. */
  function PackedBytes(eDL: seq<Byte>, dataLen: nat): (r: seq<Byte>)
    requires 8 * P.Ceil16Bytes(dataLen) <= |eDL|
    ensures |r| == P.Ceil16Bytes(dataLen)
  {
    ToBytes(P.Packed(Signeds(eDL), P.Ceil16Bytes(dataLen)))
  }

  /** Expanded soft bits as numbers. */
  function Bits(x: seq<bv8>): (r: seq<Byte>)
    ensures |r| == |x|
  {
    seq(|x|, (j: nat) requires j < |x| => if x[j] == 1 then 1 else 0)
  }

  /** What `fs6Dlunpack` makes of packed bytes. */
  function Unpacked(packed: seq<Byte>): (r: seq<Byte>)
    ensures |r| == 8 * |packed|
  {
    Bits(P.Expanded(FromBytes(packed)))
  }

  /** The bits a packed sequence stands for: 1 where the signed byte is positive. */
  function Positive(eDL: seq<Byte>, n: nat): seq<Byte>
    requires n <= |eDL|
  {
    seq(n, (j: nat) requires j < n => if Signed(eDL[j]) > 0 then 1 else 0)
  }

  lemma FromToBytes(packed: seq<bv8>)
    ensures FromBytes(ToBytes(packed)) == packed
  {
    forall i | 0 <= i < |packed| ensures FromByte(ToByte(packed[i])) == packed[i] { ByteRoundTrip(packed[i]); }
  }

  lemma UnpackedPacked(eDL: seq<Byte>, dataLen: nat)
    requires 8 * P.Ceil16Bytes(dataLen) <= |eDL|
    ensures Unpacked(PackedBytes(eDL, dataLen)) == Positive(eDL, 8 * P.Ceil16Bytes(dataLen))
  {
    var x := Signeds(eDL);
    var packed := P.Packed(x, P.Ceil16Bytes(dataLen));
    FromToBytes(packed);
    P.ExpandedIsUnpacking(packed);
    P.PackUnpack(x, packed, P.Expanded(packed));
  }

  /** The sign bit counts: what is unpacked is 1 exactly for bytes from 1 to 127. */
  lemma SignsUnpacked(eDL: seq<Byte>, dataLen: nat, j: nat)
    requires 8 * P.Ceil16Bytes(dataLen) <= |eDL| && j < 8 * P.Ceil16Bytes(dataLen)
    ensures Unpacked(PackedBytes(eDL, dataLen))[j] == if 0 < eDL[j] < 128 then 1 else 0
  {
    UnpackedPacked(eDL, dataLen);
  }

  // ---- Contents of the blocks ----

  function EntryBytes(e: Entry): seq<Byte> { U.Word16(e.ue) + e.padding + e.uci }

  function EntriesBytes(entries: seq<Entry>): seq<Byte> {
    if entries == [] then [] else EntryBytes(entries[0]) + EntriesBytes(entries[1..])
  }

  /** fs6_dl_uespec_t between `harq_pid` and `dataLen`. */
  function DlParams(u: DlUe, c: DlConfig, gaps: seq<Byte>): (r: seq<Byte>)
    requires |c.rbAlloc| == 16 && |gaps| == GAPS
    ensures |r| == DL_PARAMS
  {
    [gaps[3]] + U.Word16(u.rnti) + U.Word16(u.sqrtRhoA) + U.Word16(u.sqrtRhoB) + [gaps[4], gaps[5]]
    + U.Word16(c.nbRb) + [c.qm, c.nl, c.pdschStart, u.sib1BrFlag] + U.Word16(u.i0) + [gaps[6], gaps[7]] + c.rbAlloc
  }

  /** What the writers put behind the common part. */
  function Payload(y: Layout, s: Sent): seq<Byte>
    requires ValidSent(y, s)
  {
    match s
    case Downlink(key, ueConfig, config, gaps, dataLen, eDL) =>
      ([DL_CONFIG] + gaps[..3]) + U.Word32(key.ue) + [key.harq] + DlParams(ueConfig, config, gaps)
      + U.Word32(dataLen) + PackedBytes(eDL, dataLen)
    case Uplink(key, filler, params) =>
      [UL_CONFIG, filler] + U.Word16(key.ue) + [key.harq] + params
    case Control(filler, entries) =>
      [CCH_CONFIG, filler] + U.Word16(|entries|) + EntriesBytes(entries)
  }

  // ---- What the DU reads ----

  ghost predicate IsDownlink(y: Layout, b: seq<Byte>) {
    && y.common + DL_HEADER <= |b| && b[y.common] == DL_CONFIG
    && y.common + DL_HEADER + P.Ceil16Bytes(U.Get32(b, y.common + 44)) <= |b|
  }

  ghost predicate IsControl(y: Layout, b: seq<Byte>) {
    && y.common + 4 <= |b| && b[y.common] == CCH_CONFIG
    && (Get16(b, y.common + 2) > 0 ==> 2 <= y.entryHead && y.common + 4 + y.entryHead + y.uci <= |b|)
  }

  /** The DU does not read behind the block. */
  ghost predicate Parsable(y: Layout, b: seq<Byte>) {
    |b| <= y.common
    || (if b[y.common] == DL_CONFIG then IsDownlink(y, b) else b[y.common] == CCH_CONFIG ==> IsControl(y, b))
  }

  /** What one block tells the DU to do. */
  function Parse(y: Layout, b: seq<Byte>): Order
    requires ValidLayout(y) && Parsable(y, b)
  {
    if |b| <= y.common then NoOrder
    else if b[y.common] == DL_CONFIG then ReadProcess(y, b)
    else if b[y.common] == UL_CONFIG then ReadSchedule(y, b)
    else if b[y.common] == CCH_CONFIG then ReadUci(y, b)
    else Impossible
  }

  function UePart(params: seq<Byte>): DlUe
    requires |params| == DL_PARAMS
  {
    DlUe(Get16(params, 1), Get16(params, 3), Get16(params, 5), params[14], Get16(params, 15))
  }

  function ConfigPart(params: seq<Byte>): DlConfig
    requires |params| == DL_PARAMS
  {
    DlConfig(Get16(params, 9), params[11], params[12], params[13], params[19..])
  }

  /** Every field is read where it was written. */
  lemma PartsRoundTrip(u: DlUe, c: DlConfig, gaps: seq<Byte>)
    requires ValidUe(u) && ValidConfig(c) && |gaps| == GAPS
    ensures UePart(DlParams(u, c, gaps)) == u && ConfigPart(DlParams(u, c, gaps)) == c
  {
    var p := DlParams(u, c, gaps);
    assert p[1..3] == U.Word16(u.rnti) && p[3..5] == U.Word16(u.sqrtRhoA) && p[5..7] == U.Word16(u.sqrtRhoB);
    assert p[9..11] == U.Word16(c.nbRb) && p[15..17] == U.Word16(u.i0) && p[19..] == c.rbAlloc;
    U.Word16At(p, 1, u.rnti);
    U.Word16At(p, 3, u.sqrtRhoA);
    U.Word16At(p, 5, u.sqrtRhoB);
    U.Word16At(p, 9, c.nbRb);
    U.Word16At(p, 15, u.i0);
  }

  function ReadProcess(y: Layout, b: seq<Byte>): Order
    requires IsDownlink(y, b)
  {
    var c := y.common;
    var n := P.Ceil16Bytes(U.Get32(b, c + 44));
    var params := b[c + 9..c + 44];
    SetProcess(U.Key(U.Get32(b, c + 4), b[c + 8]), UePart(params), ConfigPart(params),
               Unpacked(b[c + DL_HEADER..c + DL_HEADER + n]))
  }

  /** The bytes of a schedule that go to a place. */
  function FieldsAt(y: Layout, params: seq<Byte>, place: Place): Fields {
    map i: nat | i < |params| && y.place(i) == place :: params[i]
  }

  function ScheduleOrder(y: Layout, key: Key, params: seq<Byte>): Order {
    SetSchedule(key, FieldsAt(y, params, PerUe), FieldsAt(y, params, PerProcess))
  }

  function ReadSchedule(y: Layout, b: seq<Byte>): Order
    requires ValidLayout(y)
  {
    var c := y.common;
    if c + y.sched <= |b| then ScheduleOrder(y, U.Key(Get16(b, c + 2), b[c + 4]), b[c + 5..c + y.sched]) else NoOrder
  }

  function ReadUci(y: Layout, b: seq<Byte>): Order
    requires IsControl(y, b)
  {
    var c := y.common;
    if Get16(b, c + 2) == 0 then NoOrder
    else SetUci(Get16(b, c + 4), b[c + 4 + y.entryHead..c + 4 + y.entryHead + y.uci])
  }

  // ---- One block, sent and received ----

  predicate Meaningful(s: Sent) {
    && (s.Downlink? ==> 8 * P.Ceil16Bytes(s.dataLen) <= |s.eDL|)
    && (s.Control? ==> |s.entries| > 0)
  }

  /** What a block means to the DU: of a control block only the first entry. */
  function OrderOf(y: Layout, s: Sent): Order
    requires Meaningful(s)
  {
    match s
    case Downlink(key, ueConfig, config, _, dataLen, eDL) =>
      SetProcess(key, ueConfig, config, Positive(eDL, 8 * P.Ceil16Bytes(dataLen)))
    case Uplink(key, _, params) => ScheduleOrder(y, key, params)
    case Control(_, entries) => SetUci(entries[0].ue, entries[0].uci)
  }

  ghost predicate BlockOf(y: Layout, s: Sent, b: seq<Byte>) {
    ValidSent(y, s) && y.common <= |b| && b[y.common..] == Payload(y, s)
  }

  /** Bytes of the content at a place of the payload. */
  lemma AtPayload(y: Layout, s: Sent, b: seq<Byte>, lo: nat, hi: nat)
    requires BlockOf(y, s, b) && lo <= hi <= |Payload(y, s)|
    ensures y.common + hi <= |b| && b[y.common + lo..y.common + hi] == Payload(y, s)[lo..hi]
    ensures lo < hi ==> b[y.common + lo] == Payload(y, s)[lo]
  {
    var t := b[y.common..];
    assert t[lo..hi] == b[y.common + lo..y.common + hi];
  }

  lemma ReadDownlink(y: Layout, s: Sent, b: seq<Byte>)
    requires s.Downlink? && BlockOf(y, s, b)
    ensures IsDownlink(y, b)
    ensures U.Get32(b, y.common + 4) == s.key.ue && b[y.common + 8] == s.key.harq
    ensures b[y.common + 9..y.common + 44] == DlParams(s.ueConfig, s.config, s.gaps)
    ensures U.Get32(b, y.common + 44) == s.dataLen
    ensures var n := P.Ceil16Bytes(s.dataLen);
            b[y.common + DL_HEADER..y.common + DL_HEADER + n] == PackedBytes(s.eDL, s.dataLen)
  {
    DownlinkParts(y, s);
    DownlinkBytes(y, s, b);
    U.Word32At(b, y.common + 4, s.key.ue);
    U.Word32At(b, y.common + 44, s.dataLen);
  }

  lemma DownlinkBytes(y: Layout, s: Sent, b: seq<Byte>)
    requires s.Downlink? && BlockOf(y, s, b) && |Payload(y, s)| == DL_HEADER + P.Ceil16Bytes(s.dataLen)
    ensures |b| == y.common + |Payload(y, s)|
    ensures var p, c := Payload(y, s), y.common;
            && b[c] == p[0] && b[c + 4..c + 8] == p[4..8] && b[c + 8] == p[8] && b[c + 9..c + 44] == p[9..44]
            && b[c + 44..c + 48] == p[44..48] && b[c + 48..] == p[48..]
  {
    var n := |Payload(y, s)|;
    AtPayload(y, s, b, 0, 1);
    AtPayload(y, s, b, 4, 8);
    AtPayload(y, s, b, 8, 9);
    AtPayload(y, s, b, 9, 44);
    AtPayload(y, s, b, 44, 48);
    AtPayload(y, s, b, 48, n);
  }

  lemma DownlinkParts(y: Layout, s: Sent)
    requires s.Downlink? && ValidSent(y, s)
    ensures var p := Payload(y, s);
            && |p| == DL_HEADER + P.Ceil16Bytes(s.dataLen)
            && p[0] == DL_CONFIG && p[4..8] == U.Word32(s.key.ue) && p[8] == s.key.harq
            && p[9..44] == DlParams(s.ueConfig, s.config, s.gaps) && p[44..48] == U.Word32(s.dataLen)
            && p[48..48 + P.Ceil16Bytes(s.dataLen)] == PackedBytes(s.eDL, s.dataLen)
  {
    HeadSlices([DL_CONFIG] + s.gaps[..3], U.Word32(s.key.ue), [s.key.harq], DlParams(s.ueConfig, s.config, s.gaps),
               U.Word32(s.dataLen), PackedBytes(s.eDL, s.dataLen));
  }

  lemma HeadSlices(a: seq<Byte>, ue: seq<Byte>, harq: seq<Byte>, params: seq<Byte>, len: seq<Byte>, data: seq<Byte>)
    requires |a| == 4 && |ue| == 4 && |harq| == 1 && |params| == DL_PARAMS && |len| == 4
    ensures var p := a + ue + harq + params + len + data;
            && |p| == DL_HEADER + |data| && p[0] == a[0] && p[4..8] == ue && p[8] == harq[0]
            && p[9..44] == params && p[44..48] == len && p[48..48 + |data|] == data
  {
    var p := a + ue + harq + params + len + data;
    forall k | 0 <= k < DL_PARAMS ensures p[9 + k] == params[k] {}
    assert p[9..44] == params;
  }

  lemma ReadUplink(y: Layout, s: Sent, b: seq<Byte>)
    requires s.Uplink? && ValidLayout(y) && BlockOf(y, s, b)
    ensures |b| == y.common + y.sched && b[y.common] == UL_CONFIG
    ensures Get16(b, y.common + 2) == s.key.ue && b[y.common + 4] == s.key.harq
    ensures b[y.common + 5..y.common + y.sched] == s.params
  {
    var p := Payload(y, s);
    assert |p| == y.sched && p[2..4] == U.Word16(s.key.ue) && p[5..y.sched] == s.params;
    AtPayload(y, s, b, 0, 1);
    AtPayload(y, s, b, 2, 4);
    U.Word16At(b, y.common + 2, s.key.ue);
    AtPayload(y, s, b, 4, 5);
    AtPayload(y, s, b, 5, y.sched);
  }

  lemma ReadControl(y: Layout, s: Sent, b: seq<Byte>)
    requires s.Control? && ValidLayout(y) && BlockOf(y, s, b)
    ensures IsControl(y, b) && Get16(b, y.common + 2) == |s.entries| && Get16(b, y.common + 4) == s.entries[0].ue
    ensures b[y.common + 4 + y.entryHead..y.common + 4 + y.entryHead + y.uci] == s.entries[0].uci
  {
    var e, h := s.entries[0], 4 + y.entryHead;
    assert ValidEntry(y, e);
    ControlParts(y, s);
    AtPayload(y, s, b, 0, 1);
    AtPayload(y, s, b, 2, 4);
    U.Word16At(b, y.common + 2, |s.entries|);
    AtPayload(y, s, b, 4, 6);
    U.Word16At(b, y.common + 4, e.ue);
    AtPayload(y, s, b, h, h + y.uci);
  }

  lemma ControlParts(y: Layout, s: Sent)
    requires s.Control? && ValidLayout(y) && ValidSent(y, s)
    ensures var p, e, h := Payload(y, s), s.entries[0], 4 + y.entryHead;
            && |p| >= h + y.uci && p[0] == CCH_CONFIG && p[2..4] == U.Word16(|s.entries|)
            && p[4..6] == U.Word16(e.ue) && p[h..h + y.uci] == e.uci
  {
    var e := s.entries[0];
    assert ValidEntry(y, e);
    var head := [CCH_CONFIG, s.filler] + U.Word16(|s.entries|);
    assert Payload(y, s) == head + U.Word16(e.ue) + e.padding + e.uci + EntriesBytes(s.entries[1..]);
  }

  lemma ProcessRead(y: Layout, b: seq<Byte>, key: Key, params: seq<Byte>, packed: seq<Byte>)
    requires IsDownlink(y, b) && |params| == DL_PARAMS
    requires U.Get32(b, y.common + 4) == key.ue && b[y.common + 8] == key.harq
    requires b[y.common + 9..y.common + 44] == params
    requires b[y.common + DL_HEADER..y.common + DL_HEADER + P.Ceil16Bytes(U.Get32(b, y.common + 44))] == packed
    ensures ReadProcess(y, b) == SetProcess(key, UePart(params), ConfigPart(params), Unpacked(packed))
  {
    assert U.Key(key.ue, key.harq) == key;
  }

  lemma ParseDownlink(y: Layout, s: Sent, b: seq<Byte>)
    requires s.Downlink? && BlockOf(y, s, b)
    ensures Meaningful(s) && IsDownlink(y, b) && ReadProcess(y, b) == OrderOf(y, s)
  {
    var params, packed := DlParams(s.ueConfig, s.config, s.gaps), PackedBytes(s.eDL, s.dataLen);
    ReadDownlink(y, s, b);
    ProcessRead(y, b, s.key, params, packed);
    UnpackedPacked(s.eDL, s.dataLen);
    PartsRoundTrip(s.ueConfig, s.config, s.gaps);
  }

  lemma ParseUplink(y: Layout, s: Sent, b: seq<Byte>)
    requires s.Uplink? && ValidLayout(y) && BlockOf(y, s, b)
    ensures |b| > y.common && b[y.common] == UL_CONFIG && ReadSchedule(y, b) == OrderOf(y, s)
  {
    ReadUplink(y, s, b);
    assert U.Key(s.key.ue, s.key.harq) == s.key;
  }

  lemma ParseControl(y: Layout, s: Sent, b: seq<Byte>)
    requires s.Control? && ValidLayout(y) && BlockOf(y, s, b)
    ensures Meaningful(s) && IsControl(y, b) && ReadUci(y, b) == OrderOf(y, s)
  {
    ReadControl(y, s, b);
  }

  /** One block: what is read is what was meant. */
  lemma ParseSent(y: Layout, s: Sent, b: seq<Byte>)
    requires ValidLayout(y) && BlockOf(y, s, b)
    ensures Meaningful(s) && Parsable(y, b) && Parse(y, b) == OrderOf(y, s)
  {
    match s
    case Downlink(_, _, _, _, _, _) => ParseDownlink(y, s, b);
    case Uplink(_, _, _) => ParseUplink(y, s, b);
    case Control(_, _) => ParseControl(y, s, b);
  }

  /** Blocks that no writer made: those of a foreign type are impossible; those that are too short, or announce no
      entry, say nothing. */
  lemma ParseAny(y: Layout, b: seq<Byte>)
    requires ValidLayout(y) && Parsable(y, b)
    ensures Parse(y, b).Impossible? <==>
            |b| > y.common && b[y.common] != DL_CONFIG && b[y.common] != UL_CONFIG && b[y.common] != CCH_CONFIG
    ensures Parse(y, b).NoOrder? <==>
            || |b| <= y.common
            || (b[y.common] == UL_CONFIG && |b| < y.common + y.sched)
            || (b[y.common] == CCH_CONFIG && Get16(b, y.common + 2) == 0)
  {
  }

  // ---- A subframe, sent and received ----

  ghost predicate AllParsable(y: Layout, bodies: seq<seq<Byte>>) {
    forall k :: 0 <= k < |bodies| ==> Parsable(y, bodies[k])
  }

  ghost predicate BlocksOf(y: Layout, sents: seq<Sent>, bodies: seq<seq<Byte>>) {
    |bodies| == |sents| && forall k :: 0 <= k < |sents| ==> BlockOf(y, sents[k], bodies[k])
  }

  ghost function ParseAll(y: Layout, bodies: seq<seq<Byte>>): seq<Order>
    requires ValidLayout(y) && AllParsable(y, bodies)
  {
    seq(|bodies|, (k: nat) requires k < |bodies| => Parse(y, bodies[k]))
  }

  /** A subframe gives the DU the orders that were sent, block by block. */
  lemma OrdersArrive(y: Layout, sents: seq<Sent>, bodies: seq<seq<Byte>>)
    requires ValidLayout(y) && BlocksOf(y, sents, bodies)
    ensures AllParsable(y, bodies)
    ensures forall k :: 0 <= k < |sents| ==> Meaningful(sents[k]) && ParseAll(y, bodies)[k] == OrderOf(y, sents[k])
  {
    forall k | 0 <= k < |sents|
      ensures Meaningful(sents[k]) && Parsable(y, bodies[k]) && Parse(y, bodies[k]) == OrderOf(y, sents[k])
    {
      assert BlockOf(y, sents[k], bodies[k]);
      ParseSent(y, sents[k], bodies[k]);
    }
  }

  /** Main result: after a subframe the DU holds what every block said that no later block replaced. */
  lemma SubframeArrives(y: Layout, du: Du, at: When, sents: seq<Sent>, bodies: seq<seq<Byte>>, k: nat)
    requires ValidLayout(y) && BlocksOf(y, sents, bodies) && k < |sents|
    requires forall l :: k < l < |sents| ==> !SameTarget(sents[l], sents[k])
    ensures AllParsable(y, bodies) && Meaningful(sents[k])
    ensures Held(DoAll(du, at, ParseAll(y, bodies)), at, OrderOf(y, sents[k]))
  {
    OrdersArrive(y, sents, bodies);
    var orders := ParseAll(y, bodies);
    assert orders[k] == OrderOf(y, sents[k]);
    forall l | k < l < |orders| ensures !Replaces(orders[l], orders[k]) {
      assert orders[l] == OrderOf(y, sents[l]) && !SameTarget(sents[l], sents[k]);
    }
    Arrives(du, at, orders, k);
  }

  /** And of the parameters kept per UE it holds those of the last downlink block, or schedule, for that UE. */
  lemma UeOfSubframeArrives(y: Layout, du: Du, at: When, sents: seq<Sent>, bodies: seq<seq<Byte>>, k: nat)
    requires ValidLayout(y) && BlocksOf(y, sents, bodies) && k < |sents|
    requires forall l :: k < l < |sents| ==> !SameUeTarget(sents[l], sents[k])
    ensures AllParsable(y, bodies) && Meaningful(sents[k])
    ensures HeldUe(DoAll(du, at, ParseAll(y, bodies)), at, OrderOf(y, sents[k]))
  {
    OrdersArrive(y, sents, bodies);
    var orders := ParseAll(y, bodies);
    assert orders[k] == OrderOf(y, sents[k]);
    forall l | k < l < |orders| ensures !SameUe(orders[l], orders[k]) {
      assert orders[l] == OrderOf(y, sents[l]) && !SameUeTarget(sents[l], sents[k]);
    }
    UeArrives(du, at, orders, k);
  }

  /** Two downlink blocks, or two schedules, for one UE. */
  predicate SameUeTarget(t: Sent, s: Sent) {
    ((s.Downlink? && t.Downlink?) || (s.Uplink? && t.Uplink?)) && t.key.ue == s.key.ue
  }

  /** Two blocks about the same process, schedule or (by their first entries) control variables. */
  predicate SameTarget(t: Sent, s: Sent) {
    match s
    case Downlink(key, _, _, _, _, _) => t.Downlink? && t.key == key
    case Uplink(key, _, _) => t.Uplink? && t.key == key
    case Control(_, entries) => t.Control? && |entries| > 0 && |t.entries| > 0 && t.entries[0].ue == entries[0].ue
  }

  /** Soft bits that are 0 or 1 arrive as they are. */
  lemma BitsArrive(y: Layout, du: Du, at: When, s: Sent)
    requires s.Downlink? && Meaningful(s) && Held(du, at, OrderOf(y, s))
    requires s.dataLen <= |s.eDL| && forall j :: 0 <= j < s.dataLen ==> s.eDL[j] <= 1
    ensures s.key in du.downlink && s.dataLen <= |du.downlink[s.key].eDL|
    ensures du.downlink[s.key].eDL[..s.dataLen] == s.eDL[..s.dataLen]
  {
    P.PackedSize(s.dataLen);
    var bits := Positive(s.eDL, 8 * P.Ceil16Bytes(s.dataLen));
    assert bits[..s.dataLen] == s.eDL[..s.dataLen];
    assert du.downlink[s.key].eDL[..s.dataLen] == bits[..s.dataLen];
  }

  /** Every byte of a schedule is found at the place it belongs to. */
  lemma ScheduleArrives(y: Layout, du: Du, at: When, s: Sent, i: nat)
    requires s.Uplink? && Held(du, at, OrderOf(y, s)) && HeldUe(du, at, OrderOf(y, s)) && i < |s.params|
    ensures s.key in du.schedules && s.key.ue in du.uplinkUes
    ensures var ours, ues := du.schedules[s.key].fields, du.uplinkUes[s.key.ue];
            && (y.place(i) == PerProcess ==> i in ours && ours[i] == s.params[i] && i !in ues)
            && (y.place(i) == PerUe ==> i in ues && ues[i] == s.params[i] && i !in ours)
            && (y.place(i) == Nowhere ==> i !in ours && i !in ues)
  {
  }

  /** Of a control block with several entries for different UEs only the first takes effect: all are held afterwards
      exactly if the DU held the others before. */
  lemma ControlArrivesExactly(y: Layout, du: Du, at: When, s: Sent)
    requires s.Control? && Meaningful(s)
    requires forall j, k :: 0 <= j < k < |s.entries| ==> s.entries[j].ue != s.entries[k].ue
    ensures (forall k :: 0 <= k < |s.entries| ==> HeldUci(Do(du, at, OrderOf(y, s)), s.entries[k].ue, s.entries[k].uci))
       <==> (forall k :: 1 <= k < |s.entries| ==> HeldUci(du, s.entries[k].ue, s.entries[k].uci))
  {
    var du' := Do(du, at, OrderOf(y, s));
    assert HeldUci(du', s.entries[0].ue, s.entries[0].uci);
    forall k | 1 <= k < |s.entries|
      ensures HeldUci(du', s.entries[k].ue, s.entries[k].uci) <==> HeldUci(du, s.entries[k].ue, s.entries[k].uci)
    {
      assert s.entries[0].ue != s.entries[k].ue;
    }
  }

  // ---- The writers ----

  /** The entry is that of an active control variable with an index below n. */
  ghost predicate EntryOf(e: Entry, active: seq<bool>, uci: seq<seq<Byte>>, n: nat)
    requires n <= |active| == |uci|
  {
    e.ue < n && active[e.ue] && e.uci == uci[e.ue]
  }

  /** The loop of `appendFs6DLUEcch`: the entries of the active control variables, in order of their index. */
  method ActiveEntries(y: Layout, active: seq<bool>, uci: seq<seq<Byte>>, padding: seq<Byte>)
    returns (entries: seq<Entry>)
    requires |active| == |uci| < 0x8000 && |padding| == y.entryHead - 2
    requires forall k :: 0 <= k < |uci| ==> |uci[k]| == y.uci
    ensures forall j, k :: 0 <= j < k < |entries| ==> entries[j].ue < entries[k].ue
    ensures forall k :: 0 <= k < |entries| ==> ValidEntry(y, entries[k]) && EntryOf(entries[k], active, uci, |active|)
    ensures forall i :: 0 <= i < |active| && active[i] ==> Entry(i, padding, uci[i]) in entries
    ensures |entries| <= |active|
  {
    entries := [];
    for i := 0 to |active|
      invariant |entries| <= i
      invariant forall j, k :: 0 <= j < k < |entries| ==> entries[j].ue < entries[k].ue
      invariant forall k :: 0 <= k < |entries| ==> ValidEntry(y, entries[k]) && EntryOf(entries[k], active, uci, i)
      invariant forall j :: 0 <= j < i && active[j] ==> Entry(j, padding, uci[j]) in entries
    {
      if active[i] {
        entries := entries + [Entry(i, padding, uci[i])];
      }
    }
  }

  /** `appendFs6TxULUE` and the block of `appendFs6DLUEcch`.  A content of 65536 bytes or more is cut short. */
  method AppendSent(zone: array<Byte>, y: Layout, s: Sent, ghost bodies: seq<seq<Byte>>) returns (ghost body: seq<Byte>)
    requires Holds(zone[..], bodies) && zone.Length <= BUFFER_SIZE && ValidSent(y, s)
    requires Size(bodies) + Aligned(y.common + |Payload(y, s)|) <= zone.Length
    modifies zone
    ensures Holds(zone[..], bodies + [Kept(body)]) && BlockOf(y, s, body)
    ensures SameEarlier(old(zone[..]), zone[..], Size(bodies))
  {
    var payload := Payload(y, s);
    body := NewBody(zone[..], Size(bodies), y.common, payload);
    assert body[y.common..] == payload;
    Append(zone, y.common, payload, bodies);
  }

  /** `appendFs6DLUE`: the content is packed by `fs6Dlpack`. */
  method AppendDownlink(zone: array<Byte>, y: Layout, key: Key, ueConfig: DlUe, config: DlConfig, gaps: seq<Byte>,
                        dataLen: nat, eDL: seq<Byte>, ghost bodies: seq<seq<Byte>>)
    returns (ghost body: seq<Byte>)
    requires Holds(zone[..], bodies) && zone.Length <= BUFFER_SIZE
    requires ValidSent(y, Downlink(key, ueConfig, config, gaps, dataLen, eDL))
    requires Size(bodies) + Aligned(y.common + DL_HEADER + P.Ceil16Bytes(dataLen)) <= zone.Length
    modifies zone
    ensures Holds(zone[..], bodies + [Kept(body)])
    ensures BlockOf(y, Downlink(key, ueConfig, config, gaps, dataLen, eDL), body)
    ensures SameEarlier(old(zone[..]), zone[..], Size(bodies))
  {
    var packed := P.Pack(Signeds(eDL), dataLen);
    var bytes := ToBytes(packed);
    assert bytes == PackedBytes(eDL, dataLen);
    var payload := ([DL_CONFIG] + gaps[..3]) + U.Word32(key.ue) + [key.harq] + DlParams(ueConfig, config, gaps)
                   + U.Word32(dataLen) + bytes;
    body := NewBody(zone[..], Size(bodies), y.common, payload);
    assert body[y.common..] == payload;
    Append(zone, y.common, payload, bodies);
  }

  // ---- The reader ----

  method UnpackBits(packed: seq<Byte>, dataLen: nat) returns (bits: seq<Byte>)
    requires |packed| == P.Ceil16Bytes(dataLen)
    ensures bits == Unpacked(packed)
  {
    var expanded := P.Unpack(FromBytes(packed), dataLen);
    assert FromBytes(packed)[..P.Ceil16Bytes(dataLen)] == FromBytes(packed);
    bits := Bits(expanded);
  }

  class DuReceiver {
    var downlink: map<Key, Process>
    var ues: map<nat, DlUe>
    var active: set<nat>
    var harqIds: map<HarqIndex, nat>
    var schedules: map<Key, Schedule>
    var uplinkUes: map<nat, Fields>
    var uci: map<nat, seq<Byte>>
    var errors: nat

    constructor (downlink: map<Key, Process>)
      ensures State() == Du(downlink, map[], {}, map[], map[], map[], map[], 0)
    {
      this.downlink, ues, active, harqIds := downlink, map[], {}, map[];
      schedules, uplinkUes, uci, errors := map[], map[], map[], 0;
    }

    function State(): Du
      reads this
    {
      Du(downlink, ues, active, harqIds, schedules, uplinkUes, uci, errors)
    }

    /** `rcvFs6DL` on the blocks actually received. */
    method RcvFs6DL(y: Layout, zone: seq<Byte>, nbBlocks: nat, at: When, ghost bodies: seq<seq<Byte>>)
      requires ValidLayout(y) && Meets(zone, 0, bodies) && nbBlocks == |bodies| && AllParsable(y, bodies)
      modifies this
      ensures State() == DoAll(old(State()), at, ParseAll(y, bodies))
    {
      ghost var du, orders := State(), ParseAll(y, bodies);
      var bufPtr: nat := 0;
      assert bodies[0..] == bodies;
      for i := 0 to nbBlocks
        invariant Meets(zone, bufPtr, bodies[i..])
        invariant State() == DoAll(du, at, orders[..i])
      {
        bufPtr := ReceiveNext(y, zone, bufPtr, at, bodies, orders, i, du);
      }
      assert orders[..nbBlocks] == orders;
    }

    /** One round of the loop. */
    method ReceiveNext(y: Layout, zone: seq<Byte>, bufPtr: nat, at: When,
                       ghost bodies: seq<seq<Byte>>, ghost orders: seq<Order>, ghost i: nat, ghost du: Du)
      returns (next: nat)
      requires ValidLayout(y) && AllParsable(y, bodies) && orders == ParseAll(y, bodies) && i < |bodies|
      requires Meets(zone, bufPtr, bodies[i..]) && State() == DoAll(du, at, orders[..i])
      modifies this
      ensures Meets(zone, next, bodies[i + 1..]) && State() == DoAll(du, at, orders[..i + 1])
    {
      NextMet(zone, bufPtr, bodies, i);
      DoOneMore(du, at, orders, i);
      next := ReceiveAt(y, zone, bufPtr, at, bodies[i], orders[i]);
    }

    method ReceiveAt(y: Layout, zone: seq<Byte>, bufPtr: nat, at: When, ghost body: seq<Byte>, ghost order: Order)
      returns (next: nat)
      requires ValidLayout(y) && Parsable(y, body) && ContentAt(zone, bufPtr, body) && order == Parse(y, body)
      modifies this
      ensures State() == Do(old(State()), at, order) && next == bufPtr + Aligned(|body|)
    {
      var contentBytes := Get16(zone, bufPtr + CONTENT_BYTES);
      ReceiveBlock(y, zone[bufPtr + HEADER..bufPtr + HEADER + contentBytes], at, order);
      next := bufPtr + Aligned(contentBytes);
    }

    /** The body of the loop: dispatch on the type of the block. */
    method ReceiveBlock(y: Layout, b: seq<Byte>, at: When, ghost order: Order)
      requires ValidLayout(y) && Parsable(y, b) && order == Parse(y, b)
      modifies this
      ensures State() == Do(old(State()), at, order)
    {
      if |b| > y.common {
        if b[y.common] == DL_CONFIG {
          ReceiveDownlink(y, b, at);
        } else if b[y.common] == UL_CONFIG {
          ReceiveSchedules(y, b, at);
        } else if b[y.common] == CCH_CONFIG {
          ReceiveControl(y, b, at);
        } else {
          errors := errors + 1;
        }
      }
    }

    /** The fs6DlConfig branch: the soft bits are unpacked by `fs6Dlunpack`. */
    method ReceiveDownlink(y: Layout, b: seq<Byte>, at: When)
      requires IsDownlink(y, b)
      modifies this
      ensures State() == Do(old(State()), at, ReadProcess(y, b))
    {
      var c := y.common;
      var dataLen := U.Get32(b, c + 44);
      var packed := b[c + DL_HEADER..c + DL_HEADER + P.Ceil16Bytes(dataLen)];
      var bits := UnpackBits(packed, dataLen);
      var key, params := U.Key(U.Get32(b, c + 4), b[c + 8]), b[c + 9..c + 44];
      StoreProcess(key, at, UePart(params), ConfigPart(params), bits);
    }

    method StoreProcess(key: Key, at: When, ueConfig: DlUe, config: DlConfig, bits: seq<Byte>)
      modifies this
      ensures State() == Do(old(State()), at, SetProcess(key, ueConfig, config, bits))
    {
      active := active + {key.ue};
      harqIds := harqIds[IndexOf(key.ue, at) := key.harq];
      ues := ues[key.ue := ueConfig];
      downlink := downlink[key := Process(config, Overwritten(State(), key, bits))];
    }

    /** The fs6UlConfig branch: every round of the loop reads the same place. */
    method ReceiveSchedules(y: Layout, b: seq<Byte>, at: When)
      requires ValidLayout(y) && |b| > y.common && b[y.common] == UL_CONFIG
      modifies this
      ensures State() == Do(old(State()), at, ReadSchedule(y, b))
    {
      var c := y.common;
      var nbUE := (|b| - c) / y.sched;
      Rounds(|b| - c, y.sched);
      if nbUE > 0 {
        StoreSchedules(y, U.Key(Get16(b, c + 2), b[c + 4]), at, b[c + 5..c + y.sched], nbUE);
      }
    }

    method StoreSchedules(y: Layout, key: Key, at: When, params: seq<Byte>, nbUE: nat)
      requires nbUE > 0
      modifies this
      ensures State() == Do(old(State()), at, ScheduleOrder(y, key, params))
    {
      ghost var du, order := State(), ScheduleOrder(y, key, params);
      for i := 0 to nbUE
        invariant State() == if i == 0 then du else Do(du, at, order)
      {
        if i > 0 { ScheduledTwice(du, at, order); }
        StoreSchedule(y, key, at, params);
      }
    }

    method StoreSchedule(y: Layout, key: Key, at: When, params: seq<Byte>)
      modifies this
      ensures State() == Do(old(State()), at, ScheduleOrder(y, key, params))
    {
      uplinkUes := uplinkUes[key.ue := FieldsAt(y, params, PerUe)];
      schedules := schedules[key := Schedule(at, FieldsAt(y, params, PerProcess))];
    }

    /** The fs6ULConfigCCH branch: the pointer to the entry is not advanced. */
    method ReceiveControl(y: Layout, b: seq<Byte>, ghost at: When)
      requires ValidLayout(y) && |b| > y.common && IsControl(y, b)
      modifies this
      ensures State() == Do(old(State()), at, ReadUci(y, b))
    {
      var c := y.common;
      ghost var du := State();
      for i := 0 to Get16(b, c + 2)
        invariant State() == if i == 0 then du else Do(du, at, ReadUci(y, b))
      {
        uci := uci[Get16(b, c + 4) := b[c + 4 + y.entryHead..c + 4 + y.entryHead + y.uci]];
      }
    }
  }

  lemma Rounds(n: nat, m: nat)
    requires m > 0
    ensures n / m >= 1 <==> n >= m
    ensures n / m >= 0
  {
    Arith.DivMod(n, m);
    Arith.MulAtLeast(n / m, m);
    if n < m { Arith.DivModUnique(n, m, 0, n); }
  }
}
