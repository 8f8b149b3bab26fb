/** What the blocks of a downlink subframe do to the DU, one order after the other. */
module Fs6Orders {
  import opened Fs6Zone
  import U = Fs6Uplink

  type Key = U.Key

  /** The subframe for which `rcvFs6DL` is called. */
  datatype When = When(frame: nat, subframe: nat)

  /** What a downlink block says of the UE: RNTI, power factors and eMTC parameters. */
  datatype DlUe = DlUe(rnti: nat, sqrtRhoA: nat, sqrtRhoB: nat, sib1BrFlag: Byte, i0: nat)

  /** What it says of the HARQ process: resource blocks, modulation order, layers, PDSCH start and allocation. */
  datatype DlConfig = DlConfig(nbRb: nat, qm: Byte, nl: Byte, pdschStart: Byte, rbAlloc: seq<Byte>)

  /** Bytes of an uplink schedule by their place in the structure. */
  type Fields = map<nat, Byte>

  datatype Order =
    | SetProcess(key: Key, ueConfig: DlUe, config: DlConfig, bits: seq<Byte>)
    | SetSchedule(key: Key, ueFields: Fields, fields: Fields)
    | SetUci(ue: nat, uci: seq<Byte>)
    | NoOrder
    | Impossible

  /** A downlink HARQ process: its parameters and its soft-bit buffer. */
  datatype Process = Process(config: DlConfig, eDL: seq<Byte>)

  /** An uplink HARQ process: the subframe it is scheduled for, and its parameters. */
  datatype Schedule = Schedule(at: When, fields: Fields)

  /** An index of `harq_ids`, which distinguishes even and odd frames. */
  datatype HarqIndex = HarqIndex(ue: nat, parity: nat, subframe: nat)

  /** Downlink processes by UE and HARQ number, downlink data by UE, the UEs with active downlink and the HARQ number
      of each subframe; uplink schedules by UE and HARQ number and uplink data by UE; control variables by index; error
      messages. */
  datatype Du = Du(
    downlink: map<Key, Process>,
    ues: map<nat, DlUe>,
    active: set<nat>,
    harqIds: map<HarqIndex, nat>,
    schedules: map<Key, Schedule>,
    uplinkUes: map<nat, Fields>,
    uci: map<nat, seq<Byte>>,
    errors: nat)

  function IndexOf(ue: nat, at: When): HarqIndex { HarqIndex(ue, at.frame % 2, at.subframe) }

  /** The buffer with its start overwritten. */
  function Overwritten(du: Du, key: Key, bits: seq<Byte>): seq<Byte> {
    bits + if key in du.downlink && |bits| <= |du.downlink[key].eDL| then du.downlink[key].eDL[|bits|..] else []
  }

  function Do(du: Du, at: When, o: Order): Du {
    match o
    case SetProcess(key, ueConfig, config, bits) =>
      du.(downlink := du.downlink[key := Process(config, Overwritten(du, key, bits))],
          ues := du.ues[key.ue := ueConfig], active := du.active + {key.ue},
          harqIds := du.harqIds[IndexOf(key.ue, at) := key.harq])
    case SetSchedule(key, ueFields, fields) =>
      du.(schedules := du.schedules[key := Schedule(at, fields)], uplinkUes := du.uplinkUes[key.ue := ueFields])
    case SetUci(ue, uci) => du.(uci := du.uci[ue := uci])
    case NoOrder => du
    case Impossible => du.(errors := du.errors + 1)
  }

  function DoAll(du: Du, at: When, orders: seq<Order>): Du {
    if orders == [] then du else Do(DoAll(du, at, orders[..|orders| - 1]), at, orders[|orders| - 1])
  }

  lemma DoOneMore(du: Du, at: When, orders: seq<Order>, i: nat)
    requires i < |orders|
    ensures DoAll(du, at, orders[..i + 1]) == Do(DoAll(du, at, orders[..i]), at, orders[i])
  {
    assert orders[..i + 1][..i] == orders[..i];
  }

  /** The DU holds what the order says. */
  ghost predicate Held(du: Du, at: When, o: Order) {
    match o
    case SetProcess(key, _, config, bits) =>
      && key in du.downlink && du.downlink[key].config == config && bits <= du.downlink[key].eDL
      && key.ue in du.active
    case SetSchedule(key, _, fields) => key in du.schedules && du.schedules[key] == Schedule(at, fields)
    case SetUci(ue, uci) => HeldUci(du, ue, uci)
    case NoOrder => true
    case Impossible => du.errors > 0
  }

  ghost predicate HeldUci(du: Du, ue: nat, uci: seq<Byte>) { ue in du.uci && du.uci[ue] == uci }

  /** Order t is about the same thing as order o. */
  predicate Replaces(t: Order, o: Order) {
    match o
    case SetProcess(key, _, _, _) => t.SetProcess? && t.key == key
    case SetSchedule(key, _, _) => t.SetSchedule? && t.key == key
    case SetUci(ue, _) => t.SetUci? && t.ue == ue
    case NoOrder => false
    case Impossible => false
  }

  /** The DU ends up with what every order said that no later order replaced. */
  lemma {:induction false} Arrives(du: Du, at: When, orders: seq<Order>, k: nat)
    requires k < |orders| && forall l :: k < l < |orders| ==> !Replaces(orders[l], orders[k])
    ensures Held(DoAll(du, at, orders), at, orders[k])
  {
    var n := |orders| - 1;
    if k < n {
      var init := orders[..n];
      assert forall l :: 0 <= l < n ==> init[l] == orders[l];
      Arrives(du, at, init, k);
      StaysHeld(DoAll(du, at, init), at, orders[n], orders[k]);
    } else {
      DoneHeld(DoAll(du, at, orders[..n]), at, orders[n]);
    }
  }

  lemma DoneHeld(du: Du, at: When, o: Order)
    ensures Held(Do(du, at, o), at, o) && HeldUe(Do(du, at, o), at, o)
  {
  }

  lemma StaysHeld(du: Du, at: When, t: Order, o: Order)
    requires Held(du, at, o) && !Replaces(t, o)
    ensures Held(Do(du, at, t), at, o)
  {
  }

  /** The DU holds what the order says of the UE as a whole. */
  ghost predicate HeldUe(du: Du, at: When, o: Order) {
    && (o.SetProcess? ==> o.key.ue in du.ues && du.ues[o.key.ue] == o.ueConfig && HeldHarq(du, at, o.key))
    && (o.SetSchedule? ==> o.key.ue in du.uplinkUes && du.uplinkUes[o.key.ue] == o.ueFields)
  }

  /** The process is the one of its UE in the subframe. */
  ghost predicate HeldHarq(du: Du, at: When, key: Key) {
    IndexOf(key.ue, at) in du.harqIds && du.harqIds[IndexOf(key.ue, at)] == key.harq
  }

  /** Both orders are about the downlink, or both about the uplink, of one UE. */
  predicate SameUe(t: Order, o: Order) {
    && ((o.SetProcess? && t.SetProcess?) || (o.SetSchedule? && t.SetSchedule?))
    && t.key.ue == o.key.ue
  }

  /** Those parameters last only until the next order for the same UE, on whatever process. */
  lemma {:induction false} UeArrives(du: Du, at: When, orders: seq<Order>, k: nat)
    requires k < |orders| && forall l :: k < l < |orders| ==> !SameUe(orders[l], orders[k])
    ensures HeldUe(DoAll(du, at, orders), at, orders[k])
  {
    var n := |orders| - 1;
    if k < n {
      var init := orders[..n];
      assert forall l :: 0 <= l < n ==> init[l] == orders[l];
      UeArrives(du, at, init, k);
      StaysHeldUe(DoAll(du, at, init), at, orders[n], orders[k]);
    } else {
      DoneHeld(DoAll(du, at, orders[..n]), at, orders[n]);
    }
  }

  lemma StaysHeldUe(du: Du, at: When, t: Order, o: Order)
    requires HeldUe(du, at, o) && !SameUe(t, o)
    ensures HeldUe(Do(du, at, t), at, o)
  {
  }

  /** A schedule carried out twice is carried out once. */
  lemma ScheduledTwice(du: Du, at: When, o: Order)
    requires o.SetSchedule? || o.SetUci?
    ensures Do(Do(du, at, o), at, o) == Do(du, at, o)
  {
  }

  /** The orders say the same of the UE. */
  predicate SameUeParams(t: Order, o: Order)
    requires SameUe(t, o)
  {
    if o.SetProcess? then t.ueConfig == o.ueConfig && t.key.harq == o.key.harq else t.ueFields == o.ueFields
  }

  /** An order for the same UE on another process replaces what was said of the UE, while both processes keep their own
      parameters. */
  lemma UeReplaced(du: Du, at: When, o: Order, t: Order)
    requires SameUe(t, o) && o.key != t.key
    ensures var du' := Do(Do(du, at, o), at, t);
            && Held(du', at, o) && Held(du', at, t) && HeldUe(du', at, t)
            && (HeldUe(du', at, o) <==> SameUeParams(t, o))
  {
  }

  ghost predicate SameAt<K, V>(m: map<K, V>, m': map<K, V>, k: K) {
    (k in m <==> k in m') && (k in m ==> m'[k] == m[k])
  }

  /** Both states agree on what the order is about. */
  ghost predicate Agree(du: Du, du': Du, o: Order) {
    match o
    case SetProcess(key, _, _, _) => SameAt(du.downlink, du'.downlink, key)
    case SetSchedule(key, _, _) => SameAt(du.schedules, du'.schedules, key)
    case SetUci(ue, _) => SameAt(du.uci, du'.uci, ue)
    case _ => true
  }

  /** What none of the orders is about stays as it was. */
  lemma {:induction false} Untouched(du: Du, at: When, orders: seq<Order>, o: Order)
    requires forall k :: 0 <= k < |orders| ==> !Replaces(orders[k], o)
    ensures Agree(du, DoAll(du, at, orders), o)
  {
    if orders != [] {
      var n := |orders| - 1;
      assert forall k :: 0 <= k < n ==> orders[..n][k] == orders[k];
      Untouched(du, at, orders[..n], o);
      StaysUntouched(DoAll(du, at, orders[..n]), at, orders[n], o);
    }
  }

  lemma StaysUntouched(du: Du, at: When, t: Order, o: Order)
    requires !Replaces(t, o)
    ensures Agree(du, Do(du, at, t), o)
  {
  }

  /** Soft bits of a process behind those that orders write stay as they were. */
  lemma {:induction false} TailKept(du: Du, at: When, orders: seq<Order>, key: Key, i: nat)
    requires key in du.downlink && i < |du.downlink[key].eDL|
    requires forall k :: 0 <= k < |orders| && orders[k].SetProcess? && orders[k].key == key ==> |orders[k].bits| <= i
    ensures var du' := DoAll(du, at, orders);
            key in du'.downlink && i < |du'.downlink[key].eDL| && du'.downlink[key].eDL[i] == du.downlink[key].eDL[i]
  {
    if orders != [] {
      var n := |orders| - 1;
      assert forall k :: 0 <= k < n ==> orders[..n][k] == orders[k];
      TailKept(du, at, orders[..n], key, i);
      TailStays(DoAll(du, at, orders[..n]), at, orders[n], key, i);
    }
  }

  lemma TailStays(du: Du, at: When, o: Order, key: Key, i: nat)
    requires key in du.downlink && i < |du.downlink[key].eDL|
    requires o.SetProcess? && o.key == key ==> |o.bits| <= i
    ensures var du' := Do(du, at, o);
            key in du'.downlink && i < |du'.downlink[key].eDL| && du'.downlink[key].eDL[i] == du.downlink[key].eDL[i]
  {
  }

  function CountImpossible(orders: seq<Order>): nat {
    if orders == [] then 0
    else CountImpossible(orders[..|orders| - 1]) + if orders[|orders| - 1].Impossible? then 1 else 0
  }

  /** Every impossible block is reported once, and no other. */
  lemma {:induction false} ErrorsCount(du: Du, at: When, orders: seq<Order>)
    ensures DoAll(du, at, orders).errors == du.errors + CountImpossible(orders)
  {
    if orders != [] { ErrorsCount(du, at, orders[..|orders| - 1]); }
  }
}
