/**
 Removal of UEs in `rx_func`: for each RNTI on the removal list the loops clear every ULSCH and every active
 PUCCH that carries it, in place, and count what they cleared.
 */
module RntiRemoval {

  datatype Status = Idle | Active | CbaActive | Disabled

  datatype Harq = Harq(status: Status, round: nat, handled: nat)

  datatype Ulsch = Ulsch(rnti: int, harqMask: nat, harq: seq<Harq>)

  datatype Pucch = Pucch(active: nat, rnti: int)

  // ---- One entry, one RNTI ----

  function Cleaned(u: Ulsch): Ulsch { Ulsch(0, 0, seq(|u.harq|, _ => Harq(Idle, 0, 0))) }

  predicate UlschHit(u: Ulsch, r: int) { u.rnti == r }

  predicate PucchHit(p: Pucch, r: int) { p.active > 0 && p.rnti == r }

  function UlschAfter(u: Ulsch, r: int): Ulsch { if UlschHit(u, r) then Cleaned(u) else u }

  function PucchAfter(p: Pucch, r: int): Pucch { if PucchHit(p, r) then Pucch(0, 0) else p }

  // ---- One entry, the whole list ----

  function UlschAfterAll(u: Ulsch, list: seq<int>): Ulsch {
    if list == [] then u else UlschAfter(UlschAfterAll(u, list[..|list| - 1]), list[|list| - 1])
  }

  function PucchAfterAll(p: Pucch, list: seq<int>): Pucch {
    if list == [] then p else PucchAfter(PucchAfterAll(p, list[..|list| - 1]), list[|list| - 1])
  }

  /** How often the loops count this entry. */
  function UlschHits(u: Ulsch, list: seq<int>): nat {
    if list == [] then 0
    else
      var init := list[..|list| - 1];
      UlschHits(u, init) + if UlschHit(UlschAfterAll(u, init), list[|list| - 1]) then 1 else 0
  }

  function PucchHits(p: Pucch, list: seq<int>): nat {
    if list == [] then 0
    else
      var init := list[..|list| - 1];
      PucchHits(p, init) + if PucchHit(PucchAfterAll(p, init), list[|list| - 1]) then 1 else 0
  }

  // The same as functions of the entry alone.

  function UlschHitsOn(list: seq<int>): Ulsch -> nat { (u: Ulsch) => UlschHits(u, list) }

  function PucchHitsOn(list: seq<int>): Pucch -> nat { (p: Pucch) => PucchHits(p, list) }

  function UlschListed(list: seq<int>): Ulsch -> bool { (u: Ulsch) => u.rnti in list }

  function PucchListed(list: seq<int>): Pucch -> bool { (p: Pucch) => p.active > 0 && p.rnti in list }

  // ---- Sums over the entries ----

  function Sum<T>(xs: seq<T>, f: T -> nat): nat {
    if xs == [] then 0 else Sum(xs[..|xs| - 1], f) + f(xs[|xs| - 1])
  }

  lemma {:induction false} SumAdds<T>(xs: seq<T>, f: T -> nat, g: T -> nat, h: T -> nat)
    requires forall x :: h(x) == f(x) + g(x)
    ensures Sum(xs, h) == Sum(xs, f) + Sum(xs, g)
  {
    if xs != [] { SumAdds(xs[..|xs| - 1], f, g, h); }
  }

  /** Summing over updated entries is summing what the update makes of each entry. */
  lemma {:induction false} SumOfUpdated<T>(xs: seq<T>, ys: seq<T>, after: T -> T, f: T -> nat, g: T -> nat)
    requires |xs| == |ys| && forall k :: 0 <= k < |xs| ==> ys[k] == after(xs[k])
    requires forall x :: g(x) == f(after(x))
    ensures Sum(ys, f) == Sum(xs, g)
  {
    if xs != [] {
      var n := |xs| - 1;
      SumOfUpdated(xs[..n], ys[..n], after, f, g);
    }
  }

  /** The indices of the entries that satisfy p. */
  function Where<T>(xs: seq<T>, p: T -> bool): set<int> { set j | 0 <= j < |xs| && p(xs[j]) }

  /** A sum of at least one per marked entry exceeds the number of marked entries exactly if some entry counts
      more than it should. */
  lemma {:induction false} SumCounts<T>(xs: seq<T>, f: T -> nat, p: T -> bool)
    requires forall x :: f(x) >= 1 <==> p(x)
    ensures Sum(xs, f) >= |Where(xs, p)|
    ensures Sum(xs, f) == |Where(xs, p)| <==> forall j :: 0 <= j < |xs| ==> f(xs[j]) <= 1
  {
    if xs != [] {
      var n := |xs| - 1;
      var init := xs[..n];
      SumCounts(init, f, p);
      assert xs == init + [xs[n]];
      if p(xs[n]) {
        assert Where(xs, p) == Where(init, p) + {n};
      } else {
        assert Where(xs, p) == Where(init, p);
      }
      assert (forall j :: 0 <= j < |xs| ==> f(xs[j]) <= 1)
        <==> ((forall j :: 0 <= j < n ==> f(init[j]) <= 1) && f(xs[n]) <= 1);
    }
  }

  // ---- The loops ----

  /** The inner loop over the HARQ processes of one ULSCH. */
  method CleanUlsch(u: Ulsch) returns (c: Ulsch)
    ensures c == Cleaned(u)
  {
    c := u.(rnti := 0, harqMask := 0);
    for h := 0 to |u.harq|
      invariant c.rnti == 0 && c.harqMask == 0 && |c.harq| == |u.harq|
      invariant forall k :: 0 <= k < h ==> c.harq[k] == Harq(Idle, 0, 0)
    {
      c := c.(harq := c.harq[h := Harq(Idle, 0, 0)]);
    }
  }

  function UlschHitCount(r: int): Ulsch -> nat { (u: Ulsch) => if UlschHit(u, r) then 1 else 0 }

  function PucchHitCount(r: int): Pucch -> nat { (p: Pucch) => if PucchHit(p, r) then 1 else 0 }

  method RemoveFromUlsch(ulsch: array<Ulsch>, r: int) returns (n: nat)
    modifies ulsch
    ensures forall j :: 0 <= j < ulsch.Length ==> ulsch[j] == UlschAfter(old(ulsch[j]), r)
    ensures n == Sum(old(ulsch[..]), UlschHitCount(r))
  {
    n := 0;
    for j := 0 to ulsch.Length
      invariant forall k :: 0 <= k < j ==> ulsch[k] == UlschAfter(old(ulsch[k]), r)
      invariant forall k :: j <= k < ulsch.Length ==> ulsch[k] == old(ulsch[k])
      invariant n == Sum(old(ulsch[..])[..j], UlschHitCount(r))
    {
      assert old(ulsch[..])[..j + 1][..j] == old(ulsch[..])[..j];
      if ulsch[j].rnti == r {
        ulsch[j] := CleanUlsch(ulsch[j]);
        n := n + 1;
      }
    }
    assert old(ulsch[..])[..ulsch.Length] == old(ulsch[..]);
  }

  method RemoveFromPucch(pucch: array<Pucch>, r: int) returns (n: nat)
    modifies pucch
    ensures forall j :: 0 <= j < pucch.Length ==> pucch[j] == PucchAfter(old(pucch[j]), r)
    ensures n == Sum(old(pucch[..]), PucchHitCount(r))
  {
    n := 0;
    for j := 0 to pucch.Length
      invariant forall k :: 0 <= k < j ==> pucch[k] == PucchAfter(old(pucch[k]), r)
      invariant forall k :: j <= k < pucch.Length ==> pucch[k] == old(pucch[k])
      invariant n == Sum(old(pucch[..])[..j], PucchHitCount(r))
    {
      assert old(pucch[..])[..j + 1][..j] == old(pucch[..])[..j];
      if pucch[j].active > 0 && pucch[j].rnti == r {
        pucch[j] := Pucch(0, 0);
        n := n + 1;
      }
    }
    assert old(pucch[..])[..pucch.Length] == old(pucch[..]);
  }

  /** State of the outer loop after the RNTIs of list. */
  ghost predicate Done(us: seq<Ulsch>, us': seq<Ulsch>, ps: seq<Pucch>, ps': seq<Pucch>,
                       list: seq<int>, up: nat, pu: nat)
  {
    && |us'| == |us| && (forall j :: 0 <= j < |us| ==> us'[j] == UlschAfterAll(us[j], list))
    && |ps'| == |ps| && (forall j :: 0 <= j < |ps| ==> ps'[j] == PucchAfterAll(ps[j], list))
    && up == Sum(us, UlschHitsOn(list)) && pu == Sum(ps, PucchHitsOn(list))
  }

  /** The removal loops: the list is emptied by the caller afterwards. */
  method RemoveRntis(ulsch: array<Ulsch>, pucch: array<Pucch>, list: seq<int>)
    returns (upRemoved: nat, pucchRemoved: nat)
    modifies ulsch, pucch
    ensures Removed(old(ulsch[..]), ulsch[..], old(pucch[..]), pucch[..], list)
    ensures 0 !in list ==> upRemoved == |Where(old(ulsch[..]), UlschListed(list))|
    ensures upRemoved == Sum(old(ulsch[..]), UlschHitsOn(list))
    ensures pucchRemoved == |Where(old(pucch[..]), PucchListed(list))|
  {
    upRemoved, pucchRemoved := 0, 0;
    ghost var us, ps := ulsch[..], pucch[..];
    NothingDone(us, ps);
    for i := 0 to |list|
      invariant Done(us, ulsch[..], ps, pucch[..], list[..i], upRemoved, pucchRemoved)
    {
      ghost var us1, ps1 := ulsch[..], pucch[..];
      var up := RemoveFromUlsch(ulsch, list[i]);
      var pu := RemoveFromPucch(pucch, list[i]);
      OneMoreDone(us, us1, ulsch[..], ps, ps1, pucch[..], list, i, upRemoved, pucchRemoved, up, pu);
      upRemoved, pucchRemoved := upRemoved + up, pucchRemoved + pu;
    }
    assert list[..|list|] == list;
    AllDone(us, ulsch[..], ps, pucch[..], list, upRemoved, pucchRemoved);
  }

  lemma {:induction false} SumZero<T>(xs: seq<T>, f: T -> nat)
    requires forall x :: f(x) == 0
    ensures Sum(xs, f) == 0
  {
    if xs != [] { SumZero(xs[..|xs| - 1], f); }
  }

  lemma NothingDone(us: seq<Ulsch>, ps: seq<Pucch>)
    ensures Done(us, us, ps, ps, [], 0, 0)
  {
    SumZero(us, UlschHitsOn([]));
    SumZero(ps, PucchHitsOn([]));
  }

  lemma OneMoreDone(us: seq<Ulsch>, us1: seq<Ulsch>, us2: seq<Ulsch>, ps: seq<Pucch>, ps1: seq<Pucch>, ps2: seq<Pucch>,
                    list: seq<int>, i: nat, upTotal: nat, puTotal: nat, up: nat, pu: nat)
    requires i < |list| && Done(us, us1, ps, ps1, list[..i], upTotal, puTotal)
    requires |us2| == |us1| && forall j :: 0 <= j < |us1| ==> us2[j] == UlschAfter(us1[j], list[i])
    requires |ps2| == |ps1| && forall j :: 0 <= j < |ps1| ==> ps2[j] == PucchAfter(ps1[j], list[i])
    requires up == Sum(us1, UlschHitCount(list[i])) && pu == Sum(ps1, PucchHitCount(list[i]))
    ensures Done(us, us2, ps, ps2, list[..i + 1], upTotal + up, puTotal + pu)
  {
    var before, r := list[..i], list[i];
    var now := list[..i + 1];
    assert now[..i] == before && now[i] == r;
    var uAfter := (u: Ulsch) => UlschAfterAll(u, before);
    var uHit := (u: Ulsch) => UlschHitCount(r)(UlschAfterAll(u, before));
    SumOfUpdated(us, us1, uAfter, UlschHitCount(r), uHit);
    SumAdds(us, UlschHitsOn(before), uHit, UlschHitsOn(now));
    var pAfter := (p: Pucch) => PucchAfterAll(p, before);
    var pHit := (p: Pucch) => PucchHitCount(r)(PucchAfterAll(p, before));
    SumOfUpdated(ps, ps1, pAfter, PucchHitCount(r), pHit);
    SumAdds(ps, PucchHitsOn(before), pHit, PucchHitsOn(now));
  }

  // ---- What removal means ----

  /** Nothing is left of the UE: no RNTI, no HARQ mask, and as many processes as before, all of them idle. */
  ghost predicate Vacated(u: Ulsch, u': Ulsch) {
    && u'.rnti == 0 && u'.harqMask == 0 && |u'.harq| == |u.harq|
    && forall h :: 0 <= h < |u'.harq| ==> u'.harq[h].status.Idle? && u'.harq[h].round == 0 && u'.harq[h].handled == 0
  }

  /** Every entry that carried a listed RNTI is vacated, and every other one is as it was. */
  ghost predicate Removed(us: seq<Ulsch>, us': seq<Ulsch>, ps: seq<Pucch>, ps': seq<Pucch>, list: seq<int>) {
    && |us'| == |us| && |ps'| == |ps|
    && (forall j :: 0 <= j < |us| ==> if us[j].rnti in list then Vacated(us[j], us'[j]) else us'[j] == us[j])
    && (forall j :: 0 <= j < |ps| ==>
          if ps[j].active > 0 && ps[j].rnti in list then ps'[j].active == 0 && ps'[j].rnti == 0 else ps'[j] == ps[j])
  }

  lemma {:induction false} UlschExactly(u: Ulsch, list: seq<int>)
    ensures UlschAfterAll(u, list) == if u.rnti in list then Cleaned(u) else u
    ensures u.rnti in list ==> Vacated(u, UlschAfterAll(u, list))
    ensures UlschHits(u, list) >= 1 <==> u.rnti in list
  {
    if list != [] {
      UlschExactly(u, list[..|list| - 1]);
      assert list == list[..|list| - 1] + [list[|list| - 1]];
    }
  }

  lemma {:induction false} PucchExactly(p: Pucch, list: seq<int>)
    ensures PucchAfterAll(p, list) == if p.active > 0 && p.rnti in list then Pucch(0, 0) else p
    ensures PucchHits(p, list) == if p.active > 0 && p.rnti in list then 1 else 0
  {
    if list != [] {
      PucchExactly(p, list[..|list| - 1]);
      assert list == list[..|list| - 1] + [list[|list| - 1]];
    }
  }

  /** A ULSCH is counted again exactly when a zero follows its RNTI on the list, because a cleaned ULSCH carries
      RNTI zero.  (A PUCCH is not, because a cleared one is inactive.) */
  ghost predicate ZeroFollows(rnti: int, list: seq<int>) {
    exists i, j :: 0 <= i < j < |list| && list[i] == rnti && list[j] == 0
  }

  lemma {:induction false} CountedTwiceExactly(u: Ulsch, list: seq<int>)
    ensures UlschHits(u, list) > 1 <==> ZeroFollows(u.rnti, list)
  {
    if list != [] {
      var n := |list| - 1;
      var init := list[..n];
      CountedTwiceExactly(u, init);
      UlschExactly(u, init);
      if ZeroFollows(u.rnti, init) {
        var i, j :| 0 <= i < j < n && init[i] == u.rnti && init[j] == 0;
        assert list[i] == u.rnti && list[j] == 0;
      }
      if u.rnti in init && list[n] == 0 {
        var i :| 0 <= i < n && init[i] == u.rnti;
        assert list[i] == u.rnti;
      }
    }
  }

  /** The count of ULSCHs is the number of distinct ones cleared exactly when no zero follows the RNTI of
      any of them on the list; in particular for every list of non-zero RNTIs. */
  lemma UlschCountExactly(us: seq<Ulsch>, list: seq<int>)
    ensures Sum(us, UlschHitsOn(list)) >= |Where(us, UlschListed(list))|
    ensures Sum(us, UlschHitsOn(list)) == |Where(us, UlschListed(list))|
      <==> forall j :: 0 <= j < |us| ==> !ZeroFollows(us[j].rnti, list)
  {
    var f := UlschHitsOn(list);
    var p := UlschListed(list);
    forall u: Ulsch ensures f(u) >= 1 <==> p(u) { UlschExactly(u, list); }
    SumCounts(us, f, p);
    forall j | 0 <= j < |us| ensures f(us[j]) <= 1 <==> !ZeroFollows(us[j].rnti, list) {
      CountedTwiceExactly(us[j], list);
    }
  }

  lemma PucchCountExactly(ps: seq<Pucch>, list: seq<int>)
    ensures Sum(ps, PucchHitsOn(list)) == |Where(ps, PucchListed(list))|
  {
    var f := PucchHitsOn(list);
    var q := PucchListed(list);
    forall p: Pucch ensures f(p) <= 1 && (f(p) >= 1 <==> q(p)) { PucchExactly(p, list); }
    SumCounts(ps, f, q);
  }

  lemma AllDone(us: seq<Ulsch>, us': seq<Ulsch>, ps: seq<Pucch>, ps': seq<Pucch>, list: seq<int>, up: nat, pu: nat)
    requires Done(us, us', ps, ps', list, up, pu)
    ensures Removed(us, us', ps, ps', list)
    ensures 0 !in list ==> up == |Where(us, UlschListed(list))|
    ensures up == Sum(us, UlschHitsOn(list))
    ensures pu == |Where(ps, PucchListed(list))|
  {
    forall j | 0 <= j < |us|
      ensures if us[j].rnti in list then Vacated(us[j], us'[j]) else us'[j] == us[j]
    {
      UlschExactly(us[j], list);
    }
    forall j | 0 <= j < |ps|
      ensures ps'[j] == if ps[j].active > 0 && ps[j].rnti in list then Pucch(0, 0) else ps[j]
    {
      PucchExactly(ps[j], list);
    }
    UlschCountExactly(us, list);
    PucchCountExactly(ps, list);
  }

  /** After the removal of non-zero RNTIs no ULSCH and no active PUCCH carries a listed RNTI. */
  lemma NoneLeft(us: seq<Ulsch>, us': seq<Ulsch>, ps: seq<Pucch>, ps': seq<Pucch>, list: seq<int>)
    requires Removed(us, us', ps, ps', list) && 0 !in list
    ensures forall j :: 0 <= j < |us'| ==> us'[j].rnti !in list
    ensures forall j :: 0 <= j < |ps'| ==> ps'[j].active > 0 ==> ps'[j].rnti !in list
  {
    forall j | 0 <= j < |us'| ensures us'[j].rnti !in list {
      assert us[j].rnti in list ==> Vacated(us[j], us'[j]);
    }
  }
}
