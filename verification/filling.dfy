/** What filling a slot table does: it only ever adds to empty sides, it keeps the
    table consistent, and it leaves nothing that could still be filled
    (internal/reconcile/reconcile.go:496-644). */
module Filling {
  import opened Base
  import opened Slots
  import opened Tables

  // ---------- table consistency ----------

  /** Every host held by a base slot is present, eligible and in its side's zone. */
  ghost predicate SeatsOk(e: Env, p: PairingV, slots: seq<Slot>) {
    forall i :: 0 <= i < |slots| && slots[i].cls != Super ==>
      && (slots[i].a.host != "" ==> e.OkHost(slots[i].a.host, p.zoneA))
      && (slots[i].b.host != "" ==> e.OkHost(slots[i].b.host, p.zoneB))
  }

  predicate HoldsAnchor(s: Slot, side: Side) { s.cls == Anchor && s.Host(side) != "" }

  ghost predicate AnchorsAgree(slots: seq<Slot>, side: Side) {
    forall i, j :: 0 <= i < |slots| && 0 <= j < |slots| && HoldsAnchor(slots[i], side) && HoldsAnchor(slots[j], side)
                   ==> slots[i].Host(side) == slots[j].Host(side)
  }

  ghost predicate Apart(x: string, y: string) { x != "" && y != "" ==> x != y }

  /** The two sides of a base slot never hold the same host, nor do the two anchor hosts. */
  ghost predicate SidesApart(slots: seq<Slot>) {
    && (forall i :: 0 <= i < |slots| && slots[i].cls != Super ==> Apart(slots[i].a.host, slots[i].b.host))
    && (forall i, j :: 0 <= i < |slots| && 0 <= j < |slots| && slots[i].cls == Anchor && slots[j].cls == Anchor
          ==> Apart(slots[i].a.host, slots[j].b.host))
  }

  ghost predicate Consistent(p: PairingV, slots: seq<Slot>) {
    && AnchorsAgree(slots, SideA)
    && AnchorsAgree(slots, SideB)
    && (p.intra ==> SidesApart(slots))
  }

  // ---------- growth ----------

  ghost predicate SeatGrown(e: Env, p: PairingV, s: Slot, t: Slot, side: Side) {
    t.Seat(side) == s.Seat(side)
    || (s.cls != Super && s.Host(side) == "" && t.Host(side) in Cand(e, p, side) && t.Seat(side).at == Some(e.now))
  }

  ghost predicate SlotGrown(e: Env, p: PairingV, s: Slot, t: Slot) {
    t.index == s.index && t.cls == s.cls && t.target == s.target
    && SeatGrown(e, p, s, t, SideA) && SeatGrown(e, p, s, t, SideB)
  }

  /** Only empty base sides differ, and they now hold a candidate. */
  ghost predicate Grown(e: Env, p: PairingV, x: seq<Slot>, y: seq<Slot>) {
    |x| == |y| && forall i :: 0 <= i < |x| ==> SlotGrown(e, p, x[i], y[i])
  }

  lemma GrownReflexive(e: Env, p: PairingV, x: seq<Slot>)
    ensures Grown(e, p, x, x)
  {}

  lemma GrownTransitive(e: Env, p: PairingV, x: seq<Slot>, y: seq<Slot>, z: seq<Slot>)
    requires e.Valid() && Grown(e, p, x, y) && Grown(e, p, y, z)
    ensures Grown(e, p, x, z)
  {
    forall i | 0 <= i < |x| ensures SlotGrown(e, p, x[i], z[i]) {
      assert SlotGrown(e, p, x[i], y[i]) && SlotGrown(e, p, y[i], z[i]);
    }
  }

  lemma GrownSeatsOk(e: Env, p: PairingV, x: seq<Slot>, y: seq<Slot>)
    requires e.Valid() && Grown(e, p, x, y) && SeatsOk(e, p, x)
    ensures SeatsOk(e, p, y)
  {
    CandOk(e, p, SideA);
    CandOk(e, p, SideB);
    hide Env.Valid, Cand;
    forall i | 0 <= i < |y| && y[i].cls != Super
      ensures y[i].a.host != "" ==> e.OkHost(y[i].a.host, p.zoneA)
      ensures y[i].b.host != "" ==> e.OkHost(y[i].b.host, p.zoneB)
    {
      assert SlotGrown(e, p, x[i], y[i]);
    }
  }

  /** A host's use count only rises while a table is being filled. */
  lemma GrownUsed(e: Env, p: PairingV, x: seq<Slot>, y: seq<Slot>, side: Side, h: string)
    requires Grown(e, p, x, y) && h != ""
    ensures Used(x, side)[h] <= Used(y, side)[h]
  {
    forall i | 0 <= i < |x| ensures Column(x, side)[i] == "" || Column(x, side)[i] == Column(y, side)[i] {
      assert SlotGrown(e, p, x[i], y[i]);
    }
    ColumnUsed(Column(x, side), Column(y, side), h);
  }

  lemma {:induction false} ColumnUsed(x: seq<string>, y: seq<string>, h: string)
    requires |x| == |y| && h != ""
    requires forall i :: 0 <= i < |x| ==> x[i] == "" || x[i] == y[i]
    ensures multiset(x)[h] <= multiset(y)[h]
  {
    if |x| > 0 {
      var n := |x| - 1;
      ColumnUsed(x[..n], y[..n], h);
      assert x == x[..n] + [x[n]] && y == y[..n] + [y[n]];
    }
  }

  lemma UsedAfter(slots: seq<Slot>, i: nat, side: Side, seat: Seat, g: string)
    requires i < |slots| && slots[i].Host(side) == "" && g != ""
    ensures var y := slots[i := slots[i].SetSeat(side, seat)];
            && Used(y, side)[g] == Used(slots, side)[g] + (if g == seat.host then 1 else 0)
            && Used(y, side.Other()) == Used(slots, side.Other())
  {
    var y := slots[i := slots[i].SetSeat(side, seat)];
    assert Column(y, side) == Column(slots, side)[i := seat.host];
    assert Column(y, side.Other()) == Column(slots, side.Other());
  }

  // ---------- anchors ----------

  lemma {:induction false} AnchorHostMeaning(slots: seq<Slot>, side: Side)
    ensures var h := AnchorHost(slots, side);
            && (h == "" <==> forall i :: 0 <= i < |slots| && slots[i].cls == Anchor ==> slots[i].Host(side) == "")
            && (h != "" ==> exists i :: 0 <= i < |slots| && slots[i].cls == Anchor && slots[i].Host(side) == h)
  {
    if |slots| > 0 {
      var n := |slots| - 1;
      var pre := slots[..n];
      AnchorHostMeaning(pre, side);
      var h := AnchorHost(slots, side);
      if AnchorHost(pre, side) != "" {
        var i :| 0 <= i < |pre| && pre[i].cls == Anchor && pre[i].Host(side) == AnchorHost(pre, side);
        assert slots[i] == pre[i];
      } else {
        forall i | 0 <= i < n && slots[i].cls == Anchor ensures slots[i].Host(side) == "" {
          assert slots[i] == pre[i];
        }
      }
    }
  }

  /** The seat given to the open anchors: a candidate, apart from the other side's
      anchors in an intra-zone pairing. */
  lemma AnchorSeatMeaning(e: Env, p: PairingV, slots: seq<Slot>, side: Side)
    requires e.Valid() && SeatsOk(e, p, slots) && Consistent(p, slots)
    ensures var r := AnchorSeat(e, p, slots, side);
            var h := AnchorHost(slots, side);
            && (r.Some? ==> r.value.0.host in Cand(e, p, side) && r.value.0.host !in AnchorExcl(p, slots, side)
                            && r.value.0.at == Some(e.now) && (h != "" ==> r.value.0.host == h))
            && (r.None? <==> h == "" && Rest(Cand(e, p, side), AnchorExcl(p, slots, side)) == {})
  {
    var h := AnchorHost(slots, side);
    AnchorHostMeaning(slots, side);
    CandOk(e, p, side);
    if h != "" {
      var i :| 0 <= i < |slots| && slots[i].cls == Anchor && slots[i].Host(side) == h;
      assert e.OkHost(h, p.Zone(side));
    } else {
      var cand := Cand(e, p, side);
      PickAnchorMeaning(cand, Used(slots, side), StartOffset(e.hash, p.key, |cand|), AnchorExcl(p, slots, side));
    }
  }

  lemma AnchorFillGrows(e: Env, p: PairingV, slots: seq<Slot>, side: Side)
    requires e.Valid() && SeatsOk(e, p, slots) && Consistent(p, slots)
    ensures var y := AnchorFill(e, p, slots, side).slots;
            && Grown(e, p, slots, y) && SeatsOk(e, p, y) && Consistent(p, y)
  {
    hide AnchorSeat, Consistent, SeatsOk, Flatten, AnchorExcl, Env.Valid;
    AnchorSeatMeaning(e, p, slots, side);
    CandNamed(e, p, side);
    var y := AnchorFill(e, p, slots, side).slots;
    var r := AnchorSeat(e, p, slots, side);
    hide Cand;
    assert Grown(e, p, slots, y);
    GrownSeatsOk(e, p, slots, y);
    if r.Some? {
      ConsistentParts(p, slots);
      hide Grown;
      AnchorFillShares(slots, y, side, r.value.0);
      if p.intra { AnchorFillApart(p, slots, y, side, r.value.0.host); }
      ConsistentFrom(p, y, side);
    }
  }

  lemma CandNamed(e: Env, p: PairingV, side: Side)
    requires e.Valid()
    ensures "" !in Cand(e, p, side)
  {}

  lemma ConsistentParts(p: PairingV, slots: seq<Slot>)
    requires Consistent(p, slots)
    ensures forall side :: AnchorsAgree(slots, side)
    ensures p.intra ==> SidesApart(slots)
  {
    hide AnchorsAgree, SidesApart;
    forall side ensures AnchorsAgree(slots, side) { assert side == SideA || side == SideB; }
  }

  lemma ConsistentFrom(p: PairingV, slots: seq<Slot>, side: Side)
    requires AnchorsAgree(slots, side) && AnchorsAgree(slots, side.Other()) && (p.intra ==> SidesApart(slots))
    ensures Consistent(p, slots)
  {
    hide AnchorsAgree, SidesApart;
  }

  /** After the open anchors got the shared host, every anchor of that side holds it. */
  lemma AnchorFillShares(slots: seq<Slot>, y: seq<Slot>, side: Side, seat: Seat)
    requires |y| == |slots| && AnchorsAgree(slots, side) && AnchorsAgree(slots, side.Other())
    requires forall i :: 0 <= i < |slots| ==>
               y[i] == if OpenAnchor(slots[i], side) then slots[i].SetSeat(side, seat) else slots[i]
    requires AnchorHost(slots, side) != "" ==> seat.host == AnchorHost(slots, side)
    ensures forall i :: 0 <= i < |y| && y[i].cls == Anchor ==> y[i].Host(side) == seat.host
    ensures AnchorsAgree(y, side) && AnchorsAgree(y, side.Other())
  {
    AnchorHostMeaning(slots, side);
    forall i | 0 <= i < |y| && y[i].cls == Anchor ensures y[i].Host(side) == seat.host {
      if slots[i].Host(side) != "" {
        var j :| 0 <= j < |slots| && slots[j].cls == Anchor && slots[j].Host(side) == AnchorHost(slots, side);
        assert HoldsAnchor(slots[i], side) && HoldsAnchor(slots[j], side);
      }
    }
    forall i, j | 0 <= i < |y| && 0 <= j < |y| && HoldsAnchor(y[i], side.Other()) && HoldsAnchor(y[j], side.Other())
      ensures y[i].Host(side.Other()) == y[j].Host(side.Other())
    {
      assert HoldsAnchor(slots[i], side.Other()) && HoldsAnchor(slots[j], side.Other());
    }
  }

  lemma AnchorFillApart(p: PairingV, slots: seq<Slot>, y: seq<Slot>, side: Side, h: string)
    requires p.intra && |y| == |slots| && SidesApart(slots) && h !in AnchorExcl(p, slots, side)
    requires forall i :: 0 <= i < |slots| ==>
               && y[i].cls == slots[i].cls
               && y[i].Host(side.Other()) == slots[i].Host(side.Other())
               && (y[i].cls == Anchor ==> y[i].Host(side) == h)
               && (y[i].cls != Anchor ==> y[i] == slots[i])
    ensures SidesApart(y)
  {
    forall i | 0 <= i < |y| && y[i].cls == Anchor ensures Apart(y[i].Host(side.Other()), h) {
      if y[i].Host(side.Other()) != "" {
        assert slots[i].Host(side.Other()) in AnchorExcl(p, slots, side);
      }
    }
  }

  // ---------- diverse ----------

  lemma DiverseSeatMeaning(e: Env, p: PairingV, slots: seq<Slot>, s: Slot, side: Side)
    requires e.Valid()
    ensures var r := DiverseSeat(e, p, slots, s, side);
            && (r.Some? ==>
                 && s.cls == Diverse && s.Host(side) == ""
                 && r.value.host in Cand(e, p, side) && r.value.host !in Excl(p, s, side) && r.value.at == Some(e.now))
            && (s.cls == Diverse && s.Host(side) == "" && r.None? ==>
                 (if e.cfg.allowReuse then Rest(Cand(e, p, side), Excl(p, s, side))
                  else Free(Cand(e, p, side), Used(slots, side), Excl(p, s, side))) == {})
  {
    CandOk(e, p, side);
    var cand := Cand(e, p, side);
    PickMeaning(cand, Used(slots, side), StartOffset(e.hash, p.key, |cand|), Excl(p, s, side), e.cfg.allowReuse);
  }

  lemma DiverseStepGrows(e: Env, p: PairingV, f: Fill, j: nat)
    requires e.Valid() && j / 2 < |f.slots| && SeatsOk(e, p, f.slots) && Consistent(p, f.slots)
    ensures var y := DiverseStep(e, p, f, j).slots;
            && Grown(e, p, f.slots, y) && SeatsOk(e, p, y) && Consistent(p, y)
  {
    hide DiverseSeat, Cand, SeatsOk, Consistent, Env.Valid, Excl, Rest, Free, Used, FillEntry;
    DiverseSeatMeaning(e, p, f.slots, f.slots[j / 2], SideOf(j));
    var y := DiverseStep(e, p, f, j).slots;
    assert Grown(e, p, f.slots, y);
    GrownSeatsOk(e, p, f.slots, y);
    if DiverseSeat(e, p, f.slots, f.slots[j / 2], SideOf(j)).Some? {
      SeatKeepsConsistent(p, f.slots, y, j / 2, SideOf(j));
    }
  }

  /** Giving one diverse side a host its slot's other side does not hold. */
  lemma SeatKeepsConsistent(p: PairingV, x: seq<Slot>, y: seq<Slot>, i: nat, side: Side)
    requires Consistent(p, x) && i < |x| == |y| && x[i].cls == y[i].cls == Diverse
    requires forall n :: 0 <= n < |x| && n != i ==> y[n] == x[n]
    requires y[i].Host(side) !in Excl(p, x[i], side) && y[i].Host(side.Other()) == x[i].Host(side.Other())
    ensures Consistent(p, y)
  {}

  lemma DiverseStepGrowsFrom(e: Env, p: PairingV, x: seq<Slot>, f: Fill, j: nat)
    requires e.Valid() && j / 2 < |f.slots| && SeatsOk(e, p, f.slots) && Consistent(p, f.slots)
               && Grown(e, p, x, f.slots)
    ensures var y := DiverseStep(e, p, f, j).slots;
            && Grown(e, p, x, y) && SeatsOk(e, p, y) && Consistent(p, y)
  {
    DiverseStepGrows(e, p, f, j);
    GrownTransitive(e, p, x, f.slots, DiverseStep(e, p, f, j).slots);
  }

  /** From any step of the diverse filling on, the table only grows. */
  lemma {:induction false} DiverseFillSuffix(e: Env, p: PairingV, slots: seq<Slot>, x: seq<Slot>, i: nat, j: nat)
    requires e.Valid() && i <= j <= 2 * |slots|
    requires var f := DiverseFill(e, p, slots, i);
             SeatsOk(e, p, f.slots) && Consistent(p, f.slots) && Grown(e, p, x, f.slots)
    ensures var y := DiverseFill(e, p, slots, j).slots;
            && Grown(e, p, x, y) && SeatsOk(e, p, y) && Consistent(p, y)
  {
    hide SeatsOk, Consistent, Grown, DiverseStep;
    if i < j {
      DiverseFillSuffix(e, p, slots, x, i, j - 1);
      DiverseStepGrowsFrom(e, p, x, DiverseFill(e, p, slots, j - 1), j - 1);
    }
  }

  lemma DiverseFillGrows(e: Env, p: PairingV, slots: seq<Slot>, j: nat)
    requires e.Valid() && j <= 2 * |slots| && SeatsOk(e, p, slots) && Consistent(p, slots)
    ensures var y := DiverseFill(e, p, slots, j).slots;
            && Grown(e, p, slots, y) && SeatsOk(e, p, y) && Consistent(p, y)
  {
    assert DiverseFill(e, p, slots, 0) == Fill(slots, []);
    DiverseFillSuffix(e, p, slots, slots, 0, j);
  }

  // ---------- which host a side is given ----------

  /** The hosts on one side of a table. */
  function HostsOn(slots: seq<Slot>, side: Side): seq<string> {
    seq(|slots|, i requires 0 <= i < |slots| => if side == SideA then slots[i].a.host else slots[i].b.host)
  }

  /** The eligible hosts of one zone of a pairing, in canonical order. */
  function Choices(e: Env, p: PairingV, side: Side): seq<string> {
    var z := if side == SideA then p.zoneA else p.zoneB;
    if z in e.members then Filtered(e.members[z], e.eligible) else []
  }

  /** Where the walk for a pairing begins. */
  function WalkStart(e: Env, p: PairingV, n: nat): nat {
    if n == 0 then 0 else e.hash(p.key) % n
  }

  lemma ChoicesAre(e: Env, p: PairingV, side: Side)
    ensures Choices(e, p, side) == Cand(e, p, side)
    ensures StartOffset(e.hash, p.key, |Cand(e, p, side)|) == WalkStart(e, p, |Choices(e, p, side)|)
  {
    EligibleIsFiltered(e.Members(p.Zone(side)), e.eligible);
  }

  lemma HostsOnAre(slots: seq<Slot>, side: Side)
    ensures Used(slots, side) == multiset(HostsOn(slots, side))
  {
    assert Column(slots, side) == HostsOn(slots, side);
  }

  /** A pick for one diverse side. */
  ghost predicate DivPicked(e: Env, p: PairingV, slots: seq<Slot>, s: Slot, side: Side, h: string, rank: Rank) {
    var hosts := Choices(e, p, side);
    var other := if side == SideA then s.b.host else s.a.host;
    Picked(hosts, multiset(HostsOn(slots, side)), WalkStart(e, p, |hosts|), if p.intra && other != "" then {other}
                                                                            else {},
           e.cfg.allowReuse, h, rank)
  }

  /** The host a diverse side is given: nothing unless the slot is diverse and the side empty;
      otherwise the pick of the walk over the eligible hosts of its zone, from the offset of
      the pairing, against what this side of the table uses, leaving out the host on the other
      side of a slot inside one zone. */
  lemma DiverseSeatWalk(e: Env, p: PairingV, slots: seq<Slot>, s: Slot, side: Side)
    requires e.Valid()
    ensures var mine := if side == SideA then s.a.host else s.b.host;
            var r := DiverseSeat(e, p, slots, s, side);
            if s.cls != Diverse || mine != "" then r == None
            else exists h, rank ::
              DivPicked(e, p, slots, s, side, h, rank) && r ==
                if h == "" then None else Some(Seat(h, rank, Some(e.now)))
  {
    ChoicesAre(e, p, side);
    HostsOnAre(slots, side);
    CandOk(e, p, side);
    OtherSide(p, s, side);
    hide Pick, Picked, Cand, Choices, Used, HostsOn, StartOffset, WalkStart, Env.Valid, Excl, Slot.Host;
    if s.cls == Diverse && s.Host(side) == "" {
      var cand := Cand(e, p, side);
      var start := StartOffset(e.hash, p.key, |cand|);
      PickWalk(cand, Used(slots, side), start, Excl(p, s, side), e.cfg.allowReuse);
      var (id, rank) := Pick(cand, Used(slots, side), start, Excl(p, s, side), e.cfg.allowReuse);
      assert DivPicked(e, p, slots, s, side, id, rank);
    }
  }

  lemma OtherSide(p: PairingV, s: Slot, side: Side)
    ensures s.Host(side) == if side == SideA then s.a.host else s.b.host
    ensures var other := if side == SideA then s.b.host else s.a.host;
            Excl(p, s, side) == if p.intra && other != "" then {other} else {}
  {}

  /** The other-side hosts that the anchors of a pairing inside one zone leave out. */
  function Across(p: PairingV, slots: seq<Slot>, side: Side): set<string> {
    var over := if side == SideA then SideB else SideA;
    if !p.intra then {}
    else set i | 0 <= i < |slots| && slots[i].cls == Anchor && HostsOn(slots, over)[i] != "" :: HostsOn(slots, over)[i]
  }

  /** Slot i is an anchor that holds a host on this side. */
  ghost predicate Holder(slots: seq<Slot>, side: Side, i: int) {
    0 <= i < |slots| && slots[i].cls == Anchor && HostsOn(slots, side)[i] != ""
  }

  /** Slot i is the first such anchor. */
  ghost predicate FirstHolder(slots: seq<Slot>, side: Side, i: int) {
    Holder(slots, side, i) && forall j :: j < i ==> !Holder(slots, side, j)
  }

  lemma {:induction false} AnchorHostFirst(slots: seq<Slot>, side: Side)
    ensures AnchorHost(slots, side) == "" ==> forall i :: !Holder(slots, side, i)
    ensures AnchorHost(slots, side) != "" ==>
              exists i :: FirstHolder(slots, side, i) && AnchorHost(slots, side) == HostsOn(slots, side)[i]
  {
    if |slots| > 0 {
      var n := |slots| - 1;
      AnchorHostFirst(slots[..n], side);
      forall i | i < n ensures Holder(slots[..n], side, i) <==> Holder(slots, side, i) {}
      if AnchorHost(slots[..n], side) != "" {
        var i :| FirstHolder(slots[..n], side, i) && AnchorHost(slots[..n], side) == HostsOn(slots[..n], side)[i];
        assert FirstHolder(slots, side, i);
      } else if AnchorHost(slots, side) != "" {
        assert FirstHolder(slots, side, n);
      }
    }
  }

  /** The host the open anchors of a side are given: the one the first holding anchor has, or
      else the pick of the walk, whatever its use. */
  lemma AnchorSeatWalk(e: Env, p: PairingV, slots: seq<Slot>, side: Side)
    requires e.Valid()
    ensures var hosts := Choices(e, p, side);
            var r := AnchorSeat(e, p, slots, side);
            if exists i :: Holder(slots, side, i) then
              exists i :: FirstHolder(slots, side, i)
                          && r == Some((Seat(HostsOn(slots, side)[i], MinUse, Some(e.now)), AnchorReset))
            else exists h, rank ::
              && AnchorPicked(hosts, multiset(HostsOn(slots, side)), WalkStart(e, p, |hosts|), Across(p, slots, side),
                   h, rank)
              && r == if h == "" then None else Some((Seat(h, rank, Some(e.now)), NewSlot))
  {
    ChoicesAre(e, p, side);
    HostsOnAre(slots, side);
    CandOk(e, p, side);
    AnchorHostFirst(slots, side);
    AcrossIs(p, slots, side);
    hide PickAnchor, AnchorPicked, Cand, Choices, Used, HostsOn, StartOffset, WalkStart, Env.Valid, AnchorExcl, Across,
         AnchorHost, Holder;
    if AnchorHost(slots, side) == "" {
      var cand := Cand(e, p, side);
      PickAnchorWalk(cand, Used(slots, side), StartOffset(e.hash, p.key, |cand|), AnchorExcl(p, slots, side));
    } else {
      var i :| FirstHolder(slots, side, i) && AnchorHost(slots, side) == HostsOn(slots, side)[i];
    }
  }

  lemma AcrossIs(p: PairingV, slots: seq<Slot>, side: Side)
    ensures Across(p, slots, side) == AnchorExcl(p, slots, side)
  {
    var over := if side == SideA then SideB else SideA;
    assert forall i :: 0 <= i < |slots| ==> HostsOn(slots, over)[i] == slots[i].Host(side.Other());
  }

  // ---------- the whole fill ----------

  /** Filling adds hosts to empty base sides and does nothing else, and it keeps the
      table consistent. */
  lemma FillTableGrows(e: Env, p: PairingV)
    requires e.Valid() && SeatsOk(e, p, p.slots) && Consistent(p, p.slots)
    ensures var y := FillTable(e, p).slots;
            && Grown(e, p, p.slots, y) && SeatsOk(e, p, y) && Consistent(p, y)
  {
    AnchorFillGrows(e, p, p.slots, SideA);
    var fa := AnchorFill(e, p, p.slots, SideA);
    AnchorFillGrows(e, p, fa.slots, SideB);
    var fb := AnchorFill(e, p, fa.slots, SideB);
    DiverseFillGrows(e, p, fb.slots, 2 * |fb.slots|);
    GrownTransitive(e, p, p.slots, fa.slots, fb.slots);
    GrownTransitive(e, p, p.slots, fb.slots, FillTable(e, p).slots);
  }

  /** Nothing is left to fill on one side of one slot. */
  ghost predicate SeatSettled(e: Env, p: PairingV, slots: seq<Slot>, i: nat, side: Side)
    requires i < |slots|
  {
    var s := slots[i];
    s.Host(side) == "" ==>
      && (s.cls == Anchor ==> AnchorHost(slots, side) == "" && Rest(Cand(e, p, side), AnchorExcl(p, slots, side)) == {})
      && (s.cls == Diverse ==>
            (if e.cfg.allowReuse then Rest(Cand(e, p, side), Excl(p, s, side))
             else Free(Cand(e, p, side), Used(slots, side), Excl(p, s, side))) == {})
  }

  ghost predicate Settled(e: Env, p: PairingV, slots: seq<Slot>) {
    forall i: nat :: i < |slots| ==> SeatSettled(e, p, slots, i, SideA) && SeatSettled(e, p, slots, i, SideB)
  }

  /** Once an anchor side is settled it stays so while the table grows. */
  lemma AnchorSettledGrows(e: Env, p: PairingV, x: seq<Slot>, y: seq<Slot>, side: Side)
    requires e.Valid() && Grown(e, p, x, y)
    requires AnchorHost(x, side) == "" ==> AnchorHost(y, side) == ""
    requires AnchorHost(x, side) != "" ==> forall i :: 0 <= i < |x| && x[i].cls == Anchor ==> x[i].Host(side) != ""
    requires AnchorHost(x, side) == "" ==> Rest(Cand(e, p, side), AnchorExcl(p, x, side)) == {}
    ensures forall i: nat :: i < |y| && y[i].cls == Anchor ==> SeatSettled(e, p, y, i, side)
  {
    forall i: nat | i < |y| && y[i].cls == Anchor ensures SeatSettled(e, p, y, i, side) {
      assert SlotGrown(e, p, x[i], y[i]);
      AnchorHostMeaning(x, side);
      if AnchorHost(x, side) == "" {
        assert AnchorExcl(p, x, side) <= AnchorExcl(p, y, side) by {
          forall h | h in AnchorExcl(p, x, side) ensures h in AnchorExcl(p, y, side) {
            var k :| 0 <= k < |x| && x[k].cls == Anchor && x[k].Host(side.Other()) != ""
              && h == x[k].Host(side.Other());
            assert SlotGrown(e, p, x[k], y[k]);
            assert y[k].Host(side.Other()) == h;
          }
        }
      }
    }
  }

  lemma AnchorFillSettles(e: Env, p: PairingV, slots: seq<Slot>, side: Side)
    requires e.Valid() && SeatsOk(e, p, slots) && Consistent(p, slots)
    ensures var y := AnchorFill(e, p, slots, side).slots;
            && (AnchorHost(y, side) != "" ==> forall i :: 0 <= i < |y| && y[i].cls == Anchor ==> y[i].Host(side) != "")
            && (AnchorHost(y, side) == "" ==>
                  || (forall i :: 0 <= i < |y| ==> y[i].cls != Anchor)
                  || Rest(Cand(e, p, side), AnchorExcl(p, y, side)) == {})
  {
    AnchorSeatMeaning(e, p, slots, side);
    CandOk(e, p, side);
    hide SeatsOk, Consistent, AnchorSeat, Rest, Cand;
    hide AnchorExcl;
    var y := AnchorFill(e, p, slots, side).slots;
    AnchorHostMeaning(y, side);
    AnchorHostMeaning(slots, side);
    hide AnchorHost;
    if AnchorSeat(e, p, slots, side).Some? {
      forall i | 0 <= i < |y| && y[i].cls == Anchor ensures y[i].Host(side) != "" {
        if OpenAnchor(slots[i], side) { assert y[i].Seat(side) == AnchorSeat(e, p, slots, side).value.0; }
      }
    }
  }

  /** Growth that touches no anchor keeps the anchors of one side as they are. */
  lemma AnchorHostSame(x: seq<Slot>, y: seq<Slot>, side: Side)
    requires |x| == |y|
    requires forall i :: 0 <= i < |x| ==> x[i].cls == y[i].cls
    requires forall i :: 0 <= i < |x| && x[i].cls == Anchor ==> x[i].Host(side) == y[i].Host(side)
    ensures AnchorHost(x, side) == "" <==> AnchorHost(y, side) == ""
  {
    AnchorHostMeaning(x, side);
    AnchorHostMeaning(y, side);
  }

  lemma {:induction false} DiverseKeepsAnchors(e: Env, p: PairingV, slots: seq<Slot>, j: nat)
    requires j <= 2 * |slots|
    ensures var y := DiverseFill(e, p, slots, j).slots;
            forall i :: 0 <= i < |slots| ==>
              y[i].cls == slots[i].cls && (slots[i].cls != Diverse ==> y[i] == slots[i])
  {
    if j > 0 { DiverseKeepsAnchors(e, p, slots, j - 1); }
  }

  lemma AnchorFillKeepsOther(e: Env, p: PairingV, slots: seq<Slot>, side: Side)
    ensures var y := AnchorFill(e, p, slots, side).slots;
            forall i :: 0 <= i < |slots| ==>
              && y[i].cls == slots[i].cls
              && y[i].Host(side.Other()) == slots[i].Host(side.Other())
              && (slots[i].cls != Anchor ==> y[i] == slots[i])
  {}

  /** An anchor side that is settled after its own pass is settled at the end. */
  lemma AnchorSideSettles(e: Env, p: PairingV, x: seq<Slot>, y: seq<Slot>, side: Side)
    requires e.Valid() && Grown(e, p, x, y)
    requires AnchorHost(x, side) != "" ==> forall i :: 0 <= i < |x| && x[i].cls == Anchor ==> x[i].Host(side) != ""
    requires AnchorHost(x, side) == "" ==>
               || (forall i :: 0 <= i < |x| ==> x[i].cls != Anchor)
               || Rest(Cand(e, p, side), AnchorExcl(p, x, side)) == {}
    requires forall i :: 0 <= i < |x| && x[i].cls == Anchor ==> x[i].Host(side) == y[i].Host(side)
    ensures forall i: nat :: i < |y| && y[i].cls == Anchor ==> SeatSettled(e, p, y, i, side)
  {
    forall i | 0 <= i < |x| ensures x[i].cls == y[i].cls { assert SlotGrown(e, p, x[i], y[i]); }
    AnchorHostSame(x, y, side);
    if exists i :: 0 <= i < |x| && x[i].cls == Anchor {
      AnchorSettledGrows(e, p, x, y, side);
    }
  }

  /** A side that could not be filled stays so while the rest of the table grows. */
  lemma DiverseSettledGrows(e: Env, p: PairingV, x: seq<Slot>, y: seq<Slot>, i: nat, side: Side)
    requires e.Valid() && Grown(e, p, x, y) && i < |x| && x[i].cls == Diverse && SeatSettled(e, p, x, i, side)
    ensures SeatSettled(e, p, y, i, side)
  {
    assert SlotGrown(e, p, x[i], y[i]);
    CandOk(e, p, side);
    if y[i].Host(side) == "" {
      assert Excl(p, x[i], side) <= Excl(p, y[i], side);
      if e.cfg.allowReuse {
        assert Rest(Cand(e, p, side), Excl(p, y[i], side)) <= Rest(Cand(e, p, side), Excl(p, x[i], side));
      } else {
        forall h | h in Cand(e, p, side) ensures Used(x, side)[h] <= Used(y, side)[h] {
          GrownUsed(e, p, x, y, side, h);
        }
        assert Free(Cand(e, p, side), Used(y, side), Excl(p, y[i], side))
            <= Free(Cand(e, p, side), Used(x, side), Excl(p, x[i], side));
      }
    }
  }

  lemma DiverseStepSettles(e: Env, p: PairingV, f: Fill, j: nat)
    requires e.Valid() && j / 2 < |f.slots| && f.slots[j / 2].cls == Diverse
    ensures SeatSettled(e, p, DiverseStep(e, p, f, j).slots, j / 2, SideOf(j))
    ensures DiverseStep(e, p, f, j).slots[j / 2].cls == Diverse
  {
    DiverseSeatMeaning(e, p, f.slots, f.slots[j / 2], SideOf(j));
    CandOk(e, p, SideOf(j));
  }

  /** A diverse side that the scan could not fill cannot be filled at the end either. */
  lemma DiverseSideSettles(e: Env, p: PairingV, slots: seq<Slot>, j: nat)
    requires e.Valid() && j < 2 * |slots| && SeatsOk(e, p, slots) && Consistent(p, slots)
    requires slots[j / 2].cls == Diverse
    ensures SeatSettled(e, p, DiverseFill(e, p, slots, 2 * |slots|).slots, j / 2, SideOf(j))
  {
    hide SeatsOk, Consistent, Grown, DiverseStep, SeatSettled;
    var f := DiverseFill(e, p, slots, j);
    DiverseKeepsAnchors(e, p, slots, j);
    DiverseStepSettles(e, p, f, j);
    var x := DiverseFill(e, p, slots, j + 1).slots;
    assert x == DiverseStep(e, p, f, j).slots;
    DiverseFillGrows(e, p, slots, j + 1);
    GrownReflexive(e, p, x);
    DiverseFillSuffix(e, p, slots, x, j + 1, 2 * |slots|);
    DiverseSettledGrows(e, p, x, DiverseFill(e, p, slots, 2 * |slots|).slots, j / 2, SideOf(j));
  }

  /** After a fill nothing more can be filled, whatever the reuse policy and the
      intra-zone exclusion. */
  lemma FillTableSettles(e: Env, p: PairingV)
    requires e.Valid() && SeatsOk(e, p, p.slots) && Consistent(p, p.slots)
    ensures Settled(e, p, FillTable(e, p).slots)
  {
    AnchorFillGrows(e, p, p.slots, SideA);
    AnchorFillSettles(e, p, p.slots, SideA);
    var fa := AnchorFill(e, p, p.slots, SideA).slots;
    AnchorsThenDiverseSettle(e, p, fa);
  }

  lemma AnchorsThenDiverseSettle(e: Env, p: PairingV, fa: seq<Slot>)
    requires e.Valid() && SeatsOk(e, p, fa) && Consistent(p, fa)
    requires AnchorHost(fa, SideA) != "" ==> forall i :: 0 <= i < |fa| && fa[i].cls == Anchor ==>
               fa[i].Host(SideA) != ""
    requires AnchorHost(fa, SideA) == "" ==>
               || (forall i :: 0 <= i < |fa| ==> fa[i].cls != Anchor)
               || Rest(Cand(e, p, SideA), AnchorExcl(p, fa, SideA)) == {}
    ensures var fb := AnchorFill(e, p, fa, SideB).slots;
            Settled(e, p, DiverseFill(e, p, fb, 2 * |fb|).slots)
  {
    hide AnchorFill, DiverseFill, SeatsOk, Consistent, AnchorHost, Cand, Rest, AnchorExcl, Env.Valid;
    AnchorFillGrows(e, p, fa, SideB);
    AnchorFillSettles(e, p, fa, SideB);
    AnchorFillKeepsOther(e, p, fa, SideB);
    var fb := AnchorFill(e, p, fa, SideB).slots;
    var y := DiverseFill(e, p, fb, 2 * |fb|).slots;
    DiverseFillGrows(e, p, fb, 2 * |fb|);
    DiverseKeepsAnchors(e, p, fb, 2 * |fb|);
    GrownTransitive(e, p, fa, fb, y);
    AnchorSideSettles(e, p, fa, y, SideA);
    AnchorSideSettles(e, p, fb, y, SideB);
    forall i: nat | i < |y| ensures SeatSettled(e, p, y, i, SideA) && SeatSettled(e, p, y, i, SideB) {
      if fb[i].cls == Diverse { DiverseBothSettle(e, p, fb, i); }
    }
  }

  lemma DiverseBothSettle(e: Env, p: PairingV, slots: seq<Slot>, i: nat)
    requires e.Valid() && i < |slots| && SeatsOk(e, p, slots) && Consistent(p, slots) && slots[i].cls == Diverse
    ensures var y := DiverseFill(e, p, slots, 2 * |slots|).slots;
            SeatSettled(e, p, y, i, SideA) && SeatSettled(e, p, y, i, SideB)
  {
    DiverseSideSettles(e, p, slots, 2 * i);
    DiverseSideSettles(e, p, slots, 2 * i + 1);
  }

  /** A settled, consistent table is a fixed point of the fill. */
  lemma FillTableFixed(e: Env, p: PairingV)
    requires e.Valid() && Settled(e, p, p.slots)
    ensures FillTable(e, p) == Fill(p.slots, [])
  {
    AnchorFixed(e, p, p.slots, SideA);
    AnchorFixed(e, p, p.slots, SideB);
    DiverseFixed(e, p, p.slots, 2 * |p.slots|);
  }

  lemma AnchorFixed(e: Env, p: PairingV, slots: seq<Slot>, side: Side)
    requires e.Valid() && forall i: nat :: i < |slots| ==> SeatSettled(e, p, slots, i, side)
    ensures AnchorFill(e, p, slots, side) == Fill(slots, [])
  {
    AnchorHostMeaning(slots, side);
    CandOk(e, p, side);
    var cand := Cand(e, p, side);
    PickAnchorMeaning(cand, Used(slots, side), StartOffset(e.hash, p.key, |cand|), AnchorExcl(p, slots, side));
    var r := AnchorSeat(e, p, slots, side);
    if r.Some? {
      forall i: nat | i < |slots| ensures !OpenAnchor(slots[i], side) {
        assert SeatSettled(e, p, slots, i, side);
      }
      var f := AnchorFill(e, p, slots, side);
      assert f.slots == slots;
      FlattenEmpty(AnchorChunks(p, slots, side, r.value.0, r.value.1));
    }
  }

  lemma {:induction false} FlattenEmpty(chunks: seq<seq<SideChange>>)
    requires forall i :: 0 <= i < |chunks| ==> chunks[i] == []
    ensures Flatten(chunks) == []
  {
    if |chunks| > 0 { FlattenEmpty(chunks[..|chunks| - 1]); }
  }

  lemma {:induction false} FlattenSome(chunks: seq<seq<SideChange>>, i: nat)
    requires i < |chunks| && chunks[i] != []
    ensures Flatten(chunks) != []
  {
    var n := |chunks| - 1;
    if i < n { FlattenSome(chunks[..n], i); }
  }

  lemma {:induction false} DiverseFixed(e: Env, p: PairingV, slots: seq<Slot>, j: nat)
    requires e.Valid() && j <= 2 * |slots|
    requires forall i: nat :: i < |slots| ==> SeatSettled(e, p, slots, i, SideA) && SeatSettled(e, p, slots, i, SideB)
    ensures DiverseFill(e, p, slots, j) == Fill(slots, [])
  {
    if j > 0 {
      DiverseFixed(e, p, slots, j - 1);
      var i, side := (j - 1) / 2, SideOf(j - 1);
      assert SeatSettled(e, p, slots, i, side);
      CandOk(e, p, side);
      var cand := Cand(e, p, side);
      PickMeaning(cand, Used(slots, side), StartOffset(e.hash, p.key, |cand|), Excl(p, slots[i], side),
        e.cfg.allowReuse);
    }
  }
}
