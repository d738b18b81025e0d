/** What a changed slot count does to the hosts that are there
    (internal/reconcile/reconcile.go:119-124, 209-211). */
module CountChange {
  import opened Base
  import opened Slots
  import opened Tables
  import opened Filling
  import opened Invariants
  import opened SuperSlots
  import opened Runs

  /** Another slot count rebuilds the table: the run is one from nothing. */
  lemma CountRebuilds(e: Env, st: StateV, count: int)
    requires st.slotsConfig == Some(Fingerprint(e.cfg.(count := count))) && count != e.cfg.count
    ensures Next(e, Some(st)) == Next(e, None) && NextDelta(e, Some(st)) == NextDelta(e, None)
  {
    hide StepOne, StepLog, NextSuperHosts, SuperZonesChanged, DiffOne;
  }

  function WantZone(w: Wanted, side: Side): string { if side == SideB then w.zoneB else w.zoneA }

  /** A base slot of this state holds a host that is valid for a run with these inputs. */
  predicate StillValid(e: Env, k: string, st: StateV, i: nat, side: Side)
    requires k in e.want
  {
    && k in st.pairings && i < |st.pairings[k].slots| && i < e.Layout().total && st.pairings[k].slots[i].cls != Super
    && e.OkHost(st.pairings[k].slots[i].Host(side), WantZone(e.want[k], side))
  }

  /** A run from this state keeps every base host of the pairing that is still valid. */
  ghost predicate HostsKept(e: Env, k: string, st: StateV)
    requires k in e.want
  {
    forall i: nat, side :: StillValid(e, k, st, i, side) ==>
      HoldsAt(Next(e, Some(st)), k, i, side, st.pairings[k].slots[i].Host(side))
  }

  predicate HoldsAt(st: StateV, k: string, i: nat, side: Side, h: string) {
    k in st.pairings && i < |st.pairings[k].slots| && st.pairings[k].slots[i].Host(side) == h
  }

  /** Runs under any inputs, the last of them with this slot count. */
  ghost predicate EarlierRuns(es: seq<Env>, e: Env, count: int) {
    && |es| > 0 && (forall i :: 0 <= i < |es| ==> es[i].Valid())
    && RunAll(es).value.slotsConfig == Some(Fingerprint(e.cfg.(count := count)))
  }

  /** No side of the pairing has two eligible hosts to choose from. */
  ghost predicate NoChoice(e: Env, w: Wanted) {
    forall side, x, y :: e.OkHost(x, WantZone(w, side)) && e.OkHost(y, WantZone(w, side)) ==> x == y
  }

  /** Exactly when changing the slot count leaves existing slots untouched: whatever runs came
      before, every base slot of an inter-zone pairing keeps the hosts that are still valid, if
      and only if each of its zones has at most one eligible host. */
  lemma ChangedCountExact(e: Env, k: string, count: int)
    requires e.Valid() && e.cfg.allowReuse && k in e.want && !e.want[k].intra
    requires e.cfg.count > 0 && count > 0 && count != e.cfg.count
    ensures (forall es :: EarlierRuns(es, e, count) ==> HostsKept(e, k, RunAll(es).value)) <==> NoChoice(e, e.want[k])
  {
    hide HostsKept, Next, Env.Valid, Fingerprint, ComputeLayout;
    if NoChoice(e, e.want[k]) {
      forall es | EarlierRuns(es, e, count) ensures HostsKept(e, k, RunAll(es).value) {
        NoChoiceKeeps(e, k, RunAll(es).value, count);
      }
    } else {
      var side, x, y :| e.OkHost(x, WantZone(e.want[k], side)) && e.OkHost(y, WantZone(e.want[k], side)) && x != y;
      var f := CountMovesAHost(e, k, side, x, y, count);
      LoneRun(f, e, count);
      assert !HostsKept(e, k, RunAll([f]).value);
    }
  }

  lemma LoneRun(f: Env, e: Env, count: int)
    requires f.Valid() && f.cfg == e.cfg.(count := count)
    ensures EarlierRuns([f], e, count) && RunAll([f]) == Some(Next(f, None))
  {
    assert [f][..0] == [];
    NextFields(f, None);
    hide Next, Env.Valid, Fingerprint;
  }

  /** Without a choice a valid host is found again. */
  lemma NoChoiceKeeps(e: Env, k: string, st: StateV, count: int)
    requires e.Valid() && e.cfg.allowReuse && k in e.want && !e.want[k].intra && NoChoice(e, e.want[k])
    requires st.slotsConfig == Some(Fingerprint(e.cfg.(count := count))) && count != e.cfg.count
    ensures HostsKept(e, k, st)
  {
    hide Next, NextDelta, Fingerprint, ComputeLayout, Env.Valid, StoredOk;
    CountRebuilds(e, st, count);
    forall i: nat, side | StillValid(e, k, st, i, side)
      ensures HoldsAt(Next(e, None), k, i, side, st.pairings[k].slots[i].Host(side))
    {
      OnlyHost(e, k, i, side, st.pairings[k].slots[i].Host(side));
    }
  }

  /** A side with one eligible host in its zone is given that host by a first run. */
  lemma OnlyHost(e: Env, k: string, i: nat, side: Side, h: string)
    requires e.Valid() && e.cfg.allowReuse && k in e.want && !e.want[k].intra && i < e.Layout().total
    requires e.OkHost(h, WantZone(e.want[k], side))
    requires forall x :: e.OkHost(x, WantZone(e.want[k], side)) ==> x == h
    ensures HoldsAt(Next(e, None), k, i, side, h)
  {
    hide Next, Established, Fingerprint, ComputeLayout, StoredOk, Env.Valid, StateOk;
    NextPairingOk(e, None, k);
    FirstZones(e, k);
    FilledWith(e, k, Next(e, None).pairings[k], i, side, h);
  }

  lemma FilledWith(e: Env, k: string, p: PairingV, i: nat, side: Side, h: string)
    requires e.Valid() && e.cfg.allowReuse && Established(e, k, p) && !p.intra && i < e.Layout().total
    requires e.OkHost(h, p.Zone(side)) && forall x :: e.OkHost(x, p.Zone(side)) ==> x == h
    ensures i < |p.slots| && p.slots[i].Host(side) == h
  {
    hide Settled, Consistent, ComputeLayout;
    InterZoneComplete(e, k, p, i, side);
    assert h in Pool(e, p, side);
    assert p.slots[i].cls != Super;
    assert e.OkHost(p.slots[i].Host(side), p.Zone(side));
  }

  /** Where a zone has two eligible hosts, an earlier run leaves one of them in the first slot
      that the rebuild replaces by another although it is still valid. */
  lemma CountMovesAHost(e: Env, k: string, side: Side, x: string, y: string, count: int) returns (f: Env)
    requires e.Valid() && e.cfg.allowReuse && k in e.want && !e.want[k].intra
    requires e.cfg.count > 0 && count > 0 && count != e.cfg.count
    requires x != y && e.OkHost(x, WantZone(e.want[k], side)) && e.OkHost(y, WantZone(e.want[k], side))
    ensures f.Valid() && f == e.(eligible := f.eligible, cfg := e.cfg.(count := count)) && f.eligible <= e.eligible
    ensures !HostsKept(e, k, Next(f, None))
  {
    hide Next, NextDelta, Fingerprint, Env.Valid, Established, StoredOk, StateOk;
    var other := if HoldsAt(Next(e, None), k, 0, side, x) then y else x;
    f := e.(eligible := {other}, cfg := e.cfg.(count := count));
    SameIndexValid(e, f);
    OnlyHost(f, k, 0, side, other);
    NextFields(f, None);
    FirstIsBase(f, k);
    CountRebuilds(e, Next(f, None), count);
    assert !HoldsAt(Next(e, None), k, 0, side, other);
  }

  lemma FirstIsBase(e: Env, k: string)
    requires e.Valid() && k in e.want && e.cfg.count > 0
    ensures k in Next(e, None).pairings && |Next(e, None).pairings[k].slots| > 0
    ensures Next(e, None).pairings[k].slots[0].cls != Super
  {
    NextPairingOk(e, None, k);
    hide Next, Settled, Consistent, Classed, SeatsOk;
  }

  lemma SameIndexValid(e: Env, f: Env)
    requires e.Valid() && f == e.(eligible := f.eligible, cfg := f.cfg)
    ensures f.Valid()
  {
    hide Distinct;
    assert forall z :: f.Members(z) == e.Members(z);
  }

  // ---------- pairings inside one zone ----------

  /** A table whose base sides are all empty. */
  ghost predicate BlankBase(slots: seq<Slot>, total: nat) {
    |slots| >= total && forall i :: 0 <= i < total ==> slots[i].a.host == "" && slots[i].b.host == ""
  }

  /** Filling a blank table starts with side A of the first slot. */
  lemma FirstSideFirst(e: Env, p: PairingV)
    requires e.Valid() && e.cfg.allowReuse && e.Layout().total > 0 && Cand(e, p, SideA) != []
    requires Shaped(p.slots, e.Layout().total) && Classed(p.slots, e.Layout()) && BlankBase(p.slots, e.Layout().total)
    requires SeatsOk(e, p, p.slots) && Consistent(p, p.slots)
    ensures |FillTable(e, p).slots| > 0 && FillTable(e, p).slots[0].a.host != ""
  {
    hide ComputeLayout, AnchorFill, DiverseFill, SeatsOk, Consistent, Env.Valid, Cand;
    AnchorFillGrows(e, p, p.slots, SideA);
    var fa := AnchorFill(e, p, p.slots, SideA);
    AnchorFillGrows(e, p, fa.slots, SideB);
    var fb := AnchorFill(e, p, fa.slots, SideB);
    DiverseFillGrows(e, p, fb.slots, 2 * |fb.slots|);
    var y := DiverseFill(e, p, fb.slots, 2 * |fb.slots|).slots;
    if e.Layout().anchors > 0 {
      BlankAnchor(e, p, p.slots);
      assert SlotGrown(e, p, fa.slots[0], fb.slots[0]) && SlotGrown(e, p, fb.slots[0], y[0]);
    } else {
      NoAnchors(e, p, p.slots, SideA);
      NoAnchors(e, p, fa.slots, SideB);
      BlankDiverse(e, p, p.slots);
    }
  }

  lemma BlankAnchor(e: Env, p: PairingV, slots: seq<Slot>)
    requires e.Valid() && SeatsOk(e, p, slots) && Consistent(p, slots) && Cand(e, p, SideA) != []
    requires |slots| > 0 && slots[0].cls == Anchor && forall i :: 0 <= i < |slots| && slots[i].cls == Anchor ==>
               slots[i].a.host == "" && slots[i].b.host == ""
    ensures AnchorFill(e, p, slots, SideA).slots[0].a.host != ""
  {
    AnchorHostMeaning(slots, SideA);
    AnchorSeatMeaning(e, p, slots, SideA);
    CandOk(e, p, SideA);
    hide AnchorSeat, SeatsOk, Consistent, Cand, Flatten;
    assert AnchorExcl(p, slots, SideA) == {};
    assert Cand(e, p, SideA)[0] in Rest(Cand(e, p, SideA), {});
  }

  lemma NoAnchors(e: Env, p: PairingV, slots: seq<Slot>, side: Side)
    requires forall i :: 0 <= i < |slots| ==> slots[i].cls != Anchor
    ensures AnchorFill(e, p, slots, side).slots == slots
  {
    hide AnchorSeat, Flatten, AnchorChunks;
  }

  lemma BlankDiverse(e: Env, p: PairingV, slots: seq<Slot>)
    requires e.Valid() && e.cfg.allowReuse && SeatsOk(e, p, slots) && Consistent(p, slots) && Cand(e, p, SideA) != []
    requires |slots| > 0 && slots[0].cls == Diverse && slots[0].a.host == "" && slots[0].b.host == ""
    ensures DiverseFill(e, p, slots, 2 * |slots|).slots[0].a.host != ""
  {
    hide SeatsOk, Consistent, Cand, DiverseSeat;
    DiverseSeatMeaning(e, p, slots, slots[0], SideA);
    CandOk(e, p, SideA);
    assert Excl(p, slots[0], SideA) == {};
    assert Cand(e, p, SideA)[0] in Rest(Cand(e, p, SideA), {});
    assert DiverseFill(e, p, slots, 0) == Fill(slots, []);
    var f := DiverseFill(e, p, slots, 1);
    assert f == DiverseStep(e, p, Fill(slots, []), 0);
    assert f.slots[0].a.host != "";
    DiverseFillGrows(e, p, slots, 1);
    GrownReflexive(e, p, f.slots);
    hide DiverseFill;
    DiverseFillSuffix(e, p, slots, f.slots, 1, 2 * |slots|);
    assert SlotGrown(e, p, f.slots[0], DiverseFill(e, p, slots, 2 * |slots|).slots[0]);
  }

  /** A first run fills side A of the first slot when its zone has an eligible host. */
  lemma FirstSideFilled(e: Env, k: string, h: string)
    requires e.Valid() && e.cfg.allowReuse && e.cfg.count > 0 && k in e.want && e.OkHost(h, e.want[k].zoneA)
    ensures k in Next(e, None).pairings && |Next(e, None).pairings[k].slots| > 0
    ensures Next(e, None).pairings[k].slots[0].a.host != ""
  {
    hide Next, StepOne, FillTable, Supered, ComputeLayout, Env.Valid, NextSuperHosts, Established, Fingerprint, CurOk;
    var sh := NextSuperHosts(e, Start(e, None).superHosts);
    NextPairingOk(e, None, k);
    NextAt(e, None, k);
    FirstZones(e, k);
    StartNothing(e, k);
    FirstTable(e, sh, k);
    var s := Supered(e, sh, k, None);
    CandOk(e, s, SideA);
    assert h in Cand(e, s, SideA);
    FirstSideFirst(e, s);
  }

  lemma StartNothing(e: Env, k: string)
    ensures Get(Start(e, None).pairings, k) == None && CurOk(e, k, None)
    ensures ComputeLayout(e.cfg).total > 0 <==> e.cfg.count > 0
  {}

  /** The table that a first run fills. */
  lemma FirstTable(e: Env, sh: map<string, seq<string>>, k: string)
    requires e.Valid() && k in e.want
    ensures var s := Supered(e, sh, k, None);
            && StepOne(e, sh, k, None) == Some(s.(slots := FillTable(e, s).slots))
            && Shaped(s.slots, e.Layout().total) && Classed(s.slots, e.Layout()) && BlankBase(s.slots, e.Layout().total)
            && SeatsOk(e, s, s.slots) && Consistent(s, s.slots) && s.zoneA == e.want[k].zoneA
  {
    SuperedReady(e, sh, k, None);
    FirstStep(e, sh, k);
    FirstBlank(e, sh, k);
    hide Supered, FillTable, StepOne, ComputeLayout, SeatsOk, Consistent, Shaped, Classed;
  }

  lemma FirstStep(e: Env, sh: map<string, seq<string>>, k: string)
    requires k in e.want
    ensures var s := Supered(e, sh, k, None);
            s.Active() ==> StepOne(e, sh, k, None) == Some(s.(slots := FillTable(e, s).slots))
    ensures Supered(e, sh, k, None).zoneA == e.want[k].zoneA
  {
    hide FillTable, SuperTable, NonSuper, Validate, Resize, ComputeLayout;
  }

  lemma FirstBlank(e: Env, sh: map<string, seq<string>>, k: string)
    requires e.Valid() && k in e.want
    ensures BlankBase(Supered(e, sh, k, None).slots, e.Layout().total)
  {
    hide ComputeLayout, Supered, Validated, Diffed, StepOne;
    SuperedReady(e, sh, k, None);
    forall i | 0 <= i < e.Layout().total
      ensures Supered(e, sh, k, None).slots[i].a.host == "" && Supered(e, sh, k, None).slots[i].b.host == ""
    {
      SlotJourney(e, sh, k, None, i);
    }
  }

  /** Inside a zone of two hosts a changed slot count never leaves the hosts alone, unless none
      of them is eligible: with another host first in its place the host that the rebuild puts
      on side A was on side B. */
  lemma IntraCountExact(e: Env, k: string, count: int, u: string, v: string)
    requires e.Valid() && e.cfg.allowReuse && k in e.want && e.want[k].intra
    requires e.cfg.count > 0 && count > 0 && count != e.cfg.count
    requires u != v && u in e.Members(e.want[k].zoneA) && v in e.Members(e.want[k].zoneA)
    ensures (forall es :: EarlierRuns(es, e, count) ==> HostsKept(e, k, RunAll(es).value)) <==>
              forall h :: !e.OkHost(h, e.want[k].zoneA)
  {
    hide HostsKept, Next, Env.Valid, Fingerprint, ComputeLayout, Env.Members, Env.OkHost;
    if h :| e.OkHost(h, e.want[k].zoneA) {
      var es := SwappedRuns(e, k, count, u, v, h);
    } else {
      forall es | EarlierRuns(es, e, count) ensures HostsKept(e, k, RunAll(es).value) {
        NothingValid(e, k, es, count);
      }
    }
  }

  lemma NothingValid(e: Env, k: string, es: seq<Env>, count: int)
    requires e.Valid() && k in e.want && e.want[k].intra && EarlierRuns(es, e, count)
    requires forall h :: !e.OkHost(h, e.want[k].zoneA)
    ensures HostsKept(e, k, RunAll(es).value)
  {
    hide Next, ComputeLayout, Fingerprint, Env.OkHost;
    assert e.want[k].zoneA == e.want[k].zoneB;
  }

  /** Two runs after which the host that a first run puts on side A is on side B. */
  lemma SwappedRuns(e: Env, k: string, count: int, u: string, v: string, h: string) returns (es: seq<Env>)
    requires e.Valid() && e.cfg.allowReuse && k in e.want && e.want[k].intra
    requires e.cfg.count > 0 && count > 0 && count != e.cfg.count
    requires u != v && u in e.Members(e.want[k].zoneA) && v in e.Members(e.want[k].zoneA)
    requires e.OkHost(h, e.want[k].zoneA)
    ensures EarlierRuns(es, e, count) && !HostsKept(e, k, RunAll(es).value)
  {
    hide Next, Fingerprint, Env.Valid, Established, StoredOk, StateOk, ComputeLayout, NextDelta, Env.Members;
    var z := e.want[k].zoneA;
    FirstSideFilled(e, k, h);
    var first := FirstPlaced(e, k);
    var other := if first == u then v else u;
    var f1 := e.(eligible := {other}, cfg := e.cfg.(count := count));
    var f2 := e.(eligible := {other, first}, cfg := e.cfg.(count := count));
    SameIndexValid(e, f1);
    SameIndexValid(e, f2);
    MemberOk(e, z, other);
    MemberOk(e, z, first);
    Swapped(f1, f2, k, first, other);
    es := [f1, f2];
    TwoRuns(f1, f2, e, count);
    CountRebuilds(e, Next(f2, Some(Next(f1, None))), count);
    assert StillValid(e, k, Next(f2, Some(Next(f1, None))), 0, SideB);
    assert !HoldsAt(Next(e, None), k, 0, SideB, first);
  }

  lemma MemberOk(e: Env, z: string, h: string)
    requires e.Valid() && h in e.Members(z)
    ensures h in e.hosts && h in e.hostZone && e.hostZone[h] == z
  {}

  /** The host a first run puts on side A of the first slot; it is not on side B. */
  lemma FirstPlaced(e: Env, k: string) returns (first: string)
    requires e.Valid() && k in e.want && e.want[k].intra && e.cfg.count > 0
    requires k in Next(e, None).pairings && |Next(e, None).pairings[k].slots| > 0
    requires Next(e, None).pairings[k].slots[0].a.host != ""
    ensures first == Next(e, None).pairings[k].slots[0].a.host && e.OkHost(first, e.want[k].zoneA)
    ensures first in e.Members(e.want[k].zoneA) && !HoldsAt(Next(e, None), k, 0, SideB, first)
    ensures e.Layout().total > 0 && e.want[k].zoneA == e.want[k].zoneB
  {
    hide Next, Settled, Fingerprint;
    NextPairingOk(e, None, k);
    FirstZones(e, k);
    first := Next(e, None).pairings[k].slots[0].a.host;
  }

  lemma TwoRuns(f1: Env, f2: Env, e: Env, count: int)
    requires f1.Valid() && f2.Valid() && f2.cfg == e.cfg.(count := count)
    ensures EarlierRuns([f1, f2], e, count) && RunAll([f1, f2]) == Some(Next(f2, Some(Next(f1, None))))
  {
    hide Next, Env.Valid, Fingerprint, StateOk;
    assert [f1, f2][..1] == [f1] && [f1][..0] == [];
    assert RunAll([f1]) == Some(Next(f1, None));
    NextOk(f1, None);
    NextFields(f2, Some(Next(f1, None)));
  }

  /** A host that comes in second takes side B. */
  lemma Swapped(f1: Env, f2: Env, k: string, first: string, other: string)
    requires f1.Valid() && f2.Valid() && f1.cfg.allowReuse && f1.cfg.count > 0 && k in f1.want && f1.want[k].intra
    requires f2 == f1.(eligible := {other, first}) && f1.eligible == {other} && first != other
    requires f2.OkHost(first, f1.want[k].zoneA) && f2.OkHost(other, f1.want[k].zoneA)
    ensures var st := Next(f2, Some(Next(f1, None)));
            HoldsAt(st, k, 0, SideB, first) && st.pairings[k].slots[0].cls != Super
  {
    hide Next, Established, StoredOk, StateOk, ComputeLayout, Env.Valid, Start, Fingerprint, NextSuperHosts, StepOne;
    FirstSideFilled(f1, k, other);
    var n := Next(f1, None);
    var placed := FirstPlaced(f1, k);
    NextOk(f1, None);
    StoredClass(f1, k);
    SameStart(f1, f2, n);
    NextPairingOk(f2, Some(n), k);
    NextAt(f2, Some(n), k);
    StoredCur(f1, k);
    assert placed == other && n.pairings[k].slots[0].Host(SideA) == other;
    assert f2.Layout() == f1.Layout();
    assert CurOk(f2, k, Some(n.pairings[k]));
    Stickiness(f2, NextSuperHosts(f2, n.superHosts), k, n.pairings[k], 0, SideA);
    ZonesStay(f2, NextSuperHosts(f2, n.superHosts), k, n.pairings[k]);
    SecondPlaced(f2, k, Next(f2, Some(n)).pairings[k], first, other);
  }

  lemma StoredClass(e: Env, k: string)
    requires e.Valid() && e.cfg.count > 0 && k in e.want && k in Next(e, None).pairings
               && |Next(e, None).pairings[k].slots| > 0
    ensures var p := Next(e, None).pairings[k];
            && p.slots[0].cls == e.Layout().ClassAt(0) && p.zoneA == e.want[k].zoneA && p.intra == e.want[k].intra
  {
    hide Next, Settled, Consistent, SeatsOk, Fingerprint;
    NextPairingOk(e, None, k);
    FirstZones(e, k);
  }

  lemma StoredCur(e: Env, k: string)
    requires e.Valid() && k in e.want
    ensures k in Next(e, None).pairings && CurOk(e, k, Some(Next(e, None).pairings[k]))
  {
    hide Next, PairingOk, Established;
    NextPairingOk(e, None, k);
  }

  lemma ZonesStay(e: Env, sh: map<string, seq<string>>, k: string, p: PairingV)
    requires k in e.want && StepOne(e, sh, k, Some(p)).Some?
    ensures var r := StepOne(e, sh, k, Some(p)).value;
            r.zoneA == p.zoneA && r.zoneB == p.zoneB && r.intra == p.intra
  {
    SameZones(e, sh, k, Some(p));
    hide StepOne, Validated, Resize, ComputeLayout;
  }

  lemma SameStart(e: Env, f: Env, n: StateV)
    requires e.Valid() && n == Next(e, None) && f.cfg == e.cfg && f.zoneFp == e.zoneFp
    ensures Start(f, Some(n)) == n
  {
    hide Next, Fingerprint, Env.Valid;
    NextFields(e, None);
  }

  lemma SecondPlaced(f: Env, k: string, p: PairingV, first: string, other: string)
    requires f.Valid() && f.cfg.allowReuse && f.cfg.count > 0 && Established(f, k, p) && p.intra && first != other
    requires f.eligible == {other, first} && f.OkHost(first, p.zoneA) && f.OkHost(other, p.zoneA)
    requires |p.slots| > 0 && p.slots[0].a.host == other
    ensures p.slots[0].b.host == first && p.slots[0].cls != Super
  {
    hide Settled, AnchorsAgree;
    assert f.Layout().total > 0;
    assert first in Pool(f, p, SideA) && other in Pool(f, p, SideA);
    SubsetSize({first, other}, Pool(f, p, SideA));
    IntraSlotFilled(f, k, p, 0, SideB);
    assert f.OkHost(p.slots[0].b.host, p.zoneB);
  }
}
