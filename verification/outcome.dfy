/** What a reconcile does with each of its inputs, in terms of the inputs alone
    (internal/reconcile/reconcile.go:99-151). */
module Outcomes {
  import opened Base
  import opened Slots
  import opened Tables
  import opened Filling
  import opened Invariants
  import opened Runs
  import SuperSlots
  import opened Inventory
  import opened Zones
  import opened Pairings
  import opened Reconciling
  import RemovalHold
  import CountChange

  /** Where the parts of the resolved inputs come from. */
  lemma EnvFields(in_: Input, x: Index, want: map<string, Wanted>)
    ensures var e := EnvOf(in_, x, want);
            && e.hosts == in_.snap.Ids() && e.members == x.members && e.hostZone == x.hostZone
            && e.eligible == in_.eligible && e.want == want && e.cfg == in_.cfg && e.zoneFp == in_.rule.fp
            && e.hold == in_.hold && e.now == in_.now && e.hash == in_.hash
            && e.matched == Selected(in_.snap, in_.cfg.superSelector)
  {
    hide Selected;
  }

  // ---------- what was stored ----------

  /** The stored pairing that the run goes on from: none when the rule or the printed slot
      configuration is another. */
  function StoredPairing(in_: Input, cur: Option<StateV>, k: string): Option<PairingV> {
    if cur.Some? && cur.value.zoneRule == in_.rule.fp && cur.value.slotsConfig == Some(Fingerprint(in_.cfg))
        && k in cur.value.pairings
    then Some(cur.value.pairings[k]) else None
  }

  function SeatOn(s: Slot, side: Side): Seat { if side == SideA then s.a else s.b }

  /** The seat the run finds at slot i, an empty one when nothing is stored. */
  function StoredSeat(in_: Input, cur: Option<StateV>, k: string, i: nat, side: Side): Seat {
    var p := StoredPairing(in_, cur, k);
    if p.Some? && i < |p.value.slots| then SeatOn(p.value.slots[i], side) else Seat("", Unfilled, None)
  }

  lemma StoredAre(in_: Input, cur: Option<StateV>, x: Index, want: map<string, Wanted>, k: string)
    ensures var e := EnvOf(in_, x, want);
            Get(Start(e, cur).pairings, k) == StoredPairing(in_, cur, k)
    ensures forall i: nat, side ::
              BaseAt(StoredSlots(StoredPairing(in_, cur, k)), i).Seat(side) == StoredSeat(in_, cur, k, i, side)
  {
    hide Fingerprint, Selected;
  }

  // ---------- the sides ----------

  /** The snapshot holds a host of this name whose attributes give it this zone. */
  ghost predicate Located(in_: Input, h: string, z: string) {
    exists r :: r in in_.snap.hosts && r.id == h && ZoneOf(in_.rule, r) == Some(z)
  }

  /** A side of a base slot is empty, or it holds an eligible host of the snapshot in its zone,
      as stored or filled at the time of the run. */
  ghost predicate SideRight(in_: Input, old_: Seat, seat: Seat, z: string) {
    seat.host == "" || (seat.host in in_.eligible && Located(in_, seat.host, z)
      && (seat == old_ || seat.at == Some(in_.now)))
  }

  /** Slot i of an active pairing of this state is a base slot. */
  predicate ActiveBase(st: StateV, k: string, i: nat) {
    && k in st.pairings && st.pairings[k].removeAt.None?
    && i < |st.pairings[k].slots| && st.pairings[k].slots[i].cls != Super
  }

  function ZoneOn(p: PairingV, side: Side): string { if side == SideA then p.zoneA else p.zoneB }

  /** Every base side of every active pairing is right. */
  ghost predicate SidesRight(in_: Input, cur: Option<StateV>, next: StateV) {
    forall k, i: nat, side :: ActiveBase(next, k, i) ==>
      SideRight(in_, StoredSeat(in_, cur, k, i, side), SeatOn(next.pairings[k].slots[i], side),
        ZoneOn(next.pairings[k], side))
  }

  /** The stored slot i of this pairing has the class it has now, and the host on this side is
      still eligible and in its zone. */
  ghost predicate StillRight(in_: Input, cur: Option<StateV>, next: StateV, k: string, i: nat, side: Side)
    requires k in next.pairings && i < |next.pairings[k].slots|
  {
    var p, seat := StoredPairing(in_, cur, k), StoredSeat(in_, cur, k, i, side);
    && p.Some? && i < |p.value.slots| && p.value.slots[i].cls == next.pairings[k].slots[i].cls
    && seat.host in in_.eligible && Located(in_, seat.host, ZoneOn(next.pairings[k], side))
  }

  /** Such a seat stays as it is, host, rank and time. */
  ghost predicate SidesKept(in_: Input, cur: Option<StateV>, next: StateV) {
    forall k, i: nat, side :: ActiveBase(next, k, i) && StillRight(in_, cur, next, k, i, side) ==>
      SeatOn(next.pairings[k].slots[i], side) == StoredSeat(in_, cur, k, i, side)
  }

  /** Which hosts the passes accept. */
  lemma OkHostMeans(in_: Input, x: Index, want: map<string, Wanted>, h: string, z: string)
    requires in_.Valid() && Indexes(x, in_.rule, in_.snap.hosts)
    ensures EnvOf(in_, x, want).OkHost(h, z) <==> h in in_.eligible && Located(in_, h, z)
  {
    hide ZoneOf, StrictlySorted, MembersIndexed, UnresolvedOf, Selected;
    DistinctIds(in_.snap.hosts);
    if Located(in_, h, z) {
      var r :| r in in_.snap.hosts && r.id == h && ZoneOf(in_.rule, r) == Some(z);
      var i :| 0 <= i < |in_.snap.hosts| && in_.snap.hosts[i] == r;
    }
    if h in x.hostZone && x.hostZone[h] == z {
      var i :| 0 <= i < |in_.snap.hosts| && in_.snap.hosts[i].id == h && ZoneOf(in_.rule, in_.snap.hosts[i]).Some?;
      assert in_.snap.hosts[i] in in_.snap.hosts;
    }
  }

  /** One base side of an active pairing after a run. */
  lemma RunSide(e: Env, cur: Option<StateV>, k: string, i: nat, side: Side)
    requires e.Valid() && (cur.Some? ==> StateOk(cur.value)) && ActiveBase(Next(e, cur), k, i)
    ensures var p, x := Next(e, cur).pairings[k], BaseAt(StoredSlots(Get(Start(e, cur).pairings, k)), i);
            var seat := p.slots[i].Seat(side);
            && (seat.host == "" || (e.OkHost(seat.host, p.Zone(side))
                 && (seat == x.Seat(side) || seat.at == Some(e.now))))
            && (x.cls == p.slots[i].cls && x.Host(side) != "" && e.OkHost(x.Host(side), p.Zone(side)) ==>
                 seat == x.Seat(side))
  {
    hide Next, StepOne, StateOk, Start, NextSuperHosts, Established, StoredOk, Fingerprint, ComputeLayout, Env.Valid,
         CurOk;
    StartOk(e, cur);
    ActiveIsWanted(e, cur, k);
    NextPairingOk(e, cur, k);
    NextAt(e, cur, k);
    var st := Start(e, cur);
    var sh := NextSuperHosts(e, st.superHosts);
    StoredIsCur(e, k, Get(st.pairings, k));
    BaseIndex(e, k, Next(e, cur).pairings[k], i);
    SlotJourney(e, sh, k, Get(st.pairings, k), i);
    SideJourney(e, BaseAt(StoredSlots(Get(st.pairings, k)), i), Diffed(e, k, Get(st.pairings, k)),
                Supered(e, sh, k, Get(st.pairings, k)), Next(e, cur).pairings[k], i, side);
  }

  lemma StoredIsCur(e: Env, k: string, cur: Option<PairingV>)
    requires StoredOk(e, k, cur)
    ensures CurOk(e, k, cur)
  {
    hide PairingOk;
  }

  lemma BaseIndex(e: Env, k: string, p: PairingV, i: nat)
    requires Established(e, k, p) && i < |p.slots| && p.slots[i].cls != Super
    ensures i < e.Layout().total && p.slots[i].cls == e.Layout().ClassAt(i)
    ensures forall side :: p.slots[i].Host(side) != "" ==> e.OkHost(p.slots[i].Host(side), p.Zone(side))
  {
    hide Settled, Consistent, ComputeLayout;
  }

  /** From the stored slot to the final one, as `SlotJourney` has it. */
  lemma SideJourney(e: Env, x: Slot, d: PairingV, s: PairingV, r: PairingV, i: nat, side: Side)
    requires i < |s.slots| && i < |r.slots| && d.zoneA == r.zoneA && d.zoneB == r.zoneB
    requires s.slots[i] == CheckSlot(e, d, Reclass(x, i, r.slots[i].cls)) && SlotGrown(e, s, s.slots[i], r.slots[i])
    requires forall side :: r.slots[i].Host(side) != "" ==> e.OkHost(r.slots[i].Host(side), r.Zone(side))
    ensures var seat := r.slots[i].Seat(side);
            && (seat.host == "" || (e.OkHost(seat.host, r.Zone(side))
                 && (seat == x.Seat(side) || seat.at == Some(e.now))))
            && (x.cls == r.slots[i].cls && x.Host(side) != "" && e.OkHost(x.Host(side), r.Zone(side)) ==>
                 seat == x.Seat(side))
  {
    hide Cand;
  }

  /** What a reconcile leaves on every base side, in terms of its inputs. */
  lemma RunSides(in_: Input, cur: Option<StateV>, x: Index, want: map<string, Wanted>)
    requires in_.Valid() && (cur.Some? ==> StateOk(cur.value))
    requires Indexes(x, in_.rule, in_.snap.hosts) && Resolves(in_, x, want)
    ensures SidesRight(in_, cur, Next(EnvOf(in_, x, want), cur)) && SidesKept(in_, cur, Next(EnvOf(in_, x, want), cur))
  {
    hide Next, NextDelta, Reports, Resolves, EnvOf, Indexes, Input.Valid, StateOk, Env.Valid, SideRight, StillRight;
    var next := Next(EnvOf(in_, x, want), cur);
    EnvIsValid(in_, x, want);
    forall k, i: nat, side | ActiveBase(next, k, i)
      ensures SideRight(in_, StoredSeat(in_, cur, k, i, side), SeatOn(next.pairings[k].slots[i], side),
                        ZoneOn(next.pairings[k], side))
      ensures StillRight(in_, cur, next, k, i, side) ==>
                SeatOn(next.pairings[k].slots[i], side) == StoredSeat(in_, cur, k, i, side)
    {
      OutcomeSide(in_, cur, x, want, k, i, side);
    }
  }

  lemma OutcomeSides(in_: Input, cur: Option<StateV>, x: Index, want: map<string, Wanted>, next: StateV,
                     added: seq<string>, removed: seq<string>, supers: seq<string>, sides: seq<SideChange>)
    requires in_.Valid() && (cur.Some? ==> StateOk(cur.value))
    requires Outcome(in_, cur, x, want, next, added, removed, supers, sides)
    ensures SidesRight(in_, cur, next) && SidesKept(in_, cur, next)
  {
    hide Next, NextDelta, EnvOf, Indexes, Resolves, Reports, Input.Valid, StateOk, SidesRight, SidesKept, PairingRight,
         TableRight, SupersRight,
         Fingerprint;
    RunSides(in_, cur, x, want);
  }

  lemma OutcomeSide(in_: Input, cur: Option<StateV>, x: Index, want: map<string, Wanted>, k: string, i: nat, side: Side)
    requires in_.Valid() && (cur.Some? ==> StateOk(cur.value)) && Indexes(x, in_.rule, in_.snap.hosts)
    requires Resolves(in_, x, want) && ActiveBase(Next(EnvOf(in_, x, want), cur), k, i)
    ensures var next := Next(EnvOf(in_, x, want), cur);
            && SideRight(in_, StoredSeat(in_, cur, k, i, side), SeatOn(next.pairings[k].slots[i], side),
                         ZoneOn(next.pairings[k], side))
            && (StillRight(in_, cur, next, k, i, side) ==>
                 SeatOn(next.pairings[k].slots[i], side) == StoredSeat(in_, cur, k, i, side))
  {
    hide Next, Resolves, EnvOf, Indexes, StateOk, Env.Valid, Located, Start, Fingerprint, BaseAt, Env.OkHost;
    var e := EnvOf(in_, x, want);
    var next := Next(e, cur);
    EnvIsValid(in_, x, want);
    EnvFields(in_, x, want);
    RunSide(e, cur, k, i, side);
    StoredAre(in_, cur, x, want, k);
    StoredClass(in_, cur, k, i);
    var p := next.pairings[k];
    OkHostMeans(in_, x, want, p.slots[i].Host(side), p.Zone(side));
    OkHostMeans(in_, x, want, StoredSeat(in_, cur, k, i, side).host, p.Zone(side));
    if StillRight(in_, cur, next, k, i, side) {
      LocatedNamed(in_, StoredSeat(in_, cur, k, i, side).host, ZoneOn(p, side));
    }
  }

  lemma StoredClass(in_: Input, cur: Option<StateV>, k: string, i: nat)
    ensures var p := StoredPairing(in_, cur, k);
            p.Some? && i < |p.value.slots| ==> BaseAt(StoredSlots(p), i) == p.value.slots[i]
  {
    hide Fingerprint;
  }

  lemma LocatedNamed(in_: Input, h: string, z: string)
    requires in_.Valid() && Located(in_, h, z)
    ensures h != ""
  {
    hide ZoneOf, Snapshot.Valid;
  }

  // ---------- which pairings ----------

  /** The include and exclude lists let a key pass. */
  ghost predicate Admitted(in_: Input, k: string) {
    in_.filter.None? ||
    (&& (in_.filter.value.accept == [] || exists pat :: pat in in_.filter.value.accept && in_.glob(pat, k))
     && forall pat :: pat in in_.filter.value.reject ==> !in_.glob(pat, k))
  }

  lemma AdmittedIs(in_: Input, k: string)
    ensures Admitted(in_, k) <==> Matches(in_.filter, in_.glob, k)
  {
    if in_.filter.Some? {
      var acc, rej := in_.filter.value.accept, in_.filter.value.reject;
      if pat :| pat in acc && in_.glob(pat, k) { var i :| 0 <= i < |acc| && acc[i] == pat; }
      forall i | 0 <= i < |rej| ensures rej[i] in rej {}
      forall i | 0 <= i < |acc| ensures acc[i] in acc {}
    }
  }

  /** Two zones of hosts call for a pairing under this key; for one zone inside itself the
      configuration must ask for it and the zone must hold two hosts. */
  ghost predicate CallsFor(in_: Input, k: string, a: string, b: string) {
    && (exists h :: Located(in_, h, a)) && (exists h :: Located(in_, h, b))
    && k == a + "|" + b && Admitted(in_, k)
    && if a == b then in_.pairs.intraZone && exists g, h :: g != h && Located(in_, g, a) && Located(in_, h, a)
       else StrLt(a, b)
  }

  /** A pairing called for by two zones: inside one zone when they are the same, and between
      them when the first has no bar in its name. */
  predicate Between(zoneA: string, zoneB: string, intra: bool, a: string, b: string) {
    (intra <==> a == b) && (a == b || '|' !in a ==> zoneA == a && zoneB == b)
  }

  /** The wanted keys are those that two zones call for; the pairing lies between these zones
      when the first has no bar in its name. */
  lemma WantMeans(in_: Input, x: Index, want: map<string, Wanted>, k: string)
    requires in_.Valid() && Indexes(x, in_.rule, in_.snap.hosts) && Resolves(in_, x, want)
    ensures k in want <==> exists a, b :: CallsFor(in_, k, a, b)
    ensures k in want ==> exists a, b ::
              CallsFor(in_, k, a, b) && Between(want[k].zoneA, want[k].zoneB, want[k].intra, a, b)
  {
    hide WantedSet, Matches, Indexes, CallsFor, InRows;
    var ok := k => Matches(in_.filter, in_.glob, k);
    WantedFrom(x, in_.pairs, ok);
    if k in want {
      var w :| w in WantOf(in_, x) && w.key == k && want[k] == Wanted(w.zoneA, w.zoneB, w.intra);
      var i, j := PlaceIn(x, in_.pairs, ok, w);
      PlaceCalls(in_, x, ok, w, i, j);
    }
    if a, b :| CallsFor(in_, k, a, b) {
      var w := CallsPlace(in_, x, ok, k, a, b);
      assert w in WantOf(in_, x);
    }
  }

  /** Which zones have members. */
  lemma MembersLocated(in_: Input, x: Index, z: string)
    requires in_.Valid() && Indexes(x, in_.rule, in_.snap.hosts)
    ensures z in x.zones <==> exists h :: Located(in_, h, z)
    ensures z in x.members <==> z in x.zones
    ensures z in x.members ==> Distinct(x.members[z]) && forall h :: h in x.members[z] <==> Located(in_, h, z)
  {
    hide ZoneOf, StrictlySorted, ZonesIndexed, UnresolvedOf;
    var hosts := in_.snap.hosts;
    forall h ensures h in MembersOf(in_.rule, hosts, z) <==> Located(in_, h, z) {
      MembersMeaning(in_.rule, hosts, z, h);
      if Located(in_, h, z) {
        var r :| r in hosts && r.id == h && ZoneOf(in_.rule, r) == Some(z);
        var i :| 0 <= i < |hosts| && hosts[i] == r;
      }
      if i :| 0 <= i < |hosts| && hosts[i].id == h && ZoneOf(in_.rule, hosts[i]) == Some(z) {
        assert hosts[i] in hosts;
      }
    }
    MembersIncreasing(in_.rule, hosts, z);
    IncreasingDistinct(MembersOf(in_.rule, hosts, z));
    hide Located, MembersOf, Distinct, Increasing;
    if z in x.members { assert x.members[z][0] in x.members[z]; }
  }

  lemma TwoOf(s: seq<string>)
    requires Distinct(s)
    ensures |s| >= 2 <==> exists g, h :: g != h && g in s && h in s
  {
    if |s| >= 2 { assert s[0] in s && s[1] in s && s[0] != s[1]; }
  }

  lemma PlaceCalls(in_: Input, x: Index, ok: string -> bool, w: PairWant, i: nat, j: nat)
    requires in_.Valid() && Indexes(x, in_.rule, in_.snap.hosts) && From(x, in_.pairs, ok, w, i, j)
    requires forall k :: ok(k) == Matches(in_.filter, in_.glob, k)
    ensures CallsFor(in_, w.key, x.zones[i], x.zones[j]) && (w.intra <==> i == j)
              && (x.zones[i] == x.zones[j] <==> i == j)
    ensures i == j || '|' !in x.zones[i] ==> w.zoneA == x.zones[i] && w.zoneB == x.zones[j]
  {
    hide Matches, Indexes, Located, Admitted, Split, Input.Valid, MakeKey, CallsFor, IntraPair, CrossPair, Increasing;
    ZonesIncrease(x, in_.rule, in_.snap.hosts);
    ZonesOrder(x, i, j);
    StrLtIrreflexive(x.zones[i]);
    AdmittedIs(in_, w.key);
    if i == j { IntraCalls(in_, x, ok, w, x.zones[i]); } else { CrossCalls(in_, x, ok, w, x.zones[i], x.zones[j]); }
  }

  lemma IntraCalls(in_: Input, x: Index, ok: string -> bool, w: PairWant, a: string)
    requires in_.Valid() && Indexes(x, in_.rule, in_.snap.hosts) && w in IntraPair(x, in_.pairs, ok, a) && a in x.zones
    requires ok(w.key) ==> Admitted(in_, w.key)
    ensures CallsFor(in_, w.key, a, a) && w.intra && w.zoneA == w.zoneB == a
  {
    hide Indexes, Located, Admitted, Input.Valid, MakeKey;
    KeyText(a, a);
    MembersLocated(in_, x, a);
    TwoOf(x.members[a]);
  }

  lemma CrossCalls(in_: Input, x: Index, ok: string -> bool, w: PairWant, a: string, b: string)
    requires in_.Valid() && Indexes(x, in_.rule, in_.snap.hosts) && w in CrossPair(ok, a, b)
    requires a in x.zones && b in x.zones && StrLt(a, b) && (ok(w.key) ==> Admitted(in_, w.key))
    ensures CallsFor(in_, w.key, a, b) && !w.intra
    ensures '|' !in a ==> w.zoneA == a && w.zoneB == b
  {
    hide Indexes, Located, Admitted, Input.Valid, MakeKey, Split;
    StrLtIrreflexive(a);
    KeyText(a, b);
    MembersLocated(in_, x, a);
    MembersLocated(in_, x, b);
    if '|' !in a { CrossPairIs(ok, a, b); }
  }

  lemma KeyText(a: string, b: string)
    ensures a == b || StrLt(a, b) ==> MakeKey(a, b) == a + "|" + b
  {}

  lemma CallsPlace(in_: Input, x: Index, ok: string -> bool, k: string, a: string, b: string) returns (w: PairWant)
    requires in_.Valid() && Indexes(x, in_.rule, in_.snap.hosts) && CallsFor(in_, k, a, b)
    requires forall k :: ok(k) == Matches(in_.filter, in_.glob, k)
    ensures InRows(x, in_.pairs, ok, w, |x.zones|) && w.key == k
  {
    MembersLocated(in_, x, a);
    MembersLocated(in_, x, b);
    AdmittedIs(in_, k);
    ZonesIncrease(x, in_.rule, in_.snap.hosts);
    KeyText(a, b);
    var i: nat :| i < |x.zones| && x.zones[i] == a;
    var j: nat :| j < |x.zones| && x.zones[j] == b;
    hide Matches, Indexes, Located, Admitted, Split, Input.Valid;
    if a == b {
      TwoOf(x.members[a]);
      w := IntraPair(x, in_.pairs, ok, a)[0];
      assert From(x, in_.pairs, ok, w, i, i);
    } else {
      PlacesOrder(x, a, b, i, j);
      w := CrossPair(ok, a, b)[0];
      assert From(x, in_.pairs, ok, w, i, j);
    }
    assert InRow(x, in_.pairs, ok, w, i, |x.zones|);
  }

  /** What a reconcile does with pairings: a pairing that two zones call for is active; any
      other stored one goes at its deadline, which it keeps or is given one hold after the
      run; a discarded table leaves nothing. A pairing never changes its zones. */
  ghost predicate PairingRight(in_: Input, cur: Option<StateV>, next: StateV, k: string) {
    var old_ := StoredPairing(in_, cur, k);
    if exists a, b :: CallsFor(in_, k, a, b) then
      && k in next.pairings && next.pairings[k].removeAt == None
      && var p := next.pairings[k];
         if old_.Some? then p.zoneA == old_.value.zoneA && p.zoneB == old_.value.zoneB && p.intra == old_.value.intra
         else exists a, b :: CallsFor(in_, k, a, b) && Between(p.zoneA, p.zoneB, p.intra, a, b)
    else if old_.None? then k !in next.pairings
    else match old_.value.removeAt
      case None => k in next.pairings && next.pairings[k] == old_.value.(removeAt := Some(in_.now + in_.hold))
      case Some(t) => if in_.now < t then k in next.pairings && next.pairings[k] == old_.value else k !in next.pairings
  }

  lemma RunPairings(in_: Input, cur: Option<StateV>, x: Index, want: map<string, Wanted>, k: string)
    requires in_.Valid() && (cur.Some? ==> StateOk(cur.value))
    requires Indexes(x, in_.rule, in_.snap.hosts) && Resolves(in_, x, want)
    ensures PairingRight(in_, cur, Next(EnvOf(in_, x, want), cur), k)
    ensures Next(EnvOf(in_, x, want), cur).zoneRule == in_.rule.fp
              && Next(EnvOf(in_, x, want), cur).slotsConfig == Some(Fingerprint(in_.cfg))
  {
    hide Next, NextDelta, Reports, Resolves, EnvOf, Indexes, Input.Valid, StateOk, Env.Valid, CallsFor, Start,
         Fingerprint,
         StoredPairing;
    var next := Next(EnvOf(in_, x, want), cur);
    var e := EnvOf(in_, x, want);
    EnvIsValid(in_, x, want);
    EnvFields(in_, x, want);
    WantMeans(in_, x, want, k);
    StoredAre(in_, cur, x, want, k);
    NextFields(e, cur);
    RemovalHold.DeadlineNext(e, cur, k);
    if k in want { ZonesOfRun(e, cur, k); }
    var p := Get(Start(e, cur).pairings, k);
    if p.Some? { assert p.value.(removeAt := p.value.removeAt) == p.value; }
  }

  lemma OutcomePairings(in_: Input, cur: Option<StateV>, x: Index, want: map<string, Wanted>, next: StateV,
                        added: seq<string>, removed: seq<string>, supers: seq<string>, sides: seq<SideChange>,
                          k: string)
    requires in_.Valid() && (cur.Some? ==> StateOk(cur.value))
    requires Outcome(in_, cur, x, want, next, added, removed, supers, sides)
    ensures PairingRight(in_, cur, next, k)
    ensures next.zoneRule == in_.rule.fp && next.slotsConfig == Some(Fingerprint(in_.cfg))
  {
    hide Next, NextDelta, EnvOf, Indexes, Resolves, Reports, Input.Valid, StateOk, SidesRight, SidesKept, PairingRight,
         TableRight, SupersRight,
         Fingerprint;
    RunPairings(in_, cur, x, want, k);
  }

  lemma ZonesOfRun(e: Env, cur: Option<StateV>, k: string)
    requires e.Valid() && (cur.Some? ==> StateOk(cur.value)) && k in e.want
    ensures k in Next(e, cur).pairings
    ensures var p, old_ := Next(e, cur).pairings[k], Get(Start(e, cur).pairings, k);
            if old_.Some? then p.zoneA == old_.value.zoneA && p.zoneB == old_.value.zoneB && p.intra == old_.value.intra
            else p.zoneA == e.want[k].zoneA && p.zoneB == e.want[k].zoneB && p.intra == e.want[k].intra
  {
    hide Next, StepOne, StateOk, Start, NextSuperHosts, Env.Valid, Resize, ComputeLayout, Validated;
    NextPairingOk(e, cur, k);
    NextAt(e, cur, k);
    var st := Start(e, cur);
    SuperSlots.SameZones(e, NextSuperHosts(e, st.superHosts), k, Get(st.pairings, k));
  }

  // ---------- the layout and the free sides ----------

  /** Every active pairing has as many base slots as configured, numbered by position, the first
      of them anchors, and super slots only with super testing on; a side between two zones is empty
      only when its zone has no host to give. */
  ghost predicate TableRight(in_: Input, p: PairingV) {
    && (forall i :: 0 <= i < |p.slots| ==> p.slots[i].index == i && (p.slots[i].cls != Super <==> i < in_.cfg.count))
    && (forall i :: 0 <= i < in_.cfg.count ==>
         i < |p.slots| && p.slots[i].cls == if i < ComputeLayout(in_.cfg).anchors then Anchor else Diverse)
    && (in_.cfg.superHosts <= 0 ==> forall i :: 0 <= i < |p.slots| ==> p.slots[i].cls != Super)
    && (!p.intra && in_.cfg.allowReuse ==>
         forall i: nat, side, h :: i < in_.cfg.count && i < |p.slots| && SeatOn(p.slots[i], side).host == "" ==>
           !(h in in_.eligible && Located(in_, h, ZoneOn(p, side))))
  }

  lemma RunTables(in_: Input, cur: Option<StateV>, x: Index, want: map<string, Wanted>, k: string)
    requires in_.Valid() && (cur.Some? ==> StateOk(cur.value))
    requires Indexes(x, in_.rule, in_.snap.hosts) && Resolves(in_, x, want)
    requires k in Next(EnvOf(in_, x, want), cur).pairings && Next(EnvOf(in_, x, want), cur).pairings[k].removeAt.None?
    ensures TableRight(in_, Next(EnvOf(in_, x, want), cur).pairings[k])
  {
    hide Next, NextDelta, Reports, Resolves, EnvOf, Indexes, Input.Valid, StateOk, Env.Valid, Located, Start,
         Fingerprint,
         Established, Env.OkHost;
    var next := Next(EnvOf(in_, x, want), cur);
    var e := EnvOf(in_, x, want);
    EnvIsValid(in_, x, want);
    EnvFields(in_, x, want);
    ActiveIsWanted(e, cur, k);
    NextPairingOk(e, cur, k);
    var p := next.pairings[k];
    EstablishedTable(e, k, p);
    if in_.cfg.superHosts <= 0 { NoSuperSlots(e, k, p); }
    forall i: nat, side, h | !p.intra && in_.cfg.allowReuse && i < in_.cfg.count && i < |p.slots|
      && SeatOn(p.slots[i], side).host == ""
      ensures !(h in in_.eligible && Located(in_, h, ZoneOn(p, side)))
    {
      OkHostMeans(in_, x, want, h, p.Zone(side));
      NothingToGive(e, k, p, i, side, h);
    }
  }

  lemma OutcomeTables(in_: Input, cur: Option<StateV>, x: Index, want: map<string, Wanted>, next: StateV,
                      added: seq<string>, removed: seq<string>, supers: seq<string>, sides: seq<SideChange>, k: string)
    requires in_.Valid() && (cur.Some? ==> StateOk(cur.value))
    requires Outcome(in_, cur, x, want, next, added, removed, supers, sides)
    requires k in next.pairings && next.pairings[k].removeAt.None?
    ensures TableRight(in_, next.pairings[k])
  {
    hide Next, NextDelta, EnvOf, Indexes, Resolves, Reports, Input.Valid, StateOk, SidesRight, SidesKept, PairingRight,
         TableRight, SupersRight,
         Fingerprint;
    RunTables(in_, cur, x, want, k);
  }

  lemma NoSuperSlots(e: Env, k: string, p: PairingV)
    requires StoredOk(e, k, Some(p)) && e.cfg.superHosts <= 0
    ensures forall i :: 0 <= i < |p.slots| ==> p.slots[i].cls != Super
  {
    hide ComputeLayout, Consistent;
  }

  lemma EstablishedTable(e: Env, k: string, p: PairingV)
    requires Established(e, k, p)
    ensures forall i :: 0 <= i < |p.slots| ==> p.slots[i].index == i && (p.slots[i].cls != Super <==> i < e.cfg.count)
    ensures forall i :: 0 <= i < e.cfg.count ==>
              i < |p.slots| && p.slots[i].cls == if i < ComputeLayout(e.cfg).anchors then Anchor else Diverse
  {
    hide Settled, Consistent, SeatsOk, Raw;
  }

  lemma NothingToGive(e: Env, k: string, p: PairingV, i: nat, side: Side, h: string)
    requires e.Valid() && e.cfg.allowReuse && Established(e, k, p) && !p.intra && i < e.cfg.count && i < |p.slots|
    requires p.slots[i].Host(side) == ""
    ensures !e.OkHost(h, p.Zone(side))
  {
    hide Established, ComputeLayout;
    CountIsTotal(e);
    InterZoneComplete(e, k, p, i, side);
    assert e.OkHost(h, p.Zone(side)) ==> h in Pool(e, p, side);
  }

  lemma CountIsTotal(e: Env)
    ensures e.cfg.count > 0 ==> e.Layout().total == e.cfg.count
  {}

  // ---------- super hosts ----------

  /** The hosts of one zone, in the order of the snapshot. */
  function ZoneHosts(r: Rule, hosts: seq<HostRecord>, z: string): seq<string> {
    if |hosts| == 0 then []
    else (if ZoneOf(r, hosts[0]) == Some(z) then [hosts[0].id] else []) + ZoneHosts(r, hosts[1..], z)
  }

  lemma {:induction false} MembersConcat(r: Rule, xs: seq<HostRecord>, ys: seq<HostRecord>, z: string)
    ensures MembersOf(r, xs + ys, z) == MembersOf(r, xs, z) + MembersOf(r, ys, z)
  {
    hide ZoneOf;
    if |ys| == 0 {
      assert xs + ys == xs;
    } else {
      MembersConcat(r, xs, ys[..|ys| - 1], z);
      assert (xs + ys)[..|xs + ys| - 1] == xs + ys[..|ys| - 1];
    }
  }

  lemma {:induction false} MembersAreHosts(r: Rule, hosts: seq<HostRecord>, z: string)
    ensures MembersOf(r, hosts, z) == ZoneHosts(r, hosts, z)
  {
    hide ZoneOf;
    if |hosts| > 0 {
      MembersAreHosts(r, hosts[1..], z);
      MembersConcat(r, [hosts[0]], hosts[1..], z);
      assert hosts == [hosts[0]] + hosts[1..] && [hosts[0]][..0] == [];
    }
  }

  /** The selector is set and the host has every attribute it asks for. */
  ghost predicate Preferred(in_: Input, h: string) {
    in_.cfg.superSelector != map[] &&
    exists r :: r in in_.snap.hosts && r.id == h
      && forall a :: a in in_.cfg.superSelector ==> a in r.attributes && r.attributes[a] == in_.cfg.superSelector[a]
  }

  lemma PreferredIs(in_: Input, h: string)
    ensures Preferred(in_, h) <==> h in Selected(in_.snap, in_.cfg.superSelector)
  {
    if h in Selected(in_.snap, in_.cfg.superSelector) {
      var r :| r in in_.snap.hosts && Selects(in_.cfg.superSelector, r) && r.id == h;
    }
  }

  /** The super hosts that are stored for a zone. */
  function StoredSupers(in_: Input, cur: Option<StateV>, z: string): seq<string> {
    if cur.Some? && cur.value.zoneRule == in_.rule.fp && cur.value.slotsConfig == Some(Fingerprint(in_.cfg))
        && z in cur.value.superHosts
    then cur.value.superHosts[z] else []
  }

  function SupersOn(st: StateV, z: string): seq<string> { if z in st.superHosts then st.superHosts[z] else [] }

  /** The super hosts of a zone after a run: eligible hosts of it, as many as wanted or as there
      are; stored ones stay; preferred ones are added before others, each kind in ID order. */
  ghost predicate SupersRight(in_: Input, cur: Option<StateV>, next: StateV, z: string) {
    var r, n := SupersOn(next, z), in_.cfg.superHosts;
    var hosts := ZoneHosts(in_.rule, in_.snap.hosts, z);
    var pool := set h | h in hosts && h in in_.eligible;
    var preferred := set h | h in hosts && Preferred(in_, h);
    var valid := Filtered(StoredSupers(in_, cur, z), pool);
    && |r| == (if n <= 0 then 0 else if n < |pool| then n else |pool|)
    && Distinct(r) && (forall h :: h in r ==> h in pool)
    && (n > 0 ==>
         if |valid| >= n then r == valid[..n]
         else Sorted(r, StrLe) && (forall h :: h in valid ==> h in r)
              && MatchedFirst(hosts, preferred, in_.eligible, valid, r)
                   && FrontFirst(hosts, preferred, in_.eligible, valid, r))
  }

  lemma RunSupers(in_: Input, cur: Option<StateV>, x: Index, want: map<string, Wanted>, z: string)
    requires in_.Valid() && (cur.Some? ==> StateOk(cur.value))
    requires Indexes(x, in_.rule, in_.snap.hosts) && Resolves(in_, x, want)
    ensures SupersRight(in_, cur, Next(EnvOf(in_, x, want), cur), z)
  {
    hide Next, NextDelta, Reports, Resolves, EnvOf, Indexes, Input.Valid, StateOk, Env.Valid, Start, Fingerprint,
         PickSuper,
         SupersRight, Filtered, MatchedFirst, FrontFirst;
    var next := Next(EnvOf(in_, x, want), cur);
    var e := EnvOf(in_, x, want);
    EnvFields(in_, x, want);
    StartOk(e, cur);
    SuperHostsDistinct(Start(e, cur));
    StoredSupersAre(in_, cur, x, want, z);
    NextSupers(e, cur);
    ZoneMembers(in_, x, z);
    EmptyDistinct<string>();
    ChosenSupers(e, Start(e, cur).superHosts, z);
    PickedSupers(in_, cur, next, x, z);
  }

  lemma OutcomeSupers(in_: Input, cur: Option<StateV>, x: Index, want: map<string, Wanted>, next: StateV,
                      added: seq<string>, removed: seq<string>, supers: seq<string>, sides: seq<SideChange>, z: string)
    requires in_.Valid() && (cur.Some? ==> StateOk(cur.value))
    requires Outcome(in_, cur, x, want, next, added, removed, supers, sides)
    ensures SupersRight(in_, cur, next, z)
  {
    hide Next, NextDelta, EnvOf, Indexes, Resolves, Reports, Input.Valid, StateOk, SidesRight, SidesKept, PairingRight,
         TableRight, SupersRight,
         Fingerprint;
    RunSupers(in_, cur, x, want, z);
  }

  lemma NextSupers(e: Env, cur: Option<StateV>)
    ensures Next(e, cur).superHosts == NextSuperHosts(e, Start(e, cur).superHosts)
  {
    hide StepOne, NextSuperHosts, Start;
  }

  lemma StoredSupersAre(in_: Input, cur: Option<StateV>, x: Index, want: map<string, Wanted>, z: string)
    ensures HostsOf(Start(EnvOf(in_, x, want), cur).superHosts, z) == StoredSupers(in_, cur, z)
  {
    hide Fingerprint, Selected;
  }

  lemma ZoneMembers(in_: Input, x: Index, z: string)
    requires in_.Valid() && Indexes(x, in_.rule, in_.snap.hosts)
    ensures (if z in x.members then x.members[z] else []) == ZoneHosts(in_.rule, in_.snap.hosts, z)
    ensures Distinct(ZoneHosts(in_.rule, in_.snap.hosts, z))
  {
    hide ZoneOf, StrictlySorted, ZonesIndexed, UnresolvedOf, MembersOf, ZoneHosts;
    MembersAreHosts(in_.rule, in_.snap.hosts, z);
    MembersIncreasing(in_.rule, in_.snap.hosts, z);
    IncreasingDistinct(MembersOf(in_.rule, in_.snap.hosts, z));
  }

  lemma ChosenSupers(e: Env, before: map<string, seq<string>>, z: string)
    requires forall y :: y in before ==> Distinct(before[y])
    ensures HostsOf(NextSuperHosts(e, before), z)
         == if e.cfg.superHosts <= 0 then []
            else PickSuper(e.Members(z), e.matched, HostsOf(before, z), e.eligible, e.cfg.superHosts)
  {
    EmptyDistinct<string>();
    PickSuperCount(e.Members(z), e.matched, HostsOf(before, z), e.eligible, e.cfg.superHosts);
    hide PickSuper;
    if z !in e.members { assert Elems(e.Members(z)) * e.eligible == {}; }
  }

  lemma PickedSupers(in_: Input, cur: Option<StateV>, next: StateV, x: Index, z: string)
    requires Distinct(StoredSupers(in_, cur, z)) && Distinct(ZoneHosts(in_.rule, in_.snap.hosts, z))
    requires SupersOn(next, z) == if in_.cfg.superHosts <= 0 then []
             else PickSuper(ZoneHosts(in_.rule, in_.snap.hosts, z), Selected(in_.snap, in_.cfg.superSelector),
                            StoredSupers(in_, cur, z), in_.eligible, in_.cfg.superHosts)
    ensures SupersRight(in_, cur, next, z)
  {
    hide PickSuper, Filtered, ZoneHosts, Selected, Preferred, StoredSupers, MatchedFirst, FrontFirst, Sorted, Distinct;
    var hosts, matched := ZoneHosts(in_.rule, in_.snap.hosts, z), Selected(in_.snap, in_.cfg.superSelector);
    var stored, n := StoredSupers(in_, cur, z), in_.cfg.superHosts;
    var pool := set h | h in hosts && h in in_.eligible;
    assert pool == Elems(hosts) * in_.eligible;
    var preferred := set h | h in hosts && Preferred(in_, h);
    forall h ensures Preferred(in_, h) <==> h in matched { PreferredIs(in_, h); }
    EmptyDistinct<string>();
    PickSuperCount(hosts, matched, stored, in_.eligible, n);
    if n > 0 {
      PickSuperMeaning(hosts, matched, stored, in_.eligible, n);
      SameKinds(hosts, matched, preferred, in_.eligible, Filtered(stored, pool), SupersOn(next, z));
    }
  }

  lemma SameKinds(hosts: seq<string>, matched: set<string>, preferred: set<string>, eligible: set<string>,
                  valid: seq<string>, r: seq<string>)
    requires (forall h :: h in r ==> h in hosts) && forall h :: h in hosts ==> (h in matched <==> h in preferred)
    ensures MatchedFirst(hosts, matched, eligible, valid, r) ==> MatchedFirst(hosts, preferred, eligible, valid, r)
    ensures FrontFirst(hosts, matched, eligible, valid, r) ==> FrontFirst(hosts, preferred, eligible, valid, r)
  {}

  // ---------- where a first run begins ----------

  /** The eligible hosts of a zone in ID order. */
  function ZoneChoices(in_: Input, z: string): seq<string> {
    Filtered(ZoneHosts(in_.rule, in_.snap.hosts, z), in_.eligible)
  }

  /** The seat of an anchor that a run has given the host h; the rank tells whether a super slot
      uses the host. */
  ghost predicate FreshAnchor(seat: Seat, h: string, now: Time, supers: bool) {
    && seat.host == h && seat.at == Some(now)
    && (seat.rank == Unique || (supers && seat.rank == MinUse))
  }

  /** A first run of a pairing between two zones: on each side every anchor holds the host that
      the hash of the pairing key selects among the eligible hosts of the zone. */
  lemma OutcomeAnchors(in_: Input, cur: Option<StateV>, x: Index, want: map<string, Wanted>, next: StateV,
                       added: seq<string>, removed: seq<string>, supers: seq<string>, sides: seq<SideChange>,
                       k: string, i: nat, side: Side)
    requires in_.Valid() && (cur.Some? ==> StateOk(cur.value))
    requires Outcome(in_, cur, x, want, next, added, removed, supers, sides)
    requires k in want && !want[k].intra && StoredPairing(in_, cur, k).None? && i < ComputeLayout(in_.cfg).anchors
    ensures k in next.pairings && i < |next.pairings[k].slots|
    ensures var hosts := ZoneChoices(in_, ZoneOn(next.pairings[k], side));
            var seat := SeatOn(next.pairings[k].slots[i], side);
            if hosts == [] then seat.host == ""
            else FreshAnchor(seat, hosts[in_.hash(k) % |hosts|], in_.now, in_.cfg.superHosts > 0)
  {
    hide Next, NextDelta, Reports, Resolves, EnvOf, Indexes, Input.Valid, StateOk, Env.Valid, Start, Fingerprint,
         StoredPairing, ZoneHosts, Filtered;
    var e := EnvOf(in_, x, want);
    EnvIsValid(in_, x, want);
    EnvFields(in_, x, want);
    hide ComputeLayout, FreshAnchor, ZoneChoices, Choices;
    StoredAre(in_, cur, x, want, k);
    AnchorOfRun(e, cur, k, i, side);
    ChoicesOf(in_, x, want, next.pairings[k], side);
  }

  lemma ChoicesOf(in_: Input, x: Index, want: map<string, Wanted>, p: PairingV, side: Side)
    requires in_.Valid() && Indexes(x, in_.rule, in_.snap.hosts)
    ensures Choices(EnvOf(in_, x, want), p, side) == ZoneChoices(in_, ZoneOn(p, side))
  {
    hide Indexes, Input.Valid, ZoneHosts, Selected;
    ZoneMembers(in_, x, ZoneOn(p, side));
  }

  lemma AnchorOfRun(e: Env, cur: Option<StateV>, k: string, i: nat, side: Side)
    requires e.Valid() && (cur.Some? ==> StateOk(cur.value)) && k in e.want && !e.want[k].intra
    requires Get(Start(e, cur).pairings, k).None? && i < e.Layout().anchors
    ensures k in Next(e, cur).pairings && i < |Next(e, cur).pairings[k].slots|
    ensures var p := Next(e, cur).pairings[k];
            var hosts := Choices(e, p, side);
            if hosts == [] then p.slots[i].Host(side) == ""
            else FreshAnchor(p.slots[i].Seat(side), hosts[e.hash(k) % |hosts|], e.now, e.cfg.superHosts > 0)
  {
    hide Next, StepOne, StateOk, Start, NextSuperHosts, Env.Valid, Supered, FillTable, ComputeLayout, Choices, SeatsOk,
         Consistent;
    var sh := NextSuperHosts(e, Start(e, cur).superHosts);
    NextPairingOk(e, cur, k);
    NextAt(e, cur, k);
    LayoutFits(e);
    CountChange.FirstTable(e, sh, k);
    var s := Supered(e, sh, k, None);
    FirstParts(e, sh, k);
    AnchorsGiven(e, s, i, side);
    SameChoices(e, s, Next(e, cur).pairings[k], side);
  }

  lemma LayoutFits(e: Env)
    ensures e.Layout().anchors <= e.Layout().total
  {}

  lemma SameChoices(e: Env, p: PairingV, q: PairingV, side: Side)
    requires p.zoneA == q.zoneA && p.zoneB == q.zoneB
    ensures Choices(e, p, side) == Choices(e, q, side)
  {}

  lemma FirstParts(e: Env, sh: map<string, seq<string>>, k: string)
    requires k in e.want
    ensures Supered(e, sh, k, None).intra == e.want[k].intra && Supered(e, sh, k, None).key == k
  {
    hide SuperTable, NonSuper, Validate, Resize, ComputeLayout;
  }

  /** Filling the anchors of a blank table. */
  lemma AnchorsGiven(e: Env, p: PairingV, i: nat, side: Side)
    requires e.Valid() && SeatsOk(e, p, p.slots) && Consistent(p, p.slots) && !p.intra
    requires Shaped(p.slots, e.Layout().total) && Classed(p.slots, e.Layout())
    requires CountChange.BlankBase(p.slots, e.Layout().total) && i < e.Layout().anchors <= e.Layout().total
    requires e.cfg.superHosts <= 0 ==> |p.slots| == e.Layout().total
    ensures i < |FillTable(e, p).slots|
    ensures var hosts, seat := Choices(e, p, side), FillTable(e, p).slots[i].Seat(side);
            if hosts == [] then seat.host == ""
            else FreshAnchor(seat, hosts[e.hash(p.key) % |hosts|], e.now, e.cfg.superHosts > 0)
  {
    hide ComputeLayout, AnchorFill, DiverseFill, SeatsOk, Consistent, Env.Valid, Choices, FreshAnchor;
    var fa := AnchorFill(e, p, p.slots, SideA);
    var fb := AnchorFill(e, p, fa.slots, SideB);
    DiverseKeepsAnchors(e, p, fb.slots, 2 * |fb.slots|);
    BlankSide(p.slots, e.Layout().total, SideA, e.cfg.superHosts > 0);
    BlankSide(p.slots, e.Layout().total, SideB, e.cfg.superHosts > 0);
    AnchorSideGiven(e, p, p.slots, i, SideA);
    AnchorSideGiven(e, p, fa.slots, i, SideB);
  }

  /** No anchor holds a host on this side, and without super slots no slot does. */
  ghost predicate FreeSide(slots: seq<Slot>, side: Side, supers: bool) {
    && (forall j :: !Holder(slots, side, j))
    && (!supers ==> forall j :: 0 <= j < |slots| ==> slots[j].Host(side) == "")
  }

  lemma BlankSide(slots: seq<Slot>, total: nat, side: Side, supers: bool)
    requires Shaped(slots, total) && CountChange.BlankBase(slots, total) && (!supers ==> |slots| == total)
    ensures FreeSide(slots, side, supers)
  {}

  /** Filling the anchors of one side that none of them holds. */
  lemma AnchorSideGiven(e: Env, p: PairingV, slots: seq<Slot>, i: nat, side: Side)
    requires e.Valid() && !p.intra && i < |slots| && slots[i].cls == Anchor
    requires FreeSide(slots, side, e.cfg.superHosts > 0)
    ensures var y, hosts := AnchorFill(e, p, slots, side).slots, Choices(e, p, side);
            && |y| == |slots| && y[i].cls == Anchor && y[i].Seat(side.Other()) == slots[i].Seat(side.Other())
            && (FreeSide(slots, side.Other(), e.cfg.superHosts > 0) ==> FreeSide(y, side.Other(), e.cfg.superHosts > 0))
            && if hosts == [] then y[i].Host(side) == ""
               else FreshAnchor(y[i].Seat(side), hosts[e.hash(p.key) % |hosts|], e.now, e.cfg.superHosts > 0)
  {
    hide AnchorSeat, AnchorFill, Choices, Env.Valid, FreshAnchor;
    AnchorFillOnly(e, p, slots, side);
    FreeSeat(e, p, slots, side);
    assert !Holder(slots, side, i) && HostsOn(slots, side)[i] == slots[i].Host(side);
    var y, over := AnchorFill(e, p, slots, side).slots, side.Other();
    if FreeSide(slots, over, e.cfg.superHosts > 0) {
      forall j ensures !Holder(y, over, j) {
        assert !Holder(slots, over, j);
        if 0 <= j < |y| {
          assert HostsOn(y, over)[j] == y[j].Host(over) && HostsOn(slots, over)[j] == slots[j].Host(over);
        }
      }
    }
  }

  /** The seat given to the anchors of a side that none of them holds. */
  lemma FreeSeat(e: Env, p: PairingV, slots: seq<Slot>, side: Side)
    requires e.Valid() && !p.intra && FreeSide(slots, side, e.cfg.superHosts > 0)
    ensures var r, hosts := AnchorSeat(e, p, slots, side), Choices(e, p, side);
            if hosts == [] then r.None?
            else r.Some? && FreshAnchor(r.value.0, hosts[e.hash(p.key) % |hosts|], e.now, e.cfg.superHosts > 0)
  {
    hide AnchorSeat, AnchorPicked, Choices, Env.Valid, Holder, HostsOn;
    AnchorSeatWalk(e, p, slots, side);
    ChoicesNamed(e, p, side);
    var hosts, use := Choices(e, p, side), multiset(HostsOn(slots, side));
    var h, rank :| AnchorPicked(hosts, use, WalkStart(e, p, |hosts|), Across(p, slots, side), h, rank)
      && AnchorSeat(e, p, slots, side) == if h == "" then None else Some((Seat(h, rank, Some(e.now)), NewSlot));
    if hosts == [] {
      NoChoices(use, h, rank);
    } else {
      WalkBegins(hosts, use, e.hash(p.key) % |hosts|, h, rank);
      if e.cfg.superHosts <= 0 { UnusedSide(slots, side, h, false); }
    }
  }

  lemma ChoicesNamed(e: Env, p: PairingV, side: Side)
    requires e.Valid()
    ensures "" !in Choices(e, p, side)
  {
    ChoicesAre(e, p, side);
    CandOk(e, p, side);
  }

  lemma UnusedSide(slots: seq<Slot>, side: Side, h: string, supers: bool)
    requires FreeSide(slots, side, supers) && h != "" && !supers
    ensures multiset(HostsOn(slots, side))[h] == 0
  {
    assert h !in HostsOn(slots, side);
  }

  lemma NoChoices(use: multiset<string>, h: string, rank: Rank)
    requires AnchorPicked([], use, 0, {}, h, rank)
    ensures h == ""
  {}

  /** Nothing is passed over, so the walk stops where it begins. */
  lemma WalkBegins(hosts: seq<string>, use: multiset<string>, start: nat, h: string, rank: Rank)
    requires start < |hosts| && AnchorPicked(hosts, use, start, {}, h, rank)
    ensures h == hosts[start] && rank == if use[h] > 0 then MinUse else Unique
  {
    hide MetAt;
    assert hosts[0] in hosts;
    var d: nat :| StopsAt(hosts, start, d, h, {});
    MetFirst(hosts, start);
  }

  lemma MetFirst(hosts: seq<string>, start: nat)
    requires start < |hosts|
    ensures MetAt(hosts, start, 0, hosts[start]) && forall h :: MetAt(hosts, start, 0, h) ==> h == hosts[start]
  {
    assert (start + 0) % |hosts| == start;
  }

  lemma AnchorFillOnly(e: Env, p: PairingV, slots: seq<Slot>, side: Side)
    ensures var y, r := AnchorFill(e, p, slots, side).slots, AnchorSeat(e, p, slots, side);
            && |y| == |slots|
            && forall i :: 0 <= i < |slots| ==>
                 && y[i].cls == slots[i].cls && y[i].Seat(side.Other()) == slots[i].Seat(side.Other())
                 && y[i].Seat(side) == if r.Some? && slots[i].cls == Anchor && slots[i].Host(side) == "" then
                      r.value.0 else slots[i].Seat(side)
  {
    hide AnchorSeat, AnchorChunks, Flatten;
  }
}
