/** The exact report entries of every base side: why its host was lost, and why and as what it was
    filled (internal/reconcile/reconcile.go:266-321, 422-528, 531-644). */
module SideEntries {
  import opened Base
  import opened Slots
  import opened Tables
  import opened Filling
  import opened Invariants
  import opened Runs
  import opened DeltaFaith
  import opened Zones
  import opened Reconciling
  import opened Outcomes

  // ---------- in terms of the resolved inputs ----------

  /** Why the host a slot of now this class held on one side is taken from it, if it is. */
  function LossOf(e: Env, s: Slot, cls: Class, side: Side, z: string): Option<Reason> {
    if s.Host(side) == "" then None
    else if s.cls != cls then Some(ClassChanged)
    else if s.Host(side) !in e.hosts then Some(HostGone)
    else if s.Host(side) !in e.eligible then Some(HostUnhealthy)
    else if !e.OkHost(s.Host(side), z) then Some(ZoneChanged)
    else None
  }

  /** The seat of this slot outlasts validation. */
  predicate Stays(e: Env, s: Slot, cls: Class, side: Side, z: string) {
    s.Host(side) != "" && LossOf(e, s, cls, side, z).None?
  }

  /** The two entries there can be about one side. */
  function ClearingOf(e: Env, k: string, s: Slot, i: int, cls: Class, side: Side, z: string): seq<SideChange> {
    var r := LossOf(e, s, cls, side, z);
    if r.Some? then [SideChange(k, i, side, cls, s.Host(side), "", r.value, Unfilled)] else []
  }

  function FillingOf(e: Env, k: string, s: Slot, t: Slot, i: int, side: Side, z: string, reason: Reason)
    : seq<SideChange>
  {
    if t.Host(side) == "" || Stays(e, s, t.cls, side, z) then []
    else [SideChange(k, i, side, t.cls, "", t.Host(side), reason, t.Seat(side).rank)]
  }

  // ---------- why a side is filled ----------

  /** An anchor of the table holds a host on this side. */
  ghost predicate HeldAnchor(slots: seq<Slot>, side: Side) {
    exists j :: 0 <= j < |slots| && slots[j].cls == Anchor && slots[j].Host(side) != ""
  }

  lemma {:induction false} HeldAnchorIs(slots: seq<Slot>, side: Side)
    ensures AnchorHost(slots, side) != "" <==> HeldAnchor(slots, side)
  {
    if |slots| > 0 {
      var n := |slots| - 1;
      HeldAnchorIs(slots[..n], side);
      assert forall j :: 0 <= j < n ==> slots[..n][j] == slots[j];
    }
  }

  /** An anchor follows the one that is there, if any; every other filling is a new one. */
  ghost predicate Reasoned(slots: seq<Slot>, log: seq<SideChange>) {
    forall c :: c in log ==> c.reason == if c.cls == Anchor && HeldAnchor(slots, c.side) then AnchorReset else NewSlot
  }

  lemma {:induction false} FlattenHas(chunks: seq<seq<SideChange>>, c: SideChange)
    requires c in Flatten(chunks)
    ensures exists n :: 0 <= n < |chunks| && c in chunks[n]
  {
    if |chunks| > 0 && c !in chunks[|chunks| - 1] { FlattenHas(chunks[..|chunks| - 1], c); }
  }

  lemma AnchorReasoned(e: Env, p: PairingV, slots: seq<Slot>, side: Side)
    ensures Reasoned(slots, AnchorFill(e, p, slots, side).log)
    ensures HeldAnchor(AnchorFill(e, p, slots, side).slots, side.Other()) == HeldAnchor(slots, side.Other())
  {
    HeldAnchorIs(slots, side);
    AnchorReason(e, p, slots, side);
    hide AnchorSeat, Flatten;
    var f := AnchorFill(e, p, slots, side);
    if AnchorSeat(e, p, slots, side).Some? {
      var (seat, reason) := AnchorSeat(e, p, slots, side).value;
      forall c | c in f.log ensures c.reason == reason && c.cls == Anchor && c.side == side {
        FlattenHas(AnchorChunks(p, slots, side, seat, reason), c);
      }
      SameOther(slots, f.slots, side.Other());
    }
  }

  lemma AnchorReason(e: Env, p: PairingV, slots: seq<Slot>, side: Side)
    ensures var r := AnchorSeat(e, p, slots, side);
            r.Some? ==> r.value.1 == if AnchorHost(slots, side) != "" then AnchorReset else NewSlot
  {}

  lemma SameOther(x: seq<Slot>, y: seq<Slot>, side: Side)
    requires |x| == |y| && forall j :: 0 <= j < |x| ==> x[j].cls == y[j].cls && x[j].Host(side) == y[j].Host(side)
    ensures HeldAnchor(x, side) == HeldAnchor(y, side)
  {}

  lemma {:induction false} DiverseReasoned(e: Env, p: PairingV, slots: seq<Slot>, j: nat)
    requires j <= 2 * |slots|
    ensures forall c :: c in DiverseFill(e, p, slots, j).log ==> c.cls == Diverse && c.reason == NewSlot
  {
    hide DiverseSeat;
    if j > 0 {
      DiverseReasoned(e, p, slots, j - 1);
      DiverseOnly(e, p, DiverseFill(e, p, slots, j - 1).slots, DiverseFill(e, p, slots, j - 1).slots[(j - 1) / 2],
                  SideOf(j - 1));
    }
  }

  lemma DiverseOnly(e: Env, p: PairingV, slots: seq<Slot>, s: Slot, side: Side)
    ensures DiverseSeat(e, p, slots, s, side).Some? ==> s.cls == Diverse
  {}

  /** Every entry of the fill pass has the reason the table before it calls for. */
  lemma FillReasoned(e: Env, p: PairingV)
    ensures Reasoned(p.slots, FillTable(e, p).log)
  {
    hide AnchorFill, DiverseFill, HeldAnchor;
    var fa := AnchorFill(e, p, p.slots, SideA);
    var fb := AnchorFill(e, p, fa.slots, SideB);
    AnchorReasoned(e, p, p.slots, SideA);
    AnchorReasoned(e, p, fa.slots, SideB);
    OnSide(e, p, p.slots, SideA);
    OnSide(e, p, fa.slots, SideB);
    DiverseReasoned(e, p, fb.slots, 2 * |fb.slots|);
  }

  lemma OnSide(e: Env, p: PairingV, slots: seq<Slot>, side: Side)
    ensures forall c :: c in AnchorFill(e, p, slots, side).log ==> c.side == side
  {
    hide AnchorSeat, Flatten;
    if AnchorSeat(e, p, slots, side).Some? {
      var (seat, reason) := AnchorSeat(e, p, slots, side).value;
      forall c | c in AnchorFill(e, p, slots, side).log ensures c.side == side {
        FlattenHas(AnchorChunks(p, slots, side, seat, reason), c);
      }
    }
  }

  // ---------- the entries of one side ----------

  /** An anchor of the stored table keeps its host on this side. */
  ghost predicate AnchorStays(e: Env, stored: seq<Slot>, side: Side, z: string) {
    exists j: nat :: j < e.Layout().total && e.Layout().ClassAt(j) == Anchor
                     && Stays(e, BaseAt(stored, j), Anchor, side, z)
  }

  function FillReason(cls: Class, held: bool): Reason { if cls == Anchor && held then AnchorReset else NewSlot }

  lemma HeldMeans(e: Env, sh: map<string, seq<string>>, k: string, cur: Option<PairingV>, side: Side)
    requires e.Valid() && k in e.want && StoredOk(e, k, cur)
    ensures var s := Supered(e, sh, k, cur);
            HeldAnchor(s.slots, side) <==> AnchorStays(e, StoredSlots(cur), side, s.Zone(side))
  {
    hide StepOne, Diffed, Validated, Supered, ComputeLayout, Established, SlotGrown, Env.Valid;
    var s, l := Supered(e, sh, k, cur), e.Layout();
    StoredIsCur(e, k, cur);
    SuperedReady(e, sh, k, cur);
    forall j: nat | j < l.total
      ensures s.slots[j].cls == l.ClassAt(j)
              && (s.slots[j].Host(side) != "" <==>
                   Stays(e, BaseAt(StoredSlots(cur), j), l.ClassAt(j), side, s.Zone(side)))
    {
      SlotJourney(e, sh, k, cur, j);
      StaysIs(e, BaseAt(StoredSlots(cur), j), Diffed(e, k, cur), j, l.ClassAt(j), side);
    }
    hide Stays, LossOf;
    if HeldAnchor(s.slots, side) {
      var j :| 0 <= j < |s.slots| && s.slots[j].cls == Anchor && s.slots[j].Host(side) != "";
      assert j < l.total;
    }
  }

  lemma StaysIs(e: Env, x: Slot, d: PairingV, i: int, cls: Class, side: Side)
    ensures CheckSlot(e, d, Reclass(x, i, cls)).Host(side) != "" <==> Stays(e, x, cls, side, d.Zone(side))
    ensures CheckSlot(e, d, Reclass(x, i, cls)).cls == cls
  {}

  lemma ClearsAre(e: Env, x: Slot, d: PairingV, i: int, cls: Class, side: Side)
    ensures var ds := Reclass(x, i, cls);
            (if x.cls == cls then [] else Cleared(d.key, i, side, cls, x.Host(side), ClassChanged))
            + CheckEntry(e, d, ds, side)
            == ClearingOf(e, d.key, x, i, cls, side, d.Zone(side))
  {}

  /** These entries about one side, and no others: the slot was s and is t. */
  ghost predicate EntriesAre(bag: multiset<SideChange>, e: Env, k: string, s: Slot, t: Slot, i: int, side: Side,
                             z: string,
                             held: bool)
  {
    var all := ClearingOf(e, k, s, i, t.cls, side, z) + FillingOf(e, k, s, t, i, side, z, FillReason(t.cls, held));
    forall c :: Mine(c, i, side) ==> bag[c] == multiset(all)[c]
  }

  lemma FillLogReasoned(e: Env, p: PairingV)
    ensures Reasoned(p.slots, FillLog(e, p))
  {
    FillReasoned(e, p);
    hide FillTable;
  }

  lemma GrownClass(e: Env, p: PairingV, s: Slot, t: Slot)
    requires SlotGrown(e, p, s, t)
    ensures t.cls == s.cls
  {}

  /** The entry of the fill pass for one side: none, or the one for the new host. */
  lemma FillMine(e: Env, x: Slot, p: PairingV, s: Slot, t: Slot, log: seq<SideChange>, i: int, side: Side, z: string)
    requires FillExplained(p, s, t, log, i, side) && Reasoned(p.slots, log) && s.cls == t.cls
    requires s.Host(side) != "" <==> Stays(e, x, t.cls, side, z)
    ensures At(log, i, side)
         == FillingOf(e, p.key, x, t, i, side, z, FillReason(t.cls, HeldAnchor(p.slots, side)))
  {
    hide At, Stays, HeldAnchor;
    var mine := At(log, i, side);
    if t.Seat(side) != s.Seat(side) {
      AtCount(log, i, side, mine[0]);
      assert mine[0] in multiset(mine);
      assert mine == [mine[0]];
    }
  }

  /** The entries of the three base passes for one side; those of the super pass are elsewhere. */
  lemma BagMine(x: seq<SideChange>, y: seq<SideChange>, w: seq<SideChange>, more: multiset<SideChange>, i: int,
                side: Side)
    requires forall c :: c in more ==> c.slot > i
    ensures forall c :: Mine(c, i, side) ==>
              (multiset(x + y + w) + more)[c] == multiset(At(x, i, side) + At(y, i, side) + At(w, i, side))[c]
  {
    AtConcat(x, y, i, side);
    AtConcat(x + y, w, i, side);
    hide At;
    forall c | Mine(c, i, side)
      ensures (multiset(x + y + w) + more)[c] == multiset(At(x, i, side) + At(y, i, side) + At(w, i, side))[c]
    {
      AtCount(x + y + w, i, side, c);
    }
  }

  /** The entries about one base side of a wanted pairing, exactly. */
  lemma EntriesExact(e: Env, sh: map<string, seq<string>>, k: string, cur: Option<PairingV>, i: nat, side: Side)
    requires e.Valid() && k in e.want && StoredOk(e, k, cur) && i < e.Layout().total
    ensures var x, r := BaseAt(StoredSlots(cur), i), StepOne(e, sh, k, cur);
            && r.Some? && i < |r.value.slots|
            && EntriesAre(StepLog(e, sh, k, cur), e, k, x, r.value.slots[i], i, side, r.value.Zone(side),
                          AnchorStays(e, StoredSlots(cur), side, r.value.Zone(side)))
  {
    hide StepOne, StepLog, Diffed, Validated, Supered, ComputeLayout, Established, Env.Valid, DiffLog, ValidateLog,
         FillLog, SuperOneLog, At, AnchorStays, HeldAnchor, EntriesAre, StoredOk, SlotGrown, CheckSlot, Reclass,
         Cleared, CheckEntry, FillExplained, Stays, ClearingOf, FillingOf, Reasoned;
    StoredIsCur(e, k, cur);
    SlotJourney(e, sh, k, cur, i);
    ThreeParts(e, sh, k, cur, i, side);
    LogParts(e, sh, k, cur);
    SuperLogAbove(e, sh, k, cur);
    HeldMeans(e, sh, k, cur, side);
    var x, l := BaseAt(StoredSlots(cur), i), e.Layout();
    var d, s, r := Diffed(e, k, cur), Supered(e, sh, k, cur), StepOne(e, sh, k, cur).value;
    ClearsAre(e, x, d, i, l.ClassAt(i), side);
    StaysIs(e, x, d, i, l.ClassAt(i), side);
    GrownClass(e, s, s.slots[i], r.slots[i]);
    FillLogReasoned(e, s);
    FillMine(e, x, s, s.slots[i], r.slots[i], FillLog(e, s), i, side, s.Zone(side));
    BagMine(DiffLog(e, k, cur), ValidateLog(e, d), FillLog(e, s), SuperOneLog(e, sh, Validated(e, k, cur)), i, side);
    BagIs(StepLog(e, sh, k, cur), e, k, x, r.slots[i], i, side, s.Zone(side), HeldAnchor(s.slots, side));
  }

  lemma BagIs(bag: multiset<SideChange>, e: Env, k: string, s: Slot, t: Slot, i: int, side: Side, z: string, held: bool)
    requires var all := ClearingOf(e, k, s, i, t.cls, side, z)
                        + FillingOf(e, k, s, t, i, side, z, FillReason(t.cls, held));
             forall c :: Mine(c, i, side) ==> bag[c] == multiset(all)[c]
    ensures EntriesAre(bag, e, k, s, t, i, side, z, held)
  {}

  // ---------- in terms of the inputs ----------

  /** The slot the run finds at i, an empty one without a class when nothing is stored. */
  function StoredSlot(in_: Input, cur: Option<StateV>, k: string, i: nat): Slot {
    var p := StoredPairing(in_, cur, k);
    if p.Some? && i < |p.value.slots| then p.value.slots[i]
    else Slot(i, Unset, Seat("", Unfilled, None), Seat("", Unfilled, None), "")
  }

  /** Why the host of a stored slot of now this class is taken from it, if it is: the slot has
      another class, the host is not in the snapshot, it is not eligible, or it is in another
      zone, in this order. */
  ghost function LostFor(in_: Input, s: Slot, cls: Class, side: Side, z: string): Option<Reason> {
    var h := SeatOn(s, side).host;
    if h == "" then None
    else if s.cls != cls then Some(ClassChanged)
    else if !exists r :: r in in_.snap.hosts && r.id == h then Some(HostGone)
    else if h !in in_.eligible then Some(HostUnhealthy)
    else if !Located(in_, h, z) then Some(ZoneChanged)
    else None
  }

  /** Anchor j of the pairing holds the host it was stored with. */
  ghost predicate AnchorKeeps(in_: Input, cur: Option<StateV>, next: StateV, k: string, j: nat, side: Side) {
    && ActiveBase(next, k, j) && next.pairings[k].slots[j].cls == Anchor
    && SeatOn(StoredSlot(in_, cur, k, j), side).host != ""
    && LostFor(in_, StoredSlot(in_, cur, k, j), Anchor, side, ZoneOn(next.pairings[k], side)).None?
  }

  /** The report says why the host of this side was taken away. */
  ghost predicate SaysLost(in_: Input, cur: Option<StateV>, next: StateV, k: string, i: nat, side: Side, c: SideChange)
    requires ActiveBase(next, k, i)
  {
    var s, t := StoredSlot(in_, cur, k, i), next.pairings[k].slots[i];
    var r := LostFor(in_, s, t.cls, side, ZoneOn(next.pairings[k], side));
    r.Some? && c == SideChange(k, i, side, t.cls, SeatOn(s, side).host, "", r.value, Unfilled)
  }

  /** The report says which host fills this side, of what class and rank, and whether it follows
      an anchor that kept its host. */
  ghost predicate SaysFilled(in_: Input, cur: Option<StateV>, next: StateV, k: string, i: nat, side: Side,
                             c: SideChange)
    requires ActiveBase(next, k, i)
  {
    var s, t := StoredSlot(in_, cur, k, i), next.pairings[k].slots[i];
    && SeatOn(t, side).host != ""
    && (SeatOn(s, side).host == "" || LostFor(in_, s, t.cls, side, ZoneOn(next.pairings[k], side)).Some?)
    && c == SideChange(k, i, side, t.cls, "", SeatOn(t, side).host,
                       if t.cls == Anchor && exists j :: AnchorKeeps(in_, cur, next, k, j, side) then AnchorReset
                                                                                                 else NewSlot,
                       SeatOn(t, side).rank)
  }

  /** What the report says about one base side: that its host was lost, that it was filled, each
      once, and nothing else. */
  ghost predicate SideReported(in_: Input, cur: Option<StateV>, next: StateV, sides: seq<SideChange>, k: string, i: nat,
                               side: Side)
    requires ActiveBase(next, k, i)
  {
    forall c: SideChange :: c.pairing == k && c.slot == i && c.side == side ==>
      multiset(sides)[c] == Times(SaysLost(in_, cur, next, k, i, side, c))
        + Times(SaysFilled(in_, cur, next, k, i, side, c))
  }

  function Times(b: bool): nat { if b then 1 else 0 }

  /** The report holds these entries for one pairing. */
  ghost predicate LogIs(sides: seq<SideChange>, k: string, bag: multiset<SideChange>) {
    forall c: SideChange :: c.pairing == k ==> multiset(sides)[c] == bag[c]
  }

  lemma ReportedLog(in_: Input, cur: Option<StateV>, x: Index, want: map<string, Wanted>, next: StateV,
                    added: seq<string>, removed: seq<string>, supers: seq<string>, sides: seq<SideChange>, k: string)
    requires cur.Some? ==> StateOk(cur.value)
    requires Outcome(in_, cur, x, want, next, added, removed, supers, sides)
    ensures var e := EnvOf(in_, x, want);
            var st := Start(e, cur);
            LogIs(sides, k, if k in st.pairings || k in want
                            then StepLog(e, NextSuperHosts(e, st.superHosts), k, Get(st.pairings, k)) else multiset{})
  {
    hide Next, StepLog, NextSuperHosts, Start, Indexes, Resolves, StateOk, EnvOf, NextDelta;
    EnvFields(in_, x, want);
    var e := EnvOf(in_, x, want);
    if k in Start(e, cur).pairings || k in want { NextLogAt(e, cur, k); }
    DeltaDomain(e, cur);
  }

  lemma DeltaDomain(e: Env, cur: Option<StateV>)
    ensures NextDelta(e, cur).sides.Keys == Start(e, cur).pairings.Keys + e.want.Keys
  {
    hide StepLog, NextSuperHosts, Start, SuperZonesChanged, DiffOne;
  }

  /** Why a host is lost, by the resolved inputs and by the inputs. */
  lemma LossMeans(in_: Input, x: Index, want: map<string, Wanted>, s: Slot, cls: Class, side: Side, z: string)
    requires in_.Valid() && Indexes(x, in_.rule, in_.snap.hosts)
    ensures LossOf(EnvOf(in_, x, want), s, cls, side, z) == LostFor(in_, s, cls, side, z)
  {
    hide Indexes, Input.Valid, EnvOf, Located, Env.OkHost;
    EnvFields(in_, x, want);
    OkHostMeans(in_, x, want, s.Host(side), z);
  }

  lemma StoredSlotIs(in_: Input, cur: Option<StateV>, k: string, i: nat)
    ensures BaseAt(StoredSlots(StoredPairing(in_, cur, k)), i) == StoredSlot(in_, cur, k, i)
  {
    hide StoredPairing;
  }

  /** Which slots of a table with this layout are base slots. */
  lemma BaseSlots(e: Env, k: string, next: StateV, i: nat)
    requires k in next.pairings && next.pairings[k].removeAt.None? && Established(e, k, next.pairings[k])
    ensures ActiveBase(next, k, i) <==> i < e.Layout().total
    ensures ActiveBase(next, k, i) ==> next.pairings[k].slots[i].cls == e.Layout().ClassAt(i)
  {
    hide Settled, Consistent, SeatsOk, ComputeLayout;
  }

  lemma AnchorsMean(in_: Input, cur: Option<StateV>, x: Index, want: map<string, Wanted>, next: StateV, k: string,
                    side: Side)
    requires in_.Valid() && Indexes(x, in_.rule, in_.snap.hosts)
    requires k in next.pairings && next.pairings[k].removeAt.None?
    requires Established(EnvOf(in_, x, want), k, next.pairings[k])
    ensures (exists j :: AnchorKeeps(in_, cur, next, k, j, side)) ==
              AnchorStays(EnvOf(in_, x, want), StoredSlots(StoredPairing(in_, cur, k)), side,
                          ZoneOn(next.pairings[k], side))
  {
    hide Indexes, Input.Valid, EnvOf, LostFor, LossOf, Established, ActiveBase, StoredSlot, StoredPairing, BaseAt,
         ComputeLayout;
    var e, z := EnvOf(in_, x, want), ZoneOn(next.pairings[k], side);
    forall j: nat
      ensures j < e.Layout().total && e.Layout().ClassAt(j) == Anchor
              && Stays(e, BaseAt(StoredSlots(StoredPairing(in_, cur, k)), j), Anchor, side, z)
              <==> AnchorKeeps(in_, cur, next, k, j, side)
    {
      BaseSlots(e, k, next, j);
      StoredSlotIs(in_, cur, k, j);
      LossMeans(in_, x, want, StoredSlot(in_, cur, k, j), Anchor, side, z);
    }
  }

  lemma OutcomeEntry(in_: Input, cur: Option<StateV>, x: Index, want: map<string, Wanted>, next: StateV,
                     added: seq<string>, removed: seq<string>, supers: seq<string>, sides: seq<SideChange>, k: string,
                     i: nat, side: Side)
    requires in_.Valid() && (cur.Some? ==> StateOk(cur.value))
    requires Outcome(in_, cur, x, want, next, added, removed, supers, sides) && ActiveBase(next, k, i)
    ensures SideReported(in_, cur, next, sides, k, i, side)
  {
    hide Next, NextDelta, Indexes, Resolves, Reports, Input.Valid, StateOk, EnvOf, Env.Valid, Start, StepOne, StepLog,
         Established, LostFor, LossOf, StoredSlot, StoredPairing, AnchorStays, AnchorKeeps, LogIs, EntriesAre,
         NextSuperHosts, SideReported, BaseAt, StoredOk, ComputeLayout;
    var e := EnvOf(in_, x, want);
    var p := next.pairings[k];
    EnvIsValid(in_, x, want);
    EnvFields(in_, x, want);
    StoredAre(in_, cur, x, want, k);
    StartOk(e, cur);
    ActiveIsWanted(e, cur, k);
    NextPairingOk(e, cur, k);
    NextAt(e, cur, k);
    BaseSlots(e, k, next, i);
    EntriesExact(e, NextSuperHosts(e, Start(e, cur).superHosts), k, StoredPairing(in_, cur, k), i, side);
    ReportedLog(in_, cur, x, want, next, added, removed, supers, sides, k);
    StoredSlotIs(in_, cur, k, i);
    LossMeans(in_, x, want, StoredSlot(in_, cur, k, i), p.slots[i].cls, side, ZoneOn(p, side));
    AnchorsMean(in_, cur, x, want, next, k, side);
    var log := StepLog(e, NextSuperHosts(e, Start(e, cur).superHosts), k, StoredPairing(in_, cur, k));
    SaidSo(in_, cur, next, sides, k, i, side, e, log, StoredSlot(in_, cur, k, i), p.slots[i], ZoneOn(p, side));
  }

  lemma SaidSo(in_: Input, cur: Option<StateV>, next: StateV, sides: seq<SideChange>, k: string, i: nat, side: Side,
               e: Env, log: multiset<SideChange>, s: Slot, t: Slot, z: string)
    requires ActiveBase(next, k, i) && LogIs(sides, k, log)
    requires s == StoredSlot(in_, cur, k, i) && t == next.pairings[k].slots[i] && z == ZoneOn(next.pairings[k], side)
    requires EntriesAre(log, e, k, s, t, i, side, z, exists j :: AnchorKeeps(in_, cur, next, k, j, side))
    requires LossOf(e, s, t.cls, side, z) == LostFor(in_, s, t.cls, side, z)
    ensures SideReported(in_, cur, next, sides, k, i, side)
  {
    hide LossOf, LostFor, StoredSlot, AnchorKeeps, EntriesAre;
    EntriesCount(log, e, k, s, t, i, side, z, exists j :: AnchorKeeps(in_, cur, next, k, j, side));
  }

  predicate IsClearing(e: Env, k: string, s: Slot, i: int, cls: Class, side: Side, z: string, c: SideChange) {
    var r := LossOf(e, s, cls, side, z);
    r.Some? && c == SideChange(k, i, side, cls, s.Host(side), "", r.value, Unfilled)
  }

  predicate IsFilling(e: Env, k: string, s: Slot, t: Slot, i: int, side: Side, z: string, held: bool, c: SideChange) {
    && t.Host(side) != "" && (s.Host(side) == "" || LossOf(e, s, t.cls, side, z).Some?)
    && c == SideChange(k, i, side, t.cls, "", t.Host(side), FillReason(t.cls, held), t.Seat(side).rank)
  }

  lemma EntriesCount(log: multiset<SideChange>, e: Env, k: string, s: Slot, t: Slot, i: int, side: Side, z: string,
                     held: bool)
    requires EntriesAre(log, e, k, s, t, i, side, z, held)
    ensures forall c :: Mine(c, i, side) ==> log[c] == Times(IsClearing(e, k, s, i, t.cls, side, z, c))
                                                        + Times(IsFilling(e, k, s, t, i, side, z, held, c))
  {
    hide LossOf;
    TwoCount(ClearingOf(e, k, s, i, t.cls, side, z), FillingOf(e, k, s, t, i, side, z, FillReason(t.cls, held)));
  }

  lemma TwoCount(x: seq<SideChange>, y: seq<SideChange>)
    requires |x| <= 1 && |y| <= 1
    ensures forall c :: multiset(x + y)[c] == Times(|x| == 1 && c == x[0]) + Times(|y| == 1 && c == y[0])
  {
    AtMostOne(x);
    AtMostOne(y);
    assert multiset(x + y) == multiset(x) + multiset(y);
  }

  /** The report of a reconcile, side by side: for every base side of every active pairing exactly
      the entries that the stored table, the inputs and the new table call for. */
  lemma OutcomeReport(in_: Input, cur: Option<StateV>, x: Index, want: map<string, Wanted>, next: StateV,
                      added: seq<string>, removed: seq<string>, supers: seq<string>, sides: seq<SideChange>)
    requires in_.Valid() && (cur.Some? ==> StateOk(cur.value))
    requires Outcome(in_, cur, x, want, next, added, removed, supers, sides)
    ensures forall k, i: nat, side :: ActiveBase(next, k, i) ==> SideReported(in_, cur, next, sides, k, i, side)
  {
    hide Outcome, SideReported, ActiveBase, Input.Valid, StateOk;
    forall k, i: nat, side | ActiveBase(next, k, i) ensures SideReported(in_, cur, next, sides, k, i, side) {
      OutcomeEntry(in_, cur, x, want, next, added, removed, supers, sides, k, i, side);
    }
  }

  // ---------- the rest of the report ----------

  /** The stored state is the one the run goes on from. */
  predicate GoesOn(in_: Input, cur: Option<StateV>) {
    cur.Some? && cur.value.zoneRule == in_.rule.fp && cur.value.slotsConfig == Some(Fingerprint(in_.cfg))
  }

  /** A zone is reported when its super hosts changed, or its entry went. */
  predicate SupersChanged(in_: Input, cur: Option<StateV>, next: StateV, z: string) {
    || StoredSupers(in_, cur, z) != SupersOn(next, z)
    || (GoesOn(in_, cur) && z in cur.value.superHosts && z !in next.superHosts)
  }

  /** The order of the report: by pairing, then by slot, then side A before side B. */
  predicate ComesBefore(x: SideChange, y: SideChange) {
    || StrLt(x.pairing, y.pairing)
    || (x.pairing == y.pairing && x.slot < y.slot)
    || (x.pairing == y.pairing && x.slot == y.slot && x.side == SideA && y.side == SideB)
  }

  /** Which zones have an entry after a run: with super testing on, those of hosts that have a super
      host now or had an entry before. */
  predicate HasEntry(in_: Input, cur: Option<StateV>, x: Index, next: StateV, z: string) {
    && in_.cfg.superHosts > 0 && z in x.members
    && ((GoesOn(in_, cur) && z in cur.value.superHosts) || SupersOn(next, z) != [])
  }

  lemma EntryIs(e: Env, cur: Option<StateV>, z: string)
    ensures var x, y := Start(e, cur).superHosts, Next(e, cur).superHosts;
            z in y <==> e.cfg.superHosts > 0 && z in e.members && (z in x || (z in y && y[z] != []))
  {
    hide StepOne, Start, Chosen;
    NextSupers(e, cur);
  }

  lemma SupersListed(e: Env, cur: Option<StateV>, z: string)
    ensures var x, y := Start(e, cur).superHosts, Next(e, cur).superHosts;
            z in NextDelta(e, cur).supers <==> HostsOf(x, z) != HostsOf(y, z) || (z in x && z !in y)
  {
    hide StepOne, StepLog, Start, DiffOne, Chosen;
    NextSupers(e, cur);
  }

  /** The lists of the report: the pairings that came, those that went and the zones whose super
      hosts changed, each in strict order; and every side change belongs to an active pairing. */
  lemma OutcomeLists(in_: Input, cur: Option<StateV>, x: Index, want: map<string, Wanted>, next: StateV,
                     added: seq<string>, removed: seq<string>, supers: seq<string>, sides: seq<SideChange>)
    requires in_.Valid() && (cur.Some? ==> StateOk(cur.value))
    requires Outcome(in_, cur, x, want, next, added, removed, supers, sides)
    ensures Increasing(added) && Increasing(removed) && Increasing(supers)
    ensures forall k :: k in added <==> k in next.pairings && StoredPairing(in_, cur, k).None?
    ensures forall k :: k in removed <==> k !in next.pairings && StoredPairing(in_, cur, k).Some?
    ensures forall z :: z in supers <==> SupersChanged(in_, cur, next, z)
    ensures forall z :: z in next.superHosts <==> HasEntry(in_, cur, x, next, z)
    ensures forall i, j :: 0 <= i < j < |sides| ==> !ComesBefore(sides[j], sides[i])
    ensures forall c :: c in sides ==> c.pairing in next.pairings && next.pairings[c.pairing].removeAt.None?
  {
    hide Next, NextDelta, EnvOf, Indexes, Resolves, Input.Valid, StateOk, Env.Valid, Start, Fingerprint, StoredPairing,
         StoredSupers, StepOne, StepLog, NextSuperHosts, StoredOk, Established, LogIs;
    var e := EnvOf(in_, x, want);
    EnvIsValid(in_, x, want);
    EnvFields(in_, x, want);
    StartOk(e, cur);
    DeltaKeys(e, cur);
    forall k ensures Get(Start(e, cur).pairings, k) == StoredPairing(in_, cur, k) { StoredAre(in_, cur, x, want, k); }
    forall i, j | 0 <= i < j < |sides| ensures !ComesBefore(sides[j], sides[i]) { InOrder(sides[i], sides[j]); }
    forall z
      ensures z in supers <==> SupersChanged(in_, cur, next, z)
      ensures z in next.superHosts <==> HasEntry(in_, cur, x, next, z)
    {
      EntryIs(e, cur, z);
      SupersListed(e, cur, z);
      StoredSupersAre(in_, cur, x, want, z);
      StoredEntry(in_, cur, x, want, z);
    }
    forall c | c in sides ensures c.pairing in next.pairings && next.pairings[c.pairing].removeAt.None? {
      var k := c.pairing;
      ReportedLog(in_, cur, x, want, next, added, removed, supers, sides, k);
      NextPairingOk(e, cur, k);
      Silent(e, cur, k, sides, c);
      EstablishedActive(e, k, next.pairings[k]);
    }
  }

  lemma InOrder(x: SideChange, y: SideChange)
    requires SideLe(x, y)
    ensures !ComesBefore(y, x)
  {
    StrLtIrreflexive(x.pairing);
    if StrLt(x.pairing, y.pairing) && StrLt(y.pairing, x.pairing) { StrLtTransitive(x.pairing, y.pairing, x.pairing); }
  }

  lemma StoredEntry(in_: Input, cur: Option<StateV>, x: Index, want: map<string, Wanted>, z: string)
    ensures z in Start(EnvOf(in_, x, want), cur).superHosts <==> GoesOn(in_, cur) && z in cur.value.superHosts
  {
    hide Fingerprint, Selected;
  }

  /** Nothing is reported about a pairing that is not wanted. */
  lemma Silent(e: Env, cur: Option<StateV>, k: string, sides: seq<SideChange>, c: SideChange)
    requires e.Valid() && (cur.Some? ==> StateOk(cur.value)) && c in sides && c.pairing == k
    requires var st := Start(e, cur);
             LogIs(sides, k, if k in st.pairings || k in e.want
                             then StepLog(e, NextSuperHosts(e, st.superHosts), k, Get(st.pairings, k)) else multiset{})
    ensures k in e.want
  {
    hide StepOne, StepLog, NextSuperHosts, StateOk, Start, StoredOk;
    StartOk(e, cur);
    var st := Start(e, cur);
    assert multiset(sides)[c] > 0;
    if k !in e.want && k in st.pairings {
      assert StoredOk(e, k, Get(st.pairings, k));
      StaleStep(e, NextSuperHosts(e, st.superHosts), k, st.pairings[k]);
    }
  }
}
