/** The whole fill of one table: which host every side is given, in which order
    (internal/reconcile/reconcile.go:422-528). */
module FillOrder {
  import opened Base
  import opened Slots
  import opened Tables
  import opened Filling
  import opened Invariants
  import opened Runs
  import opened Zones
  import opened Reconciling
  import opened Outcomes
  import SideEntries

  // ---------- the diverse slots, one side at a time ----------

  /** The table when the turn of this side of slot i has come: the slots before it are final, its
      side A is when side B is next, and the rest are as the anchors left them. */
  function Midway(x: seq<Slot>, y: seq<Slot>, i: nat, side: Side): (turn: seq<Slot>)
    requires i < |x| == |y|
    ensures |turn| == |x|
  {
    y[..i] + [if side == SideA then x[i] else x[i].(a := y[i].a)] + x[i + 1..]
  }

  /** One step changes the seat of its own turn and nothing else. */
  lemma StepAlone(e: Env, p: PairingV, f: Fill, j: nat)
    requires j / 2 < |f.slots|
    ensures var g, i := DiverseStep(e, p, f, j).slots, j / 2;
            && (forall m :: 0 <= m < |g| && m != i ==> g[m] == f.slots[m])
            && g[i] == if j % 2 == 0 then f.slots[i].(a := g[i].a) else f.slots[i].(b := g[i].b)
  {
    hide DiverseSeat;
  }

  /** Going back from the end, every step left the later slots alone. */
  lemma {:induction false} FillSteps(e: Env, p: PairingV, x: seq<Slot>, j: nat)
    requires j <= 2 * |x|
    ensures var y := DiverseFill(e, p, x, j).slots;
            && (forall m :: 0 <= m < |x| && m > j / 2 ==> y[m] == x[m])
            && (j / 2 < |x| ==> y[j / 2] == if j % 2 == 0 then x[j / 2] else x[j / 2].(a := y[j / 2].a))
  {
    hide DiverseStep;
    if j > 0 {
      FillSteps(e, p, x, j - 1);
      StepAlone(e, p, DiverseFill(e, p, x, j - 1), j - 1);
    }
  }

  lemma {:induction false} FillEnds(e: Env, p: PairingV, x: seq<Slot>, j: nat, n: nat)
    requires j <= n <= 2 * |x|
    ensures var y, z := DiverseFill(e, p, x, j).slots, DiverseFill(e, p, x, n).slots;
            && (forall m :: 0 <= m < |x| && m < j / 2 ==> y[m] == z[m])
            && (j % 2 == 1 ==> y[j / 2].a == z[j / 2].a)
    decreases n
  {
    hide DiverseStep;
    if j < n {
      FillEnds(e, p, x, j, n - 1);
      StepAlone(e, p, DiverseFill(e, p, x, n - 1), n - 1);
    }
  }

  /** The table when every diverse side has had its turn. */
  function Filled(e: Env, p: PairingV, x: seq<Slot>): (y: seq<Slot>)
    ensures |y| == |x|
  {
    DiverseFill(e, p, x, 2 * |x|).slots
  }

  function TurnOf(i: nat, side: Side): nat { 2 * i + if side == SideA then 0 else 1 }

  lemma FillMidway(e: Env, p: PairingV, x: seq<Slot>, i: nat, side: Side)
    requires i < |x|
    ensures var j := TurnOf(i, side);
            j / 2 == i && SideOf(j) == side && DiverseFill(e, p, x, j).slots == Midway(x, Filled(e, p, x), i, side)
  {
    var j := TurnOf(i, side);
    FillSteps(e, p, x, j);
    FillEnds(e, p, x, j, 2 * |x|);
    hide DiverseFill;
  }

  /** This side of a diverse slot is as it was when it held a host; otherwise it has the pick of
      the walk against the table of its turn, or nothing. */
  ghost predicate DiverseGiven(e: Env, p: PairingV, x: seq<Slot>, y: seq<Slot>, i: nat, side: Side)
    requires i < |x| == |y|
  {
    var s, t := x[i], y[i];
    var was, is_ := if side == SideA then s.a else s.b, if side == SideA then t.a else t.b;
    var turn := Midway(x, y, i, side);
    if was.host != "" then is_ == was
    else exists h, rank ::
      DivPicked(e, p, turn, turn[i], side, h, rank) && is_ == if h == "" then was else Seat(h, rank, Some(e.now))
  }

  /** The seat of this side at the end is what the step of its turn made of it. */
  lemma TurnDecides(e: Env, p: PairingV, x: seq<Slot>, i: nat, side: Side, turn: seq<Slot>)
    requires i < |x| && turn == Midway(x, Filled(e, p, x), i, side)
    ensures var r := DiverseSeat(e, p, turn, turn[i], side);
            Filled(e, p, x)[i].Seat(side) == if r.Some? then r.value else turn[i].Seat(side)
  {
    FillMidway(e, p, x, i, side);
    LastTurn(e, p, x, i, side);
    OwnStep(e, p, DiverseFill(e, p, x, TurnOf(i, side)), TurnOf(i, side));
    hide DiverseFill, DiverseStep, DiverseSeat, Midway, TurnOf, Filled;
  }

  lemma LastTurn(e: Env, p: PairingV, x: seq<Slot>, i: nat, side: Side)
    requires i < |x|
    ensures var j := TurnOf(i, side);
            Filled(e, p, x)[i].Seat(side) == DiverseStep(e, p, DiverseFill(e, p, x, j), j).slots[i].Seat(side)
  {
    var j := TurnOf(i, side);
    NextStep(e, p, x, j);
    FillEnds(e, p, x, j + 1, 2 * |x|);
    hide DiverseStep, DiverseFill;
    var y := DiverseFill(e, p, x, j + 1).slots;
    if side == SideA {
      assert (j + 1) / 2 == i && (j + 1) % 2 == 1;
      assert y[i].a == Filled(e, p, x)[i].a;
    } else {
      assert i < (j + 1) / 2;
      assert y[i] == Filled(e, p, x)[i];
    }
  }

  lemma NextStep(e: Env, p: PairingV, x: seq<Slot>, j: nat)
    requires j < 2 * |x|
    ensures DiverseFill(e, p, x, j + 1) == DiverseStep(e, p, DiverseFill(e, p, x, j), j)
  {
    hide DiverseStep;
  }

  lemma OwnStep(e: Env, p: PairingV, f: Fill, j: nat)
    requires j / 2 < |f.slots|
    ensures var r, i := DiverseSeat(e, p, f.slots, f.slots[j / 2], SideOf(j)), j / 2;
            DiverseStep(e, p, f, j).slots[i].Seat(SideOf(j)) == if r.Some? then r.value else f.slots[i].Seat(SideOf(j))
  {
    hide DiverseSeat;
  }

  lemma DiverseFillMeaning(e: Env, p: PairingV, x: seq<Slot>, i: nat, side: Side)
    requires e.Valid() && i < |x| && x[i].cls == Diverse
    ensures DiverseGiven(e, p, x, Filled(e, p, x), i, side)
  {
    var turn := Midway(x, Filled(e, p, x), i, side);
    TurnDecides(e, p, x, i, side, turn);
    DiverseSeatWalk(e, p, turn, turn[i], side);
    hide Filled, DiverseSeat, Env.Valid, DivPicked;
  }

  // ---------- the anchors of one side, all at once ----------

  /** The open anchors of this side all have the seat of the first anchor that holds a host, or
      else the pick of the walk against this table, or nothing. */
  ghost predicate AnchorsGiven(e: Env, p: PairingV, x: seq<Slot>, y: seq<Slot>, side: Side)
    requires |x| == |y|
  {
    exists r: Option<Seat> :: AnchorChoice(e, p, x, side, r) && Shared(x, y, side, r)
  }

  /** Every open anchor of the side has the gift, and every other one what it had. */
  ghost predicate Shared(x: seq<Slot>, y: seq<Slot>, side: Side, r: Option<Seat>)
    requires |x| == |y|
  {
    forall i :: 0 <= i < |x| && x[i].cls == Anchor ==>
      SeatOn(y[i], side) == if SeatOn(x[i], side).host == "" && r.Some? then r.value else SeatOn(x[i], side)
  }

  /** What the open anchors of a side are given, of these hosts: the host the first holding anchor
      has, or else the pick of the walk from this start. */
  ghost predicate AnchorPick(hosts: seq<string>, start: nat, over: set<string>, x: seq<Slot>, side: Side, now: Time,
                             r: Option<Seat>)
  {
    if exists i :: Holder(x, side, i) then
      exists i :: FirstHolder(x, side, i) && r == Some(Seat(HostsOn(x, side)[i], MinUse, Some(now)))
    else exists h, rank ::
      && AnchorPicked(hosts, multiset(HostsOn(x, side)), start, over, h, rank)
      && r == if h == "" then None else Some(Seat(h, rank, Some(now)))
  }

  ghost predicate AnchorChoice(e: Env, p: PairingV, x: seq<Slot>, side: Side, r: Option<Seat>) {
    var hosts := Choices(e, p, side);
    AnchorPick(hosts, WalkStart(e, p, |hosts|), Across(p, x, side), x, side, e.now, r)
  }

  lemma AnchorFillMeaning(e: Env, p: PairingV, x: seq<Slot>, side: Side)
    requires e.Valid()
    ensures var y := AnchorFill(e, p, x, side).slots;
            && AnchorsGiven(e, p, x, y, side)
            && forall i :: 0 <= i < |x| ==>
                 && (x[i].cls != Anchor ==> y[i] == x[i])
                 && y[i] == if side == SideA then x[i].(a := y[i].a) else x[i].(b := y[i].b)
  {
    AnchorChoiceIs(e, p, x, side);
    AnchorFillShape(e, p, x, side);
    hide AnchorSeat, AnchorFill, Env.Valid, AnchorChoice, Shared;
  }

  lemma AnchorFillShape(e: Env, p: PairingV, x: seq<Slot>, side: Side)
    ensures var y, r := AnchorFill(e, p, x, side).slots, AnchorSeat(e, p, x, side);
            && Shared(x, y, side, if r.Some? then Some(r.value.0) else None)
            && forall i :: 0 <= i < |x| ==>
                 && (x[i].cls != Anchor ==> y[i] == x[i])
                 && y[i] == if side == SideA then x[i].(a := y[i].a) else x[i].(b := y[i].b)
  {
    hide AnchorSeat, Flatten;
  }

  lemma AnchorChoiceIs(e: Env, p: PairingV, x: seq<Slot>, side: Side)
    requires e.Valid()
    ensures var r := AnchorSeat(e, p, x, side);
            AnchorChoice(e, p, x, side, if r.Some? then Some(r.value.0) else None)
  {
    AnchorSeatWalk(e, p, x, side);
    hide AnchorSeat, Env.Valid, Holder, FirstHolder, HostsOn, AnchorPicked, Choices, Across, WalkStart;
  }

  // ---------- the whole table ----------

  /** The table once the anchors of side A, or of both sides, have their final hosts. */
  function HalfAnchored(x: seq<Slot>, y: seq<Slot>): (r: seq<Slot>)
    requires |x| == |y|
    ensures |r| == |x| && forall i :: 0 <= i < |x| ==> r[i].cls == x[i].cls
  {
    seq(|x|, i requires 0 <= i < |x| => if x[i].cls == Anchor then x[i].(a := y[i].a) else x[i])
  }

  function Anchored(x: seq<Slot>, y: seq<Slot>): (r: seq<Slot>)
    requires |x| == |y|
    ensures |r| == |x| && forall i :: 0 <= i < |x| ==> r[i].cls == x[i].cls
  {
    seq(|x|, i requires 0 <= i < |x| => if x[i].cls == Anchor then x[i].(a := y[i].a, b := y[i].b) else x[i])
  }

  /** Filling a table, in full: first the anchors of side A, then those of side B, then the diverse
      slots from the first to the last, side A before side B, each against the hosts the table
      holds when its turn has come; every other slot stays. */
  lemma FillMeaning(e: Env, p: PairingV)
    requires e.Valid()
    ensures var x, y := p.slots, FillTable(e, p).slots;
            && AnchorsGiven(e, p, x, y, SideA) && AnchorsGiven(e, p, HalfAnchored(x, y), y, SideB)
            && (forall i: nat, side :: i < |x| && x[i].cls == Diverse ==>
                 DiverseGiven(e, p, Anchored(x, y), y, i, side))
            && forall i :: 0 <= i < |x| ==>
                 && y[i] == x[i].(a := y[i].a, b := y[i].b)
                 && (x[i].cls != Anchor && x[i].cls != Diverse ==> y[i] == x[i])
  {
    hide AnchorFill, DiverseFill, AnchorsGiven, DiverseGiven, Env.Valid;
    var x, y := p.slots, FillTable(e, p).slots;
    var fa := AnchorFill(e, p, x, SideA).slots;
    var fb := AnchorFill(e, p, fa, SideB).slots;
    AnchorFillMeaning(e, p, x, SideA);
    AnchorFillMeaning(e, p, fa, SideB);
    DiverseKeepsAnchors(e, p, fb, 2 * |fb|);
    DiverseKeepsRest(e, p, fb, 2 * |fb|);
    assert HalfAnchored(x, y) == fa;
    assert Anchored(x, y) == fb;
    GivenLater(e, p, x, fa, y, SideA);
    GivenLater(e, p, fa, fb, y, SideB);
    forall i: nat, side | i < |x| && x[i].cls == Diverse ensures DiverseGiven(e, p, Anchored(x, y), y, i, side) {
      DiverseFillMeaning(e, p, fb, i, side);
    }
  }

  lemma {:induction false} DiverseKeepsRest(e: Env, p: PairingV, x: seq<Slot>, j: nat)
    requires j <= 2 * |x|
    ensures var y := DiverseFill(e, p, x, j).slots;
            forall i :: 0 <= i < |x| ==> y[i] == x[i].(a := y[i].a, b := y[i].b)
  {
    hide DiverseStep;
    if j > 0 {
      DiverseKeepsRest(e, p, x, j - 1);
      StepAlone(e, p, DiverseFill(e, p, x, j - 1), j - 1);
    }
  }

  /** Only the anchors' own seats count. */
  lemma GivenLater(e: Env, p: PairingV, x: seq<Slot>, y: seq<Slot>, z: seq<Slot>, side: Side)
    requires |x| == |y| == |z| && AnchorsGiven(e, p, x, y, side)
    requires forall i :: 0 <= i < |x| && x[i].cls == Anchor ==> y[i].Seat(side) == z[i].Seat(side)
    ensures AnchorsGiven(e, p, x, z, side)
  {
    hide AnchorChoice;
  }

  // ---------- in terms of the inputs ----------

  /** The pick of the walk for a diverse side: among the eligible hosts of its zone, from the offset
      that the hash of the pairing key gives. */
  ghost predicate SidePicked(in_: Input, p: PairingV, turn: seq<Slot>, s: Slot, side: Side, h: string, rank: Rank) {
    var hosts := ZoneChoices(in_, ZoneOn(p, side));
    var other := if side == SideA then s.b.host else s.a.host;
    Picked(hosts, multiset(HostsOn(turn, side)), if |hosts| == 0 then 0 else in_.hash(p.key) % |hosts|,
           if p.intra && other != "" then {other} else {}, in_.cfg.allowReuse, h, rank)
  }

  ghost predicate DiverseRight(in_: Input, p: PairingV, x: seq<Slot>, y: seq<Slot>, i: nat, side: Side)
    requires i < |x| == |y|
  {
    var was, is_, turn := SeatOn(x[i], side), SeatOn(y[i], side), Midway(x, y, i, side);
    if was.host != "" then is_ == was
    else exists h, rank ::
      SidePicked(in_, p, turn, turn[i], side, h, rank) && is_ == if h == "" then was else Seat(h, rank, Some(in_.now))
  }

  ghost predicate AnchorGift(in_: Input, p: PairingV, x: seq<Slot>, side: Side, r: Option<Seat>) {
    var hosts := ZoneChoices(in_, ZoneOn(p, side));
    AnchorPick(hosts, if |hosts| == 0 then 0 else in_.hash(p.key) % |hosts|, Across(p, x, side), x, side, in_.now, r)
  }

  ghost predicate AnchorsRight(in_: Input, p: PairingV, x: seq<Slot>, y: seq<Slot>, side: Side)
    requires |x| == |y|
  {
    exists r: Option<Seat> :: AnchorGift(in_, p, x, side, r) && Shared(x, y, side, r)
  }

  /** The table y is x filled: first the anchors of side A, then those of side B, then the diverse
      slots from the first to the last, side A before side B, each against the hosts the table
      holds when its turn has come. */
  ghost predicate FilledFrom(in_: Input, p: PairingV, x: seq<Slot>, y: seq<Slot>) {
    && |x| == |y| && AnchorsRight(in_, p, x, y, SideA) && AnchorsRight(in_, p, HalfAnchored(x, y), y, SideB)
    && forall i: nat, side :: i < |x| && x[i].cls == Diverse ==> DiverseRight(in_, p, Anchored(x, y), y, i, side)
  }

  /** The table x is what the run fills: with the slots and the super slots of the new table, and on
      each base side the stored seat when it is still right, no host otherwise. */
  ghost predicate LeftOver(in_: Input, cur: Option<StateV>, next: StateV, k: string, x: seq<Slot>) {
    && k in next.pairings && |x| == |next.pairings[k].slots|
    && forall i: nat :: i < |x| ==> LeftOverAt(in_, cur, next, k, x[i], i)
  }

  ghost predicate LeftOverAt(in_: Input, cur: Option<StateV>, next: StateV, k: string, s: Slot, i: nat)
    requires k in next.pairings && i < |next.pairings[k].slots|
  {
    var t := next.pairings[k].slots[i];
    && s.index == t.index && s.cls == t.cls && s.target == t.target && (t.cls == Super ==> s == t)
    && forall side :: t.cls != Super ==>
         if StillRight(in_, cur, next, k, i, side) then SeatOn(s, side) == StoredSeat(in_, cur, k, i, side)
         else SeatOn(s, side).host == ""
  }

  lemma PickedMeans(in_: Input, x: Index, want: map<string, Wanted>, p: PairingV, turn: seq<Slot>, s: Slot, side: Side)
    requires in_.Valid() && Indexes(x, in_.rule, in_.snap.hosts)
    ensures forall h, rank :: DivPicked(EnvOf(in_, x, want), p, turn, s, side, h, rank)
                              <==> SidePicked(in_, p, turn, s, side, h, rank)
  {
    hide Indexes, Input.Valid, EnvOf, Picked, ZoneChoices, Choices, HostsOn;
    EnvFields(in_, x, want);
    ChoicesOf(in_, x, want, p, side);
  }

  lemma AnchorGiftMeans(in_: Input, x: Index, want: map<string, Wanted>, p: PairingV, slots: seq<Slot>, side: Side)
    requires in_.Valid() && Indexes(x, in_.rule, in_.snap.hosts)
    ensures forall r :: AnchorChoice(EnvOf(in_, x, want), p, slots, side, r) <==> AnchorGift(in_, p, slots, side, r)
  {
    hide Indexes, Input.Valid, EnvOf, AnchorPick, ZoneChoices, Choices, Across;
    EnvFields(in_, x, want);
    ChoicesOf(in_, x, want, p, side);
  }

  lemma AnchorsMean(in_: Input, x: Index, want: map<string, Wanted>, p: PairingV, slots: seq<Slot>, y: seq<Slot>,
                    side: Side)
    requires in_.Valid() && Indexes(x, in_.rule, in_.snap.hosts) && |slots| == |y|
    requires AnchorsGiven(EnvOf(in_, x, want), p, slots, y, side)
    ensures AnchorsRight(in_, p, slots, y, side)
  {
    hide Indexes, Input.Valid, EnvOf, AnchorGift, AnchorChoice;
    AnchorGiftMeans(in_, x, want, p, slots, side);
  }

  lemma DiverseMeans(in_: Input, x: Index, want: map<string, Wanted>, p: PairingV, slots: seq<Slot>, y: seq<Slot>,
                     i: nat, side: Side)
    requires in_.Valid() && Indexes(x, in_.rule, in_.snap.hosts) && i < |slots| == |y|
    requires DiverseGiven(EnvOf(in_, x, want), p, slots, y, i, side)
    ensures DiverseRight(in_, p, slots, y, i, side)
  {
    hide Indexes, Input.Valid, EnvOf, DivPicked, SidePicked, Midway;
    EnvFields(in_, x, want);
    var turn := Midway(slots, y, i, side);
    PickedMeans(in_, x, want, p, turn, turn[i], side);
  }

  /** One pairing filled, in terms of the inputs. */
  lemma FillInputs(in_: Input, x: Index, want: map<string, Wanted>, p: PairingV)
    requires in_.Valid() && Indexes(x, in_.rule, in_.snap.hosts) && EnvOf(in_, x, want).Valid()
    ensures FilledFrom(in_, p, p.slots, FillTable(EnvOf(in_, x, want), p).slots)
  {
    hide Indexes, Input.Valid, EnvOf, Env.Valid, AnchorsGiven, AnchorsRight, DiverseGiven, DiverseRight, FillTable;
    var e := EnvOf(in_, x, want);
    var slots, y := p.slots, FillTable(e, p).slots;
    FillMeaning(e, p);
    AnchorsMean(in_, x, want, p, slots, y, SideA);
    AnchorsMean(in_, x, want, p, HalfAnchored(slots, y), y, SideB);
    forall i: nat, side | i < |slots| && slots[i].cls == Diverse
      ensures DiverseRight(in_, p, Anchored(slots, y), y, i, side)
    {
      DiverseMeans(in_, x, want, p, Anchored(slots, y), y, i, side);
    }
  }

  /** Which stored seats outlast validation. */
  lemma StaysMeans(in_: Input, cur: Option<StateV>, x: Index, want: map<string, Wanted>, next: StateV, k: string,
                   i: nat,
                   side: Side)
    requires in_.Valid() && Indexes(x, in_.rule, in_.snap.hosts)
    requires k in next.pairings && i < |next.pairings[k].slots|
    ensures var s, t := BaseAt(StoredSlots(StoredPairing(in_, cur, k)), i), next.pairings[k].slots[i];
            StillRight(in_, cur, next, k, i, side) ==
              SideEntries.Stays(EnvOf(in_, x, want), s, t.cls, side, ZoneOn(next.pairings[k], side))
  {
    hide Indexes, Input.Valid, EnvOf, Located, Env.OkHost, StoredPairing;
    var s, z := BaseAt(StoredSlots(StoredPairing(in_, cur, k)), i), ZoneOn(next.pairings[k], side);
    EnvFields(in_, x, want);
    OkHostMeans(in_, x, want, s.Host(side), z);
    OkIsThere(EnvOf(in_, x, want), s.Host(side), z);
    if Located(in_, s.Host(side), z) { LocatedNamed(in_, s.Host(side), z); }
  }

  lemma OkIsThere(e: Env, h: string, z: string)
    ensures e.OkHost(h, z) ==> h in e.hosts && h in e.eligible
  {}

  lemma CheckedSeat(e: Env, s: Slot, d: PairingV, i: int, cls: Class, side: Side)
    ensures var t := CheckSlot(e, d, Reclass(s, i, cls));
            if SideEntries.Stays(e, s, cls, side, d.Zone(side)) then t.Seat(side) == s.Seat(side)
            else t.Host(side) == ""
  {}

  /** The table that the fill pass of a run finds, base slot by base slot. */
  lemma FoundTable(e: Env, sh: map<string, seq<string>>, k: string, cur: Option<PairingV>, i: nat, side: Side)
    requires e.Valid() && k in e.want && CurOk(e, k, cur) && i < e.Layout().total
    ensures var x, s := BaseAt(StoredSlots(cur), i), Supered(e, sh, k, cur);
            && i < |s.slots|
            && if SideEntries.Stays(e, x, e.Layout().ClassAt(i), side, s.Zone(side))
               then s.slots[i].Seat(side) == x.Seat(side) else s.slots[i].Host(side) == ""
  {
    SlotJourney(e, sh, k, cur, i);
    CheckedSeat(e, BaseAt(StoredSlots(cur), i), Diffed(e, k, cur), i, e.Layout().ClassAt(i), side);
    hide Diffed, Validated, Supered, StepOne, ComputeLayout, SideEntries.Stays, CheckSlot, Reclass, SlotGrown,
         Env.Valid;
  }

  /** Only the key and the zones of a pairing matter to its filling. */
  lemma SamePairing(in_: Input, p: PairingV, slots: seq<Slot>, x: seq<Slot>, y: seq<Slot>)
    requires FilledFrom(in_, p, x, y)
    ensures FilledFrom(in_, p.(slots := slots), x, y)
  {
    var q := p.(slots := slots);
    hide AnchorPick, Picked, ZoneChoices, HostsOn, Midway, HalfAnchored, Anchored;
    forall i: nat, side | i < |x| && x[i].cls == Diverse
      ensures DiverseRight(in_, q, Anchored(x, y), y, i, side)
    {
      assert DiverseRight(in_, p, Anchored(x, y), y, i, side);
      var turn := Midway(Anchored(x, y), y, i, side);
      forall h, rank ensures SidePicked(in_, p, turn, turn[i], side, h, rank)
                             <==> SidePicked(in_, q, turn, turn[i], side, h, rank) {}
    }
    SameAnchors(in_, p, slots, x, y, SideA);
    SameAnchors(in_, p, slots, HalfAnchored(x, y), y, SideB);
  }

  lemma SameAnchors(in_: Input, p: PairingV, slots: seq<Slot>, x: seq<Slot>, y: seq<Slot>, side: Side)
    requires |x| == |y| && AnchorsRight(in_, p, x, y, side)
    ensures AnchorsRight(in_, p.(slots := slots), x, y, side)
  {
    hide AnchorPick, ZoneChoices, HostsOn;
    forall r ensures AnchorGift(in_, p, x, side, r) ==> AnchorGift(in_, p.(slots := slots), x, side, r) {}
  }

  /** The table the fill pass of a run finds and the one it leaves. */
  ghost predicate Found(e: Env, stored: seq<Slot>, s: PairingV, y: seq<Slot>) {
    && |s.slots| == |y|
    && (forall i :: 0 <= i < |y| ==>
         y[i] == s.slots[i].(a := y[i].a, b := y[i].b) && (y[i].cls == Super ==> y[i] == s.slots[i]))
    && forall i: nat, side :: i < |y| && y[i].cls != Super ==> SeatFound(e, stored, s, y[i].cls, i, side)
  }

  ghost predicate SeatFound(e: Env, stored: seq<Slot>, s: PairingV, cls: Class, i: nat, side: Side)
    requires i < |s.slots|
  {
    if SideEntries.Stays(e, BaseAt(stored, i), cls, side, s.Zone(side))
    then s.slots[i].Seat(side) == BaseAt(stored, i).Seat(side) else s.slots[i].Host(side) == ""
  }

  lemma FoundIs(e: Env, sh: map<string, seq<string>>, k: string, cur: Option<PairingV>)
    requires e.Valid() && k in e.want && CurOk(e, k, cur)
    ensures var s := Supered(e, sh, k, cur);
            Found(e, StoredSlots(cur), s, FillTable(e, s).slots)
  {
    hide StepOne, Supered, ComputeLayout, Env.Valid, SideEntries.Stays, CurOk, SeatFound, FillTable, Consistent,
         SeatsOk,
         AnchorsGiven, DiverseGiven;
    var s := Supered(e, sh, k, cur);
    SuperedReady(e, sh, k, cur);
    FillMeaning(e, s);
    var y := FillTable(e, s).slots;
    forall i: nat, side | i < |y| && y[i].cls != Super ensures SeatFound(e, StoredSlots(cur), s, y[i].cls, i, side) {
      FoundSeat(e, sh, k, cur, i, side);
    }
  }

  lemma FoundSeat(e: Env, sh: map<string, seq<string>>, k: string, cur: Option<PairingV>, i: nat, side: Side)
    requires e.Valid() && k in e.want && CurOk(e, k, cur) && i < e.Layout().total
    ensures var s := Supered(e, sh, k, cur);
            i < |s.slots| && SeatFound(e, StoredSlots(cur), s, e.Layout().ClassAt(i), i, side)
  {
    hide Supered, ComputeLayout, Env.Valid, SideEntries.Stays, CurOk;
    FoundTable(e, sh, k, cur, i, side);
  }

  /** What a run leaves of the stored table before it fills. */
  lemma LeftOverIs(in_: Input, cur: Option<StateV>, x: Index, want: map<string, Wanted>, next: StateV, k: string,
                   s: PairingV)
    requires in_.Valid() && Indexes(x, in_.rule, in_.snap.hosts) && k in next.pairings
    requires s.zoneA == next.pairings[k].zoneA && s.zoneB == next.pairings[k].zoneB
    requires Found(EnvOf(in_, x, want), StoredSlots(StoredPairing(in_, cur, k)), s, next.pairings[k].slots)
    ensures LeftOver(in_, cur, next, k, s.slots)
  {
    hide Indexes, Input.Valid, EnvOf, StoredPairing, SideEntries.Stays, StillRight, BaseAt, LeftOverAt, SeatFound;
    forall i: nat | i < |s.slots| ensures LeftOverAt(in_, cur, next, k, s.slots[i], i) {
      forall side | next.pairings[k].slots[i].cls != Super
        ensures SeatFound(EnvOf(in_, x, want), StoredSlots(StoredPairing(in_, cur, k)), s,
                  next.pairings[k].slots[i].cls, i,
                  side)
      {}
      LeftOverOne(in_, cur, x, want, next, k, s, i);
    }
  }

  lemma LeftOverOne(in_: Input, cur: Option<StateV>, x: Index, want: map<string, Wanted>, next: StateV, k: string,
                    s: PairingV, i: nat)
    requires in_.Valid() && Indexes(x, in_.rule, in_.snap.hosts) && k in next.pairings
    requires s.zoneA == next.pairings[k].zoneA && s.zoneB == next.pairings[k].zoneB
    requires i < |s.slots| == |next.pairings[k].slots|
    requires var t := next.pairings[k].slots[i];
             && t == s.slots[i].(a := t.a, b := t.b) && (t.cls == Super ==> t == s.slots[i])
             && forall side :: t.cls != Super ==>
                  SeatFound(EnvOf(in_, x, want), StoredSlots(StoredPairing(in_, cur, k)), s, t.cls, i, side)
    ensures LeftOverAt(in_, cur, next, k, s.slots[i], i)
  {
    hide Indexes, Input.Valid, EnvOf, StoredPairing, SideEntries.Stays, StillRight, BaseAt, StoredSeat;
    StaysMeans(in_, cur, x, want, next, k, i, SideA);
    StaysMeans(in_, cur, x, want, next, k, i, SideB);
    StoredAre(in_, cur, x, want, k);
    var t := next.pairings[k].slots[i];
    forall side | t.cls != Super
      ensures if StillRight(in_, cur, next, k, i, side) then
                SeatOn(s.slots[i], side) == StoredSeat(in_, cur, k, i, side)
              else SeatOn(s.slots[i], side).host == ""
    {
      assert SeatFound(EnvOf(in_, x, want), StoredSlots(StoredPairing(in_, cur, k)), s, t.cls, i, side);
      assert BaseAt(StoredSlots(StoredPairing(in_, cur, k)), i).Seat(side) == StoredSeat(in_, cur, k, i, side);
      assert s.Zone(side) == ZoneOn(next.pairings[k], side) && (side == SideA || side == SideB);
    }
  }

  /** A pairing of the next state that is wanted is what the fill pass makes of it. */
  lemma NextFilled(e: Env, cur: Option<StateV>, k: string) returns (s: PairingV)
    requires e.Valid() && (cur.Some? ==> StateOk(cur.value)) && k in e.want && k in Next(e, cur).pairings
    ensures Next(e, cur).pairings[k] == s.(slots := FillTable(e, s).slots)
    ensures Found(e, StoredSlots(Get(Start(e, cur).pairings, k)), s, Next(e, cur).pairings[k].slots)
  {
    hide Next, StateOk, Start, StepOne, Supered, NextSuperHosts, FillTable, CurOk, StoredOk, Env.Valid, Found;
    StartOk(e, cur);
    NextAt(e, cur, k);
    var old_, sh := Get(Start(e, cur).pairings, k), NextSuperHosts(e, Start(e, cur).superHosts);
    assert StoredOk(e, k, old_);
    StoredIsCur(e, k, old_);
    SuperedActive(e, sh, k, old_);
    FoundIs(e, sh, k, old_);
    s := Supered(e, sh, k, old_);
  }

  /** The whole table of an active pairing after a run, in terms of the inputs: what is left of the
      stored table, filled side by side in order, with the super slots of the run counted as used. */
  lemma OutcomeFill(in_: Input, cur: Option<StateV>, x: Index, want: map<string, Wanted>, next: StateV,
                    added: seq<string>, removed: seq<string>, supers: seq<string>, sides: seq<SideChange>, k: string)
    requires in_.Valid() && (cur.Some? ==> StateOk(cur.value))
    requires Outcome(in_, cur, x, want, next, added, removed, supers, sides)
    requires k in next.pairings && next.pairings[k].removeAt.None?
    ensures exists slots ::
              LeftOver(in_, cur, next, k, slots) && FilledFrom(in_, next.pairings[k], slots, next.pairings[k].slots)
  {
    hide Next, NextDelta, Indexes, Resolves, Reports, Input.Valid, StateOk, EnvOf, Env.Valid, Start, LeftOver,
         FilledFrom,
         StoredPairing, FillTable, Found;
    var e := EnvOf(in_, x, want);
    EnvIsValid(in_, x, want);
    EnvFields(in_, x, want);
    StoredAre(in_, cur, x, want, k);
    ActiveIsWanted(e, cur, k);
    var s := NextFilled(e, cur, k);
    FillInputs(in_, x, want, s);
    SamePairing(in_, s, next.pairings[k].slots, s.slots, next.pairings[k].slots);
    LeftOverIs(in_, cur, x, want, next, k, s);
  }

  lemma SuperedActive(e: Env, sh: map<string, seq<string>>, k: string, cur: Option<PairingV>)
    requires e.Valid() && k in e.want && CurOk(e, k, cur)
    ensures var s := Supered(e, sh, k, cur);
            StepOne(e, sh, k, cur) == Some(s.(slots := FillTable(e, s).slots))
  {
    SuperedReady(e, sh, k, cur);
    hide Consistent, SeatsOk, Shaped, Classed, FillTable, SuperOne, ValidateOne, SuperTail, ComputeLayout;
  }
}
