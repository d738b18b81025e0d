/** The ranked scan as a greedy load balancer (internal/reconcile/reconcile.go:607-644,
    internal/slot/slot.go:156-226). */
module Balance {
  import opened Slots
  import opened Tables
  import opened Filling

  /** A diverse side waiting for a host. */
  predicate Open(s: Slot, side: Side) { s.cls == Diverse && s.Host(side) == "" }

  /** How many open sides of one kind the first j steps of the diverse filling visit. */
  function OpenBefore(x: seq<Slot>, side: Side, j: nat): nat
    requires j <= 2 * |x|
  {
    if j == 0 then 0
    else OpenBefore(x, side, j - 1) + if SideOf(j - 1) == side && Open(x[(j - 1) / 2], side) then 1 else 0
  }

  /** The number of open sides of a table. */
  function OpenSides(x: seq<Slot>, side: Side): nat { |OpenSet(x, side, |x|)| }

  function OpenSet(x: seq<Slot>, side: Side, n: nat): set<int>
    requires n <= |x|
  {
    set i | 0 <= i < n && Open(x[i], side)
  }

  /** How many entries of one side a log records at the best rank. */
  function UniquePicks(log: seq<SideChange>, side: Side): nat {
    if |log| == 0 then 0
    else
      var last := log[|log| - 1];
      UniquePicks(log[..|log| - 1], side) + if last.side == side && last.rank == Unique then 1 else 0
  }

  function Unused(e: Env, p: PairingV, slots: seq<Slot>, side: Side): set<string> {
    Free(Cand(e, p, side), Used(slots, side), {})
  }

  function Min(a: nat, b: nat): nat { if a < b then a else b }

  // ---------- one step ----------

  lemma {:induction false} OpenUntouched(e: Env, p: PairingV, x: seq<Slot>, j: nat, m: nat)
    requires j <= m < 2 * |x|
    ensures var s := DiverseFill(e, p, x, j).slots[m / 2];
            s.Seat(SideOf(m)) == x[m / 2].Seat(SideOf(m)) && s.cls == x[m / 2].cls
  {
    if j > 0 {
      hide DiverseSeat;
      OpenUntouched(e, p, x, j - 1, m);
    }
  }

  /** What the scan guarantees about one pick without an exclusion. */
  lemma PickBalanced(e: Env, p: PairingV, slots: seq<Slot>, s: Slot, side: Side)
    requires e.Valid() && !p.intra && Open(s, side)
    ensures var r := DiverseSeat(e, p, slots, s, side);
            var cand, use := Cand(e, p, side), Used(slots, side);
            && (r.Some? ==> r.value.host in cand && r.value.host != "" && r.value.rank in {Unique, MinUse})
            && (r.Some? ==> forall g :: g in cand ==> use[r.value.host] <= use[g])
            && (r.Some? && r.value.rank == Unique <==> Unused(e, p, slots, side) != {})
            && (r.Some? && r.value.rank == Unique ==> use[r.value.host] == 0)
            && (r.None? ==> if e.cfg.allowReuse then |cand| == 0 else Unused(e, p, slots, side) == {})
  {
    var cand, use := Cand(e, p, side), Used(slots, side);
    CandOk(e, p, side);
    assert Excl(p, s, side) == {};
    PickMeaning(cand, use, StartOffset(e.hash, p.key, |cand|), {}, e.cfg.allowReuse);
    if |cand| > 0 { assert cand[0] in Rest(cand, {}); }
  }

  // ---------- the invariant of the filling ----------

  /** After j steps: the best rank was given as often as possible, the unused candidates
      are what is left, and every host picked so far is used at most once more than any
      candidate. */
  ghost predicate Balanced(e: Env, p: PairingV, x: seq<Slot>, side: Side, j: nat)
    requires j <= 2 * |x|
  {
    var f := DiverseFill(e, p, x, j);
    var before := |Unused(e, p, x, side)|;
    && UniquePicks(f.log, side) == Min(OpenBefore(x, side, j), before)
    && |Unused(e, p, f.slots, side)| == before - Min(OpenBefore(x, side, j), before)
    && PicksLevel(e, p, f, side)
  }

  ghost predicate PicksLevel(e: Env, p: PairingV, f: Fill, side: Side) {
    forall c :: c in f.log && c.side == side ==>
      && c.new_ != "" && c.rank in {Unique, MinUse}
      && forall g :: g in Cand(e, p, side) ==> Used(f.slots, side)[c.new_] <= Used(f.slots, side)[g] + 1
  }

  /** A pick at the lowest use count keeps the load level. */
  lemma LevelStep(e: Env, p: PairingV, f: Fill, i: nat, side: Side, seat: Seat, entry: SideChange)
    requires e.Valid() && i < |f.slots| && f.slots[i].Host(side) == "" && PicksLevel(e, p, f, side)
    requires seat.host != "" && seat.rank in {Unique, MinUse} && entry.side == side && entry.new_ == seat.host
               && entry.rank == seat.rank
    requires forall g :: g in Cand(e, p, side) ==> Used(f.slots, side)[seat.host] <= Used(f.slots, side)[g]
    ensures PicksLevel(e, p, Fill(f.slots[i := f.slots[i].SetSeat(side, seat)], f.log + [entry]), side)
  {
    var g := Fill(f.slots[i := f.slots[i].SetSeat(side, seat)], f.log + [entry]);
    CandOk(e, p, side);
    forall h | h != "" ensures Used(g.slots, side)[h] == Used(f.slots, side)[h] + (if h == seat.host then 1 else 0) {
      UsedAfter(f.slots, i, side, seat, h);
    }
    hide Used, Cand, Env.Valid;
    forall c | c in g.log && c.side == side
      ensures c.new_ != "" && c.rank in {Unique, MinUse}
      ensures forall h :: h in Cand(e, p, side) ==> Used(g.slots, side)[c.new_] <= Used(g.slots, side)[h] + 1
    {
      assert c in f.log || c == entry;
    }
  }

  /** A unique pick uses up exactly one unused candidate, any other pick none. */
  lemma UnusedStep(e: Env, p: PairingV, slots: seq<Slot>, i: nat, side: Side, seat: Seat)
    requires e.Valid() && i < |slots| && slots[i].Host(side) == "" && seat.host in Cand(e, p, side)
    ensures var y := slots[i := slots[i].SetSeat(side, seat)];
            && Unused(e, p, y, side) == Unused(e, p, slots, side) - {seat.host}
            && Unused(e, p, y, side.Other()) == Unused(e, p, slots, side.Other())
  {
    CandOk(e, p, side);
    var y := slots[i := slots[i].SetSeat(side, seat)];
    forall h | h != "" ensures Used(y, side)[h] == Used(slots, side)[h] + (if h == seat.host then 1 else 0) {
      UsedAfter(slots, i, side, seat, h);
    }
    UsedAfter(slots, i, side, seat, seat.host);
    hide Used, Cand, Env.Valid;
    assert forall h :: h in Unused(e, p, y, side) <==> h in Unused(e, p, slots, side) && h != seat.host;
  }

  lemma UniqueAppend(log: seq<SideChange>, c: SideChange, side: Side)
    ensures UniquePicks(log + [c], side) == UniquePicks(log, side) + if c.side == side && c.rank == Unique then 1 else 0
  {
    assert (log + [c])[..|log + [c]| - 1] == log;
  }

  /** Whether a step takes an unused candidate for this side. */
  ghost predicate Takes(e: Env, p: PairingV, f: Fill, j: nat, side: Side)
    requires j / 2 < |f.slots|
  {
    SideOf(j) == side && Open(f.slots[j / 2], side) && |Unused(e, p, f.slots, side)| > 0
  }

  lemma StepBalance(e: Env, p: PairingV, f: Fill, j: nat, side: Side)
    requires e.Valid() && !p.intra && j / 2 < |f.slots| && PicksLevel(e, p, f, side)
    ensures var g, d := DiverseStep(e, p, f, j), if Takes(e, p, f, j, side) then 1 else 0;
            && PicksLevel(e, p, g, side)
            && UniquePicks(g.log, side) == UniquePicks(f.log, side) + d
            && |Unused(e, p, g.slots, side)| == |Unused(e, p, f.slots, side)| - d
  {
    var s, t := f.slots[j / 2], SideOf(j);
    var r := DiverseSeat(e, p, f.slots, s, t);
    if Open(s, t) {
      PickBalanced(e, p, f.slots, s, t);
      hide DiverseSeat, Unused, PicksLevel, Used, Cand, Env.Valid;
      if r.Some? {
        var entry := FillEntry(p, s, t, r.value, NewSlot);
        UnusedStep(e, p, f.slots, j / 2, t, r.value);
        UniqueAppend(f.log, entry, side);
        if side == t {
          LevelStep(e, p, f, j / 2, side, r.value, entry);
          UnusedMember(e, p, f.slots, side, r.value.host);
        } else {
          LevelOther(e, p, f, j / 2, t, r.value, entry);
        }
      } else {
        UnusedNone(e, p, f.slots, t);
      }
    } else {
      hide Unused, PicksLevel;
    }
  }

  lemma UnusedMember(e: Env, p: PairingV, slots: seq<Slot>, side: Side, h: string)
    requires h in Cand(e, p, side)
    ensures h in Unused(e, p, slots, side) <==> Used(slots, side)[h] == 0
  {}

  lemma BalancedStep(e: Env, p: PairingV, x: seq<Slot>, side: Side, j: nat)
    requires e.Valid() && !p.intra && j < 2 * |x| && Balanced(e, p, x, side, j)
    ensures Balanced(e, p, x, side, j + 1)
  {
    OpenUntouched(e, p, x, j, j);
    hide Unused, PicksLevel, DiverseStep;
    StepBalance(e, p, DiverseFill(e, p, x, j), j, side);
  }

  lemma UnusedNone(e: Env, p: PairingV, slots: seq<Slot>, side: Side)
    ensures |Cand(e, p, side)| == 0 ==> Unused(e, p, slots, side) == {}
  {}

  /** A pick on the other side changes no use count of this one. */
  lemma LevelOther(e: Env, p: PairingV, f: Fill, i: nat, t: Side, seat: Seat, entry: SideChange)
    requires i < |f.slots| && f.slots[i].Host(t) == "" && entry.side == t && PicksLevel(e, p, f, t.Other())
    ensures PicksLevel(e, p, Fill(f.slots[i := f.slots[i].SetSeat(t, seat)], f.log + [entry]), t.Other())
  {
    UsedAfter(f.slots, i, t, seat, "x");
    hide Used, Cand;
  }

  lemma {:induction false} BalancedAlways(e: Env, p: PairingV, x: seq<Slot>, side: Side, j: nat)
    requires e.Valid() && !p.intra && j <= 2 * |x|
    ensures Balanced(e, p, x, side, j)
  {
    if j > 0 {
      hide Balanced;
      BalancedAlways(e, p, x, side, j - 1);
      BalancedStep(e, p, x, side, j - 1);
    }
  }

  lemma {:induction false} OpenCount(x: seq<Slot>, side: Side, n: nat)
    requires n <= |x|
    ensures OpenBefore(x, side, 2 * n) == |OpenSet(x, side, n)|
  {
    hide Open, OpenSet;
    OpenSetStep(x, side, n);
    if n > 0 {
      OpenCount(x, side, n - 1);
      OpenPair(x, side, n - 1);
    }
  }

  lemma OpenSetStep(x: seq<Slot>, side: Side, n: nat)
    requires n <= |x|
    ensures n == 0 ==> OpenSet(x, side, n) == {}
    ensures n > 0 ==> |OpenSet(x, side, n)| == |OpenSet(x, side, n - 1)| + if Open(x[n - 1], side) then 1 else 0
  {
    hide Open;
    if n > 0 {
      assert OpenSet(x, side, n) == OpenSet(x, side, n - 1) + if Open(x[n - 1], side) then {n - 1} else {};
    }
  }

  /** Steps 2m and 2m + 1 visit the two sides of slot m. */
  lemma OpenPair(x: seq<Slot>, side: Side, m: nat)
    requires m < |x|
    ensures OpenBefore(x, side, 2 * m + 2) == OpenBefore(x, side, 2 * m) + if Open(x[m], side) then 1 else 0
  {
    hide Open;
    assert (2 * m) / 2 == m && (2 * m + 1) / 2 == m;
    assert OpenBefore(x, side, 2 * m + 1) == OpenBefore(x, side, 2 * m)
             + if SideA == side && Open(x[m], side) then 1 else 0;
  }

  /** Greedy balance: in a pairing between two zones, whatever the reuse policy, diverse
      filling gives a still unused host to as many open sides as there are such hosts,
      never falls back to an arbitrary host, and leaves every host it picked used at most
      once more than every candidate. */
  lemma GreedyBalance(e: Env, p: PairingV, x: seq<Slot>, side: Side)
    requires e.Valid() && !p.intra
    ensures var f := DiverseFill(e, p, x, 2 * |x|);
            && UniquePicks(f.log, side) == Min(OpenSides(x, side), |Unused(e, p, x, side)|)
            && (forall c :: c in f.log && c.side == side ==> c.rank != AnyUse)
            && (forall c, g :: c in f.log && c.side == side && g in Cand(e, p, side) ==>
                  Used(f.slots, side)[c.new_] <= Used(f.slots, side)[g] + 1)
  {
    BalancedAlways(e, p, x, side, 2 * |x|);
    OpenCount(x, side, |x|);
    hide DiverseFill, Unused, Used, Cand;
  }
}
