/** The reconcile passes as they run: objects updated in place, maps visited in an
    arbitrary order (internal/reconcile/reconcile.go, internal/state/state.go). Each pass
    is proved against its pure meaning in module `Tables`. */
module Reconciler {
  import opened Base
  import opened Slots
  import opened Tables
  import opened Filling
  import opened Invariants
  import opened Zones
  import opened Pairings

  // ---------- the mutable state ----------

  /** The slot table of one zone pairing. */
  class Pairing {
    const key: string
    const zoneA: string
    const zoneB: string
    const intra: bool
    var slots: seq<Slot>
    var removeAt: Option<Time>

    ghost function View(): PairingV
      reads this
    {
      PairingV(key, zoneA, zoneB, intra, slots, removeAt)
    }

    constructor (v: PairingV)
      ensures View() == v
    {
      key, zoneA, zoneB, intra, slots, removeAt := v.key, v.zoneA, v.zoneB, v.intra, v.slots, v.removeAt;
    }

    /** A deep copy; slots are values. */
    method Clone() returns (c: Pairing)
      ensures fresh(c) && c.View() == View()
    {
      c := new Pairing(PairingV(key, zoneA, zoneB, intra, slots, removeAt));
    }
  }

  /** What one run reports. */
  class Delta {
    var added: seq<string>
    var removed: seq<string>
    var supers: seq<string>
    var sides: seq<SideChange>

    constructor ()
      ensures added == [] && removed == [] && supers == [] && sides == []
    {
      added, removed, supers, sides := [], [], [], [];
    }
  }

  ghost predicate Keyed(m: map<string, Pairing>) {
    forall k :: k in m ==> m[k].key == k
  }

  ghost function Views(m: map<string, Pairing>): (v: map<string, PairingV>)
    reads m.Values
    ensures v.Keys == m.Keys && forall k :: k in m ==> v[k] == m[k].View()
  {
    map k | k in m :: m[k].View()
  }

  /** What a map of objects holds under a key. */
  ghost function ViewAt(m: map<string, Pairing>, k: string): Option<PairingV>
    reads m.Values
  {
    if k in m then Some(m[k].View()) else None
  }

  /** The persisted assignment. */
  class State {
    const zoneRule: string
    const slotsConfig: Option<SlotsPrint>
    var pairings: map<string, Pairing>
    var superHosts: map<string, seq<string>>

    /** Every pairing is stored under its own key, so no two entries share an object. */
    ghost predicate Valid()
      reads this, pairings.Values
    {
      Keyed(pairings)
    }

    ghost function View(): StateV
      reads this, pairings.Values
    {
      StateV(zoneRule, slotsConfig, Views(pairings), superHosts)
    }

    constructor (zoneRule: string, slotsConfig: Option<SlotsPrint>)
      ensures Valid() && View() == EmptyState(zoneRule, slotsConfig) && pairings == map[]
    {
      this.zoneRule, this.slotsConfig, pairings, superHosts := zoneRule, slotsConfig, map[], map[];
    }

    lemma Copied(s: State, v: map<string, PairingV>)
      requires v == Views(s.pairings) && pairings.Keys == v.Keys
      requires forall k :: k in pairings ==> pairings[k].View() == v[k]
      requires superHosts == s.superHosts && zoneRule == s.zoneRule && slotsConfig == s.slotsConfig
      ensures View() == s.View() && (s.Valid() ==> Valid())
    {
      forall k | k in pairings ensures pairings[k].key == s.pairings[k].key {
        assert pairings[k].View().key == s.pairings[k].View().key;
      }
      assert Views(pairings) == v;
    }

    /** A copy that shares no object with this state, so that a run on it cannot change
        its input. */
    method Clone() returns (c: State)
      ensures fresh(c) && fresh(c.pairings.Values) && c.View() == View()
      ensures Valid() ==> c.Valid()
    {
      hide State.Valid, Keyed, Views, Pairing.View;
      ghost var v := Views(pairings);
      var copies: map<string, Pairing> := map[];
      var todo := pairings.Keys;
      while todo != {}
        invariant todo <= pairings.Keys && copies.Keys == pairings.Keys - todo
        invariant forall k :: k in copies ==> fresh(copies[k]) && copies[k].View() == v[k]
      {
        var k :| k in todo;
        var p := pairings[k].Clone();
        copies := copies[k := p];
        todo := todo - {k};
      }
      c := new State(zoneRule, slotsConfig);
      c.superHosts, c.pairings := superHosts, copies;
      c.Copied(this, v);
    }
  }

  // ---------- resize ----------

  lemma FlattenStep(chunks: seq<seq<SideChange>>, n: nat)
    requires n < |chunks|
    ensures Flatten(chunks[..n + 1]) == Flatten(chunks[..n]) + chunks[n]
  {
    assert chunks[..n + 1][..n] == chunks[..n];
  }

  lemma FlattenAll(chunks: seq<seq<SideChange>>)
    ensures Flatten(chunks[..|chunks|]) == Flatten(chunks)
  {
    assert chunks[..|chunks|] == chunks;
  }

  /** Separates base and super slots, pads or truncates the base slots to the layout, and
      empties every slot whose class changed. */
  method ResizeSlots(p: Pairing, l: Layout, d: Delta)
    modifies p`slots, d`sides
    ensures p.slots == Resize(old(p.slots), l)
    ensures d.sides == old(d.sides) + ResizeLog(p.key, old(p.slots), l)
  {
    hide Reclass, Layout.ClassAt, BothCleared, Flatten;
    var all := p.slots;
    var base: seq<Slot> := [];
    var supers: seq<Slot> := [];
    for n := 0 to |all|
      invariant base == NonSuper(all[..n]) && supers == Supers(all[..n])
    {
      assert all[..n + 1][..n] == all[..n];
      if all[n].cls == Super { supers := supers + [all[n]]; } else { base := base + [all[n]]; }
    }
    assert all[..|all|] == all;
    hide NonSuper, Supers;
    ghost var base0 := base;
    while |base| < l.total
      invariant |base0| <= |base| && (|base| > |base0| ==> |base| <= l.total)
      invariant forall i :: 0 <= i < |base| ==> base[i] == BaseAt(base0, i)
    {
      base := base + [Slot(|base|, Unset, EMPTY, EMPTY, "")];
    }
    DropBeyond(p.key, base0, base, l.total, d);
    base := base[..l.total];
    ghost var chunks := ReclassChunks(p.key, base0, l);
    ghost var before := d.sides;
    FlattenNone();
    for i := 0 to l.total
      invariant |base| == l.total
      invariant forall n :: 0 <= n < i ==> base[n] == Reclass(BaseAt(base0, n), n, l.ClassAt(n))
      invariant forall n :: i <= n < l.total ==> base[n] == BaseAt(base0, n)
      invariant d.sides == before + Flatten(chunks[..i])
    {
      FlattenStep(chunks, i);
      var s := base[i];
      d.sides := d.sides + ReclassChunk(p.key, s, i, l.ClassAt(i));
      base := base[i := Reclass(s, i, l.ClassAt(i))];
    }
    FlattenAll(chunks);
    assert base == seq(l.total, i requires 0 <= i => Reclass(BaseAt(base0, i), i, l.ClassAt(i)));
    p.slots := base + supers;
  }

  lemma FlattenNone()
    ensures Flatten([]) == []
  {}

  /** Reports the hosts of the base slots that the layout has no room for. */
  method DropBeyond(key: string, ghost base0: seq<Slot>, base: seq<Slot>, total: nat, d: Delta)
    requires |base| >= total && (|base| > total ==> base == base0) && |base| >= |base0|
    modifies d`sides
    ensures d.sides == old(d.sides) + Flatten(DropChunks(key, base0, total))
  {
    hide BothCleared, Flatten;
    ghost var chunks := DropChunks(key, base0, total);
    FlattenNone();
    for n := total to |base|
      invariant n - total <= |chunks|
      invariant d.sides == old(d.sides) + Flatten(chunks[..n - total])
    {
      FlattenStep(chunks, n - total);
      d.sides := d.sides + BothCleared(key, base[n], base[n].index, base[n].cls, ClassChanged);
    }
    FlattenAll(chunks);
  }

  // ---------- validate ----------

  /** Clears one side when its host is gone, ineligible or in another zone. */
  method CheckSide(e: Env, p: Pairing, i: nat, side: Side, d: Delta, ghost v: PairingV)
    requires i < |p.slots| && v.key == p.key && v.zoneA == p.zoneA && v.zoneB == p.zoneB
    modifies p`slots, d`sides
    ensures var s := old(p.slots[i]);
            p.slots == old(p.slots)[i := s.SetSeat(side, CheckSeat(e, s.Seat(side), v.Zone(side)))]
    ensures d.sides == old(d.sides) + CheckEntry(e, v, old(p.slots[i]), side)
  {
    var s := p.slots[i];
    var id := s.Host(side);
    var want := if side == SideB then p.zoneB else p.zoneA;
    if id == "" { assert p.slots == p.slots[i := s]; return; }
    var reason := None;
    if id !in e.hosts { reason := Some(HostGone); }
    else if id !in e.eligible { reason := Some(HostUnhealthy); }
    else if id !in e.hostZone || e.hostZone[id] != want { reason := Some(ZoneChanged); }
    if reason == None { assert p.slots == p.slots[i := s]; return; }
    d.sides := d.sides + [SideChange(p.key, s.index, side, s.cls, id, "", reason.value, Unfilled)];
    p.slots := p.slots[i := s.SetSeat(side, EMPTY)];
  }

  /** Checks both sides of every slot of one pairing, unless it waits for removal. */
  method ValidatePairing(e: Env, p: Pairing, d: Delta)
    modifies p`slots, d`sides
    ensures p.View() == ValidateOne(e, old(p.View()))
    ensures d.sides == old(d.sides) + ValidateLog(e, old(p.View()))
  {
    if p.removeAt.Some? { return; }
    hide CheckSlot, CheckEntry, Flatten, CheckedUpTo, Validate, ValidateChunks;
    ghost var v := p.View();
    ghost var chunks := ValidateChunks(e, v);
    FlattenNone();
    NoneChecked(e, v);
    for i := 0 to |p.slots|
      invariant CheckedUpTo(e, v, p.slots, i)
      invariant d.sides == old(d.sides) + Flatten(chunks[..i])
    {
      OneMoreChecked(e, v, p.slots, i);
      FlattenStep(chunks, i);
      CheckBoth(e, p, i, d, v);
    }
    AllChecked(e, v, p.slots);
    FlattenAll(chunks);
  }

  /** The first n slots are checked, the others are as they were. */
  ghost predicate CheckedUpTo(e: Env, v: PairingV, slots: seq<Slot>, n: nat) {
    && |slots| == |v.slots| >= n
    && (forall i :: 0 <= i < n ==> slots[i] == CheckSlot(e, v, v.slots[i]))
    && (forall i :: n <= i < |slots| ==> slots[i] == v.slots[i])
  }

  lemma NoneChecked(e: Env, v: PairingV)
    ensures CheckedUpTo(e, v, v.slots, 0)
  {}

  lemma OneMoreChecked(e: Env, v: PairingV, slots: seq<Slot>, n: nat)
    requires n < |slots| && CheckedUpTo(e, v, slots, n)
    ensures slots[n] == v.slots[n] && CheckedUpTo(e, v, slots[n := CheckSlot(e, v, slots[n])], n + 1)
    ensures n < |ValidateChunks(e, v)|
    ensures ValidateChunks(e, v)[n] == CheckEntry(e, v, slots[n], SideA) + CheckEntry(e, v, slots[n], SideB)
  {
    hide CheckSlot, CheckEntry;
  }

  lemma AllChecked(e: Env, v: PairingV, slots: seq<Slot>)
    requires CheckedUpTo(e, v, slots, |slots|)
    ensures slots == Validate(e, v) && |ValidateChunks(e, v)| == |slots|
  {
    hide CheckSlot, CheckEntry;
  }

  /** Checks both sides of one slot; neither check looks at the other side. */
  method CheckBoth(e: Env, p: Pairing, i: nat, d: Delta, ghost v: PairingV)
    requires i < |p.slots| && v.key == p.key && v.zoneA == p.zoneA && v.zoneB == p.zoneB
    modifies p`slots, d`sides
    ensures p.slots == old(p.slots)[i := CheckSlot(e, v, old(p.slots[i]))]
    ensures d.sides == old(d.sides)
              + (CheckEntry(e, v, old(p.slots[i]), SideA) + CheckEntry(e, v, old(p.slots[i]), SideB))
  {
    hide CheckSeat, CheckEntry;
    CheckSide(e, p, i, SideA, d, v);
    CheckSame(e, v, old(p.slots[i]), p.slots[i]);
    CheckSide(e, p, i, SideB, d, v);
  }

  /** Clearing side A does not change what is reported for side B. */
  lemma CheckSame(e: Env, v: PairingV, s: Slot, t: Slot)
    requires t == s.(a := t.a)
    ensures CheckEntry(e, v, s, SideB) == CheckEntry(e, v, t, SideB)
  {}

  // ---------- the change log of a pass over the map ----------

  /** `after` adds to `before` exactly the changes of the pairings already visited. */
  ghost predicate Logged(before: seq<SideChange>, after: seq<SideChange>, visited: set<string>, ch: map<string,
                         multiset<SideChange>>) {
    forall c :: multiset(after)[c] == multiset(before)[c]
      + (if c.pairing in visited && c.pairing in ch then ch[c.pairing][c] else 0)
  }

  lemma LoggedStep(before: seq<SideChange>, mid: seq<SideChange>, after: seq<SideChange>, visited: set<string>,
                   k: string,
                   ch: map<string, multiset<SideChange>>)
    requires Logged(before, mid, visited, ch) && k !in visited && k in ch
    requires multiset(after) == multiset(mid) + ch[k]
    requires forall c :: c in ch[k] ==> c.pairing == k
    ensures Logged(before, after, visited + {k}, ch)
  {}

  lemma LoggedNone(s: seq<SideChange>, ch: map<string, multiset<SideChange>>)
    ensures Logged(s, s, {}, ch)
  {}

  /** Every change in a log belongs to pairing k. */
  ghost predicate Owned(log: seq<SideChange>, k: string) {
    forall c :: c in log ==> c.pairing == k
  }

  lemma {:induction false} FlattenOwned(chunks: seq<seq<SideChange>>, k: string)
    requires forall n :: 0 <= n < |chunks| ==> Owned(chunks[n], k)
    ensures Owned(Flatten(chunks), k)
  {
    if |chunks| > 0 { FlattenOwned(chunks[..|chunks| - 1], k); }
  }

  lemma ResizeOwned(k: string, slots: seq<Slot>, l: Layout)
    ensures Owned(ResizeLog(k, slots, l), k)
  {
    var base := NonSuper(slots);
    forall n | 0 <= n < |DropChunks(k, base, l.total)| ensures Owned(DropChunks(k, base, l.total)[n], k) {
      BothOwned(k, base[l.total + n], base[l.total + n].index, base[l.total + n].cls, ClassChanged);
    }
    forall n | 0 <= n < |ReclassChunks(k, base, l)| ensures Owned(ReclassChunks(k, base, l)[n], k) {
      BothOwned(k, BaseAt(base, n), n, l.ClassAt(n), ClassChanged);
    }
    FlattenOwned(DropChunks(k, base, l.total), k);
    FlattenOwned(ReclassChunks(k, base, l), k);
  }

  lemma BothOwned(k: string, s: Slot, i: int, cls: Class, reason: Reason)
    ensures Owned(BothCleared(k, s, i, cls, reason), k)
  {}

  lemma ValidateOwned(e: Env, p: PairingV)
    ensures Owned(ValidateLog(e, p), p.key)
  {
    hide Fault;
    FlattenOwned(ValidateChunks(e, p), p.key);
  }

  lemma DropSuperOwned(p: PairingV)
    ensures Owned(Flatten(DropSuperChunks(p)), p.key)
  {
    FlattenOwned(DropSuperChunks(p), p.key);
  }

  lemma {:induction false} RemovedOwned(key: string, ex: map<string, Slot>, ks: set<string>)
    requires ks <= ex.Keys
    ensures forall c :: c in RemovedBag(key, ex, ks) ==> c.pairing == key
    decreases ks
  {
    if ks != {} {
      var k :| k in ks;
      RemovedBagAny(key, ex, ks, k);
      RemovedOwned(key, ex, ks - {k});
    }
  }

  lemma SuperLogOwned(e: Env, sh: map<string, seq<string>>, p: PairingV)
    ensures forall c :: c in SuperLog(e, sh, p) ==> c.pairing == p.key
  {
    SuperChunksOwned(e, sh, p);
    var ex := Existing(Tail(p.slots, e.Layout().total));
    RemovedOwned(p.key, ex, ex.Keys - UsedKeys(SuperPaths(e, sh, p)));
    hide SuperChunks, SuperPaths, RemovedBag, Existing, Flatten, UsedKeys;
    var x := Flatten(SuperChunks(e, sh, p));
    assert forall c :: c in multiset(x) ==> c in x;
  }

  lemma SuperChunksOwned(e: Env, sh: map<string, seq<string>>, p: PairingV)
    ensures Owned(Flatten(SuperChunks(e, sh, p)), p.key)
  {
    hide SuperPaths, Existing;
    FlattenOwned(SuperChunks(e, sh, p), p.key);
  }

  lemma SuperOwned(e: Env, sh: map<string, seq<string>>, p: PairingV)
    ensures forall c :: c in SuperOneLog(e, sh, p) ==> c.pairing == p.key
  {
    DropSuperOwned(p);
    SuperLogOwned(e, sh, p);
    hide SuperLog, DropSuperChunks, Flatten;
    var x := Flatten(DropSuperChunks(p));
    assert forall c :: c in multiset(x) ==> c in x;
  }

  lemma FillOwned(e: Env, p: PairingV)
    ensures Owned(FillLog(e, p), p.key)
  {
    hide AnchorSeat, DiverseSeat;
    var fa := AnchorFill(e, p, p.slots, SideA);
    var fb := AnchorFill(e, p, fa.slots, SideB);
    AnchorOwned(e, p, p.slots, SideA);
    AnchorOwned(e, p, fa.slots, SideB);
    DiverseOwned(e, p, fb.slots, 2 * |fb.slots|);
    hide AnchorFill, DiverseFill;
  }

  lemma AnchorOwned(e: Env, p: PairingV, slots: seq<Slot>, side: Side)
    ensures Owned(AnchorFill(e, p, slots, side).log, p.key)
  {
    hide AnchorSeat;
    match AnchorSeat(e, p, slots, side)
    case None =>
    case Some(r) => FlattenOwned(AnchorChunks(p, slots, side, r.0, r.1), p.key);
  }

  lemma {:induction false} DiverseOwned(e: Env, p: PairingV, slots: seq<Slot>, j: nat)
    requires j <= 2 * |slots|
    ensures Owned(DiverseFill(e, p, slots, j).log, p.key)
  {
    hide DiverseSeat;
    if j > 0 { DiverseOwned(e, p, slots, j - 1); }
  }

  // ---------- validate, over the map ----------

  method ValidateSides(e: Env, next: State, d: Delta)
    requires next.Valid()
    modifies next.pairings.Values, d`sides
    ensures next.Valid()
    ensures ValidatedUpTo(e, next.pairings.Keys, old(Views(next.pairings)), Views(next.pairings))
    ensures Logged(old(d.sides), d.sides, next.pairings.Keys, ValidateLogs(e, old(Views(next.pairings))))
  {
    hide Logged, ValidateLogs, Views, ValidatedUpTo, State.Valid;
    ghost var v := Views(next.pairings);
    var todo := next.pairings.Keys;
    LoggedNone(d.sides, ValidateLogs(e, v));
    NoneValidated(e, v);
    assert v.Keys - todo == {};
    while todo != {}
      invariant todo <= v.Keys && next.Valid() && ValidatedUpTo(e, v.Keys - todo, v, Views(next.pairings))
      invariant Logged(old(d.sides), d.sides, v.Keys - todo, ValidateLogs(e, v))
    {
      var k :| k in todo;
      ghost var mid := d.sides;
      ValidateNext(e, k, next, d, v.Keys - todo, v);
      ValidateLogsAt(e, v, k);
      LoggedStep(old(d.sides), mid, d.sides, v.Keys - todo, k, ValidateLogs(e, v));
      assert v.Keys - (todo - {k}) == v.Keys - todo + {k};
      todo := todo - {k};
    }
    assert v.Keys - {} == v.Keys;
  }

  /** In `w` the pairings of `ks` are validated, the others are as in `v`. */
  ghost predicate ValidatedUpTo(e: Env, ks: set<string>, v: map<string, PairingV>, w: map<string, PairingV>) {
    w.Keys == v.Keys && forall k :: k in v ==> w[k] == if k in ks then ValidateOne(e, v[k]) else v[k]
  }

  lemma NoneValidated(e: Env, v: map<string, PairingV>)
    ensures ValidatedUpTo(e, {}, v, v)
  {
    hide ValidateOne;
  }

  /** Validates one more pairing. */
  method ValidateNext(e: Env, k: string, next: State, d: Delta, ghost ks: set<string>, ghost v: map<string, PairingV>)
    requires next.Valid() && k in v && k !in ks && ValidatedUpTo(e, ks, v, Views(next.pairings))
    modifies next.pairings.Values, d`sides
    ensures next.Valid() && ValidatedUpTo(e, ks + {k}, v, Views(next.pairings))
    ensures v[k].key == k && d.sides == old(d.sides) + ValidateLog(e, v[k])
  {
    hide ValidateOne, ValidateLog;
    ValidatePairing(e, next.pairings[k], d);
  }

  ghost function ValidateLogs(e: Env, v: map<string, PairingV>): map<string, multiset<SideChange>> {
    map k | k in v :: multiset(ValidateLog(e, v[k]))
  }

  lemma ValidateLogsAt(e: Env, v: map<string, PairingV>, k: string)
    requires k in v && v[k].key == k
    ensures k in ValidateLogs(e, v) && ValidateLogs(e, v)[k] == multiset(ValidateLog(e, v[k]))
    ensures forall c :: c in ValidateLogs(e, v)[k] ==> c.pairing == k
  {
    ValidateOwned(e, v[k]);
    hide ValidateLog;
  }

  // ---------- super slots ----------

  /** Removes every super slot of one pairing and reports the hosts they held. */
  method DropSuperSlots(p: Pairing, d: Delta)
    modifies p`slots, d`sides
    ensures p.slots == NonSuper(old(p.slots))
    ensures d.sides == old(d.sides) + Flatten(DropSuperChunks(old(p.View())))
  {
    hide BothCleared, Flatten;
    var all := p.slots;
    ghost var chunks := DropSuperChunks(p.View());
    FlattenNone();
    var kept: seq<Slot> := [];
    for n := 0 to |all|
      invariant kept == NonSuper(all[..n])
      invariant d.sides == old(d.sides) + Flatten(chunks[..n])
    {
      assert all[..n + 1][..n] == all[..n];
      FlattenStep(chunks, n);
      if all[n].cls != Super {
        kept := kept + [all[n]];
      } else {
        d.sides := d.sides + BothCleared(p.key, all[n], all[n].index, Super, SuperChanged);
      }
    }
    assert all[..|all|] == all;
    FlattenAll(chunks);
    p.slots := kept;
  }

  /** The targets of one super host, counted up to the maximum. */
  method CollectTargets(members: seq<string>, src: string, eligible: set<string>, max: int) returns (out: seq<string>)
    ensures out == Targets(members, src, eligible, max)
  {
    out := [];
    for n := 0 to |members|
      invariant out == Targets(members[..n], src, eligible, max)
    {
      assert members[..n + 1][..n] == members[..n];
      if |out| < max && members[n] != src && members[n] in eligible { out := out + [members[n]]; }
    }
    assert members[..|members|] == members;
  }

  /** One direction of the super paths of a pairing. */
  method CollectPaths(e: Env, srcs: seq<string>, far: string) returns (out: seq<Path>)
    ensures out == PathsFrom(e, srcs, far)
  {
    hide Targets;
    out := [];
    for n := 0 to |srcs|
      invariant out == PathsFrom(e, srcs[..n], far)
    {
      assert srcs[..n + 1][..n] == srcs[..n];
      if srcs[n] in e.eligible {
        var dsts := CollectTargets(e.Members(far), srcs[n], e.eligible, e.cfg.superMaxTargets);
        out := out + PathsOf(srcs[n], dsts);
      }
    }
    assert srcs[..|srcs|] == srcs;
  }

  method CollectSuperPaths(e: Env, sh: map<string, seq<string>>, p: Pairing) returns (ws: seq<Path>)
    ensures ws == SuperPaths(e, sh, p.View())
  {
    hide PathsFrom, Sort;
    ws := CollectPaths(e, HostsOf(sh, p.zoneA), p.zoneB);
    if p.zoneA != p.zoneB {
      var back := CollectPaths(e, HostsOf(sh, p.zoneB), p.zoneA);
      ws := Sort(ws + back, PathLe);
    } else {
      assert ws + [] == ws;
      ws := Sort(ws, PathLe);
    }
  }

  /** The super slots found in a table tail by lookup key. */
  method CollectExisting(tail: seq<Slot>) returns (ex: map<string, Slot>)
    ensures ex == Existing(tail)
  {
    ex := map[];
    for n := 0 to |tail|
      invariant ex == Existing(tail[..n])
    {
      assert tail[..n + 1][..n] == tail[..n];
      if tail[n].cls == Super { ex := ex[SuperKey(tail[n].a.host, tail[n].target) := tail[n]]; }
    }
    assert tail[..|tail|] == tail;
  }

  /** Reports the super slots that no wanted path uses, in the arbitrary order of the map. */
  method ReportRemoved(key: string, ex: map<string, Slot>, used: set<string>, d: Delta)
    modifies d`sides
    ensures multiset(d.sides) == old(multiset(d.sides)) + RemovedBag(key, ex, ex.Keys - used)
  {
    hide RemovedBag, SuperRemoved;
    ghost var start := multiset(d.sides);
    var todo := ex.Keys - used;
    while todo != {}
      invariant todo <= ex.Keys - used
      invariant multiset(d.sides) + RemovedBag(key, ex, todo) == start + RemovedBag(key, ex, ex.Keys - used)
    {
      var k :| k in todo;
      RemovedBagAny(key, ex, todo, k);
      d.sides := d.sides + SuperRemoved(key, ex[k]);
      todo := todo - {k};
    }
    RemovedBagNone(key, ex);
  }

  lemma RemovedBagNone(key: string, ex: map<string, Slot>)
    ensures RemovedBag(key, ex, {}) == multiset{}
  {}

  /** Builds the wanted super slots in order and reports the new ones. */
  method BuildSuper(e: Env, key: string, ex: map<string, Slot>, ws: seq<Path>, total: nat, d: Delta)
    returns (out: seq<Slot>)
    modifies d`sides
    ensures out == seq(|ws|, n requires 0 <= n < |ws| => SuperSlot(e, ex, ws[n], total + n))
    ensures d.sides == old(d.sides)
              + Flatten(seq(|ws|, n requires 0 <= n < |ws| => SuperChunk(key, ex, ws[n], total + n)))
  {
    hide Flatten, SuperChunk, SuperSlot;
    ghost var chunks := seq(|ws|, n requires 0 <= n < |ws| => SuperChunk(key, ex, ws[n], total + n));
    FlattenNone();
    out := [];
    for j := 0 to |ws|
      invariant |out| == j && forall n :: 0 <= n < j ==> out[n] == SuperSlot(e, ex, ws[n], total + n)
      invariant d.sides == old(d.sides) + Flatten(chunks[..j])
    {
      FlattenStep(chunks, j);
      out := out + [SuperSlot(e, ex, ws[j], total + j)];
      d.sides := d.sides + SuperChunk(key, ex, ws[j], total + j);
    }
    FlattenAll(chunks);
    assert out == seq(|ws|, n requires 0 <= n < |ws| => SuperSlot(e, ex, ws[n], total + n));
  }

  /** Rebuilds the super slots of one active pairing. */
  method RebuildSuper(e: Env, sh: map<string, seq<string>>, p: Pairing, d: Delta)
    modifies p`slots, d`sides
    ensures p.slots == SuperTable(e, sh, old(p.View()))
    ensures multiset(d.sides) == old(multiset(d.sides)) + SuperLog(e, sh, old(p.View()))
  {
    hide SuperPaths, Existing, Flatten, SuperChunk, SuperSlot, RemovedBag, ComputeLayout, UsedKeys;
    var total := e.Layout().total;
    var base := if |p.slots| < total then p.slots else p.slots[..total];
    var ex := CollectExisting(Tail(p.slots, total));
    var ws := CollectSuperPaths(e, sh, p);
    var out := BuildSuper(e, p.key, ex, ws, total, d);
    ghost var mid := d.sides;
    assert mid == old(d.sides) + Flatten(SuperChunks(e, sh, p.View()));
    ReportRemoved(p.key, ex, UsedKeys(ws), d);
    p.slots := base + out;
  }

  /** The super pass on one pairing. */
  method SuperPairing(e: Env, sh: map<string, seq<string>>, p: Pairing, d: Delta)
    modifies p`slots, d`sides
    ensures p.View() == SuperOne(e, sh, old(p.View()))
    ensures multiset(d.sides) == old(multiset(d.sides)) + SuperOneLog(e, sh, old(p.View()))
  {
    hide SuperTable, SuperLog, NonSuper, DropSuperChunks, Flatten;
    if e.cfg.superHosts <= 0 {
      DropSuperSlots(p, d);
    } else if p.removeAt == None {
      RebuildSuper(e, sh, p, d);
    }
  }

  /** Recomputes the super hosts of every zone and forgets zones that are gone. */
  method UpdateSuperHosts(e: Env, zones: seq<string>, next: State, d: Delta)
    requires Distinct(zones) && forall z :: z in zones <==> z in e.members
    requires d.supers == []
    modifies next`superHosts, d`supers
    ensures next.superHosts == NextSuperHosts(e, old(next.superHosts))
    ensures Distinct(d.supers) && forall z :: z in d.supers <==> z in SuperZonesChanged(e, old(next.superHosts))
  {
    hide Chosen;
    if e.cfg.superHosts <= 0 {
      DropAllZones(next, d);
    } else {
      ghost var before := next.superHosts;
      ChooseSuperHosts(e, zones, next, d);
      ghost var mid := next.superHosts;
      DropGoneZones(e, next, d);
      KeptZones(e, before, mid, next.superHosts);
    }
  }

  lemma KeptZones(e: Env, before: map<string, seq<string>>, mid: map<string, seq<string>>, after: map<string,
                  seq<string>>)
    requires e.cfg.superHosts > 0
    requires forall z :: z in mid <==> z in before || (z in e.members && Chosen(e, before, z) != [])
    requires forall z :: z in mid ==> mid[z] == if z in e.members then Chosen(e, before, z) else before[z]
    requires after == map z | z in mid && z in e.members :: mid[z]
    ensures after == NextSuperHosts(e, before)
    ensures forall z :: z in mid && z !in e.members <==> z in before && z !in e.members
  {
    hide Chosen;
  }

  /** Super testing switched off: every stored zone is reported and forgotten. */
  method DropAllZones(next: State, d: Delta)
    requires d.supers == []
    modifies next`superHosts, d`supers
    ensures next.superHosts == map[]
    ensures Distinct(d.supers) && forall z :: z in d.supers <==> z in old(next.superHosts)
  {
    var before := next.superHosts;
    var todo := before.Keys;
    while todo != {}
      invariant todo <= before.Keys && Distinct(d.supers)
      invariant forall z :: z in d.supers <==> z in before && z !in todo
    {
      var z :| z in todo;
      d.supers := d.supers + [z];
      todo := todo - {z};
    }
    next.superHosts := map[];
  }

  /** Forgets the zones that have no members any more. */
  method DropGoneZones(e: Env, next: State, d: Delta)
    requires Distinct(d.supers) && forall z :: z in d.supers ==> z in e.members
    modifies next`superHosts, d`supers
    ensures next.superHosts == map z | z in old(next.superHosts) && z in e.members :: old(next.superHosts)[z]
    ensures Distinct(d.supers)
    ensures forall z :: z in d.supers <==> z in old(d.supers) || (z in old(next.superHosts) && z !in e.members)
  {
    var mid := next.superHosts;
    var todo := mid.Keys;
    while todo != {}
      invariant todo <= mid.Keys && Distinct(d.supers)
      invariant next.superHosts == map z | z in mid && (z in todo || z in e.members) :: mid[z]
      invariant forall z :: z in d.supers <==> z in old(d.supers) || (z in mid && z !in e.members && z !in todo)
    {
      var z :| z in todo;
      if z !in e.members {
        next.superHosts := next.superHosts - {z};
        d.supers := d.supers + [z];
      }
      todo := todo - {z};
    }
  }

  /** The choice zone by zone; a zone whose choice is unchanged is left as it is. */
  method ChooseSuperHosts(e: Env, zones: seq<string>, next: State, d: Delta)
    requires e.cfg.superHosts > 0 && Distinct(zones) && (forall z :: z in zones <==> z in e.members)
    requires d.supers == []
    modifies next`superHosts, d`supers
    ensures var before := old(next.superHosts);
            && (forall z :: z in next.superHosts <==> z in before || (z in e.members && Chosen(e, before, z) != []))
            && (forall z :: z in next.superHosts ==>
                 next.superHosts[z] == if z in e.members then Chosen(e, before, z) else before[z])
    ensures Distinct(d.supers)
    ensures forall z :: z in d.supers <==>
              z in e.members && HostsOf(old(next.superHosts), z) != Chosen(e, old(next.superHosts), z)
  {
    hide ChosenUpTo;
    ghost var before := next.superHosts;
    NoneChosen(e, before);
    assert Elems(zones[..0]) == {};
    for n := 0 to |zones|
      invariant ChosenUpTo(e, before, Elems(zones[..n]), next.superHosts, d.supers)
    {
      ChooseNext(e, zones, n, next, d, before);
    }
    assert zones[..|zones|] == zones;
    ChosenMeans(e, before, Elems(zones), next.superHosts, d.supers);
  }

  ghost predicate Changed(e: Env, before: map<string, seq<string>>, z: string) {
    HostsOf(before, z) != Chosen(e, before, z)
  }

  /** Of the zones visited so far, those whose choice changed hold the new one and are
      reported; every other zone is as it was. */
  ghost predicate ChosenUpTo(e: Env, before: map<string, seq<string>>, done: set<string>, sh: map<string, seq<string>>,
                             supers: seq<string>) {
    && (forall z :: z in sh <==> z in before || (z in done && Changed(e, before, z)))
    && (forall z :: z in sh ==> sh[z] == if z in done && Changed(e, before, z) then Chosen(e, before, z) else before[z])
    && Distinct(supers)
    && (forall z :: z in supers <==> z in done && Changed(e, before, z))
  }

  lemma NoneChosen(e: Env, before: map<string, seq<string>>)
    ensures ChosenUpTo(e, before, {}, before, [])
  {
    hide Changed;
  }

  lemma ChosenMeans(e: Env, before: map<string, seq<string>>, zones: set<string>, sh: map<string, seq<string>>,
                    supers: seq<string>)
    requires ChosenUpTo(e, before, zones, sh, supers) && forall z :: z in zones <==> z in e.members
    ensures forall z :: z in sh <==> z in before || (z in e.members && Chosen(e, before, z) != [])
    ensures forall z :: z in sh ==> sh[z] == if z in e.members then Chosen(e, before, z) else before[z]
    ensures Distinct(supers) && forall z :: z in supers <==>
              z in e.members && HostsOf(before, z) != Chosen(e, before, z)
  {
    hide Chosen;
  }

  lemma ChosenChanged(e: Env, before: map<string, seq<string>>, done: set<string>, z: string, sh: map<string,
                      seq<string>>, supers: seq<string>)
    requires ChosenUpTo(e, before, done, sh, supers) && z !in done && Changed(e, before, z)
    ensures ChosenUpTo(e, before, done + {z}, sh[z := Chosen(e, before, z)], supers + [z])
  {
    hide Changed, Chosen;
    DistinctAppend(supers, z);
  }

  lemma ChosenSame(e: Env, before: map<string, seq<string>>, done: set<string>, z: string, sh: map<string,
                   seq<string>>, supers: seq<string>)
    requires ChosenUpTo(e, before, done, sh, supers) && z !in done && !Changed(e, before, z)
    ensures ChosenUpTo(e, before, done + {z}, sh, supers)
  {
    hide Changed, Chosen;
  }

  lemma NotYetChosen(e: Env, before: map<string, seq<string>>, done: set<string>, z: string, sh: map<string,
                     seq<string>>, supers: seq<string>)
    requires ChosenUpTo(e, before, done, sh, supers) && z !in done
    ensures HostsOf(sh, z) == HostsOf(before, z)
  {
    hide Changed, Chosen;
  }

  /** The choice of one more zone. */
  method ChooseNext(e: Env, zones: seq<string>, n: nat, next: State, d: Delta, ghost before: map<string, seq<string>>)
    requires n < |zones| && Distinct(zones) && ChosenUpTo(e, before, Elems(zones[..n]), next.superHosts, d.supers)
    modifies next`superHosts, d`supers
    ensures ChosenUpTo(e, before, Elems(zones[..n + 1]), next.superHosts, d.supers)
  {
    var z := zones[n];
    NextKey(zones, n);
    hide ChosenUpTo, PickSuper;
    NotYetChosen(e, before, Elems(zones[..n]), z, next.superHosts, d.supers);
    var chosen := PickSuperHosts(e.Members(z), e.matched, HostsOf(next.superHosts, z), e.eligible, e.cfg.superHosts);
    assert chosen == Chosen(e, before, z);
    hide Chosen;
    if HostsOf(next.superHosts, z) != chosen {
      ChosenChanged(e, before, Elems(zones[..n]), z, next.superHosts, d.supers);
      next.superHosts := next.superHosts[z := chosen];
      d.supers := d.supers + [z];
    } else {
      ChosenSame(e, before, Elems(zones[..n]), z, next.superHosts, d.supers);
    }
  }

  method UpdateSuper(e: Env, zones: seq<string>, next: State, d: Delta)
    requires next.Valid() && Distinct(zones) && (forall z :: z in zones <==> z in e.members) && d.supers == []
    modifies next`superHosts, next.pairings.Values, d`sides, d`supers
    ensures next.Valid() && next.superHosts == NextSuperHosts(e, old(next.superHosts))
    ensures Distinct(d.supers) && forall z :: z in d.supers <==> z in SuperZonesChanged(e, old(next.superHosts))
    ensures SuperedUpTo(e, next.superHosts, next.pairings.Keys, old(Views(next.pairings)), Views(next.pairings))
    ensures Logged(old(d.sides), d.sides, next.pairings.Keys, SuperLogs(e, next.superHosts, old(Views(next.pairings))))
  {
    hide Logged, SuperedUpTo, SuperLogs, Views, NextSuperHosts, SuperZonesChanged, Distinct, Keyed;
    UpdateSuperHosts(e, zones, next, d);
    SuperPass(e, next.superHosts, next, d);
  }

  /** Rebuilds the super slots of every pairing, visited in map order. */
  method SuperPass(e: Env, sh: map<string, seq<string>>, next: State, d: Delta)
    requires next.Valid()
    modifies next.pairings.Values, d`sides
    ensures next.Valid()
    ensures SuperedUpTo(e, sh, next.pairings.Keys, old(Views(next.pairings)), Views(next.pairings))
    ensures Logged(old(d.sides), d.sides, next.pairings.Keys, SuperLogs(e, sh, old(Views(next.pairings))))
  {
    hide *;
    ghost var v := Views(next.pairings);
    var todo := next.pairings.Keys;
    LoggedNone(d.sides, SuperLogs(e, sh, v));
    NoneSupered(e, sh, v);
    assert v.Keys - todo == {};
    while todo != {}
      invariant todo <= v.Keys && next.Valid() && SuperedUpTo(e, sh, v.Keys - todo, v, Views(next.pairings))
      invariant Logged(old(d.sides), d.sides, v.Keys - todo, SuperLogs(e, sh, v))
    {
      var k :| k in todo;
      ghost var mid := d.sides;
      SuperNext(e, sh, k, next, d, v.Keys - todo, v);
      SuperLogsAt(e, sh, v, k);
      LoggedStep(old(d.sides), mid, d.sides, v.Keys - todo, k, SuperLogs(e, sh, v));
      assert v.Keys - (todo - {k}) == v.Keys - todo + {k};
      todo := todo - {k};
    }
    assert v.Keys - {} == v.Keys;
  }

  /** In `w` the pairings of `ks` have their super slots rebuilt, the others are as in `v`. */
  ghost predicate SuperedUpTo(e: Env, sh: map<string, seq<string>>, ks: set<string>, v: map<string, PairingV>,
                              w: map<string, PairingV>) {
    w.Keys == v.Keys && forall k :: k in v ==> w[k] == if k in ks then SuperOne(e, sh, v[k]) else v[k]
  }

  lemma NoneSupered(e: Env, sh: map<string, seq<string>>, v: map<string, PairingV>)
    ensures SuperedUpTo(e, sh, {}, v, v)
  {
    hide SuperOne;
  }

  /** Rebuilds the super slots of one more pairing. */
  method SuperNext(e: Env, sh: map<string, seq<string>>, k: string, next: State, d: Delta, ghost ks: set<string>,
                   ghost v: map<string, PairingV>)
    requires next.Valid() && k in v && k !in ks && SuperedUpTo(e, sh, ks, v, Views(next.pairings))
    modifies next.pairings.Values, d`sides
    ensures next.Valid() && SuperedUpTo(e, sh, ks + {k}, v, Views(next.pairings))
    ensures v[k].key == k && multiset(d.sides) == old(multiset(d.sides)) + SuperOneLog(e, sh, v[k])
  {
    hide SuperOne, SuperOneLog;
    SuperPairing(e, sh, next.pairings[k], d);
  }

  ghost function SuperLogs(e: Env, sh: map<string, seq<string>>, v: map<string, PairingV>): map<string,
                           multiset<SideChange>> {
    map k | k in v :: SuperOneLog(e, sh, v[k])
  }

  lemma SuperLogsAt(e: Env, sh: map<string, seq<string>>, v: map<string, PairingV>, k: string)
    requires k in v && v[k].key == k
    ensures k in SuperLogs(e, sh, v) && SuperLogs(e, sh, v)[k] == SuperOneLog(e, sh, v[k])
    ensures forall c :: c in SuperLogs(e, sh, v)[k] ==> c.pairing == k
  {
    SuperOwned(e, sh, v[k]);
    hide SuperOneLog;
  }

  // ---------- fill ----------

  /** Filling reads the key, the zones and the kind of a pairing; none of them changes. */
  ghost predicate SameZones(p: Pairing, v: PairingV) {
    v.key == p.key && v.intra == p.intra && v.zoneA == p.zoneA && v.zoneB == p.zoneB
  }

  /** The recorded use counts are those of the table. */
  lemma CountsFollow(c: Candidates, before: multiset<string>, slots: seq<Slot>, i: nat, side: Side, seat: Seat)
    requires i < |slots| && slots[i].Host(side) == "" && c.Counts(Used(slots, side) + multiset{seat.host})
    ensures c.Counts(Used(slots[i := slots[i].SetSeat(side, seat)], side))
  {
    forall h | h != ""
      ensures Used(slots[i := slots[i].SetSeat(side, seat)], side)[h] == (Used(slots, side) + multiset{seat.host})[h]
    {
      UsedAfter(slots, i, side, seat, h);
    }
    hide Used;
  }

  /** Counts the hosts already held on one side. */
  method CountHeld(slots: seq<Slot>, side: Side, cand: Candidates)
    requires cand.useCount == map[]
    modifies cand
    ensures cand.Counts(Used(slots, side))
  {
    for n := 0 to |slots|
      invariant cand.Counts(Used(slots[..n], side))
    {
      var h := slots[n].Host(side);
      UsedPrefix(slots, n, side);
      hide Used;
      if h != "" { cand.Use(h, Used(slots[..n], side)); }
    }
    assert slots[..|slots|] == slots;
  }

  lemma UsedPrefix(slots: seq<Slot>, n: nat, side: Side)
    requires n < |slots|
    ensures Used(slots[..n + 1], side) == Used(slots[..n], side) + multiset{slots[n].Host(side)}
  {
    assert Column(slots[..n + 1], side) == Column(slots[..n], side) + [slots[n].Host(side)];
  }

  method FindAnchorHost(slots: seq<Slot>, side: Side) returns (host: string)
    ensures host == AnchorHost(slots, side)
  {
    host := "";
    for n := 0 to |slots|
      invariant host == AnchorHost(slots[..n], side)
    {
      assert slots[..n + 1][..n] == slots[..n];
      if host == "" && slots[n].cls == Anchor { host := slots[n].Host(side); }
    }
    assert slots[..|slots|] == slots;
  }

  method CollectAnchorExcl(p: Pairing, side: Side, ghost v: PairingV) returns (excl: set<string>)
    requires v.intra == p.intra
    ensures excl == AnchorExcl(v, p.slots, side)
  {
    excl := {};
    if !p.intra { return; }
    for n := 0 to |p.slots|
      invariant excl == set i | 0 <= i < n && p.slots[i].cls == Anchor
                  && p.slots[i].Host(side.Other()) != "" :: p.slots[i].Host(side.Other())
    {
      var s := p.slots[n];
      if s.cls == Anchor && s.Host(side.Other()) != "" { excl := excl + {s.Host(side.Other())}; }
    }
  }

  /** Gives every open anchor of one side the shared host, picking it first when no
      anchor holds one. */
  method FillAnchorSide(e: Env, p: Pairing, side: Side, cand: Candidates, d: Delta, ghost v: PairingV)
    requires e.Valid() && SameZones(p, v) && cand.hosts == Cand(e, v, side) && cand.Counts(Used(p.slots, side))
    modifies p`slots, d`sides, cand
    ensures var f := AnchorFill(e, v, old(p.slots), side);
            p.slots == f.slots && d.sides == old(d.sides) + f.log
    ensures cand.Counts(Used(p.slots, side))
  {
    CandOk(e, v, side);
    var host := FindAnchorHost(p.slots, side);
    var rank, reason := MinUse, AnchorReset;
    if host == "" {
      var excl := CollectAnchorExcl(p, side, v);
      host, rank := cand.PickForAnchors(StartOffset(e.hash, p.key, |cand.hosts|), excl, Used(p.slots, side));
      reason := NewSlot;
    }
    ghost var r := AnchorSeat(e, v, p.slots, side);
    if host == "" {
      assert r == None;
      return;
    }
    var seat := Seat(host, rank, Some(e.now));
    assert r == Some((seat, reason));
    SetAnchors(e, p, side, seat, reason, cand, d, v);
  }

  method SetAnchors(e: Env, p: Pairing, side: Side, seat: Seat, reason: Reason, cand: Candidates, d: Delta,
                    ghost v: PairingV)
    requires seat.host != "" && cand.Counts(Used(p.slots, side)) && SameZones(p, v)
    modifies p`slots, d`sides, cand
    ensures p.slots == seq(|old(p.slots)|, i requires 0 <= i < |old(p.slots)| =>
              if OpenAnchor(old(p.slots)[i], side) then old(p.slots)[i].SetSeat(side, seat) else old(p.slots)[i])
    ensures d.sides == old(d.sides) + Flatten(AnchorChunks(v, old(p.slots), side, seat, reason))
    ensures cand.Counts(Used(p.slots, side))
  {
    hide Flatten, Used;
    ghost var x := p.slots;
    ghost var chunks := AnchorChunks(v, x, side, seat, reason);
    FlattenNone();
    for i := 0 to |p.slots|
      invariant |p.slots| == |x|
      invariant forall n :: 0 <= n < i ==>
                  p.slots[n] == if OpenAnchor(x[n], side) then x[n].SetSeat(side, seat) else x[n]
      invariant forall n :: i <= n < |x| ==> p.slots[n] == x[n]
      invariant d.sides == old(d.sides) + Flatten(chunks[..i])
      invariant cand.Counts(Used(p.slots, side))
    {
      FlattenStep(chunks, i);
      var s := p.slots[i];
      if s.cls == Anchor && s.Host(side) == "" {
        ghost var y := p.slots;
        p.slots := p.slots[i := s.SetSeat(side, seat)];
        cand.Use(seat.host, Used(y, side));
        CountsFollow(cand, Used(y, side), y, i, side, seat);
        d.sides := d.sides + [SideChange(p.key, s.index, side, Anchor, "", seat.host, reason, seat.rank)];
      }
    }
    FlattenAll(chunks);
  }

  /** Fills one diverse side by the ranked scan. */
  method FillDiverseSide(e: Env, p: Pairing, i: nat, side: Side, cand: Candidates, d: Delta, ghost v: PairingV,
                         ghost j: nat)
    requires e.Valid() && i < |p.slots| && j / 2 == i && SideOf(j) == side
    requires SameZones(p, v) && cand.hosts == Cand(e, v, side) && cand.Counts(Used(p.slots, side))
    modifies p`slots, d`sides, cand
    ensures forall log0 :: var g := DiverseStep(e, v, Fill(old(p.slots), log0), j);
              g.slots == p.slots && |g.log| >= |log0| && g.log[..|log0|] == log0
                && d.sides == old(d.sides) + g.log[|log0|..]
    ensures cand.Counts(Used(p.slots, side)) && Used(p.slots, side.Other()) == Used(old(p.slots), side.Other())
  {
    CandOk(e, v, side);
    var s := p.slots[i];
    if s.cls != Diverse || s.Host(side) != "" { return; }
    var exclude: set<string> := {};
    if p.intra && s.Host(side.Other()) != "" { exclude := {s.Host(side.Other())}; }
    var id, rank := cand.PickDiverse(StartOffset(e.hash, p.key, |cand.hosts|), exclude, e.cfg.allowReuse,
        Used(p.slots, side));
    if id == "" { return; }
    var seat := Seat(id, rank, Some(e.now));
    assert DiverseSeat(e, v, p.slots, s, side) == Some(seat);
    ghost var y := p.slots;
    UsedAfter(y, i, side, seat, id);
    p.slots := p.slots[i := s.SetSeat(side, seat)];
    cand.Use(id, Used(y, side));
    CountsFollow(cand, Used(y, side), y, i, side, seat);
    d.sides := d.sides + [SideChange(p.key, s.index, side, s.cls, "", id, NewSlot, rank)];
  }

  /** Fills every diverse side of one pairing, side A before side B in each slot. */
  method FillDiverse(e: Env, p: Pairing, candA: Candidates, candB: Candidates, d: Delta, ghost v: PairingV)
    requires e.Valid() && candA != candB && SameZones(p, v)
    requires candA.hosts == Cand(e, v, SideA) && candA.Counts(Used(p.slots, SideA))
    requires candB.hosts == Cand(e, v, SideB) && candB.Counts(Used(p.slots, SideB))
    modifies p`slots, d`sides, candA, candB
    ensures var f := DiverseFill(e, v, old(p.slots), 2 * |old(p.slots)|);
            p.slots == f.slots && d.sides == old(d.sides) + f.log
  {
    hide DiverseStep, Used, Cand, Env.Valid;
    ghost var x := p.slots;
    for i := 0 to |p.slots|
      invariant |p.slots| == |x|
      invariant p.slots == DiverseFill(e, v, x, 2 * i).slots
      invariant d.sides == old(d.sides) + DiverseFill(e, v, x, 2 * i).log
      invariant candA.Counts(Used(p.slots, SideA)) && candB.Counts(Used(p.slots, SideB))
    {
      ghost var f0 := DiverseFill(e, v, x, 2 * i);
      FillDiverseSide(e, p, i, SideA, candA, d, v, 2 * i);
      ghost var f1 := DiverseFill(e, v, x, 2 * i + 1);
      assert f1 == DiverseStep(e, v, Fill(f0.slots, f0.log), 2 * i);
      assert d.sides == old(d.sides) + f1.log;
      FillDiverseSide(e, p, i, SideB, candB, d, v, 2 * i + 1);
      ghost var f2 := DiverseFill(e, v, x, 2 * i + 2);
      assert f2 == DiverseStep(e, v, Fill(f1.slots, f1.log), 2 * i + 1);
      assert d.sides == old(d.sides) + f2.log;
    }
  }

  /** Fills one active pairing: anchors of side A, anchors of side B, then diverse. */
  method FillPairing(e: Env, p: Pairing, d: Delta)
    requires e.Valid()
    modifies p`slots, d`sides
    ensures p.View() == FillOne(e, old(p.View()))
    ensures d.sides == old(d.sides) + FillLog(e, old(p.View()))
  {
    if p.removeAt.Some? { return; }
    hide FillTable, Used, Env.Valid;
    ghost var v := p.View();
    var membersA, membersB := e.Members(p.zoneA), e.Members(p.zoneB);
    var candA := new Candidates(p.zoneA, membersA, e.eligible);
    var candB := new Candidates(p.zoneB, membersB, e.eligible);
    CountHeld(p.slots, SideA, candA);
    CountHeld(p.slots, SideB, candB);
    FillWith(e, p, candA, candB, d, v);
  }

  /** The two anchor passes and the diverse pass with the counted candidates. */
  method FillWith(e: Env, p: Pairing, candA: Candidates, candB: Candidates, d: Delta, ghost v: PairingV)
    requires e.Valid() && candA != candB && v == p.View()
    requires candA.hosts == Cand(e, v, SideA) && candA.Counts(Used(p.slots, SideA))
    requires candB.hosts == Cand(e, v, SideB) && candB.Counts(Used(p.slots, SideB))
    modifies p`slots, d`sides, candA, candB
    ensures p.slots == FillTable(e, v).slots && d.sides == old(d.sides) + FillTable(e, v).log
  {
    hide AnchorFill, DiverseFill, Used, Env.Valid, Cand, Candidates.Counts;
    ghost var d0 := d.sides;
    FillAnchorSide(e, p, SideA, candA, d, v);
    ghost var fa := AnchorFill(e, v, v.slots, SideA);
    AnchorFillUsed(e, v, v.slots, SideA);
    assert Used(p.slots, SideB) == Used(v.slots, SideB);
    FillAnchorSide(e, p, SideB, candB, d, v);
    ghost var fb := AnchorFill(e, v, fa.slots, SideB);
    AnchorFillUsed(e, v, fa.slots, SideB);
    assert Used(p.slots, SideA) == Used(fa.slots, SideA);
    FillDiverse(e, p, candA, candB, d, v);
    ghost var fd := DiverseFill(e, v, fb.slots, 2 * |fb.slots|);
    assert d.sides == d0 + (fa.log + fb.log + fd.log);
  }

  /** Filling anchors on one side leaves the other column alone. */
  lemma AnchorFillUsed(e: Env, p: PairingV, slots: seq<Slot>, side: Side)
    ensures Used(AnchorFill(e, p, slots, side).slots, side.Other()) == Used(slots, side.Other())
  {
    AnchorFillKeepsOther(e, p, slots, side);
    hide AnchorFill;
    assert Column(AnchorFill(e, p, slots, side).slots, side.Other()) == Column(slots, side.Other());
  }

  // ---------- fill, over the map ----------

  /** Fills the active pairings in key order. */
  method FillSides(e: Env, next: State, d: Delta)
    requires e.Valid() && next.Valid()
    modifies next.pairings.Values, d`sides
    ensures next.Valid()
    ensures FilledUpTo(e, next.pairings.Keys, old(Views(next.pairings)), Views(next.pairings))
    ensures Logged(old(d.sides), d.sides, next.pairings.Keys, FillLogs(e, old(Views(next.pairings))))
  {
    hide Logged, FillOne, FillLog, FillLogs, Views, Env.Valid, FilledUpTo, Distinct, State.Valid, Keyed;
    ghost var v := Views(next.pairings);
    var keys := ActiveKeys(next);
    LoggedNone(d.sides, FillLogs(e, v));
    NoneFilled(e, v);
    assert Elems(keys[..0]) == {};
    for n := 0 to |keys|
      invariant next.Valid() && FilledUpTo(e, Elems(keys[..n]), v, Views(next.pairings))
      invariant Logged(old(d.sides), d.sides, Elems(keys[..n]), FillLogs(e, v))
    {
      ghost var mid := d.sides;
      NextKey(keys, n);
      FillNext(e, keys[n], next, d, Elems(keys[..n]), v);
      FillLogsAt(e, v, keys[n]);
      LoggedStep(old(d.sides), mid, d.sides, Elems(keys[..n]), keys[n], FillLogs(e, v));
    }
    assert keys[..|keys|] == keys;
    RestInactive(e, v, Elems(keys));
    FillLogsRest(e, v, old(d.sides), d.sides, Elems(keys));
    FilledRest(e, Elems(keys), v, Views(next.pairings));
  }

  lemma NextKey(keys: seq<string>, n: nat)
    requires n < |keys| && Distinct(keys)
    ensures keys[n] !in Elems(keys[..n]) && keys[n] in keys
    ensures Elems(keys[..n + 1]) == Elems(keys[..n]) + {keys[n]}
  {
    assert keys[..n + 1] == keys[..n] + [keys[n]];
  }

  /** In `w` the pairings of `ks` are filled, the others are as in `v`. */
  ghost predicate FilledUpTo(e: Env, ks: set<string>, v: map<string, PairingV>, w: map<string, PairingV>) {
    w.Keys == v.Keys && forall k :: k in v ==> w[k] == if k in ks then FillOne(e, v[k]) else v[k]
  }

  lemma NoneFilled(e: Env, v: map<string, PairingV>)
    ensures FilledUpTo(e, {}, v, v)
  {
    hide FillOne;
  }

  /** Filling the pairings that were not visited would change nothing. */
  lemma FilledRest(e: Env, ks: set<string>, v: map<string, PairingV>, w: map<string, PairingV>)
    requires FilledUpTo(e, ks, v, w) && forall k :: k in v && k !in ks ==> FillOne(e, v[k]) == v[k]
    ensures FilledUpTo(e, w.Keys, v, w)
  {
    hide FillOne;
  }

  /** Fills one more pairing. */
  method FillNext(e: Env, k: string, next: State, d: Delta, ghost ks: set<string>, ghost v: map<string, PairingV>)
    requires e.Valid() && next.Valid() && k in next.pairings && k !in ks && FilledUpTo(e, ks, v, Views(next.pairings))
    modifies next.pairings.Values, d`sides
    ensures next.Valid() && FilledUpTo(e, ks + {k}, v, Views(next.pairings))
    ensures k in v && v[k].key == k && d.sides == old(d.sides) + FillLog(e, v[k])
  {
    hide FillOne, FillLog, Env.Valid;
    FillPairing(e, next.pairings[k], d);
  }

  /** The keys of the active pairings, sorted. */
  method ActiveKeys(next: State) returns (keys: seq<string>)
    ensures Distinct(keys)
    ensures forall k :: k in keys <==> k in next.pairings && Views(next.pairings)[k].Active()
  {
    hide Increasing;
    keys := SortedKeys(set k | k in next.pairings && next.pairings[k].removeAt == None);
    KeysDistinct(keys);
  }

  lemma RestInactive(e: Env, v: map<string, PairingV>, visited: set<string>)
    requires forall k :: k in v && v[k].Active() ==> k in visited
    ensures forall k :: k in v && k !in visited ==> FillOne(e, v[k]) == v[k] && multiset(FillLog(e, v[k])) == multiset{}
  {
    forall k | k in v && k !in visited ensures FillOne(e, v[k]) == v[k] && multiset(FillLog(e, v[k])) == multiset{} {
      InactiveFill(e, v[k]);
    }
  }

  lemma KeysDistinct(keys: seq<string>)
    requires Increasing(keys)
    ensures Distinct(keys)
  {
    IncreasingDistinct(keys);
  }

  lemma InactiveFill(e: Env, p: PairingV)
    requires !p.Active()
    ensures FillOne(e, p) == p && FillLog(e, p) == []
  {}

  ghost function FillLogs(e: Env, v: map<string, PairingV>): map<string, multiset<SideChange>> {
    map k | k in v :: multiset(FillLog(e, v[k]))
  }

  lemma FillLogsAt(e: Env, v: map<string, PairingV>, k: string)
    requires k in v && v[k].key == k
    ensures k in FillLogs(e, v) && FillLogs(e, v)[k] == multiset(FillLog(e, v[k]))
    ensures forall c :: c in FillLogs(e, v)[k] ==> c.pairing == k
  {
    FillOwned(e, v[k]);
    hide FillLog;
  }

  /** Pairings that were not visited have nothing to log. */
  lemma FillLogsRest(e: Env, v: map<string, PairingV>, before: seq<SideChange>, after: seq<SideChange>,
                     visited: set<string>)
    requires Logged(before, after, visited, FillLogs(e, v))
    requires forall k :: k in v && k !in visited ==> multiset(FillLog(e, v[k])) == multiset{}
    ensures Logged(before, after, v.Keys, FillLogs(e, v))
  {
    hide FillLog;
  }

  // ---------- diff ----------

  ghost function DiffLogs(e: Env, v: map<string, PairingV>): map<string, multiset<SideChange>> {
    map k | k in v.Keys + e.want.Keys :: multiset(DiffLog(e, k, Get(v, k)))
  }

  lemma DiffLogsAt(e: Env, v: map<string, PairingV>, k: string)
    requires k in v || k in e.want
    ensures k in DiffLogs(e, v) && DiffLogs(e, v)[k] == multiset(DiffLog(e, k, Get(v, k)))
    ensures forall c :: c in DiffLogs(e, v)[k] ==> c.pairing == k
  {
    if k in e.want { ResizeOwned(k, if k in v then v[k].slots else [], e.Layout()); }
    hide ResizeLog, ComputeLayout;
  }

  /** The wanted pairings as a list. A key may occur twice; its first record counts. */
  ghost predicate Lists(want: seq<PairWant>, e: Env) {
    && (forall i :: 0 <= i < |want| ==> want[i].key in e.want)
    && (forall i :: 0 <= i < |want| && (forall j :: 0 <= j < i ==> want[j].key != want[i].key) ==>
         e.want[want[i].key] == Wanted(want[i].zoneA, want[i].zoneB, want[i].intra))
    && (forall k :: k in e.want ==> exists i :: 0 <= i < |want| && want[i].key == k)
  }

  ghost function KeysUpTo(want: seq<PairWant>, n: nat): set<string>
    requires n <= |want|
  {
    set i | 0 <= i < n :: want[i].key
  }

  /** Creates or revives one wanted pairing. */
  method Revive(e: Env, w: PairWant, next: State, d: Delta)
    requires next.Valid() && w.key in e.want
    requires w.key !in next.pairings ==> e.want[w.key] == Wanted(w.zoneA, w.zoneB, w.intra)
    modifies next`pairings, next.pairings.Values, d`added, d`sides
    ensures next.Valid() && next.pairings.Keys == old(next.pairings.Keys) + {w.key}
    ensures fresh(next.pairings.Values - old(next.pairings.Values))
    ensures forall k :: ViewAt(next.pairings, k) ==
              if k == w.key then DiffOne(e, k, old(ViewAt(next.pairings, k))) else old(ViewAt(next.pairings, k))
    ensures d.added == if w.key in old(next.pairings) then old(d.added) else old(d.added) + [w.key]
    ensures d.sides == old(d.sides) + DiffLog(e, w.key, old(ViewAt(next.pairings, w.key)))
  {
    hide Resize, ResizeLog, ComputeLayout;
    ghost var cur := ViewAt(next.pairings, w.key);
    if w.key !in next.pairings {
      var p := new Pairing(Fresh(w.key, Wanted(w.zoneA, w.zoneB, w.intra)));
      next.pairings := next.pairings[w.key := p];
      d.added := d.added + [w.key];
    }
    RevivePairing(e, w.key, next.pairings[w.key], d, cur);
  }

  /** Erases the deadline of a wanted pairing and resizes its table. */
  method RevivePairing(e: Env, k: string, p: Pairing, d: Delta, ghost cur: Option<PairingV>)
    requires k in e.want && p.key == k && p.View() == (if cur.Some? then cur.value else Fresh(k, e.want[k]))
    modifies p`slots, p`removeAt, d`sides
    ensures Some(p.View()) == DiffOne(e, k, cur)
    ensures d.sides == old(d.sides) + DiffLog(e, k, cur)
  {
    hide Resize, ResizeLog, ComputeLayout;
    p.removeAt := None;
    var l := e.Layout();
    ResizeSlots(p, l, d);
  }

  /** The state of the first pass once the pairings of `ks` are visited: `v` and `log0` are
      the tables and the change log it started from. */
  ghost predicate RevivedSoFar(e: Env, ks: set<string>, v: map<string, PairingV>, log0: seq<SideChange>, next: State,
                               d: Delta)
    reads next, next.pairings.Values, d
  {
    && next.Valid() && next.pairings.Keys == v.Keys + ks
    && RevivedUpTo(e, ks, v, Views(next.pairings))
    && AddedIs(d.added, ks, v.Keys)
    && Logged(log0, d.sides, ks, DiffLogs(e, v))
  }

  lemma NothingRevived(e: Env, next: State, d: Delta)
    requires next.Valid() && d.added == []
    ensures RevivedSoFar(e, {}, Views(next.pairings), d.sides, next, d)
  {
    hide RevivedUpTo, AddedIs, Logged;
    NoneRevived(e, Views(next.pairings));
    NoneAdded(next.pairings.Keys);
    LoggedNone(d.sides, DiffLogs(e, Views(next.pairings)));
  }

  lemma AllRevived(e: Env, v: map<string, PairingV>, log0: seq<SideChange>, next: State, d: Delta)
    requires RevivedSoFar(e, e.want.Keys, v, log0, next, d)
    ensures next.Valid() && RevivedUpTo(e, e.want.Keys, v, Views(next.pairings))
              && AddedIs(d.added, e.want.Keys, v.Keys)
    ensures Logged(log0, d.sides, e.want.Keys, DiffLogs(e, v))
  {
    hide RevivedUpTo, AddedIs, Logged;
  }

  /** Creates and revives the wanted pairings in order. */
  method ReviveAll(e: Env, want: seq<PairWant>, next: State, d: Delta)
    requires next.Valid() && Lists(want, e) && d.added == []
    modifies next`pairings, next.pairings.Values, d`added, d`sides
    ensures next.Valid() && fresh(next.pairings.Values - old(next.pairings.Values))
    ensures RevivedUpTo(e, e.want.Keys, old(Views(next.pairings)), Views(next.pairings))
    ensures AddedIs(d.added, e.want.Keys, old(next.pairings.Keys))
    ensures Logged(old(d.sides), d.sides, e.want.Keys, DiffLogs(e, old(Views(next.pairings))))
  {
    hide RevivedSoFar, Logged, DiffLogs, Views, Lists, KeysUpTo, State.Valid, AddedIs, RevivedUpTo;
    ghost var v := Views(next.pairings);
    NothingRevived(e, next, d);
    KeysNone(want);
    ListsParts(want, e);
    for n := 0 to |want|
      invariant RevivedSoFar(e, KeysUpTo(want, n), v, old(d.sides), next, d)
      invariant fresh(next.pairings.Values - old(next.pairings.Values))
    {
      KeysStep(want, n);
      ReviveNext(e, want[n], next, d, KeysUpTo(want, n), v, old(d.sides));
    }
    KeysAll(want, e);
    AllRevived(e, v, old(d.sides), next, d);
  }

  /** Revives one more pairing; one that is listed again stays as it is. */
  method ReviveNext(e: Env, w: PairWant, next: State, d: Delta, ghost ks: set<string>, ghost v: map<string, PairingV>,
                    ghost log0: seq<SideChange>)
    requires w.key in e.want && (w.key !in ks ==> e.want[w.key] == Wanted(w.zoneA, w.zoneB, w.intra))
    requires RevivedSoFar(e, ks, v, log0, next, d)
    modifies next`pairings, next.pairings.Values, d`added, d`sides
    ensures RevivedSoFar(e, ks + {w.key}, v, log0, next, d)
    ensures fresh(next.pairings.Values - old(next.pairings.Values))
  {
    hide RevivedSoFar, RevivedUpTo, AddedIs, Logged, DiffLogs, ViewAt, DiffOne, DiffLog, Get, Keyed, Views, State.Valid;
    ghost var x, added, mid := Views(next.pairings), d.added, d.sides;
    SoFarMeans(e, ks, v, log0, next, d);
    ViewIsGet(next.pairings);
    Revive(e, w, next, d);
    ViewIsGet(next.pairings);
    if w.key in ks {
      RevivedAgain(e, w.key, ks, v, log0, x, added, mid, next, d);
    } else {
      RevivedMore(e, w.key, ks, v, log0, x, added, mid, next, d);
    }
  }

  lemma SoFarMeans(e: Env, ks: set<string>, v: map<string, PairingV>, log0: seq<SideChange>, next: State, d: Delta)
    requires RevivedSoFar(e, ks, v, log0, next, d)
    ensures next.Valid() && next.pairings.Keys == v.Keys + ks
    ensures RevivedUpTo(e, ks, v, Views(next.pairings)) && AddedIs(d.added, ks, v.Keys)
              && Logged(log0, d.sides, ks, DiffLogs(e, v))
  {}

  /** Diffing a pairing again changes and logs nothing. */
  lemma DiffTwice(e: Env, k: string, cur: Option<PairingV>)
    requires k in e.want
    ensures DiffOne(e, k, DiffOne(e, k, cur)) == DiffOne(e, k, cur) && DiffLog(e, k, DiffOne(e, k, cur)) == []
  {
    ResizeTwice(k, if cur.Some? then cur.value.slots else [], e.Layout());
    hide Resize, ResizeLog, ComputeLayout;
  }

  lemma RevivedAgain(e: Env, k: string, ks: set<string>, v: map<string, PairingV>, log0: seq<SideChange>,
                     x: map<string, PairingV>, added: seq<string>, mid: seq<SideChange>, next: State, d: Delta)
    requires k in e.want && k in ks && x.Keys == v.Keys + ks
    requires RevivedUpTo(e, ks, v, x) && AddedIs(added, ks, v.Keys) && Logged(log0, mid, ks, DiffLogs(e, v))
    requires next.Valid() && next.pairings.Keys == x.Keys + {k}
    requires forall j :: Get(Views(next.pairings), j) == if j == k then DiffOne(e, k, Get(x, k)) else Get(x, j)
    requires d.added == if k in x then added else added + [k]
    requires d.sides == mid + DiffLog(e, k, Get(x, k))
    ensures RevivedSoFar(e, ks + {k}, v, log0, next, d)
  {
    hide DiffOne, DiffLog, DiffLogs, Get, Keyed, AddedIs, Views, Logged;
    DiffTwice(e, k, Get(v, k));
    assert ks + {k} == ks;
    assert d.sides == mid;
  }

  lemma RevivedMore(e: Env, k: string, ks: set<string>, v: map<string, PairingV>, log0: seq<SideChange>,
                    x: map<string, PairingV>, added: seq<string>, mid: seq<SideChange>, next: State, d: Delta)
    requires k in e.want && k !in ks && x.Keys == v.Keys + ks
    requires RevivedUpTo(e, ks, v, x) && AddedIs(added, ks, v.Keys) && Logged(log0, mid, ks, DiffLogs(e, v))
    requires next.Valid() && next.pairings.Keys == x.Keys + {k}
    requires forall j :: Get(Views(next.pairings), j) == if j == k then DiffOne(e, k, Get(x, k)) else Get(x, j)
    requires d.added == if k in x then added else added + [k]
    requires d.sides == mid + DiffLog(e, k, Get(x, k))
    ensures RevivedSoFar(e, ks + {k}, v, log0, next, d)
  {
    hide DiffOne, DiffLog, DiffLogs, Get, Keyed, AddedIs, Views, Logged;
    AddedStep(added, d.added, ks, v.Keys, x.Keys, k);
    DiffLogsAt(e, v, k);
    LoggedStep(log0, mid, d.sides, ks, k, DiffLogs(e, v));
  }

  /** In `w` the pairings of `ks` are diffed, the others are as in `v`. */
  ghost predicate RevivedUpTo(e: Env, ks: set<string>, v: map<string, PairingV>, w: map<string, PairingV>) {
    forall k :: Get(w, k) == if k in ks then DiffOne(e, k, Get(v, k)) else Get(v, k)
  }

  lemma NoneRevived(e: Env, v: map<string, PairingV>)
    ensures RevivedUpTo(e, {}, v, v)
  {}

  /** The keys of `ks` that were not stored before, once each. */
  ghost predicate AddedIs(added: seq<string>, ks: set<string>, stored: set<string>) {
    Distinct(added) && forall k :: k in added <==> k in ks && k !in stored
  }

  lemma NoneAdded(stored: set<string>)
    ensures AddedIs([], {}, stored)
  {}

  lemma AddedStep(added: seq<string>, more: seq<string>, ks: set<string>, stored: set<string>, now: set<string>,
                  k: string)
    requires AddedIs(added, ks, stored) && k !in ks && now == stored + ks
    requires more == if k in now then added else added + [k]
    ensures AddedIs(more, ks + {k}, stored)
  {}

  lemma AddedMeans(added: seq<string>, ks: set<string>, stored: set<string>)
    requires AddedIs(added, ks, stored)
    ensures Distinct(added) && forall k :: k in added <==> k in ks && k !in stored
  {}

  lemma ViewIsGet(m: map<string, Pairing>)
    ensures forall k :: ViewAt(m, k) == Get(Views(m), k)
  {}

  lemma ListsParts(want: seq<PairWant>, e: Env)
    requires Lists(want, e)
    ensures forall i :: 0 <= i < |want| ==> want[i].key in e.want
    ensures forall i: nat :: i < |want| && want[i].key !in KeysUpTo(want, i) ==>
              e.want[want[i].key] == Wanted(want[i].zoneA, want[i].zoneB, want[i].intra)
  {
    forall i: nat | i < |want| && want[i].key !in KeysUpTo(want, i)
      ensures e.want[want[i].key] == Wanted(want[i].zoneA, want[i].zoneB, want[i].intra)
    {
      forall j | 0 <= j < i ensures want[j].key != want[i].key { assert want[j].key in KeysUpTo(want, i); }
    }
  }

  lemma KeysNone(want: seq<PairWant>)
    ensures KeysUpTo(want, 0) == {}
  {}

  lemma KeysStep(want: seq<PairWant>, n: nat)
    requires n < |want|
    ensures KeysUpTo(want, n + 1) == KeysUpTo(want, n) + {want[n].key}
  {}

  lemma KeysAll(want: seq<PairWant>, e: Env)
    requires Lists(want, e)
    ensures KeysUpTo(want, |want|) == e.want.Keys
  {}

  /** Marks one unwanted pairing, or deletes it past its deadline. */
  method ExpireOne(e: Env, k: string, next: State, d: Delta)
    requires next.Valid() && k in next.pairings && k !in e.want
    modifies next`pairings, next.pairings.Values, d`removed
    ensures next.pairings == old(next.pairings) || next.pairings == old(next.pairings) - {k}
    ensures forall j :: ViewAt(next.pairings, j) ==
              if j == k then DiffOne(e, k, old(ViewAt(next.pairings, k))) else old(ViewAt(next.pairings, j))
    ensures d.removed == old(d.removed) + if k in next.pairings then [] else [k]
  {
    hide Resize, ComputeLayout;
    var p := next.pairings[k];
    if p.removeAt == None {
      p.removeAt := Some(e.now + e.hold);
    } else if e.now >= p.removeAt.value {
      next.pairings := next.pairings - {k};
      d.removed := d.removed + [k];
    }
  }

  /** Marks the pairings that are no longer wanted and deletes those past their deadline,
      visited in map order. */
  method ExpireUnwanted(e: Env, next: State, d: Delta)
    requires next.Valid() && d.removed == []
    modifies next`pairings, next.pairings.Values, d`removed
    ensures next.Valid() && next.pairings.Values <= old(next.pairings.Values)
    ensures ExpiredUpTo(e, {}, old(Views(next.pairings)), Views(next.pairings))
    ensures RemovedIs(d.removed, old(next.pairings.Keys), next.pairings.Keys)
  {
    hide DiffOne, ExpiredUpTo, State.Valid, Keyed, Views, RemovedIs;
    ghost var m, v := next.pairings.Keys, Views(next.pairings);
    NoneRemoved(m);
    NoneExpired(e, v);
    var todo := next.pairings.Keys;
    while todo != {}
      invariant todo <= next.pairings.Keys <= m
      invariant next.Valid() && next.pairings.Values <= old(next.pairings.Values)
      invariant ExpiredUpTo(e, todo, v, Views(next.pairings))
      invariant RemovedIs(d.removed, m, next.pairings.Keys)
    {
      var k :| k in todo;
      if k !in e.want {
        ExpireNext(e, k, next, d, todo, v, m);
      } else {
        WantedSkipped(e, k, todo, v, Views(next.pairings));
      }
      todo := todo - {k};
    }
  }

  /** In `w` the unwanted pairings outside `todo` are diffed, the others are as in `v`. */
  ghost predicate ExpiredUpTo(e: Env, todo: set<string>, v: map<string, PairingV>, w: map<string, PairingV>) {
    forall k :: Get(w, k) == if k !in v || k in todo || k in e.want then Get(v, k) else DiffOne(e, k, Get(v, k))
  }

  lemma NoneExpired(e: Env, v: map<string, PairingV>)
    ensures ExpiredUpTo(e, v.Keys, v, v)
  {
    hide DiffOne;
  }

  lemma WantedSkipped(e: Env, k: string, todo: set<string>, v: map<string, PairingV>, w: map<string, PairingV>)
    requires ExpiredUpTo(e, todo, v, w) && k in e.want
    ensures ExpiredUpTo(e, todo - {k}, v, w)
  {
    hide DiffOne, Get;
  }

  /** The keys of `before` that are not in `after`, once each. */
  ghost predicate RemovedIs(removed: seq<string>, before: set<string>, after: set<string>) {
    Distinct(removed) && after <= before && forall k :: k in removed <==> k in before && k !in after
  }

  lemma NoneRemoved(m: set<string>)
    ensures RemovedIs([], m, m)
  {}

  lemma RemovedStep(removed: seq<string>, before: set<string>, after: set<string>, k: string)
    requires RemovedIs(removed, before, after) && k in after
    ensures RemovedIs(removed + [k], before, after - {k})
  {
    DistinctAppend(removed, k);
    hide Distinct;
  }

  /** Marks or deletes one more pairing. */
  method ExpireNext(e: Env, k: string, next: State, d: Delta, ghost todo: set<string>, ghost v: map<string, PairingV>,
                    ghost m: set<string>)
    requires next.Valid() && k in next.pairings && k !in e.want && k in todo && k in v
    requires ExpiredUpTo(e, todo, v, Views(next.pairings)) && RemovedIs(d.removed, m, next.pairings.Keys)
    modifies next`pairings, next.pairings.Values, d`removed
    ensures next.Valid() && (next.pairings == old(next.pairings) || next.pairings == old(next.pairings) - {k})
    ensures ExpiredUpTo(e, todo - {k}, v, Views(next.pairings)) && RemovedIs(d.removed, m, next.pairings.Keys)
  {
    hide DiffOne, ViewAt, Get, Views, RemovedIs;
    ViewIsGet(next.pairings);
    RemovedStep(d.removed, m, next.pairings.Keys, k);
    ExpireOne(e, k, next, d);
    assert d.removed == old(d.removed) || next.pairings.Keys == old(next.pairings.Keys) - {k};
    ViewIsGet(next.pairings);
  }

  /** In `w` every pairing of `v` and every wanted one is diffed. */
  ghost predicate DiffedTo(e: Env, v: map<string, PairingV>, w: map<string, PairingV>) {
    forall k :: Get(w, k) == DiffOne(e, k, Get(v, k))
  }

  lemma RevivedThenExpired(e: Env, v: map<string, PairingV>, w: map<string, PairingV>, x: map<string, PairingV>)
    requires RevivedUpTo(e, e.want.Keys, v, w) && ExpiredUpTo(e, {}, w, x)
    ensures DiffedTo(e, v, x) && (forall k :: k in e.want ==> k in w) && w.Keys == v.Keys + e.want.Keys
    ensures w.Keys - x.Keys == v.Keys - x.Keys
  {
    WantedStay(e);
    hide DiffOne;
    forall k ensures k in w <==> Get(w, k).Some? {}
    forall k ensures k in x <==> Get(x, k).Some? {}
  }

  lemma WantedStay(e: Env)
    ensures forall k, cur :: k in e.want ==> DiffOne(e, k, cur).Some?
    ensures forall k :: k !in e.want ==> DiffOne(e, k, None).None?
  {}

  lemma RemovedFromStored(removed: seq<string>, before: set<string>, more: set<string>, after: set<string>)
    requires RemovedIs(removed, more, after) && more - after == before - after
    ensures Distinct(removed) && forall k :: k in removed <==> k in before && k !in after
  {
    assert forall k :: k in removed <==> k in more - after;
  }

  method DiffPairings(e: Env, want: seq<PairWant>, next: State, d: Delta)
    requires next.Valid() && Lists(want, e) && d.added == [] && d.removed == []
    modifies next`pairings, next.pairings.Values, d`added, d`removed, d`sides
    ensures next.Valid() && fresh(next.pairings.Values - old(next.pairings.Values))
    ensures DiffedTo(e, old(Views(next.pairings)), Views(next.pairings))
    ensures Distinct(d.added) && forall k :: k in d.added <==> k in e.want && k !in old(next.pairings)
    ensures Distinct(d.removed) && forall k :: k in d.removed <==> k in old(next.pairings) && k !in next.pairings
    ensures Logged(old(d.sides), d.sides, old(next.pairings.Keys) + e.want.Keys, DiffLogs(e, old(Views(next.pairings))))
  {
    hide Logged, DiffOne, DiffLogs, Views, Distinct, Lists, State.Valid, Keyed, RevivedUpTo, ExpiredUpTo, DiffedTo,
         AddedIs, RemovedIs;
    ghost var v := Views(next.pairings);
    ReviveAll(e, want, next, d);
    ghost var w := Views(next.pairings);
    AddedMeans(d.added, e.want.Keys, v.Keys);
    UnwantedLogNothing(e, v, old(d.sides), d.sides);
    ExpireUnwanted(e, next, d);
    RevivedThenExpired(e, v, w, Views(next.pairings));
    RemovedFromStored(d.removed, v.Keys, w.Keys, next.pairings.Keys);
  }

  lemma UnwantedLogNothing(e: Env, v: map<string, PairingV>, before: seq<SideChange>, after: seq<SideChange>)
    requires Logged(before, after, e.want.Keys, DiffLogs(e, v))
    ensures Logged(before, after, v.Keys + e.want.Keys, DiffLogs(e, v))
  {
    hide ResizeLog;
  }
}
