/** Whole runs: the invariant over any sequence of reconciles, stickiness, the fixed
    point, and how completely the tables are filled. */
module Runs {
  import opened Base
  import opened Slots
  import opened Tables
  import opened Filling
  import opened Invariants
  import opened SuperSlots

  /** A stored pairing under the layout of this run. */
  ghost predicate StoredOk(e: Env, k: string, cur: Option<PairingV>) {
    cur.Some? ==>
      && PairingOk(k, cur.value, e.Layout().total)
      && (e.cfg.superHosts <= 0 ==> |cur.value.slots| == e.Layout().total)
  }

  // ---------- one step keeps the invariant ----------

  lemma StaleStep(e: Env, sh: map<string, seq<string>>, k: string, p: PairingV)
    requires k !in e.want && StoredOk(e, k, Some(p))
    ensures var r := StepOne(e, sh, k, Some(p));
            && (r.Some? ==> r.value == p.(removeAt := r.value.removeAt) && r.value.removeAt.Some?)
            && (r.None? <==> p.removeAt.Some? && e.now >= p.removeAt.value)
            && (r.Some? ==> r.value.removeAt == if p.removeAt.Some? then p.removeAt else Some(e.now + e.hold))
    ensures StepLog(e, sh, k, Some(p)) == multiset{}
  {
    hide NonSuper, DropSuperChunks, Flatten, Shaped, Consistent, SuperTable, SuperLog, FillTable, Validate,
         ValidateChunks,
         Resize, ResizeLog, ComputeLayout, SuperShape;
    var q := DiffOne(e, k, Some(p));
    if e.cfg.superHosts <= 0 && q.Some? { NoSupers(q.value, e.Layout().total); }
  }

  lemma NoSupers(p: PairingV, total: nat)
    requires |p.slots| == total && Shaped(p.slots, total)
    ensures NonSuper(p.slots) == p.slots && Flatten(DropSuperChunks(p)) == []
  {
    SplitShaped(p.slots, total);
    FlattenEmpty(DropSuperChunks(p));
  }

  lemma EstablishedOk(e: Env, k: string, p: PairingV)
    requires Established(e, k, p)
    ensures PairingOk(k, p, e.Layout().total)
  {}

  lemma StepKeeps(e: Env, sh: map<string, seq<string>>, k: string, cur: Option<PairingV>)
    requires e.Valid() && StoredOk(e, k, cur) && (cur.Some? || k in e.want)
    ensures var r := StepOne(e, sh, k, cur);
            r.Some? ==> StoredOk(e, k, r)
    ensures k in e.want ==> StepOne(e, sh, k, cur).Some? && Established(e, k, StepOne(e, sh, k, cur).value)
  {
    if k in e.want {
      StepEstablishes(e, sh, k, cur);
      hide StepOne, Established;
      EstablishedOk(e, k, StepOne(e, sh, k, cur).value);
    } else {
      StaleStep(e, sh, k, cur.value);
      hide StepOne;
      var r := StepOne(e, sh, k, cur);
      if r.Some? {
        assert r.value == cur.value.(removeAt := r.value.removeAt);
        ConsistentSameIntra(cur.value, r.value, r.value.slots);
      }
    }
  }

  lemma StartOk(e: Env, cur: Option<StateV>)
    requires cur.Some? ==> StateOk(cur.value)
    ensures var st := Start(e, cur);
            && StateOk(st) && st.slotsConfig == Some(Fingerprint(e.cfg)) && st.zoneRule == e.zoneFp
            && forall k :: StoredOk(e, k, Get(st.pairings, k))
  {
    FingerprintTotal(e.cfg);
    hide ComputeLayout, PairingOk;
  }

  /** The next state at one key. */
  lemma NextAt(e: Env, cur: Option<StateV>, k: string)
    ensures var st := Start(e, cur);
            var r := StepOne(e, NextSuperHosts(e, st.superHosts), k, Get(st.pairings, k));
            && (k in Next(e, cur).pairings <==> (k in st.pairings || k in e.want) && r.Some?)
            && (k in Next(e, cur).pairings ==> Next(e, cur).pairings[k] == r.value)
  {
    hide StepOne, Start, NextSuperHosts;
  }

  lemma NextPairingOk(e: Env, cur: Option<StateV>, k: string)
    requires e.Valid() && (cur.Some? ==> StateOk(cur.value))
    ensures k in Next(e, cur).pairings ==> StoredOk(e, k, Some(Next(e, cur).pairings[k]))
    ensures k in e.want ==> k in Next(e, cur).pairings && Established(e, k, Next(e, cur).pairings[k])
  {
    StartOk(e, cur);
    var st := Start(e, cur);
    NextAt(e, cur, k);
    hide Next, StepOne, Established, StateOk, Env.Valid, Start, NextSuperHosts, StoredOk;
    if k in st.pairings || k in e.want {
      StepKeeps(e, NextSuperHosts(e, st.superHosts), k, Get(st.pairings, k));
    }
  }

  lemma SuperHostsDistinct(st: StateV)
    requires StateOk(st)
    ensures forall z :: z in st.superHosts ==> Distinct(st.superHosts[z])
  {}

  lemma NextFields(e: Env, cur: Option<StateV>)
    requires cur.Some? ==> StateOk(cur.value)
    ensures var n := Next(e, cur);
            && n.zoneRule == e.zoneFp && n.slotsConfig == Some(Fingerprint(e.cfg))
            && (forall z :: z in n.superHosts ==> Distinct(n.superHosts[z]))
            && (e.cfg.superHosts <= 0 ==> n.superHosts == map[])
  {
    StartOk(e, cur);
    var st := Start(e, cur);
    SuperHostsDistinct(st);
    NextSuperHostsOk(e, st.superHosts);
    hide StepOne, Start, StateOk, Chosen, Env.Valid, Distinct, Env.Members;
  }

  /** The state invariant survives every run. */
  lemma NextOk(e: Env, cur: Option<StateV>)
    requires e.Valid() && (cur.Some? ==> StateOk(cur.value))
    ensures StateOk(Next(e, cur))
    ensures forall k :: k in e.want ==> k in Next(e, cur).pairings && Established(e, k, Next(e, cur).pairings[k])
  {
    hide Next, Established, PairingOk, ComputeLayout, Env.Valid, Distinct, StateOk;
    var n := Next(e, cur);
    NextFields(e, cur);
    forall k
      ensures k in n.pairings ==> StoredOk(e, k, Some(n.pairings[k]))
      ensures k in e.want ==> k in n.pairings && Established(e, k, n.pairings[k])
    {
      NextPairingOk(e, cur, k);
    }
    forall k | k in n.pairings
      ensures PairingOk(k, n.pairings[k], e.Layout().total)
      ensures e.cfg.superHosts <= 0 ==> |n.pairings[k].slots| == e.Layout().total
    {
      assert StoredOk(e, k, Some(n.pairings[k]));
    }
    StateOkFrom(e, n);
  }

  lemma StateOkFrom(e: Env, n: StateV)
    requires n.slotsConfig == Some(Fingerprint(e.cfg))
    requires forall z :: z in n.superHosts ==> Distinct(n.superHosts[z])
    requires e.cfg.superHosts <= 0 ==> n.superHosts == map[]
    requires forall k :: k in n.pairings ==> PairingOk(k, n.pairings[k], e.Layout().total)
    requires forall k :: k in n.pairings && e.cfg.superHosts <= 0 ==> |n.pairings[k].slots| == e.Layout().total
    ensures StateOk(n)
  {
    FingerprintTotal(e.cfg);
    hide PairingOk, Distinct, ComputeLayout;
  }

  /** The state after a sequence of runs that starts with no stored state. */
  function RunAll(es: seq<Env>): Option<StateV> {
    if |es| == 0 then None else Some(Next(es[|es| - 1], RunAll(es[..|es| - 1])))
  }

  lemma {:induction false} RunAllOk(es: seq<Env>)
    requires forall i :: 0 <= i < |es| ==> es[i].Valid()
    ensures RunAll(es).Some? ==> StateOk(RunAll(es).value)
  {
    if |es| > 0 {
      RunAllOk(es[..|es| - 1]);
      hide StateOk, Env.Valid, Next;
      assert es[|es| - 1].Valid();
      NextOk(es[|es| - 1], RunAll(es[..|es| - 1]));
    }
  }

  /** Run invariant: after any sequence of runs from an empty state, every active pairing
      has its base slots numbered by position and classed by the layout, every host held
      by a base slot is present, eligible and in its zone, the anchors of each side agree,
      and the sides of an intra-zone slot differ. */
  lemma RunInvariant(es: seq<Env>, k: string)
    requires |es| > 0 && forall i :: 0 <= i < |es| ==> es[i].Valid()
    requires k in RunAll(es).value.pairings && RunAll(es).value.pairings[k].Active()
    ensures var e, p := es[|es| - 1], RunAll(es).value.pairings[k];
            var t := e.Layout().total;
            && |p.slots| >= t
            && (forall i :: 0 <= i < |p.slots| ==> p.slots[i].index == i && (p.slots[i].cls == Super <==> i >= t))
            && (forall i :: 0 <= i < t ==> p.slots[i].cls == e.Layout().ClassAt(i))
            && (forall i :: 0 <= i < t ==>
                  && (p.slots[i].a.host != "" ==> e.OkHost(p.slots[i].a.host, p.zoneA))
                  && (p.slots[i].b.host != "" ==> e.OkHost(p.slots[i].b.host, p.zoneB)))
            && AnchorsAgree(p.slots, SideA) && AnchorsAgree(p.slots, SideB)
            && (p.intra ==> SidesApart(p.slots))
  {
    var n := |es| - 1;
    var e := es[n];
    RunAllOk(es[..n]);
    ActiveIsWanted(e, RunAll(es[..n]), k);
    NextOk(e, RunAll(es[..n]));
    hide Next, StateOk, Settled, ComputeLayout, AnchorsAgree, SidesApart;
    assert RunAll(es).value == Next(e, RunAll(es[..n]));
  }

  lemma ActiveIsWanted(e: Env, cur: Option<StateV>, k: string)
    requires cur.Some? ==> StateOk(cur.value)
    requires k in Next(e, cur).pairings && Next(e, cur).pairings[k].Active()
    ensures k in e.want
  {
    StartOk(e, cur);
    var st := Start(e, cur);
    if k !in e.want {
      StaleStep(e, NextSuperHosts(e, st.superHosts), k, st.pairings[k]);
    }
  }

  // ---------- one base slot through a run ----------

  function StoredSlots(cur: Option<PairingV>): seq<Slot> {
    if cur.Some? then cur.value.slots else []
  }

  /** What the four passes do to base slot i. */
  lemma SlotJourney(e: Env, sh: map<string, seq<string>>, k: string, cur: Option<PairingV>, i: nat)
    requires e.Valid() && k in e.want && CurOk(e, k, cur) && i < e.Layout().total
    ensures var x := BaseAt(StoredSlots(cur), i);
            var d, v, s, r := Diffed(e, k, cur), Validated(e, k, cur), Supered(e, sh, k, cur), StepOne(e, sh, k, cur);
            && r.Some? && |d.slots| > i && |v.slots| == |d.slots| && |s.slots| > i && |r.value.slots| == |s.slots|
            && d.slots[i] == Reclass(x, i, e.Layout().ClassAt(i))
            && v.slots[i] == CheckSlot(e, d, d.slots[i])
            && s.slots[i] == v.slots[i]
            && SlotGrown(e, s, s.slots[i], r.value.slots[i])
            && d.zoneA == s.zoneA == r.value.zoneA && d.zoneB == s.zoneB == r.value.zoneB && s.key == k
  {
    StepEstablishes(e, sh, k, cur);
    SuperedReady(e, sh, k, cur);
    DiffedSlot(e, k, cur, i);
    ValidatedSlot(e, k, cur, i);
    FillSame(e, Supered(e, sh, k, cur));
    hide FillOne, Resize, SuperTable, NonSuper, Established, Reclass, CheckSlot;
  }

  lemma DiffedSlot(e: Env, k: string, cur: Option<PairingV>, i: nat)
    requires e.Valid() && k in e.want && CurOk(e, k, cur) && i < e.Layout().total
    ensures var d := Diffed(e, k, cur);
            |d.slots| > i && d.slots[i] == Reclass(BaseAt(StoredSlots(cur), i), i, e.Layout().ClassAt(i))
  {
    ResizeMeaning(StoredSlots(cur), e.Layout());
    hide Resize, Reclass, ComputeLayout;
  }

  lemma ValidatedSlot(e: Env, k: string, cur: Option<PairingV>, i: nat)
    requires k in e.want && i < |Diffed(e, k, cur).slots|
    ensures var d, v := Diffed(e, k, cur), Validated(e, k, cur);
            |v.slots| == |d.slots| && v.slots[i] == CheckSlot(e, d, d.slots[i])
  {
    hide Resize, CheckSlot;
  }

  /** Stickiness: in a pairing that is still wanted, a base slot side whose class is the
      same and whose host is still present, eligible and in its zone keeps its host, its
      rank and its assignment time, whatever happens to the other side or other slots. */
  lemma Stickiness(e: Env, sh: map<string, seq<string>>, k: string, p: PairingV, i: nat, side: Side)
    requires e.Valid() && k in e.want && CurOk(e, k, Some(p)) && i < e.Layout().total
    requires p.slots[i].cls == e.Layout().ClassAt(i)
    requires p.slots[i].Host(side) != "" && e.OkHost(p.slots[i].Host(side), p.Zone(side))
    ensures var r := StepOne(e, sh, k, Some(p));
            r.Some? && i < |r.value.slots| && r.value.slots[i].Seat(side) == p.slots[i].Seat(side)
  {
    SlotJourney(e, sh, k, Some(p), i);
    hide StepOne, Diffed, Validated, Supered, ComputeLayout;
    var d := Diffed(e, k, Some(p));
    assert d.slots[i] == p.slots[i];
  }

  // ---------- fixed point ----------

  /** A table that a run with these inputs has nothing to do on. */
  ghost predicate Stable(e: Env, k: string, p: PairingV) {
    Established(e, k, p) && |p.slots| == e.Layout().total
  }

  lemma ValidateFixed(e: Env, p: PairingV)
    requires SeatsOk(e, p, p.slots) && forall i :: 0 <= i < |p.slots| ==> p.slots[i].cls != Super
    ensures Validate(e, p) == p.slots && Flatten(ValidateChunks(e, p)) == []
  {
    forall i | 0 <= i < |p.slots|
      ensures CheckSlot(e, p, p.slots[i]) == p.slots[i]
      ensures CheckEntry(e, p, p.slots[i], SideA) + CheckEntry(e, p, p.slots[i], SideB) == []
    {}
    assert Validate(e, p) == p.slots;
    FlattenEmpty(ValidateChunks(e, p));
  }

  lemma ShapedBase(slots: seq<Slot>, total: nat)
    requires Shaped(slots, total) && |slots| == total
    ensures forall i :: 0 <= i < |slots| ==> slots[i].cls != Super
  {}

  lemma StableFixed(e: Env, sh: map<string, seq<string>>, k: string, p: PairingV)
    requires e.Valid() && k in e.want && e.cfg.superHosts <= 0 && Stable(e, k, p)
    ensures StepOne(e, sh, k, Some(p)) == Some(p)
    ensures StepLog(e, sh, k, Some(p)) == multiset{}
  {
    hide Resize, ResizeLog, Validate, ValidateChunks, NonSuper, DropSuperChunks, FillTable, Flatten, StepOne, StepLog,
         Consistent, Settled, SeatsOk, Shaped, Classed, ComputeLayout, Env.Valid;
    ResizeFixed(k, p.slots, e.Layout());
    ShapedBase(p.slots, e.Layout().total);
    ValidateFixed(e, p);
    NoSupers(p, e.Layout().total);
    FillTableFixed(e, p);
    EstablishedActive(e, k, p);
    PassesFixed(e, sh, k, p);
  }

  lemma PassesFixed(e: Env, sh: map<string, seq<string>>, k: string, p: PairingV)
    requires k in e.want && e.cfg.superHosts <= 0 && p.Active() && p.key == k
    requires Resize(p.slots, e.Layout()) == p.slots && ResizeLog(k, p.slots, e.Layout()) == []
    requires Validate(e, p) == p.slots && Flatten(ValidateChunks(e, p)) == []
    requires NonSuper(p.slots) == p.slots && Flatten(DropSuperChunks(p)) == []
    requires FillTable(e, p) == Fill(p.slots, [])
    ensures StepOne(e, sh, k, Some(p)) == Some(p)
    ensures StepLog(e, sh, k, Some(p)) == multiset{}
  {
    hide Resize, ResizeLog, Validate, ValidateChunks, NonSuper, DropSuperChunks, FillTable, Flatten, ComputeLayout;
    assert p.(removeAt := None, slots := p.slots) == p;
    assert p.(slots := p.slots) == p;
  }

  lemma EstablishedActive(e: Env, k: string, p: PairingV)
    requires Established(e, k, p)
    ensures p.Active() && p.key == k
  {}

  ghost predicate NothingChanged(d: DeltaV) {
    d.added == {} && d.removed == {} && d.supers == {} && forall k :: k in d.sides ==> d.sides[k] == multiset{}
  }

  /** A run with nothing to do: every wanted pairing is stored and stable, and no other
      pairing is due for removal. */
  ghost predicate NothingToDo(e: Env, st: StateV) {
    && st.zoneRule == e.zoneFp && st.slotsConfig == Some(Fingerprint(e.cfg))
    && e.want.Keys <= st.pairings.Keys
    && (forall k :: k in e.want ==> Stable(e, k, st.pairings[k]))
    && (forall k :: k in st.pairings && k !in e.want && st.pairings[k].removeAt.Some? ==>
         e.now < st.pairings[k].removeAt.value)
  }

  /** Such a run reports nothing and changes nothing, except that it gives an unwanted
      pairing without a deadline one. */
  lemma QuietRun(e: Env, st: StateV)
    requires e.Valid() && e.cfg.superHosts <= 0 && StateOk(st) && NothingToDo(e, st)
    ensures NothingChanged(NextDelta(e, Some(st)))
    ensures var n := Next(e, Some(st));
            && n == st.(pairings := n.pairings) && n.pairings.Keys == st.pairings.Keys
            && forall k :: k in st.pairings ==> n.pairings[k] == Quiet(e, k, st.pairings[k])
  {
    hide *;
    QuietSteps(e, st);
    QuietStart(e, st);
    QuietState(e, st);
    QuietDelta(e, st);
  }

  ghost predicate QuietAt(e: Env, st: StateV, k: string)
    requires k in st.pairings
  {
    var sh := NextSuperHosts(e, st.superHosts);
    && StepLog(e, sh, k, Get(st.pairings, k)) == multiset{}
    && StepOne(e, sh, k, Get(st.pairings, k)) == Some(Quiet(e, k, st.pairings[k]))
    && DiffOne(e, k, Get(st.pairings, k)).Some?
  }

  lemma QuietSteps(e: Env, st: StateV)
    requires e.Valid() && e.cfg.superHosts <= 0 && StateOk(st) && NothingToDo(e, st)
    ensures e.want.Keys <= st.pairings.Keys && forall k :: k in st.pairings ==> QuietAt(e, st, k)
  {
    QuietStart(e, st);
    hide StepOne, StepLog, DiffOne, Quiet, Stable, StoredOk, StateOk, ComputeLayout, Env.Valid, Start, NextSuperHosts;
    forall k | k in st.pairings ensures QuietAt(e, st, k) {
      QuietStep(e, NextSuperHosts(e, st.superHosts), st, k);
    }
  }

  lemma QuietState(e: Env, st: StateV)
    requires e.want.Keys <= st.pairings.Keys && forall k :: k in st.pairings ==> QuietAt(e, st, k)
    requires Start(e, Some(st)) == st && NextSuperHosts(e, st.superHosts) == st.superHosts
    ensures var n := Next(e, Some(st));
            && n == st.(pairings := n.pairings) && n.pairings.Keys == st.pairings.Keys
            && forall k :: k in st.pairings ==> n.pairings[k] == Quiet(e, k, st.pairings[k])
  {
    hide StepOne, StepLog, DiffOne, Quiet, Start, NextSuperHosts;
    var n := Next(e, Some(st));
    assert st.pairings.Keys + e.want.Keys == st.pairings.Keys;
    forall k | k in st.pairings ensures k in n.pairings && n.pairings[k] == Quiet(e, k, st.pairings[k]) {
      assert QuietAt(e, st, k);
    }
    assert n.pairings.Keys == st.pairings.Keys;
  }

  lemma QuietDelta(e: Env, st: StateV)
    requires e.want.Keys <= st.pairings.Keys && forall k :: k in st.pairings ==> QuietAt(e, st, k)
    requires Start(e, Some(st)) == st && SuperZonesChanged(e, st.superHosts) == {}
    ensures NothingChanged(NextDelta(e, Some(st)))
  {
    hide StepOne, StepLog, DiffOne, Quiet, Start, NextSuperHosts, SuperZonesChanged;
    var d := NextDelta(e, Some(st));
    assert st.pairings.Keys + e.want.Keys == st.pairings.Keys;
    forall k | k in st.pairings ensures d.sides[k] == multiset{} && k !in d.removed { assert QuietAt(e, st, k); }
  }

  lemma QuietStart(e: Env, st: StateV)
    requires e.cfg.superHosts <= 0 && StateOk(st) && NothingToDo(e, st)
    ensures Start(e, Some(st)) == st
    ensures NextSuperHosts(e, st.superHosts) == st.superHosts && SuperZonesChanged(e, st.superHosts) == {}
    ensures forall k :: StoredOk(e, k, Get(st.pairings, k))
  {
    StartOk(e, Some(st));
    hide StoredOk, Stable, PairingOk;
  }

  /** What a run with nothing to do leaves of a pairing. */
  function Quiet(e: Env, k: string, p: PairingV): PairingV {
    if k in e.want || p.removeAt.Some? then p else p.(removeAt := Some(e.now + e.hold))
  }

  lemma QuietStep(e: Env, sh: map<string, seq<string>>, st: StateV, k: string)
    requires e.Valid() && e.cfg.superHosts <= 0 && NothingToDo(e, st) && k in st.pairings
    requires StoredOk(e, k, Get(st.pairings, k))
    ensures StepLog(e, sh, k, Get(st.pairings, k)) == multiset{}
    ensures StepOne(e, sh, k, Get(st.pairings, k)) == Some(Quiet(e, k, st.pairings[k]))
    ensures DiffOne(e, k, Get(st.pairings, k)).Some?
  {
    if k in e.want {
      StableFixed(e, sh, k, st.pairings[k]);
    } else {
      StaleStep(e, sh, k, st.pairings[k]);
    }
    hide StepLog, Stable, StoredOk, ComputeLayout, Env.Valid, FillOne, SuperOne, ValidateOne, Resize;
  }

  /** Fixed point: with super testing off and a positive removal hold, a second run with
      the same inputs at the same time changes nothing and reports nothing. */
  lemma Fixpoint(e: Env, cur: Option<StateV>)
    requires e.Valid() && e.cfg.superHosts <= 0 && e.hold > 0 && (cur.Some? ==> StateOk(cur.value))
    ensures var n := Next(e, cur);
            Next(e, Some(n)) == n && NothingChanged(NextDelta(e, Some(n)))
  {
    hide Next, NextDelta, StateOk, NothingToDo, NothingChanged, Env.Valid, Established;
    NextSettled(e, cur);
    NextOk(e, cur);
    var n := Next(e, cur);
    QuietRun(e, n);
    var m := Next(e, Some(n));
    forall k | k in n.pairings ensures m.pairings[k] == n.pairings[k] {
      assert k !in e.want ==> n.pairings[k].removeAt.Some?;
    }
    assert m.pairings == n.pairings;
  }

  lemma NextSettled(e: Env, cur: Option<StateV>)
    requires e.Valid() && e.cfg.superHosts <= 0 && e.hold > 0 && (cur.Some? ==> StateOk(cur.value))
    ensures NothingToDo(e, Next(e, cur))
    ensures forall k :: k in Next(e, cur).pairings && k !in e.want ==> Next(e, cur).pairings[k].removeAt.Some?
  {
    hide Next, Stable, ComputeLayout, StateOk, Env.Valid, Distinct;
    var n := Next(e, cur);
    NextFields(e, cur);
    forall k
      ensures k in e.want ==> k in n.pairings && Stable(e, k, n.pairings[k])
      ensures k in n.pairings && k !in e.want ==> n.pairings[k].removeAt.Some? && e.now < n.pairings[k].removeAt.value
    {
      NextPairingSettled(e, cur, k);
    }
  }

  lemma NextPairingSettled(e: Env, cur: Option<StateV>, k: string)
    requires e.Valid() && e.cfg.superHosts <= 0 && e.hold > 0 && (cur.Some? ==> StateOk(cur.value))
    ensures var n := Next(e, cur);
            && (k in e.want ==> k in n.pairings && Stable(e, k, n.pairings[k]))
            && (k in n.pairings && k !in e.want ==>
                 n.pairings[k].removeAt.Some? && e.now < n.pairings[k].removeAt.value)
  {
    NextPairingOk(e, cur, k);
    StartOk(e, cur);
    NextAt(e, cur, k);
    hide Next, Established, StateOk, ComputeLayout, PairingOk, Start, StepOne, Env.Valid;
    var st := Start(e, cur);
    if k !in e.want && k in st.pairings {
      assert StoredOk(e, k, Get(st.pairings, k));
      StaleStep(e, NextSuperHosts(e, st.superHosts), k, st.pairings[k]);
    }
  }

  /** Every side of every wanted pairing holds a host. */
  ghost predicate AllFilled(f: Env, n: StateV) {
    forall k, i :: k in f.want && k in n.pairings && 0 <= i < |n.pairings[k].slots| ==> n.pairings[k].slots[i].Filled()
  }

  /** The inputs of a later run over a grown inventory: the same configuration, every
      earlier host still present, eligible and in its zone, and no new pairing wanted. */
  ghost predicate GrownFrom(e: Env, f: Env) {
    && f.cfg == e.cfg && f.zoneFp == e.zoneFp && f.want.Keys <= e.want.Keys
    && e.hosts <= f.hosts && e.eligible <= f.eligible
    && forall h :: h in e.hostZone ==> h in f.hostZone && f.hostZone[h] == e.hostZone[h]
  }

  /** The pairing is wanted, has no deadline or is still before it. */
  predicate Remains(f: Env, k: string, p: PairingV) {
    k in f.want || p.removeAt.None? || f.now < p.removeAt.value
  }

  /** Growth: when every base side of the wanted pairings is filled and each held host is
      still valid, a run at any later time over more hosts and zones adds no pairing, changes
      no side and reports none; it removes exactly the pairings whose deadline has come, and
      every other keeps its table. */
  lemma GrowthChangesNothing(e: Env, cur: Option<StateV>, f: Env)
    requires e.Valid() && f.Valid() && e.cfg.superHosts <= 0 && (cur.Some? ==> StateOk(cur.value))
    requires GrownFrom(e, f) && AllFilled(f, Next(e, cur))
    ensures var n, m, d := Next(e, cur), Next(f, Some(Next(e, cur))), NextDelta(f, Some(Next(e, cur)));
            && d.added == {} && d.supers == {} && (forall k :: k in d.sides ==> d.sides[k] == multiset{})
            && d.removed == n.pairings.Keys - m.pairings.Keys
            && (forall k :: k in m.pairings <==> k in n.pairings && Remains(f, k, n.pairings[k]))
            && (forall k :: k in m.pairings ==> m.pairings[k].slots == n.pairings[k].slots)
  {
    hide *;
    var n := Next(e, cur);
    LaterStart(e, cur, f);
    forall k | k in n.pairings ensures KeptAt(f, n, k) { LaterAt(e, cur, f, k); }
    LaterRun(f, n);
  }

  /** What a later run does to one pairing: it logs nothing and keeps the table, unless the
      pairing is due. */
  ghost predicate KeptAt(f: Env, n: StateV, k: string)
    requires k in n.pairings
  {
    var sh, p := NextSuperHosts(f, n.superHosts), n.pairings[k];
    var r := StepOne(f, sh, k, Get(n.pairings, k));
    && StepLog(f, sh, k, Get(n.pairings, k)) == multiset{}
    && (r.Some? <==> Remains(f, k, p)) && (r.Some? ==> r.value.slots == p.slots)
    && (DiffOne(f, k, Get(n.pairings, k)).Some? <==> r.Some?)
  }

  lemma LaterStart(e: Env, cur: Option<StateV>, f: Env)
    requires e.Valid() && e.cfg.superHosts <= 0 && (cur.Some? ==> StateOk(cur.value)) && GrownFrom(e, f)
    ensures var n := Next(e, cur);
            Start(f, Some(n)) == n && SuperZonesChanged(f, n.superHosts) == {} && f.want.Keys <= n.pairings.Keys
  {
    NextFields(e, cur);
    forall k | k in f.want ensures k in Next(e, cur).pairings { NextPairingOk(e, cur, k); }
    hide Next, StateOk, Established;
  }

  lemma LaterAt(e: Env, cur: Option<StateV>, f: Env, k: string)
    requires e.Valid() && f.Valid() && e.cfg.superHosts <= 0 && (cur.Some? ==> StateOk(cur.value))
    requires GrownFrom(e, f) && AllFilled(f, Next(e, cur)) && k in Next(e, cur).pairings
    ensures KeptAt(f, Next(e, cur), k)
  {
    hide Next, Established, StateOk, ComputeLayout, Env.Valid, PairingOk, KeptAt, Slot.Filled;
    NextPairingOk(e, cur, k);
    if k in f.want { LaterWanted(e, f, Next(e, cur), k); } else { LaterUnwanted(f, Next(e, cur), k); }
  }

  lemma LaterWanted(e: Env, f: Env, n: StateV, k: string)
    requires f.Valid() && f.cfg.superHosts <= 0 && GrownFrom(e, f) && k in n.pairings && k in f.want
    requires Stable(e, k, n.pairings[k]) && forall i :: 0 <= i < |n.pairings[k].slots| ==>
               n.pairings[k].slots[i].Filled()
    ensures KeptAt(f, n, k)
  {
    hide StepOne, StepLog, DiffOne, Stable, Env.Valid, NextSuperHosts, Slot.Filled;
    var p := n.pairings[k];
    FullIsStable(e, f, k, p);
    StableFixed(f, NextSuperHosts(f, n.superHosts), k, p);
    WantedStays(f, k, p);
  }

  lemma WantedStays(e: Env, k: string, p: PairingV)
    ensures k in e.want ==> DiffOne(e, k, Some(p)).Some?
  {}

  lemma LaterUnwanted(f: Env, n: StateV, k: string)
    requires k in n.pairings && k !in f.want && StoredOk(f, k, Some(n.pairings[k]))
    ensures KeptAt(f, n, k)
  {
    hide StepOne, StepLog, StoredOk, NextSuperHosts;
    StaleStep(f, NextSuperHosts(f, n.superHosts), k, n.pairings[k]);
  }

  /** Assembles a later run from its pairings. */
  lemma LaterRun(f: Env, n: StateV)
    requires Start(f, Some(n)) == n && SuperZonesChanged(f, n.superHosts) == {} && f.want.Keys <= n.pairings.Keys
    requires forall k :: k in n.pairings ==> KeptAt(f, n, k)
    ensures var m, d := Next(f, Some(n)), NextDelta(f, Some(n));
            && d.added == {} && d.supers == {} && (forall k :: k in d.sides ==> d.sides[k] == multiset{})
            && d.removed == n.pairings.Keys - m.pairings.Keys
            && (forall k :: k in m.pairings <==> k in n.pairings && Remains(f, k, n.pairings[k]))
            && (forall k :: k in m.pairings ==> m.pairings[k].slots == n.pairings[k].slots)
  {
    hide StepOne, StepLog, DiffOne, Start, NextSuperHosts, SuperZonesChanged, Remains;
    var m, d := Next(f, Some(n)), NextDelta(f, Some(n));
    assert n.pairings.Keys + f.want.Keys == n.pairings.Keys;
    forall k | k in n.pairings
      ensures d.sides[k] == multiset{} && (k in m.pairings <==> Remains(f, k, n.pairings[k]))
      ensures k in m.pairings ==> m.pairings[k].slots == n.pairings[k].slots
      ensures k in d.removed <==> k !in m.pairings
    {
      assert KeptAt(f, n, k);
    }
  }

  lemma FullIsStable(e: Env, f: Env, k: string, p: PairingV)
    requires Stable(e, k, p) && f.cfg == e.cfg && e.hosts <= f.hosts && e.eligible <= f.eligible
    requires forall h :: h in e.hostZone ==> h in f.hostZone && f.hostZone[h] == e.hostZone[h]
    requires forall i :: 0 <= i < |p.slots| ==> p.slots[i].Filled()
    ensures Stable(f, k, p)
  {
    assert Settled(f, p, p.slots);
    hide Settled, Consistent, ComputeLayout;
    assert SeatsOk(f, p, p.slots);
  }

  // ---------- completeness ----------

  /** How many eligible hosts a side can draw from. */
  function Pool(e: Env, p: PairingV, side: Side): set<string> {
    Elems(e.Members(p.Zone(side))) * e.eligible
  }

  /** Fill completeness between zones: with reuse allowed, a base side is empty exactly
      when its zone has no eligible member. */
  lemma InterZoneComplete(e: Env, k: string, p: PairingV, i: nat, side: Side)
    requires e.Valid() && e.cfg.allowReuse && Established(e, k, p) && !p.intra && i < e.Layout().total
    ensures p.slots[i].Host(side) == "" <==> Pool(e, p, side) == {}
  {
    var s := p.slots[i];
    CandOk(e, p, side);
    assert SeatSettled(e, p, p.slots, i, side);
    assert s.cls == Anchor || s.cls == Diverse;
    hide Settled, Consistent, AnchorHost, Fault, ComputeLayout;
    if s.Host(side) == "" {
      assert Excl(p, s, side) == {} && AnchorExcl(p, p.slots, side) == {};
      assert Rest(Cand(e, p, side), {}) == {};
      assert Pool(e, p, side) <= Rest(Cand(e, p, side), {});
    } else {
      assert s.Host(side) in Pool(e, p, side);
    }
  }

  /** Fill completeness inside a zone: with reuse allowed and at least one slot, every
      base slot is filled on both sides exactly when the zone has two eligible members. */
  lemma IntraZoneComplete(e: Env, k: string, p: PairingV)
    requires e.Valid() && e.cfg.allowReuse && Established(e, k, p) && p.intra && e.Layout().total > 0
    ensures (forall i :: 0 <= i < e.Layout().total ==> p.slots[i].Filled()) <==> |Pool(e, p, SideA)| >= 2
  {
    var pool := Pool(e, p, SideA);
    if |pool| >= 2 {
      forall i: nat | i < e.Layout().total ensures p.slots[i].Filled() {
        IntraSlotFilled(e, k, p, i, SideA);
        IntraSlotFilled(e, k, p, i, SideB);
      }
    } else {
      hide Settled, Pool;
      if p.slots[0].Filled() { FilledFromTwo(e, k, p); }
    }
  }

  lemma FilledFromTwo(e: Env, k: string, p: PairingV)
    requires e.Valid() && Established(e, k, p) && p.intra && e.Layout().total > 0 && p.slots[0].Filled()
    ensures |Pool(e, p, SideA)| >= 2
  {
    hide Settled;
    CandOk(e, p, SideA);
    CandOk(e, p, SideB);
    assert p.slots[0].cls != Super;
    assert {p.slots[0].a.host, p.slots[0].b.host} <= Pool(e, p, SideA);
    SubsetSize({p.slots[0].a.host, p.slots[0].b.host}, Pool(e, p, SideA));
  }

  lemma TwoMembers(pool: set<string>, excl: set<string>)
    requires |pool| >= 2 && forall x, y :: x in excl && y in excl ==> x == y
    ensures exists h :: h in pool && h !in excl
  {
    if pool <= excl {
      var x :| x in pool;
      assert pool <= {x};
      SubsetSize(pool, {x});
      assert false;
    }
  }

  lemma IntraSlotFilled(e: Env, k: string, p: PairingV, i: nat, side: Side)
    requires e.Valid() && e.cfg.allowReuse && Established(e, k, p) && p.intra && i < e.Layout().total
    requires |Pool(e, p, SideA)| >= 2
    ensures p.slots[i].Host(side) != ""
  {
    var s := p.slots[i];
    CandOk(e, p, side);
    assert SeatSettled(e, p, p.slots, i, side);
    assert s.cls == Anchor || s.cls == Diverse;
    AnchorExclSingle(p, side);
    assert Pool(e, p, side) == Pool(e, p, SideA);
    TwoMembers(Pool(e, p, side), Excl(p, s, side));
    TwoMembers(Pool(e, p, side), AnchorExcl(p, p.slots, side));
    var g :| g in Pool(e, p, side) && g !in Excl(p, s, side);
    var h :| h in Pool(e, p, side) && h !in AnchorExcl(p, p.slots, side);
    hide Established, Settled, AnchorExcl, Excl;
    assert g in Rest(Cand(e, p, side), Excl(p, s, side));
    assert h in Rest(Cand(e, p, side), AnchorExcl(p, p.slots, side));
  }

  lemma AnchorExclSingle(p: PairingV, side: Side)
    requires Consistent(p, p.slots)
    ensures forall x, y :: x in AnchorExcl(p, p.slots, side) && y in AnchorExcl(p, p.slots, side) ==> x == y
  {
    forall x, y | x in AnchorExcl(p, p.slots, side) && y in AnchorExcl(p, p.slots, side) ensures x == y {
      var i :| 0 <= i < |p.slots| && p.slots[i].cls == Anchor && p.slots[i].Host(side.Other()) != ""
        && p.slots[i].Host(side.Other()) == x;
      var j :| 0 <= j < |p.slots| && p.slots[j].cls == Anchor && p.slots[j].Host(side.Other()) != ""
        && p.slots[j].Host(side.Other()) == y;
      assert HoldsAnchor(p.slots[i], side.Other()) && HoldsAnchor(p.slots[j], side.Other());
    }
  }

  /** The zones of a pairing that a first run creates. */
  lemma FirstZones(e: Env, k: string)
    requires k in e.want && k in Next(e, None).pairings
    ensures var p := Next(e, None).pairings[k];
            p.zoneA == e.want[k].zoneA && p.zoneB == e.want[k].zoneB && p.intra == e.want[k].intra
  {
    NextAt(e, None, k);
    hide FillTable, SuperTable, NonSuper, Validate, Resize, ComputeLayout, NextSuperHosts, Fingerprint;
  }

  // ---------- an example ----------

  /** Two zones with one eligible host each, four slots and one wanted pairing. */
  function TwoHosts(): Env {
    Env({"x", "y"}, map["a" := ["x"], "b" := ["y"]], map["x" := "a", "y" := "b"], {"x", "y"}, {},
        map["a|b" := Wanted("a", "b", false)], SlotsConfig(4, 0.5, Up, 0, map[], 50, true), "", 300, 0, s => 0)
  }

  lemma TwoHostsValid()
    ensures TwoHosts().Valid()
  {
    var e := TwoHosts();
    assert "a" != "b" && "x" != "y";
    forall z, h ensures h in e.Members(z) <==> h in e.hostZone && e.hostZone[h] == z {}
    forall z ensures Distinct(e.Members(z)) {}
  }

  lemma TwoHostsSide(p: PairingV, i: nat, side: Side)
    requires Established(TwoHosts(), "a|b", p) && p.zoneA == "a" && p.zoneB == "b" && !p.intra
               && i < TwoHosts().Layout().total
    ensures p.slots[i].Host(side) == if side == SideA then "x" else "y"
  {
    hide Settled, Consistent, Classed, ComputeLayout;
    var e := TwoHosts();
    TwoHostsValid();
    InterZoneComplete(e, "a|b", p, i, side);
    hide Env.Valid;
    assert (if side == SideA then "x" else "y") in Pool(e, p, side);
    assert p.slots[i].cls != Super;
    assert e.OkHost(p.slots[i].Host(side), p.Zone(side));
  }

  /** One run on them from nothing fills every side, so the statements about runs are not
      vacuous. */
  lemma TwoHostsFilled()
    ensures var e := TwoHosts();
            && e.Valid() && "a|b" in Next(e, None).pairings
            && var p := Next(e, None).pairings["a|b"];
               && p.Active() && |p.slots| == 4
               && forall i :: 0 <= i < 4 ==> p.slots[i].a.host == "x" && p.slots[i].b.host == "y"
  {
    hide Next, StateOk, Env.Valid;
    var e := TwoHosts();
    TwoHostsValid();
    NextPairingOk(e, None, "a|b");
    var p := Next(e, None).pairings["a|b"];
    FirstZones(e, "a|b");
    EstablishedActive(e, "a|b", p);
    hide Established, PairingOk;
    forall i: nat | i < 4 ensures p.slots[i].a.host == "x" && p.slots[i].b.host == "y" {
      TwoHostsSide(p, i, SideA);
      TwoHostsSide(p, i, SideB);
    }
  }
}
