/** One pass of the reconcile loop: health, reconcile and the stored state chained, and
    what the loop stores over many passes (internal/reconcile/loop.go:193-275). */
module Looping {
  import opened Base
  import opened Slots
  import opened Tables
  import opened Filling
  import opened Invariants
  import opened Runs
  import opened RemovalHold
  import DeltaFaith
  import QuietRuns
  import Outcomes
  import opened Inventory
  import opened Zones
  import opened Pairings
  import opened Reconciler
  import opened Reconciling
  import opened Health
  import Eligibility
  import TaskRunner

  // ---------- what the loop stores ----------

  /** The stored state after one pass: a run that reports nothing is not stored. */
  ghost function Kept(e: Env, st: StateV): StateV {
    if NothingChanged(NextDelta(e, Some(st))) then st else Next(e, Some(st))
  }

  ghost function KeptAll(es: seq<Env>, st: StateV): StateV {
    if |es| == 0 then st else Kept(es[|es| - 1], KeptAll(es[..|es| - 1], st))
  }

  /** What a pass stores, decided on its inputs: the new state, unless the run is quiet. */
  lemma KeptExact(e: Env, st: StateV)
    requires e.Valid() && StateOk(st)
    ensures Kept(e, st) == if QuietRuns.RunQuiet(e, Some(st)) then st else Next(e, Some(st))
  {
    hide Next, NextDelta, NothingChanged, StateOk, Env.Valid;
    QuietRuns.ReportsNothingExact(e, Some(st));
  }

  /** Setting a removal deadline is not reported, so it is stored exactly when the same run
      reports something else. */
  lemma DeadlineStoredExact(e: Env, st: StateV, k: string)
    requires e.Valid() && StateOk(st) && Start(e, Some(st)) == st
    requires k in st.pairings && st.pairings[k].Active() && k !in e.want
    ensures k in Kept(e, st).pairings
    ensures Kept(e, st).pairings[k].removeAt == Some(e.now + e.hold) <==> !NothingChanged(NextDelta(e, Some(st)))
    ensures NothingChanged(NextDelta(e, Some(st))) ==> Kept(e, st).pairings[k].removeAt == None
  {
    StartOk(e, Some(st));
    NextAt(e, Some(st), k);
    assert StoredOk(e, k, Get(st.pairings, k));
    hide Next, NextDelta, StateOk, StoredOk, Start, StepOne, Env.Valid, NothingChanged;
    StaleStep(e, NextSuperHosts(e, st.superHosts), k, st.pairings[k]);
  }

  /** The removal hold is lost in the loop: while nothing else changes, a pairing that is
      no longer wanted is never removed, however much time passes. */
  lemma {:induction false} DeadlineLost(es: seq<Env>, st: StateV, k: string)
    requires StateOk(st) && k in st.pairings && st.pairings[k].Active()
    requires forall i :: 0 <= i < |es| ==>
               es[i].Valid() && es[i].cfg.superHosts <= 0 && NothingToDo(es[i], st) && k !in es[i].want
    ensures KeptAll(es, st) == st
  {
    hide StateOk, NothingToDo, Env.Valid, Next, NextDelta, NothingChanged;
    if |es| > 0 {
      DeadlineLost(es[..|es| - 1], st, k);
      QuietRun(es[|es| - 1], st);
    }
  }

  /** Nor does a pairing that is wanted again lose its deadline, unless the same run reports
      something. */
  lemma ReturnStoredExact(e: Env, st: StateV, k: string)
    requires e.Valid() && StateOk(st) && Start(e, Some(st)) == st
    requires k in st.pairings && st.pairings[k].removeAt.Some? && k in e.want
    ensures k in Kept(e, st).pairings
    ensures Kept(e, st).pairings[k].Active() <==> !NothingChanged(NextDelta(e, Some(st)))
  {
    hide Next, NextDelta, StateOk, Start, Env.Valid, NothingChanged;
    DeadlineNext(e, Some(st), k);
  }

  // ---------- the removal hold in the loop ----------

  /** The state stored after the first n passes. */
  ghost function Held(es: seq<Env>, st: StateV, n: nat): StateV
    requires n <= |es|
  {
    KeptAll(es[..n], st)
  }

  /** Pass n reports something. */
  ghost predicate Reported(es: seq<Env>, st: StateV, n: nat)
    requires n < |es|
  {
    !NothingChanged(NextDelta(es[n], Some(Held(es, st, n))))
  }

  lemma HeldStep(es: seq<Env>, st: StateV, n: nat)
    requires n < |es|
    ensures Held(es, st, n + 1) == if Reported(es, st, n) then Next(es[n], Some(Held(es, st, n))) else Held(es, st, n)
  {
    assert es[..n + 1][..n] == es[..n];
    hide Next, NextDelta, NothingChanged;
  }

  lemma {:induction false} HeldOk(es: seq<Env>, st: StateV, n: nat)
    requires n <= |es| && StateOk(st) && forall i :: 0 <= i < |es| ==> es[i].Valid()
    ensures StateOk(Held(es, st, n))
  {
    hide Next, StateOk, Env.Valid, Reported;
    if n > 0 {
      hide Held;
      HeldOk(es, st, n - 1);
      HeldStep(es, st, n - 1);
      NextOk(es[n - 1], Some(Held(es, st, n - 1)));
    }
  }

  /** Whether a pass reports something, decided on its inputs. */
  lemma ReportedExact(es: seq<Env>, st: StateV, n: nat)
    requires n < |es| && StateOk(st) && forall i :: 0 <= i < |es| ==> es[i].Valid()
    ensures Reported(es, st, n) <==> !QuietRuns.RunQuiet(es[n], Some(Held(es, st, n)))
  {
    hide Next, NextDelta, NothingChanged, StateOk, Env.Valid, Held;
    HeldOk(es, st, n);
    QuietRuns.ReportsNothingExact(es[n], Some(Held(es, st, n)));
  }

  /** The deadline of pairing k was set by pass m, the first to find it unwanted while
      reporting something, and is still stored before pass n: every pass in between that
      reported something found k unwanted and came before the deadline. */
  ghost predicate HeldSince(es: seq<Env>, st: StateV, n: nat, k: string, m: nat)
    requires n <= |es|
  {
    && m < n && k !in es[m].want && Reported(es, st, m)
    && k in Held(es, st, m).pairings && Held(es, st, m).pairings[k].Active()
    && (forall j :: m < j <= n ==> k in Held(es, st, j).pairings
                                   && Held(es, st, j).pairings[k].removeAt == Some(es[m].now + es[m].hold))
    && (forall j :: m < j < n && Reported(es, st, j) ==> k !in es[j].want && es[j].now < es[m].now + es[m].hold)
  }

  /** What one pass does to the deadline of pairing k. */
  lemma HeldDeadline(es: seq<Env>, st: StateV, n: nat, k: string)
    requires n < |es| && StateOk(st) && forall i :: 0 <= i < |es| ==> es[i].Valid()
    ensures var x, y, e := Held(es, st, n).pairings, Held(es, st, n + 1).pairings, es[n];
            && (!Reported(es, st, n) ==> x == y)
            && (Reported(es, st, n) && k in e.want ==> k in y && y[k].Active())
            && (Reported(es, st, n) && k !in e.want && k in y ==>
                 && k in x && y[k].removeAt == (if x[k].removeAt.Some? then x[k].removeAt else Some(e.now + e.hold))
                 && (x[k].removeAt.Some? ==> e.now < x[k].removeAt.value))
            && (Start(e, Some(Held(es, st, n))) == Held(es, st, n) && k in x ==>
                 (k !in y <==> k !in e.want && x[k].removeAt.Some? && e.now >= x[k].removeAt.value))
  {
    hide Next, NextDelta, StateOk, Held, Reported, Env.Valid, Start;
    HeldStep(es, st, n);
    HeldOk(es, st, n);
    var x := Held(es, st, n);
    DeadlineNext(es[n], Some(x), k);
    StartPairings(es[n], Some(x));
    RemovalReported(es, st, n, k);
  }

  /** A pass that removes a pairing reports it. */
  lemma RemovalReported(es: seq<Env>, st: StateV, n: nat, k: string)
    requires n < |es| && es[n].Valid() && StateOk(Held(es, st, n))
    ensures var x := Held(es, st, n);
            Start(es[n], Some(x)) == x && k in x.pairings && k !in Next(es[n], Some(x)).pairings ==> Reported(es, st, n)
  {
    hide Next, NextDelta, StateOk, Held, Start, Env.Valid;
    DeltaFaith.DeltaKeys(es[n], Some(Held(es, st, n)));
  }

  /** Every deadline that the loop stores goes back to such a pass. */
  lemma {:induction false} HeldOrigin(es: seq<Env>, st: StateV, n: nat, k: string) returns (m: nat)
    requires n <= |es| && StateOk(st) && forall i :: 0 <= i < |es| ==> es[i].Valid()
    requires k in st.pairings ==> st.pairings[k].Active()
    requires k in Held(es, st, n).pairings && Held(es, st, n).pairings[k].removeAt.Some?
    ensures HeldSince(es, st, n, k, m)
  {
    hide Held, Reported, Env.Valid, HeldSince, StateOk;
    HeldNone(es, st);
    HeldDeadline(es, st, n - 1, k);
    if Held(es, st, n - 1).pairings[k].removeAt.Some? {
      m := HeldOrigin(es, st, n - 1, k);
      HoldsOn(es, st, n - 1, k, m);
    } else {
      m := n - 1;
      HoldStarts(es, st, n - 1, k);
    }
  }

  lemma HeldNone(es: seq<Env>, st: StateV)
    ensures Held(es, st, 0) == st
  {}

  lemma HoldStarts(es: seq<Env>, st: StateV, n: nat, k: string)
    requires n < |es| && k !in es[n].want && Reported(es, st, n)
    requires k in Held(es, st, n).pairings && Held(es, st, n).pairings[k].Active()
    requires k in Held(es, st, n + 1).pairings
               && Held(es, st, n + 1).pairings[k].removeAt == Some(es[n].now + es[n].hold)
    ensures HeldSince(es, st, n + 1, k, n)
  {
    hide Held, Reported;
  }

  lemma HoldsOn(es: seq<Env>, st: StateV, n: nat, k: string, m: nat)
    requires n < |es| && HeldSince(es, st, n, k, m) && k in Held(es, st, n).pairings
               && k in Held(es, st, n + 1).pairings
    requires Held(es, st, n + 1).pairings[k].removeAt == Held(es, st, n).pairings[k].removeAt
    requires Reported(es, st, n) ==> k !in es[n].want && forall t ::
               Held(es, st, n).pairings[k].removeAt == Some(t) ==> es[n].now < t
    ensures HeldSince(es, st, n + 1, k, m)
  {
    hide Held, Reported;
  }

  /** The removal hold of the loop: unless the table is rebuilt, pass n deletes a pairing
      exactly when it does not want it and comes at or after a stored deadline. The hold
      runs from the first pass that found the pairing unwanted and also reported something,
      and a pass that wants the pairing again breaks it only if that pass reports
      something. */
  lemma HeldRemovalExact(es: seq<Env>, st: StateV, n: nat, k: string)
    requires n < |es| && StateOk(st) && forall i :: 0 <= i < |es| ==> es[i].Valid()
    requires k in st.pairings ==> st.pairings[k].Active()
    requires k in Held(es, st, n).pairings && Start(es[n], Some(Held(es, st, n))) == Held(es, st, n)
    ensures k !in Held(es, st, n + 1).pairings <==>
              k !in es[n].want && exists m: nat :: HeldSince(es, st, n, k, m) && es[n].now >= es[m].now + es[m].hold
  {
    hide Held, Reported, Env.Valid, HeldSince, StateOk, Start;
    HeldDeadline(es, st, n, k);
    if Held(es, st, n).pairings[k].removeAt.Some? {
      var m := HeldOrigin(es, st, n, k);
      HeldNow(es, st, n, k, m);
    }
    forall m: nat | HeldSince(es, st, n, k, m)
      ensures m < n && Held(es, st, n).pairings[k].removeAt == Some(es[m].now + es[m].hold)
    {
      HeldNow(es, st, n, k, m);
    }
  }

  lemma HeldNow(es: seq<Env>, st: StateV, n: nat, k: string, m: nat)
    requires n <= |es| && HeldSince(es, st, n, k, m)
    ensures m < n && k in Held(es, st, n).pairings
              && Held(es, st, n).pairings[k].removeAt == Some(es[m].now + es[m].hold)
  {
    hide Held, Reported;
  }

  // ---------- from runs to probes ----------

  /** After any sequence of runs, every direction and enabled kind of every filled slot of
      an active pairing is probed by the node of its source host and by no other. */
  lemma RunCoverage(es: seq<Env>, n: TaskRunner.Node, k: TaskRunner.TaskKey)
    requires |es| > 0 && forall i :: 0 <= i < |es| ==> es[i].Valid()
    requires var st := RunAll(es).value.pairings;
             && k.pairing in st && st[k.pairing].Active() && 0 <= k.slot < |st[k.pairing].slots|
             && st[k.pairing].slots[k.slot].Filled() && n.cfg.Of(k.kind).enabled
             && st[k.pairing].slots[k.slot].a.host in n.addresses && st[k.pairing].slots[k.slot].b.host in n.addresses
    ensures var st := RunAll(es).value.pairings;
            TaskRunner.Wants(n, st, k).Some? <==> n.id == TaskRunner.Source(st[k.pairing].slots[k.slot], k.forward)
  {
    RunInvariant(es, k.pairing);
    hide RunAll, Env.Valid, ComputeLayout, AnchorsAgree, SidesApart;
    TaskRunner.Coverage(n, RunAll(es).value.pairings, k);
  }

  // ---------- an empty report ----------

  /** Every change listed for a pairing is a change of that pairing. */
  ghost predicate OwnChanges(dv: DeltaV) {
    forall k, c :: k in dv.sides && c in dv.sides[k] ==> c.pairing == k
  }

  lemma EmptyReport(added: seq<string>, removed: seq<string>, supers: seq<string>, sides: seq<SideChange>, dv: DeltaV)
    requires Reports(added, removed, supers, sides, dv) && OwnChanges(dv)
    ensures NothingChanged(dv) <==> added == [] && removed == [] && supers == [] && sides == []
  {
    hide Increasing, Sorted;
    EmptyList(added, dv.added);
    EmptyList(removed, dv.removed);
    EmptyList(supers, dv.supers);
    if sides == [] {
      forall k | k in dv.sides ensures dv.sides[k] == multiset{} {
        forall c ensures dv.sides[k][c] == 0 { assert multiset(sides)[c] == 0; }
      }
    } else {
      assert multiset(sides)[sides[0]] > 0;
    }
  }

  lemma EmptyList(list: seq<string>, s: set<string>)
    requires forall k :: k in list <==> k in s
    ensures list == [] <==> s == {}
  {
    if list != [] { assert list[0] in s; }
  }

  lemma StepLogOwned(e: Env, sh: map<string, seq<string>>, k: string, cur: Option<PairingV>)
    requires cur.Some? ==> cur.value.key == k
    ensures forall c :: c in StepLog(e, sh, k, cur) ==> c.pairing == k
  {
    DiffOwned(e, k, cur);
    match DiffOne(e, k, cur)
    case None => hide DiffLog, DiffOne;
    case Some(p) =>
      var v := ValidateOne(e, p);
      var s := SuperOne(e, sh, v);
      ValidateOwned(e, p);
      SuperOwned(e, sh, v);
      FillOwned(e, s);
      hide DiffLog, DiffOne, ValidateLog, SuperOneLog, FillLog, ValidateOne, SuperOne;
      KeyStays(e, sh, p);
      BagOwned(ValidateLog(e, p), k);
      BagOwned(FillLog(e, s), k);
  }

  lemma KeyStays(e: Env, sh: map<string, seq<string>>, p: PairingV)
    ensures ValidateOne(e, p).key == p.key && SuperOne(e, sh, ValidateOne(e, p)).key == p.key
  {
    hide Validate, SuperTable, NonSuper;
  }

  lemma DiffOwned(e: Env, k: string, cur: Option<PairingV>)
    requires cur.Some? ==> cur.value.key == k
    ensures forall c :: c in multiset(DiffLog(e, k, cur)) ==> c.pairing == k
    ensures DiffOne(e, k, cur).Some? ==> DiffOne(e, k, cur).value.key == k
  {
    ResizeOwned(k, if cur.Some? then cur.value.slots else [], e.Layout());
    hide Resize, ResizeLog, ComputeLayout;
    BagOwned(DiffLog(e, k, cur), k);
  }

  lemma BagOwned(log: seq<SideChange>, k: string)
    requires Owned(log, k)
    ensures forall c :: c in multiset(log) ==> c.pairing == k
  {}

  lemma DeltaOwned(e: Env, cur: Option<StateV>)
    requires cur.Some? ==> forall k :: k in cur.value.pairings ==> cur.value.pairings[k].key == k
    ensures OwnChanges(NextDelta(e, cur))
  {
    hide StepLog, NextSuperHosts, SuperZonesChanged, DiffOne;
    var st := Start(e, cur);
    var sh := NextSuperHosts(e, st.superHosts);
    forall k, c | k in NextDelta(e, cur).sides && c in NextDelta(e, cur).sides[k] ensures c.pairing == k {
      StepLogOwned(e, sh, k, Get(st.pairings, k));
    }
  }

  // ---------- the loop ----------

  /** The record of a host after the report has given it a side, or has not: the first time it is
      given one is recorded. */
  function MarkedAs(st: Option<Status>, given: bool, now: Time): Option<Status> {
    if st.Some? && given && st.value.assignedAt.None? then Some(st.value.(assignedAt := Some(now))) else st
  }

  /** The report gives the host a side. */
  ghost predicate Gives(dv: DeltaV, id: string) {
    id != "" && exists c: SideChange :: c.pairing in dv.sides && c in dv.sides[c.pairing] && c.new_ == id
  }

  /** The zones would need more pairings than are allowed. */
  predicate OverLimit(in_: Input, x: Index) {
    in_.pairs.maxPairings > 0 && Count(|x.zones|, in_.pairs.intraZone) > in_.pairs.maxPairings
  }

  /** What a pass does to the stored state: over the pairing limit nothing; otherwise it
      stores a run that reports a change, and publishes the probe tasks on every change and
      on the first run. */
  ghost predicate Passed(in_: Input, x: Index, want: map<string, Wanted>, before: StateV, wasReady: bool,
                         after: StateV, ready: bool,
                         publish: bool) {
    && Indexes(x, in_.rule, in_.snap.hosts)
    && if OverLimit(in_, x) then
         after == before && ready == wasReady && !publish
       else
         && Resolves(in_, x, want) && after == Kept(EnvOf(in_, x, want), before) && ready
         && (publish <==> !NothingChanged(NextDelta(EnvOf(in_, x, want), Some(before))) || !wasReady)
  }

  lemma Refused(in_: Input, x: Index, want: map<string, Wanted>, before: StateV, ready: bool)
    requires Indexes(x, in_.rule, in_.snap.hosts) && OverLimit(in_, x)
    ensures Passed(in_, x, want, before, ready, before, ready, false)
  {}

  lemma Accepted(in_: Input, x: Index, want: map<string, Wanted>, before: StateV, wasReady: bool, next: StateV,
                 d: Delta, after: StateV,
                 publish: bool)
    requires Outcome(in_, Some(before), x, want, next, d.added, d.removed, d.supers, d.sides) && !OverLimit(in_, x)
    requires forall k :: k in before.pairings ==> before.pairings[k].key == k
    requires var changed := d.added != [] || d.removed != [] || d.supers != [] || d.sides != [];
             after == (if changed then next else before) && publish == (changed || !wasReady)
    ensures Passed(in_, x, want, before, wasReady, after, true, publish)
  {
    hide Kept, NothingChanged, Indexes, OverLimit, Resolves;
    ReportOf(in_, x, want, before, next, d);
  }

  /** What a pass stores, in terms of its inputs: on a change every base side, every table,
      every pairing and every list of super hosts is right for the snapshot, the eligible hosts
      and the time of the pass. */
  lemma PassRight(in_: Input, x: Index, want: map<string, Wanted>, before: StateV, wasReady: bool, after: StateV,
                  ready: bool, publish: bool)
    requires in_.Valid() && StateOk(before) && after != before
    requires Passed(in_, x, want, before, wasReady, after, ready, publish)
    ensures Outcomes.SidesRight(in_, Some(before), after) && Outcomes.SidesKept(in_, Some(before), after)
    ensures forall k :: Outcomes.PairingRight(in_, Some(before), after, k)
    ensures forall k :: k in after.pairings && after.pairings[k].removeAt.None? ==>
              Outcomes.TableRight(in_, after.pairings[k])
    ensures forall z :: Outcomes.SupersRight(in_, Some(before), after, z)
  {
    hide Next, NextDelta, NothingChanged, EnvOf, Indexes, Resolves, StateOk, Input.Valid, Outcomes.SidesRight,
         Outcomes.SidesKept, Outcomes.PairingRight, Outcomes.TableRight, Outcomes.SupersRight, OverLimit;
    Outcomes.RunSides(in_, Some(before), x, want);
    forall k ensures Outcomes.PairingRight(in_, Some(before), after, k) {
      Outcomes.RunPairings(in_, Some(before), x, want, k);
    }
    forall k | k in after.pairings && after.pairings[k].removeAt.None?
      ensures Outcomes.TableRight(in_, after.pairings[k])
    {
      Outcomes.RunTables(in_, Some(before), x, want, k);
    }
    forall z ensures Outcomes.SupersRight(in_, Some(before), after, z) {
      Outcomes.RunSupers(in_, Some(before), x, want, z);
    }
  }

  /** The hosts of a set that had no assignment time have this one. */
  ghost predicate Marked(x: map<string, Status>, y: map<string, Status>, given: set<string>, now: Time) {
    forall id :: At(y, id) == MarkedAs(At(x, id), id in given, now)
  }

  lemma MarkOne(x: map<string, Status>, y: map<string, Status>, z: map<string, Status>, given: set<string>,
                cfg: Config, id: string, now: Time)
    requires Marked(x, y, given, now) && At(z, id) == React(cfg, id, At(y, id), Assigned, now)
    requires z == if id in y then y[id := z[id]] else y
    ensures Marked(x, z, given + {id}, now)
  {
    forall i ensures At(z, i) == MarkedAs(At(x, i), i in given + {id}, now) {
      assert At(y, i) == MarkedAs(At(x, i), i in given, now);
    }
  }

  lemma NoneMarked(x: map<string, Status>, now: Time)
    ensures Marked(x, x, {}, now)
  {}

  lemma MarksMean(x: map<string, Status>, y: map<string, Status>, given: set<string>, now: Time)
    requires Marked(x, y, given, now)
    ensures forall id :: (id in x <==> id in y) && (id in x ==> x[id].Eligible() == y[id].Eligible())
  {
    forall id ensures (id in x <==> id in y) && (id in x ==> x[id].Eligible() == y[id].Eligible()) {
      assert At(y, id) == MarkedAs(At(x, id), id in given, now);
    }
  }

  /** The hosts a list of changes gives a side. */
  function NewHosts(sides: seq<SideChange>): set<string> {
    set c | c in sides && c.new_ != "" :: c.new_
  }

  lemma NewHostsStep(sides: seq<SideChange>, i: nat)
    requires i < |sides|
    ensures NewHosts(sides[..i + 1]) == NewHosts(sides[..i]) + if sides[i].new_ != "" then {sides[i].new_} else {}
  {
    assert sides[..i + 1] == sides[..i] + [sides[i]];
  }

  /** The hosts that a pass marks as assigned are those its report gives a side. */
  ghost predicate GivenBy(in_: Input, x: Index, want: map<string, Wanted>, before: StateV, given: set<string>) {
    if OverLimit(in_, x) then given == {}
    else forall id :: id in given <==> Gives(NextDelta(EnvOf(in_, x, want), Some(before)), id)
  }

  lemma NewHostsGiven(in_: Input, x: Index, want: map<string, Wanted>, before: StateV, next: StateV, d: Delta)
    requires Outcome(in_, Some(before), x, want, next, d.added, d.removed, d.supers, d.sides) && !OverLimit(in_, x)
    ensures GivenBy(in_, x, want, before, NewHosts(d.sides))
  {
    hide NextDelta, EnvOf, Next, Indexes, Resolves, OverLimit;
    var dv := NextDelta(EnvOf(in_, x, want), Some(before));
    forall id ensures id in NewHosts(d.sides) <==> Gives(dv, id) {
      if id in NewHosts(d.sides) {
        var c :| c in d.sides && c.new_ != "" && c.new_ == id;
        assert c in multiset(d.sides);
      }
      if Gives(dv, id) {
        var c: SideChange :| c.pairing in dv.sides && c in dv.sides[c.pairing] && c.new_ == id;
        assert c in multiset(d.sides);
      }
    }
  }

  /** The loop's health tracker, the state it has stored, and whether a run has completed. */
  class Loop {
    const tracker: Tracker
    var current: State
    var ready: bool

    ghost predicate Valid()
      reads this, current, current.pairings.Values
    {
      current.Valid()
    }

    constructor (tracker: Tracker, current: State)
      requires current.Valid()
      ensures this.tracker == tracker && this.current == current && !ready && Valid()
    {
      this.tracker, this.current, ready := tracker, current, false;
    }

    /** One pass: the tracker sees the snapshot and the clock, the run uses the resulting
        eligibility, and its state is stored exactly when the run reports a change. The
        probe tasks are published on every change and on the first pass. When the pairing
        limit is exceeded the previous assignment stays. */
    method RunOnce(base: Input)
      returns (publish: bool, x: Index, ghost want: map<string, Wanted>, ghost elig: set<string>,
               ghost given: set<string>)
      requires Valid() && base.Valid()
      modifies this, tracker
      ensures Valid() && tracker.cfg == old(tracker.cfg)
      ensures forall id :: At(tracker.hosts, id) ==
                MarkedAs(AfterPass(tracker.cfg, base.snap, id, At(old(tracker.hosts), id), base.now), id in given,
                         base.now)
      ensures GivenBy(base.(eligible := elig), x, want, old(current.View()), given)
      ensures forall id :: id in elig <==> id in tracker.hosts && tracker.hosts[id].Eligible()
      ensures Passed(base.(eligible := elig), x, want, old(current.View()), old(ready), current.View(), ready, publish)
      ensures !publish ==> current == old(current)
    {
      hide Kept, Next, NextDelta, NothingChanged, EnvOf, Indexes, Input.Valid, Snapshot.Valid, AfterPass, MarkedAs,
           GivenBy, Keyed, Views;
      SameValid(base);
      ghost var before := current.View();
      var eligible := ObserveAndTick(base.snap, base.now);
      elig := eligible;
      ghost var picture := tracker.hosts;
      publish, x, want, given := Settle(base.(eligible := eligible));
      MarksMean(picture, tracker.hosts, given, base.now);
    }

    /** Reconciles and stores the result when it reports a change. */
    method Settle(in_: Input)
      returns (publish: bool, x: Index, ghost want: map<string, Wanted>, ghost given: set<string>)
      requires Valid() && in_.Valid()
      modifies this, tracker`hosts
      ensures Valid()
      ensures Marked(old(tracker.hosts), tracker.hosts, given, in_.now)
      ensures GivenBy(in_, x, want, old(current.View()), given)
      ensures Passed(in_, x, want, old(current.View()), old(ready), current.View(), ready, publish)
      ensures !publish ==> current == old(current)
    {
      hide Passed, Indexes, Input.Valid, State.View, Keyed, Views, Outcome, Marked, GivenBy, NewHosts, Count;
      NoneMarked(tracker.hosts, in_.now);
      given := {};
      ghost var before := current.View();
      KeysOf(current);
      var r, d;
      r, d, x, want := Reconcile(in_, current);
      match r {
        case Err(_) =>
          publish := false;
          Refused(in_, x, want, before, ready);
          NothingGiven(in_, x, want, before);
        case Ok(next) =>
          var changed := d.added != [] || d.removed != [] || d.supers != [] || d.sides != [];
          publish := changed || !ready;
          Accepted(in_, x, want, before, ready, next.View(), d, if changed then next.View() else before, publish);
          NewHostsGiven(in_, x, want, before, next.View(), d);
          given := NewHosts(d.sides);
          if changed { Store(next, d.sides, in_.now); } else { assert given == {} by { NoNewHosts(); } }
          ready := true;
      }
    }

    /** Replaces the stored state and records the new assignments. */
    method Store(next: State, sides: seq<SideChange>, now: Time)
      requires next.Valid()
      modifies this`current, tracker`hosts
      ensures current == next && next.Valid() && next.View() == old(next.View())
      ensures Marked(old(tracker.hosts), tracker.hosts, NewHosts(sides), now)
    {
      hide Marked, NewHosts, Keyed, Views;
      current := next;
      MarkNew(sides, now);
    }

    /** Feeds the snapshot and the clock to the tracker and reads the eligible hosts. */
    method ObserveAndTick(snap: Snapshot, now: Time) returns (elig: set<string>)
      requires snap.Valid()
      modifies tracker`hosts
      ensures forall id :: At(tracker.hosts, id) == AfterPass(tracker.cfg, snap, id, At(old(tracker.hosts), id), now)
      ensures forall id :: id in elig <==> id in tracker.hosts && tracker.hosts[id].Eligible()
    {
      hide React, Increasing;
      tracker.Observe(snap, now);
      var changed := tracker.TickAll(now);
      elig := tracker.EligibleHosts();
    }

    /** Records the assignment time of every host a change brings in. */
    method MarkNew(sides: seq<SideChange>, now: Time)
      modifies tracker`hosts
      ensures Marked(old(tracker.hosts), tracker.hosts, NewHosts(sides), now)
    {
      hide Marked, NewHosts, React;
      NoneMarked(tracker.hosts, now);
      NoNewHosts();
      for i := 0 to |sides|
        invariant Marked(old(tracker.hosts), tracker.hosts, NewHosts(sides[..i]), now)
      {
        NewHostsStep(sides, i);
        assert NewHosts(sides[..i]) + {} == NewHosts(sides[..i]);
        if sides[i].new_ != "" {
          ghost var y := tracker.hosts;
          tracker.MarkAssigned(sides[i].new_, now);
          MarkOne(old(tracker.hosts), y, tracker.hosts, NewHosts(sides[..i]), tracker.cfg, sides[i].new_, now);
        }
      }
      assert sides[..|sides|] == sides;
    }
  }

  lemma NoNewHosts()
    ensures NewHosts([]) == {}
  {}

  lemma NothingGiven(in_: Input, x: Index, want: map<string, Wanted>, before: StateV)
    requires OverLimit(in_, x)
    ensures GivenBy(in_, x, want, before, {})
  {}

  /** The record of one host after a pass has shown it the snapshot and the clock. */
  function AfterPass(cfg: Config, snap: Snapshot, id: string, cur: Option<Status>, now: Time): Option<Status> {
    React(cfg, id, React(cfg, id, cur, ObserveEvent(snap, id), now), Tick, now)
  }

  /** The provider offers the host, or has not missed it for the grace. */
  predicate Offered(cfg: Config, snap: Snapshot, id: string, st: Status, now: Time) {
    match snap.Get(id)
    case Some(h) => h.healthy
    case None =>
      var m := if st.present then Some(now) else st.missingAt;
      m.None? || now < m.value + cfg.missingGrace
  }

  /** Whether an eligible host is still eligible for the run of a pass: the snapshot comes first, so
      that a host in it is not lost to an absence that is over; then the clock. */
  lemma PassEligible(cfg: Config, snap: Snapshot, id: string, st: Status, now: Time)
    requires Eligibility.MayHold(st.state)
    ensures var r := AfterPass(cfg, snap, id, Some(st), now);
            var due := st.state == Pending && st.releaseAt.Some? && now >= st.releaseAt.value;
            r.Some? && (r.value.Eligible() <==> !due && Offered(cfg, snap, id, st, now))
  {
    var ev := ObserveEvent(snap, id);
    Eligibility.LossStep(cfg, id, st, ev, now);
    var s := React(cfg, id, Some(st), ev, now).value;
    match ev {
      case InSnapshot(h) => Eligibility.SnapshotTable(cfg, id, Some(st), h, now);
      case NotInSnapshot => Eligibility.AbsenceTable(cfg, id, Some(st), now);
    }
    hide React, Snapshot.Get, Eligibility.Arrives;
    if s.Eligible() {
      Eligibility.LossStep(cfg, id, s, Tick, now);
    } else {
      Eligibility.GainStep(cfg, id, s, Tick, now);
    }
  }

  lemma KeysOf(s: State)
    requires s.Valid()
    ensures forall k :: k in s.View().pairings ==> s.View().pairings[k].key == k
  {}

  /** Which hosts are eligible does not matter to the shape of the inputs. */
  lemma SameValid(x: Input)
    requires x.Valid()
    ensures x.snap.Valid() && forall elig :: x.(eligible := elig).Valid()
  {}

  /** The report is empty exactly when nothing changed. */
  lemma ReportOf(in_: Input, x: Index, want: map<string, Wanted>, before: StateV, next: StateV, d: Delta)
    requires Outcome(in_, Some(before), x, want, next, d.added, d.removed, d.supers, d.sides)
    requires forall k :: k in before.pairings ==> before.pairings[k].key == k
    ensures Kept(EnvOf(in_, x, want), before) ==
              if NothingChanged(NextDelta(EnvOf(in_, x, want), Some(before))) then before else next
    ensures NothingChanged(NextDelta(EnvOf(in_, x, want), Some(before))) <==>
              d.added == [] && d.removed == [] && d.supers == [] && d.sides == []
  {
    hide Next, NextDelta, EnvOf, Indexes, OwnChanges, NothingChanged, Reports, Resolves;
    DeltaOwned(EnvOf(in_, x, want), Some(before));
    EmptyReport(d.added, d.removed, d.supers, d.sides, NextDelta(EnvOf(in_, x, want), Some(before)));
  }
}
