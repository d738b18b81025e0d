/** Exactly when a run reports nothing, as a condition on its inputs
    (internal/reconcile/reconcile.go:46-61, 127-131). */
module QuietRuns {
  import opened Base
  import opened Slots
  import opened Tables
  import opened Filling
  import opened Invariants
  import opened Runs
  import opened DeltaFaith

  // ---------- one pairing ----------

  /** Every stored host is still valid, and those of base slots sit in a slot of the class the
      layout gives to it. */
  ghost predicate SidesValid(e: Env, p: PairingV) {
    forall i: nat, side :: i < |p.slots| && p.slots[i].Host(side) != "" ==>
      && e.OkHost(p.slots[i].Host(side), p.Zone(side))
      && (i < e.Layout().total ==> p.slots[i].cls == e.Layout().ClassAt(i))
  }

  /** The stored super slots have the lookup keys of the wanted paths. */
  ghost predicate SupersListed(e: Env, sh: map<string, seq<string>>, p: PairingV) {
    e.cfg.superHosts > 0 ==> Existing(Tail(p.slots, e.Layout().total)).Keys == UsedKeys(SuperPaths(e, sh, p))
  }

  /** The resized table with its super slots has no side left that could be filled. */
  ghost predicate NothingToFill(e: Env, sh: map<string, seq<string>>, k: string, p: PairingV)
    requires k in e.want
  {
    var q := SuperOne(e, sh, Diffed(e, k, Some(p)));
    Settled(e, q, q.slots)
  }

  ghost predicate PairingQuiet(e: Env, sh: map<string, seq<string>>, k: string, p: PairingV)
    requires k in e.want
  {
    SidesValid(e, p) && SupersListed(e, sh, p) && NothingToFill(e, sh, k, p)
  }

  /** A run logs nothing for a wanted stored pairing if and only if the pairing is quiet. */
  lemma PairingQuietExact(e: Env, sh: map<string, seq<string>>, k: string, p: PairingV)
    requires e.Valid() && k in e.want && StoredOk(e, k, Some(p))
    ensures StepLog(e, sh, k, Some(p)) == multiset{} <==> PairingQuiet(e, sh, k, p)
  {
    hide *;
    var d := Diffed(e, k, Some(p));
    LogIsSum(e, sh, k, Some(p));
    SidesExact(e, k, p);
    if DiffLog(e, k, Some(p)) == [] && ValidateLog(e, d) == [] {
      ValidatedSame(e, k, p);
      SupersExact(e, sh, k, p);
      FillExact(e, sh, k, p);
    }
    QuietMeans(e, sh, k, p);
  }

  lemma QuietMeans(e: Env, sh: map<string, seq<string>>, k: string, p: PairingV)
    requires k in e.want
    ensures PairingQuiet(e, sh, k, p) <==> SidesValid(e, p) && SupersListed(e, sh, p) && NothingToFill(e, sh, k, p)
  {
    hide SidesValid, SupersListed, NothingToFill;
  }

  /** The log of a run is the sum of the logs of its passes. */
  lemma LogIsSum(e: Env, sh: map<string, seq<string>>, k: string, cur: Option<PairingV>)
    requires k in e.want
    ensures var d, v, s := Diffed(e, k, cur), Validated(e, k, cur), Supered(e, sh, k, cur);
            StepLog(e, sh, k, cur) == multiset{} <==>
              DiffLog(e, k, cur) == [] && ValidateLog(e, d) == [] && SuperOneLog(e, sh, v) == multiset{}
                && FillLog(e, s) == []
  {
    LogParts(e, sh, k, cur);
    hide StepLog, DiffLog, ValidateLog, SuperOneLog, FillLog, Diffed, Validated, Supered;
    var x, y, z := DiffLog(e, k, cur), ValidateLog(e, Diffed(e, k, cur)), FillLog(e, Supered(e, sh, k, cur));
    var u := SuperOneLog(e, sh, Validated(e, k, cur));
    assert multiset(x + y + z) == multiset(x) + multiset(y) + multiset(z);
    assert |StepLog(e, sh, k, cur)| == |x| + |y| + |z| + |u|;
  }

  lemma ReclassEmpty(k: string, s: Slot, i: int, cls: Class)
    ensures ReclassChunk(k, s, i, cls) == [] <==> s.cls == cls || (s.a.host == "" && s.b.host == "")
  {}

  /** Every held base slot has its class. */
  predicate ClassesKept(x: seq<Slot>, l: Layout)
    requires |x| >= l.total
  {
    forall i :: 0 <= i < l.total ==> x[i].cls == l.ClassAt(i) || (x[i].a.host == "" && x[i].b.host == "")
  }

  /** No side is at fault. */
  predicate NoFault(e: Env, p: PairingV) {
    forall i, side :: 0 <= i < |p.slots| ==> Fault(e, p.slots[i].Host(side), p.Zone(side)).None?
  }

  lemma ResizeExact(k: string, x: seq<Slot>, l: Layout)
    requires Shaped(x, l.total)
    ensures ResizeLog(k, x, l) == [] <==> ClassesKept(x, l)
  {
    hide ReclassChunk, NonSuper, Supers, Flatten;
    SplitShaped(x, l.total);
    var base := NonSuper(x);
    var chunks := ReclassChunks(k, base, l);
    assert DropChunks(k, base, l.total) == [];
    FlattenEmpty([]);
    forall i | 0 <= i < l.total
      ensures chunks[i] == [] <==> x[i].cls == l.ClassAt(i) || (x[i].a.host == "" && x[i].b.host == "")
    {
      assert BaseAt(base, i) == x[i];
      ReclassEmpty(k, x[i], i, l.ClassAt(i));
    }
    EmptyChunks(chunks);
  }

  lemma EmptyChunks(chunks: seq<seq<SideChange>>)
    ensures Flatten(chunks) == [] <==> forall i :: 0 <= i < |chunks| ==> chunks[i] == []
  {
    hide Flatten;
    if forall i :: 0 <= i < |chunks| ==> chunks[i] == [] {
      FlattenEmpty(chunks);
    } else {
      var i :| 0 <= i < |chunks| && chunks[i] != [];
      FlattenSome(chunks, i);
    }
  }

  lemma ValidateExact(e: Env, p: PairingV)
    ensures Flatten(ValidateChunks(e, p)) == [] <==> NoFault(e, p)
  {
    hide Fault, Flatten;
    var chunks := ValidateChunks(e, p);
    EmptyChunks(chunks);
    forall i: nat | i < |p.slots|
      ensures chunks[i] == [] <==> forall side :: Fault(e, p.slots[i].Host(side), p.Zone(side)).None?
    {
      var x, y := CheckEntry(e, p, p.slots[i], SideA), CheckEntry(e, p, p.slots[i], SideB);
      assert x + y == [] <==> x == [] && y == [];
    }
  }

  /** What resizing makes of each stored slot. */
  lemma DiffedIs(e: Env, k: string, p: PairingV)
    requires e.Valid() && k in e.want && StoredOk(e, k, Some(p))
    ensures var d, l := Diffed(e, k, Some(p)), e.Layout();
            && Resized(p.slots, d.slots, l) && Shaped(p.slots, l.total) && d.Active() && d.key == k
            && d.zoneA == p.zoneA && d.zoneB == p.zoneB && Shaped(d.slots, l.total)
            && DiffLog(e, k, Some(p)) == ResizeLog(k, p.slots, l)
  {
    DiffedOk(e, k, Some(p));
    ResizeMeaning(p.slots, e.Layout());
    hide Resize, ResizeLog, ComputeLayout, Resized, Consistent, Shaped;
  }

  lemma SidesExact(e: Env, k: string, p: PairingV)
    requires e.Valid() && k in e.want && StoredOk(e, k, Some(p))
    ensures DiffLog(e, k, Some(p)) == [] && ValidateLog(e, Diffed(e, k, Some(p))) == [] <==> SidesValid(e, p)
  {
    hide *;
    var d, l := Diffed(e, k, Some(p)), e.Layout();
    DiffedIs(e, k, p);
    ResizeExact(k, p.slots, l);
    ValidateExact(e, d);
    ActiveLog(e, d);
    SidesSplit(e, p, d, l);
  }

  lemma ActiveLog(e: Env, p: PairingV)
    requires p.Active()
    ensures ValidateLog(e, p) == Flatten(ValidateChunks(e, p))
  {}

  /** The stored sides are valid exactly when resizing clears none and validation faults none. */
  lemma SidesSplit(e: Env, p: PairingV, d: PairingV, l: Layout)
    requires l == e.Layout() && Resized(p.slots, d.slots, l) && Shaped(p.slots, l.total)
    requires d.zoneA == p.zoneA && d.zoneB == p.zoneB
    ensures ClassesKept(p.slots, l) && NoFault(e, d) <==> SidesValid(e, p)
  {
    hide ComputeLayout, Fault, Env.Layout;
    forall i: nat, side | i < |p.slots| ensures SideSplit(e, p, l, i, side) == SideFine(e, p, d, l, i, side) {
      SideCase(e, p, d, l, i, side);
    }
    SplitEach(e, p, d, l);
  }

  /** One stored side is empty, or valid in a slot of the right class. */
  predicate SideSplit(e: Env, p: PairingV, l: Layout, i: nat, side: Side)
    requires i < |p.slots|
  {
    p.slots[i].Host(side) != "" ==>
      e.OkHost(p.slots[i].Host(side), p.Zone(side)) && (i < l.total ==> p.slots[i].cls == l.ClassAt(i))
  }

  /** One side is neither cleared by resizing nor at fault afterwards. */
  predicate SideFine(e: Env, p: PairingV, d: PairingV, l: Layout, i: nat, side: Side)
    requires i < |p.slots| && i < |d.slots|
  {
    && (i < l.total ==> p.slots[i].cls == l.ClassAt(i) || p.slots[i].Host(side) == "")
    && Fault(e, d.slots[i].Host(side), d.Zone(side)).None?
  }

  lemma SideCase(e: Env, p: PairingV, d: PairingV, l: Layout, i: nat, side: Side)
    requires Resized(p.slots, d.slots, l) && |p.slots| >= l.total && i < |p.slots|
    requires d.zoneA == p.zoneA && d.zoneB == p.zoneB
    ensures SideSplit(e, p, l, i, side) == SideFine(e, p, d, l, i, side)
  {}

  lemma SplitEach(e: Env, p: PairingV, d: PairingV, l: Layout)
    requires l == e.Layout() && |d.slots| == |p.slots| >= l.total
    requires forall i: nat, side :: i < |p.slots| ==> SideSplit(e, p, l, i, side) == SideFine(e, p, d, l, i, side)
    ensures ClassesKept(p.slots, l) && NoFault(e, d) <==> SidesValid(e, p)
  {
    hide ComputeLayout, Fault, Env.Layout, Env.OkHost, Layout.ClassAt;
    if SidesValid(e, p) {
      forall i: nat, side | i < |p.slots| ensures SideFine(e, p, d, l, i, side) { assert SideSplit(e, p, l, i, side); }
      forall i: nat | i < l.total
        ensures p.slots[i].cls == l.ClassAt(i) || (p.slots[i].a.host == "" && p.slots[i].b.host == "")
      {
        assert SideFine(e, p, d, l, i, SideA) && SideFine(e, p, d, l, i, SideB);
      }
      forall i, side | 0 <= i < |d.slots| ensures Fault(e, d.slots[i].Host(side), d.Zone(side)).None? {
        assert SideFine(e, p, d, l, i, side);
      }
    }
    if ClassesKept(p.slots, l) && NoFault(e, d) {
      forall i: nat, side | i < |p.slots| && p.slots[i].Host(side) != ""
        ensures e.OkHost(p.slots[i].Host(side), p.Zone(side)) && (i < l.total ==> p.slots[i].cls == l.ClassAt(i))
      {
        assert SideFine(e, p, d, l, i, side);
        assert SideSplit(e, p, l, i, side);
      }
    }
  }

  /** Validation that logs nothing changes nothing. */
  lemma ValidatedSame(e: Env, k: string, p: PairingV)
    requires e.Valid() && k in e.want && StoredOk(e, k, Some(p)) && ValidateLog(e, Diffed(e, k, Some(p))) == []
    ensures Validated(e, k, Some(p)) == Diffed(e, k, Some(p))
  {
    hide ComputeLayout, Flatten, ValidateChunks, Diffed, StoredOk, Env.Valid, Fault;
    var d := Diffed(e, k, Some(p));
    DiffedIs(e, k, p);
    ValidateExact(e, d);
    forall i | 0 <= i < |d.slots| ensures CheckSlot(e, d, d.slots[i]) == d.slots[i] {
      assert d.slots[i].Host(SideA) == d.slots[i].a.host && d.slots[i].Host(SideB) == d.slots[i].b.host;
      assert d.Zone(SideA) == d.zoneA && d.Zone(SideB) == d.zoneB;
    }
    assert Validate(e, d) == d.slots;
    assert d.(slots := d.slots) == d;
  }

  /** The super pass logs nothing exactly when the lookup keys are those of the wanted paths. */
  lemma SupersExact(e: Env, sh: map<string, seq<string>>, k: string, p: PairingV)
    requires e.Valid() && k in e.want && StoredOk(e, k, Some(p))
    requires Validated(e, k, Some(p)) == Diffed(e, k, Some(p))
    ensures SuperOneLog(e, sh, Validated(e, k, Some(p))) == multiset{} <==> SupersListed(e, sh, p)
  {
    hide ComputeLayout, Diffed, Validated, Env.Valid, SuperLog, SuperPaths, Existing, DropSuperChunks, Flatten;
    var d, t := Diffed(e, k, Some(p)), e.Layout().total;
    DiffedIs(e, k, p);
    if e.cfg.superHosts <= 0 {
      NoSupers(d, t);
    } else {
      SuperLogExact(e, sh, d);
      SamePaths(e, sh, d, p);
      assert Tail(d.slots, t) == Tail(p.slots, t);
    }
  }

  lemma SamePaths(e: Env, sh: map<string, seq<string>>, p: PairingV, q: PairingV)
    requires p.zoneA == q.zoneA && p.zoneB == q.zoneB
    ensures SuperPaths(e, sh, p) == SuperPaths(e, sh, q)
  {}

  lemma SuperLogExact(e: Env, sh: map<string, seq<string>>, p: PairingV)
    ensures SuperLog(e, sh, p) == multiset{} <==>
              Existing(Tail(p.slots, e.Layout().total)).Keys == UsedKeys(SuperPaths(e, sh, p))
  {
    hide ComputeLayout, SuperPaths, Existing, Flatten, SuperKey, RemovedBag;
    var ex, ws, chunks := Existing(Tail(p.slots, e.Layout().total)), SuperPaths(e, sh, p), SuperChunks(e, sh, p);
    var gone := ex.Keys - UsedKeys(ws);
    NewExact(p.key, ex, ws, chunks, e.Layout().total);
    RemovedNothing(p.key, ex, gone);
    NoneLeft(ex.Keys, UsedKeys(ws));
    hide SuperChunks, UsedKeys;
    assert |SuperLog(e, sh, p)| == |Flatten(chunks)| + |RemovedBag(p.key, ex, gone)|;
  }

  /** No path is new exactly when every wanted key is found. */
  lemma NewExact(key: string, ex: map<string, Slot>, ws: seq<Path>, chunks: seq<seq<SideChange>>, t: nat)
    requires |chunks| == |ws| && forall j :: 0 <= j < |ws| ==> chunks[j] == SuperChunk(key, ex, ws[j], t + j)
    ensures Flatten(chunks) == [] <==> UsedKeys(ws) <= ex.Keys
  {
    hide Flatten, SuperKey;
    EmptyChunks(chunks);
    forall j | 0 <= j < |ws| ensures SuperKey(ws[j].src, ws[j].dst) in UsedKeys(ws) { assert ws[j] in ws; }
    if Flatten(chunks) == [] {
      forall k | k in UsedKeys(ws) ensures k in ex {
        var w :| w in ws && SuperKey(w.src, w.dst) == k;
        var j :| 0 <= j < |ws| && ws[j] == w;
        assert chunks[j] == [];
      }
    }
  }

  lemma NoneLeft(x: set<string>, y: set<string>)
    ensures x - y == {} <==> x <= y
  {
    if x - y == {} {
      forall k | k in x ensures k in y { assert k !in x - y; }
    }
  }

  lemma RemovedNothing(key: string, ex: map<string, Slot>, ks: set<string>)
    requires ks <= ex.Keys
    ensures RemovedBag(key, ex, ks) == multiset{} <==> ks == {}
  {
    if ks != {} {
      var k :| k in ks;
      RemovedBagAny(key, ex, ks, k);
      assert multiset(SuperRemoved(key, ex[k]))[SuperRemoved(key, ex[k])[0]] > 0;
    }
  }

  /** Filling logs nothing exactly when nothing is left to fill. */
  lemma FillExact(e: Env, sh: map<string, seq<string>>, k: string, p: PairingV)
    requires e.Valid() && k in e.want && StoredOk(e, k, Some(p))
    requires Validated(e, k, Some(p)) == Diffed(e, k, Some(p))
    ensures FillLog(e, Supered(e, sh, k, Some(p))) == [] <==> NothingToFill(e, sh, k, p)
  {
    var s := Supered(e, sh, k, Some(p));
    SuperedReady(e, sh, k, Some(p));
    hide Diffed, Validated, SuperOne, FillTable, Settled, ComputeLayout, SeatsOk, Consistent, Classed, StoredOk;
    if Settled(e, s, s.slots) { FillTableFixed(e, s); }
    if FillTable(e, s).log == [] { FilledNothing(e, s); }
  }

  lemma FilledNothing(e: Env, s: PairingV)
    requires e.Valid() && SeatsOk(e, s, s.slots) && Consistent(s, s.slots) && FillTable(e, s).log == []
    requires forall n :: 0 <= n < |s.slots| ==> s.slots[n].index == n
    ensures Settled(e, s, s.slots)
  {
    FillExplainsAll(e, s);
    FillTableGrows(e, s);
    FillTableSettles(e, s);
    hide SeatsOk, Consistent, Settled, FillTable, SeatGrown;
    var y := FillTable(e, s).slots;
    forall i | 0 <= i < |y| ensures y[i] == s.slots[i] {
      assert FillExplained(s, s.slots[i], y[i], [], i, SideA) && FillExplained(s, s.slots[i], y[i], [], i, SideB);
      assert SlotGrown(e, s, s.slots[i], y[i]);
    }
    assert y == s.slots;
  }

  // ---------- the whole run ----------

  /** Nothing is reported: no pairing is added or due for removal, no zone chooses other super
      hosts, and every wanted pairing is quiet. A discarded table counts as empty. */
  ghost predicate RunQuiet(e: Env, cur: Option<StateV>) {
    var st := Start(e, cur);
    && e.want.Keys <= st.pairings.Keys
    && (forall k :: k in st.pairings && k !in e.want ==> !Expired(e, st.pairings[k]))
    && SuperZonesChanged(e, st.superHosts) == {}
    && forall k :: k in e.want ==> PairingQuiet(e, NextSuperHosts(e, st.superHosts), k, st.pairings[k])
  }

  predicate Expired(e: Env, p: PairingV) { p.removeAt.Some? && e.now >= p.removeAt.value }

  /** A run reports nothing if and only if its inputs leave it nothing to report. */
  lemma ReportsNothingExact(e: Env, cur: Option<StateV>)
    requires e.Valid() && (cur.Some? ==> StateOk(cur.value))
    ensures NothingChanged(NextDelta(e, cur)) <==> RunQuiet(e, cur)
  {
    hide StateOk, Start, NextSuperHosts, SuperZonesChanged, StoredOk, PairingQuiet, Env.Valid, StepLog, DiffOne;
    StartOk(e, cur);
    var st := Start(e, cur);
    var sh := NextSuperHosts(e, st.superHosts);
    forall k | k in st.pairings || k in e.want
      ensures k in NextDelta(e, cur).sides && NextDelta(e, cur).sides[k] == StepLog(e, sh, k, Get(st.pairings, k))
      ensures k in st.pairings && k !in e.want ==>
                StepLog(e, sh, k, Get(st.pairings, k)) == multiset{}
                && (DiffOne(e, k, Some(st.pairings[k])).None? <==> Expired(e, st.pairings[k]))
      ensures k in st.pairings && k in e.want ==>
                DiffOne(e, k, Some(st.pairings[k])).Some?
                && (StepLog(e, sh, k, Get(st.pairings, k)) == multiset{} <==> PairingQuiet(e, sh, k, st.pairings[k]))
    {
      ReportAt(e, cur, k);
    }
    QuietDeltaExact(e, cur);
  }

  lemma ReportAt(e: Env, cur: Option<StateV>, k: string)
    requires e.Valid() && (cur.Some? ==> StateOk(cur.value)) && (k in Start(e, cur).pairings || k in e.want)
    ensures var st := Start(e, cur);
            var sh := NextSuperHosts(e, st.superHosts);
            && k in NextDelta(e, cur).sides && NextDelta(e, cur).sides[k] == StepLog(e, sh, k, Get(st.pairings, k))
            && (k in st.pairings && k !in e.want ==>
                 StepLog(e, sh, k, Get(st.pairings, k)) == multiset{}
                 && (DiffOne(e, k, Some(st.pairings[k])).None? <==> Expired(e, st.pairings[k])))
            && (k in st.pairings && k in e.want ==>
                 DiffOne(e, k, Some(st.pairings[k])).Some?
                 && (StepLog(e, sh, k, Get(st.pairings, k)) == multiset{} <==> PairingQuiet(e, sh, k, st.pairings[k])))
  {
    hide StateOk, Start, NextSuperHosts, StoredOk, PairingQuiet, Env.Valid, StepLog, NextDelta, Resize, ComputeLayout;
    StartOk(e, cur);
    var st := Start(e, cur);
    var sh := NextSuperHosts(e, st.superHosts);
    NextLogAt(e, cur, k);
    if k in st.pairings {
      assert StoredOk(e, k, Get(st.pairings, k));
      if k in e.want { PairingQuietExact(e, sh, k, st.pairings[k]); } else { StaleStep(e, sh, k, st.pairings[k]); }
    }
  }

  lemma QuietDeltaExact(e: Env, cur: Option<StateV>)
    requires var st := Start(e, cur);
             var sh := NextSuperHosts(e, st.superHosts);
             forall k :: k in st.pairings || k in e.want ==>
               && k in NextDelta(e, cur).sides && NextDelta(e, cur).sides[k] == StepLog(e, sh, k, Get(st.pairings, k))
               && (k in st.pairings && k !in e.want ==>
                    StepLog(e, sh, k, Get(st.pairings, k)) == multiset{}
                    && (DiffOne(e, k, Some(st.pairings[k])).None? <==> Expired(e, st.pairings[k])))
               && (k in st.pairings && k in e.want ==>
                    DiffOne(e, k, Some(st.pairings[k])).Some?
                    && (StepLog(e, sh, k, Get(st.pairings, k)) == multiset{} <==>
                         PairingQuiet(e, sh, k, st.pairings[k])))
    ensures NothingChanged(NextDelta(e, cur)) <==> RunQuiet(e, cur)
  {
    hide Start, NextSuperHosts, SuperZonesChanged, PairingQuiet, StepLog, DiffOne, Expired;
    var st, d := Start(e, cur), NextDelta(e, cur);
    assert d.added == e.want.Keys - st.pairings.Keys;
    NoneLeft(e.want.Keys, st.pairings.Keys);
    forall k ensures k in d.removed <==> k in st.pairings && DiffOne(e, k, Some(st.pairings[k])).None? {}
    if d.removed == {} {
      forall k | k in st.pairings ensures DiffOne(e, k, Some(st.pairings[k])).Some? { assert k !in d.removed; }
    }
    assert d.sides.Keys == st.pairings.Keys + e.want.Keys;
  }
}
