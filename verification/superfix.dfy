/** The second run with super testing on: the state is a fixed point, and the report is
    empty exactly when no super path runs against the direction of its pairing
    (internal/reconcile/reconcile.go:285, 342-425, 455-458). */
module SuperFixpoint {
  import opened Base
  import opened Slots
  import opened Tables
  import opened Filling
  import opened Invariants
  import opened SuperSlots
  import opened Runs

  // ---------- the super hosts ----------

  lemma ChosenFixed(e: Env, before: map<string, seq<string>>, z: string)
    requires e.cfg.superHosts > 0 && forall y :: y in before ==> Distinct(before[y])
    requires z in e.members
    ensures var sh := NextSuperHosts(e, before);
            HostsOf(sh, z) == Chosen(e, before, z) && Chosen(e, sh, z) == Chosen(e, before, z)
  {
    EmptyDistinct<string>();
    PickSuperIdempotent(e.Members(z), e.matched, HostsOf(before, z), e.eligible, e.cfg.superHosts);
    hide PickSuper;
    var sh := NextSuperHosts(e, before);
    if z !in sh { assert z !in before; }
  }

  /** Choosing the super hosts again changes no zone. */
  lemma SuperHostsFixed(e: Env, before: map<string, seq<string>>)
    requires e.cfg.superHosts > 0 && forall z :: z in before ==> Distinct(before[z])
    ensures var sh := NextSuperHosts(e, before);
            NextSuperHosts(e, sh) == sh && SuperZonesChanged(e, sh) == {}
  {
    var sh := NextSuperHosts(e, before);
    hide Chosen, Distinct;
    forall z | z in e.members
      ensures HostsOf(sh, z) == Chosen(e, before, z) && Chosen(e, sh, z) == Chosen(e, before, z)
    {
      ChosenFixed(e, before, z);
    }
    assert NextSuperHosts(e, sh) == sh;
  }

  // ---------- the direction of a path ----------

  /** The source lies in the pairing's first zone. */
  predicate Forward(e: Env, zoneA: string, w: Path) {
    w.src in e.hostZone && e.hostZone[w.src] == zoneA
  }

  /** No super host of the second zone has a target in the first. */
  predicate OneDirection(e: Env, sh: map<string, seq<string>>, p: PairingV) {
    p.zoneA == p.zoneB || PathsFrom(e, HostsOf(sh, p.zoneB), p.zoneA) == []
  }

  lemma DirectionOf(e: Env, sh: map<string, seq<string>>, p: PairingV, w: Path)
    requires e.Valid() && SuperHostsOk(e, sh) && WantedPath(e, sh, p, w)
    ensures w.src in e.hostZone && w.dst in e.hostZone
    ensures if Forward(e, p.zoneA, w) then e.OkHost(w.src, p.zoneA) && e.OkHost(w.dst, p.zoneB)
            else p.zoneA != p.zoneB && e.hostZone[w.src] == p.zoneB && e.hostZone[w.dst] == p.zoneA
    ensures Forward(e, p.zoneA, w) <==> p.zoneA == p.zoneB || !Reaches(e, HostsOf(sh, p.zoneB), p.zoneA, w)
  {
    WantedHosts(e, sh, p, w);
    OneZone(e, sh, w.src, p.zoneA, p.zoneB);
  }

  lemma OneDirectionMeaning(e: Env, sh: map<string, seq<string>>, p: PairingV)
    requires e.Valid() && SuperHostsOk(e, sh)
    ensures OneDirection(e, sh, p) <==>
              forall j :: 0 <= j < |SuperPaths(e, sh, p)| ==> Forward(e, p.zoneA, SuperPaths(e, sh, p)[j])
  {
    hide SuperPaths, PathsFrom, Distinct, Sorted, Env.Valid, SuperHostsOk, Reaches, Forward;
    SuperPathsMeaning(e, sh, p);
    var ws := SuperPaths(e, sh, p);
    var back := PathsFrom(e, HostsOf(sh, p.zoneB), p.zoneA);
    forall w ensures w in back <==> Reaches(e, HostsOf(sh, p.zoneB), p.zoneA, w) {
      PathsFromMembers(e, HostsOf(sh, p.zoneB), p.zoneA, w);
    }
    forall j | 0 <= j < |ws| ensures Forward(e, p.zoneA, ws[j]) <==> p.zoneA == p.zoneB || ws[j] !in back {
      assert ws[j] in ws;
      DirectionOf(e, sh, p, ws[j]);
    }
    if p.zoneA != p.zoneB && back != [] {
      assert back[0] in back && back[0] in ws;
    }
  }

  /** No host of a zone is eligible. */
  ghost predicate Deserted(e: Env, z: string) {
    forall h :: !e.OkHost(h, z)
  }

  /** The inputs give no super path against the direction of the pairing. */
  ghost predicate OneWay(e: Env, p: PairingV) {
    p.zoneA == p.zoneB || e.cfg.superMaxTargets <= 0 || Deserted(e, p.zoneA) || Deserted(e, p.zoneB)
  }

  /** Whether a run has a path against the direction of a pairing is settled by its inputs. */
  lemma OneDirectionExact(e: Env, before: map<string, seq<string>>, p: PairingV)
    requires e.Valid() && e.cfg.superHosts > 0 && forall z :: z in before ==> Distinct(before[z])
    ensures OneDirection(e, NextSuperHosts(e, before), p) <==> OneWay(e, p)
  {
    hide PathsFrom, NextSuperHosts;
    var sh := NextSuperHosts(e, before);
    var back := PathsFrom(e, HostsOf(sh, p.zoneB), p.zoneA);
    NextSuperHostsOk(e, before);
    if p.zoneA != p.zoneB {
      if back != [] {
        PathsFromMembers(e, HostsOf(sh, p.zoneB), p.zoneA, back[0]);
        BackEnds(e, sh, p, back[0]);
      } else if !OneWay(e, p) {
        var w := BackPath(e, before, p);
        PathsFromMembers(e, HostsOf(sh, p.zoneB), p.zoneA, w);
      }
    }
  }

  lemma BackEnds(e: Env, sh: map<string, seq<string>>, p: PairingV, w: Path)
    requires e.Valid() && SuperHostsOk(e, sh) && Reaches(e, HostsOf(sh, p.zoneB), p.zoneA, w)
    ensures e.OkHost(w.src, p.zoneB) && e.OkHost(w.dst, p.zoneA) && e.cfg.superMaxTargets > 0
  {}

  lemma BackPath(e: Env, before: map<string, seq<string>>, p: PairingV) returns (w: Path)
    requires e.Valid() && e.cfg.superHosts > 0 && forall z :: z in before ==> Distinct(before[z])
    requires !OneWay(e, p)
    ensures Reaches(e, HostsOf(NextSuperHosts(e, before), p.zoneB), p.zoneA, w)
  {
    hide NextSuperHosts, Chosen, Env.Valid, SuperHostsOk, Targets, Distinct, Env.Members;
    var a :| e.OkHost(a, p.zoneA);
    var b :| e.OkHost(b, p.zoneB);
    SomeChosen(e, before, p.zoneB, b);
    ChosenFixed(e, before, p.zoneB);
    NextSuperHostsOk(e, before);
    var sh := NextSuperHosts(e, before);
    var src := HostsOf(sh, p.zoneB)[0];
    SuperHostIs(e, sh, p.zoneB, src);
    var dst := SomeTarget(e, src, p.zoneA, a);
    w := Path(src, dst);
  }

  lemma SuperHostIs(e: Env, sh: map<string, seq<string>>, z: string, h: string)
    requires e.Valid() && SuperHostsOk(e, sh) && h in HostsOf(sh, z)
    ensures e.OkHost(h, z)
  {}

  lemma SomeChosen(e: Env, before: map<string, seq<string>>, z: string, h: string)
    requires e.Valid() && e.cfg.superHosts > 0 && forall y :: y in before ==> Distinct(before[y])
    requires e.OkHost(h, z)
    ensures z in e.members && |Chosen(e, before, z)| > 0
  {
    assert h in e.Members(z);
    EmptyDistinct<string>();
    PickSuperCount(e.Members(z), e.matched, HostsOf(before, z), e.eligible, e.cfg.superHosts);
    assert h in Elems(e.Members(z)) * e.eligible;
    hide PickSuper;
  }

  lemma SomeTarget(e: Env, src: string, far: string, a: string) returns (dst: string)
    requires e.Valid() && e.cfg.superMaxTargets > 0 && e.OkHost(a, far) && a != src
    ensures dst in Targets(e.Members(far), src, e.eligible, e.cfg.superMaxTargets)
  {
    TargetsAreFirst(e.Members(far), src, e.eligible, e.cfg.superMaxTargets);
    assert a in e.Members(far);
    assert a in EligibleOf(e.Members(far), e.eligible - {src});
    dst := Targets(e.Members(far), src, e.eligible, e.cfg.superMaxTargets)[0];
  }

  // ---------- the first run ----------

  /** The tail of a table holds the wanted paths, those against the direction of the
      pairing in slots made in this very run. */
  ghost predicate TailExact(e: Env, zoneA: string, y: seq<Slot>, t: nat, ws: seq<Path>) {
    && TailHolds(y, t, ws)
    && forall j :: 0 <= j < |ws| && !Forward(e, zoneA, ws[j]) ==> y[t + j] == NewSuper(e, ws[j], t + j)
  }

  /** A slot against the direction of its pairing never survives validation, so its lookup
      key is not found. */
  lemma ReverseIsNew(e: Env, sh: map<string, seq<string>>, p: PairingV, tail: seq<Slot>, w: Path)
    requires e.Valid() && SuperHostsOk(e, sh) && WantedPath(e, sh, p, w) && !Forward(e, p.zoneA, w)
    requires !Shadowed(e, p.zoneA, w)
    requires forall i :: 0 <= i < |tail| ==> CheckedSuper(e, p, tail[i])
    ensures SuperKey(w.src, w.dst) !in Existing(tail)
  {
    hide Existing, WantedPath, SuperHostsOk;
    if SuperKey(w.src, w.dst) in Existing(tail) {
      WantedHosts(e, sh, p, w);
      var s := Existing(tail)[SuperKey(w.src, w.dst)];
      assert CheckedSuper(e, p, s);
      SameEnds(e, p.zoneA, s.a.host, s.target, w);
      assert false;
    }
  }

  lemma TableExact(e: Env, sh: map<string, seq<string>>, v: PairingV)
    requires e.Valid() && SuperHostsOk(e, sh) && Unshadowed(e, sh, v) && |v.slots| >= e.Layout().total
    requires forall i :: e.Layout().total <= i < |v.slots| ==> CheckedSuper(e, v, v.slots[i])
    ensures TailExact(e, v.zoneA, SuperTable(e, sh, v), e.Layout().total, SuperPaths(e, sh, v))
  {
    hide CheckedSuper, SuperTable, SuperPaths, Forward, ComputeLayout, SuperHostsOk, Env.Valid, Unshadowed, Shadowed,
         TailHolds;
    var t, ws, y := e.Layout().total, SuperPaths(e, sh, v), SuperTable(e, sh, v);
    SuperTableExact(e, sh, v);
    SuperTableSize(e, sh, v);
    forall j: nat | j < |ws| && !Forward(e, v.zoneA, ws[j]) ensures y[t + j] == NewSuper(e, ws[j], t + j) {
      SuperTableAt(e, sh, v, j);
      PathWanted(e, sh, v, j);
      TailChecked(e, v, t);
      ReverseIsNew(e, sh, v, Tail(v.slots, t), ws[j]);
    }
  }

  /** Filling leaves super slots alone. */
  lemma GrownSuper(e: Env, p: PairingV, x: seq<Slot>, y: seq<Slot>, t: nat, ws: seq<Path>)
    requires Grown(e, p, x, y) && TailExact(e, p.zoneA, x, t, ws)
    ensures TailExact(e, p.zoneA, y, t, ws)
  {
    forall i | t <= i < t + |ws| ensures y[i] == x[i] {
      assert SlotGrown(e, p, x[i], y[i]) && Holds(x[t + (i - t)], ws[i - t], i);
    }
    hide Grown;
  }

  lemma FirstRun(e: Env, sh: map<string, seq<string>>, k: string, cur: Option<PairingV>)
    requires e.Valid() && e.cfg.superHosts > 0 && SuperHostsOk(e, sh)
    requires k in e.want && CurOk(e, k, cur) && CurSupersOk(e, cur) && Unshadowed(e, sh, Diffed(e, k, cur))
    ensures var r := StepOne(e, sh, k, cur);
            r.Some? && Established(e, k, r.value)
              && TailExact(e, r.value.zoneA, r.value.slots, e.Layout().total, SuperPaths(e, sh, r.value))
  {
    ValidatedSupers(e, k, cur);
    UnshadowedSame(e, sh, Diffed(e, k, cur), Validated(e, k, cur));
    SuperedTable(e, sh, k, cur);
    StepEstablishes(e, sh, k, cur);
    FillSame(e, Supered(e, sh, k, cur));
    hide TailExact, Validated, SuperTable, SuperPaths, Established, FillOne, CheckedSuper, Env.Valid, SuperHostsOk,
         Unshadowed, Grown, ComputeLayout;
    var v, s, r := Validated(e, k, cur), Supered(e, sh, k, cur), StepOne(e, sh, k, cur).value;
    TableExact(e, sh, v);
    GrownSuper(e, s, s.slots, r.slots, e.Layout().total, SuperPaths(e, sh, v));
    assert r == FillOne(e, s);
    SuperPathsSame(e, sh, v, r);
  }

  // ---------- the second run ----------

  /** A validated super slot: as it was when its path runs with the pairing, emptied
      otherwise. */
  ghost predicate Checked(e: Env, zoneA: string, s: Slot, r: Slot, w: Path) {
    if Forward(e, zoneA, w) then r == s else r == s.(a := EMPTY, b := EMPTY)
  }

  lemma CheckedTail(e: Env, sh: map<string, seq<string>>, p: PairingV, s: Slot, w: Path, i: int)
    requires e.Valid() && SuperHostsOk(e, sh) && WantedPath(e, sh, p, w) && Holds(s, w, i)
    ensures Checked(e, p.zoneA, s, CheckSlot(e, p, s), w)
    ensures Forward(e, p.zoneA, w) <==> CheckEntry(e, p, s, SideA) + CheckEntry(e, p, s, SideB) == []
  {
    DirectionOf(e, sh, p, w);
    WantedHosts(e, sh, p, w);
    hide WantedPath, SuperHostsOk;
  }

  /** The tail after validation. */
  ghost predicate TailChecked2(e: Env, zoneA: string, tail: seq<Slot>, ws: seq<Path>) {
    && |tail| == |ws|
    && forall i :: 0 <= i < |tail| ==>
         && tail[i].cls == Super && tail[i].target == ws[i].dst && ws[i].dst != ""
         && tail[i].a.host == (if Forward(e, zoneA, ws[i]) then ws[i].src else "")
         && (tail[i].a.host == "" || e.OkHost(tail[i].a.host, zoneA))
  }

  lemma {:induction false} ExistingLast(tail: seq<Slot>, j: nat)
    requires j < |tail| && tail[j].cls == Super
    requires forall i :: 0 <= i < |tail| && i != j && tail[i].cls == Super ==>
               SuperKey(tail[i].a.host, tail[i].target) != SuperKey(tail[j].a.host, tail[j].target)
    ensures SuperKey(tail[j].a.host, tail[j].target) in Existing(tail)
    ensures Existing(tail)[SuperKey(tail[j].a.host, tail[j].target)] == tail[j]
  {
    hide SuperKey;
    var n := |tail| - 1;
    if j < n { ExistingLast(tail[..n], j); }
  }

  ghost predicate NoneShadowed(e: Env, zoneA: string, ws: seq<Path>) {
    forall j :: 0 <= j < |ws| ==> !Shadowed(e, zoneA, ws[j])
  }

  /** The ends of every path are hosts; the empty name is none. */
  ghost predicate Sources(e: Env, ws: seq<Path>) {
    "" !in e.hosts && forall i :: 0 <= i < |ws| ==> ws[i].src in e.hosts
  }

  lemma FoundForward(e: Env, zoneA: string, tail: seq<Slot>, ws: seq<Path>, j: nat)
    requires TailChecked2(e, zoneA, tail, ws) && NoneShadowed(e, zoneA, ws) && Distinct(ws) && Sources(e, ws)
               && j < |ws| && Forward(e, zoneA, ws[j])
    ensures SuperKey(ws[j].src, ws[j].dst) in Existing(tail)
              && Existing(tail)[SuperKey(ws[j].src, ws[j].dst)] == tail[j]
  {
    hide SuperKey, Forward, Shadowed, Existing;
    forall i | 0 <= i < |tail| && i != j
      ensures SuperKey(tail[i].a.host, tail[i].target) != SuperKey(tail[j].a.host, tail[j].target)
    {
      if SuperKey(tail[i].a.host, tail[i].target) == SuperKey(tail[j].a.host, tail[j].target) {
        SameEnds(e, zoneA, tail[i].a.host, tail[i].target, ws[j]);
        assert false;
      }
    }
    ExistingLast(tail, j);
  }

  lemma ReverseNotFound(e: Env, zoneA: string, tail: seq<Slot>, ws: seq<Path>, j: nat)
    requires TailChecked2(e, zoneA, tail, ws) && NoneShadowed(e, zoneA, ws) && Sources(e, ws) && j < |ws|
               && !Forward(e, zoneA, ws[j])
    ensures SuperKey(ws[j].src, ws[j].dst) !in Existing(tail)
  {
    hide SuperKey, Shadowed, Existing;
    var k := SuperKey(ws[j].src, ws[j].dst);
    if k in Existing(tail) {
      var i :| 0 <= i < |tail| && tail[i] == Existing(tail)[k];
      SameEnds(e, zoneA, tail[i].a.host, tail[i].target, ws[j]);
      assert false;
    }
  }

  /** Rebuilding from the validated tail gives the table of the first run back. */
  lemma RebuiltSame(e: Env, zoneA: string, y: seq<Slot>, t: nat, tail: seq<Slot>, ws: seq<Path>, j: nat)
    requires TailExact(e, zoneA, y, t, ws) && TailChecked2(e, zoneA, tail, ws) && NoneShadowed(e, zoneA, ws)
               && Distinct(ws) && Sources(e, ws) && j < |ws|
    requires Forward(e, zoneA, ws[j]) ==> tail[j] == y[t + j]
    ensures SuperSlot(e, Existing(tail), ws[j], t + j) == y[t + j]
    ensures SuperKey(ws[j].src, ws[j].dst) in Existing(tail) <==> Forward(e, zoneA, ws[j])
  {
    hide SuperKey, Forward, NoneShadowed, Existing, Sources, TailChecked2, Distinct;
    if Forward(e, zoneA, ws[j]) {
      FoundForward(e, zoneA, tail, ws, j);
      assert Holds(y[t + j], ws[j], t + j);
    } else {
      ReverseNotFound(e, zoneA, tail, ws, j);
    }
  }

  /** When every path runs with its pairing, every slot found is used. */
  lemma AllUsed(e: Env, zoneA: string, tail: seq<Slot>, ws: seq<Path>)
    requires TailChecked2(e, zoneA, tail, ws) && forall j :: 0 <= j < |ws| ==> Forward(e, zoneA, ws[j])
    ensures Existing(tail).Keys <= UsedKeys(ws)
  {
    hide SuperKey, Forward, Existing;
    forall k | k in Existing(tail) ensures k in UsedKeys(ws) {
      var i :| 0 <= i < |tail| && tail[i] == Existing(tail)[k];
      assert ws[i] in ws && k == SuperKey(ws[i].src, ws[i].dst);
    }
  }

  // ---------- one pairing twice ----------

  /** A table as a first run leaves it. */
  ghost predicate Left(e: Env, sh: map<string, seq<string>>, k: string, p: PairingV) {
    Established(e, k, p) && TailExact(e, p.zoneA, p.slots, e.Layout().total, SuperPaths(e, sh, p))
  }

  lemma PathFacts(e: Env, sh: map<string, seq<string>>, p: PairingV)
    requires e.Valid() && SuperHostsOk(e, sh)
    ensures Distinct(SuperPaths(e, sh, p)) && Sources(e, SuperPaths(e, sh, p))
    ensures Unshadowed(e, sh, p) ==> NoneShadowed(e, p.zoneA, SuperPaths(e, sh, p))
    ensures forall j :: 0 <= j < |SuperPaths(e, sh, p)| ==> WantedPath(e, sh, p, SuperPaths(e, sh, p)[j])
  {
    SuperPathsMeaning(e, sh, p);
    hide SuperPaths, WantedPath, SuperHostsOk, Shadowed;
    var ws := SuperPaths(e, sh, p);
    forall j | 0 <= j < |ws| ensures WantedPath(e, sh, p, ws[j]) && ws[j].src in e.hosts {
      assert ws[j] in ws;
      WantedHosts(e, sh, p, ws[j]);
    }
  }

  /** Validation of such a table. */
  lemma ValidateLeft(e: Env, sh: map<string, seq<string>>, k: string, p: PairingV)
    requires e.Valid() && SuperHostsOk(e, sh) && Left(e, sh, k, p)
    ensures var t, ws, v := e.Layout().total, SuperPaths(e, sh, p), Validate(e, p);
            && |p.slots| == |v| == t + |ws| && v[..t] == p.slots[..t]
            && TailChecked2(e, p.zoneA, v[t..], ws)
            && (forall j :: 0 <= j < |ws| && Forward(e, p.zoneA, ws[j]) ==> v[t + j] == p.slots[t + j])
  {
    hide Validate, SuperPaths, WantedPath, SuperHostsOk, Forward, Distinct, Sources, Established, ComputeLayout,
         Env.Valid, TailHolds;
    var t, ws, v := e.Layout().total, SuperPaths(e, sh, p), Validate(e, p);
    ValidateBase(e, k, p);
    TailSize(p.slots, t, ws);
    assert |v| == |p.slots| by { ValidateSize(e, p); }
    var tail := v[t..];
    forall j | 0 <= j < |ws|
      ensures tail[j].cls == Super && tail[j].target == ws[j].dst && ws[j].dst != ""
      ensures tail[j].a.host == if Forward(e, p.zoneA, ws[j]) then ws[j].src else ""
      ensures tail[j].a.host == "" || e.OkHost(tail[j].a.host, p.zoneA)
      ensures Forward(e, p.zoneA, ws[j]) ==> v[t + j] == p.slots[t + j]
    {
      ValidateTail(e, sh, k, p, j);
      assert tail[j] == v[t + j];
    }
  }

  lemma TailSize(y: seq<Slot>, t: nat, ws: seq<Path>)
    requires TailHolds(y, t, ws)
    ensures |y| == t + |ws|
  {}

  lemma ValidateSize(e: Env, p: PairingV)
    ensures |Validate(e, p)| == |p.slots|
  {}

  lemma ValidateBase(e: Env, k: string, p: PairingV)
    requires e.Valid() && Established(e, k, p)
    ensures |Validate(e, p)| == |p.slots| >= e.Layout().total
    ensures Validate(e, p)[..e.Layout().total] == p.slots[..e.Layout().total]
  {
    hide Consistent, Settled, Classed, ComputeLayout;
    var t := e.Layout().total;
    forall i | 0 <= i < t ensures Validate(e, p)[i] == p.slots[i] { assert p.slots[i].cls != Super; }
  }

  lemma ValidateTail(e: Env, sh: map<string, seq<string>>, k: string, p: PairingV, j: nat)
    requires e.Valid() && SuperHostsOk(e, sh) && Left(e, sh, k, p) && j < |SuperPaths(e, sh, p)|
    ensures var t, ws := e.Layout().total, SuperPaths(e, sh, p);
            && |p.slots| == t + |ws| && Holds(p.slots[t + j], ws[j], t + j)
            && Validate(e, p)[t + j] == CheckSlot(e, p, p.slots[t + j])
            && Checked(e, p.zoneA, p.slots[t + j], CheckSlot(e, p, p.slots[t + j]), ws[j])
            && (Forward(e, p.zoneA, ws[j]) <==>
                 CheckEntry(e, p, p.slots[t + j], SideA) + CheckEntry(e, p, p.slots[t + j], SideB) == [])
            && ws[j].dst != "" && (Forward(e, p.zoneA, ws[j]) ==> e.OkHost(ws[j].src, p.zoneA))
  {
    hide SuperPaths, WantedPath, SuperHostsOk, Established, Forward, CheckSlot, CheckEntry, Checked, ComputeLayout;
    PathFacts(e, sh, p);
    var t, ws := e.Layout().total, SuperPaths(e, sh, p);
    CheckedTail(e, sh, p, p.slots[t + j], ws[j], t + j);
    DirectionOf(e, sh, p, ws[j]);
  }

  /** The super pass on the validated table. */
  lemma SuperLeft(e: Env, sh: map<string, seq<string>>, k: string, p: PairingV)
    requires e.Valid() && SuperHostsOk(e, sh) && Unshadowed(e, sh, p) && Left(e, sh, k, p)
    ensures SuperTable(e, sh, p.(slots := Validate(e, p))) == p.slots
  {
    var t, ws, v := e.Layout().total, SuperPaths(e, sh, p), Validate(e, p);
    var q := p.(slots := v);
    hide Validate, SuperTable, SuperPaths, SuperSlot, Existing, Established, Forward, Unshadowed, NoneShadowed,
         TailExact,
         TailChecked2, Distinct, Sources, SuperHostsOk, Env.Valid, ComputeLayout;
    ValidateLeft(e, sh, k, p);
    PathFacts(e, sh, p);
    SuperPathsSame(e, sh, p, q);
    SuperTableSize(e, sh, q);
    var y := SuperTable(e, sh, q);
    SuperTableBase(e, sh, q);
    forall i | 0 <= i < |y| ensures y[i] == p.slots[i] {
      if i < t {
        assert y[i] == v[..t][i];
      } else {
        SuperTableAt(e, sh, q, i - t);
        RebuiltSame(e, p.zoneA, p.slots, t, v[t..], ws, i - t);
      }
    }
  }

  lemma SuperTableBase(e: Env, sh: map<string, seq<string>>, p: PairingV)
    requires |p.slots| >= e.Layout().total
    ensures |SuperTable(e, sh, p)| >= e.Layout().total
              && SuperTable(e, sh, p)[..e.Layout().total] == p.slots[..e.Layout().total]
  {
    hide SuperPaths, SuperSlot, Existing, ComputeLayout;
  }

  lemma TailReport(e: Env, sh: map<string, seq<string>>, k: string, p: PairingV, j: nat)
    requires e.Valid() && SuperHostsOk(e, sh) && Left(e, sh, k, p) && j < |SuperPaths(e, sh, p)|
    ensures |ValidateChunks(e, p)| == e.Layout().total + |SuperPaths(e, sh, p)|
    ensures ValidateChunks(e, p)[e.Layout().total + j] == [] <==> Forward(e, p.zoneA, SuperPaths(e, sh, p)[j])
  {
    hide SuperPaths, SuperHostsOk, Left, Forward, CheckSlot, CheckEntry, ComputeLayout, Env.Valid;
    ValidateTail(e, sh, k, p, j);
  }

  lemma LeftParts(e: Env, sh: map<string, seq<string>>, k: string, p: PairingV)
    requires Left(e, sh, k, p)
    ensures Established(e, k, p) && |ValidateChunks(e, p)| == |p.slots| == e.Layout().total + |SuperPaths(e, sh, p)|
  {
    hide SuperPaths, Established, Forward, ComputeLayout, CheckEntry;
  }

  /** Validation reports nothing exactly when every path runs with the pairing. */
  lemma ValidateReport(e: Env, sh: map<string, seq<string>>, k: string, p: PairingV)
    requires e.Valid() && SuperHostsOk(e, sh) && Left(e, sh, k, p)
    ensures Flatten(ValidateChunks(e, p)) == [] <==> OneDirection(e, sh, p)
  {
    hide *;
    var t, ws, chunks := e.Layout().total, SuperPaths(e, sh, p), ValidateChunks(e, p);
    LeftParts(e, sh, k, p);
    OneDirectionMeaning(e, sh, p);
    if OneDirection(e, sh, p) {
      BaseReport(e, k, p);
      forall i | 0 <= i < |chunks| ensures chunks[i] == [] { if t <= i { TailReport(e, sh, k, p, i - t); } }
      FlattenEmpty(chunks);
    } else {
      var j :| 0 <= j < |ws| && !Forward(e, p.zoneA, ws[j]);
      TailReport(e, sh, k, p, j);
      FlattenSome(chunks, t + j);
    }
  }

  lemma BaseReport(e: Env, k: string, p: PairingV)
    requires e.Valid() && Established(e, k, p)
    ensures |ValidateChunks(e, p)| == |p.slots|
    ensures forall i :: 0 <= i < e.Layout().total ==> ValidateChunks(e, p)[i] == []
  {
    hide Consistent, Settled, Classed, ComputeLayout;
    forall i | 0 <= i < e.Layout().total ensures ValidateChunks(e, p)[i] == [] { assert p.slots[i].cls != Super; }
  }

  /** When every path runs with the pairing the super pass reports nothing. */
  lemma SuperReport(e: Env, sh: map<string, seq<string>>, k: string, p: PairingV)
    requires e.Valid() && SuperHostsOk(e, sh) && Unshadowed(e, sh, p) && Left(e, sh, k, p) && OneDirection(e, sh, p)
    ensures SuperLog(e, sh, p.(slots := Validate(e, p))) == multiset{}
  {
    hide Validate, SuperPaths, Existing, Established, Forward, Unshadowed, NoneShadowed, TailChecked2, Distinct,
         Sources,
         SuperHostsOk, Env.Valid, ComputeLayout, OneDirection, Flatten, SuperKey, TailHolds, UsedKeys, RemovedBag;
    var t, ws, v := e.Layout().total, SuperPaths(e, sh, p), Validate(e, p);
    var q := p.(slots := v);
    ValidateLeft(e, sh, k, p);
    PathFacts(e, sh, p);
    OneDirectionMeaning(e, sh, p);
    SuperPathsSame(e, sh, p, q);
    var ex := Existing(Tail(q.slots, t));
    assert Tail(q.slots, t) == v[t..];
    forall j: nat | j < |ws| ensures SuperKey(ws[j].src, ws[j].dst) in ex {
      RebuiltSame(e, p.zoneA, p.slots, t, v[t..], ws, j);
    }
    FlattenEmpty(SuperChunks(e, sh, q));
    AllUsed(e, p.zoneA, v[t..], ws);
    assert ex.Keys - UsedKeys(ws) == {};
    NothingRemoved(q.key, ex);
  }

  lemma NothingRemoved(key: string, ex: map<string, Slot>)
    ensures RemovedBag(key, ex, {}) == multiset{}
  {}

  /** A second run leaves the pairing as it is, and reports nothing exactly when no path
      runs against it. */
  lemma SecondRun(e: Env, sh: map<string, seq<string>>, k: string, p: PairingV)
    requires e.Valid() && e.cfg.superHosts > 0 && SuperHostsOk(e, sh) && Unshadowed(e, sh, p) && k in e.want
               && Left(e, sh, k, p)
    ensures StepOne(e, sh, k, Some(p)) == Some(p)
    ensures StepLog(e, sh, k, Some(p)) == multiset{} <==> OneDirection(e, sh, p)
  {
    hide Resize, ResizeLog, Validate, ValidateChunks, SuperTable, SuperLog, FillTable, Flatten, Left, SuperHostsOk,
         Unshadowed, Env.Valid, OneDirection, ComputeLayout, StepOne, StepLog;
    LeftFixed(e, sh, k, p);
    SuperLeft(e, sh, k, p);
    ValidateReport(e, sh, k, p);
    if OneDirection(e, sh, p) { SuperReport(e, sh, k, p); }
    StepAgain(e, sh, k, p);
    var log := Flatten(ValidateChunks(e, p));
    assert log != [] ==> multiset(log)[log[0]] > 0;
  }

  lemma LeftFixed(e: Env, sh: map<string, seq<string>>, k: string, p: PairingV)
    requires e.Valid() && Left(e, sh, k, p)
    ensures Resize(p.slots, e.Layout()) == p.slots && ResizeLog(k, p.slots, e.Layout()) == []
    ensures FillTable(e, p) == Fill(p.slots, []) && p.Active() && p.key == k
  {
    ResizeFixed(k, p.slots, e.Layout());
    FillTableFixed(e, p);
  }

  /** The passes of a second run on such a table. */
  lemma StepAgain(e: Env, sh: map<string, seq<string>>, k: string, p: PairingV)
    requires e.cfg.superHosts > 0 && k in e.want && p.Active() && p.key == k
    requires Resize(p.slots, e.Layout()) == p.slots && ResizeLog(k, p.slots, e.Layout()) == []
    requires SuperTable(e, sh, p.(slots := Validate(e, p))) == p.slots && FillTable(e, p) == Fill(p.slots, [])
    ensures StepOne(e, sh, k, Some(p)) == Some(p)
    ensures StepLog(e, sh, k, Some(p)) == multiset(Flatten(ValidateChunks(e, p)))
              + SuperLog(e, sh, p.(slots := Validate(e, p)))
  {
    hide Resize, ResizeLog, Validate, ValidateChunks, SuperTable, SuperLog, FillTable, Flatten, ComputeLayout;
    assert p.(removeAt := None, slots := p.slots) == p && p.(slots := p.slots) == p;
  }

  // ---------- the whole state twice ----------

  /** The super slots of every stored table hold a source and their target. */
  ghost predicate SupersOk(st: StateV) {
    st.slotsConfig.Some? ==>
      forall k :: k in st.pairings ==> SupersShaped(st.pairings[k].slots, Total(st.slotsConfig.value))
  }

  /** No wanted path of a wanted pairing of this state is shadowed. */
  ghost predicate AllUnshadowed(e: Env, st: StateV) {
    forall k :: k in e.want && k in st.pairings ==> Unshadowed(e, st.superHosts, st.pairings[k])
  }

  lemma StartSupersOk(e: Env, cur: Option<StateV>, k: string)
    requires cur.Some? ==> SupersOk(cur.value)
    ensures CurSupersOk(e, Get(Start(e, cur).pairings, k))
  {
    FingerprintTotal(e.cfg);
    hide SupersShaped, ComputeLayout;
  }

  lemma NextLeft(e: Env, cur: Option<StateV>, k: string)
    requires e.Valid() && e.cfg.superHosts > 0 && (cur.Some? ==> StateOk(cur.value) && SupersOk(cur.value))
    requires k in e.want && AllUnshadowed(e, Next(e, cur))
    ensures var n := Next(e, cur);
            k in n.pairings && SuperHostsOk(e, n.superHosts) && Left(e, n.superHosts, k, n.pairings[k])
            && Unshadowed(e, n.superHosts, n.pairings[k])
  {
    StartOk(e, cur);
    StartSupersOk(e, cur, k);
    NextPairingOk(e, cur, k);
    NextAt(e, cur, k);
    var st := Start(e, cur);
    var sh := NextSuperHosts(e, st.superHosts);
    SuperHostsDistinct(st);
    NextSuperHostsOk(e, st.superHosts);
    assert StoredOk(e, k, Get(st.pairings, k));
    hide StepOne, StateOk, SupersOk, Start, NextSuperHosts, SuperHostsOk, Established, TailExact, SuperPaths, Env.Valid,
         Unshadowed, PairingOk, ComputeLayout;
    SameZones(e, sh, k, Get(st.pairings, k));
    UnshadowedSame(e, sh, Next(e, cur).pairings[k], Diffed(e, k, Get(st.pairings, k)));
    FirstRun(e, sh, k, Get(st.pairings, k));
  }

  lemma LeftShaped(e: Env, sh: map<string, seq<string>>, k: string, p: PairingV)
    requires Left(e, sh, k, p)
    ensures SupersShaped(p.slots, e.Layout().total)
  {
    hide Forward, SuperPaths, Established, ComputeLayout;
    var t, ws := e.Layout().total, SuperPaths(e, sh, p);
    forall i | t <= i < |p.slots| ensures SuperShape(p.slots[i]) { assert Holds(p.slots[t + (i - t)], ws[i - t], i); }
  }

  /** The super slots a run leaves for one pairing. */
  lemma NextShaped(e: Env, cur: Option<StateV>, k: string)
    requires e.Valid() && (cur.Some? ==> StateOk(cur.value) && SupersOk(cur.value))
    requires (e.cfg.superHosts > 0 ==> AllUnshadowed(e, Next(e, cur))) && k in Next(e, cur).pairings
    ensures SupersShaped(Next(e, cur).pairings[k].slots, e.Layout().total)
  {
    hide Next, Established, StateOk, SupersOk, ComputeLayout, PairingOk, Start, StepOne, Env.Valid, AllUnshadowed, Left;
    NextPairingOk(e, cur, k);
    if k in e.want {
      if e.cfg.superHosts > 0 {
        NextLeft(e, cur, k);
        LeftShaped(e, Next(e, cur).superHosts, k, Next(e, cur).pairings[k]);
      }
    } else {
      StartOk(e, cur);
      StartSupersOk(e, cur, k);
      NextAt(e, cur, k);
      var st := Start(e, cur);
      StaleStep(e, NextSuperHosts(e, st.superHosts), k, st.pairings[k]);
    }
  }

  lemma NextSupersOk(e: Env, cur: Option<StateV>)
    requires e.Valid() && (cur.Some? ==> StateOk(cur.value) && SupersOk(cur.value))
    requires e.cfg.superHosts > 0 ==> AllUnshadowed(e, Next(e, cur))
    ensures SupersOk(Next(e, cur))
  {
    hide Next, StateOk, SupersShaped, ComputeLayout, Env.Valid, AllUnshadowed;
    NextFields(e, cur);
    FingerprintTotal(e.cfg);
    forall k | k in Next(e, cur).pairings ensures SupersShaped(Next(e, cur).pairings[k].slots, e.Layout().total) {
      hide SupersOk;
      NextShaped(e, cur, k);
    }
  }

  /** Valid inputs, and no run of the sequence wants a shadowed path. */
  ghost predicate ClearRuns(es: seq<Env>) {
    && (forall i :: 0 <= i < |es| ==> es[i].Valid())
    && (forall i :: 0 <= i < |es| && es[i].cfg.superHosts > 0 ==>
         AllUnshadowed(es[i], Next(es[i], RunAll(es[..i]))))
  }

  lemma {:induction false} RunSupersOk(es: seq<Env>)
    requires ClearRuns(es)
    ensures RunAll(es).Some? ==> SupersOk(RunAll(es).value)
  {
    hide SupersOk, Env.Valid, Next, AllUnshadowed;
    if |es| > 0 {
      var n := |es| - 1;
      ClearPrefix(es);
      RunSupersOk(es[..n]);
      RunAllOk(es[..n]);
      NextSupersOk(es[n], RunAll(es[..n]));
    }
  }

  lemma ClearPrefix(es: seq<Env>)
    requires ClearRuns(es) && |es| > 0
    ensures ClearRuns(es[..|es| - 1])
    ensures es[|es| - 1].Valid()
    ensures es[|es| - 1].cfg.superHosts > 0 ==> AllUnshadowed(es[|es| - 1], Next(es[|es| - 1], RunAll(es[..|es| - 1])))
  {
    hide Env.Valid, Next, AllUnshadowed, RunAll;
    var n := |es| - 1;
    assert es[..n + 1] == es;
    forall i | 0 <= i < n && es[..n][i].cfg.superHosts > 0
      ensures AllUnshadowed(es[..n][i], Next(es[..n][i], RunAll(es[..n][..i])))
    {
      assert es[..n][..i] == es[..i];
    }
  }

  /** After any sequence of runs the super slots of an active pairing are exactly the wanted
      paths between the super hosts of the last run, in order. */
  lemma RunSupersExact(es: seq<Env>, k: string)
    requires |es| > 0 && ClearRuns(es) && es[|es| - 1].cfg.superHosts > 0
    requires k in RunAll(es).value.pairings && RunAll(es).value.pairings[k].Active()
    ensures var e, n := es[|es| - 1], RunAll(es).value;
            TailHolds(n.pairings[k].slots, e.Layout().total, SuperPaths(e, n.superHosts, n.pairings[k]))
  {
    hide SupersOk, Env.Valid, Next, AllUnshadowed, StateOk, SuperPaths, TailHolds, Established, ClearRuns;
    var n := |es| - 1;
    ClearPrefix(es);
    RunSupersOk(es[..n]);
    RunsValid(es);
    RunAllOk(es[..n]);
    ActiveIsWanted(es[n], RunAll(es[..n]), k);
    NextLeft(es[n], RunAll(es[..n]), k);
  }

  lemma RunsValid(es: seq<Env>)
    requires ClearRuns(es)
    ensures forall i :: 0 <= i < |es| ==> es[i].Valid()
  {}

  lemma NextUnwanted(e: Env, cur: Option<StateV>, k: string)
    requires e.Valid() && e.hold > 0 && (cur.Some? ==> StateOk(cur.value)) && k !in e.want
               && k in Next(e, cur).pairings
    ensures var p := Next(e, cur).pairings[k];
            && p.removeAt.Some? && e.now < p.removeAt.value && StoredOk(e, k, Some(p))
  {
    NextPairingOk(e, cur, k);
    StartOk(e, cur);
    NextAt(e, cur, k);
    hide Next, Established, StateOk, ComputeLayout, PairingOk, Start, StepOne, Env.Valid, StoredOk;
    var st := Start(e, cur);
    StaleStep(e, NextSuperHosts(e, st.superHosts), k, st.pairings[k]);
  }

  /** What a second run does to one pairing of the result. */
  lemma AgainAt(e: Env, cur: Option<StateV>, k: string)
    requires e.Valid() && e.cfg.superHosts > 0 && e.hold > 0 && (cur.Some? ==> StateOk(cur.value))
               && k in Next(e, cur).pairings
    requires (cur.Some? ==> SupersOk(cur.value)) && AllUnshadowed(e, Next(e, cur))
    ensures var n := Next(e, cur);
            && StepOne(e, n.superHosts, k, Some(n.pairings[k])) == Some(n.pairings[k])
            && DiffOne(e, k, Some(n.pairings[k])).Some?
            && (StepLog(e, n.superHosts, k, Some(n.pairings[k])) == multiset{}
                <==> (k in e.want ==> OneDirection(e, n.superHosts, n.pairings[k])))
  {
    WantedStays(e, k, Next(e, cur).pairings[k]);
    hide Next, StepOne, StepLog, StateOk, Left, SuperHostsOk, Env.Valid, Unshadowed, OneDirection, StoredOk,
         ComputeLayout, Resize;
    var n := Next(e, cur);
    if k in e.want {
      NextLeft(e, cur, k);
      SecondRun(e, n.superHosts, k, n.pairings[k]);
    } else {
      NextUnwanted(e, cur, k);
      StaleStep(e, n.superHosts, k, n.pairings[k]);
      assert n.pairings[k].(removeAt := n.pairings[k].removeAt) == n.pairings[k];
    }
  }

  /** A run from the result of a run with the same inputs starts from that result. */
  lemma AgainStart(e: Env, cur: Option<StateV>)
    requires e.Valid() && e.cfg.superHosts > 0 && (cur.Some? ==> StateOk(cur.value))
    ensures var n := Next(e, cur);
            Start(e, Some(n)) == n && NextSuperHosts(e, n.superHosts) == n.superHosts
              && SuperZonesChanged(e, n.superHosts) == {}
    ensures forall k :: k in e.want ==> k in Next(e, cur).pairings
  {
    NextFields(e, cur);
    StartOk(e, cur);
    var st := Start(e, cur);
    SuperHostsDistinct(st);
    SuperHostsFixed(e, st.superHosts);
    forall k | k in e.want ensures k in Next(e, cur).pairings { NextPairingOk(e, cur, k); }
    hide StepOne, NextSuperHosts, SuperZonesChanged, StateOk, Distinct, Env.Valid;
  }

  /** With super testing on and no wanted path shadowed, a second run with the same inputs
      at the same time leaves the state as it is; it reports nothing exactly when no super
      host of any wanted pairing's second zone has a target in its first. Otherwise those
      super slots, which hold their hosts on the sides of the other zone, are cleared and
      made again on every run. */
  lemma FixpointWithSupers(e: Env, cur: Option<StateV>)
    requires e.Valid() && e.cfg.superHosts > 0 && e.hold > 0 && (cur.Some? ==> StateOk(cur.value))
    requires (cur.Some? ==> SupersOk(cur.value)) && AllUnshadowed(e, Next(e, cur))
    ensures var n := Next(e, cur);
            && Next(e, Some(n)) == n
            && (NothingChanged(NextDelta(e, Some(n)))
                <==> forall k :: k in e.want ==> k in n.pairings && OneDirection(e, n.superHosts, n.pairings[k]))
  {
    hide Next, NextDelta, NothingChanged, StepOne, StepLog, DiffOne, Start, NextSuperHosts, SuperZonesChanged,
         OneDirection, StateOk, SupersOk, AllUnshadowed, Env.Valid, Get;
    var n := Next(e, cur);
    AgainStart(e, cur);
    forall k | k in n.pairings
      ensures StepOne(e, n.superHosts, k, Get(n.pairings, k)) == Some(n.pairings[k])
                && DiffOne(e, k, Some(n.pairings[k])).Some?
      ensures StepLog(e, n.superHosts, k, Get(n.pairings, k)) == multiset{} <==>
                (k in e.want ==> OneDirection(e, n.superHosts, n.pairings[k]))
    {
      AgainAt(e, cur, k);
      GetOf(n.pairings, k);
    }
    SameAgain(e, n);
  }

  /** The same condition on the inputs: the second report is empty if and only if every wanted
      pairing lies inside one zone, no source has a target, or one of its zones has no eligible
      host. The pairing is the stored one, or a new one between the wanted zones. */
  lemma SilentSecondRun(e: Env, cur: Option<StateV>)
    requires e.Valid() && e.cfg.superHosts > 0 && e.hold > 0 && (cur.Some? ==> StateOk(cur.value))
    requires (cur.Some? ==> SupersOk(cur.value)) && AllUnshadowed(e, Next(e, cur))
    ensures NothingChanged(NextDelta(e, Some(Next(e, cur)))) <==>
              forall k :: k in e.want ==> OneWay(e, Before(e, k, Get(Start(e, cur).pairings, k)))
  {
    hide Next, NextDelta, NothingChanged, Start, OneDirection, StateOk, SupersOk, AllUnshadowed, Env.Valid, Get,
         OneWay, Before;
    FixpointWithSupers(e, cur);
    var n := Next(e, cur);
    forall k | k in e.want
      ensures k in n.pairings
      ensures OneDirection(e, n.superHosts, n.pairings[k]) <==> OneWay(e, Before(e, k, Get(Start(e, cur).pairings, k)))
    {
      SilentAt(e, cur, k);
    }
  }

  lemma SilentAt(e: Env, cur: Option<StateV>, k: string)
    requires e.Valid() && e.cfg.superHosts > 0 && (cur.Some? ==> StateOk(cur.value)) && k in e.want
    ensures var n := Next(e, cur);
            k in n.pairings && (OneDirection(e, n.superHosts, n.pairings[k])
                                <==> OneWay(e, Before(e, k, Get(Start(e, cur).pairings, k))))
  {
    hide StepOne, StateOk, Start, NextSuperHosts, OneDirection, Env.Valid, Established, PairingOk, Deserted, StoredOk;
    StartOk(e, cur);
    NextPairingOk(e, cur, k);
    NextAt(e, cur, k);
    var st := Start(e, cur);
    SuperHostsDistinct(st);
    SameZones(e, NextSuperHosts(e, st.superHosts), k, Get(st.pairings, k));
    OneDirectionExact(e, st.superHosts, Next(e, cur).pairings[k]);
  }

  lemma GetOf(m: map<string, PairingV>, k: string)
    requires k in m
    ensures Get(m, k) == Some(m[k])
  {}

  /** Assembles the second run from its pairings. */
  lemma SameAgain(e: Env, n: StateV)
    requires Start(e, Some(n)) == n && NextSuperHosts(e, n.superHosts) == n.superHosts
               && SuperZonesChanged(e, n.superHosts) == {}
    requires forall k :: k in e.want ==> k in n.pairings
    requires forall k :: k in n.pairings ==>
               StepOne(e, n.superHosts, k, Get(n.pairings, k)) == Some(n.pairings[k])
                 && DiffOne(e, k, Some(n.pairings[k])).Some?
    requires forall k :: k in n.pairings ==>
               (StepLog(e, n.superHosts, k, Get(n.pairings, k)) == multiset{} <==>
                 (k in e.want ==> OneDirection(e, n.superHosts, n.pairings[k])))
    ensures Next(e, Some(n)) == n
    ensures NothingChanged(NextDelta(e, Some(n)))
            <==> forall k :: k in e.want ==> k in n.pairings && OneDirection(e, n.superHosts, n.pairings[k])
  {
    hide StepOne, StepLog, DiffOne, Start, NextSuperHosts, SuperZonesChanged, OneDirection, Get;
    assert n.pairings.Keys + e.want.Keys == n.pairings.Keys;
    assert Next(e, Some(n)).pairings == n.pairings;
    var d := NextDelta(e, Some(n));
    assert d.added == {} && d.removed == {} && d.supers == {};
    assert d.sides.Keys == n.pairings.Keys;
    assert forall k :: k in d.sides ==> d.sides[k] == StepLog(e, n.superHosts, k, Get(n.pairings, k));
  }
}
