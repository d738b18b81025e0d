/** One whole reconcile: inputs to new state and change report
    (internal/reconcile/reconcile.go:99-163), and why every node gets the same result. */
module Reconciling {
  import opened Base
  import opened Slots
  import opened Tables
  import opened Inventory
  import opened Zones
  import opened Pairings
  import opened Reconciler
  import Runs

  // ---------- inputs ----------

  /** Everything one reconcile reads besides the current state. Pattern matching, the
      host hash and the eligibility of each host are given. */
  datatype Input = Input(
    snap: Snapshot, rule: Rule, filter: Option<Filter>, glob: (string, string) -> bool, pairs: PairConfig,
    cfg: SlotsConfig, eligible: set<string>, hold: Time, now: Time, hash: string -> nat)
  {
    /** The key of the zone of some host. */
    ghost predicate Zone(z: string) {
      exists h :: h in snap.hosts && ZoneOf(rule, h) == Some(z)
    }

    /** The key of the intra-zone pairing of a zone is wanted for two other zones as well. */
    ghost predicate Ambiguous(z: string, a: string, b: string) {
      && pairs.intraZone && |MembersOf(rule, snap.hosts, z)| >= 2 && Zone(a) && Zone(b) && StrLt(a, b)
      && MakeKey(z, z) == MakeKey(a, b) && Matches(filter, glob, MakeKey(z, z))
    }

    /** No wanted key stands for an intra-zone and a cross-zone pairing at once. */
    ghost predicate Unambiguous() {
      forall z, a, b :: !Ambiguous(z, a, b)
    }

    /** A canonical snapshot of named hosts. */
    ghost predicate Valid() {
      snap.Valid() && "" !in snap.Ids()
    }
  }

  /** The host has every attribute the super selector asks for. */
  predicate Selects(sel: map<string, string>, h: HostRecord) {
    forall k :: k in sel ==> k in h.attributes && h.attributes[k] == sel[k]
  }

  /** The hosts the super selector prefers; an empty selector prefers none. */
  function Selected(snap: Snapshot, sel: map<string, string>): set<string> {
    if sel == map[] then {} else set h | h in snap.hosts && Selects(sel, h) :: h.id
  }

  /** The wanted pairings by key; of two records with one key the first is taken. */
  function WantMap(ws: seq<PairWant>): map<string, Wanted> {
    if |ws| == 0 then map[]
    else WantMap(ws[1..])[ws[0].key := Wanted(ws[0].zoneA, ws[0].zoneB, ws[0].intra)]
  }

  function WantOf(in_: Input, x: Index): seq<PairWant> {
    WantedSet(x, in_.pairs, k => Matches(in_.filter, in_.glob, k))
  }

  /** Every wanted key with one of its records. The sort by key is not stable, so any record
      of a key may come first. */
  ghost predicate Resolves(in_: Input, x: Index, want: map<string, Wanted>) {
    && (forall w :: w in WantOf(in_, x) ==> w.key in want)
    && (forall k :: k in want ==>
         exists w :: w in WantOf(in_, x) && w.key == k && want[k] == Wanted(w.zoneA, w.zoneB, w.intra))
  }

  /** The resolved inputs of a run. */
  function EnvOf(in_: Input, x: Index, want: map<string, Wanted>): Env {
    Env(in_.snap.Ids(), x.members, x.hostZone, in_.eligible, Selected(in_.snap, in_.cfg.superSelector),
        want, in_.cfg, in_.rule.fp, in_.hold, in_.now, in_.hash)
  }

  lemma {:induction false} WantMapHas(ws: seq<PairWant>, i: nat)
    requires i < |ws|
    ensures ws[i].key in WantMap(ws)
    ensures (forall j :: 0 <= j < i ==> ws[j].key != ws[i].key) ==>
              WantMap(ws)[ws[i].key] == Wanted(ws[i].zoneA, ws[i].zoneB, ws[i].intra)
  {
    if i > 0 {
      var rest := ws[1..];
      WantMapHas(rest, i - 1);
      if forall j :: 0 <= j < i ==> ws[j].key != ws[i].key {
        forall j | 0 <= j < i - 1 ensures rest[j].key != rest[i - 1].key { assert rest[j] == ws[j + 1]; }
      }
    }
  }

  lemma {:induction false} WantMapFrom(ws: seq<PairWant>, k: string) returns (i: nat)
    requires k in WantMap(ws)
    ensures i < |ws| && ws[i].key == k && WantMap(ws)[k] == Wanted(ws[i].zoneA, ws[i].zoneB, ws[i].intra)
  {
    if ws[0].key == k {
      i := 0;
    } else {
      i := WantMapFrom(ws[1..], k);
      i := i + 1;
    }
  }

  lemma ZonesAreZones(in_: Input, x: Index, z: string)
    requires Indexes(x, in_.rule, in_.snap.hosts) && z in x.zones
    ensures in_.Zone(z)
  {
    var r, hosts := in_.rule, in_.snap.hosts;
    var id := MembersOf(r, hosts, z)[0];
    assert id in MembersOf(r, hosts, z);
    MembersMeaning(r, hosts, z, id);
    var i :| 0 <= i < |hosts| && hosts[i].id == id && ZoneOf(r, hosts[i]) == Some(z);
    assert hosts[i] in hosts;
  }

  lemma NoClash(in_: Input, x: Index, ok: string -> bool, i: nat, m: nat, n: nat)
    requires in_.Unambiguous() && Indexes(x, in_.rule, in_.snap.hosts)
    requires forall k :: ok(k) == Matches(in_.filter, in_.glob, k)
    ensures !Clash(x, in_.pairs, ok, i, m, n)
  {
    if Clash(x, in_.pairs, ok, i, m, n) {
      ZonesAreZones(in_, x, x.zones[m]);
      ZonesAreZones(in_, x, x.zones[n]);
      ZonesOrder(x, m, n);
      ClashAmbiguous(in_, x, ok, i, m, n);
    }
  }

  lemma ClashAmbiguous(in_: Input, x: Index, ok: string -> bool, i: nat, m: nat, n: nat)
    requires Indexes(x, in_.rule, in_.snap.hosts) && forall k :: ok(k) == Matches(in_.filter, in_.glob, k)
    requires Clash(x, in_.pairs, ok, i, m, n)
    requires in_.Zone(x.zones[m]) && in_.Zone(x.zones[n]) && StrLt(x.zones[m], x.zones[n])
    ensures in_.Ambiguous(x.zones[i], x.zones[m], x.zones[n])
  {
    hide Matches, MakeKey, Input.Zone;
  }

  lemma ZonesIncrease(x: Index, r: Rule, hosts: seq<HostRecord>)
    requires Indexes(x, r, hosts)
    ensures Increasing(x.zones)
  {}

  /** A pairing is intra-zone exactly when its zones agree. */
  lemma WantKinds(in_: Input, x: Index)
    requires Indexes(x, in_.rule, in_.snap.hosts)
    ensures forall w :: w in WantOf(in_, x) ==> (w.intra <==> w.zoneA == w.zoneB)
  {
    hide WantedSet, Matches, Indexes, Increasing;
    ZonesIncrease(x, in_.rule, in_.snap.hosts);
    forall w | w in WantOf(in_, x) ensures w.intra <==> w.zoneA == w.zoneB {
      WantedKind(x, in_.pairs, k => Matches(in_.filter, in_.glob, k), w);
    }
  }

  /** The records in the order in which the reconcile takes them resolve the inputs. */
  lemma WantIsListed(in_: Input, x: Index, want: map<string, Wanted>)
    requires want == WantMap(WantOf(in_, x))
    ensures Resolves(in_, x, want) && Lists(WantOf(in_, x), EnvOf(in_, x, want))
  {
    hide WantOf;
    var ws := WantOf(in_, x);
    hide WantMap;
    forall i: nat | i < |ws|
      ensures ws[i].key in want
      ensures (forall j :: 0 <= j < i ==> ws[j].key != ws[i].key) ==>
                want[ws[i].key] == Wanted(ws[i].zoneA, ws[i].zoneB, ws[i].intra)
    {
      WantMapHas(ws, i);
    }
    forall k | k in want
      ensures exists w :: w in ws && w.key == k && want[k] == Wanted(w.zoneA, w.zoneB, w.intra)
      ensures exists i :: 0 <= i < |ws| && ws[i].key == k
    {
      var i := WantMapFrom(ws, k);
      assert ws[i] in ws;
    }
  }

  /** Without ambiguity there is one way to resolve the inputs. */
  lemma OneResolution(in_: Input, x: Index, want: map<string, Wanted>, want': map<string, Wanted>)
    requires in_.Unambiguous() && Indexes(x, in_.rule, in_.snap.hosts) && Resolves(in_, x, want)
               && Resolves(in_, x, want')
    ensures want == want'
  {
    hide WantedSet, Matches, Clash, Indexes, Increasing, Input.Unambiguous;
    var ok := k => Matches(in_.filter, in_.glob, k);
    ZonesIncrease(x, in_.rule, in_.snap.hosts);
    forall i: nat, m: nat, n: nat ensures !Clash(x, in_.pairs, ok, i, m, n) { NoClash(in_, x, ok, i, m, n); }
    OneRecordPerKey(x, in_.pairs, ok);
    forall k ensures k in want <==> k in want' && (k in want ==> want[k] == want'[k]) {
      if k in want {
        var v :| v in WantOf(in_, x) && v.key == k && want[k] == Wanted(v.zoneA, v.zoneB, v.intra);
      }
      if k in want' {
        var w :| w in WantOf(in_, x) && w.key == k && want'[k] == Wanted(w.zoneA, w.zoneB, w.intra);
      }
    }
  }

  /** Resolving valid inputs gives valid inputs for the passes. */
  lemma EnvIsValid(in_: Input, x: Index, want: map<string, Wanted>)
    requires in_.Valid() && Indexes(x, in_.rule, in_.snap.hosts) && Resolves(in_, x, want)
    ensures EnvOf(in_, x, want).Valid()
  {
    hide WantOf, Indexes, Snapshot.Valid, Distinct, Env.Members, Snapshot.Ids;
    WantKinds(in_, x);
    IndexIsValid(x, in_.rule, in_.snap, EnvOf(in_, x, want));
  }

  lemma IndexIsValid(x: Index, r: Rule, snap: Snapshot, e: Env)
    requires snap.Valid() && Indexes(x, r, snap.hosts)
    requires e.hosts == snap.Ids() && e.members == x.members && e.hostZone == x.hostZone
    ensures e.hostZone.Keys <= e.hosts
    ensures forall z, h :: h in e.Members(z) <==> h in e.hostZone && e.hostZone[h] == z
    ensures forall z :: Distinct(e.Members(z))
  {
    hide Indexes, Snapshot.Valid, Distinct, Increasing;
    forall id
      ensures id in x.hostZone ==> id in snap.Ids() && x.hostZone[id] in x.members
      ensures forall z :: z in x.members ==> (id in x.members[z] <==> id in x.hostZone && x.hostZone[id] == z)
    {
      IndexPartitions(x, r, snap, id);
    }
    IndexPartitions(x, r, snap, "");
    forall z ensures Distinct(e.Members(z)) {
      if z in x.members { IncreasingDistinct(x.members[z]); } else { EmptyDistinct<string>(); }
    }
  }

  // ---------- the order of the report ----------

  predicate SideLe(x: SideChange, y: SideChange) {
    if x.pairing != y.pairing then StrLt(x.pairing, y.pairing)
    else if x.slot != y.slot then x.slot < y.slot
    else x.side == SideA || y.side == SideB
  }

  lemma SideLePreorder()
    ensures TotalPreorder(SideLe)
  {
    StrLeTotalOrder();
    forall a: string, b: string ensures StrLt(a, b) <==> StrLe(a, b) && a != b { StrLtIrreflexive(a); }
    forall x: SideChange, y: SideChange ensures SideLe(x, y) || SideLe(y, x) {
      assert StrLe(x.pairing, y.pairing) || StrLe(y.pairing, x.pairing);
    }
    forall x: SideChange, y: SideChange, z: SideChange | SideLe(x, y) && SideLe(y, z) ensures SideLe(x, z) {
      assert StrLe(x.pairing, y.pairing) && StrLe(y.pairing, z.pairing) && StrLe(x.pairing, z.pairing);
      if x.pairing == z.pairing { assert StrLe(y.pairing, x.pairing) ==> x.pairing == y.pairing; }
    }
  }

  // ---------- the result ----------

  /** The report lists a change set: three strictly increasing lists, and every side
      change of every pairing as often as the pairing's own passes made it. */
  ghost predicate Reports(added: seq<string>, removed: seq<string>, supers: seq<string>, sides: seq<SideChange>,
                          dv: DeltaV) {
    && Increasing(added) && (forall k :: k in added <==> k in dv.added)
    && Increasing(removed) && (forall k :: k in removed <==> k in dv.removed)
    && Increasing(supers) && (forall z :: z in supers <==> z in dv.supers)
    && Sorted(sides, SideLe)
    && forall c :: multiset(sides)[c] == if c.pairing in dv.sides then dv.sides[c.pairing][c] else 0
  }

  /** What one reconcile of these inputs may return. */
  ghost predicate Outcome(in_: Input, cur: Option<StateV>, x: Index, want: map<string, Wanted>, next: StateV,
                          added: seq<string>, removed: seq<string>, supers: seq<string>, sides: seq<SideChange>)
  {
    && Indexes(x, in_.rule, in_.snap.hosts) && Resolves(in_, x, want)
    && next == Next(EnvOf(in_, x, want), cur)
    && Reports(added, removed, supers, sides, NextDelta(EnvOf(in_, x, want), cur))
  }

  lemma IndexDetermined(x: Index, y: Index, r: Rule, hosts: seq<HostRecord>)
    requires Indexes(x, r, hosts) && Indexes(y, r, hosts)
    ensures x == y
  {
    hide ZoneOf, MembersOf, UnresolvedOf;
    assert x.members == y.members;
    assert x.hostZone == y.hostZone;
    IncreasingUnique(x.zones, y.zones);
  }

  /** Agreement: nodes that reconcile the same unambiguous inputs from equal states reach
      equal states and report the same pairings and super zones and the same bag of side
      changes, whatever order each of them visited its maps in. */
  lemma Agreement(in_: Input, cur: Option<StateV>,
                  x: Index, want: map<string, Wanted>, next: StateV, added: seq<string>, removed: seq<string>,
                  supers: seq<string>, sides: seq<SideChange>,
                  x': Index, want': map<string, Wanted>, next': StateV, added': seq<string>, removed': seq<string>,
                  supers': seq<string>, sides': seq<SideChange>)
    requires in_.Unambiguous()
    requires Outcome(in_, cur, x, want, next, added, removed, supers, sides)
    requires Outcome(in_, cur, x', want', next', added', removed', supers', sides')
    ensures x == x' && want == want' && next == next'
    ensures added == added' && removed == removed' && supers == supers' && multiset(sides) == multiset(sides')
  {
    hide Next, NextDelta, EnvOf, Increasing, Indexes, Sorted, Resolves, Input.Unambiguous;
    IndexDetermined(x, x', in_.rule, in_.snap.hosts);
    OneResolution(in_, x, want, want');
    IncreasingUnique(added, added');
    IncreasingUnique(removed, removed');
    IncreasingUnique(supers, supers');
    forall c ensures multiset(sides)[c] == multiset(sides')[c] {}
  }

  /** All ways of resolving these inputs lead from nothing to the same state. */
  ghost predicate OneFirstState(in_: Input, x: Index) {
    forall want, want' :: Resolves(in_, x, want) && Resolves(in_, x, want') ==>
      Next(EnvOf(in_, x, want), None) == Next(EnvOf(in_, x, want'), None)
  }

  /** Agreement holds exactly for unambiguous inputs: otherwise two nodes that start from
      nothing can store different pairings under one key. */
  lemma AgreementExact(in_: Input, x: Index)
    requires in_.Valid() && Indexes(x, in_.rule, in_.snap.hosts)
    ensures OneFirstState(in_, x) <==> in_.Unambiguous()
  {
    hide Next, EnvOf, Indexes, Resolves, Input.Ambiguous, Input.Valid;
    if in_.Unambiguous() {
      forall want, want' | Resolves(in_, x, want) && Resolves(in_, x, want')
        ensures Next(EnvOf(in_, x, want), None) == Next(EnvOf(in_, x, want'), None)
      {
        OneResolution(in_, x, want, want');
      }
    } else {
      var z, a, b :| in_.Ambiguous(z, a, b);
      var want, want' := TwoResolutions(in_, x, z, a, b);
    }
  }

  lemma TwoResolutions(in_: Input, x: Index, z: string, a: string, b: string)
    returns (want: map<string, Wanted>, want': map<string, Wanted>)
    requires in_.Valid() && Indexes(x, in_.rule, in_.snap.hosts) && in_.Ambiguous(z, a, b)
    ensures Resolves(in_, x, want) && Resolves(in_, x, want')
    ensures Next(EnvOf(in_, x, want), None) != Next(EnvOf(in_, x, want'), None)
  {
    hide WantOf, WantMap, Resolves, Next, Indexes, Input.Valid, Input.Ambiguous, Env.Valid;
    var v, w := TwoRecords(in_, x, z, a, b);
    var some := WantMap(WantOf(in_, x));
    WantIsListed(in_, x, some);
    want := some[v.key := Wanted(v.zoneA, v.zoneB, v.intra)];
    want' := some[w.key := Wanted(w.zoneA, w.zoneB, w.intra)];
    OtherRecord(in_, x, some, v);
    OtherRecord(in_, x, some, w);
    EnvIsValid(in_, x, want);
    EnvIsValid(in_, x, want');
    FirstKind(EnvOf(in_, x, want), v.key);
    FirstKind(EnvOf(in_, x, want'), v.key);
  }

  /** Any record of a key may be the one that counts. */
  lemma OtherRecord(in_: Input, x: Index, want: map<string, Wanted>, w: PairWant)
    requires Resolves(in_, x, want) && w in WantOf(in_, x)
    ensures Resolves(in_, x, want[w.key := Wanted(w.zoneA, w.zoneB, w.intra)])
  {
    hide WantOf;
  }

  /** A first run stores a wanted pairing as it is wanted. */
  lemma FirstKind(e: Env, k: string)
    requires e.Valid() && k in e.want
    ensures k in Next(e, None).pairings && Next(e, None).pairings[k].intra == e.want[k].intra
  {
    hide Next, Env.Valid;
    Runs.NextPairingOk(e, None, k);
    Runs.FirstZones(e, k);
  }

  lemma TwoRecords(in_: Input, x: Index, z: string, a: string, b: string) returns (v: PairWant, w: PairWant)
    requires Indexes(x, in_.rule, in_.snap.hosts) && in_.Ambiguous(z, a, b)
    ensures v in WantOf(in_, x) && w in WantOf(in_, x) && v.key == w.key && v.intra && !w.intra
  {
    hide Matches, MakeKey, WantedSet, InRows, Clash;
    var ok := k => Matches(in_.filter, in_.glob, k);
    ZoneListed(in_, x, a);
    ZoneListed(in_, x, b);
    assert z in x.zones by { hide ZoneOf, MembersOf; }
    var i: nat :| i < |x.zones| && x.zones[i] == z;
    var m: nat :| m < |x.zones| && x.zones[m] == a;
    var n: nat :| n < |x.zones| && x.zones[n] == b;
    PlacesOrder(x, a, b, m, n);
    ClashHere(in_, x, ok, i, m, n);
    v, w := ClashRecords(x, in_.pairs, ok, i, m, n);
    WantedFrom(x, in_.pairs, ok);
  }

  lemma PlacesOrder(x: Index, a: string, b: string, m: nat, n: nat)
    requires Increasing(x.zones) && m < |x.zones| && n < |x.zones| && x.zones[m] == a && x.zones[n] == b && StrLt(a, b)
    ensures m < n
  {
    StrLtIrreflexive(a);
    if n < m { StrLtTransitive(a, b, a); }
  }

  lemma ClashHere(in_: Input, x: Index, ok: string -> bool, i: nat, m: nat, n: nat)
    requires Indexes(x, in_.rule, in_.snap.hosts) && forall k :: ok(k) == Matches(in_.filter, in_.glob, k)
    requires i < |x.zones| && m < n < |x.zones| && in_.Ambiguous(x.zones[i], x.zones[m], x.zones[n])
    ensures Clash(x, in_.pairs, ok, i, m, n)
  {
    hide Matches, MakeKey, Input.Zone, MembersOf;
  }

  lemma ZoneListed(in_: Input, x: Index, z: string)
    requires Indexes(x, in_.rule, in_.snap.hosts) && in_.Zone(z)
    ensures z in x.zones
  {
    var r, hosts := in_.rule, in_.snap.hosts;
    var h :| h in hosts && ZoneOf(r, h) == Some(z);
    var i :| 0 <= i < |hosts| && hosts[i] == h;
    MembersMeaning(r, hosts, z, h.id);
    assert MembersOf(r, hosts, z) != [];
  }

  // ---------- the passes together ----------

  /** The four passes, one after the other, as maps of tables. */
  ghost predicate Passes(e: Env, sh: map<string, seq<string>>, v0: map<string, PairingV>, v1: map<string, PairingV>,
                         v2: map<string, PairingV>, v3: map<string, PairingV>, v4: map<string, PairingV>)
  {
    && DiffedTo(e, v0, v1)
    && ValidatedUpTo(e, v1.Keys, v1, v2)
    && SuperedUpTo(e, sh, v2.Keys, v2, v3)
    && FilledUpTo(e, v3.Keys, v3, v4)
  }

  lemma PassesStep(e: Env, sh: map<string, seq<string>>, v0: map<string, PairingV>, v1: map<string, PairingV>,
                   v2: map<string, PairingV>, v3: map<string, PairingV>, v4: map<string, PairingV>, k: string)
    requires Passes(e, sh, v0, v1, v2, v3, v4)
    ensures Get(v4, k) == StepOne(e, sh, k, Get(v0, k))
    ensures Get(v1, k) == DiffOne(e, k, Get(v0, k))
    ensures k !in v0 && k !in e.want ==> k !in v4
  {
    assert Get(v1, k) == DiffOne(e, k, Get(v0, k));
    hide ValidateOne, SuperOne, FillOne, Resize, ComputeLayout;
  }

  lemma PassesState(e: Env, cur: Option<StateV>, v1: map<string, PairingV>, v2: map<string, PairingV>, v3: map<string,
                    PairingV>, n: StateV)
    requires var st := Start(e, cur);
             && Passes(e, NextSuperHosts(e, st.superHosts), st.pairings, v1, v2, v3, n.pairings)
             && n.superHosts == NextSuperHosts(e, st.superHosts) && n.zoneRule == st.zoneRule
                  && n.slotsConfig == st.slotsConfig
    ensures n == Next(e, cur)
  {
    hide Passes, StepOne, Start, NextSuperHosts;
    var st := Start(e, cur);
    forall k
      ensures Get(n.pairings, k) == StepOne(e, n.superHosts, k, Get(st.pairings, k))
      ensures k !in st.pairings && k !in e.want ==> k !in n.pairings
    {
      PassesStep(e, n.superHosts, st.pairings, v1, v2, v3, n.pairings, k);
    }
    assert n.pairings == Next(e, cur).pairings;
  }

  /** The log of the four passes, one after the other. */
  ghost predicate PassLogs(e: Env, sh: map<string, seq<string>>, v0: map<string, PairingV>, v1: map<string, PairingV>,
                           v2: map<string, PairingV>, v3: map<string, PairingV>,
                           l1: seq<SideChange>, l2: seq<SideChange>, l3: seq<SideChange>, l4: seq<SideChange>)
  {
    && Logged([], l1, v0.Keys + e.want.Keys, DiffLogs(e, v0))
    && Logged(l1, l2, v1.Keys, ValidateLogs(e, v1))
    && Logged(l2, l3, v2.Keys, SuperLogs(e, sh, v2))
    && Logged(l3, l4, v3.Keys, FillLogs(e, v3))
  }

  lemma PassLogsStep(e: Env, sh: map<string, seq<string>>, v0: map<string, PairingV>, v1: map<string, PairingV>,
                     v2: map<string, PairingV>, v3: map<string, PairingV>, v4: map<string, PairingV>,
                     l1: seq<SideChange>, l2: seq<SideChange>, l3: seq<SideChange>, l4: seq<SideChange>, c: SideChange)
    requires Passes(e, sh, v0, v1, v2, v3, v4) && PassLogs(e, sh, v0, v1, v2, v3, l1, l2, l3, l4)
    ensures var k := c.pairing;
            multiset(l4)[c] == if k in v0 || k in e.want then StepLog(e, sh, k, Get(v0, k))[c] else 0
  {
    var k := c.pairing;
    PassesAt(e, sh, v0, v1, v2, v3, v4, k);
    StepLogCount(e, sh, k, Get(v0, k), c);
    DiffCount(e, v0, l1, c);
    ValidateCount(e, v1, l1, l2, c);
    SuperCount(e, sh, v2, l2, l3, c);
    FillCount(e, v3, l3, l4, c);
    hide Logged, Passes, DiffLogs, ValidateLogs, SuperLogs, FillLogs, DiffOne, DiffLog, ValidateOne, ValidateLog,
         SuperOne, SuperOneLog, FillLog, StepLog, Get;
  }

  lemma DiffCount(e: Env, v: map<string, PairingV>, after: seq<SideChange>, c: SideChange)
    requires Logged([], after, v.Keys + e.want.Keys, DiffLogs(e, v))
    ensures multiset(after)[c] ==
              if c.pairing in v || c.pairing in e.want
              then multiset(DiffLog(e, c.pairing, Get(v, c.pairing)))[c] else 0
  {
    hide DiffLog, Get;
    var none: seq<SideChange> := [];
    assert multiset(none)[c] == 0;
  }

  lemma ValidateCount(e: Env, v: map<string, PairingV>, before: seq<SideChange>, after: seq<SideChange>, c: SideChange)
    requires Logged(before, after, v.Keys, ValidateLogs(e, v))
    ensures multiset(after)[c] == multiset(before)[c]
              + if c.pairing in v then multiset(ValidateLog(e, v[c.pairing]))[c] else 0
  {
    hide ValidateLog;
  }

  lemma SuperCount(e: Env, sh: map<string, seq<string>>, v: map<string, PairingV>, before: seq<SideChange>,
                   after: seq<SideChange>, c: SideChange)
    requires Logged(before, after, v.Keys, SuperLogs(e, sh, v))
    ensures multiset(after)[c] == multiset(before)[c]
              + if c.pairing in v then SuperOneLog(e, sh, v[c.pairing])[c] else 0
  {
    hide SuperOneLog;
  }

  lemma FillCount(e: Env, v: map<string, PairingV>, before: seq<SideChange>, after: seq<SideChange>, c: SideChange)
    requires Logged(before, after, v.Keys, FillLogs(e, v))
    ensures multiset(after)[c] == multiset(before)[c]
              + if c.pairing in v then multiset(FillLog(e, v[c.pairing]))[c] else 0
  {
    hide FillLog;
  }

  lemma StepLogCount(e: Env, sh: map<string, seq<string>>, k: string, cur: Option<PairingV>, c: SideChange)
    ensures StepLog(e, sh, k, cur)[c] == multiset(DiffLog(e, k, cur))[c] +
              match DiffOne(e, k, cur)
              case None => 0
              case Some(p) => multiset(ValidateLog(e, p))[c] + SuperOneLog(e, sh, ValidateOne(e, p))[c]
                              + multiset(FillLog(e, SuperOne(e, sh, ValidateOne(e, p))))[c]
  {
    hide DiffOne, DiffLog, ValidateOne, ValidateLog, SuperOne, SuperOneLog, FillLog;
  }

  lemma PassesAt(e: Env, sh: map<string, seq<string>>, v0: map<string, PairingV>, v1: map<string, PairingV>,
                 v2: map<string, PairingV>, v3: map<string, PairingV>, v4: map<string, PairingV>, k: string)
    requires Passes(e, sh, v0, v1, v2, v3, v4)
    ensures k in v1 <==> DiffOne(e, k, Get(v0, k)).Some?
    ensures k in v1 ==> v1[k] == DiffOne(e, k, Get(v0, k)).value && k in v2 && v2[k] == ValidateOne(e, v1[k])
    ensures k in v1 ==> k in v3 && v3[k] == SuperOne(e, sh, v2[k])
    ensures k !in v1 ==> k !in v2 && k !in v3
    ensures k !in v0 && k !in e.want ==> k !in v1
  {
    assert Get(v1, k) == DiffOne(e, k, Get(v0, k));
    hide ValidateOne, SuperOne, FillOne, Resize, ComputeLayout;
  }

  /** A list of the members of a set, each once, in any order. */
  ghost predicate Enumerates(list: seq<string>, s: set<string>) {
    Distinct(list) && forall k :: k in list <==> k in s
  }

  /** What the passes leave in the report before it is sorted. */
  ghost predicate Collected(added: seq<string>, removed: seq<string>, supers: seq<string>, sides: seq<SideChange>,
                            dv: DeltaV) {
    && Enumerates(added, dv.added) && Enumerates(removed, dv.removed) && Enumerates(supers, dv.supers)
    && forall c :: multiset(sides)[c] == if c.pairing in dv.sides then dv.sides[c.pairing][c] else 0
  }

  lemma PassesCollect(e: Env, cur: Option<StateV>, v1: map<string, PairingV>, v2: map<string, PairingV>,
                      v3: map<string, PairingV>, v4: map<string, PairingV>,
                      l1: seq<SideChange>, l2: seq<SideChange>, l3: seq<SideChange>, l4: seq<SideChange>,
                      added: seq<string>, removed: seq<string>, supers: seq<string>)
    requires var st := Start(e, cur);
             var sh := NextSuperHosts(e, st.superHosts);
             && Passes(e, sh, st.pairings, v1, v2, v3, v4) && PassLogs(e, sh, st.pairings, v1, v2, v3, l1, l2, l3, l4)
             && Enumerates(added, e.want.Keys - st.pairings.Keys)
             && Enumerates(removed, st.pairings.Keys - v1.Keys)
             && Enumerates(supers, SuperZonesChanged(e, st.superHosts))
    ensures Collected(added, removed, supers, l4, NextDelta(e, cur))
  {
    var st := Start(e, cur);
    var sh := NextSuperHosts(e, st.superHosts);
    hide Passes, PassLogs, StepLog, DiffOne, Start, NextSuperHosts, SuperZonesChanged, Enumerates, Get;
    forall c
      ensures multiset(l4)[c] ==
                if c.pairing in st.pairings || c.pairing in e.want
                then StepLog(e, sh, c.pairing, Get(st.pairings, c.pairing))[c] else 0
    {
      PassLogsStep(e, sh, st.pairings, v1, v2, v3, v4, l1, l2, l3, l4, c);
    }
    forall k | k in st.pairings ensures k !in v1 <==> DiffOne(e, k, Some(st.pairings[k])).None? {
      PassesAt(e, sh, st.pairings, v1, v2, v3, v4, k);
      GetIn(st.pairings, k);
    }
    assert st.pairings.Keys - v1.Keys == NextDelta(e, cur).removed;
  }

  lemma GetIn(m: map<string, PairingV>, k: string)
    requires k in m
    ensures Get(m, k) == Some(m[k])
  {}

  /** The first two passes: the pairing set, then the slot sides. */
  method DiffAndValidate(e: Env, want: seq<PairWant>, next: State, d: Delta) returns (ghost v1: map<string, PairingV>,
                         ghost l1: seq<SideChange>)
    requires next.Valid() && Lists(want, e) && d.added == [] && d.removed == []
    modifies next`pairings, next.pairings.Values, d`added, d`removed, d`sides
    ensures next.Valid() && fresh(next.pairings.Values - old(next.pairings.Values))
    ensures DiffedTo(e, old(Views(next.pairings)), v1) && ValidatedUpTo(e, v1.Keys, v1, Views(next.pairings))
    ensures Enumerates(d.added, e.want.Keys - old(Views(next.pairings)).Keys)
              && Enumerates(d.removed, old(Views(next.pairings)).Keys - v1.Keys)
    ensures Logged(old(d.sides), l1, old(Views(next.pairings)).Keys + e.want.Keys,
                   DiffLogs(e, old(Views(next.pairings))))
    ensures Logged(l1, d.sides, v1.Keys, ValidateLogs(e, v1))
  {
    hide Lists, Logged, DiffedTo, ValidatedUpTo, Views, Pairing.View, Keyed, Distinct, DiffLogs, ValidateLogs;
    DiffPairings(e, want, next, d);
    v1, l1 := Views(next.pairings), d.sides;
    ValidateSides(e, next, d);
  }

  /** The last two passes: the super slots, then the empty sides. */
  method SuperAndFill(e: Env, zones: seq<string>, next: State, d: Delta) returns (ghost v3: map<string, PairingV>,
                      ghost l3: seq<SideChange>)
    requires e.Valid() && next.Valid() && Enumerates(zones, e.members.Keys) && d.supers == []
    modifies next`superHosts, next.pairings.Values, d`sides, d`supers
    ensures next.Valid() && next.superHosts == NextSuperHosts(e, old(next.superHosts))
              && next.pairings == old(next.pairings)
    ensures Enumerates(d.supers, SuperZonesChanged(e, old(next.superHosts)))
    ensures SuperedUpTo(e, next.superHosts, old(Views(next.pairings)).Keys, old(Views(next.pairings)), v3)
    ensures FilledUpTo(e, v3.Keys, v3, Views(next.pairings))
    ensures Logged(old(d.sides), l3, old(Views(next.pairings)).Keys,
              SuperLogs(e, next.superHosts, old(Views(next.pairings))))
    ensures Logged(l3, d.sides, v3.Keys, FillLogs(e, v3))
  {
    hide Logged, SuperedUpTo, FilledUpTo, Views, Keyed, Env.Valid, NextSuperHosts, SuperZonesChanged, Distinct,
         SuperLogs, FillLogs;
    UpdateSuper(e, zones, next, d);
    v3, l3 := Views(next.pairings), d.sides;
    FillSides(e, next, d);
  }

  /** The four passes on one state. */
  method RunPasses(e: Env, want: seq<PairWant>, zones: seq<string>, next: State, d: Delta, ghost cur: Option<StateV>)
    requires e.Valid() && Lists(want, e) && Enumerates(zones, e.members.Keys)
    requires next.Valid() && next.View() == Start(e, cur)
    requires d.added == [] && d.removed == [] && d.supers == [] && d.sides == []
    modifies next`pairings, next`superHosts, next.pairings.Values, d`added, d`removed, d`sides, d`supers
    ensures next.Valid() && next.View() == Next(e, cur) && fresh(next.pairings.Values - old(next.pairings.Values))
    ensures Collected(d.added, d.removed, d.supers, d.sides, NextDelta(e, cur))
  {
    hide Lists, Logged, DiffedTo, ValidatedUpTo, SuperedUpTo, FilledUpTo, Views, Start, Keyed, Env.Valid,
         NextSuperHosts, SuperZonesChanged,
         Enumerates, DiffLogs, ValidateLogs, SuperLogs, FillLogs, Next, NextDelta, Collected;
    ghost var st := next.View();
    ghost var v1, l1 := DiffAndValidate(e, want, next, d);
    ghost var v2, l2 := Views(next.pairings), d.sides;
    ghost var v3, l3 := SuperAndFill(e, zones, next, d);
    ghost var n := next.View();
    assert n.superHosts == NextSuperHosts(e, st.superHosts) && n.zoneRule == st.zoneRule
             && n.slotsConfig == st.slotsConfig;
    assert FilledUpTo(e, v3.Keys, v3, n.pairings) && SuperedUpTo(e, n.superHosts, v2.Keys, v2, v3);
    PassesEnd(e, cur, st, v1, v2, v3, l1, l2, l3, n, d.sides, d.added, d.removed, d.supers);
  }

  lemma PassesEnd(e: Env, cur: Option<StateV>, st: StateV, v1: map<string, PairingV>, v2: map<string, PairingV>,
                  v3: map<string, PairingV>,
                  l1: seq<SideChange>, l2: seq<SideChange>, l3: seq<SideChange>,
                  n: StateV, sides: seq<SideChange>, added: seq<string>, removed: seq<string>, supers: seq<string>)
    requires st == Start(e, cur)
    requires n.superHosts == NextSuperHosts(e, st.superHosts) && n.zoneRule == st.zoneRule
               && n.slotsConfig == st.slotsConfig
    requires DiffedTo(e, st.pairings, v1) && ValidatedUpTo(e, v1.Keys, v1, v2)
    requires SuperedUpTo(e, n.superHosts, v2.Keys, v2, v3) && FilledUpTo(e, v3.Keys, v3, n.pairings)
    requires Logged([], l1, st.pairings.Keys + e.want.Keys, DiffLogs(e, st.pairings))
               && Logged(l1, l2, v1.Keys, ValidateLogs(e, v1))
    requires Logged(l2, l3, v2.Keys, SuperLogs(e, n.superHosts, v2)) && Logged(l3, sides, v3.Keys, FillLogs(e, v3))
    requires Enumerates(added, e.want.Keys - st.pairings.Keys) && Enumerates(removed, st.pairings.Keys - v1.Keys)
    requires Enumerates(supers, SuperZonesChanged(e, st.superHosts))
    ensures n == Next(e, cur)
    ensures Collected(added, removed, supers, sides, NextDelta(e, cur))
  {
    hide Logged, DiffedTo, ValidatedUpTo, SuperedUpTo, FilledUpTo, Start, NextSuperHosts, SuperZonesChanged,
         Enumerates, DiffLogs, ValidateLogs, SuperLogs, FillLogs, Next, NextDelta, Collected;
    PassesState(e, cur, v1, v2, v3, n);
    PassesCollect(e, cur, v1, v2, v3, n.pairings, l1, l2, l3, sides, added, removed, supers);
  }

  // ---------- the run ----------

  ghost function ViewOf(cur: State?): Option<StateV>
    reads cur, if cur == null then {} else cur.pairings.Values
  {
    if cur == null then None else Some(cur.View())
  }

  /** The state the passes work on: a copy of the current one, or an empty one when there
      is none or when the zone rule or the slot layout it was built for has changed. */
  method StartState(in_: Input, cur: State?, ghost e: Env) returns (next: State)
    requires (cur != null ==> cur.Valid()) && e.zoneFp == in_.rule.fp && e.cfg == in_.cfg
    ensures fresh(next) && fresh(next.pairings.Values)
    ensures next.Valid() && next.View() == Start(e, ViewOf(cur))
  {
    hide Keyed, Views, Fingerprint;
    var fp := Some(Fingerprint(in_.cfg));
    if cur != null {
      next := cur.Clone();
      if next.zoneRule == in_.rule.fp && next.slotsConfig == fp { return; }
    }
    next := new State(in_.rule.fp, fp);
    assert Views(next.pairings) == map[];
  }

  lemma SortedReport(added: seq<string>, removed: seq<string>, supers: seq<string>, sides: seq<SideChange>, dv: DeltaV)
    requires Collected(added, removed, supers, sides, dv)
    ensures Reports(Sort(added, StrLe), Sort(removed, StrLe), Sort(supers, StrLe), Sort(sides, SideLe), dv)
  {
    SortIncreasing(added);
    SortIncreasing(removed);
    SortIncreasing(supers);
    SideLePreorder();
    SortSorted(sides, SideLe);
    hide Increasing, Sorted, Distinct, Sort, SideLe;
  }

  /** Sorts the report. */
  method SortReport(d: Delta, ghost dv: DeltaV)
    requires Collected(d.added, d.removed, d.supers, d.sides, dv)
    modifies d
    ensures Reports(d.added, d.removed, d.supers, d.sides, dv)
  {
    hide Reports, Collected, Sort;
    SortedReport(d.added, d.removed, d.supers, d.sides, dv);
    d.added := Sort(d.added, StrLe);
    d.removed := Sort(d.removed, StrLe);
    d.supers := Sort(d.supers, StrLe);
    d.sides := Sort(d.sides, SideLe);
  }

  /** The passes and the report for a resolved zone index and pairing set. */
  method Assign(in_: Input, cur: State?, x: Index, want: seq<PairWant>, d: Delta) returns (next: State)
    requires in_.Valid() && (cur != null ==> cur.Valid()) && Indexes(x, in_.rule, in_.snap.hosts)
               && want == WantOf(in_, x)
    requires d.added == [] && d.removed == [] && d.supers == [] && d.sides == []
    modifies d
    ensures fresh(next) && fresh(next.pairings.Values) && next.Valid()
    ensures Resolves(in_, x, WantMap(want))
    ensures next.View() == Next(EnvOf(in_, x, WantMap(want)), old(ViewOf(cur)))
    ensures Reports(d.added, d.removed, d.supers, d.sides, NextDelta(EnvOf(in_, x, WantMap(want)), old(ViewOf(cur))))
  {
    hide Indexes, Views, Keyed, Lists, Env.Valid, Next, NextDelta, Start, EnvOf, WantOf, Collected, Reports,
         Enumerates, Input.Valid, Resolves, WantMap;
    var e := EnvOf(in_, x, WantMap(want));
    ghost var v := ViewOf(cur);
    WantIsListed(in_, x, WantMap(want));
    EnvIsValid(in_, x, WantMap(want));
    EnvParts(in_, x, WantMap(want));
    ZonesEnumerate(x, in_.rule, in_.snap.hosts);
    next := StartState(in_, cur, e);
    RunPasses(e, want, x.zones, next, d, v);
    SortReport(d, NextDelta(e, v));
  }

  /** Computes the new assignment. Nothing that existed before is modified; when the zones
      would need too many pairings no state is produced. */
  method Reconcile(in_: Input, cur: State?)
    returns (r: Result<State, TooMany>, d: Delta, x: Index, ghost want: map<string, Wanted>)
    requires in_.Valid() && (cur != null ==> cur.Valid())
    ensures Indexes(x, in_.rule, in_.snap.hosts) && fresh(d)
    ensures r.Err? <==> in_.pairs.maxPairings > 0 && Count(|x.zones|, in_.pairs.intraZone) > in_.pairs.maxPairings
    ensures r.Err? ==> d.added == [] && d.removed == [] && d.supers == [] && d.sides == []
    ensures r.Ok? ==> fresh(r.value) && fresh(r.value.pairings.Values) && r.value.Valid()
    ensures r.Ok? ==> Outcome(in_, ViewOf(cur), x, want, r.value.View(), d.added, d.removed, d.supers, d.sides)
  {
    hide Indexes, Views, Keyed, Next, NextDelta, EnvOf, Reports, Snapshot.Valid, WantedSet, Matches, Resolves, WantMap;
    d := new Delta();
    want := map[];
    x := Zones.Build(in_.rule, in_.snap);
    var built := Pairings.Build(x, in_.pairs, in_.filter, in_.glob);
    match built {
      case Err(error) =>
        r := Err(error);
      case Ok(pairs) =>
        var next := Assign(in_, cur, x, pairs, d);
        want := WantMap(pairs);
        r := Ok(next);
    }
  }

  lemma EnvParts(in_: Input, x: Index, want: map<string, Wanted>)
    ensures var e := EnvOf(in_, x, want); e.zoneFp == in_.rule.fp && e.cfg == in_.cfg && e.members == x.members
  {}

  lemma ZonesEnumerate(x: Index, r: Rule, hosts: seq<HostRecord>)
    requires Indexes(x, r, hosts)
    ensures Enumerates(x.zones, x.members.Keys)
  {
    IncreasingDistinct(x.zones);
  }
}
