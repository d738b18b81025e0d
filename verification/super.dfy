/** Super slots: which host pairs are measured, and that the table of an active pairing
    holds exactly those after a run (internal/reconcile/reconcile.go:342-466). */
module SuperSlots {
  import opened Base
  import opened Slots
  import opened Tables
  import opened Filling
  import opened Invariants

  // ---------- the wanted paths ----------

  /** The targets of a super host are the first `max` eligible hosts of the far zone. */
  lemma {:induction false} TargetsAreFirst(members: seq<string>, src: string, eligible: set<string>, max: int)
    ensures var all := EligibleOf(members, eligible - {src});
            Targets(members, src, eligible, max) == all[..if max <= 0 then 0 else if max < |all| then max else |all|]
  {
    if |members| > 0 { TargetsAreFirst(members[..|members| - 1], src, eligible, max); }
  }

  lemma {:induction false} EligibleDistinct(members: seq<string>, eligible: set<string>)
    requires Distinct(members)
    ensures Distinct(EligibleOf(members, eligible))
  {
    if |members| > 0 {
      var n := |members| - 1;
      EligibleDistinct(members[..n], eligible);
      assert forall h :: h in EligibleOf(members[..n], eligible) ==> h in members[..n];
    }
  }

  /** One direction: a path runs from an eligible super host to one of its targets. */
  ghost predicate Reaches(e: Env, srcs: seq<string>, far: string, w: Path) {
    w.src in srcs && w.src in e.eligible
    && w.dst in Targets(e.Members(far), w.src, e.eligible, e.cfg.superMaxTargets)
  }

  lemma {:induction false} PathsFromMembers(e: Env, srcs: seq<string>, far: string, w: Path)
    ensures w in PathsFrom(e, srcs, far) <==> Reaches(e, srcs, far, w)
  {
    if |srcs| > 0 {
      var n := |srcs| - 1;
      PathsFromMembers(e, srcs[..n], far, w);
      var src := srcs[n];
      var dsts := Targets(e.Members(far), src, e.eligible, e.cfg.superMaxTargets);
      assert w.src in srcs <==> w.src in srcs[..n] || w.src == src;
      assert w in PathsOf(src, dsts) <==> w.src == src && w.dst in dsts by {
        if w.src == src && w.dst in dsts {
          var i :| 0 <= i < |dsts| && dsts[i] == w.dst;
          assert PathsOf(src, dsts)[i] == w;
        }
      }
    }
  }

  lemma {:induction false} PathsFromDistinct(e: Env, srcs: seq<string>, far: string)
    requires e.Valid() && Distinct(srcs)
    ensures Distinct(PathsFrom(e, srcs, far))
  {
    if |srcs| > 0 {
      var n := |srcs| - 1;
      var src := srcs[n];
      PathsFromDistinct(e, srcs[..n], far);
      var max := e.cfg.superMaxTargets;
      var dsts := Targets(e.Members(far), src, e.eligible, max);
      TargetsAreFirst(e.Members(far), src, e.eligible, max);
      EligibleDistinct(e.Members(far), e.eligible - {src});
      assert Distinct(PathsOf(src, dsts));
      forall w | w in PathsFrom(e, srcs[..n], far) ensures w !in PathsOf(src, dsts) {
        PathsFromMembers(e, srcs[..n], far, w);
      }
      var x, y := PathsFrom(e, srcs[..n], far), PathsOf(src, dsts);
      DistinctConcat(x, y);
    }
  }

  lemma PathLeTotalOrder()
    ensures TotalOrder(PathLe)
  {
    StrLeTotalOrder();
    forall a: string, b: string ensures StrLt(a, b) <==> StrLe(a, b) && a != b { StrLtIrreflexive(a); }
    forall x: Path, y: Path ensures PathLe(x, y) || PathLe(y, x) {
      assert StrLe(x.src, y.src) || StrLe(y.src, x.src);
      assert StrLe(x.dst, y.dst) || StrLe(y.dst, x.dst);
    }
    forall x: Path, y: Path | PathLe(x, y) && PathLe(y, x) ensures x == y {
      assert StrLe(x.src, y.src) && StrLe(y.src, x.src);
      assert StrLe(x.dst, y.dst) && StrLe(y.dst, x.dst);
    }
    forall x: Path, y: Path, z: Path | PathLe(x, y) && PathLe(y, z) ensures PathLe(x, z) {
      PathLeTransitive(x, y, z);
    }
  }

  lemma PathLeTransitive(x: Path, y: Path, z: Path)
    requires PathLe(x, y) && PathLe(y, z)
    ensures PathLe(x, z)
  {
    StrLeTotalOrder();
    StrLtIrreflexive(x.src);
    assert StrLe(x.src, y.src) && StrLe(y.src, z.src) && StrLe(x.src, z.src);
    if x.src == y.src && y.src == z.src {
      assert StrLe(x.dst, y.dst) && StrLe(y.dst, z.dst) && StrLe(x.dst, z.dst);
    }
  }

  /** Super hosts listed per zone, without repetition and inside their zone. */
  ghost predicate SuperHostsOk(e: Env, sh: map<string, seq<string>>) {
    forall z :: z in sh ==> Distinct(sh[z]) && forall h :: h in sh[z] ==> h in e.Members(z) && h in e.eligible
  }

  lemma NextSuperHostsOk(e: Env, sh: map<string, seq<string>>)
    requires forall z :: z in sh ==> Distinct(sh[z])
    ensures SuperHostsOk(e, NextSuperHosts(e, sh))
  {
    forall z | z in NextSuperHosts(e, sh)
      ensures Distinct(Chosen(e, sh, z)) && forall h :: h in Chosen(e, sh, z) ==> h in e.Members(z) && h in e.eligible
    {
      PickSuperCount(e.Members(z), e.matched, HostsOf(sh, z), e.eligible, e.cfg.superHosts);
    }
  }

  /** A super host of either zone against a target in the other. */
  ghost predicate WantedPath(e: Env, sh: map<string, seq<string>>, p: PairingV, w: Path) {
    || Reaches(e, HostsOf(sh, p.zoneA), p.zoneB, w)
    || (p.zoneA != p.zoneB && Reaches(e, HostsOf(sh, p.zoneB), p.zoneA, w))
  }

  /** The wanted super paths of a pairing: both directions, each exactly once, in order
      of source and target, never more than the maximum per source. */
  lemma SuperPathsMeaning(e: Env, sh: map<string, seq<string>>, p: PairingV)
    requires e.Valid() && SuperHostsOk(e, sh)
    ensures var ws := SuperPaths(e, sh, p);
            && Sorted(ws, PathLe) && Distinct(ws)
            && forall w :: w in ws <==> WantedPath(e, sh, p, w)
  {
    hide PathsFrom, Reaches, Distinct, Sort, TotalOrder, PathLe, Env.Valid;
    var x := PathsFrom(e, HostsOf(sh, p.zoneA), p.zoneB);
    var y := if p.zoneA != p.zoneB then PathsFrom(e, HostsOf(sh, p.zoneB), p.zoneA) else [];
    HostsOfDistinct(e, sh, p.zoneA);
    HostsOfDistinct(e, sh, p.zoneB);
    PathsFromDistinct(e, HostsOf(sh, p.zoneA), p.zoneB);
    EmptyDistinct<Path>();
    if p.zoneA != p.zoneB { PathsFromDistinct(e, HostsOf(sh, p.zoneB), p.zoneA); }
    forall w ensures w in x + y <==> WantedPath(e, sh, p, w) {
      PathsFromMembers(e, HostsOf(sh, p.zoneA), p.zoneB, w);
      PathsFromMembers(e, HostsOf(sh, p.zoneB), p.zoneA, w);
    }
    forall w | w in x ensures w !in y {
      PathsFromMembers(e, HostsOf(sh, p.zoneA), p.zoneB, w);
      PathsFromMembers(e, HostsOf(sh, p.zoneB), p.zoneA, w);
      if p.zoneA != p.zoneB { OneWay(e, sh, p, w); }
    }
    DistinctConcat(x, y);
    SortedPaths(x + y);
  }

  lemma HostsOfDistinct(e: Env, sh: map<string, seq<string>>, z: string)
    requires SuperHostsOk(e, sh)
    ensures Distinct(HostsOf(sh, z))
  {}

  /** A super host belongs to one zone, so a path runs in one direction only. */
  lemma OneWay(e: Env, sh: map<string, seq<string>>, p: PairingV, w: Path)
    requires e.Valid() && SuperHostsOk(e, sh) && p.zoneA != p.zoneB
    ensures !(Reaches(e, HostsOf(sh, p.zoneA), p.zoneB, w) && Reaches(e, HostsOf(sh, p.zoneB), p.zoneA, w))
  {
    OneZone(e, sh, w.src, p.zoneA, p.zoneB);
  }

  lemma OneZone(e: Env, sh: map<string, seq<string>>, h: string, z1: string, z2: string)
    requires e.Valid() && SuperHostsOk(e, sh)
    ensures h in HostsOf(sh, z1) ==> h in e.hostZone && e.hostZone[h] == z1
    ensures h in HostsOf(sh, z1) && h in HostsOf(sh, z2) ==> z1 == z2
  {
    if h in HostsOf(sh, z1) { assert h in e.Members(z1); }
    if h in HostsOf(sh, z2) { assert h in e.Members(z2); }
  }

  lemma SortedPaths(x: seq<Path>)
    requires Distinct(x)
    ensures Sorted(Sort(x, PathLe), PathLe) && Distinct(Sort(x, PathLe))
    ensures forall w :: w in Sort(x, PathLe) <==> w in x
  {
    SortDistinct(x, PathLe);
    PathLeTotalOrder();
    SortSorted(x, PathLe);
    assert forall w :: w in Sort(x, PathLe) <==> w in Elems(Sort(x, PathLe));
  }

  /** No source has more targets than the configured maximum. */
  lemma SuperTargetsBounded(e: Env, sh: map<string, seq<string>>, p: PairingV, src: string)
    requires e.Valid() && SuperHostsOk(e, sh)
    ensures var max := e.cfg.superMaxTargets;
            |set w | w in SuperPaths(e, sh, p) && w.src == src| <= if max < 0 then 0 else max
  {
    hide SuperPaths, Distinct, Sorted, PathLe, WantedPath, SuperHostsOk, Env.Valid, HostsOf;
    SuperPathsMeaning(e, sh, p);
    var far := if src in HostsOf(sh, p.zoneA) then p.zoneB else p.zoneA;
    var dsts := Targets(e.Members(far), src, e.eligible, e.cfg.superMaxTargets);
    var mine := set w | w in SuperPaths(e, sh, p) && w.src == src;
    forall w | w in mine ensures w in PathsOf(src, dsts) {
      SourceSide(e, sh, p, w);
      PathsOfHolds(w, dsts);
    }
    SubsetSize(mine, Elems(PathsOf(src, dsts)));
    ElemsSize(PathsOf(src, dsts));
  }

  lemma PathsOfHolds(w: Path, dsts: seq<string>)
    requires w.dst in dsts
    ensures w in PathsOf(w.src, dsts)
  {
    var i :| 0 <= i < |dsts| && dsts[i] == w.dst;
    assert PathsOf(w.src, dsts)[i] == w;
  }

  lemma SourceSide(e: Env, sh: map<string, seq<string>>, p: PairingV, w: Path)
    requires e.Valid() && SuperHostsOk(e, sh) && WantedPath(e, sh, p, w)
    ensures var far := if w.src in HostsOf(sh, p.zoneA) then p.zoneB else p.zoneA;
            w.dst in Targets(e.Members(far), w.src, e.eligible, e.cfg.superMaxTargets)
  {
    OneZone(e, sh, w.src, p.zoneA, p.zoneB);
  }

  lemma {:induction false} ElemsSize<T(!new)>(s: seq<T>)
    ensures |Elems(s)| <= |s|
  {
    if |s| == 0 { assert Elems(s) == {}; }
    else {
      ElemsSize(s[..|s| - 1]);
      assert s == s[..|s| - 1] + [s[|s| - 1]];
      assert Elems(s) == Elems(s[..|s| - 1]) + {s[|s| - 1]};
    }
  }

  // ---------- the table ----------

  // ---------- the lookup key ----------

  /** A source a stored super slot may still hold after validation, other than the source of
      the path, forms the key of the path with some target. */
  ghost predicate ShadowedBy(e: Env, zoneA: string, w: Path, g: string, t: string) {
    t != "" && g != w.src && (g == "" || e.OkHost(g, zoneA)) && SuperKey(g, t) == SuperKey(w.src, w.dst)
  }

  ghost predicate Shadowed(e: Env, zoneA: string, w: Path) {
    exists g, t :: ShadowedBy(e, zoneA, w, g, t)
  }

  /** No wanted path of the pairing is shadowed. */
  ghost predicate Unshadowed(e: Env, sh: map<string, seq<string>>, p: PairingV) {
    forall w :: WantedPath(e, sh, p, w) ==> !Shadowed(e, p.zoneA, w)
  }

  /** The second name is the first one, then a bar and more. */
  predicate BarAfter(g: string, h: string) { |g| < |h| && h[..|g|] == g && h[|g|] == '|' }

  /** A host name or, for an empty side, none. */
  predicate Named(e: Env, h: string) { h == "" || h in e.hosts }

  /** No host name is another one, or none, followed by a bar. */
  ghost predicate ClearNames(e: Env) {
    forall g, h :: Named(e, g) && Named(e, h) ==> !BarAfter(g, h)
  }

  lemma LongerEnd(x: string, y: string, u: string, v: string)
    requires SuperKey(x, y) == SuperKey(u, v) && |x| < |u|
    ensures BarAfter(x, u)
  {
    var s, t := x + "|" + y, u + "|" + v;
    assert s[|x|] == '|' && s[..|x|] == x && t[..|u|] == u;
    assert u[..|x|] == t[..|x|] && u[|x|] == t[|x|];
  }

  lemma SameSource(x: string, y: string, v: string)
    requires SuperKey(x, y) == SuperKey(x, v)
    ensures y == v
  {
    assert y == (x + "|" + y)[|x| + 1..] && v == (x + "|" + v)[|x| + 1..];
  }

  lemma KeyEnds(x: string, y: string, u: string, v: string)
    requires !BarAfter(x, u) && !BarAfter(u, x) && SuperKey(x, y) == SuperKey(u, v)
    ensures x == u && y == v
  {
    if |x| < |u| { LongerEnd(x, y, u, v); }
    if |u| < |x| { LongerEnd(u, v, x, y); }
    assert x == (x + "|" + y)[..|x|] && u == (u + "|" + v)[..|u|];
    SameSource(x, y, v);
  }

  /** A lookup key tells the ends of a path between hosts if and only if the host names are
      clear in this sense; a bar inside a name does no harm by itself. */
  lemma KeysTellExactly(e: Env)
    ensures (forall x, y, u, v :: Named(e, x) && Named(e, u) && SuperKey(x, y) == SuperKey(u, v) ==> x == u && y == v)
              <==> ClearNames(e)
  {
    hide SuperKey, BarAfter, Named;
    if ClearNames(e) {
      forall x, y, u, v | Named(e, x) && Named(e, u) && SuperKey(x, y) == SuperKey(u, v) ensures x == u && y == v {
        KeyEnds(x, y, u, v);
      }
    } else {
      var g, h :| Named(e, g) && Named(e, h) && BarAfter(g, h);
      SharedKey(g, h);
    }
  }

  lemma SharedKey(g: string, h: string)
    requires BarAfter(g, h)
    ensures exists y, v :: SuperKey(g, y) == SuperKey(h, v) && g != h
  {
    var y := h[|g| + 1..] + "|";
    assert g + "|" + y == h + "|" + "";
    assert SuperKey(g, y) == SuperKey(h, "");
  }

  /** So with clear host names no path is shadowed. */
  lemma ClearIsUnshadowed(e: Env, sh: map<string, seq<string>>, p: PairingV)
    requires e.Valid() && SuperHostsOk(e, sh) && ClearNames(e)
    ensures Unshadowed(e, sh, p)
  {
    hide SuperKey, WantedPath, SuperHostsOk;
    forall w, g, t | WantedPath(e, sh, p, w) ensures !ShadowedBy(e, p.zoneA, w, g, t) {
      if ShadowedBy(e, p.zoneA, w, g, t) {
        WantedHosts(e, sh, p, w);
        KeyEnds(g, t, w.src, w.dst);
      }
    }
  }

  /** A stored super slot after validation: its sides are untouched or empty, a side that is
      still held is valid, and the target is named. */
  ghost predicate CheckedSuper(e: Env, p: PairingV, s: Slot) {
    && (s.a.host != "" ==> e.OkHost(s.a.host, p.zoneA))
    && (s.b.host == "" || s.b.host == s.target)
    && (s.b.host == "" ==> !e.OkHost(s.target, p.zoneB))
    && s.target != ""
  }

  lemma ValidatedSupers(e: Env, k: string, cur: Option<PairingV>)
    requires e.Valid() && k in e.want && CurOk(e, k, cur) && CurSupersOk(e, cur)
    ensures var v := Validated(e, k, cur);
            forall i :: e.Layout().total <= i < |v.slots| ==> CheckedSuper(e, v, v.slots[i])
  {
    DiffedOk(e, k, cur);
    var p := Diffed(e, k, cur);
    var v := Validated(e, k, cur);
    assert v == p.(slots := Validate(e, p));
    forall i | e.Layout().total <= i < |v.slots| ensures CheckedSuper(e, v, v.slots[i]) {
      assert SuperShape(p.slots[i]);
      assert v.slots[i] == CheckSlot(e, p, p.slots[i]);
    }
  }

  /** A stored slot found under the key of an unshadowed path is that path's slot, whole. */
  lemma FoundSlot(e: Env, sh: map<string, seq<string>>, p: PairingV, tail: seq<Slot>, w: Path)
    requires e.Valid() && SuperHostsOk(e, sh) && WantedPath(e, sh, p, w) && !Shadowed(e, p.zoneA, w)
    requires forall i :: 0 <= i < |tail| ==> CheckedSuper(e, p, tail[i])
    requires SuperKey(w.src, w.dst) in Existing(tail)
    ensures var s := Existing(tail)[SuperKey(w.src, w.dst)];
            s.a.host == w.src && s.b.host == w.dst && s.target == w.dst
  {
    var s := Existing(tail)[SuperKey(w.src, w.dst)];
    assert CheckedSuper(e, p, s);
    WantedHosts(e, sh, p, w);
    SameEnds(e, p.zoneA, s.a.host, s.target, w);
  }

  lemma SameEnds(e: Env, zoneA: string, a: string, target: string, w: Path)
    requires !Shadowed(e, zoneA, w) && target != "" && (a == "" || e.OkHost(a, zoneA))
    requires SuperKey(a, target) == SuperKey(w.src, w.dst)
    ensures a == w.src && target == w.dst
  {
    hide SuperKey;
    assert !ShadowedBy(e, zoneA, w, a, target);
    SameSource(w.src, target, w.dst);
  }

  /** The ends of a wanted path are named, present and eligible, and a source in zone A
      has its target in zone B. */
  lemma WantedHosts(e: Env, sh: map<string, seq<string>>, p: PairingV, w: Path)
    requires e.Valid() && SuperHostsOk(e, sh) && WantedPath(e, sh, p, w)
    ensures w.src in e.hosts && w.dst in e.hosts && w.src != "" && w.dst != ""
    ensures e.OkHost(w.src, p.zoneA) ==> e.OkHost(w.dst, p.zoneB)
  {}

  /** Slot j of the tail holds wanted path j, on both sides. */
  ghost predicate Holds(s: Slot, w: Path, index: int) {
    s.cls == Super && s.index == index && s.a.host == w.src && s.b.host == w.dst && s.target == w.dst
  }

  lemma SuperSlotHolds(e: Env, sh: map<string, seq<string>>, p: PairingV, tail: seq<Slot>, w: Path, index: int)
    requires e.Valid() && SuperHostsOk(e, sh) && WantedPath(e, sh, p, w) && !Shadowed(e, p.zoneA, w)
    requires forall i :: 0 <= i < |tail| ==> CheckedSuper(e, p, tail[i])
    ensures Holds(SuperSlot(e, Existing(tail), w, index), w, index) && w.src != "" && w.dst != ""
  {
    WantedHosts(e, sh, p, w);
    if SuperKey(w.src, w.dst) in Existing(tail) { FoundSlot(e, sh, p, tail, w); }
  }

  /** The table `y` is the first `t` slots of another, then one slot for each path. */
  ghost predicate TailHolds(y: seq<Slot>, t: nat, ws: seq<Path>) {
    && |y| == t + |ws|
    && forall j :: 0 <= j < |ws| ==> Holds(y[t + j], ws[j], t + j) && ws[j].src != "" && ws[j].dst != ""
  }

  lemma SuperTableSize(e: Env, sh: map<string, seq<string>>, p: PairingV)
    requires |p.slots| >= e.Layout().total
    ensures |SuperTable(e, sh, p)| == e.Layout().total + |SuperPaths(e, sh, p)|
  {
    hide SuperPaths, SuperSlot, Existing;
  }

  lemma SuperTableAt(e: Env, sh: map<string, seq<string>>, p: PairingV, j: nat)
    requires |p.slots| >= e.Layout().total && j < |SuperPaths(e, sh, p)|
    ensures var t, ws, y := e.Layout().total, SuperPaths(e, sh, p), SuperTable(e, sh, p);
            |y| == t + |ws| && y[t + j] == SuperSlot(e, Existing(Tail(p.slots, t)), ws[j], t + j)
  {
    hide SuperPaths, SuperSlot, Existing;
  }

  lemma SuperTableExact(e: Env, sh: map<string, seq<string>>, p: PairingV)
    requires e.Valid() && SuperHostsOk(e, sh) && Unshadowed(e, sh, p) && |p.slots| >= e.Layout().total
    requires forall i :: e.Layout().total <= i < |p.slots| ==> CheckedSuper(e, p, p.slots[i])
    ensures TailHolds(SuperTable(e, sh, p), e.Layout().total, SuperPaths(e, sh, p))
  {
    SuperTableSize(e, sh, p);
    forall j: nat | j < |SuperPaths(e, sh, p)|
      ensures Holds(SuperTable(e, sh, p)[e.Layout().total + j], SuperPaths(e, sh, p)[j], e.Layout().total + j)
      ensures SuperPaths(e, sh, p)[j].src != "" && SuperPaths(e, sh, p)[j].dst != ""
    {
      SuperTableHolds(e, sh, p, j);
    }
  }

  lemma SuperTableHolds(e: Env, sh: map<string, seq<string>>, p: PairingV, j: nat)
    requires e.Valid() && SuperHostsOk(e, sh) && Unshadowed(e, sh, p) && |p.slots| >= e.Layout().total
    requires forall i :: e.Layout().total <= i < |p.slots| ==> CheckedSuper(e, p, p.slots[i])
    requires j < |SuperPaths(e, sh, p)|
    ensures var t, ws, y := e.Layout().total, SuperPaths(e, sh, p), SuperTable(e, sh, p);
            |y| == t + |ws| && Holds(y[t + j], ws[j], t + j) && ws[j].src != "" && ws[j].dst != ""
  {
    hide *;
    SuperTableAt(e, sh, p, j);
    PathWanted(e, sh, p, j);
    TailChecked(e, p, e.Layout().total);
    SuperSlotHolds(e, sh, p, Tail(p.slots, e.Layout().total), SuperPaths(e, sh, p)[j], e.Layout().total + j);
  }

  lemma TailChecked(e: Env, p: PairingV, t: nat)
    requires forall i :: t <= i < |p.slots| ==> CheckedSuper(e, p, p.slots[i])
    ensures forall i :: 0 <= i < |Tail(p.slots, t)| ==> CheckedSuper(e, p, Tail(p.slots, t)[i])
  {
    hide CheckedSuper;
  }

  lemma PathWanted(e: Env, sh: map<string, seq<string>>, p: PairingV, j: nat)
    requires e.Valid() && SuperHostsOk(e, sh) && j < |SuperPaths(e, sh, p)|
    ensures WantedPath(e, sh, p, SuperPaths(e, sh, p)[j])
    ensures Unshadowed(e, sh, p) ==> !Shadowed(e, p.zoneA, SuperPaths(e, sh, p)[j])
  {
    hide SuperPaths, WantedPath, Shadowed;
    SuperPathsMeaning(e, sh, p);
    assert SuperPaths(e, sh, p)[j] in SuperPaths(e, sh, p);
  }

  /** With super testing on and no wanted path shadowed, the slots above the layout of an
      active pairing are exactly the wanted super paths in order, every one filled on both
      sides. */
  lemma SuperSlotsExact(e: Env, sh: map<string, seq<string>>, k: string, cur: Option<PairingV>)
    requires e.Valid() && e.cfg.superHosts > 0 && SuperHostsOk(e, sh)
    requires k in e.want && CurOk(e, k, cur) && CurSupersOk(e, cur) && Unshadowed(e, sh, Diffed(e, k, cur))
    ensures var r := StepOne(e, sh, k, cur);
            r.Some? && TailHolds(r.value.slots, e.Layout().total, SuperPaths(e, sh, r.value))
  {
    ValidatedSupers(e, k, cur);
    ValidatedReady(e, k, cur);
    var v := Validated(e, k, cur);
    UnshadowedSame(e, sh, Diffed(e, k, cur), v);
    SuperTableExact(e, sh, v);
    StepEstablishes(e, sh, k, cur);
    hide Validated, SuperTable, SuperPaths, Ready, Established, FillOne, TailHolds, Unshadowed, Diffed;
    var s := Supered(e, sh, k, cur);
    assert s.slots == SuperTable(e, sh, v);
    FillSame(e, s);
    var r := StepOne(e, sh, k, cur).value;
    SuperPathsSame(e, sh, v, r);
    GrownTail(e, s, s.slots, r.slots, e.Layout().total, SuperPaths(e, sh, r));
  }

  lemma UnshadowedSame(e: Env, sh: map<string, seq<string>>, p: PairingV, q: PairingV)
    requires SamePairing(p, q) && Unshadowed(e, sh, p)
    ensures Unshadowed(e, sh, q)
  {
    hide Shadowed;
  }

  // ---------- exactly when the super slots are the wanted paths ----------

  /** A stored table of this pairing under the invariant of every run. */
  ghost predicate StoredFor(e: Env, k: string, cur: Option<PairingV>)
    requires k in e.want
  {
    && CurOk(e, k, cur) && CurSupersOk(e, cur)
    && (cur.Some? ==> cur.value.zoneA == e.want[k].zoneA && cur.value.zoneB == e.want[k].zoneB)
  }

  /** After the run the slots above the layout are exactly the wanted paths. */
  ghost predicate TailRight(e: Env, sh: map<string, seq<string>>, k: string, cur: Option<PairingV>) {
    var r := StepOne(e, sh, k, cur);
    r.Some? && TailHolds(r.value.slots, e.Layout().total, SuperPaths(e, sh, r.value))
  }

  /** Every stored table gives the wanted paths if and only if none of them is shadowed. */
  lemma SuperSlotsIff(e: Env, sh: map<string, seq<string>>, k: string)
    requires e.Valid() && e.cfg.superHosts > 0 && SuperHostsOk(e, sh) && k in e.want
    ensures (forall cur :: StoredFor(e, k, cur) ==> TailRight(e, sh, k, cur))
              <==> Unshadowed(e, sh, Fresh(k, e.want[k]))
  {
    hide StoredFor, TailRight, WantedPath, SuperHostsOk, Env.Valid;
    var p := Fresh(k, e.want[k]);
    if Unshadowed(e, sh, p) {
      forall cur | StoredFor(e, k, cur) ensures TailRight(e, sh, k, cur) { RightTail(e, sh, k, cur); }
    } else {
      var w :| WantedPath(e, sh, p, w) && Shadowed(e, p.zoneA, w);
      var g, t :| ShadowedBy(e, p.zoneA, w, g, t);
      var cur := WrongTable(e, sh, k, w, g, t);
    }
  }

  lemma RightTail(e: Env, sh: map<string, seq<string>>, k: string, cur: Option<PairingV>)
    requires e.Valid() && e.cfg.superHosts > 0 && SuperHostsOk(e, sh) && k in e.want
    requires StoredFor(e, k, cur) && Unshadowed(e, sh, Fresh(k, e.want[k]))
    ensures TailRight(e, sh, k, cur)
  {
    hide Shadowed, StepOne, Resize, WantedPath, CurOk, CurSupersOk, ComputeLayout;
    forall w | WantedPath(e, sh, Diffed(e, k, cur), w) ensures WantedPath(e, sh, Fresh(k, e.want[k]), w) {
      SameWanted(e, sh, Diffed(e, k, cur), Fresh(k, e.want[k]), w);
    }
    SuperSlotsExact(e, sh, k, cur);
  }

  lemma SameWanted(e: Env, sh: map<string, seq<string>>, p: PairingV, q: PairingV, w: Path)
    requires p.zoneA == q.zoneA && p.zoneB == q.zoneB
    ensures WantedPath(e, sh, p, w) == WantedPath(e, sh, q, w)
  {}

  /** The base slots of a table that holds no host. */
  function Blank(l: Layout): seq<Slot> {
    seq(l.total, i requires 0 <= i => Slot(i, l.ClassAt(i), EMPTY, EMPTY, ""))
  }

  function MisleadingSlot(total: nat, src: string, target: string): Slot {
    Slot(total, Super, Seat(src, Unique, None), Seat(target, Unique, None), target)
  }

  /** A stored table without base hosts and with one super slot, whose source shadows the
      path once it is validated. */
  lemma WrongTable(e: Env, sh: map<string, seq<string>>, k: string, w: Path, g: string, t: string)
    returns (cur: Option<PairingV>)
    requires e.Valid() && e.cfg.superHosts > 0 && SuperHostsOk(e, sh) && k in e.want
    requires WantedPath(e, sh, Fresh(k, e.want[k]), w) && ShadowedBy(e, e.want[k].zoneA, w, g, t)
    ensures StoredFor(e, k, cur) && !TailRight(e, sh, k, cur)
  {
    hide WantedPath, SuperHostsOk, StepOne, SuperKey, ComputeLayout;
    var l, want := e.Layout(), e.want[k];
    var src := g;
    if g == "" { src := AbsentName(e.hosts); }
    var s := MisleadingSlot(l.total, src, t);
    var p := PairingV(k, want.zoneA, want.zoneB, want.intra, Blank(l) + [s], None);
    cur := Some(p);
    WrongStored(e, k, p, s);
    WrongValidated(e, k, p, s, g);
    WrongTail(e, sh, k, p, w, g, t);
  }

  lemma WrongStored(e: Env, k: string, p: PairingV, s: Slot)
    requires e.Valid() && k in e.want && p.slots == Blank(e.Layout()) + [s]
               && s == MisleadingSlot(e.Layout().total, s.a.host, s.target)
    requires p.key == k && p.zoneA == e.want[k].zoneA && p.zoneB == e.want[k].zoneB && p.intra == e.want[k].intra
    requires s.a.host != "" && s.target != ""
    ensures StoredFor(e, k, Some(p))
  {
    hide ComputeLayout;
  }

  /** After validation the slot holds the shadowing source, or none when the host is gone. */
  lemma WrongValidated(e: Env, k: string, p: PairingV, s: Slot, g: string)
    requires e.Valid() && k in e.want && p.slots == Blank(e.Layout()) + [s] && StoredFor(e, k, Some(p))
               && s.cls == Super
    requires if g == "" then s.a.host != "" && s.a.host !in e.hosts else g == s.a.host && e.OkHost(g, p.zoneA)
    ensures var v, t := Validated(e, k, Some(p)), e.Layout().total;
            |v.slots| == t + 1 && v.slots[t].cls == Super && v.slots[t].a.host == g && v.slots[t].target == s.target
            && v.zoneA == p.zoneA && v.zoneB == p.zoneB
  {
    hide ComputeLayout, Resize, Consistent;
    ResizeMeaning(p.slots, e.Layout());
  }

  lemma WrongTail(e: Env, sh: map<string, seq<string>>, k: string, p: PairingV, w: Path, g: string, t: string)
    requires e.Valid() && e.cfg.superHosts > 0 && SuperHostsOk(e, sh) && k in e.want && StoredFor(e, k, Some(p))
    requires WantedPath(e, sh, Fresh(k, e.want[k]), w) && g != w.src && SuperKey(g, t) == SuperKey(w.src, w.dst)
    requires var v, n := Validated(e, k, Some(p)), e.Layout().total;
             |v.slots| == n + 1 && v.slots[n].cls == Super && v.slots[n].a.host == g && v.slots[n].target == t
             && v.zoneA == p.zoneA && v.zoneB == p.zoneB
    ensures !TailRight(e, sh, k, Some(p))
  {
    hide WantedPath, SuperHostsOk, StepOne, SuperKey, ComputeLayout, Validated, SuperPaths, SuperTable, Established,
         Env.Valid, CurOk, CurSupersOk, FillOne, SuperSlot, Supered;
    var v, s, n := Validated(e, k, Some(p)), Supered(e, sh, k, Some(p)), e.Layout().total;
    ValidatedReady(e, k, Some(p));
    StepEstablishes(e, sh, k, Some(p));
    SuperedTable(e, sh, k, Some(p));
    var r := StepOne(e, sh, k, Some(p)).value;
    SuperPathsMeaning(e, sh, v);
    SameWanted(e, sh, v, Fresh(k, e.want[k]), w);
    var j: nat :| j < |SuperPaths(e, sh, v)| && SuperPaths(e, sh, v)[j] == w;
    SuperTableAt(e, sh, v, j);
    assert Tail(v.slots, n) == [v.slots[n]];
    SingleFound(e, v.slots[n], w, n + j);
    SameZones(e, sh, k, Some(p));
    SuperPathsSame(e, sh, v, r);
    assert SlotGrown(e, s, s.slots[n + j], r.slots[n + j]);
  }

  lemma SingleFound(e: Env, s: Slot, w: Path, index: int)
    requires s.cls == Super && SuperKey(s.a.host, s.target) == SuperKey(w.src, w.dst)
    ensures SuperSlot(e, Existing([s]), w, index) == s.(index := index)
  {
    assert [s][..0] == [];
  }

  lemma SuperedTable(e: Env, sh: map<string, seq<string>>, k: string, cur: Option<PairingV>)
    requires e.Valid() && e.cfg.superHosts > 0 && k in e.want && CurOk(e, k, cur)
    ensures var v := Validated(e, k, cur);
            |v.slots| >= e.Layout().total && Supered(e, sh, k, cur) == v.(slots := SuperTable(e, sh, v))
  {
    ValidatedReady(e, k, cur);
    hide Validated, SuperTable, SeatsOk, Consistent, Classed, ComputeLayout;
  }

  /** A run does not change the zones of a pairing. */
  lemma SameZones(e: Env, sh: map<string, seq<string>>, k: string, cur: Option<PairingV>)
    requires k in e.want && StepOne(e, sh, k, cur).Some?
    ensures SamePairing(Validated(e, k, cur), StepOne(e, sh, k, cur).value)
    ensures SamePairing(Diffed(e, k, cur), StepOne(e, sh, k, cur).value)
  {
    hide FillTable, SuperTable, NonSuper, Validate, Resize, ComputeLayout;
  }

  /** Some name belongs to no host. */
  lemma AbsentName(hosts: set<string>) returns (h: string)
    ensures h != "" && h !in hosts
  {
    var n := Longer(hosts);
    h := seq(n + 1, _ => 'x');
  }

  lemma {:induction false} Longer(hosts: set<string>) returns (n: nat)
    ensures forall h :: h in hosts ==> |h| <= n
  {
    if hosts == {} {
      n := 0;
    } else {
      var h :| h in hosts;
      n := Longer(hosts - {h});
      n := if |h| > n then |h| else n;
    }
  }

  lemma GrownTail(e: Env, p: PairingV, x: seq<Slot>, y: seq<Slot>, t: nat, ws: seq<Path>)
    requires Grown(e, p, x, y) && TailHolds(x, t, ws)
    ensures TailHolds(y, t, ws)
  {
    forall j | 0 <= j < |ws| ensures Holds(y[t + j], ws[j], t + j) {
      assert SlotGrown(e, p, x[t + j], y[t + j]);
    }
  }

  predicate SamePairing(p: PairingV, q: PairingV) {
    q == p.(slots := q.slots)
  }

  lemma FillSame(e: Env, p: PairingV)
    ensures SamePairing(p, FillOne(e, p))
  {}

  lemma SuperPathsSame(e: Env, sh: map<string, seq<string>>, p: PairingV, q: PairingV)
    requires SamePairing(p, q)
    ensures SuperPaths(e, sh, p) == SuperPaths(e, sh, q)
  {}
}
