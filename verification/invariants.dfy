/** What every reconcile run keeps and what it establishes for one pairing, pass by
    pass (internal/reconcile/reconcile.go:165-321, 326-425, 496-644). */
module Invariants {
  import opened Base
  import opened Slots
  import opened Tables
  import opened Filling

  // ---------- the invariant ----------

  /** A stored super slot holds its source and its target. */
  predicate SuperShape(s: Slot) {
    s.a.host != "" && s.b.host == s.target && s.target != ""
  }

  /** `total` base slots, then super slots, numbered by position. */
  ghost predicate Shaped(slots: seq<Slot>, total: nat) {
    && |slots| >= total
    && (forall i :: 0 <= i < |slots| ==> slots[i].index == i)
    && (forall i :: 0 <= i < total ==> slots[i].cls != Super)
    && (forall i :: total <= i < |slots| ==> slots[i].cls == Super)
  }

  ghost predicate PairingOk(k: string, p: PairingV, total: nat) {
    && p.key == k
    && (p.intra <==> p.zoneA == p.zoneB)
    && Shaped(p.slots, total)
    && Consistent(p, p.slots)
  }

  /** The super slots of a stored table. */
  ghost predicate SupersShaped(slots: seq<Slot>, total: nat) {
    forall i :: total <= i < |slots| ==> SuperShape(slots[i])
  }

  function Total(fp: SlotsPrint): nat { if fp.count < 0 then 0 else fp.count }

  /** The state invariant of every run. */
  ghost predicate StateOk(st: StateV) {
    match st.slotsConfig
    case None => st.pairings == map[] && st.superHosts == map[]
    case Some(fp) =>
      && (forall k :: k in st.pairings ==> PairingOk(k, st.pairings[k], Total(fp)))
      && (forall z :: z in st.superHosts ==> Distinct(st.superHosts[z]))
      && (fp.superHosts <= 0 ==>
            && st.superHosts == map[]
            && forall k :: k in st.pairings ==> |st.pairings[k].slots| == Total(fp))
  }

  ghost predicate Classed(slots: seq<Slot>, l: Layout) {
    |slots| >= l.total && forall i :: 0 <= i < l.total ==> slots[i].cls == l.ClassAt(i)
  }

  lemma FingerprintTotal(c: SlotsConfig)
    ensures Total(Fingerprint(c)) == ComputeLayout(c).total
  {}

  /** The ratio is printed with four digits, so a configuration can change the class of a
      slot without changing the fingerprint; such a slot is emptied, not rebuilt. */
  lemma FingerprintMissesAClass()
    ensures var c := SlotsConfig(4, 0.5, Up, 0, map[], 50, true);
            var d := c.(anchorRatio := 0.50001);
            && Fingerprint(c) == Fingerprint(d)
            && ComputeLayout(c).ClassAt(2) == Diverse && ComputeLayout(d).ClassAt(2) == Anchor
  {
    assert 4.0 * 0.5 == 2.0 && 4.0 * 0.50001 == 2.00004;
    assert (0.5 * 10000.0 + 0.5).Floor == 5000 && (0.50001 * 10000.0 + 0.5).Floor == 5000;
  }

  /** A ratio the configuration accepts. */
  predicate ValidRatio(c: SlotsConfig) { 0.0 <= c.anchorRatio <= 1.0 }

  /** For accepted configurations of this slot count the fingerprint determines the layout. */
  ghost predicate FingerprintDecides(count: int) {
    forall c: SlotsConfig, d: SlotsConfig ::
      c.count == count && ValidRatio(c) && ValidRatio(d) && Fingerprint(c) == Fingerprint(d)
      ==> ComputeLayout(c) == ComputeLayout(d)
  }

  /** Exactly when it does: for no slots at all. With any positive count the ratios 0 and
      0.00001 print alike, and only the second gives an anchor. */
  lemma FingerprintDecidesExactly(count: int)
    ensures FingerprintDecides(count) <==> count <= 0
  {
    if count > 0 {
      var c := SlotsConfig(count, 0.0, Up, 0, map[], 50, true);
      var d := c.(anchorRatio := 0.00001);
      assert (0.0 * 10000.0 + 0.5).Floor == 0 && (0.00001 * 10000.0 + 0.5).Floor == 0;
      assert Fingerprint(c) == Fingerprint(d);
      assert ComputeLayout(c).anchors == 0 && ComputeLayout(d).anchors > 0;
      assert c.count == count && ValidRatio(c) && ValidRatio(d);
    } else {
      forall c: SlotsConfig, d: SlotsConfig | c.count == count && ValidRatio(c) && ValidRatio(d)
        && Fingerprint(c) == Fingerprint(d)
        ensures ComputeLayout(c) == ComputeLayout(d)
      {
        assert ComputeLayout(c).total == 0 && ComputeLayout(d).total == 0;
      }
    }
  }

  /** The ratio is a multiple of one in ten thousand. */
  predicate FourDigits(c: SlotsConfig) { (c.anchorRatio * 10000.0).Floor as real == c.anchorRatio * 10000.0 }

  /** A ratio as it is printed: the nearest number of ten-thousandths, halves up. */
  predicate PrintedAs(ratio: real, n: int) { n as real <= ratio * 10000.0 + 0.5 < (n + 1) as real }

  /** Two configurations print alike exactly when they agree in the count, the rounding, the number
      of super hosts, their targets and the reuse of hosts, and their ratios print alike. */
  lemma FingerprintTells(c: SlotsConfig, d: SlotsConfig)
    ensures Fingerprint(c) == Fingerprint(d) <==>
              && c.count == d.count && c.rounding == d.rounding && c.superHosts == d.superHosts
              && c.superMaxTargets == d.superMaxTargets && c.allowReuse == d.allowReuse
              && exists n :: PrintedAs(c.anchorRatio, n) && PrintedAs(d.anchorRatio, n)
  {
    var m, n := Fingerprint(c).ratio4, Fingerprint(d).ratio4;
    assert PrintedAs(c.anchorRatio, m) && PrintedAs(d.anchorRatio, n);
    forall k | PrintedAs(c.anchorRatio, k) ensures k == m {}
    forall k | PrintedAs(d.anchorRatio, k) ensures k == n {}
  }

  /** A configuration whose ratio has at most four digits is told by its fingerprint. */
  lemma FourDigitsDecide(c: SlotsConfig, d: SlotsConfig)
    requires FourDigits(c) && FourDigits(d) && Fingerprint(c) == Fingerprint(d)
    ensures c.anchorRatio == d.anchorRatio && ComputeLayout(c) == ComputeLayout(d)
  {
    var x, y := c.anchorRatio * 10000.0, d.anchorRatio * 10000.0;
    assert (x + 0.5).Floor == x.Floor && (y + 0.5).Floor == y.Floor;
    assert c.anchorRatio == d.anchorRatio;
  }

  // ---------- resize ----------

  lemma {:induction false} SplitParts(base: seq<Slot>, tail: seq<Slot>)
    requires forall i :: 0 <= i < |base| ==> base[i].cls != Super
    requires forall i :: 0 <= i < |tail| ==> tail[i].cls == Super
    ensures NonSuper(base + tail) == base && Supers(base + tail) == tail
  {
    if |tail| > 0 {
      var s, t := base + tail, tail[..|tail| - 1];
      assert s[..|s| - 1] == base + t;
      SplitParts(base, t);
      assert t + [tail[|t|]] == tail;
    } else {
      NoTail(base);
      assert base + tail == base;
    }
  }

  lemma {:induction false} NoTail(base: seq<Slot>)
    requires forall i :: 0 <= i < |base| ==> base[i].cls != Super
    ensures NonSuper(base) == base && Supers(base) == []
  {
    if |base| > 0 {
      var b := base[..|base| - 1];
      NoTail(b);
      assert b + [base[|b|]] == base;
    }
  }

  lemma SplitShaped(slots: seq<Slot>, total: nat)
    requires |slots| >= total
    requires forall i :: 0 <= i < total ==> slots[i].cls != Super
    requires forall i :: total <= i < |slots| ==> slots[i].cls == Super
    ensures NonSuper(slots) == slots[..total] && Supers(slots) == slots[total..]
  {
    hide NonSuper, Supers;
    SplitParts(slots[..total], slots[total..]);
    assert slots[..total] + slots[total..] == slots;
  }

  /** A table of the right classes is not changed by resizing it. */
  lemma ResizeKept(k: string, slots: seq<Slot>, l: Layout)
    requires |slots| >= l.total
    requires forall i :: 0 <= i < l.total ==> slots[i].index == i && slots[i].cls == l.ClassAt(i)
    requires forall i :: l.total <= i < |slots| ==> slots[i].cls == Super
    ensures Resize(slots, l) == slots && ResizeLog(k, slots, l) == []
  {
    SplitShaped(slots, l.total);
    var base := NonSuper(slots);
    hide NonSuper, Supers;
    forall i: nat | i < l.total ensures Reclass(BaseAt(base, i), i, l.ClassAt(i)) == slots[i] {}
    assert Resize(slots, l) == slots[..l.total] + slots[l.total..];
    assert DropChunks(k, base, l.total) == [];
    FlattenEmpty(ReclassChunks(k, base, l));
  }

  lemma {:induction false} SupersAreSuper(slots: seq<Slot>)
    ensures forall i :: 0 <= i < |Supers(slots)| ==> Supers(slots)[i].cls == Super
  {
    if |slots| > 0 { SupersAreSuper(slots[..|slots| - 1]); }
  }

  /** Resizing again to the same layout changes nothing, whatever the table was. */
  lemma ResizeTwice(k: string, slots: seq<Slot>, l: Layout)
    ensures Resize(Resize(slots, l), l) == Resize(slots, l) && ResizeLog(k, Resize(slots, l), l) == []
  {
    SupersAreSuper(slots);
    hide NonSuper, Supers;
    ResizeKept(k, Resize(slots, l), l);
  }

  lemma ResizeFixed(k: string, slots: seq<Slot>, l: Layout)
    requires Shaped(slots, l.total) && Classed(slots, l)
    ensures Resize(slots, l) == slots && ResizeLog(k, slots, l) == []
  {
    ResizeKept(k, slots, l);
  }

  /** The table of a wanted pairing before this run's passes: the stored one, or none. */
  function Before(e: Env, k: string, cur: Option<PairingV>): PairingV
    requires k in e.want
  {
    if cur.Some? then cur.value.(removeAt := None) else Fresh(k, e.want[k])
  }

  /** A resized table against the stored one: a slot whose class is unchanged is
      unchanged, any other is emptied. */
  ghost predicate Resized(x: seq<Slot>, y: seq<Slot>, l: Layout) {
    && |y| == (if |x| < l.total then l.total else |x|)
    && (forall i :: 0 <= i < l.total ==> y[i] == Reclass(BaseAt(x, i), i, l.ClassAt(i)))
    && (forall i :: l.total <= i < |y| ==> y[i] == x[i])
  }

  lemma ResizeMeaning(x: seq<Slot>, l: Layout)
    requires Shaped(x, l.total) || x == []
    ensures Resized(x, Resize(x, l), l)
  {
    hide Reclass, Layout.ClassAt;
    if x != [] { SplitShaped(x, l.total); }
  }

  lemma ResizedShape(x: seq<Slot>, y: seq<Slot>, l: Layout)
    requires Resized(x, y, l) && (x == [] || Shaped(x, l.total))
    ensures Shaped(y, l.total) && Classed(y, l)
    ensures SupersShaped(x, l.total) ==> SupersShaped(y, l.total)
  {
    hide SuperShape;
  }

  lemma ResizeOk(k: string, p: PairingV, l: Layout)
    requires PairingOk(k, p, l.total) || (p.slots == [] && p.key == k && (p.intra <==> p.zoneA == p.zoneB))
    ensures var q := p.(slots := Resize(p.slots, l));
            PairingOk(k, q, l.total) && Classed(q.slots, l)
              && (SupersShaped(p.slots, l.total) ==> SupersShaped(q.slots, l.total))
  {
    ResizeMeaning(p.slots, l);
    hide Resize, SuperShape;
    var y := Resize(p.slots, l);
    ResizedShape(p.slots, y, l);
    ResizedConsistent(p, y, l);
  }

  lemma ResizedConsistent(p: PairingV, y: seq<Slot>, l: Layout)
    requires Resized(p.slots, y, l) && Shaped(y, l.total) && Consistent(p, p.slots)
    ensures Consistent(p.(slots := y), y)
  {
    hide Consistent;
    ConsistentSub(p, p.slots, y);
    ConsistentSameIntra(p, p.(slots := y), y);
  }

  /** Emptying sides and clearing whole slots keeps a table consistent. */
  lemma ConsistentSub(p: PairingV, x: seq<Slot>, y: seq<Slot>)
    requires Consistent(p, x)
    requires forall i :: 0 <= i < |y| && y[i].cls != Super ==>
               && (y[i].a.host == "" || (i < |x| && x[i].cls == y[i].cls && x[i].a.host == y[i].a.host))
               && (y[i].b.host == "" || (i < |x| && x[i].cls == y[i].cls && x[i].b.host == y[i].b.host))
    ensures Consistent(p, y)
  {
    forall i, j, side | 0 <= i < |y| && 0 <= j < |y| && HoldsAnchor(y[i], side) && HoldsAnchor(y[j], side)
      ensures y[i].Host(side) == y[j].Host(side)
    {
      assert HoldsAnchor(x[i], side) && HoldsAnchor(x[j], side);
    }
  }

  // ---------- validate ----------

  lemma ValidateOk(e: Env, p: PairingV, total: nat)
    requires e.Valid() && Shaped(p.slots, total) && Consistent(p, p.slots)
    ensures var y := Validate(e, p);
            && Shaped(y, total) && SeatsOk(e, p, y) && Consistent(p, y)
            && |y| == |p.slots| && forall i :: 0 <= i < |y| ==> y[i].cls == p.slots[i].cls
  {
    ConsistentSub(p, p.slots, Validate(e, p));
  }

  // ---------- super slots ----------

  /** The tail a super pass puts after the base slots. */
  ghost predicate SuperTail(x: seq<Slot>, y: seq<Slot>, total: nat) {
    && |x| >= total && |y| >= total
    && (forall i :: 0 <= i < total ==> y[i] == x[i])
    && (forall i :: total <= i < |y| ==> y[i].cls == Super && y[i].index == i)
  }

  lemma SuperOneTail(e: Env, sh: map<string, seq<string>>, p: PairingV)
    requires p.Active() && Shaped(p.slots, e.Layout().total)
    ensures SuperTail(p.slots, SuperOne(e, sh, p).slots, e.Layout().total)
    ensures e.cfg.superHosts <= 0 ==> |SuperOne(e, sh, p).slots| == e.Layout().total
  {
    hide ComputeLayout, SuperPaths, Existing, SuperTable;
    if e.cfg.superHosts <= 0 {
      SplitShaped(p.slots, e.Layout().total);
    } else {
      SuperTableTail(e, sh, p, e.Layout().total);
    }
  }

  lemma SuperTableTail(e: Env, sh: map<string, seq<string>>, p: PairingV, total: nat)
    requires total == e.Layout().total && |p.slots| >= total
    ensures SuperTail(p.slots, SuperTable(e, sh, p), total)
  {
    hide ComputeLayout, SuperPaths, Env.Layout;
    var ex, ws, y := Existing(Tail(p.slots, total)), SuperPaths(e, sh, p), SuperTable(e, sh, p);
    forall i | total <= i < |y| ensures y[i].cls == Super && y[i].index == i {
      assert y[i] == SuperSlot(e, ex, ws[i - total], i);
    }
  }

  lemma SuperTailOk(e: Env, p: PairingV, x: seq<Slot>, y: seq<Slot>, total: nat)
    requires SuperTail(x, y, total) && Shaped(x, total) && SeatsOk(e, p, x) && Consistent(p, x)
    ensures Shaped(y, total) && SeatsOk(e, p, y) && Consistent(p, y)
  {
    ConsistentSub(p, x, y);
  }

  // ---------- the whole step ----------

  /** Everything a run guarantees of a wanted pairing, supers apart. */
  ghost predicate Established(e: Env, k: string, p: PairingV) {
    && p.key == k && p.Active()
    && (p.intra <==> p.zoneA == p.zoneB)
    && Shaped(p.slots, e.Layout().total)
    && Classed(p.slots, e.Layout())
    && SeatsOk(e, p, p.slots)
    && Consistent(p, p.slots)
    && Settled(e, p, p.slots)
  }

  /** The table each pass of a run works on. */
  function Diffed(e: Env, k: string, cur: Option<PairingV>): PairingV
    requires k in e.want
  {
    DiffOne(e, k, cur).value
  }

  function Validated(e: Env, k: string, cur: Option<PairingV>): PairingV
    requires k in e.want
  {
    ValidateOne(e, Diffed(e, k, cur))
  }

  function Supered(e: Env, sh: map<string, seq<string>>, k: string, cur: Option<PairingV>): PairingV
    requires k in e.want
  {
    SuperOne(e, sh, Validated(e, k, cur))
  }

  ghost predicate CurOk(e: Env, k: string, cur: Option<PairingV>) {
    cur.Some? ==> PairingOk(k, cur.value, e.Layout().total)
  }

  ghost predicate CurSupersOk(e: Env, cur: Option<PairingV>) {
    cur.Some? ==> SupersShaped(cur.value.slots, e.Layout().total)
  }

  /** Before filling: right shape and classes, only valid hosts. */
  ghost predicate Ready(e: Env, k: string, p: PairingV) {
    && p.key == k && p.Active()
    && (p.intra <==> p.zoneA == p.zoneB)
    && Shaped(p.slots, e.Layout().total)
    && Classed(p.slots, e.Layout())
    && SeatsOk(e, p, p.slots)
    && Consistent(p, p.slots)
  }

  lemma DiffedOk(e: Env, k: string, cur: Option<PairingV>)
    requires e.Valid() && k in e.want && CurOk(e, k, cur)
    ensures var p := Diffed(e, k, cur);
            p.Active() && PairingOk(k, p, e.Layout().total) && Classed(p.slots, e.Layout())
    ensures CurSupersOk(e, cur) ==> SupersShaped(Diffed(e, k, cur).slots, e.Layout().total)
  {
    ResizeOk(k, Before(e, k, cur), e.Layout());
    assert Diffed(e, k, cur) == Before(e, k, cur).(slots := Resize(Before(e, k, cur).slots, e.Layout()));
  }

  lemma ValidatedReady(e: Env, k: string, cur: Option<PairingV>)
    requires e.Valid() && k in e.want && CurOk(e, k, cur)
    ensures Ready(e, k, Validated(e, k, cur))
  {
    DiffedOk(e, k, cur);
    var p := Diffed(e, k, cur);
    ValidateOk(e, p, e.Layout().total);
    hide Consistent, Validate;
    assert Validated(e, k, cur) == p.(slots := Validate(e, p));
    assert SeatsOk(e, p, Validate(e, p)) == SeatsOk(e, Validated(e, k, cur), Validate(e, p));
    ConsistentSameIntra(p, Validated(e, k, cur), Validate(e, p));
  }

  lemma ConsistentSameIntra(p: PairingV, q: PairingV, slots: seq<Slot>)
    requires p.intra == q.intra && Consistent(p, slots)
    ensures Consistent(q, slots)
  {}

  lemma SuperedReady(e: Env, sh: map<string, seq<string>>, k: string, cur: Option<PairingV>)
    requires e.Valid() && k in e.want && CurOk(e, k, cur)
    ensures Ready(e, k, Supered(e, sh, k, cur))
    ensures SuperTail(Validated(e, k, cur).slots, Supered(e, sh, k, cur).slots, e.Layout().total)
    ensures e.cfg.superHosts <= 0 ==> |Supered(e, sh, k, cur).slots| == e.Layout().total
  {
    ValidatedReady(e, k, cur);
    var v := Validated(e, k, cur);
    hide Validated, Consistent, SuperTable, NonSuper;
    SuperOneTail(e, sh, v);
    var s := SuperOne(e, sh, v);
    SuperTailOk(e, v, v.slots, s.slots, e.Layout().total);
    ConsistentSameIntra(v, s, s.slots);
  }

  lemma FillReady(e: Env, k: string, p: PairingV)
    requires e.Valid() && Ready(e, k, p)
    ensures Established(e, k, FillOne(e, p))
    ensures Grown(e, p, p.slots, FillOne(e, p).slots)
  {
    FillTableGrows(e, p);
    FillTableSettles(e, p);
    var y := FillTable(e, p).slots;
    var q := FillOne(e, p);
    hide FillTable, Consistent, SeatSettled;
    forall i | 0 <= i < |y| ensures y[i].cls == p.slots[i].cls && y[i].index == p.slots[i].index {
      assert SlotGrown(e, p, p.slots[i], y[i]);
    }
    ConsistentSameIntra(p, q, y);
    SettledSame(e, p, q, y);
  }

  lemma SettledSame(e: Env, p: PairingV, q: PairingV, slots: seq<Slot>)
    requires q == p.(slots := q.slots) && Settled(e, p, slots)
    ensures Settled(e, q, slots)
  {
    forall i: nat | i < |slots| ensures SeatSettled(e, q, slots, i, SideA) && SeatSettled(e, q, slots, i, SideB) {
      assert SeatSettled(e, p, slots, i, SideA) && SeatSettled(e, p, slots, i, SideB);
    }
  }

  /** One run on a wanted pairing, from any stored table that satisfies the invariant. */
  lemma StepEstablishes(e: Env, sh: map<string, seq<string>>, k: string, cur: Option<PairingV>)
    requires e.Valid() && k in e.want && CurOk(e, k, cur)
    ensures var r := StepOne(e, sh, k, cur);
            && r.Some? && Established(e, k, r.value)
            && Grown(e, Supered(e, sh, k, cur), Supered(e, sh, k, cur).slots, r.value.slots)
            && (e.cfg.superHosts <= 0 ==> |r.value.slots| == e.Layout().total)
  {
    SuperedReady(e, sh, k, cur);
    hide Ready, FillOne, SuperOne, ValidateOne, Established;
    FillReady(e, k, Supered(e, sh, k, cur));
  }
}
