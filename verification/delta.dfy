/** The delta says exactly what a run changed: reading its entries back over the old
    host table gives the new one (internal/reconcile/reconcile.go:48-61, 165-321, 531-644). */
module DeltaFaith {
  import opened Base
  import opened Slots
  import opened Tables
  import opened Filling
  import opened Invariants
  import opened Runs

  predicate Mine(c: SideChange, i: int, side: Side) { c.slot == i && c.side == side }

  /** The entries of one side of one slot, in order. */
  function At(log: seq<SideChange>, i: int, side: Side): seq<SideChange> {
    if |log| == 0 then []
    else
      var n := |log| - 1;
      At(log[..n], i, side) + if Mine(log[n], i, side) then [log[n]] else []
  }

  lemma {:induction false} AtCount(log: seq<SideChange>, i: int, side: Side, c: SideChange)
    ensures multiset(At(log, i, side))[c] == if Mine(c, i, side) then multiset(log)[c] else 0
  {
    if |log| > 0 {
      var n := |log| - 1;
      AtCount(log[..n], i, side, c);
      assert log == log[..n] + [log[n]];
    }
  }

  lemma {:induction false} AtConcat(x: seq<SideChange>, y: seq<SideChange>, i: int, side: Side)
    ensures At(x + y, i, side) == At(x, i, side) + At(y, i, side)
  {
    hide Mine;
    if |y| == 0 {
      assert x + y == x;
    } else {
      var n := |y| - 1;
      AtConcat(x, y[..n], i, side);
      assert (x + y)[..|x + y| - 1] == x + y[..n];
      assert (x + y)[|x + y| - 1] == y[n];
    }
  }

  lemma {:induction false} AtNone(log: seq<SideChange>, i: int, side: Side)
    requires forall c :: c in log ==> !Mine(c, i, side)
    ensures At(log, i, side) == []
  {
    if |log| > 0 { AtNone(log[..|log| - 1], i, side); }
  }

  /** When chunk n holds entries of slot n only, slot i's entries are in chunk i. */
  lemma {:induction false} AtFlatten(chunks: seq<seq<SideChange>>, i: nat, side: Side)
    requires forall n, c: SideChange :: 0 <= n < |chunks| && c in chunks[n] ==> c.slot == n
    ensures At(Flatten(chunks), i, side) == if i < |chunks| then At(chunks[i], i, side) else []
  {
    if |chunks| > 0 {
      var n := |chunks| - 1;
      var pre := chunks[..n];
      AtFlatten(pre, i, side);
      AtConcat(Flatten(pre), chunks[n], i, side);
      if i != n { AtNone(chunks[n], i, side); }
    }
  }

  // ---------- the entries of each pass ----------

  lemma BothClearedAt(key: string, s: Slot, i: int, cls: Class, reason: Reason, side: Side)
    ensures At(BothCleared(key, s, i, cls, reason), i, side) == Cleared(key, i, side, cls, s.Host(side), reason)
  {
    hide At;
    var x := Cleared(key, i, SideA, cls, s.a.host, reason);
    var y := Cleared(key, i, SideB, cls, s.b.host, reason);
    AtConcat(x, y, i, side);
    AtSingle(x, i, side);
    AtSingle(y, i, side);
  }

  lemma AtSingle(log: seq<SideChange>, i: int, side: Side)
    requires |log| <= 1
    ensures At(log, i, side) == if |log| == 1 && Mine(log[0], i, side) then log else []
  {
    if |log| == 1 {
      assert log[..0] == [];
      assert At(log[..0], i, side) == [];
      assert log == [log[0]];
    }
  }

  /** Resizing clears a held side exactly when the class of its slot changes. */
  lemma ResizeAt(k: string, x: seq<Slot>, l: Layout, i: nat, side: Side)
    requires (Shaped(x, l.total) || x == []) && i < l.total
    ensures At(ResizeLog(k, x, l), i, side)
         == if BaseAt(x, i).cls == l.ClassAt(i) then []
            else Cleared(k, i, side, l.ClassAt(i), BaseAt(x, i).Host(side), ClassChanged)
  {
    hide ComputeLayout, BothCleared, Cleared, Consistent;
    if x != [] { SplitShaped(x, l.total); }
    var base := NonSuper(x);
    assert DropChunks(k, base, l.total) == [];
    var chunks := ReclassChunks(k, base, l);
    assert Flatten(DropChunks(k, base, l.total)) + Flatten(chunks) == Flatten(chunks);
    forall n, c: SideChange | 0 <= n < |chunks| && c in chunks[n] ensures c.slot == n {
      ReclassSlot(k, BaseAt(base, n), n, l.ClassAt(n));
      assert chunks[n] == ReclassChunk(k, BaseAt(base, n), n, l.ClassAt(n));
    }
    AtFlatten(chunks, i, side);
    assert chunks[i] == ReclassChunk(k, BaseAt(base, i), i, l.ClassAt(i));
    assert BaseAt(base, i) == BaseAt(x, i);
    BothClearedAt(k, BaseAt(x, i), i, l.ClassAt(i), ClassChanged, side);
  }

  lemma ReclassSlot(k: string, s: Slot, n: int, cls: Class)
    ensures forall c :: c in ReclassChunk(k, s, n, cls) ==> c.slot == n
  {}

  lemma CheckEntryShape(e: Env, p: PairingV, s: Slot, side: Side)
    ensures |CheckEntry(e, p, s, side)| <= 1
    ensures forall c :: c in CheckEntry(e, p, s, side) ==> c.slot == s.index && c.side == side
  {
    hide Fault;
  }

  /** Validation clears a side exactly when its host is at fault. */
  lemma ValidateAt(e: Env, p: PairingV, i: nat, side: Side)
    requires i < |p.slots| && forall n :: 0 <= n < |p.slots| ==> p.slots[n].index == n
    ensures At(Flatten(ValidateChunks(e, p)), i, side) == CheckEntry(e, p, p.slots[i], side)
  {
    hide At, CheckEntry, Flatten;
    var chunks := ValidateChunks(e, p);
    forall n, c: SideChange | 0 <= n < |chunks| && c in chunks[n] ensures c.slot == n {
      CheckEntryShape(e, p, p.slots[n], SideA);
      CheckEntryShape(e, p, p.slots[n], SideB);
    }
    AtFlatten(chunks, i, side);
    var x, y := CheckEntry(e, p, p.slots[i], SideA), CheckEntry(e, p, p.slots[i], SideB);
    CheckEntryShape(e, p, p.slots[i], SideA);
    CheckEntryShape(e, p, p.slots[i], SideB);
    TwoSides(x, y, i, side);
  }

  /** An entry of side A, if any, then one of side B, if any. */
  lemma TwoSides(x: seq<SideChange>, y: seq<SideChange>, i: int, side: Side)
    requires |x| <= 1 && |y| <= 1
    requires forall c :: c in x ==> Mine(c, i, SideA)
    requires forall c :: c in y ==> Mine(c, i, SideB)
    ensures At(x + y, i, side) == if side == SideA then x else y
  {
    hide At;
    if |x| == 1 { assert x[0] in x; }
    if |y| == 1 { assert y[0] in y; }
    AtConcat(x, y, i, side);
    AtSingle(x, i, side);
    AtSingle(y, i, side);
  }

  /** The log explains how one side got from one seat to another while filling: by one
      entry when an empty side was given a host, by none when the seat is the same. */
  ghost predicate FillExplained(p: PairingV, s: Slot, t: Slot, log: seq<SideChange>, i: int, side: Side) {
    var mine := At(log, i, side);
    if t.Seat(side) == s.Seat(side) then mine == []
    else
      && s.Host(side) == "" && t.Host(side) != ""
      && |mine| == 1
      && mine[0] == SideChange(p.key, i, side, s.cls, "", t.Host(side), mine[0].reason, t.Seat(side).rank)
  }

  ghost predicate AllExplained(p: PairingV, x: seq<Slot>, f: Fill) {
    |x| == |f.slots| && forall i, side :: 0 <= i < |x| ==> FillExplained(p, x[i], f.slots[i], f.log, i, side)
  }

  lemma AnchorExplained(e: Env, p: PairingV, slots: seq<Slot>, side: Side)
    requires e.Valid() && SeatsOk(e, p, slots) && Consistent(p, slots)
    requires forall n :: 0 <= n < |slots| ==> slots[n].index == n
    ensures AllExplained(p, slots, AnchorFill(e, p, slots, side))
  {
    AnchorSeatMeaning(e, p, slots, side);
    CandOk(e, p, side);
    hide AnchorSeat, Consistent, SeatsOk, Cand, Env.Valid, FillExplained, AnchorExcl, AnchorHost, Flatten;
    var f := AnchorFill(e, p, slots, side);
    forall i, s | 0 <= i < |slots| ensures FillExplained(p, slots[i], f.slots[i], f.log, i, s) {
      match AnchorSeat(e, p, slots, side)
      case None => UnchangedExplained(p, slots[i], i, s);
      case Some(r) => AnchorSlotExplained(p, slots, side, r.0, r.1, i, s);
    }
  }

  lemma UnchangedExplained(p: PairingV, s: Slot, i: int, side: Side)
    ensures FillExplained(p, s, s, [], i, side)
  {}

  lemma AnchorSlotExplained(p: PairingV, slots: seq<Slot>, side: Side, seat: Seat, reason: Reason, i: nat, s: Side)
    requires i < |slots| && seat.host != "" && forall n :: 0 <= n < |slots| ==> slots[n].index == n
    ensures var t := if OpenAnchor(slots[i], side) then slots[i].SetSeat(side, seat) else slots[i];
            FillExplained(p, slots[i], t, Flatten(AnchorChunks(p, slots, side, seat, reason)), i, s)
  {
    hide At, Flatten;
    var chunks := AnchorChunks(p, slots, side, seat, reason);
    AtFlatten(chunks, i, s);
    AtSingle(chunks[i], i, s);
  }

  lemma DiverseStepExplained(e: Env, p: PairingV, x: seq<Slot>, f: Fill, j: nat)
    requires e.Valid() && j / 2 < |f.slots| && AllExplained(p, x, f) && Grown(e, p, x, f.slots)
    requires forall n :: 0 <= n < |x| ==> x[n].index == n
    ensures AllExplained(p, x, DiverseStep(e, p, f, j))
  {
    DiverseSeatMeaning(e, p, f.slots, f.slots[j / 2], SideOf(j));
    CandOk(e, p, SideA);
    CandOk(e, p, SideB);
    hide DiverseSeat, Cand, Env.Valid, FillExplained, Excl, Free, Rest;
    var g := DiverseStep(e, p, f, j);
    var r := DiverseSeat(e, p, f.slots, f.slots[j / 2], SideOf(j));
    if r.Some? {
      var entry := FillEntry(p, f.slots[j / 2], SideOf(j), r.value, NewSlot);
      forall i, side | 0 <= i < |x| ensures FillExplained(p, x[i], g.slots[i], g.log, i, side) {
        assert FillExplained(p, x[i], f.slots[i], f.log, i, side);
        assert SlotGrown(e, p, x[i], f.slots[i]) && SlotGrown(e, p, x[j / 2], f.slots[j / 2]);
        OneMoreExplained(p, x[i], f.slots[i], g.slots[i], f.log, entry, i, side);
      }
    }
  }

  /** One more entry, for this side or for another one. */
  lemma OneMoreExplained(p: PairingV, x: Slot, s: Slot, t: Slot, log: seq<SideChange>, entry: SideChange, i: int,
                         side: Side)
    requires FillExplained(p, x, s, log, i, side) && x.cls == s.cls
    requires !Mine(entry, i, side) ==> t.Seat(side) == s.Seat(side)
    requires Mine(entry, i, side) ==>
               && s.Host(side) == "" && t.Host(side) != ""
               && entry == SideChange(p.key, i, side, s.cls, "", t.Host(side), entry.reason, t.Seat(side).rank)
    ensures FillExplained(p, x, t, log + [entry], i, side)
  {
    hide At;
    AtConcat(log, [entry], i, side);
    AtSingle([entry], i, side);
  }

  lemma NothingExplained(p: PairingV, slots: seq<Slot>)
    ensures AllExplained(p, slots, Fill(slots, []))
  {
    hide FillExplained;
    forall i, side | 0 <= i < |slots| ensures FillExplained(p, slots[i], slots[i], [], i, side) {
      UnchangedExplained(p, slots[i], i, side);
    }
  }

  lemma {:induction false} DiverseExplained(e: Env, p: PairingV, slots: seq<Slot>, j: nat)
    requires e.Valid() && j <= 2 * |slots| && SeatsOk(e, p, slots) && Consistent(p, slots)
    requires forall n :: 0 <= n < |slots| ==> slots[n].index == n
    ensures AllExplained(p, slots, DiverseFill(e, p, slots, j))
  {
    hide SeatsOk, Consistent, Grown, DiverseStep, AllExplained, Env.Valid;
    if j > 0 {
      DiverseExplained(e, p, slots, j - 1);
      DiverseFillGrows(e, p, slots, j - 1);
      DiverseStepExplained(e, p, slots, DiverseFill(e, p, slots, j - 1), j - 1);
    } else {
      NothingExplained(p, slots);
    }
  }

  /** Two fills in a row explain the combined growth. */
  lemma ExplainedConcat(e: Env, p: PairingV, x: seq<Slot>, f: Fill, g: Fill)
    requires e.Valid() && Grown(e, p, x, f.slots) && Grown(e, p, f.slots, g.slots)
    requires AllExplained(p, x, f) && AllExplained(p, f.slots, g)
    ensures AllExplained(p, x, Fill(g.slots, f.log + g.log))
  {
    forall i, side | 0 <= i < |x| ensures FillExplained(p, x[i], g.slots[i], f.log + g.log, i, side) {
      assert FillExplained(p, x[i], f.slots[i], f.log, i, side);
      assert FillExplained(p, f.slots[i], g.slots[i], g.log, i, side);
      assert SlotGrown(e, p, x[i], f.slots[i]);
      AtConcat(f.log, g.log, i, side);
    }
  }

  lemma FillExplainsAll(e: Env, p: PairingV)
    requires e.Valid() && SeatsOk(e, p, p.slots) && Consistent(p, p.slots)
    requires forall n :: 0 <= n < |p.slots| ==> p.slots[n].index == n
    ensures AllExplained(p, p.slots, FillTable(e, p))
  {
    hide SeatsOk, Consistent, AllExplained, AnchorFill, DiverseFill, Env.Valid;
    AnchorFillGrows(e, p, p.slots, SideA);
    AnchorExplained(e, p, p.slots, SideA);
    var fa := AnchorFill(e, p, p.slots, SideA);
    GrownIndex(e, p, p.slots, fa.slots);
    AnchorFillGrows(e, p, fa.slots, SideB);
    AnchorExplained(e, p, fa.slots, SideB);
    var fb := AnchorFill(e, p, fa.slots, SideB);
    GrownIndex(e, p, fa.slots, fb.slots);
    DiverseFillGrows(e, p, fb.slots, 2 * |fb.slots|);
    DiverseExplained(e, p, fb.slots, 2 * |fb.slots|);
    var fd := DiverseFill(e, p, fb.slots, 2 * |fb.slots|);
    hide Grown;
    ExplainedConcat(e, p, p.slots, fa, fb);
    GrownTransitive(e, p, p.slots, fa.slots, fb.slots);
    ExplainedConcat(e, p, p.slots, Fill(fb.slots, fa.log + fb.log), fd);
  }

  lemma GrownIndex(e: Env, p: PairingV, x: seq<Slot>, y: seq<Slot>)
    requires Grown(e, p, x, y) && forall n :: 0 <= n < |x| ==> x[n].index == n
    ensures |y| == |x| && forall n :: 0 <= n < |y| ==> y[n].index == n
  {
    forall n | 0 <= n < |y| ensures y[n].index == n { assert SlotGrown(e, p, x[n], y[n]); }
  }

  // ---------- reading the delta back ----------

  predicate IsClear(c: SideChange) { c.new_ == "" }

  /** A bag of entries explains how the host of one side went from h0 to h1: every entry
      of the side clears the old host or fills in the new one, there is at most one of
      each, and the last of clear-then-fill is the new host. */
  ghost predicate Explains(bag: multiset<SideChange>, i: int, side: Side, h0: string, h1: string) {
    && (forall c :: c in bag && Mine(c, i, side) ==>
          bag[c] == 1 && (if IsClear(c) then c.old_ == h0 && h0 != "" else c.old_ == "" && c.new_ == h1 && h1 != ""))
    && (forall c, d :: c in bag && d in bag && Mine(c, i, side) && Mine(d, i, side) && IsClear(c) == IsClear(d) ==>
         c == d)
    && ((forall c :: c in bag && Mine(c, i, side) ==> IsClear(c)) ==>
          h1 == if (exists c :: c in bag && Mine(c, i, side)) then "" else h0)
  }

  /** All entries of one side, in the order the passes wrote them. */
  lemma EntriesExplain(log: seq<SideChange>, i: int, side: Side, clear: seq<SideChange>, fill: seq<SideChange>,
                       h0: string, h1: string)
    requires At(log, i, side) == clear + fill && |clear| <= 1 && |fill| <= 1
    requires |clear| == 1 ==> IsClear(clear[0]) && clear[0].old_ == h0 && h0 != ""
    requires |fill| == 1 ==> !IsClear(fill[0]) && fill[0].old_ == "" && fill[0].new_ == h1 && h1 != ""
    requires |fill| == 0 ==> h1 == if |clear| == 1 then "" else h0
    ensures Explains(multiset(log), i, side, h0, h1)
  {
    forall c ensures Mine(c, i, side) ==> multiset(log)[c] == multiset(clear)[c] + multiset(fill)[c] {
      AtCount(log, i, side, c);
      assert multiset(clear + fill) == multiset(clear) + multiset(fill);
    }
    forall c ensures multiset(clear)[c] + multiset(fill)[c] > 0 ==> Mine(c, i, side) {
      AtCount(log, i, side, c);
      assert multiset(clear + fill) == multiset(clear) + multiset(fill);
    }
    hide At;
    AtMostOne(clear);
    AtMostOne(fill);
    BagExplains(multiset(log), i, side, clear, fill, h0, h1);
  }

  lemma AtMostOne(s: seq<SideChange>)
    requires |s| <= 1
    ensures forall c :: multiset(s)[c] == if |s| == 1 && c == s[0] then 1 else 0
  {
    if |s| == 1 { assert s == [s[0]]; }
  }

  lemma BagExplains(bag: multiset<SideChange>, i: int, side: Side, clear: seq<SideChange>, fill: seq<SideChange>,
                    h0: string, h1: string)
    requires |clear| <= 1 && |fill| <= 1
    requires forall c :: Mine(c, i, side) ==>
               bag[c] == (if |clear| == 1 && c == clear[0] then 1 else 0)
                 + (if |fill| == 1 && c == fill[0] then 1 else 0)
    requires |clear| == 1 ==> Mine(clear[0], i, side) && IsClear(clear[0]) && clear[0].old_ == h0 && h0 != ""
    requires |fill| == 1 ==> Mine(fill[0], i, side) && !IsClear(fill[0]) && fill[0].old_ == ""
    requires |fill| == 1 ==> fill[0].new_ == h1 && h1 != ""
    requires |fill| == 0 ==> h1 == if |clear| == 1 then "" else h0
    ensures Explains(bag, i, side, h0, h1)
  {
    if |clear| == 1 { assert bag[clear[0]] > 0; }
    if |fill| == 1 { assert bag[fill[0]] > 0; }
  }

  /** What one run on one wanted pairing logs for one base side. */
  lemma SideExplained(e: Env, sh: map<string, seq<string>>, k: string, cur: Option<PairingV>, i: nat, side: Side)
    requires e.Valid() && k in e.want && StoredOk(e, k, cur) && i < e.Layout().total
    ensures var r := StepOne(e, sh, k, cur);
            && r.Some? && i < |r.value.slots|
            && Explains(StepLog(e, sh, k, cur), i, side, BaseAt(StoredSlots(cur), i).Host(side),
                 r.value.slots[i].Host(side))
            && (StepLog(e, sh, k, cur) == multiset{} ==>
                 r.value.slots[i].Seat(side) == BaseAt(StoredSlots(cur), i).Seat(side))
  {
    hide CheckSlot, CheckEntry, Reclass, Cleared, SlotGrown, StepLog, StepOne, DiffLog, ValidateLog, FillLog, Diffed,
         Validated, Supered, At, Flatten, Explains, SuperOneLog,
         Established, Settled, ComputeLayout;
    SlotJourney(e, sh, k, cur, i);
    var l := e.Layout();
    var x := BaseAt(StoredSlots(cur), i);
    var d, v, s := Diffed(e, k, cur), Validated(e, k, cur), Supered(e, sh, k, cur);
    var log1, log2, log3 := DiffLog(e, k, cur), ValidateLog(e, d), FillLog(e, s);
    LogParts(e, sh, k, cur);
    SuperLogAbove(e, sh, k, cur);
    ThreeParts(e, sh, k, cur, i, side);
    var a1, a2, a3 := At(log1, i, side), At(log2, i, side), At(log3, i, side);
    AtConcat(log1, log2, i, side);
    AtConcat(log1 + log2, log3, i, side);
    var r := StepOne(e, sh, k, cur).value;
    SeatStory(e, k, x, d.slots[i], v.slots[i], s.slots[i], r.slots[i], d, s, l.ClassAt(i), i, side, a1, a2, a3);
    EntriesExplain(log1 + log2 + log3, i, side, a1 + a2, a3, x.Host(side), r.slots[i].Host(side));
    if StepLog(e, sh, k, cur) == multiset{} { NothingLogged(log1 + log2 + log3, SuperOneLog(e, sh, v), i, side); }
    ExplainsMore(multiset(log1 + log2 + log3), SuperOneLog(e, sh, v), i, side, x.Host(side), r.slots[i].Host(side));
  }

  /** The log of a step is its three base passes in order and the super pass. */
  lemma LogParts(e: Env, sh: map<string, seq<string>>, k: string, cur: Option<PairingV>)
    requires k in e.want
    ensures StepLog(e, sh, k, cur)
         == multiset(DiffLog(e, k, cur) + ValidateLog(e, Diffed(e, k, cur)) + FillLog(e, Supered(e, sh, k, cur)))
            + SuperOneLog(e, sh, Validated(e, k, cur))
  {
    hide ComputeLayout, DiffLog, ValidateLog, FillLog, SuperOneLog, Resize, ValidateOne, SuperOne;
  }

  lemma NothingLogged(log: seq<SideChange>, more: multiset<SideChange>, i: int, side: Side)
    requires multiset(log) + more == multiset{}
    ensures At(log, i, side) == []
  {
    assert |multiset(log) + more| == |log| + |more|;
  }

  /** Entries of the super pass are about slots above the layout. */
  ghost predicate Above(log: multiset<SideChange>, t: nat) {
    forall c :: c in log ==> c.slot >= t
  }

  lemma {:induction false} FlattenAbove(chunks: seq<seq<SideChange>>, t: nat)
    requires forall n, c: SideChange :: 0 <= n < |chunks| && c in chunks[n] ==> c.slot >= t
    ensures Above(multiset(Flatten(chunks)), t)
  {
    if |chunks| > 0 { FlattenAbove(chunks[..|chunks| - 1], t); }
  }

  lemma {:induction false} RemovedAbove(key: string, ex: map<string, Slot>, ks: set<string>, t: nat)
    requires ks <= ex.Keys && forall k :: k in ex ==> ex[k].index >= t
    ensures Above(RemovedBag(key, ex, ks), t)
    decreases ks
  {
    if ks != {} {
      var k :| k in ks;
      RemovedBagAny(key, ex, ks, k);
      RemovedAbove(key, ex, ks - {k}, t);
    }
  }

  lemma SuperLogAbove(e: Env, sh: map<string, seq<string>>, k: string, cur: Option<PairingV>)
    requires e.Valid() && k in e.want && CurOk(e, k, cur)
    ensures Above(SuperOneLog(e, sh, Validated(e, k, cur)), e.Layout().total)
  {
    ValidatedReady(e, k, cur);
    hide Validated, SeatsOk, Consistent, Classed, ComputeLayout, SuperLog, DropSuperChunks, Flatten, Above;
    var v := Validated(e, k, cur);
    if e.cfg.superHosts <= 0 {
      DropAbove(v, e.Layout().total);
    } else {
      RebuildAbove(e, sh, v);
    }
  }

  lemma DropAbove(p: PairingV, t: nat)
    requires Shaped(p.slots, t)
    ensures Above(multiset(Flatten(DropSuperChunks(p))), t)
  {
    hide Flatten, Above;
    var chunks := DropSuperChunks(p);
    forall n, c: SideChange | 0 <= n < |chunks| && c in chunks[n] ensures c.slot >= t {
      assert p.slots[n].cls == Super;
    }
    FlattenAbove(chunks, t);
  }

  lemma RebuildAbove(e: Env, sh: map<string, seq<string>>, p: PairingV)
    requires Shaped(p.slots, e.Layout().total)
    ensures Above(SuperLog(e, sh, p), e.Layout().total)
  {
    hide Flatten, SuperPaths, ComputeLayout, SuperKey, RemovedBag, UsedKeys;
    var t := e.Layout().total;
    var chunks, ex := SuperChunks(e, sh, p), Existing(Tail(p.slots, t));
    forall n, c: SideChange | 0 <= n < |chunks| && c in chunks[n] ensures c.slot >= t {}
    FlattenAbove(chunks, t);
    forall k | k in ex ensures ex[k].index >= t {
      var i :| 0 <= i < |Tail(p.slots, t)| && Tail(p.slots, t)[i] == ex[k];
      assert ex[k] == p.slots[t + i];
    }
    hide SuperChunks, Existing;
    RemovedAbove(p.key, ex, ex.Keys - UsedKeys(SuperPaths(e, sh, p)), t);
  }

  /** Entries about other slots do not matter to the story of one side. */
  lemma ExplainsMore(bag: multiset<SideChange>, more: multiset<SideChange>, i: int, side: Side, h0: string, h1: string)
    requires Explains(bag, i, side, h0, h1) && forall c :: c in more ==> c.slot > i
    ensures Explains(bag + more, i, side, h0, h1)
  {
    forall c ensures Mine(c, i, side) ==> (bag + more)[c] == bag[c] && (c in bag + more <==> c in bag) {}
  }

  /** The entries of each pass for one side. */
  lemma ThreeParts(e: Env, sh: map<string, seq<string>>, k: string, cur: Option<PairingV>, i: nat, side: Side)
    requires e.Valid() && k in e.want && StoredOk(e, k, cur) && i < e.Layout().total
    ensures var l, x := e.Layout(), BaseAt(StoredSlots(cur), i);
            var d, s, r := Diffed(e, k, cur), Supered(e, sh, k, cur), StepOne(e, sh, k, cur);
            && At(DiffLog(e, k, cur), i, side)
                 == (if x.cls == l.ClassAt(i) then []
                     else Cleared(k, i, side, l.ClassAt(i), x.Host(side), ClassChanged))
            && i < |d.slots| && i < |s.slots| && r.Some? && i < |r.value.slots|
            && At(ValidateLog(e, d), i, side) == CheckEntry(e, d, d.slots[i], side)
            && FillExplained(s, s.slots[i], r.value.slots[i], FillLog(e, s), i, side)
            && d.key == k
  {
    hide Settled, ComputeLayout, Established, At;
    DiffPart(e, k, cur, i, side);
    SlotJourney(e, sh, k, cur, i);
    ValidatePart(e, k, cur, i, side);
    SuperedReady(e, sh, k, cur);
    FillPart(e, k, Supered(e, sh, k, cur), i, side);
    hide *;
    StepIsFill(e, sh, k, cur);
  }

  lemma StepIsFill(e: Env, sh: map<string, seq<string>>, k: string, cur: Option<PairingV>)
    requires k in e.want
    ensures StepOne(e, sh, k, cur) == Some(FillOne(e, Supered(e, sh, k, cur)))
  {
    hide FillOne, SuperOne, ValidateOne;
  }

  lemma DiffPart(e: Env, k: string, cur: Option<PairingV>, i: nat, side: Side)
    requires k in e.want && StoredOk(e, k, cur) && i < e.Layout().total
    ensures var l, x := e.Layout(), BaseAt(StoredSlots(cur), i);
            At(DiffLog(e, k, cur), i, side)
              == if x.cls == l.ClassAt(i) then [] else Cleared(k, i, side, l.ClassAt(i), x.Host(side), ClassChanged)
  {
    hide Consistent, ComputeLayout, ResizeLog, At, Cleared;
    ResizeAt(k, StoredSlots(cur), e.Layout(), i, side);
  }

  lemma ValidatePart(e: Env, k: string, cur: Option<PairingV>, i: nat, side: Side)
    requires e.Valid() && k in e.want && CurOk(e, k, cur) && i < |Diffed(e, k, cur).slots|
    ensures var d := Diffed(e, k, cur);
            At(ValidateLog(e, d), i, side) == CheckEntry(e, d, d.slots[i], side) && d.key == k
  {
    hide Consistent, ComputeLayout, Resize, At, CheckEntry;
    DiffedOk(e, k, cur);
    ValidateAt(e, Diffed(e, k, cur), i, side);
  }

  lemma FillPart(e: Env, k: string, s: PairingV, i: nat, side: Side)
    requires e.Valid() && Ready(e, k, s) && i < |s.slots|
    ensures i < |FillOne(e, s).slots| && FillExplained(s, s.slots[i], FillOne(e, s).slots[i], FillLog(e, s), i, side)
  {
    hide Consistent, SeatsOk, ComputeLayout, FillTable;
    FillExplainsAll(e, s);
  }

  /** From the stored seat to the new one: at most one clear, then at most one fill. */
  lemma SeatStory(e: Env, k: string, x: Slot, ds: Slot, vs: Slot, ss: Slot, rs: Slot, d: PairingV, s: PairingV,
                  cls: Class,
                  i: int, side: Side, a1: seq<SideChange>, a2: seq<SideChange>, a3: seq<SideChange>)
    requires ds == Reclass(x, i, cls) && vs == CheckSlot(e, d, ds) && ss == vs && d.key == k
    requires a1 == if x.cls == cls then [] else Cleared(k, i, side, cls, x.Host(side), ClassChanged)
    requires a2 == CheckEntry(e, d, ds, side)
    requires rs.Seat(side) == ss.Seat(side) ==> a3 == []
    requires rs.Seat(side) != ss.Seat(side) ==>
               && ss.Host(side) == "" && rs.Host(side) != "" && |a3| == 1
               && a3[0].old_ == "" && a3[0].new_ == rs.Host(side)
    ensures var h0, h1 := x.Host(side), rs.Host(side);
            var clear := a1 + a2;
            && |clear| <= 1 && |a3| <= 1
            && (|clear| == 1 ==> IsClear(clear[0]) && clear[0].old_ == h0 && h0 != "")
            && (|a3| == 1 ==> !IsClear(a3[0]) && a3[0].old_ == "" && a3[0].new_ == h1 && h1 != "")
            && (|a3| == 0 ==> h1 == if |clear| == 1 then "" else h0)
            && (clear + a3 == [] ==> rs.Seat(side) == x.Seat(side))
  {}

  // ---------- the whole delta ----------

  /** The entries of one side of one pairing explain its new host. */
  ghost predicate SideFaithful(old_: map<string, PairingV>, new_: map<string, PairingV>, d: DeltaV, k: string, i: nat,
                               side: Side) {
    && k in new_ && k in d.sides && i < |new_[k].slots|
    && Explains(d.sides[k], i, side, BaseAt(StoredSlots(Get(old_, k)), i).Host(side), new_[k].slots[i].Host(side))
  }

  /** The delta reads as the difference of two tables: the added and removed keys are the
      difference of the key sets, and the entries of every base side, read back as
      clear-then-fill over the old host, give the new host. */
  ghost predicate Describes(d: DeltaV, old_: map<string, PairingV>, new_: map<string, PairingV>, total: nat) {
    && d.added == new_.Keys - old_.Keys
    && d.removed == old_.Keys - new_.Keys
    && forall k, i: nat, side :: k in new_ && i < total ==> SideFaithful(old_, new_, d, k, i, side)
  }

  /** Delta faithfulness: the delta describes how the table of the run became the next one. */
  lemma DeltaFaithful(e: Env, cur: Option<StateV>)
    requires e.Valid() && (cur.Some? ==> StateOk(cur.value))
    ensures Describes(NextDelta(e, cur), Start(e, cur).pairings, Next(e, cur).pairings, e.Layout().total)
  {
    hide SideFaithful, ComputeLayout, StateOk, Env.Valid, Start, Next, NextDelta;
    DeltaKeys(e, cur);
    forall k, i: nat, side | k in Next(e, cur).pairings && i < e.Layout().total
      ensures SideFaithful(Start(e, cur).pairings, Next(e, cur).pairings, NextDelta(e, cur), k, i, side)
    {
      NextSideFaithful(e, cur, k, i, side);
    }
  }

  /** The table of the run is the stored one unless the rule or the slot configuration
      changed; then it is empty. The delta describes what became of the stored table if and
      only if that table was not discarded, or was empty. */
  lemma StoredDeltaExact(e: Env, st: StateV)
    requires e.Valid() && StateOk(st)
    ensures Describes(NextDelta(e, Some(st)), st.pairings, Next(e, Some(st)).pairings, e.Layout().total) <==>
              st.pairings == map[] || (st.zoneRule == e.zoneFp && st.slotsConfig == Some(Fingerprint(e.cfg)))
  {
    hide Describes, ComputeLayout, StateOk, Env.Valid, Start, Next, NextDelta, Fingerprint;
    DeltaFaithful(e, Some(st));
    StartTable(e, st);
    if Describes(NextDelta(e, Some(st)), st.pairings, Next(e, Some(st)).pairings, e.Layout().total) {
      SameBefore(NextDelta(e, Some(st)), Start(e, Some(st)).pairings, st.pairings, Next(e, Some(st)).pairings,
        e.Layout().total);
    }
  }

  lemma StartTable(e: Env, st: StateV)
    ensures Start(e, Some(st)).pairings
         == if st.zoneRule == e.zoneFp && st.slotsConfig == Some(Fingerprint(e.cfg)) then st.pairings else map[]
  {
    hide Fingerprint;
  }

  /** A delta that describes a change from nothing describes none from a table with keys. */
  lemma SameBefore(d: DeltaV, x: map<string, PairingV>, y: map<string, PairingV>, new_: map<string, PairingV>,
                   total: nat)
    requires Describes(d, x, new_, total) && Describes(d, y, new_, total)
    ensures x == map[] ==> y == map[]
  {
    hide SideFaithful;
    if x == map[] {
      assert new_.Keys - y.Keys == new_.Keys && y.Keys - new_.Keys == {};
      assert y.Keys == {};
    }
  }

  lemma DeltaKeys(e: Env, cur: Option<StateV>)
    requires e.Valid() && (cur.Some? ==> StateOk(cur.value))
    ensures var old_, new_, d := Start(e, cur).pairings, Next(e, cur).pairings, NextDelta(e, cur);
            d.added == new_.Keys - old_.Keys && d.removed == old_.Keys - new_.Keys
  {
    hide FillOne, SuperOne, ValidateOne, Resize, ComputeLayout, StepLog, NextSuperHosts, SuperZonesChanged, Start;
    var st := Start(e, cur);
    forall k
      ensures k in Next(e, cur).pairings <==>
                (k in st.pairings || k in e.want) && DiffOne(e, k, Get(st.pairings, k)).Some?
    {}
    forall k | k in e.want ensures DiffOne(e, k, Get(st.pairings, k)).Some? {}
  }

  lemma NextSideFaithful(e: Env, cur: Option<StateV>, k: string, i: nat, side: Side)
    requires e.Valid() && (cur.Some? ==> StateOk(cur.value))
    requires k in Next(e, cur).pairings && i < e.Layout().total
    ensures SideFaithful(Start(e, cur).pairings, Next(e, cur).pairings, NextDelta(e, cur), k, i, side)
  {
    hide Next, StepOne, StepLog, Explains, Start, NextSuperHosts, ComputeLayout, StateOk, Env.Valid, StoredOk,
         NextDelta;
    StartOk(e, cur);
    NextAt(e, cur, k);
    var st := Start(e, cur);
    var sh := NextSuperHosts(e, st.superHosts);
    assert StoredOk(e, k, Get(st.pairings, k));
    PairingExplained(e, sh, k, Get(st.pairings, k), i, side);
    NextLogAt(e, cur, k);
  }

  lemma NextLogAt(e: Env, cur: Option<StateV>, k: string)
    requires k in Start(e, cur).pairings || k in e.want
    ensures var st := Start(e, cur);
            k in NextDelta(e, cur).sides
            && NextDelta(e, cur).sides[k] == StepLog(e, NextSuperHosts(e, st.superHosts), k, Get(st.pairings, k))
  {
    hide StepLog, NextSuperHosts, Start, SuperZonesChanged, DiffOne;
  }

  lemma PairingExplained(e: Env, sh: map<string, seq<string>>, k: string, cur: Option<PairingV>, i: nat, side: Side)
    requires e.Valid() && StoredOk(e, k, cur) && i < e.Layout().total
    requires (k in e.want || cur.Some?) && StepOne(e, sh, k, cur).Some?
    ensures i < |StepOne(e, sh, k, cur).value.slots|
    ensures Explains(StepLog(e, sh, k, cur), i, side, BaseAt(StoredSlots(cur), i).Host(side),
              StepOne(e, sh, k, cur).value.slots[i].Host(side))
    ensures StepLog(e, sh, k, cur) == multiset{} ==>
              StepOne(e, sh, k, cur).value.slots[i].Seat(side) == BaseAt(StoredSlots(cur), i).Seat(side)
  {
    hide StepOne, StepLog, ComputeLayout, Consistent;
    if k in e.want {
      SideExplained(e, sh, k, cur, i, side);
    } else {
      StaleStep(e, sh, k, cur.value);
    }
  }

  /** An empty delta means that no pairing came or went and that every base side kept its
      host, its rank and its assignment time; only a removal deadline, or the class of an
      empty slot, may have changed. */
  lemma EmptyDeltaMeansSameSeats(e: Env, cur: Option<StateV>, k: string, i: nat, side: Side)
    requires e.Valid() && (cur.Some? ==> StateOk(cur.value))
    requires NothingChanged(NextDelta(e, cur)) && i < e.Layout().total
    ensures var old_, new_ := Start(e, cur).pairings, Next(e, cur).pairings;
            && (k in new_ <==> k in old_)
            && (k in new_ ==> i < |new_[k].slots|
                              && new_[k].slots[i].Seat(side) == BaseAt(StoredSlots(Get(old_, k)), i).Seat(side))
  {
    hide Next, NextDelta, Start, Explains, ComputeLayout, StateOk, Env.Valid, StepOne, StepLog, StoredOk,
         NextSuperHosts;
    DeltaKeys(e, cur);
    var old_, new_, d := Start(e, cur).pairings, Next(e, cur).pairings, NextDelta(e, cur);
    assert k !in d.added && k !in d.removed;
    if k in new_ {
      StartOk(e, cur);
      NextAt(e, cur, k);
      assert StoredOk(e, k, Get(old_, k));
      PairingExplained(e, NextSuperHosts(e, Start(e, cur).superHosts), k, Get(old_, k), i, side);
      NextLogAt(e, cur, k);
      assert d.sides[k] == multiset{};
    }
  }

  /** Against the stored table: an empty delta keeps every stored pairing, except that after
      a change of the rule or of the slot configuration it means that all are lost. */
  lemma EmptyDeltaStored(e: Env, st: StateV)
    requires e.Valid() && StateOk(st) && NothingChanged(NextDelta(e, Some(st)))
    ensures Next(e, Some(st)).pairings.Keys
         == if st.zoneRule == e.zoneFp && st.slotsConfig == Some(Fingerprint(e.cfg)) then st.pairings.Keys else {}
  {
    hide Next, NextDelta, Start, StateOk, Env.Valid, Fingerprint;
    DeltaKeys(e, Some(st));
    StartTable(e, st);
    var old_, new_ := Start(e, Some(st)).pairings, Next(e, Some(st)).pairings;
    assert new_.Keys == old_.Keys by { assert new_.Keys - old_.Keys == {} && old_.Keys - new_.Keys == {}; }
  }
}
