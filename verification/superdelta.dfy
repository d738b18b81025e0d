/** What a delta says about super slots, entry by entry
    (internal/reconcile/reconcile.go:274-321, 365-424). */
module SuperDelta {
  import opened Base
  import opened Slots
  import opened Tables
  import opened Filling
  import opened Invariants
  import opened SuperSlots
  import opened Runs
  import opened DeltaFaith
  import SideEntries

  // ---------- base slots take no part ----------

  ghost predicate Below(log: seq<SideChange>, t: nat) {
    forall c :: c in log ==> c.slot < t
  }

  lemma {:induction false} FlattenBelow(chunks: seq<seq<SideChange>>, t: nat)
    requires forall n, c: SideChange :: 0 <= n < |chunks| && c in chunks[n] ==> c.slot < t
    ensures Below(Flatten(chunks), t)
  {
    if |chunks| > 0 { FlattenBelow(chunks[..|chunks| - 1], t); }
  }

  lemma DiffBelow(e: Env, k: string, cur: Option<PairingV>)
    requires k in e.want && CurOk(e, k, cur)
    ensures Below(DiffLog(e, k, cur), e.Layout().total)
  {
    hide Consistent, ComputeLayout, Flatten, ReclassChunk, NonSuper, Supers;
    var l, x := e.Layout(), StoredSlots(cur);
    if x != [] { SplitShaped(x, l.total); }
    var base := NonSuper(x);
    assert x == [] ==> base == [] by { hide *; NoSlots(); }
    assert DropChunks(k, base, l.total) == [];
    assert Flatten([]) == [] by { NoEntries(); }
    var chunks := ReclassChunks(k, base, l);
    forall n, c: SideChange | 0 <= n < |chunks| && c in chunks[n] ensures c.slot < l.total {
      ReclassSlot(k, BaseAt(base, n), n, l.ClassAt(n));
    }
    FlattenBelow(chunks, l.total);
  }

  lemma NoSlots()
    ensures NonSuper([]) == []
  {}

  lemma NoEntries()
    ensures Flatten([]) == []
  {}

  lemma AnchorBelow(e: Env, p: PairingV, slots: seq<Slot>, side: Side, t: nat)
    requires Shaped(slots, t)
    ensures Below(AnchorFill(e, p, slots, side).log, t) && Shaped(AnchorFill(e, p, slots, side).slots, t)
  {
    hide AnchorSeat, Flatten;
    match AnchorSeat(e, p, slots, side)
    case None =>
    case Some(r) =>
      var chunks := AnchorChunks(p, slots, side, r.0, r.1);
      forall n, c: SideChange | 0 <= n < |chunks| && c in chunks[n] ensures c.slot < t {
        assert OpenAnchor(slots[n], side);
      }
      FlattenBelow(chunks, t);
  }

  lemma {:induction false} DiverseBelow(e: Env, p: PairingV, slots: seq<Slot>, j: nat, t: nat)
    requires j <= 2 * |slots| && Shaped(slots, t)
    ensures Below(DiverseFill(e, p, slots, j).log, t) && Shaped(DiverseFill(e, p, slots, j).slots, t)
  {
    hide DiverseStep, Below, Shaped;
    if j > 0 {
      DiverseBelow(e, p, slots, j - 1, t);
      DiverseStepBelow(e, p, DiverseFill(e, p, slots, j - 1), j - 1, t);
    } else {
      NoneBelow(t);
    }
  }

  lemma NoneBelow(t: nat)
    ensures Below([], t)
  {}

  lemma DiverseStepBelow(e: Env, p: PairingV, f: Fill, j: nat, t: nat)
    requires j / 2 < |f.slots| && Shaped(f.slots, t) && Below(f.log, t)
    ensures Below(DiverseStep(e, p, f, j).log, t) && Shaped(DiverseStep(e, p, f, j).slots, t)
  {
    var s := f.slots[j / 2];
    assert DiverseSeat(e, p, f.slots, s, SideOf(j)).Some? ==> s.cls == Diverse;
    hide DiverseSeat;
  }

  lemma FillBelow(e: Env, p: PairingV, t: nat)
    requires Shaped(p.slots, t)
    ensures Below(FillLog(e, p), t)
  {
    hide AnchorFill, DiverseFill, Shaped;
    if p.Active() {
      AnchorBelow(e, p, p.slots, SideA, t);
      var fa := AnchorFill(e, p, p.slots, SideA);
      AnchorBelow(e, p, fa.slots, SideB, t);
      var fb := AnchorFill(e, p, fa.slots, SideB);
      DiverseBelow(e, p, fb.slots, 2 * |fb.slots|, t);
    }
  }

  // ---------- counting entries ----------

  /** When chunk n holds entries of slot base + n only, an entry occurs as often as in its own
      chunk. */
  lemma {:induction false} FlattenCount(chunks: seq<seq<SideChange>>, base: int, c: SideChange)
    requires forall n, x: SideChange :: 0 <= n < |chunks| && x in chunks[n] ==> x.slot == base + n
    ensures multiset(Flatten(chunks))[c]
         == if 0 <= c.slot - base < |chunks| then multiset(chunks[c.slot - base])[c] else 0
  {
    if |chunks| > 0 {
      var n := |chunks| - 1;
      FlattenCount(chunks[..n], base, c);
      assert multiset(Flatten(chunks))[c] == multiset(Flatten(chunks[..n]))[c] + multiset(chunks[n])[c];
      if c.slot - base != n { assert c !in chunks[n]; }
    }
  }

  /** Each table entry has its own slot index. */
  ghost predicate OwnIndex(ex: map<string, Slot>) {
    forall x, y :: x in ex && y in ex && ex[x].index == ex[y].index ==> x == y
  }

  lemma {:induction false} RemovedNone(key: string, ex: map<string, Slot>, ks: set<string>, c: SideChange)
    requires ks <= ex.Keys && forall k :: k in ks ==> ex[k].index != c.slot
    ensures RemovedBag(key, ex, ks)[c] == 0
    decreases ks
  {
    if ks != {} {
      var k :| k in ks;
      RemovedBagAny(key, ex, ks, k);
      RemovedNone(key, ex, ks - {k}, c);
    }
  }

  lemma RemovedOne(key: string, ex: map<string, Slot>, ks: set<string>, k: string, c: SideChange)
    requires ks <= ex.Keys && k in ks && OwnIndex(ex) && ex[k].index == c.slot
    ensures RemovedBag(key, ex, ks)[c] == multiset(SuperRemoved(key, ex[k]))[c]
  {
    hide SuperRemoved, RemovedBag;
    RemovedBagAny(key, ex, ks, k);
    RemovedNone(key, ex, ks - {k}, c);
  }

  // ---------- the lookup table ----------

  function KeyOf(s: Slot): string { SuperKey(s.a.host, s.target) }

  /** A later super slot has the lookup key of slot i. */
  ghost predicate Hidden(tail: seq<Slot>, i: nat)
    requires i < |tail|
  {
    exists j :: i < j < |tail| && KeyOf(tail[j]) == KeyOf(tail[i])
  }

  /** A slot that no later one hides is found under its lookup key. */
  lemma {:induction false} LastFound(tail: seq<Slot>, i: nat)
    requires i < |tail| && !Hidden(tail, i) && forall j :: 0 <= j < |tail| ==> tail[j].cls == Super
    ensures KeyOf(tail[i]) in Existing(tail) && Existing(tail)[KeyOf(tail[i])] == tail[i]
  {
    hide KeyOf, Existing;
    var n := |tail| - 1;
    ExistingStep(tail);
    if i < n {
      assert KeyOf(tail[n]) != KeyOf(tail[i]);
      assert !Hidden(tail[..n], i);
      LastFound(tail[..n], i);
    }
  }

  /** What a lookup key finds is the last super slot that has it. */
  lemma {:induction false} FoundLast(tail: seq<Slot>, k: string) returns (i: nat)
    requires k in Existing(tail) && forall j :: 0 <= j < |tail| ==> tail[j].cls == Super
    ensures i < |tail| && Existing(tail)[k] == tail[i] && KeyOf(tail[i]) == k && !Hidden(tail, i)
  {
    hide KeyOf, Existing;
    assert |tail| > 0 by { NothingFound(); }
    var n := |tail| - 1;
    ExistingStep(tail);
    if KeyOf(tail[n]) == k {
      i := n;
    } else {
      i := FoundLast(tail[..n], k);
      assert forall j :: i < j < n ==> tail[..n][j] == tail[j];
      assert !Hidden(tail, i);
    }
  }

  lemma NothingFound()
    ensures Existing([]) == map[]
  {}

  lemma ExistingStep(tail: seq<Slot>)
    requires |tail| > 0 && tail[|tail| - 1].cls == Super
    ensures var n := |tail| - 1;
            Existing(tail) == Existing(tail[..n])[KeyOf(tail[n]) := tail[n]]
  {}

  // ---------- the entries of one super slot index ----------

  /** The stored super slot at this index is reported as dropped: no wanted path has its
      lookup key, and no later stored slot hides it. */
  ghost predicate Dropped(v: PairingV, t: nat, ws: seq<Path>, i: nat) {
    && t <= i < |v.slots| && KeyOf(v.slots[i]) !in UsedKeys(ws) && !Hidden(v.slots[t..], i - t)
  }

  function DropEntries(key: string, v: PairingV, i: nat): seq<SideChange>
    requires i < |v.slots|
  {
    var s := v.slots[i];
    [SideChange(key, s.index, SideA, Super, s.a.host, "", SuperChanged, Unfilled),
     SideChange(key, s.index, SideB, Super, s.b.host, "", SuperChanged, Unfilled)]
  }

  /** The two entries of a new path at this index, none when a stored slot has its key. */
  function NewEntries(key: string, v: PairingV, t: nat, ws: seq<Path>, i: int): seq<SideChange> {
    if t <= i < t + |ws| && SuperKey(ws[i - t].src, ws[i - t].dst) !in Existing(Tail(v.slots, t)) then
      [SideChange(key, i, SideA, Super, "", ws[i - t].src, NewSlot, Unique),
       SideChange(key, i, SideB, Super, "", ws[i - t].dst, NewSlot, Unique)]
    else []
  }

  /** The entries of the faults validation finds on the slot at this index. */
  function FaultEntries(e: Env, d: PairingV, i: int): seq<SideChange> {
    if 0 <= i < |d.slots| then
      var s := d.slots[i];
      SideEntries.ClearingOf(e, d.key, s, s.index, s.cls, SideA, d.zoneA)
      + SideEntries.ClearingOf(e, d.key, s, s.index, s.cls, SideB, d.zoneB)
    else []
  }

  /** The delta of super slots, entry by entry: at each index above the layout it holds the
      faults of the stored slot there, the two entries of a path that is new there, and the two
      entries of a stored slot that is dropped from there, and nothing else. */
  lemma SuperEntriesExact(e: Env, sh: map<string, seq<string>>, k: string, cur: Option<PairingV>, c: SideChange)
    requires e.Valid() && e.cfg.superHosts > 0 && k in e.want && CurOk(e, k, cur) && c.slot >= e.Layout().total
    ensures var t, d, v := e.Layout().total, Diffed(e, k, cur), Validated(e, k, cur);
            var ws := SuperPaths(e, sh, v);
            StepLog(e, sh, k, cur)[c]
              == multiset(FaultEntries(e, d, c.slot))[c] + multiset(NewEntries(k, v, t, ws, c.slot))[c]
                 + if Dropped(v, t, ws, c.slot) then multiset(DropEntries(k, v, c.slot))[c] else 0
  {
    hide *;
    var t, d, v, s := e.Layout().total, Diffed(e, k, cur), Validated(e, k, cur), Supered(e, sh, k, cur);
    LogParts(e, sh, k, cur);
    DiffBelow(e, k, cur);
    SuperedShape(e, sh, k, cur);
    FillBelow(e, s, t);
    FaultCount(e, d, t, c);
    SuperLogCount(e, sh, v, c);
    CountParts(e, sh, k, cur, c);
  }

  lemma CountParts(e: Env, sh: map<string, seq<string>>, k: string, cur: Option<PairingV>, c: SideChange)
    requires k in e.want && c.slot >= e.Layout().total && e.cfg.superHosts > 0
    requires Validated(e, k, cur).Active() && Diffed(e, k, cur).Active()
    requires Below(DiffLog(e, k, cur), e.Layout().total) && Below(FillLog(e, Supered(e, sh, k, cur)), e.Layout().total)
    ensures (multiset(DiffLog(e, k, cur) + ValidateLog(e, Diffed(e, k, cur)) + FillLog(e, Supered(e, sh, k, cur)))
              + SuperOneLog(e, sh, Validated(e, k, cur)))[c]
         == multiset(Flatten(ValidateChunks(e, Diffed(e, k, cur))))[c] + SuperLog(e, sh, Validated(e, k, cur))[c]
  {
    hide DiffLog, FillLog, Diffed, Validated, Supered, Flatten, ValidateChunks, SuperLog, ComputeLayout;
    var x, y, z := DiffLog(e, k, cur), ValidateLog(e, Diffed(e, k, cur)), FillLog(e, Supered(e, sh, k, cur));
    assert multiset(x + y + z) == multiset(x) + multiset(y) + multiset(z);
    assert c !in x && c !in z;
  }

  /** The shapes the passes work on. */
  lemma SuperedShape(e: Env, sh: map<string, seq<string>>, k: string, cur: Option<PairingV>)
    requires e.Valid() && k in e.want && CurOk(e, k, cur)
    ensures var t, d, v := e.Layout().total, Diffed(e, k, cur), Validated(e, k, cur);
            && Shaped(d.slots, t) && Shaped(v.slots, t) && Shaped(Supered(e, sh, k, cur).slots, t)
            && d.Active() && v.Active() && d.key == k && v.key == k
  {
    DiffedOk(e, k, cur);
    ValidatedReady(e, k, cur);
    SuperedReady(e, sh, k, cur);
    hide Diffed, Validated, Supered, Shaped, Consistent, SeatsOk, Classed, ComputeLayout, SuperTail;
  }

  lemma FaultCount(e: Env, d: PairingV, t: nat, c: SideChange)
    requires Shaped(d.slots, t)
    ensures multiset(Flatten(ValidateChunks(e, d)))[c] == multiset(FaultEntries(e, d, c.slot))[c]
  {
    hide CheckEntry, Flatten;
    var chunks := ValidateChunks(e, d);
    forall n, x: SideChange | 0 <= n < |chunks| && x in chunks[n] ensures x.slot == n {
      CheckEntryShape(e, d, d.slots[n], SideA);
      CheckEntryShape(e, d, d.slots[n], SideB);
    }
    FlattenCount(chunks, 0, c);
    if 0 <= c.slot < |d.slots| { FaultsAre(e, d, d.slots[c.slot]); }
    hide SideEntries.ClearingOf;
  }

  lemma FaultsAre(e: Env, d: PairingV, s: Slot)
    ensures CheckEntry(e, d, s, SideA) == SideEntries.ClearingOf(e, d.key, s, s.index, s.cls, SideA, d.zoneA)
    ensures CheckEntry(e, d, s, SideB) == SideEntries.ClearingOf(e, d.key, s, s.index, s.cls, SideB, d.zoneB)
  {}

  lemma SuperLogCount(e: Env, sh: map<string, seq<string>>, v: PairingV, c: SideChange)
    requires Shaped(v.slots, e.Layout().total) && c.slot >= e.Layout().total
    ensures var t, ws := e.Layout().total, SuperPaths(e, sh, v);
            SuperLog(e, sh, v)[c]
              == multiset(NewEntries(v.key, v, t, ws, c.slot))[c]
                 + if Dropped(v, t, ws, c.slot) then multiset(DropEntries(v.key, v, c.slot))[c] else 0
  {
    hide *;
    var t, ws := e.Layout().total, SuperPaths(e, sh, v);
    var ex, chunks := Existing(Tail(v.slots, t)), SuperChunks(e, sh, v);
    SuperLogIs(e, sh, v);
    NewCount(v.key, ex, ws, chunks, t, c);
    DropCount(v, t, ws, c);
    NewEntriesIs(v.key, v, t, ws, c.slot);
  }

  lemma SuperLogIs(e: Env, sh: map<string, seq<string>>, v: PairingV)
    ensures var t, ws, chunks := e.Layout().total, SuperPaths(e, sh, v), SuperChunks(e, sh, v);
            var ex := Existing(Tail(v.slots, t));
            && SuperLog(e, sh, v) == multiset(Flatten(chunks)) + RemovedBag(v.key, ex, ex.Keys - UsedKeys(ws))
            && |chunks| == |ws| && forall j :: 0 <= j < |ws| ==> chunks[j] == SuperChunk(v.key, ex, ws[j], t + j)
  {
    hide ComputeLayout, SuperPaths, Existing, Flatten, SuperKey, RemovedBag, SuperChunk, UsedKeys;
  }

  lemma NewEntriesIs(key: string, v: PairingV, t: nat, ws: seq<Path>, i: int)
    ensures NewEntries(key, v, t, ws, i)
         == if t <= i < t + |ws| then SuperChunk(key, Existing(Tail(v.slots, t)), ws[i - t], i) else []
  {
    hide Existing;
  }

  lemma NewCount(key: string, ex: map<string, Slot>, ws: seq<Path>, chunks: seq<seq<SideChange>>, t: nat, c: SideChange)
    requires |chunks| == |ws| && forall j :: 0 <= j < |ws| ==> chunks[j] == SuperChunk(key, ex, ws[j], t + j)
    ensures multiset(Flatten(chunks))[c]
         == multiset(if t <= c.slot < t + |ws| then SuperChunk(key, ex, ws[c.slot - t], c.slot) else [])[c]
  {
    hide Flatten, SuperKey;
    forall n, x: SideChange | 0 <= n < |chunks| && x in chunks[n] ensures x.slot == t + n {}
    FlattenCount(chunks, t, c);
  }

  lemma DropCount(v: PairingV, t: nat, ws: seq<Path>, c: SideChange)
    requires Shaped(v.slots, t) && c.slot >= t
    ensures var ex := Existing(Tail(v.slots, t));
            RemovedBag(v.key, ex, ex.Keys - UsedKeys(ws))[c]
              == if Dropped(v, t, ws, c.slot) then multiset(DropEntries(v.key, v, c.slot))[c] else 0
  {
    hide Existing, RemovedBag, KeyOf, SuperRemoved, UsedKeys, Hidden, Tail, Dropped;
    var tail := v.slots[t..];
    TailIs(v.slots, t);
    var ex := Existing(tail);
    FoundIndex(v, t);
    if Dropped(v, t, ws, c.slot) {
      DroppedFound(v, t, ws, c.slot);
      DropEntriesIs(v.key, v, c.slot);
      RemovedOne(v.key, ex, ex.Keys - UsedKeys(ws), KeyOf(v.slots[c.slot]), c);
    } else {
      forall k | k in ex.Keys - UsedKeys(ws) ensures ex[k].index != c.slot { FoundDropped(v, t, ws, k); }
      RemovedNone(v.key, ex, ex.Keys - UsedKeys(ws), c);
    }
  }

  lemma DropEntriesIs(key: string, v: PairingV, i: nat)
    requires i < |v.slots|
    ensures DropEntries(key, v, i) == SuperRemoved(key, v.slots[i])
  {}

  lemma TailIs(slots: seq<Slot>, t: nat)
    requires |slots| >= t
    ensures Tail(slots, t) == slots[t..]
  {}

  /** Different lookup keys find slots of different indices. */
  lemma FoundIndex(v: PairingV, t: nat)
    requires Shaped(v.slots, t)
    ensures OwnIndex(Existing(v.slots[t..]))
  {
    hide Existing, KeyOf, Hidden;
    var tail := v.slots[t..];
    var ex := Existing(tail);
    forall x, y | x in ex && y in ex && ex[x].index == ex[y].index ensures x == y {
      var i := FoundLast(tail, x);
      var j := FoundLast(tail, y);
      assert tail[i] == v.slots[t + i] && tail[j] == v.slots[t + j];
    }
  }

  lemma DroppedFound(v: PairingV, t: nat, ws: seq<Path>, i: nat)
    requires Shaped(v.slots, t) && Dropped(v, t, ws, i)
    ensures var ex, k := Existing(v.slots[t..]), KeyOf(v.slots[i]);
            k in ex && k !in UsedKeys(ws) && ex[k] == v.slots[i] && ex[k].index == i
  {
    hide Existing, KeyOf, Hidden, UsedKeys;
    assert v.slots[t..][i - t] == v.slots[i];
    LastFound(v.slots[t..], i - t);
  }

  lemma FoundDropped(v: PairingV, t: nat, ws: seq<Path>, k: string)
    requires Shaped(v.slots, t) && k in Existing(v.slots[t..]) && k !in UsedKeys(ws)
    ensures Existing(v.slots[t..])[k].index >= t && Dropped(v, t, ws, Existing(v.slots[t..])[k].index)
  {
    hide Existing, KeyOf, Hidden, UsedKeys;
    var i := FoundLast(v.slots[t..], k);
    assert v.slots[t..][i] == v.slots[t + i];
  }

  // ---------- reading the entries back ----------

  /** Every super slot of the new table is a new one whose two entries the delta holds, or the
      stored slot that its lookup key finds, moved to its index, without entries. */
  lemma NewSlotStory(e: Env, sh: map<string, seq<string>>, k: string, cur: Option<PairingV>, j: nat)
    requires e.Valid() && e.cfg.superHosts > 0 && k in e.want && CurOk(e, k, cur)
    requires j < |SuperPaths(e, sh, Validated(e, k, cur))|
    ensures var t, v, r := e.Layout().total, Validated(e, k, cur), StepOne(e, sh, k, cur);
            var ws := SuperPaths(e, sh, v);
            && r.Some? && t + j < |r.value.slots|
            && var y := r.value.slots[t + j];
               if NewEntries(k, v, t, ws, t + j) != [] then
                 y == Slot(t + j, Super, Seat(ws[j].src, Unique, Some(e.now)), Seat(ws[j].dst, Unique, Some(e.now)),
                           ws[j].dst)
               else exists i: nat :: StoredAs(v, t, i, y) && KeyOf(v.slots[i]) == SuperKey(ws[j].src, ws[j].dst)
  {
    hide *;
    var t, v, s := e.Layout().total, Validated(e, k, cur), Supered(e, sh, k, cur);
    var ws := SuperPaths(e, sh, v);
    SuperedShape(e, sh, k, cur);
    SuperedTable(e, sh, k, cur);
    SuperTableAt(e, sh, v, j);
    StepEstablishes(e, sh, k, cur);
    FoundExact(e, v, t, ws[j], t + j);
    FilledSuper(e, s, StepOne(e, sh, k, cur).value.slots, t, t + j);
    NewEntriesIs(k, v, t, ws, t + j);
    NewSuperIs(e, ws[j], t + j);
    ChunkEmpty(k, Existing(Tail(v.slots, t)), ws[j], t + j);
  }

  lemma NewSuperIs(e: Env, w: Path, i: int)
    ensures NewSuper(e, w, i) == Slot(i, Super, Seat(w.src, Unique, Some(e.now)), Seat(w.dst, Unique, Some(e.now)),
              w.dst)
  {}

  /** A visible stored super slot, moved. */
  ghost predicate StoredAs(v: PairingV, t: nat, i: nat, y: Slot) {
    t <= i < |v.slots| && !Hidden(v.slots[t..], i - t) && y == v.slots[i].(index := y.index)
  }

  lemma FilledSuper(e: Env, p: PairingV, y: seq<Slot>, t: nat, i: nat)
    requires Grown(e, p, p.slots, y) && Shaped(p.slots, t) && t <= i < |p.slots|
    ensures i < |y| && y[i] == p.slots[i]
  {
    assert SlotGrown(e, p, p.slots[i], y[i]);
  }

  lemma ChunkEmpty(k: string, ex: map<string, Slot>, w: Path, index: int)
    ensures SuperChunk(k, ex, w, index) == [] <==> SuperKey(w.src, w.dst) in ex
  {}

  lemma FoundExact(e: Env, v: PairingV, t: nat, w: Path, index: int)
    requires Shaped(v.slots, t)
    ensures var ex, key := Existing(Tail(v.slots, t)), SuperKey(w.src, w.dst);
            var y := SuperSlot(e, ex, w, index);
            if key in ex then exists i: nat :: StoredAs(v, t, i, y) && KeyOf(v.slots[i]) == key
            else y == NewSuper(e, w, index)
  {
    hide Existing, KeyOf, Hidden, SuperKey;
    var tail, key := v.slots[t..], SuperKey(w.src, w.dst);
    assert Tail(v.slots, t) == tail;
    if key in Existing(tail) {
      var i := FoundLast(tail, key);
      assert tail[i] == v.slots[t + i];
      assert StoredAs(v, t, t + i, SuperSlot(e, Existing(tail), w, index));
    }
  }

  /** Every stored super slot, as validation leaves it, is hidden by a later one, or reported
      as dropped, or the slot that a wanted path keeps. */
  lemma StoredSlotStory(e: Env, sh: map<string, seq<string>>, k: string, cur: Option<PairingV>, i: nat)
    requires e.Valid() && e.cfg.superHosts > 0 && k in e.want && CurOk(e, k, cur)
    requires e.Layout().total <= i < |Validated(e, k, cur).slots|
    ensures var t, v := e.Layout().total, Validated(e, k, cur);
            var ws := SuperPaths(e, sh, v);
            || Hidden(v.slots[t..], i - t)
            || Dropped(v, t, ws, i)
            || exists j: nat :: j < |ws| && SuperSlot(e, Existing(Tail(v.slots, t)), ws[j], t + j) ==
                 v.slots[i].(index := t + j)
  {
    hide Existing, Hidden, SuperPaths, SuperKey, ComputeLayout, CurOk, Validated, Env.Valid;
    SuperedShape(e, sh, k, cur);
    var t, v := e.Layout().total, Validated(e, k, cur);
    var ws, tail, key := SuperPaths(e, sh, v), v.slots[t..], KeyOf(v.slots[i]);
    assert Tail(v.slots, t) == tail && tail[i - t] == v.slots[i];
    if !Hidden(tail, i - t) && key in UsedKeys(ws) {
      LastFound(tail, i - t);
      var w :| w in ws && SuperKey(w.src, w.dst) == key;
      var j: nat :| j < |ws| && ws[j] == w;
    }
  }

  /** Slots can be lost without an entry that says so: of two stored slots with one target
      whose sources are no longer valid the earlier one is hidden by the later. */
  lemma TwinHidden(e: Env, k: string, cur: Option<PairingV>, i: nat, j: nat)
    requires e.Valid() && k in e.want && CurOk(e, k, cur) && e.Layout().total <= i < j < |Diffed(e, k, cur).slots|
    requires var d := Diffed(e, k, cur);
             && d.slots[i].target == d.slots[j].target
             && Fault(e, d.slots[i].a.host, d.zoneA).Some? && Fault(e, d.slots[j].a.host, d.zoneA).Some?
    ensures var t, v := e.Layout().total, Validated(e, k, cur);
            j < |v.slots| && Hidden(v.slots[t..], i - t)
  {
    hide ComputeLayout, Diffed, Fault, CurOk, Env.Valid;
    SuperedShape(e, map[], k, cur);
    var t, d, v := e.Layout().total, Diffed(e, k, cur), Validated(e, k, cur);
    assert v.slots[i] == CheckSlot(e, d, d.slots[i]) && v.slots[j] == CheckSlot(e, d, d.slots[j]);
    assert v.slots[t..][i - t] == v.slots[i] && v.slots[t..][j - t] == v.slots[j];
  }
}
