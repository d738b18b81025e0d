/** The slot table and the assignment state as values, and the pure meaning of every
    reconcile pass on one pairing (internal/state/state.go, internal/reconcile/reconcile.go).
    The methods of module `Reconciler` are proved against these functions. */
module Tables {
  import opened Base
  import opened Slots

  // ---------- state ----------

  /** One endpoint of a slot. An empty side holds the host name "". */
  datatype Seat = Seat(host: string, rank: Rank, at: Option<Time>)

  const EMPTY: Seat := Seat("", Unfilled, None)

  datatype Slot = Slot(index: int, cls: Class, a: Seat, b: Seat, target: string) {
    function Seat(side: Side): Seat { if side == SideB then b else a }
    function Host(side: Side): string { Seat(side).host }
    function SetSeat(side: Side, seat: Seat): Slot {
      if side == SideB then this.(b := seat) else this.(a := seat)
    }
    predicate Filled() { a.host != "" && b.host != "" }
  }

  datatype PairingV = PairingV(key: string, zoneA: string, zoneB: string, intra: bool,
                               slots: seq<Slot>, removeAt: Option<Time>) {
    function Zone(side: Side): string { if side == SideB then zoneB else zoneA }
    predicate Active() { removeAt.None? }
  }

  /** The printed slot configuration. The ratio is printed with four digits. */
  datatype SlotsPrint = SlotsPrint(count: int, ratio4: int, rounding: Rounding, superHosts: int,
                                   superMax: int, reuse: bool)

  function Fingerprint(c: SlotsConfig): SlotsPrint {
    SlotsPrint(c.count, (c.anchorRatio * 10000.0 + 0.5).Floor, c.rounding, c.superHosts,
               c.superMaxTargets, c.allowReuse)
  }

  datatype StateV = StateV(zoneRule: string, slotsConfig: Option<SlotsPrint>,
                           pairings: map<string, PairingV>, superHosts: map<string, seq<string>>)

  function EmptyState(zoneRule: string, slotsConfig: Option<SlotsPrint>): StateV {
    StateV(zoneRule, slotsConfig, map[], map[])
  }

  // ---------- change log ----------

  datatype Reason = NewSlot | HostGone | HostUnhealthy | ZoneChanged | ClassChanged | AnchorReset | SuperChanged

  datatype SideChange = SideChange(pairing: string, slot: int, side: Side, cls: Class,
                                   old_: string, new_: string, reason: Reason, rank: Rank)

  function Flatten(chunks: seq<seq<SideChange>>): seq<SideChange> {
    if |chunks| == 0 then [] else Flatten(chunks[..|chunks| - 1]) + chunks[|chunks| - 1]
  }

  // ---------- what one run reads ----------

  datatype Wanted = Wanted(zoneA: string, zoneB: string, intra: bool)

  /** The inputs of one reconcile, with the zone index and the wanted pairings resolved. */
  datatype Env = Env(
    hosts: set<string>, members: map<string, seq<string>>, hostZone: map<string, string>,
    eligible: set<string>, matched: set<string>, want: map<string, Wanted>,
    cfg: SlotsConfig, zoneFp: string, hold: Time, now: Time, hash: string -> nat)
  {
    function Members(z: string): seq<string> { if z in members then members[z] else [] }
    function Layout(): Layout { ComputeLayout(cfg) }
    predicate OkHost(h: string, z: string) {
      h in hosts && h in eligible && h in hostZone && hostZone[h] == z
    }
    /** A zone index built from a snapshot in which every host has a name. */
    ghost predicate Valid() {
      && "" !in hosts
      && hostZone.Keys <= hosts
      && (forall z, h :: h in Members(z) <==> h in hostZone && hostZone[h] == z)
      && (forall z :: Distinct(Members(z)))
      && (forall k :: k in want ==> (want[k].intra <==> want[k].zoneA == want[k].zoneB))
    }
  }

  function Cand(e: Env, p: PairingV, side: Side): (r: seq<string>)
    ensures forall h :: h in r <==> h in e.Members(p.Zone(side)) && h in e.eligible
  {
    EligibleOf(e.Members(p.Zone(side)), e.eligible)
  }

  lemma CandOk(e: Env, p: PairingV, side: Side)
    requires e.Valid()
    ensures "" !in Cand(e, p, side)
    ensures forall h :: h in Cand(e, p, side) <==> e.OkHost(h, p.Zone(side))
  {}

  // ---------- resize ----------

  function NonSuper(slots: seq<Slot>): seq<Slot> {
    if |slots| == 0 then []
    else
      var n := |slots| - 1;
      NonSuper(slots[..n]) + if slots[n].cls == Super then [] else [slots[n]]
  }

  function Supers(slots: seq<Slot>): seq<Slot> {
    if |slots| == 0 then []
    else
      var n := |slots| - 1;
      Supers(slots[..n]) + if slots[n].cls == Super then [slots[n]] else []
  }

  function Vacate(seat: Seat): Seat {
    if seat.host == "" then seat else seat.(host := "", rank := Unfilled)
  }

  function Reclass(s: Slot, i: int, cls: Class): Slot {
    if s.cls == cls then s.(index := i)
    else s.(index := i, cls := cls, a := Vacate(s.a), b := Vacate(s.b))
  }

  function BaseAt(base: seq<Slot>, i: nat): Slot {
    if i < |base| then base[i] else Slot(i, Unset, EMPTY, EMPTY, "")
  }

  function Resize(slots: seq<Slot>, l: Layout): seq<Slot> {
    seq(l.total, i requires 0 <= i => Reclass(BaseAt(NonSuper(slots), i), i, l.ClassAt(i))) + Supers(slots)
  }

  function Cleared(key: string, index: int, side: Side, cls: Class, host: string, reason: Reason): seq<SideChange> {
    if host == "" then [] else [SideChange(key, index, side, cls, host, "", reason, Unfilled)]
  }

  function BothCleared(key: string, s: Slot, index: int, cls: Class, reason: Reason): seq<SideChange> {
    Cleared(key, index, SideA, cls, s.a.host, reason) + Cleared(key, index, SideB, cls, s.b.host, reason)
  }

  /** The entries for base slots beyond the layout, then for each slot whose class changed. */
  function DropChunks(key: string, base: seq<Slot>, total: nat): seq<seq<SideChange>> {
    seq(if |base| > total then |base| - total else 0,
        i requires 0 <= i < |base| - total =>
          BothCleared(key, base[total + i], base[total + i].index, base[total + i].cls, ClassChanged))
  }

  function ReclassChunk(key: string, s: Slot, i: int, cls: Class): seq<SideChange> {
    if s.cls == cls then [] else BothCleared(key, s, i, cls, ClassChanged)
  }

  function ReclassChunks(key: string, base: seq<Slot>, l: Layout): seq<seq<SideChange>> {
    seq(l.total, i requires 0 <= i => ReclassChunk(key, BaseAt(base, i), i, l.ClassAt(i)))
  }

  function ResizeLog(key: string, slots: seq<Slot>, l: Layout): seq<SideChange> {
    Flatten(DropChunks(key, NonSuper(slots), l.total)) + Flatten(ReclassChunks(key, NonSuper(slots), l))
  }

  // ---------- validate ----------

  function Fault(e: Env, h: string, z: string): Option<Reason> {
    if h == "" then None
    else if h !in e.hosts then Some(HostGone)
    else if h !in e.eligible then Some(HostUnhealthy)
    else if h !in e.hostZone || e.hostZone[h] != z then Some(ZoneChanged)
    else None
  }

  function CheckSeat(e: Env, seat: Seat, z: string): Seat {
    if Fault(e, seat.host, z).None? then seat else EMPTY
  }

  function CheckSlot(e: Env, p: PairingV, s: Slot): Slot {
    s.(a := CheckSeat(e, s.a, p.zoneA), b := CheckSeat(e, s.b, p.zoneB))
  }

  function CheckEntry(e: Env, p: PairingV, s: Slot, side: Side): seq<SideChange> {
    match Fault(e, s.Host(side), p.Zone(side))
    case None => []
    case Some(r) => [SideChange(p.key, s.index, side, s.cls, s.Host(side), "", r, Unfilled)]
  }

  function Validate(e: Env, p: PairingV): seq<Slot> {
    seq(|p.slots|, i requires 0 <= i < |p.slots| => CheckSlot(e, p, p.slots[i]))
  }

  function ValidateChunks(e: Env, p: PairingV): seq<seq<SideChange>> {
    seq(|p.slots|, i requires 0 <= i < |p.slots| =>
      CheckEntry(e, p, p.slots[i], SideA) + CheckEntry(e, p, p.slots[i], SideB))
  }

  // ---------- super slots ----------

  datatype Path = Path(src: string, dst: string)

  predicate PathLe(x: Path, y: Path) {
    if x.src != y.src then StrLt(x.src, y.src) else StrLe(x.dst, y.dst)
  }

  /** The first `max` eligible members of the far zone other than `src`. */
  function Targets(members: seq<string>, src: string, eligible: set<string>, max: int): (r: seq<string>)
    ensures |r| <= if max < 0 then 0 else max
    ensures forall d :: d in r ==> d in members && d in eligible && d != src
  {
    if |members| == 0 then []
    else
      var n := |members| - 1;
      var r := Targets(members[..n], src, eligible, max);
      if |r| < max && members[n] != src && members[n] in eligible then r + [members[n]] else r
  }

  function PathsOf(src: string, dsts: seq<string>): seq<Path> {
    seq(|dsts|, i requires 0 <= i < |dsts| => Path(src, dsts[i]))
  }

  /** Every super host of one zone against its targets in the other. */
  function PathsFrom(e: Env, srcs: seq<string>, far: string): seq<Path> {
    if |srcs| == 0 then []
    else
      var n := |srcs| - 1;
      var src := srcs[n];
      PathsFrom(e, srcs[..n], far)
      + if src in e.eligible then PathsOf(src, Targets(e.Members(far), src, e.eligible, e.cfg.superMaxTargets)) else []
  }

  function HostsOf(superHosts: map<string, seq<string>>, z: string): seq<string> {
    if z in superHosts then superHosts[z] else []
  }

  function SuperPaths(e: Env, sh: map<string, seq<string>>, p: PairingV): seq<Path> {
    Sort(PathsFrom(e, HostsOf(sh, p.zoneA), p.zoneB)
         + (if p.zoneA != p.zoneB then PathsFrom(e, HostsOf(sh, p.zoneB), p.zoneA) else []), PathLe)
  }

  /** The lookup key of a super slot. */
  function SuperKey(src: string, dst: string): string { src + "|" + dst }

  /** The super slots of a table tail by lookup key; a later slot hides an earlier one. */
  function Existing(tail: seq<Slot>): (m: map<string, Slot>)
    ensures forall k :: k in m ==> m[k] in tail && m[k].cls == Super && k == SuperKey(m[k].a.host, m[k].target)
  {
    if |tail| == 0 then map[]
    else
      var n := |tail| - 1;
      var m := Existing(tail[..n]);
      if tail[n].cls == Super then m[SuperKey(tail[n].a.host, tail[n].target) := tail[n]] else m
  }

  function NewSuper(e: Env, w: Path, index: int): Slot {
    Slot(index, Super, Seat(w.src, Unique, Some(e.now)), Seat(w.dst, Unique, Some(e.now)), w.dst)
  }

  function SuperSlot(e: Env, ex: map<string, Slot>, w: Path, index: int): Slot {
    if SuperKey(w.src, w.dst) in ex then ex[SuperKey(w.src, w.dst)].(index := index) else NewSuper(e, w, index)
  }

  function SuperChunk(key: string, ex: map<string, Slot>, w: Path, index: int): seq<SideChange> {
    if SuperKey(w.src, w.dst) in ex then []
    else [SideChange(key, index, SideA, Super, "", w.src, NewSlot, Unique),
          SideChange(key, index, SideB, Super, "", w.dst, NewSlot, Unique)]
  }

  function SuperRemoved(key: string, s: Slot): seq<SideChange> {
    [SideChange(key, s.index, SideA, Super, s.a.host, "", SuperChanged, Unfilled),
     SideChange(key, s.index, SideB, Super, s.b.host, "", SuperChanged, Unfilled)]
  }

  /** The entries for a set of removed super slots, in no order. */
  ghost function RemovedBag(key: string, ex: map<string, Slot>, ks: set<string>): multiset<SideChange>
    requires ks <= ex.Keys
  {
    if ks == {} then multiset{}
    else
      var k :| k in ks;
      multiset(SuperRemoved(key, ex[k])) + RemovedBag(key, ex, ks - {k})
  }

  lemma {:induction false} RemovedBagAny(key: string, ex: map<string, Slot>, ks: set<string>, k: string)
    requires ks <= ex.Keys && k in ks
    ensures RemovedBag(key, ex, ks) == multiset(SuperRemoved(key, ex[k])) + RemovedBag(key, ex, ks - {k})
    decreases ks
  {
    hide SuperRemoved;
    var m :| m in ks && RemovedBag(key, ex, ks) == multiset(SuperRemoved(key, ex[m])) + RemovedBag(key, ex, ks - {m});
    if m != k {
      RemovedBagAny(key, ex, ks - {m}, k);
      RemovedBagAny(key, ex, ks - {k}, m);
      assert ks - {m} - {k} == ks - {k} - {m};
    }
  }

  function UsedKeys(ws: seq<Path>): set<string> {
    set w | w in ws :: SuperKey(w.src, w.dst)
  }

  function Tail(slots: seq<Slot>, total: nat): seq<Slot> {
    if |slots| < total then [] else slots[total..]
  }

  function SuperTable(e: Env, sh: map<string, seq<string>>, p: PairingV): seq<Slot> {
    var total := e.Layout().total;
    var ex := Existing(Tail(p.slots, total));
    var ws := SuperPaths(e, sh, p);
    (if |p.slots| < total then p.slots else p.slots[..total])
    + seq(|ws|, j requires 0 <= j < |ws| => SuperSlot(e, ex, ws[j], total + j))
  }

  function SuperChunks(e: Env, sh: map<string, seq<string>>, p: PairingV): seq<seq<SideChange>> {
    var total := e.Layout().total;
    var ex := Existing(Tail(p.slots, total));
    var ws := SuperPaths(e, sh, p);
    seq(|ws|, j requires 0 <= j < |ws| => SuperChunk(p.key, ex, ws[j], total + j))
  }

  ghost function SuperLog(e: Env, sh: map<string, seq<string>>, p: PairingV): multiset<SideChange> {
    var ex := Existing(Tail(p.slots, e.Layout().total));
    multiset(Flatten(SuperChunks(e, sh, p)))
    + RemovedBag(p.key, ex, ex.Keys - UsedKeys(SuperPaths(e, sh, p)))
  }

  /** Super testing switched off. */
  function DropSuperChunks(p: PairingV): seq<seq<SideChange>> {
    seq(|p.slots|, i requires 0 <= i < |p.slots| =>
      if p.slots[i].cls == Super then BothCleared(p.key, p.slots[i], p.slots[i].index, Super, SuperChanged) else [])
  }

  /** The super hosts of every zone. A zone without a stored or chosen host gets no entry. */
  function NextSuperHosts(e: Env, sh: map<string, seq<string>>): map<string, seq<string>> {
    if e.cfg.superHosts <= 0 then map[]
    else map z | z in e.members && (z in sh || Chosen(e, sh, z) != []) :: Chosen(e, sh, z)
  }

  function Chosen(e: Env, sh: map<string, seq<string>>, z: string): seq<string> {
    PickSuper(e.Members(z), e.matched, HostsOf(sh, z), e.eligible, e.cfg.superHosts)
  }

  /** The zones whose super hosts changed. */
  function SuperZonesChanged(e: Env, sh: map<string, seq<string>>): set<string> {
    if e.cfg.superHosts <= 0 then sh.Keys
    else (set z | z in e.members && HostsOf(sh, z) != Chosen(e, sh, z)) + (sh.Keys - e.members.Keys)
  }

  // ---------- fill ----------

  /** The hosts on one side of a table, with "" for an empty seat. */
  function Column(slots: seq<Slot>, side: Side): seq<string> {
    seq(|slots|, i requires 0 <= i < |slots| => slots[i].Host(side))
  }

  /** How often each host is used on one side of a pairing. */
  function Used(slots: seq<Slot>, side: Side): multiset<string> {
    multiset(Column(slots, side))
  }

  datatype Fill = Fill(slots: seq<Slot>, log: seq<SideChange>)

  function FillEntry(p: PairingV, s: Slot, side: Side, seat: Seat, reason: Reason): SideChange {
    SideChange(p.key, s.index, side, s.cls, "", seat.host, reason, seat.rank)
  }

  /** The host the anchors of one side share, "" when no anchor holds one. */
  function AnchorHost(slots: seq<Slot>, side: Side): string {
    if |slots| == 0 then ""
    else
      var n := |slots| - 1;
      var h := AnchorHost(slots[..n], side);
      if h != "" then h else if slots[n].cls == Anchor then slots[n].Host(side) else ""
  }

  function AnchorExcl(p: PairingV, slots: seq<Slot>, side: Side): set<string> {
    if p.intra then
      set i | 0 <= i < |slots| && slots[i].cls == Anchor
        && slots[i].Host(side.Other()) != "" :: slots[i].Host(side.Other())
    else {}
  }

  /** What every empty anchor seat of one side is given, and why. */
  function AnchorSeat(e: Env, p: PairingV, slots: seq<Slot>, side: Side): Option<(Seat, Reason)> {
    var h := AnchorHost(slots, side);
    if h != "" then Some((Seat(h, MinUse, Some(e.now)), AnchorReset))
    else
      var cand := Cand(e, p, side);
      var (id, rank) := PickAnchor(cand, Used(slots, side), StartOffset(e.hash, p.key, |cand|),
        AnchorExcl(p, slots, side));
      if id == "" then None else Some((Seat(id, rank, Some(e.now)), NewSlot))
  }

  predicate OpenAnchor(s: Slot, side: Side) { s.cls == Anchor && s.Host(side) == "" }

  function AnchorFill(e: Env, p: PairingV, slots: seq<Slot>, side: Side): (f: Fill)
    ensures |f.slots| == |slots|
  {
    match AnchorSeat(e, p, slots, side)
    case None => Fill(slots, [])
    case Some((seat, reason)) =>
      Fill(seq(|slots|, i requires 0 <= i < |slots| =>
             if OpenAnchor(slots[i], side) then slots[i].SetSeat(side, seat) else slots[i]),
           Flatten(AnchorChunks(p, slots, side, seat, reason)))
  }

  function AnchorChunks(p: PairingV, slots: seq<Slot>, side: Side, seat: Seat, reason: Reason): seq<seq<SideChange>> {
    seq(|slots|, i requires 0 <= i < |slots| =>
      if OpenAnchor(slots[i], side) then [FillEntry(p, slots[i], side, seat, reason)] else [])
  }

  function Excl(p: PairingV, s: Slot, side: Side): set<string> {
    if p.intra && s.Host(side.Other()) != "" then {s.Host(side.Other())} else {}
  }

  /** The seat the ranked scan gives to one side of one slot, if it gives one. */
  function DiverseSeat(e: Env, p: PairingV, slots: seq<Slot>, s: Slot, side: Side): Option<Seat> {
    if s.cls != Diverse || s.Host(side) != "" then None
    else
      var cand := Cand(e, p, side);
      var (id, rank) := Pick(cand, Used(slots, side), StartOffset(e.hash, p.key, |cand|), Excl(p, s, side),
        e.cfg.allowReuse);
      if id == "" then None else Some(Seat(id, rank, Some(e.now)))
  }

  function SideOf(j: nat): Side { if j % 2 == 0 then SideA else SideB }

  /** Diverse filling visits side A then side B of each slot in turn: step j looks at
      side j mod 2 of slot j div 2. */
  function DiverseStep(e: Env, p: PairingV, f: Fill, j: nat): (r: Fill)
    requires j / 2 < |f.slots|
    ensures |r.slots| == |f.slots|
  {
    var s := f.slots[j / 2];
    match DiverseSeat(e, p, f.slots, s, SideOf(j))
    case None => f
    case Some(seat) =>
      Fill(f.slots[j / 2 := s.SetSeat(SideOf(j), seat)], f.log + [FillEntry(p, s, SideOf(j), seat, NewSlot)])
  }

  function DiverseFill(e: Env, p: PairingV, slots: seq<Slot>, j: nat): (f: Fill)
    requires j <= 2 * |slots|
    ensures |f.slots| == |slots|
  {
    if j == 0 then Fill(slots, []) else DiverseStep(e, p, DiverseFill(e, p, slots, j - 1), j - 1)
  }

  function FillTable(e: Env, p: PairingV): (f: Fill)
    ensures |f.slots| == |p.slots|
  {
    var fa := AnchorFill(e, p, p.slots, SideA);
    var fb := AnchorFill(e, p, fa.slots, SideB);
    var fd := DiverseFill(e, p, fb.slots, 2 * |fb.slots|);
    Fill(fd.slots, fa.log + fb.log + fd.log)
  }

  // ---------- the passes on one pairing ----------

  function Fresh(k: string, w: Wanted): PairingV {
    PairingV(k, w.zoneA, w.zoneB, w.intra, [], None)
  }

  /** diffPairings: a wanted pairing is created or revived and resized; an unwanted one
      gets a removal deadline, waits for it, and goes. */
  function DiffOne(e: Env, k: string, cur: Option<PairingV>): Option<PairingV> {
    if k in e.want then
      var p := if cur.Some? then cur.value else Fresh(k, e.want[k]);
      Some(p.(removeAt := None, slots := Resize(p.slots, e.Layout())))
    else match cur
      case None => None
      case Some(p) =>
        match p.removeAt
        case None => Some(p.(removeAt := Some(e.now + e.hold)))
        case Some(t) => if e.now < t then Some(p) else None
  }

  function DiffLog(e: Env, k: string, cur: Option<PairingV>): seq<SideChange> {
    if k in e.want then ResizeLog(k, if cur.Some? then cur.value.slots else [], e.Layout()) else []
  }

  function ValidateOne(e: Env, p: PairingV): PairingV {
    if p.Active() then p.(slots := Validate(e, p)) else p
  }

  function ValidateLog(e: Env, p: PairingV): seq<SideChange> {
    if p.Active() then Flatten(ValidateChunks(e, p)) else []
  }

  function SuperOne(e: Env, sh: map<string, seq<string>>, p: PairingV): PairingV {
    if e.cfg.superHosts <= 0 then p.(slots := NonSuper(p.slots))
    else if p.Active() then p.(slots := SuperTable(e, sh, p))
    else p
  }

  ghost function SuperOneLog(e: Env, sh: map<string, seq<string>>, p: PairingV): multiset<SideChange> {
    if e.cfg.superHosts <= 0 then multiset(Flatten(DropSuperChunks(p)))
    else if p.Active() then SuperLog(e, sh, p)
    else multiset{}
  }

  function FillOne(e: Env, p: PairingV): PairingV {
    if p.Active() then p.(slots := FillTable(e, p).slots) else p
  }

  function FillLog(e: Env, p: PairingV): seq<SideChange> {
    if p.Active() then FillTable(e, p).log else []
  }

  // ---------- one run ----------

  /** The state a run starts from: a changed fingerprint discards the table. */
  function Start(e: Env, cur: Option<StateV>): StateV {
    var fp := Some(Fingerprint(e.cfg));
    if cur.None? || cur.value.zoneRule != e.zoneFp || cur.value.slotsConfig != fp
    then EmptyState(e.zoneFp, fp) else cur.value
  }

  function Get(m: map<string, PairingV>, k: string): Option<PairingV> {
    if k in m then Some(m[k]) else None
  }

  /** One pairing after one run, given the super hosts of that run. */
  function StepOne(e: Env, sh: map<string, seq<string>>, k: string, cur: Option<PairingV>): Option<PairingV> {
    match DiffOne(e, k, cur)
    case None => None
    case Some(p) => Some(FillOne(e, SuperOne(e, sh, ValidateOne(e, p))))
  }

  ghost function StepLog(e: Env, sh: map<string, seq<string>>, k: string, cur: Option<PairingV>): multiset<SideChange> {
    multiset(DiffLog(e, k, cur)) +
    match DiffOne(e, k, cur)
    case None => multiset{}
    case Some(p) =>
      var v := ValidateOne(e, p);
      var s := SuperOne(e, sh, v);
      multiset(ValidateLog(e, p)) + SuperOneLog(e, sh, v) + multiset(FillLog(e, s))
  }

  /** The state after one run. Every pairing depends on its own table and on the super
      hosts only, so no visiting order appears here. */
  function Next(e: Env, cur: Option<StateV>): StateV {
    var st := Start(e, cur);
    var sh := NextSuperHosts(e, st.superHosts);
    StateV(st.zoneRule, st.slotsConfig,
           map k | k in st.pairings.Keys + e.want.Keys && StepOne(e, sh, k, Get(st.pairings, k)).Some?
             :: StepOne(e, sh, k, Get(st.pairings, k)).value,
           sh)
  }

  /** What one run reports, as sets and as one bag of changes per pairing. */
  datatype DeltaV = DeltaV(added: set<string>, removed: set<string>, supers: set<string>,
                           sides: map<string, multiset<SideChange>>)

  ghost function NextDelta(e: Env, cur: Option<StateV>): DeltaV {
    var st := Start(e, cur);
    var sh := NextSuperHosts(e, st.superHosts);
    DeltaV(e.want.Keys - st.pairings.Keys,
           (set k | k in st.pairings && DiffOne(e, k, Some(st.pairings[k])).None?),
           SuperZonesChanged(e, st.superHosts),
           map k | k in st.pairings.Keys + e.want.Keys :: StepLog(e, sh, k, Get(st.pairings, k)))
  }
}
