/** Slot classes, the class layout, and the ranked cyclic scan that chooses a
    host for an empty slot side (internal/slot/slot.go). */
module Slots {
  import opened Base

  datatype Side = SideA | SideB {
    function Other(): Side { if this == SideA then SideB else SideA }
  }

  /** `Unset` stands for the empty class of a freshly appended slot. */
  datatype Class = Unset | Anchor | Diverse | Super

  datatype Rank = Unfilled | Unique | MinUse | AnyUse

  datatype Rounding = Up | Down

  datatype SlotsConfig = SlotsConfig(
    count: int, anchorRatio: real, rounding: Rounding,
    superHosts: int, superSelector: map<string, string>, superMaxTargets: int,
    allowReuse: bool)

  // ---------- layout ----------

  datatype Layout = Layout(total: nat, anchors: nat, diverse: nat) {
    function ClassAt(i: int): Class { if i < anchors then Anchor else Diverse }
  }

  function Ceil(x: real): int { -((-x).Floor) }

  /** The ratio's share of a slot count. */
  function Raw(total: nat, ratio: real): real { total as real * ratio }

  /** The class composition. For a ratio in [0, 1] the anchor count is the ratio's
      share of the total, rounded as configured, except that a positive ratio always
      yields an anchor. */
  function ComputeLayout(cfg: SlotsConfig): (l: Layout)
    ensures l.anchors + l.diverse == l.total
    ensures l.total == if cfg.count < 0 then 0 else cfg.count
    ensures cfg.anchorRatio > 0.0 && l.total > 0 ==> l.anchors > 0
    ensures cfg.anchorRatio <= 0.0 ==> l.anchors == 0
    ensures cfg.anchorRatio >= 1.0 ==> l.diverse == 0
  {
    var total := if cfg.count < 0 then 0 else cfg.count;
    var raw := Raw(total, cfg.anchorRatio);
    RawBounds(total, cfg.anchorRatio);
    var anchors := Clamp(if cfg.rounding == Down then raw.Floor else Ceil(raw), total, cfg.anchorRatio > 0.0);
    Layout(total, anchors, total - anchors)
  }

  /** A rounded anchor count brought into range; a positive ratio yields at least one. */
  function Clamp(rounded: int, total: nat, positive: bool): (r: nat)
    ensures r <= total
  {
    var a1 := if rounded > total then total else rounded;
    var a2 := if a1 < 0 then 0 else a1;
    if a2 == 0 && positive && total > 0 then 1 else a2
  }

  lemma RawBounds(total: nat, ratio: real)
    ensures var raw := Raw(total, ratio);
            && (ratio <= 0.0 ==> raw.Floor <= 0 && Ceil(raw) <= 0)
            && (ratio >= 1.0 ==> raw.Floor >= total && Ceil(raw) >= total)
  {
    var t := total as real;
    var raw := t * ratio;
    if ratio >= 1.0 {
      MulNonNegative(t, ratio - 1.0);
      assert raw == t + t * (ratio - 1.0);
    } else if ratio <= 0.0 {
      MulNonNegative(t, -ratio);
      assert raw == -(t * (-ratio));
    }
  }

  /** For a ratio strictly between 0 and 1 the anchors are the product of count and ratio,
      rounded up to the next whole number, or rounded down but never to none. */
  lemma LayoutMeaning(cfg: SlotsConfig)
    requires cfg.count > 0 && 0.0 < cfg.anchorRatio < 1.0
    ensures var product := cfg.count as real * cfg.anchorRatio;
            var anchors := ComputeLayout(cfg).anchors;
            if cfg.rounding == Up then product <= anchors as real < product + 1.0
            else if product < 1.0 then anchors == 1
            else product - 1.0 < anchors as real <= product
    ensures forall i :: ComputeLayout(cfg).ClassAt(i) == if i < ComputeLayout(cfg).anchors then Anchor else Diverse
  {
    MulNonNegative(cfg.count as real, 1.0 - cfg.anchorRatio);
    MulPositive(cfg.count as real, cfg.anchorRatio);
    assert cfg.count as real * cfg.anchorRatio
        == cfg.count as real - cfg.count as real * (1.0 - cfg.anchorRatio);
    ProductOf(cfg);
    hide Raw;
  }

  lemma ProductOf(cfg: SlotsConfig)
    requires cfg.count > 0
    ensures Raw(cfg.count, cfg.anchorRatio) == cfg.count as real * cfg.anchorRatio
  {}

  lemma RoundingMonotone(x: real, y: real)
    requires x <= y
    ensures x.Floor <= y.Floor && Ceil(x) <= Ceil(y)
  {}

  lemma RawMonotone(n: nat, m: nat, ratio: real)
    requires n <= m && ratio >= 0.0
    ensures Raw(n, ratio) <= Raw(m, ratio)
  {
    MulNonNegative(m as real - n as real, ratio);
    assert m as real * ratio == n as real * ratio + (m as real - n as real) * ratio;
  }

  /** Raising the slot count never turns an anchor index into a diverse one. */
  lemma AnchorsGrowWithCount(cfg: SlotsConfig, more: int)
    requires cfg.count <= more
    ensures ComputeLayout(cfg).anchors <= ComputeLayout(cfg.(count := more)).anchors
    ensures forall i :: ComputeLayout(cfg).ClassAt(i) == Anchor
              ==> ComputeLayout(cfg.(count := more)).ClassAt(i) == Anchor
  {
    hide Raw;
    var n: nat := if cfg.count < 0 then 0 else cfg.count;
    var m: nat := if more < 0 then 0 else more;
    if cfg.anchorRatio > 0.0 {
      RawMonotone(n, m, cfg.anchorRatio);
      RoundingMonotone(Raw(n, cfg.anchorRatio), Raw(m, cfg.anchorRatio));
    } else {
      RawBounds(n, cfg.anchorRatio);
      RawBounds(m, cfg.anchorRatio);
    }
  }

  /** The stated rule that raising the count only appends diverse slots is not kept:
      under the default ratio index 1 is diverse with two slots and an anchor with four. */
  lemma RaisingCountMovesAClass()
    ensures var cfg := SlotsConfig(2, 0.5, Up, 0, map[], 50, true);
            ComputeLayout(cfg).ClassAt(1) == Diverse
            && ComputeLayout(cfg.(count := 4)).ClassAt(1) == Anchor
  {
    assert 2.0 * 0.5 == 1.0 && 4.0 * 0.5 == 2.0;
  }

  /** The share of a slot count that a ratio asks for, rounded as configured, at least one. */
  function Share(cfg: SlotsConfig, total: nat): int {
    var rounded := if cfg.rounding == Down then Raw(total, cfg.anchorRatio).Floor
                   else Ceil(Raw(total, cfg.anchorRatio));
    if rounded < 1 then 1 else rounded
  }

  /** No slot is diverse: the ratio covers every slot, the only one, or all but a fraction
      of the last one that is rounded up. */
  predicate AllAnchors(cfg: SlotsConfig) {
    cfg.anchorRatio >= 1.0
    || (cfg.anchorRatio > 0.0
        && (cfg.count == 1 || (cfg.rounding == Up && cfg.count > 0
             && Raw(cfg.count, cfg.anchorRatio) > (cfg.count - 1) as real)))
  }

  /** Exactly when raising the count leaves the class of every old index alone: there was
      no slot, no anchor or no diverse slot, or the rounded share of both counts is the same. */
  lemma RaisingCountExact(cfg: SlotsConfig, more: int)
    requires cfg.count <= more
    ensures var l, m := ComputeLayout(cfg), ComputeLayout(cfg.(count := more));
            (forall i :: 0 <= i < l.total ==> m.ClassAt(i) == l.ClassAt(i)) <==>
              || cfg.count <= 0 || cfg.anchorRatio <= 0.0 || AllAnchors(cfg)
              || Share(cfg, more) == Share(cfg, cfg.count)
  {
    AnchorsGrowWithCount(cfg, more);
    var l, m := ComputeLayout(cfg), ComputeLayout(cfg.(count := more));
    if cfg.count > 0 && cfg.anchorRatio > 0.0 {
      AnchorsAreShare(cfg);
      AnchorsAreShare(cfg.(count := more));
      AllAnchorsExact(cfg);
      assert Share(cfg.(count := more), more) == Share(cfg, more);
    }
    hide ComputeLayout, Share, AllAnchors;
    if l.diverse > 0 && l.anchors < m.anchors { assert m.ClassAt(l.anchors) != l.ClassAt(l.anchors); }
  }

  lemma AnchorsAreShare(cfg: SlotsConfig)
    requires cfg.count > 0 && cfg.anchorRatio > 0.0
    ensures ComputeLayout(cfg).anchors == if Share(cfg, cfg.count) > cfg.count then cfg.count else Share(cfg, cfg.count)
  {
    hide Raw;
  }

  lemma AllAnchorsExact(cfg: SlotsConfig)
    requires cfg.count > 0 && cfg.anchorRatio > 0.0
    ensures AllAnchors(cfg) <==> Share(cfg, cfg.count) >= cfg.count
  {
    RawBounds(cfg.count, cfg.anchorRatio);
    if cfg.anchorRatio < 1.0 { RawBelow(cfg.count, cfg.anchorRatio); }
    hide Raw;
  }

  lemma RawBelow(total: nat, ratio: real)
    requires total > 0 && ratio < 1.0
    ensures Raw(total, ratio) < total as real
  {
    var t := total as real;
    assert Raw(total, ratio) == t - t * (1.0 - ratio);
  }

  // ---------- the cyclic scan ----------

  function StartOffset(hash: string -> nat, key: string, n: nat): (r: nat)
    ensures n > 0 ==> r < n
  {
    if n == 0 then 0 else hash(key) % n
  }

  /** The d-th host of the walk that begins at `start` and wraps. */
  function WalkAt(hosts: seq<string>, start: nat, d: nat): string
    requires |hosts| > 0
  {
    hosts[(start + d) % |hosts|]
  }

  /** The first accepted host at or after position i of the walk. */
  function FirstFrom(hosts: seq<string>, start: nat, i: nat, ok: set<string>): (r: Option<string>)
    requires i <= |hosts|
    decreases |hosts| - i
  {
    if i == |hosts| then None
    else if WalkAt(hosts, start, i) in ok then Some(WalkAt(hosts, start, i))
    else FirstFrom(hosts, start, i + 1, ok)
  }

  ghost predicate FirstAccepted(hosts: seq<string>, start: nat, ok: set<string>, d: nat) {
    && d < |hosts|
    && WalkAt(hosts, start, d) in ok
    && forall e: nat :: e < d ==> WalkAt(hosts, start, e) !in ok
  }

  lemma {:induction false} FirstFromWalk(hosts: seq<string>, start: nat, i: nat, ok: set<string>)
    requires i <= |hosts|
    requires forall e: nat :: e < i ==> WalkAt(hosts, start, e) !in ok
    ensures var r := FirstFrom(hosts, start, i, ok);
            && (r.Some? ==> exists d :: FirstAccepted(hosts, start, ok, d) && r.value == WalkAt(hosts, start, d))
            && (r.None? ==> forall e: nat :: e < |hosts| ==> WalkAt(hosts, start, e) !in ok)
    decreases |hosts| - i
  {
    if i < |hosts| {
      if WalkAt(hosts, start, i) in ok {
        assert FirstAccepted(hosts, start, ok, i);
      } else {
        FirstFromWalk(hosts, start, i + 1, ok);
      }
    }
  }

  /** The walk visits every position. */
  lemma WalkReaches(hosts: seq<string>, start: nat, j: nat)
    requires j < |hosts| && start < |hosts|
    ensures exists d: nat :: d < |hosts| && WalkAt(hosts, start, d) == hosts[j]
  {
    var n := |hosts|;
    var d := if j >= start then j - start else j + n - start;
    if j < start { WrapOnce(j, n); }
    assert (start + d) % n == j;
    assert WalkAt(hosts, start, d) == hosts[j];
  }

  lemma WrapOnce(j: nat, n: nat)
    requires j < n
    ensures (j + n) % n == j
  {
    var x := j + n;
    var q := x / n;
    assert x == q * n + x % n;
    if q >= 2 { MulLe(2, q, n); }
    if q <= 0 { MulLe(q, 0, n); }
    assert q == 1;
  }

  /** The scan is complete: it finds a host exactly when some listed host is accepted,
      and the host it finds is the first accepted one after the start. */
  lemma FirstFromComplete(hosts: seq<string>, start: nat, ok: set<string>)
    requires |hosts| > 0 ==> start < |hosts|
    ensures var r := FirstFrom(hosts, start, 0, ok);
            && (r.Some? <==> exists h :: h in hosts && h in ok)
            && (r.Some? ==> r.value in hosts && r.value in ok)
            && (r.Some? ==> exists d :: FirstAccepted(hosts, start, ok, d) && r.value == WalkAt(hosts, start, d))
  {
    FirstFromWalk(hosts, start, 0, ok);
    if FirstFrom(hosts, start, 0, ok).None? {
      forall h | h in hosts ensures h !in ok {
        var j :| 0 <= j < |hosts| && hosts[j] == h;
        WalkReaches(hosts, start, j);
      }
    }
  }

  // ---------- ranked choice ----------

  /** The lowest use count over a candidate list, 0 for an empty one. */
  function LeastUse(hosts: seq<string>, use: multiset<string>): (m: nat)
    ensures forall h :: h in hosts ==> m <= use[h]
    ensures |hosts| > 0 ==> exists h :: h in hosts && use[h] == m
  {
    if |hosts| == 0 then 0
    else if |hosts| == 1 then use[hosts[0]]
    else
      var n := |hosts| - 1;
      var m := LeastUse(hosts[..n], use);
      assert forall h :: h in hosts ==> h in hosts[..n] || h == hosts[n];
      if use[hosts[n]] < m then use[hosts[n]] else m
  }

  function Free(hosts: seq<string>, use: multiset<string>, excl: set<string>): set<string> {
    set h | h in hosts && h !in excl && use[h] == 0
  }

  function Least(hosts: seq<string>, use: multiset<string>, excl: set<string>): set<string> {
    set h | h in hosts && h !in excl && use[h] == LeastUse(hosts, use)
  }

  function Rest(hosts: seq<string>, excl: set<string>): set<string> {
    set h | h in hosts && h !in excl
  }

  /** The choice for an empty diverse side. */
  function Pick(hosts: seq<string>, use: multiset<string>, start: nat, excl: set<string>, reuse: bool): (string, Rank) {
    match FirstFrom(hosts, start, 0, Free(hosts, use, excl))
    case Some(h) => (h, Unique)
    case None =>
      if !reuse then ("", Unfilled)
      else
        match FirstFrom(hosts, start, 0, Least(hosts, use, excl))
        case Some(h) => (h, MinUse)
        case None =>
          match FirstFrom(hosts, start, 0, Rest(hosts, excl))
          case Some(h) => (h, AnyUse)
          case None => ("", Unfilled)
  }

  /** What a pick means: the ranks form a strict preference, the host is a least used
      one unless every least used one is excluded, and nothing is picked only when no
      allowed candidate is left. */
  lemma PickMeaning(hosts: seq<string>, use: multiset<string>, start: nat, excl: set<string>, reuse: bool)
    requires "" !in hosts && (|hosts| > 0 ==> start < |hosts|)
    ensures var (h, rank) := Pick(hosts, use, start, excl, reuse);
            && (h != "" ==> h in hosts && h !in excl && rank != Unfilled)
            && (h == "" ==> rank == Unfilled)
            && (rank == Unique <==> Free(hosts, use, excl) != {})
            && (rank == Unique ==> use[h] == 0)
            && (rank == MinUse ==> use[h] > 0 && use[h] == LeastUse(hosts, use))
            && (rank == AnyUse ==> forall g :: g in hosts && g !in excl ==> use[g] > LeastUse(hosts, use))
            && (h == "" <==> (if reuse then Rest(hosts, excl) else Free(hosts, use, excl)) == {})
  {
    FirstFromComplete(hosts, start, Free(hosts, use, excl));
    FirstFromComplete(hosts, start, Least(hosts, use, excl));
    FirstFromComplete(hosts, start, Rest(hosts, excl));
    assert Free(hosts, use, excl) != {} <==> exists h :: h in hosts && h in Free(hosts, use, excl);
    assert Least(hosts, use, excl) != {} <==> exists h :: h in hosts && h in Least(hosts, use, excl);
    assert Rest(hosts, excl) != {} <==> exists h :: h in hosts && h in Rest(hosts, excl);
    if Free(hosts, use, excl) == {} {
      forall g | g in hosts && g !in excl ensures use[g] > 0 {
        assert g !in Free(hosts, use, excl);
      }
    }
    if Least(hosts, use, excl) == {} {
      forall g | g in hosts && g !in excl ensures use[g] > LeastUse(hosts, use) {
        assert g !in Least(hosts, use, excl);
      }
    }
  }

  /** The choice of an anchor host, by scan position alone. */
  function PickAnchor(hosts: seq<string>, use: multiset<string>, start: nat, excl: set<string>): (string, Rank) {
    match FirstFrom(hosts, start, 0, Rest(hosts, excl))
    case Some(h) => (h, if use[h] > 0 then MinUse else Unique)
    case None => ("", Unfilled)
  }

  lemma PickAnchorMeaning(hosts: seq<string>, use: multiset<string>, start: nat, excl: set<string>)
    requires "" !in hosts && (|hosts| > 0 ==> start < |hosts|)
    ensures var (h, rank) := PickAnchor(hosts, use, start, excl);
            && (h != "" ==> h in hosts && h !in excl && rank == if use[h] > 0 then MinUse else Unique)
            && (h == "" <==> Rest(hosts, excl) == {})
            && (h == "" <==> rank == Unfilled)
  {
    FirstFromComplete(hosts, start, Rest(hosts, excl));
    assert Rest(hosts, excl) != {} <==> exists h :: h in hosts && h in Rest(hosts, excl);
  }

  // ---------- where the walk stops ----------

  /** The walk from `start`, wrapping at the end, meets h after d steps. */
  ghost predicate MetAt(hosts: seq<string>, start: nat, d: nat, h: string) {
    d < |hosts| && hosts[(start + d) % |hosts|] == h
  }

  /** After d steps the walk meets h, and every host met before is passed over. */
  ghost predicate StopsAt(hosts: seq<string>, start: nat, d: nat, h: string, over: set<string>) {
    MetAt(hosts, start, d, h) && h !in over && forall e: nat, g :: e < d && MetAt(hosts, start, e, g) ==> g in over
  }

  /** No host of the list is used less. */
  ghost predicate LeastUsed(hosts: seq<string>, use: multiset<string>, h: string) {
    forall g :: g in hosts ==> use[h] <= use[g]
  }

  /** An accepting walk passes over everything else. */
  lemma WalkStops(hosts: seq<string>, start: nat, ok: set<string>, over: set<string>)
    requires |hosts| > 0 ==> start < |hosts|
    requires forall h :: h in hosts ==> (h in over <==> h !in ok)
    ensures var r := FirstFrom(hosts, start, 0, ok);
            && (r.Some? ==> exists d: nat :: StopsAt(hosts, start, d, r.value, over))
            && (r.None? ==> forall h :: h in hosts ==> h in over)
  {
    FirstFromComplete(hosts, start, ok);
    var r := FirstFrom(hosts, start, 0, ok);
    if r.Some? {
      var d :| FirstAccepted(hosts, start, ok, d) && r.value == WalkAt(hosts, start, d);
      forall e: nat, g | e < d && MetAt(hosts, start, e, g) ensures g in over {
        assert WalkAt(hosts, start, e) !in ok && g in hosts;
      }
      assert StopsAt(hosts, start, d, r.value, over);
    }
  }

  /** A host and a rank picked for a diverse side. */
  ghost predicate Picked(hosts: seq<string>, use: multiset<string>, start: nat, excl: set<string>, reuse: bool,
                         h: string,
                         rank: Rank)
  {
    var used := set g | g in hosts && use[g] > 0;
    var more := set g | g in hosts && !LeastUsed(hosts, use, g);
    if exists g :: g in hosts && g !in excl && use[g] == 0 then
      rank == Unique && exists d: nat :: StopsAt(hosts, start, d, h, excl + used)
    else if !reuse || forall g :: g in hosts ==> g in excl then
      rank == Unfilled && h == ""
    else if exists g :: g in hosts && g !in excl && LeastUsed(hosts, use, g) then
      rank == MinUse && exists d: nat :: StopsAt(hosts, start, d, h, excl + more)
    else
      rank == AnyUse && exists d: nat :: StopsAt(hosts, start, d, h, excl)
  }

  /** A host and a rank picked for the anchors of a side. */
  ghost predicate AnchorPicked(hosts: seq<string>, use: multiset<string>, start: nat, excl: set<string>, h: string,
                               rank: Rank)
  {
    if forall g :: g in hosts ==> g in excl then h == "" && rank == Unfilled
    else rank == (if use[h] > 0 then MinUse else Unique) && exists d: nat :: StopsAt(hosts, start, d, h, excl)
  }

  /** The host picked for a diverse side is the first one the walk from the start offset meets
      that is allowed and unused; if reuse is allowed and there is none, the first that is
      allowed and least used; then the first that is allowed. The rank says which. */
  lemma PickWalk(hosts: seq<string>, use: multiset<string>, start: nat, excl: set<string>, reuse: bool)
    requires "" !in hosts && (|hosts| > 0 ==> start < |hosts|)
    ensures Picked(hosts, use, start, excl, reuse, Pick(hosts, use, start, excl, reuse).0,
              Pick(hosts, use, start, excl, reuse).1)
  {
    hide Pick, StopsAt, LeastUsed, FirstFrom, LeastUse;
    var used := set g | g in hosts && use[g] > 0;
    var more := set g | g in hosts && !LeastUsed(hosts, use, g);
    LeastUsedIs(hosts, use);
    WalkStops(hosts, start, Free(hosts, use, excl), excl + used);
    WalkStops(hosts, start, Least(hosts, use, excl), excl + more);
    WalkStops(hosts, start, Rest(hosts, excl), excl);
    PickStops(hosts, use, start, excl, reuse);
  }

  lemma LeastUsedIs(hosts: seq<string>, use: multiset<string>)
    ensures forall g :: g in hosts ==> (LeastUsed(hosts, use, g) <==> use[g] == LeastUse(hosts, use))
  {
    forall g | g in hosts ensures LeastUsed(hosts, use, g) <==> use[g] == LeastUse(hosts, use) {
      var m :| m in hosts && use[m] == LeastUse(hosts, use);
    }
  }

  lemma PickStops(hosts: seq<string>, use: multiset<string>, start: nat, excl: set<string>, reuse: bool)
    requires "" !in hosts && (|hosts| > 0 ==> start < |hosts|)
    ensures var (h, rank) := Pick(hosts, use, start, excl, reuse);
            var free, least := FirstFrom(hosts, start, 0, Free(hosts, use, excl)),
                FirstFrom(hosts, start, 0, Least(hosts, use, excl));
            var rest := FirstFrom(hosts, start, 0, Rest(hosts, excl));
            if free.Some? then (h, rank) == (free.value, Unique)
            else if !reuse || rest.None? then (h, rank) == ("", Unfilled)
            else if least.Some? then (h, rank) == (least.value, MinUse)
            else (h, rank) == (rest.value, AnyUse)
    ensures FirstFrom(hosts, start, 0, Free(hosts, use, excl)).Some? <==>
              exists g :: g in hosts && g !in excl && use[g] == 0
    ensures FirstFrom(hosts, start, 0, Least(hosts, use, excl)).Some? <==>
              exists g :: g in hosts && g !in excl && use[g] == LeastUse(hosts, use)
    ensures FirstFrom(hosts, start, 0, Rest(hosts, excl)).Some? <==> exists g :: g in hosts && g !in excl
  {
    hide FirstFrom, LeastUse;
    FirstFromComplete(hosts, start, Free(hosts, use, excl));
    FirstFromComplete(hosts, start, Least(hosts, use, excl));
    FirstFromComplete(hosts, start, Rest(hosts, excl));
  }

  /** The anchor host is the first allowed one that the walk meets, whatever its use. */
  lemma PickAnchorWalk(hosts: seq<string>, use: multiset<string>, start: nat, excl: set<string>)
    requires "" !in hosts && (|hosts| > 0 ==> start < |hosts|)
    ensures AnchorPicked(hosts, use, start, excl, PickAnchor(hosts, use, start, excl).0,
              PickAnchor(hosts, use, start, excl).1)
  {
    WalkStops(hosts, start, Rest(hosts, excl), excl);
    FirstFromComplete(hosts, start, Rest(hosts, excl));
  }

  // ---------- super hosts ----------

  /** The longest-standing `want` members of `current` that are still valid. */
  function Keep(current: seq<string>, ok: set<string>, want: nat): (r: seq<string>)
    ensures |r| <= want
    ensures forall h :: h in r ==> h in current && h in ok
  {
    if |current| == 0 then []
    else
      var n := |current| - 1;
      var r := Keep(current[..n], ok, want);
      if |r| < want && current[n] in ok then r + [current[n]] else r
  }

  /** `out` extended, up to `want`, by the accepted members it does not hold yet. */
  function Extend(out: seq<string>, members: seq<string>, ok: set<string>, want: nat): (r: seq<string>)
    requires |out| <= want
    ensures out <= r && |r| <= want
  {
    if |members| == 0 then out
    else
      var n := |members| - 1;
      var r := Extend(out, members[..n], ok, want);
      if |r| < want && members[n] !in r && members[n] in ok then r + [members[n]] else r
  }

  /** The super hosts of one zone: the previous ones that are still valid, then the
      selector's matches, then the canonical order. */
  function PickSuper(members: seq<string>, matched: set<string>, current: seq<string>,
                     eligible: set<string>, want: int): seq<string>
  {
    if want <= 0 then []
    else
      var kept := Keep(current, Elems(members) * eligible, want);
      if |kept| >= want then kept
      else Sort(Extend(Extend(kept, members, eligible * matched, want), members, eligible, want), StrLe)
  }

  lemma {:induction false} KeepAll(current: seq<string>, ok: set<string>, want: nat)
    requires |current| <= want && forall h :: h in current ==> h in ok
    ensures Keep(current, ok, want) == current
  {
    if |current| > 0 {
      var n := |current| - 1;
      assert forall h :: h in current[..n] ==> h in current;
      KeepAll(current[..n], ok, want);
      assert current == current[..n] + [current[n]];
    }
  }

  lemma {:induction false} KeepDistinct(current: seq<string>, ok: set<string>, want: nat)
    requires Distinct(current)
    ensures Distinct(Keep(current, ok, want))
  {
    if |current| > 0 {
      var n := |current| - 1;
      KeepDistinct(current[..n], ok, want);
      assert forall h :: h in Keep(current[..n], ok, want) ==> h in current[..n];
    }
  }

  /** An extension keeps repetition out, adds accepted members only, and stops short of
      `want` only when every accepted member is in. */
  lemma {:induction false} ExtendMeaning(out: seq<string>, members: seq<string>, ok: set<string>, want: nat)
    requires |out| <= want && Distinct(out)
    ensures var r := Extend(out, members, ok, want);
            && Distinct(r)
            && (forall h :: h in r ==> h in out || (h in members && h in ok))
            && (|r| < want ==> forall h :: h in members && h in ok ==> h in r)
  {
    if |members| > 0 {
      var n := |members| - 1;
      ExtendMeaning(out, members[..n], ok, want);
      assert forall h :: h in members ==> h in members[..n] || h == members[n];
    }
  }

  /** The two extensions take every eligible member they have room for. */
  lemma ExtendTwice(kept: seq<string>, members: seq<string>, matched: set<string>, eligible: set<string>, want: nat)
    requires |kept| <= want && Distinct(kept) && forall h :: h in kept ==> h in members && h in eligible
    ensures var two := Extend(Extend(kept, members, eligible * matched, want), members, eligible, want);
            && Distinct(two) && |two| <= want
            && (forall h :: h in two ==> h in members && h in eligible)
            && (|two| < want ==> forall h :: h in members && h in eligible ==> h in two)
  {
    ExtendMeaning(kept, members, eligible * matched, want);
    ExtendMeaning(Extend(kept, members, eligible * matched, want), members, eligible, want);
  }

  lemma PickSuperPool(members: seq<string>, matched: set<string>, current: seq<string>, eligible: set<string>,
                      want: int)
    requires Distinct(current) && want > 0
    ensures var r := PickSuper(members, matched, current, eligible, want);
            && Distinct(r) && |r| <= want
            && (forall h :: h in r ==> h in members && h in eligible)
            && (|r| < want ==> forall h :: h in members && h in eligible ==> h in r)
  {
    hide Extend, Distinct;
    var kept := Keep(current, Elems(members) * eligible, want);
    KeepDistinct(current, Elems(members) * eligible, want);
    if |kept| < want {
      ExtendTwice(kept, members, matched, eligible, want);
      var two := Extend(Extend(kept, members, eligible * matched, want), members, eligible, want);
      SortDistinct(two, StrLe);
      SamePermutation(two, Sort(two, StrLe));
      assert forall h :: h in Sort(two, StrLe) <==> h in Elems(two);
    }
  }

  /** Super host selection is duplicate-free and takes as many hosts as it can: the
      wanted number, or every eligible member. */
  lemma PickSuperCount(members: seq<string>, matched: set<string>, current: seq<string>, eligible: set<string>,
                       want: int)
    requires Distinct(current)
    ensures var r := PickSuper(members, matched, current, eligible, want);
            && Distinct(r)
            && (forall h :: h in r ==> h in members && h in eligible)
            && var pool := |Elems(members) * eligible|;
               |r| == (if want <= 0 then 0 else if want < pool then want else pool)
  {
    if want > 0 {
      PickSuperPool(members, matched, current, eligible, want);
      hide PickSuper;
      var r := PickSuper(members, matched, current, eligible, want);
      var pool := Elems(members) * eligible;
      DistinctSize(r);
      SubsetSize(Elems(r), pool);
      if |r| < want {
        assert Elems(r) == pool;
      }
    }
  }

  lemma SubsetSize<T>(a: set<T>, b: set<T>)
    requires a <= b
    ensures |a| <= |b|
  {
    assert b == a + (b - a);
  }

  /** A selection that is still valid is kept, whatever else joined the zone. */
  lemma PickSuperSticky(members: seq<string>, matched: set<string>, current: seq<string>, eligible: set<string>,
                        want: int)
    requires |current| == want && forall h :: h in current ==> h in members && h in eligible
    ensures PickSuper(members, matched, current, eligible, want) == current
  {
    KeepAll(current, Elems(members) * eligible, want);
  }

  /** Selecting again from a selection changes nothing. */
  lemma PickSuperIdempotent(members: seq<string>, matched: set<string>, current: seq<string>, eligible: set<string>,
                            want: int)
    requires Distinct(current)
    ensures var r := PickSuper(members, matched, current, eligible, want);
            PickSuper(members, matched, r, eligible, want) == r
  {
    var r := PickSuper(members, matched, current, eligible, want);
    var pool := Elems(members) * eligible;
    PickSuperCount(members, matched, current, eligible, want);
    if want > 0 {
      KeepAll(r, pool, want);
      if |r| < want {
        DistinctSize(r);
        assert Elems(r) <= pool;
        assert Elems(r) == pool by { EqualSize(Elems(r), pool); }
        ExtendNothing(r, members, eligible * matched, want);
        ExtendNothing(r, members, eligible, want);
        var kept := Keep(current, pool, want);
        assert |kept| < want;
        var two := Extend(Extend(kept, members, eligible * matched, want), members, eligible, want);
        StrLeTotalOrder();
        SortSorted(two, StrLe);
        SortSorted(r, StrLe);
        SortedUnique(r, Sort(r, StrLe), StrLe);
      }
    }
  }

  lemma EqualSize<T>(a: set<T>, b: set<T>)
    requires a <= b && |a| == |b|
    ensures a == b
  {
    assert b == a + (b - a);
    assert |b - a| == 0;
  }

  lemma {:induction false} ExtendNothing(out: seq<string>, members: seq<string>, ok: set<string>, want: nat)
    requires |out| <= want && forall h :: h in members && h in ok ==> h in out
    ensures Extend(out, members, ok, want) == out
  {
    if |members| > 0 {
      assert forall h :: h in members[..|members| - 1] ==> h in members;
      ExtendNothing(out, members[..|members| - 1], ok, want);
    }
  }

  // ---------- which super hosts ----------

  /** The accepted entries of a list, in its order. */
  function Filtered(s: seq<string>, ok: set<string>): seq<string> {
    if |s| == 0 then [] else (if s[0] in ok then [s[0]] else []) + Filtered(s[1..], ok)
  }

  lemma {:induction false} FilteredConcat(x: seq<string>, y: seq<string>, ok: set<string>)
    ensures Filtered(x + y, ok) == Filtered(x, ok) + Filtered(y, ok)
  {
    if |x| == 0 {
      assert x + y == y;
    } else {
      assert (x + y)[1..] == x[1..] + y;
      FilteredConcat(x[1..], y, ok);
    }
  }

  lemma FilteredLast(s: seq<string>, ok: set<string>)
    requires |s| > 0
    ensures var n := |s| - 1;
            Filtered(s, ok) == Filtered(s[..n], ok) + if s[n] in ok then [s[n]] else []
  {
    var n := |s| - 1;
    FilteredConcat(s[..n], [s[n]], ok);
    assert s == s[..n] + [s[n]] && [s[n]][1..] == [];
  }

  lemma {:induction false} FilteredHas(s: seq<string>, ok: set<string>, h: string)
    ensures h in Filtered(s, ok) <==> h in s && h in ok
  {
    if |s| > 0 {
      FilteredHas(s[1..], ok, h);
      assert s == [s[0]] + s[1..];
    }
  }

  /** The candidates are the eligible members in canonical order. */
  lemma {:induction false} EligibleIsFiltered(members: seq<string>, eligible: set<string>)
    ensures EligibleOf(members, eligible) == Filtered(members, eligible)
  {
    if |members| > 0 {
      EligibleIsFiltered(members[..|members| - 1], eligible);
      FilteredLast(members, eligible);
    }
  }

  lemma {:induction false} KeepIsFiltered(current: seq<string>, ok: set<string>, want: nat)
    ensures var valid := Filtered(current, ok);
            Keep(current, ok, want) == valid[..if want < |valid| then want else |valid|]
  {
    if |current| > 0 {
      KeepIsFiltered(current[..|current| - 1], ok, want);
      FilteredLast(current, ok);
    }
  }

  /** An extension takes accepted members from the front: of two listed hosts the later is
      added only when the earlier is in. */
  lemma {:induction false} ExtendFront(out: seq<string>, members: seq<string>, ok: set<string>, want: nat, i: nat,
                                       j: nat)
    requires |out| <= want && Distinct(out) && Distinct(members) && i < j < |members|
    requires members[j] in Extend(out, members, ok, want) && members[j] !in out && members[i] in ok
    ensures members[i] in Extend(out, members, ok, want)
  {
    var n := |members| - 1;
    ExtendMeaning(out, members[..n], ok, want);
    assert members[..n][i] == members[i];
    if j < n {
      assert members[..n][j] == members[j];
      ExtendFront(out, members[..n], ok, want, i, j);
    } else {
      assert members[n] !in members[..n];
    }
  }

  /** A host the selector does not match is added only when every eligible match is in. */
  ghost predicate MatchedFirst(members: seq<string>, matched: set<string>, eligible: set<string>, valid: seq<string>,
                               r: seq<string>)
  {
    forall h, g :: h in r && h !in valid && h !in matched && g in members && g in eligible && g in matched ==> g in r
  }

  /** A member is added only when every eligible earlier one of its kind is in. */
  ghost predicate FrontFirst(members: seq<string>, matched: set<string>, eligible: set<string>, valid: seq<string>,
                             r: seq<string>)
  {
    forall i, j ::
      && 0 <= i < j < |members| && members[j] in r && members[j] !in valid
      && members[i] in eligible && (members[j] in matched ==> members[i] in matched)
      ==> members[i] in r
  }

  /** Which super hosts are chosen. Previous hosts that are still eligible members stay, the
      first of them when they are too many; when they are too few all stay, and eligible
      members are added, those the selector matches first, each kind in canonical order. */
  lemma PickSuperMeaning(members: seq<string>, matched: set<string>, current: seq<string>, eligible: set<string>,
                         want: int)
    requires Distinct(members) && Distinct(current) && want > 0
    ensures var r := PickSuper(members, matched, current, eligible, want);
            var valid := Filtered(current, Elems(members) * eligible);
            if |valid| >= want then r == valid[..want]
            else
              && Sorted(r, StrLe) && (forall h :: h in valid ==> h in r)
              && MatchedFirst(members, matched, eligible, valid, r) && FrontFirst(members, matched, eligible, valid, r)
  {
    hide Filtered, Keep, Extend, Sort;
    var ok := Elems(members) * eligible;
    var valid := Filtered(current, ok);
    KeepIsFiltered(current, ok, want);
    KeepDistinct(current, ok, want);
    if |valid| < want {
      assert Keep(current, ok, want) == valid;
      var one := Extend(valid, members, eligible * matched, want);
      var two := Extend(one, members, eligible, want);
      ExtendMeaning(valid, members, eligible * matched, want);
      ExtendMeaning(one, members, eligible, want);
      StrLeTotalOrder();
      SortSorted(two, StrLe);
      SamePermutation(two, Sort(two, StrLe));
      forall h ensures h in Sort(two, StrLe) <==> h in two {
        assert h in Elems(Sort(two, StrLe)) <==> h in Elems(two);
      }
      TwoSteps(valid, members, matched, eligible, want, one, two);
    }
  }

  lemma TwoSteps(valid: seq<string>, members: seq<string>, matched: set<string>, eligible: set<string>, want: nat,
                 one: seq<string>, two: seq<string>)
    requires Distinct(members) && Distinct(valid) && |valid| <= want
    requires one == Extend(valid, members, eligible * matched, want) && two == Extend(one, members, eligible, want)
    ensures MatchedFirst(members, matched, eligible, valid, two) && FrontFirst(members, matched, eligible, valid, two)
  {
    ExtendMeaning(valid, members, eligible * matched, want);
    ExtendMeaning(one, members, eligible, want);
    hide Extend, Distinct;
    assert forall h :: h in one ==> h in two;
    forall i, j | 0 <= i < j < |members| && members[j] in two && members[j] !in valid
        && members[i] in eligible && (members[j] in matched ==> members[i] in matched)
      ensures members[i] in two
    {
      if members[j] in one {
        ExtendFront(valid, members, eligible * matched, want, i, j);
      } else {
        ExtendFront(one, members, eligible, want, i, j);
      }
    }
  }

  // ---------- the stateful candidate list ----------

  /** The eligible hosts of one side, in canonical order, and how often each is used
      in the current pairing. */
  class Candidates {
    const zone: string
    const hosts: seq<string>
    var useCount: map<string, nat>

    /** The use counts are those of `use`, for every host name. */
    ghost predicate Counts(use: multiset<string>)
      reads this
    {
      forall h :: h != "" ==> (if h in useCount then useCount[h] else 0) == use[h]
    }

    constructor (zone: string, members: seq<string>, eligible: set<string>)
      ensures hosts == EligibleOf(members, eligible)
      ensures this.zone == zone && useCount == map[]
    {
      var kept := [];
      for i := 0 to |members|
        invariant kept == EligibleOf(members[..i], eligible)
      {
        assert members[..i + 1][..i] == members[..i];
        if members[i] in eligible { kept := kept + [members[i]]; }
      }
      assert members[..|members|] == members;
      this.zone := zone;
      hosts := kept;
      useCount := map[];
    }

    /** One more slot side of the pairing is occupied by `id`. */
    method Use(id: string, ghost use: multiset<string>)
      requires Counts(use)
      modifies this
      ensures useCount == old(useCount)[id := (if id in old(useCount) then old(useCount)[id] else 0) + 1]
      ensures Counts(use + multiset{id})
    {
      useCount := useCount[id := Lookup(useCount, id) + 1];
    }

    /** The lowest use count, found by one pass over the hosts. */
    method LowestUse(ghost use: multiset<string>) returns (m: nat)
      requires Counts(use) && "" !in hosts
      ensures m == LeastUse(hosts, use)
    {
      var least := None;
      for i := 0 to |hosts|
        invariant least == if i == 0 then None else Some(LeastUse(hosts[..i], use))
      {
        assert hosts[..i + 1][..i] == hosts[..i];
        var n := Lookup(useCount, hosts[i]);
        if least == None || n < least.value { least := Some(n); }
      }
      assert hosts[..|hosts|] == hosts;
      m := if least == None then 0 else least.value;
    }

    /** Walks the candidates from `start`, wrapping once, to the first one that is not
        excluded and satisfies the predicate. */
    method Scan(start: nat, exclude: set<string>, pred: string -> bool,
                ghost ok: set<string>) returns (r: Option<string>)
      requires forall h :: h in ok <==> h in hosts && h !in exclude && pred(h)
      ensures r == FirstFrom(hosts, start, 0, ok)
    {
      for i := 0 to |hosts|
        invariant FirstFrom(hosts, start, 0, ok) == FirstFrom(hosts, start, i, ok)
      {
        var h := hosts[(start + i) % |hosts|];
        if h !in exclude && pred(h) { return Some(h); }
      }
      r := None;
    }

    /** Selects a host for an empty diverse side. */
    method PickDiverse(start: nat, exclude: set<string>, reuse: bool, ghost use: multiset<string>)
      returns (id: string, rank: Rank)
      requires Counts(use) && "" !in hosts
      ensures (id, rank) == Pick(hosts, use, start, exclude, reuse)
    {
      var counts := useCount;
      var unused := Scan(start, exclude, h => Lookup(counts, h) == 0, Free(hosts, use, exclude));
      if unused.Some? { return unused.value, Unique; }
      if !reuse { return "", Unfilled; }
      var m := LowestUse(use);
      var least := Scan(start, exclude, h => Lookup(counts, h) == m, Least(hosts, use, exclude));
      if least.Some? { return least.value, MinUse; }
      var rest := Scan(start, exclude, h => true, Rest(hosts, exclude));
      if rest.Some? { return rest.value, AnyUse; }
      return "", Unfilled;
    }

    /** Selects the host that every anchor slot of one side will share. */
    method PickForAnchors(start: nat, exclude: set<string>, ghost use: multiset<string>)
      returns (id: string, rank: Rank)
      requires Counts(use) && "" !in hosts
      ensures (id, rank) == PickAnchor(hosts, use, start, exclude)
    {
      var rest := Scan(start, exclude, h => true, Rest(hosts, exclude));
      if rest.None? { return "", Unfilled; }
      FirstFromWalk(hosts, start, 0, Rest(hosts, exclude));
      id := rest.value;
      rank := if Lookup(useCount, id) > 0 then MinUse else Unique;
    }
  }

  function Lookup(counts: map<string, nat>, h: string): nat {
    if h in counts then counts[h] else 0
  }

  /** Selects the super hosts of one zone. */
  method PickSuperHosts(members: seq<string>, matched: set<string>, current: seq<string>,
                        eligible: set<string>, want: int) returns (out: seq<string>)
    ensures out == PickSuper(members, matched, current, eligible, want)
  {
    if want <= 0 { return []; }
    out := [];
    ghost var valid := Elems(members) * eligible;
    for i := 0 to |current|
      invariant out == Keep(current[..i], valid, want)
    {
      assert current[..i + 1][..i] == current[..i];
      if |out| < want && current[i] in members && current[i] in eligible { out := out + [current[i]]; }
    }
    assert current[..|current|] == current;
    if |out| >= want { return; }
    out := ExtendLoop(out, members, eligible * matched, want);
    out := ExtendLoop(out, members, eligible, want);
    out := Sort(out, StrLe);
  }

  method ExtendLoop(start: seq<string>, members: seq<string>, ok: set<string>, want: nat) returns (out: seq<string>)
    requires |start| <= want
    ensures out == Extend(start, members, ok, want)
  {
    out := start;
    var i := 0;
    while i < |members| && |out| < want
      invariant 0 <= i <= |members|
      invariant out == Extend(start, members[..i], ok, want)
    {
      assert members[..i + 1][..i] == members[..i];
      if members[i] !in out && members[i] in ok { out := out + [members[i]]; }
      i := i + 1;
    }
    ExtendFull(start, members, i, ok, want);
  }

  /** Once the wanted number is reached the remaining members change nothing. */
  lemma {:induction false} ExtendFull(start: seq<string>, members: seq<string>, i: nat, ok: set<string>, want: nat)
    requires |start| <= want && i <= |members|
    requires i == |members| || |Extend(start, members[..i], ok, want)| == want
    ensures Extend(start, members, ok, want) == Extend(start, members[..i], ok, want)
  {
    if i == |members| {
      assert members[..i] == members;
    } else {
      var n := |members| - 1;
      assert members[..n][..i] == members[..i];
      ExtendFull(start, members[..n], i, ok, want);
    }
  }

  function EligibleOf(members: seq<string>, eligible: set<string>): (r: seq<string>)
    ensures forall h :: h in r <==> h in members && h in eligible
  {
    if |members| == 0 then []
    else
      var n := |members| - 1;
      assert forall h :: h in members <==> h in members[..n] || h == members[n];
      EligibleOf(members[..n], eligible) + if members[n] in eligible then [members[n]] else []
  }
}
