/** Pairing keys and the wanted pairing set (internal/pairing/pairing.go). */
module Pairings {
  import opened Base
  import opened Zones

  // ---------- keys ----------

  function Lo(a: string, b: string): string { if StrLe(a, b) then a else b }
  function Hi(a: string, b: string): string { if StrLe(a, b) then b else a }

  function MakeKey(a: string, b: string): string {
    if StrLe(a, b) then a + "|" + b else b + "|" + a
  }

  /** The position of the first bar at or after i, or the length. */
  function FirstBar(s: string, i: nat): (r: nat)
    requires i <= |s|
    ensures i <= r <= |s|
    ensures forall j :: i <= j < r ==> s[j] != '|'
    ensures r < |s| ==> s[r] == '|'
    decreases |s| - i
  {
    if i == |s| || s[i] == '|' then i else FirstBar(s, i + 1)
  }

  function Split(k: string): (string, string) {
    var i := FirstBar(k, 0);
    if i == |k| then (k, k) else (k[..i], k[i + 1..])
  }

  predicate Plain(z: string) { '|' !in z }

  /** Splitting a key gives back the sorted pair exactly when the lower zone key has no
      bar in it. */
  lemma SplitExact(a: string, b: string)
    ensures Split(MakeKey(a, b)) == (Lo(a, b), Hi(a, b)) <==> Plain(Lo(a, b))
  {
    var lo, hi := Lo(a, b), Hi(a, b);
    var k := MakeKey(a, b);
    var i := FirstBar(k, 0);
    assert k == lo + "|" + hi && k[|lo|] == '|';
    assert i <= |lo|;
    if Plain(lo) {
      assert forall j :: 0 <= j < |lo| ==> k[j] == lo[j] && lo[j] in lo;
      assert i == |lo|;
      assert k[..i] == lo && k[i + 1..] == hi;
    } else {
      var j :| 0 <= j < |lo| && lo[j] == '|';
      assert k[j] == '|' && i <= j;
      assert |k[..i]| < |lo|;
    }
  }

  lemma MakeKeyCommutes(a: string, b: string)
    ensures MakeKey(a, b) == MakeKey(b, a)
  {
    StrLeTotalOrder();
    assert StrLe(a, b) || StrLe(b, a);
    if StrLe(a, b) && StrLe(b, a) { assert a == b; }
  }

  /** For zone keys without a bar the key determines the unordered pair. */
  lemma MakeKeyInjective(a: string, b: string, c: string, d: string)
    requires Plain(a) && Plain(b) && Plain(c) && Plain(d)
    ensures MakeKey(a, b) == MakeKey(c, d) <==> (a == c && b == d) || (a == d && b == c)
  {
    SplitExact(a, b);
    SplitExact(c, d);
    MakeKeyCommutes(a, b);
  }

  /** With a bar in a zone key two different pairs can share one key. */
  lemma BarsCollide()
    ensures MakeKey("a|b", "c") == MakeKey("a", "b|c") && "a|b" != "a" && "a|b" != "b|c"
  {
    assert StrLe("a|b", "c") && StrLe("a", "b|c");
    assert "a|b" + "|" + "c" == "a|b|c" == "a" + "|" + "b|c";
    assert "a|b"[0] != "b|c"[0];
  }

  /** A bar of a key that splits it into a sorted pair. */
  predicate SplitsAt(k: string, i: nat) {
    i < |k| && k[i] == '|' && StrLe(k[..i], k[i + 1..])
  }

  /** Exactly when a sorted pair shares its key with another one: when the key has a second
      bar that splits it into a sorted pair. */
  lemma CollisionExact(a: string, b: string)
    requires StrLe(a, b)
    ensures (exists c, d :: StrLe(c, d) && (c, d) != (a, b) && MakeKey(c, d) == MakeKey(a, b))
            <==> exists i: nat :: i != |a| && SplitsAt(MakeKey(a, b), i)
  {
    var k := MakeKey(a, b);
    forall c, d | StrLe(c, d) && (c, d) != (a, b) && MakeKey(c, d) == k ensures |c| != |a| && SplitsAt(k, |c|) {
      assert k == a + "|" + b == c + "|" + d;
      assert k[..|c|] == c && k[|c| + 1..] == d && k[..|a|] == a && k[|a| + 1..] == b;
    }
    forall i: nat | i != |a| && SplitsAt(k, i)
      ensures StrLe(k[..i], k[i + 1..]) && (k[..i], k[i + 1..]) != (a, b) && MakeKey(k[..i], k[i + 1..]) == k
    {
      assert k == k[..i] + "|" + k[i + 1..];
    }
  }

  // ---------- filter ----------

  datatype Filter = Filter(accept: seq<string>, reject: seq<string>)

  /** Whether a key is wanted, for a given pattern match. */
  predicate Matches(f: Option<Filter>, glob: (string, string) -> bool, k: string) {
    f.None? ||
    (&& (f.value.accept == [] || exists i :: 0 <= i < |f.value.accept| && glob(f.value.accept[i], k))
     && forall i :: 0 <= i < |f.value.reject| ==> !glob(f.value.reject[i], k))
  }

  method Match(f: Option<Filter>, glob: (string, string) -> bool, k: string) returns (ok: bool)
    ensures ok == Matches(f, glob, k)
  {
    if f.None? { return true; }
    if |f.value.accept| > 0 {
      var hit := false;
      var i := 0;
      while i < |f.value.accept| && !hit
        invariant 0 <= i <= |f.value.accept|
        invariant hit <==> exists j :: 0 <= j < i && glob(f.value.accept[j], k)
      {
        hit := glob(f.value.accept[i], k);
        i := i + 1;
      }
      if !hit { return false; }
    }
    for i := 0 to |f.value.reject|
      invariant forall j :: 0 <= j < i ==> !glob(f.value.reject[j], k)
    {
      if glob(f.value.reject[i], k) { return false; }
    }
    ok := true;
  }

  // ---------- the wanted set ----------

  datatype PairWant = PairWant(key: string, zoneA: string, zoneB: string, intra: bool)

  datatype PairConfig = PairConfig(intraZone: bool, maxPairings: int)

  datatype TooMany = TooMany(desired: int, allowed: int)

  function Count(zones: int, intra: bool): int {
    if zones < 0 then 0 else zones * (zones - 1) / 2 + if intra then zones else 0
  }

  function IntraPair(x: Index, cfg: PairConfig, ok: string -> bool, z: string): seq<PairWant> {
    var k := MakeKey(z, z);
    if cfg.intraZone && z in x.members && |x.members[z]| >= 2 && ok(k) then [PairWant(k, z, z, true)] else []
  }

  function CrossPair(ok: string -> bool, a: string, b: string): seq<PairWant> {
    var k := MakeKey(a, b);
    if ok(k) then [PairWant(k, Split(k).0, Split(k).1, false)] else []
  }

  /** The pairs of zone i with zones i + 1 .. j - 1, after its own intra-zone pair. */
  function Row(x: Index, cfg: PairConfig, ok: string -> bool, i: nat, j: nat): seq<PairWant>
    requires i < j <= |x.zones|
    decreases j
  {
    if j == i + 1 then IntraPair(x, cfg, ok, x.zones[i])
    else Row(x, cfg, ok, i, j - 1) + CrossPair(ok, x.zones[i], x.zones[j - 1])
  }

  function Rows(x: Index, cfg: PairConfig, ok: string -> bool, i: nat): seq<PairWant>
    requires i <= |x.zones|
  {
    if i == 0 then [] else Rows(x, cfg, ok, i - 1) + Row(x, cfg, ok, i - 1, |x.zones|)
  }

  predicate KeyLe(a: PairWant, b: PairWant) { StrLe(a.key, b.key) }

  function WantedSet(x: Index, cfg: PairConfig, ok: string -> bool): seq<PairWant> {
    Sort(Rows(x, cfg, ok, |x.zones|), KeyLe)
  }

  /** Builds the wanted pairings, or refuses when the unfiltered count is over the limit.
      The second limit check can never fire, because filtering only removes pairings. */
  method Build(x: Index, cfg: PairConfig, f: Option<Filter>, glob: (string, string) -> bool)
    returns (r: Result<seq<PairWant>, TooMany>)
    ensures r.Err? <==> cfg.maxPairings > 0 && Count(|x.zones|, cfg.intraZone) > cfg.maxPairings
    ensures r.Ok? ==> r.value == WantedSet(x, cfg, k => Matches(f, glob, k))
    ensures r.Ok? && cfg.maxPairings > 0 ==> |r.value| <= cfg.maxPairings
  {
    var n := Count(|x.zones|, cfg.intraZone);
    if cfg.maxPairings > 0 && n > cfg.maxPairings {
      return Err(TooMany(n, cfg.maxPairings));
    }
    ghost var ok := k => Matches(f, glob, k);
    var out := Collect(x, cfg, f, glob, ok);
    RowsCount(x, cfg, ok, |x.zones|);
    SamePermutation(out, Sort(out, KeyLe));
    out := Sort(out, KeyLe);
    if cfg.maxPairings > 0 && |out| > cfg.maxPairings {
      assert false;
    }
    WantedSame(x, cfg, f, glob, ok);
    r := Ok(out);
  }

  /** The double loop over the zones. */
  method Collect(x: Index, cfg: PairConfig, f: Option<Filter>, glob: (string, string) -> bool, ghost ok: string -> bool)
    returns (out: seq<PairWant>)
    requires forall k :: ok(k) == Matches(f, glob, k)
    ensures out == Rows(x, cfg, ok, |x.zones|)
  {
    hide MakeKey, Split, Matches;
    out := [];
    for i := 0 to |x.zones|
      invariant out == Rows(x, cfg, ok, i)
    {
      ghost var before := out;
      if cfg.intraZone {
        if x.zones[i] in x.members && |x.members[x.zones[i]]| >= 2 {
          var k := MakeKey(x.zones[i], x.zones[i]);
          var hit := Match(f, glob, k);
          if hit { out := out + [PairWant(k, x.zones[i], x.zones[i], true)]; }
        }
      }
      for j := i + 1 to |x.zones|
        invariant out == before + Row(x, cfg, ok, i, j)
      {
        var k := MakeKey(x.zones[i], x.zones[j]);
        var hit := Match(f, glob, k);
        if hit {
          var (a, b) := Split(k);
          out := out + [PairWant(k, a, b, false)];
        }
      }
    }
  }

  /** Rows depend on the predicate's values only. */
  lemma {:induction false} RowsSame(x: Index, cfg: PairConfig, p: string -> bool, q: string -> bool, i: nat)
    requires i <= |x.zones| && forall k :: p(k) == q(k)
    ensures Rows(x, cfg, p, i) == Rows(x, cfg, q, i)
  {
    if i > 0 {
      RowsSame(x, cfg, p, q, i - 1);
      RowSame(x, cfg, p, q, i - 1, |x.zones|);
    }
  }

  lemma {:induction false} RowSame(x: Index, cfg: PairConfig, p: string -> bool, q: string -> bool, i: nat, j: nat)
    requires i < j <= |x.zones| && forall k :: p(k) == q(k)
    ensures Row(x, cfg, p, i, j) == Row(x, cfg, q, i, j)
  {
    if j > i + 1 { RowSame(x, cfg, p, q, i, j - 1); }
  }

  lemma WantedSame(x: Index, cfg: PairConfig, f: Option<Filter>, glob: (string, string) -> bool, ok: string -> bool)
    requires forall k :: ok(k) == Matches(f, glob, k)
    ensures WantedSet(x, cfg, k => Matches(f, glob, k)) == WantedSet(x, cfg, ok)
  {
    hide Rows, Sort, Matches;
    RowsSame(x, cfg, ok, k => Matches(f, glob, k), |x.zones|);
  }

  // ---------- how many ----------

  lemma {:induction false} RowCount(x: Index, cfg: PairConfig, ok: string -> bool, i: nat, j: nat)
    requires i < j <= |x.zones|
    ensures var n := |Row(x, cfg, ok, i, j)|;
            && n <= j - i - 1 + (if cfg.intraZone then 1 else 0)
            && ((forall k :: ok(k)) && !cfg.intraZone ==> n == j - i - 1)
  {
    hide MakeKey, Split;
    if j > i + 1 { RowCount(x, cfg, ok, i, j - 1); }
  }

  lemma {:induction false} RowsBound(x: Index, cfg: PairConfig, ok: string -> bool, i: nat)
    requires i <= |x.zones|
    ensures var n := |x.zones|;
            var bound := 2 * (i * n) - i * (i + 1);
            && 2 * |Rows(x, cfg, ok, i)| <= bound + (if cfg.intraZone then 2 * i else 0)
            && ((forall k :: ok(k)) && !cfg.intraZone ==> 2 * |Rows(x, cfg, ok, i)| == bound)
  {
    if i > 0 {
      RowsBound(x, cfg, ok, i - 1);
      RowCount(x, cfg, ok, i - 1, |x.zones|);
      BoundStep(i, |x.zones|);
    }
  }

  lemma BoundStep(i: nat, n: nat)
    requires i > 0
    ensures 2 * (i * n) - i * (i + 1) == 2 * ((i - 1) * n) - (i - 1) * i + 2 * (n - i)
  {}

  /** The wanted set never exceeds the announced count, and reaches it when nothing is
      filtered and intra-zone pairings are off. */
  lemma RowsCount(x: Index, cfg: PairConfig, ok: string -> bool, n: nat)
    requires n == |x.zones|
    ensures |Rows(x, cfg, ok, n)| <= Count(n, cfg.intraZone)
    ensures (forall k :: ok(k)) && !cfg.intraZone ==> |Rows(x, cfg, ok, n)| == Count(n, false)
  {
    RowsBound(x, cfg, ok, n);
    HalfCount(n);
  }

  lemma {:induction false} EvenProduct(n: nat)
    ensures n * (n - 1) % 2 == 0
  {
    if n > 0 {
      EvenProduct(n - 1);
      ProductStep(n);
    }
  }

  lemma ProductStep(n: int)
    ensures n * (n - 1) == (n - 1) * (n - 2) + 2 * (n - 1)
  {}

  lemma HalfCount(n: nat)
    ensures n * (n - 1) == 2 * (n * (n - 1) / 2) && 2 * (n * n) - n * (n + 1) == n * (n - 1)
  {
    EvenProduct(n);
  }

  // ---------- which ones ----------

  /** A pairing the rule and the filter call for. */
  ghost predicate Called(x: Index, cfg: PairConfig, ok: string -> bool, w: PairWant) {
    && w.key == MakeKey(w.zoneA, w.zoneB) && ok(w.key)
    && w.zoneA in x.zones && w.zoneB in x.zones
    && (if w.intra then cfg.intraZone && w.zoneA == w.zoneB && w.zoneA in x.members && |x.members[w.zoneA]| >= 2
        else StrLt(w.zoneA, w.zoneB))
  }

  ghost predicate PlainZones(x: Index) {
    Increasing(x.zones) && forall z :: z in x.zones ==> Plain(z)
  }

  /** Where in the zone list a wanted pairing comes from. */
  ghost predicate From(x: Index, cfg: PairConfig, ok: string -> bool, w: PairWant, i: nat, j: nat) {
    && i <= j < |x.zones|
    && w in if i == j then IntraPair(x, cfg, ok, x.zones[i]) else CrossPair(ok, x.zones[i], x.zones[j])
  }

  lemma CrossPairIs(ok: string -> bool, a: string, b: string)
    requires StrLt(a, b) && Plain(a)
    ensures CrossPair(ok, a, b) == if ok(MakeKey(a, b)) then [PairWant(MakeKey(a, b), a, b, false)] else []
  {
    SplitExact(a, b);
    hide Split, FirstBar;
  }

  /** Without bars a wanted pairing is called for and lies between the zones it comes from. */
  lemma FromMeans(x: Index, cfg: PairConfig, ok: string -> bool, w: PairWant, i: nat, j: nat)
    requires PlainZones(x) && i <= j < |x.zones|
    ensures From(x, cfg, ok, w, i, j) <==>
              w.zoneA == x.zones[i] && w.zoneB == x.zones[j] && (w.intra <==> i == j) && Called(x, cfg, ok, w)
  {
    hide MakeKey, CrossPair, Increasing, Plain;
    ZonesOrder(x, i, j);
    if i < j { CrossPairIs(ok, x.zones[i], x.zones[j]); } else { StrLtIrreflexive(x.zones[i]); }
  }

  lemma ZonesOrder(x: Index, i: nat, j: nat)
    requires Increasing(x.zones) && i <= j < |x.zones|
    ensures i < j ==> StrLt(x.zones[i], x.zones[j])
  {}

  /** The pairing comes from row i, before column j. */
  ghost predicate InRow(x: Index, cfg: PairConfig, ok: string -> bool, w: PairWant, i: nat, j: nat) {
    exists m: nat :: m < j && From(x, cfg, ok, w, i, m)
  }

  /** The pairing comes from one of the first n rows. */
  ghost predicate InRows(x: Index, cfg: PairConfig, ok: string -> bool, w: PairWant, n: nat) {
    exists i: nat :: i < n && InRow(x, cfg, ok, w, i, |x.zones|)
  }

  lemma InRowStep(x: Index, cfg: PairConfig, ok: string -> bool, w: PairWant, i: nat, j: nat)
    ensures InRow(x, cfg, ok, w, i, j + 1) <==> InRow(x, cfg, ok, w, i, j) || From(x, cfg, ok, w, i, j)
    ensures j <= i ==> !InRow(x, cfg, ok, w, i, j)
  {
    forall m: nat ensures From(x, cfg, ok, w, i, m) ==> i <= m {
      if From(x, cfg, ok, w, i, m) { FromRange(x, cfg, ok, w, i, m); }
    }
    hide From;
  }

  lemma {:induction false} RowFrom(x: Index, cfg: PairConfig, ok: string -> bool, i: nat, j: nat, w: PairWant)
    requires i < j <= |x.zones|
    ensures w in Row(x, cfg, ok, i, j) <==> InRow(x, cfg, ok, w, i, j)
  {
    hide CrossPair, IntraPair, InRow;
    InRowStep(x, cfg, ok, w, i, j - 1);
    if j > i + 1 { RowFrom(x, cfg, ok, i, j - 1, w); }
  }

  lemma InRowsStep(x: Index, cfg: PairConfig, ok: string -> bool, w: PairWant, n: nat)
    ensures InRows(x, cfg, ok, w, n + 1) <==> InRows(x, cfg, ok, w, n) || InRow(x, cfg, ok, w, n, |x.zones|)
    ensures !InRows(x, cfg, ok, w, 0)
  {
    hide InRow;
  }

  lemma {:induction false} RowsFrom(x: Index, cfg: PairConfig, ok: string -> bool, n: nat, w: PairWant)
    requires n <= |x.zones|
    ensures w in Rows(x, cfg, ok, n) <==> InRows(x, cfg, ok, w, n)
  {
    hide Row, InRow, InRows;
    if n > 0 {
      InRowsStep(x, cfg, ok, w, n - 1);
      RowsFrom(x, cfg, ok, n - 1, w);
      RowFrom(x, cfg, ok, n - 1, |x.zones|, w);
    } else {
      InRowsStep(x, cfg, ok, w, 0);
    }
  }

  lemma FromRange(x: Index, cfg: PairConfig, ok: string -> bool, w: PairWant, i: nat, j: nat)
    requires From(x, cfg, ok, w, i, j)
    ensures i <= j < |x.zones|
  {}

  /** The called pairings are those with a place in the zone list. */
  lemma CalledFrom(x: Index, cfg: PairConfig, ok: string -> bool, w: PairWant)
    requires PlainZones(x)
    ensures Called(x, cfg, ok, w) <==> InRows(x, cfg, ok, w, |x.zones|)
  {
    hide MakeKey, From, PlainZones;
    if InRows(x, cfg, ok, w, |x.zones|) {
      var i: nat :| i < |x.zones| && InRow(x, cfg, ok, w, i, |x.zones|);
      var j: nat :| j < |x.zones| && From(x, cfg, ok, w, i, j);
      FromRange(x, cfg, ok, w, i, j);
      FromMeans(x, cfg, ok, w, i, j);
    }
    if Called(x, cfg, ok, w) {
      var i: nat :| i < |x.zones| && x.zones[i] == w.zoneA;
      var j: nat :| j < |x.zones| && x.zones[j] == w.zoneB;
      PlaceOf(x, w.zoneA, w.zoneB, i, j);
      if w.intra { j := i; }
      FromMeans(x, cfg, ok, w, i, j);
      assert InRow(x, cfg, ok, w, i, |x.zones|);
    }
  }

  lemma PlaceOf(x: Index, a: string, b: string, i: nat, j: nat)
    requires PlainZones(x) && i < |x.zones| && j < |x.zones| && x.zones[i] == a && x.zones[j] == b
    ensures StrLt(a, b) ==> i < j
  {
    if j < i && StrLt(a, b) { StrLtTransitive(a, b, a); }
    StrLtIrreflexive(a);
  }

  /** A pairing has one place in the zone list. */
  lemma OnePlace(x: Index, cfg: PairConfig, ok: string -> bool, w: PairWant, i: nat, j: nat, m: nat, n: nat)
    requires PlainZones(x) && From(x, cfg, ok, w, i, j) && From(x, cfg, ok, w, m, n)
    ensures i == m && j == n
  {
    FromRange(x, cfg, ok, w, i, j);
    FromRange(x, cfg, ok, w, m, n);
    FromMeans(x, cfg, ok, w, i, j);
    FromMeans(x, cfg, ok, w, m, n);
    IncreasingDistinct(x.zones);
    hide Called, Increasing, From;
  }

  lemma ColumnsApart(x: Index, cfg: PairConfig, ok: string -> bool, w: PairWant, i: nat, j: nat)
    requires PlainZones(x) && InRow(x, cfg, ok, w, i, j)
    ensures !From(x, cfg, ok, w, i, j)
  {
    hide From;
    var m: nat :| m < j && From(x, cfg, ok, w, i, m);
    if From(x, cfg, ok, w, i, j) { OnePlace(x, cfg, ok, w, i, m, i, j); }
  }

  lemma RowsApart(x: Index, cfg: PairConfig, ok: string -> bool, w: PairWant, n: nat)
    requires PlainZones(x) && InRows(x, cfg, ok, w, n)
    ensures !InRow(x, cfg, ok, w, n, |x.zones|)
  {
    hide From;
    var i: nat :| i < n && InRow(x, cfg, ok, w, i, |x.zones|);
    var j: nat :| j < |x.zones| && From(x, cfg, ok, w, i, j);
    if InRow(x, cfg, ok, w, n, |x.zones|) {
      var m: nat :| m < |x.zones| && From(x, cfg, ok, w, n, m);
      OnePlace(x, cfg, ok, w, i, j, n, m);
    }
  }

  lemma {:induction false} RowDistinct(x: Index, cfg: PairConfig, ok: string -> bool, i: nat, j: nat)
    requires PlainZones(x) && i < j <= |x.zones|
    ensures Distinct(Row(x, cfg, ok, i, j))
  {
    hide IntraPair, CrossPair, PlainZones, InRow, Distinct;
    if j > i + 1 {
      RowDistinct(x, cfg, ok, i, j - 1);
      var a, b := Row(x, cfg, ok, i, j - 1), CrossPair(ok, x.zones[i], x.zones[j - 1]);
      AtMostOneDistinct(x, cfg, ok, i, j - 1);
      forall w | w in a ensures w !in b {
        RowFrom(x, cfg, ok, i, j - 1, w);
        ColumnsApart(x, cfg, ok, w, i, j - 1);
      }
      DistinctConcat(a, b);
    } else {
      AtMostOneDistinct(x, cfg, ok, i, i);
    }
  }

  lemma AtMostOneDistinct(x: Index, cfg: PairConfig, ok: string -> bool, i: nat, j: nat)
    requires i <= j < |x.zones|
    ensures Distinct(IntraPair(x, cfg, ok, x.zones[i])) && Distinct(CrossPair(ok, x.zones[i], x.zones[j]))
  {
    hide MakeKey, Split;
  }

  lemma {:induction false} RowsDistinct(x: Index, cfg: PairConfig, ok: string -> bool, n: nat)
    requires PlainZones(x) && n <= |x.zones|
    ensures Distinct(Rows(x, cfg, ok, n))
  {
    hide Row, InRow, InRows, PlainZones, Distinct;
    if n > 0 {
      RowsDistinct(x, cfg, ok, n - 1);
      RowDistinct(x, cfg, ok, n - 1, |x.zones|);
      var a, b := Rows(x, cfg, ok, n - 1), Row(x, cfg, ok, n - 1, |x.zones|);
      forall w | w in a ensures w !in b {
        RowsFrom(x, cfg, ok, n - 1, w);
        RowFrom(x, cfg, ok, n - 1, |x.zones|, w);
        RowsApart(x, cfg, ok, w, n - 1);
      }
      DistinctConcat(a, b);
    } else {
      EmptyDistinct<PairWant>();
    }
  }

  lemma KeyLePreorder()
    ensures TotalPreorder(KeyLe)
  {
    StrLeTotalOrder();
    forall x, y ensures KeyLe(x, y) || KeyLe(y, x) { assert StrLe(x.key, y.key) || StrLe(y.key, x.key); }
    forall x, y, z | KeyLe(x, y) && KeyLe(y, z) ensures KeyLe(x, z) {
      assert StrLe(x.key, y.key) && StrLe(y.key, z.key);
    }
  }

  /** The wanted set in key order, whatever the zone keys are: each record comes from a
      place in the zone list and each place gives its record. */
  lemma WantedFrom(x: Index, cfg: PairConfig, ok: string -> bool)
    ensures var out := WantedSet(x, cfg, ok);
            && (forall w :: w in out <==> InRows(x, cfg, ok, w, |x.zones|))
            && Sorted(out, KeyLe)
  {
    var rows, out := Rows(x, cfg, ok, |x.zones|), WantedSet(x, cfg, ok);
    KeyLePreorder();
    SortSorted(rows, KeyLe);
    SamePermutation(rows, out);
    forall w ensures w in out <==> InRows(x, cfg, ok, w, |x.zones|) {
      RowsFrom(x, cfg, ok, |x.zones|, w);
      assert w in out <==> w in Elems(out);
      assert w in rows <==> w in Elems(rows);
    }
  }

  /** Pairing set exactness: for zone keys without a bar, the result holds every called
      pairing exactly once and nothing else, in strictly increasing key order. */
  lemma WantedExact(x: Index, cfg: PairConfig, ok: string -> bool)
    requires PlainZones(x)
    ensures var out := WantedSet(x, cfg, ok);
            && (forall w :: w in out <==> Called(x, cfg, ok, w))
            && (forall i, j :: 0 <= i < j < |out| ==> StrLt(out[i].key, out[j].key))
  {
    var rows, out := Rows(x, cfg, ok, |x.zones|), WantedSet(x, cfg, ok);
    WantedFrom(x, cfg, ok);
    RowsDistinct(x, cfg, ok, |x.zones|);
    SortDistinct(rows, KeyLe);
    hide Rows, WantedSet, Sort, InRows;
    forall w ensures w in out <==> Called(x, cfg, ok, w) { CalledFrom(x, cfg, ok, w); }
    forall i, j | 0 <= i < j < |out| ensures StrLt(out[i].key, out[j].key) {
      assert out[i] in out && out[j] in out && out[i] != out[j] && KeyLe(out[i], out[j]);
      KeyDetermines(x, cfg, ok, out[i], out[j]);
    }
  }

  lemma KeyDetermines(x: Index, cfg: PairConfig, ok: string -> bool, v: PairWant, w: PairWant)
    requires PlainZones(x) && Called(x, cfg, ok, v) && Called(x, cfg, ok, w)
    ensures v.key == w.key ==> v == w
  {
    MakeKeyInjective(v.zoneA, v.zoneB, w.zoneA, w.zoneB);
    StrLtIrreflexive(v.zoneA);
    StrLtIrreflexive(w.zoneA);
    if StrLt(v.zoneA, v.zoneB) && StrLt(v.zoneB, v.zoneA) { StrLtTransitive(v.zoneA, v.zoneB, v.zoneA); }
    hide MakeKey;
  }

  // ---------- zone keys with bars ----------

  /** The wanted intra-zone pairing of one zone has the key of a wanted cross-zone one. */
  ghost predicate Clash(x: Index, cfg: PairConfig, ok: string -> bool, i: nat, m: nat, n: nat) {
    && i < |x.zones| && m < n < |x.zones|
    && IntraPair(x, cfg, ok, x.zones[i]) != [] && MakeKey(x.zones[i], x.zones[i]) == MakeKey(x.zones[m], x.zones[n])
  }

  /** A wanted key stands for one record, whatever bars the zone keys hold, if and only if no
      intra-zone key is also a cross-zone key: cross-zone pairings that share a key are
      wanted as one and the same pairing. */
  lemma OneRecordPerKey(x: Index, cfg: PairConfig, ok: string -> bool)
    requires Increasing(x.zones)
    ensures var out := WantedSet(x, cfg, ok);
            (forall v, w :: v in out && w in out && v.key == w.key ==> v == w) <==>
              forall i: nat, m: nat, n: nat :: !Clash(x, cfg, ok, i, m, n)
  {
    var out := WantedSet(x, cfg, ok);
    WantedFrom(x, cfg, ok);
    hide WantedSet, Clash, InRows, Increasing;
    forall i: nat, m: nat, n: nat | Clash(x, cfg, ok, i, m, n)
      ensures exists v, w :: v in out && w in out && v.key == w.key && v != w
    {
      var v, w := ClashRecords(x, cfg, ok, i, m, n);
      assert v in out && w in out;
    }
    if forall i: nat, m: nat, n: nat :: !Clash(x, cfg, ok, i, m, n) {
      forall v, w | v in out && w in out && v.key == w.key ensures v == w {
        var i, j := PlaceIn(x, cfg, ok, v);
        var m, n := PlaceIn(x, cfg, ok, w);
        SameRecord(x, cfg, ok, v, w, i, j, m, n);
      }
    }
  }

  lemma ClashRecords(x: Index, cfg: PairConfig, ok: string -> bool, i: nat, m: nat, n: nat)
    returns (v: PairWant, w: PairWant)
    requires Clash(x, cfg, ok, i, m, n)
    ensures InRows(x, cfg, ok, v, |x.zones|) && InRows(x, cfg, ok, w, |x.zones|)
    ensures v.key == w.key && v.intra && !w.intra
  {
    hide MakeKey, Split;
    v, w := IntraPair(x, cfg, ok, x.zones[i])[0], CrossPair(ok, x.zones[m], x.zones[n])[0];
    assert From(x, cfg, ok, v, i, i) && From(x, cfg, ok, w, m, n);
    assert InRow(x, cfg, ok, v, i, |x.zones|) && InRow(x, cfg, ok, w, m, |x.zones|);
  }

  lemma PlaceIn(x: Index, cfg: PairConfig, ok: string -> bool, w: PairWant) returns (i: nat, j: nat)
    requires InRows(x, cfg, ok, w, |x.zones|)
    ensures From(x, cfg, ok, w, i, j)
  {
    hide From;
    i :| i < |x.zones| && InRow(x, cfg, ok, w, i, |x.zones|);
    j :| j < |x.zones| && From(x, cfg, ok, w, i, j);
  }

  lemma SameRecord(x: Index, cfg: PairConfig, ok: string -> bool, v: PairWant, w: PairWant, i: nat, j: nat, m: nat,
                   n: nat)
    requires From(x, cfg, ok, v, i, j) && From(x, cfg, ok, w, m, n) && v.key == w.key
    requires i == j && m < n ==> !Clash(x, cfg, ok, i, m, n)
    requires i < j && m == n ==> !Clash(x, cfg, ok, m, i, j)
    ensures v == w
  {
    if i == j && m == n { OwnKey(x.zones[i], x.zones[m]); }
    hide MakeKey, Split;
  }

  lemma OwnKey(y: string, z: string)
    ensures MakeKey(y, y) == MakeKey(z, z) ==> y == z
  {
    if MakeKey(y, y) == MakeKey(z, z) {
      assert |y + "|" + y| == 2 * |y| + 1 && |z + "|" + z| == 2 * |z| + 1;
      assert (y + "|" + y)[..|y|] == y && (z + "|" + z)[..|z|] == z;
    }
  }

  /** The two zones of a wanted pairing differ exactly when it is not an intra-zone one, also
      with bars in the zone keys. */
  lemma WantedKind(x: Index, cfg: PairConfig, ok: string -> bool, w: PairWant)
    requires Increasing(x.zones) && w in WantedSet(x, cfg, ok)
    ensures w.intra <==> w.zoneA == w.zoneB
  {
    WantedFrom(x, cfg, ok);
    var i, j := PlaceIn(x, cfg, ok, w);
    if i < j { SplitApart(x.zones[i], x.zones[j]); }
    hide MakeKey, Split, Increasing;
  }

  lemma SplitApart(a: string, b: string)
    requires StrLt(a, b)
    ensures Split(MakeKey(a, b)).0 != Split(MakeKey(a, b)).1
  {
    StrLtIrreflexive(a);
    SplitExact(a, b);
    if !Plain(a) {
      var k := MakeKey(a, b);
      var i := FirstBar(k, 0);
      var j :| 0 <= j < |a| && a[j] == '|';
      assert k[j] == '|' && i <= j && k[|a|] == '|';
      assert k[i + 1..][|a| - i - 1] == '|' && '|' in k[i + 1..];
      assert '|' !in k[..i];
    }
  }
}
