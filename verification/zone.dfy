/** Zone keys by rule, and the zone index of a snapshot (internal/zone/zone.go). */
module Zones {
  import opened Base
  import opened Inventory

  datatype MissingPolicy = MissingExclude | MissingEmpty | MissingLiteral

  /** One rule key. The transform is any function on strings. */
  datatype KeySpec = KeySpec(key: string, transform: Option<string -> string>)

  datatype Rule = Rule(keys: seq<KeySpec>, sep: string, missing: MissingPolicy, literal: string, fp: string)

  predicate Lacks(h: HostRecord, ks: KeySpec) {
    ks.key !in h.attributes || h.attributes[ks.key] == ""
  }

  /** The text one rule key contributes for a host that is not excluded by it. */
  function Part(r: Rule, h: HostRecord, ks: KeySpec): string {
    var v := if !Lacks(h, ks) then h.attributes[ks.key]
             else if r.missing == MissingLiteral then r.literal else "";
    if ks.transform.Some? then ks.transform.value(v) else v
  }

  function Join(parts: seq<string>, sep: string): string {
    if |parts| == 0 then ""
    else if |parts| == 1 then parts[0]
    else Join(parts[..|parts| - 1], sep) + sep + parts[|parts| - 1]
  }

  /** The host has no zone: the policy excludes it and it lacks a rule key. */
  predicate Excluded(r: Rule, h: HostRecord) {
    r.missing == MissingExclude && exists i :: 0 <= i < |r.keys| && Lacks(h, r.keys[i])
  }

  function ZoneOf(r: Rule, h: HostRecord): Option<string> {
    if Excluded(r, h) then None
    else Some(Join(seq(|r.keys|, i requires 0 <= i < |r.keys| => Part(r, h, r.keys[i])), r.sep))
  }

  /** Applies the rule key by key and stops at the first excluded one. */
  method Apply(r: Rule, h: HostRecord) returns (z: Option<string>)
    ensures z == ZoneOf(r, h)
  {
    var parts: seq<string> := [];
    for n := 0 to |r.keys|
      invariant |parts| == n && forall i :: 0 <= i < n ==> parts[i] == Part(r, h, r.keys[i])
      invariant r.missing == MissingExclude ==> forall i :: 0 <= i < n ==> !Lacks(h, r.keys[i])
    {
      var ks := r.keys[n];
      var v := "";
      if Lacks(h, ks) {
        match r.missing
        case MissingExclude => return None;
        case MissingEmpty => v := "";
        case MissingLiteral => v := r.literal;
      } else {
        v := h.attributes[ks.key];
      }
      if ks.transform.Some? { v := ks.transform.value(v); }
      parts := parts + [v];
    }
    assert parts == seq(|r.keys|, i requires 0 <= i < |r.keys| => Part(r, h, r.keys[i]));
    z := Some(Join(parts, r.sep));
  }

  // ---------- what a zone key is made of ----------

  /** The parts one after the other, with the separator between each two. */
  function Glued(parts: seq<string>, sep: string): string {
    if |parts| == 0 then "" else parts[0] + if |parts| == 1 then "" else sep + Glued(parts[1..], sep)
  }

  lemma {:induction false} GluedAppend(parts: seq<string>, x: string, sep: string)
    requires |parts| > 0
    ensures Glued(parts + [x], sep) == Glued(parts, sep) + sep + x
  {
    assert (parts + [x])[1..] == parts[1..] + [x];
    if |parts| > 1 {
      GluedAppend(parts[1..], x, sep);
    } else {
      assert Glued([x], sep) == x;
    }
  }

  lemma {:induction false} JoinIsGlued(parts: seq<string>, sep: string)
    ensures Join(parts, sep) == Glued(parts, sep)
  {
    if |parts| > 1 {
      var n := |parts| - 1;
      JoinIsGlued(parts[..n], sep);
      GluedAppend(parts[..n], parts[n], sep);
      assert parts == parts[..n] + [parts[n]];
    }
  }

  predicate Has(h: HostRecord, key: string) { key in h.attributes && h.attributes[key] != "" }

  /** The text of one key: its attribute, or what the policy puts in its place, and either way
      rewritten by the transform. */
  predicate TextIs(r: Rule, h: HostRecord, ks: KeySpec, t: string) {
    var raw := if Has(h, ks.key) then h.attributes[ks.key]
               else match r.missing case MissingLiteral => r.literal case _ => "";
    match ks.transform
    case None => t == raw
    case Some(f) => t == f(raw)
  }

  ghost predicate TextsAre(r: Rule, h: HostRecord, parts: seq<string>) {
    |parts| == |r.keys| && forall i :: 0 <= i < |parts| ==> TextIs(r, h, r.keys[i], parts[i])
  }

  ghost predicate LacksKey(r: Rule, h: HostRecord) {
    exists i :: 0 <= i < |r.keys| && !Has(h, r.keys[i].key)
  }

  /** A host has no zone exactly when the policy excludes it for a key it lacks, and otherwise its
      zone is the text of each key in order, glued by the separator. */
  lemma ZoneMeaning(r: Rule, h: HostRecord)
    ensures ZoneOf(r, h).None? <==> r.missing == MissingExclude && LacksKey(r, h)
    ensures ZoneOf(r, h).Some? ==>
              exists parts :: TextsAre(r, h, parts) && ZoneOf(r, h) == Some(Glued(parts, r.sep))
  {
    if !(r.missing == MissingExclude && LacksKey(r, h)) {
      var parts := seq(|r.keys|, i requires 0 <= i < |r.keys| => Part(r, h, r.keys[i]));
      assert TextsAre(r, h, parts);
      JoinIsGlued(parts, r.sep);
    }
  }

  /** The first rule key a host does not satisfy, "" when there is none. */
  function MissingKey(r: Rule, h: HostRecord, i: nat): (k: string)
    requires i <= |r.keys|
    decreases |r.keys| - i
  {
    if i == |r.keys| then ""
    else if Lacks(h, r.keys[i]) then r.keys[i].key
    else MissingKey(r, h, i + 1)
  }

  /** An unresolved host is always given a reason: the named key is one it lacks, and
      it satisfies every key before it. */
  lemma {:induction false} MissingKeyExplains(r: Rule, h: HostRecord, i: nat)
    requires i <= |r.keys| && (forall j :: 0 <= j < |r.keys| ==> r.keys[j].key != "")
    ensures (MissingKey(r, h, i) != "") <==> exists j :: i <= j < |r.keys| && Lacks(h, r.keys[j])
    ensures MissingKey(r, h, i) != "" ==>
              exists j :: i <= j < |r.keys| && Lacks(h, r.keys[j]) && r.keys[j].key == MissingKey(r, h, i)
                          && forall n :: i <= n < j ==> !Lacks(h, r.keys[n])
    decreases |r.keys| - i
  {
    if i < |r.keys| && !Lacks(h, r.keys[i]) { MissingKeyExplains(r, h, i + 1); }
  }

  // ---------- the index ----------

  datatype Unresolved = Unresolved(hostId: string, missingKey: string)

  datatype Index = Index(zones: seq<string>, members: map<string, seq<string>>, hostZone: map<string, string>,
                         unresolved: seq<Unresolved>)

  /** The members of a zone, in the order of the snapshot. */
  function MembersOf(r: Rule, hosts: seq<HostRecord>, z: string): seq<string> {
    if |hosts| == 0 then []
    else
      var n := |hosts| - 1;
      MembersOf(r, hosts[..n], z) + if ZoneOf(r, hosts[n]) == Some(z) then [hosts[n].id] else []
  }

  function UnresolvedOf(r: Rule, hosts: seq<HostRecord>): seq<Unresolved> {
    if |hosts| == 0 then []
    else
      var n := |hosts| - 1;
      UnresolvedOf(r, hosts[..n])
        + if ZoneOf(r, hosts[n]).None? then [Unresolved(hosts[n].id, MissingKey(r, hosts[n], 0))] else []
  }

  /** What an index holds for a host list. */
  ghost predicate Indexes(x: Index, r: Rule, hosts: seq<HostRecord>) {
    && MembersIndexed(x.members, r, hosts)
    && ZonesIndexed(x.hostZone, r, hosts, |hosts|)
    && x.unresolved == UnresolvedOf(r, hosts)
    && Increasing(x.zones) && (forall z :: z in x.zones <==> z in x.members)
  }

  ghost predicate MembersIndexed(members: map<string, seq<string>>, r: Rule, hosts: seq<HostRecord>) {
    && (forall z :: z in members <==> MembersOf(r, hosts, z) != [])
    && (forall z :: z in members ==> members[z] == MembersOf(r, hosts, z))
  }

  /** The first n hosts are filed under their zones. */
  ghost predicate ZonesIndexed(hostZone: map<string, string>, r: Rule, hosts: seq<HostRecord>, n: nat)
    requires n <= |hosts|
  {
    && (forall id :: id in hostZone ==> exists i :: 0 <= i < n && hosts[i].id == id && ZoneOf(r, hosts[i]).Some?)
    && (forall i :: 0 <= i < n && ZoneOf(r, hosts[i]).Some? ==>
          hosts[i].id in hostZone && hostZone[hosts[i].id] == ZoneOf(r, hosts[i]).value)
  }

  ghost predicate Increasing(s: seq<string>) {
    forall i, j :: 0 <= i < j < |s| ==> StrLt(s[i], s[j])
  }

  function Filed(members: map<string, seq<string>>, z: string, id: string): map<string, seq<string>> {
    members[z := (if z in members then members[z] else []) + [id]]
  }

  lemma MembersStep(members: map<string, seq<string>>, r: Rule, hosts: seq<HostRecord>, n: nat)
    requires n < |hosts| && MembersIndexed(members, r, hosts[..n])
    ensures match ZoneOf(r, hosts[n])
            case None => MembersIndexed(members, r, hosts[..n + 1])
            case Some(z) => MembersIndexed(Filed(members, z, hosts[n].id), r, hosts[..n + 1])
  {
    hide ZoneOf;
    assert hosts[..n + 1][..n] == hosts[..n];
    forall z ensures MembersOf(r, hosts[..n + 1], z)
                  == MembersOf(r, hosts[..n], z) + if ZoneOf(r, hosts[n]) == Some(z) then [hosts[n].id] else [] {}
    hide MembersOf;
  }

  lemma ZonesStep(hostZone: map<string, string>, r: Rule, hosts: seq<HostRecord>, n: nat)
    requires n < |hosts| && ZonesIndexed(hostZone, r, hosts, n)
    requires forall i, j :: 0 <= i < j < |hosts| ==> hosts[i].id != hosts[j].id
    ensures match ZoneOf(r, hosts[n])
            case None => ZonesIndexed(hostZone, r, hosts, n + 1)
            case Some(z) => ZonesIndexed(hostZone[hosts[n].id := z], r, hosts, n + 1)
  {
    hide ZoneOf;
  }

  /** Indexes a snapshot in one pass; the zone list is collected in map order and sorted. */
  method Build(r: Rule, snap: Snapshot) returns (x: Index)
    requires snap.Valid()
    ensures Indexes(x, r, snap.hosts)
  {
    hide MembersIndexed, ZonesIndexed, ZoneOf, MissingKey, Increasing;
    var hosts := snap.hosts;
    DistinctIds(hosts);
    NothingIndexed(r, hosts);
    var members: map<string, seq<string>> := map[];
    var hostZone: map<string, string> := map[];
    var unresolved: seq<Unresolved> := [];
    for n := 0 to |hosts|
      invariant MembersIndexed(members, r, hosts[..n]) && ZonesIndexed(hostZone, r, hosts, n)
      invariant unresolved == UnresolvedOf(r, hosts[..n])
    {
      MembersStep(members, r, hosts, n);
      ZonesStep(hostZone, r, hosts, n);
      assert hosts[..n + 1][..n] == hosts[..n];
      var z := Apply(r, hosts[n]);
      match z {
        case None => unresolved := unresolved + [Unresolved(hosts[n].id, MissingKey(r, hosts[n], 0))];
        case Some(k) =>
          members := Filed(members, k, hosts[n].id);
          hostZone := hostZone[hosts[n].id := k];
      }
    }
    assert hosts[..|hosts|] == hosts;
    var zones := SortedKeys(members.Keys);
    x := Index(zones, members, hostZone, unresolved);
  }

  lemma NothingIndexed(r: Rule, hosts: seq<HostRecord>)
    ensures MembersIndexed(map[], r, hosts[..0]) && ZonesIndexed(map[], r, hosts, 0)
  {}

  lemma DistinctIds(hosts: seq<HostRecord>)
    requires StrictlySorted(hosts)
    ensures forall i, j :: 0 <= i < j < |hosts| ==> hosts[i].id != hosts[j].id
  {
    forall i, j | 0 <= i < j < |hosts| ensures hosts[i].id != hosts[j].id {
      StrLtIrreflexive(hosts[i].id);
    }
  }

  /** The members of a set of strings, collected in any order and then sorted. */
  method SortedKeys(ks: set<string>) returns (s: seq<string>)
    ensures Increasing(s) && forall k :: k in s <==> k in ks
  {
    s := [];
    var todo := ks;
    while todo != {}
      invariant todo <= ks && Distinct(s)
      invariant forall k :: k in s <==> k in ks && k !in todo
    {
      var k :| k in todo;
      todo := todo - {k};
      s := s + [k];
    }
    SortIncreasing(s);
    s := Sort(s, StrLe);
  }

  lemma SortIncreasing(s: seq<string>)
    requires Distinct(s)
    ensures Increasing(Sort(s, StrLe)) && forall k :: k in Sort(s, StrLe) <==> k in s
  {
    var t := Sort(s, StrLe);
    StrLeTotalOrder();
    SortSorted(s, StrLe);
    SortDistinct(s, StrLe);
    forall k ensures k in t <==> k in s { assert k in Elems(t) <==> k in Elems(s); }
  }

  /** A strictly increasing list is determined by its elements. */
  lemma IncreasingUnique(s: seq<string>, t: seq<string>)
    requires Increasing(s) && Increasing(t) && forall k :: k in s <==> k in t
    ensures s == t
  {
    IncreasingDistinct(s);
    IncreasingDistinct(t);
    DistinctMultiset(s);
    DistinctMultiset(t);
    assert Elems(s) == Elems(t);
    StrLeTotalOrder();
    assert Sorted(s, StrLe) && Sorted(t, StrLe);
    SortedUnique(s, t, StrLe);
  }

  lemma IncreasingDistinct(s: seq<string>)
    requires Increasing(s)
    ensures Distinct(s)
  {
    forall i, j | 0 <= i < j < |s| ensures s[i] != s[j] { StrLtIrreflexive(s[i]); }
  }

  // ---------- what an index means ----------

  lemma {:induction false} MembersMeaning(r: Rule, hosts: seq<HostRecord>, z: string, id: string)
    ensures id in MembersOf(r, hosts, z) <==>
              exists i :: 0 <= i < |hosts| && hosts[i].id == id && ZoneOf(r, hosts[i]) == Some(z)
  {
    if |hosts| > 0 {
      hide ZoneOf;
      var n := |hosts| - 1;
      MembersMeaning(r, hosts[..n], z, id);
      assert forall i :: 0 <= i < n ==> hosts[..n][i] == hosts[i];
    }
  }

  lemma {:induction false} MembersIncreasing(r: Rule, hosts: seq<HostRecord>, z: string)
    requires StrictlySorted(hosts)
    ensures Increasing(MembersOf(r, hosts, z))
  {
    if |hosts| > 0 {
      hide ZoneOf;
      var n := |hosts| - 1;
      MembersIncreasing(r, hosts[..n], z);
      var m := MembersOf(r, hosts[..n], z);
      forall k | 0 <= k < |m| ensures StrLt(m[k], hosts[n].id) {
        assert m[k] in m;
        MembersMeaning(r, hosts[..n], z, m[k]);
        var i :| 0 <= i < n && hosts[..n][i].id == m[k];
        assert hosts[i].id == m[k];
      }
    }
  }

  lemma {:induction false} UnresolvedMeaning(r: Rule, hosts: seq<HostRecord>, id: string)
    ensures (exists u :: u in UnresolvedOf(r, hosts) && u.hostId == id)
            <==> exists i :: 0 <= i < |hosts| && hosts[i].id == id && ZoneOf(r, hosts[i]).None?
  {
    if |hosts| > 0 {
      hide ZoneOf, MissingKey;
      var n := |hosts| - 1;
      UnresolvedMeaning(r, hosts[..n], id);
      if u :| u in UnresolvedOf(r, hosts[..n]) && u.hostId == id { assert u in UnresolvedOf(r, hosts); }
      if ZoneOf(r, hosts[n]).None? && hosts[n].id == id {
        assert Unresolved(hosts[n].id, MissingKey(r, hosts[n], 0)) in UnresolvedOf(r, hosts);
      }
      assert forall i :: 0 <= i < n ==> hosts[..n][i] == hosts[i];
    }
  }

  /** Key j is the first one the host lacks. */
  ghost predicate FirstLacking(r: Rule, h: HostRecord, j: nat) {
    j < |r.keys| && !Has(h, r.keys[j].key) && forall n :: 0 <= n < j ==> Has(h, r.keys[n].key)
  }

  /** An unresolved host is listed with the first rule key it lacks. */
  ghost predicate ReasonFits(r: Rule, hosts: seq<HostRecord>, u: Unresolved, i: nat) {
    && i < |hosts| && hosts[i].id == u.hostId && r.missing == MissingExclude
    && exists j: nat :: FirstLacking(r, hosts[i], j) && u.missingKey == r.keys[j].key
  }

  lemma {:induction false} FirstLackingIs(r: Rule, h: HostRecord, i: nat)
    requires i <= |r.keys| && (forall n :: 0 <= n < i ==> Has(h, r.keys[n].key)) && LacksKey(r, h)
    ensures exists j: nat :: FirstLacking(r, h, j) && MissingKey(r, h, i) == r.keys[j].key
    decreases |r.keys| - i
  {
    if Lacks(h, r.keys[i]) { assert FirstLacking(r, h, i); } else { FirstLackingIs(r, h, i + 1); }
  }

  lemma {:induction false} UnresolvedReason(r: Rule, hosts: seq<HostRecord>, u: Unresolved)
    requires u in UnresolvedOf(r, hosts)
    ensures exists i: nat :: ReasonFits(r, hosts, u, i)
  {
    hide ZoneOf, MissingKey, FirstLacking;
    var n := |hosts| - 1;
    if u in UnresolvedOf(r, hosts[..n]) {
      UnresolvedReason(r, hosts[..n], u);
      var i: nat :| ReasonFits(r, hosts[..n], u, i);
      assert ReasonFits(r, hosts, u, i);
    } else {
      ZoneMeaning(r, hosts[n]);
      FirstLackingIs(r, hosts[n], 0);
      assert ReasonFits(r, hosts, u, n);
    }
  }

  /** The index partitions the snapshot: every host is a member of the one zone it is
      filed under, or it is unresolved; every member list is in canonical order. */
  lemma IndexPartitions(x: Index, r: Rule, snap: Snapshot, id: string)
    requires snap.Valid() && Indexes(x, r, snap.hosts)
    ensures id in snap.Ids() <==> id in x.hostZone || exists u :: u in x.unresolved && u.hostId == id
    ensures id in x.hostZone ==> !exists u :: u in x.unresolved && u.hostId == id
    ensures forall z :: z in x.members ==> (id in x.members[z] <==> id in x.hostZone && x.hostZone[id] == z)
    ensures id in x.hostZone ==> x.hostZone[id] in x.members
    ensures forall z :: z in x.members ==> Increasing(x.members[z])
  {
    var hosts := snap.hosts;
    hide ZoneOf;
    DistinctIds(hosts);
    UnresolvedMeaning(r, hosts, id);
    forall z
      ensures id in MembersOf(r, hosts, z) <==>
                exists i :: 0 <= i < |hosts| && hosts[i].id == id && ZoneOf(r, hosts[i]) == Some(z)
    {
      MembersMeaning(r, hosts, z, id);
    }
    forall z | z in x.members ensures Increasing(x.members[z]) { MembersIncreasing(r, hosts, z); }
    hide MembersOf, UnresolvedOf, Increasing;
    if id in snap.Ids() {
      var h :| h in hosts && h.id == id;
      var i :| 0 <= i < |hosts| && hosts[i] == h;
    }
    if id in x.hostZone {
      var i :| 0 <= i < |hosts| && hosts[i].id == id && ZoneOf(r, hosts[i]).Some?;
      assert hosts[i] in hosts;
      assert id in MembersOf(r, hosts, x.hostZone[id]);
    }
  }
}
