/** Host records and their merge into one canonical snapshot
    (internal/inventory/inventory.go). */
module Inventory {
  import opened Base

  datatype HostRecord = HostRecord(id: string, address: string, attributes: map<string, string>,
                                   source: string, healthy: bool, reason: string, priority: int)

  datatype HostSet = HostSet(source: string, hosts: seq<HostRecord>)

  /** An immutable merged view. */
  datatype Snapshot = Snapshot(hosts: seq<HostRecord>, byId: map<string, nat>, generation: nat, collisions: nat) {
    function Get(id: string): Option<HostRecord> {
      if id in byId && byId[id] < |hosts| then Some(hosts[byId[id]]) else None
    }
    /** Hosts in strictly increasing ID order, with an exact index. */
    ghost predicate Valid() {
      && StrictlySorted(hosts)
      && (forall id :: id in byId <==> exists i :: 0 <= i < |hosts| && hosts[i].id == id)
      && (forall id :: id in byId ==> byId[id] < |hosts| && hosts[byId[id]].id == id)
    }
    function Ids(): set<string> { set h | h in hosts :: h.id }
  }

  ghost predicate StrictlySorted(hosts: seq<HostRecord>) {
    forall i, j :: 0 <= i < j < |hosts| ==> StrLt(hosts[i].id, hosts[j].id)
  }

  predicate IdLe(x: HostRecord, y: HostRecord) { StrLe(x.id, y.id) }

  /** A record offered by some source. */
  ghost predicate Offered(sets: map<string, HostSet>, h: HostRecord) {
    exists n :: n in sets && h in sets[n].hosts
  }

  /** The number of records offered by a group of sources. */
  ghost function Total(sets: map<string, HostSet>, names: set<string>): nat
    requires names <= sets.Keys
  {
    if names == {} then 0
    else
      var n :| n in names;
      |sets[n].hosts| + Total(sets, names - {n})
  }

  lemma {:induction false} TotalAny(sets: map<string, HostSet>, names: set<string>, n: string)
    requires names <= sets.Keys && n in names
    ensures Total(sets, names) == |sets[n].hosts| + Total(sets, names - {n})
    decreases names
  {
    var m :| m in names && Total(sets, names) == |sets[m].hosts| + Total(sets, names - {m});
    if m != n {
      TotalAny(sets, names - {m}, n);
      TotalAny(sets, names - {n}, m);
      assert names - {m} - {n} == names - {n} - {m};
    }
  }

  /** One more record: kept when its ID is new or its priority is higher. */
  function Offer(byId: map<string, HostRecord>, h: HostRecord): map<string, HostRecord> {
    if h.id !in byId || h.priority > byId[h.id].priority then byId[h.id := h] else byId
  }

  /** The table after the records of a list, offered in order. */
  function Table(list: seq<HostRecord>): map<string, HostRecord> {
    if list == [] then map[] else Offer(Table(list[..|list| - 1]), list[|list| - 1])
  }

  function Records(sets: map<string, HostSet>, n: string): seq<HostRecord> {
    if n in sets then sets[n].hosts else []
  }

  /** The records of the sources, in the order in which the sources are visited. */
  function Gathered(sets: map<string, HostSet>, order: seq<string>): seq<HostRecord> {
    if order == [] then [] else Records(sets, order[0]) + Gathered(sets, order[1..])
  }

  /** An order that visits every source once. */
  ghost predicate Visits(sets: map<string, HostSet>, order: seq<string>) {
    Distinct(order) && Elems(order) == sets.Keys
  }

  /** The records of the table in ID order. */
  ghost predicate Listing(byId: map<string, HostRecord>, out: seq<HostRecord>) {
    StrictlySorted(out) && forall h :: h in out <==> h.id in byId && byId[h.id] == h
  }

  /** The result of a merge that visits the sources in some order. */
  ghost predicate MergeResult(sets: map<string, HostSet>, out: seq<HostRecord>) {
    exists order :: Visits(sets, order) && Listing(Table(Gathered(sets, order)), out)
  }

  /** The table names each record by its ID, keeps only records of the list, and keeps one
      of the highest priority. */
  ghost predicate Best(byId: map<string, HostRecord>, seen: set<HostRecord>) {
    && (forall id :: id in byId ==> byId[id].id == id && byId[id] in seen)
    && (forall h :: h in seen ==> h.id in byId && h.priority <= byId[h.id].priority)
  }

  /** A merge of all sources: sorted by ID, one record of the highest priority per ID. */
  ghost predicate IsMerge(sets: map<string, HostSet>, out: seq<HostRecord>) {
    && StrictlySorted(out)
    && (forall h :: h in out ==> Offered(sets, h))
    && (forall h {:trigger Covered(out, h)} :: Offered(sets, h) ==> Covered(out, h))
  }

  /** The output holds a record of this ID with at least this priority. */
  ghost predicate Covered(out: seq<HostRecord>, h: HostRecord) {
    exists g :: g in out && g.id == h.id && h.priority <= g.priority
  }

  /** Merges every source, visited in any order, and counts the collisions. */
  method Merge(sets: map<string, HostSet>) returns (out: seq<HostRecord>, collisions: nat)
    ensures MergeResult(sets, out) && IsMerge(sets, out)
    ensures |out| + collisions == Total(sets, sets.Keys)
  {
    hide Table, Gathered, Total, Distinct, StrictlySorted, IsMerge, MergeResult;
    var byId: map<string, HostRecord> := map[];
    collisions := 0;
    var todo := sets.Keys;
    ghost var order: seq<string> := [];
    NoneGathered(sets);
    while todo != {}
      invariant todo <= sets.Keys && Distinct(order) && Elems(order) == sets.Keys - todo
      invariant byId == Table(Gathered(sets, order))
      invariant |byId| + collisions + Total(sets, todo) == Total(sets, sets.Keys)
    {
      var n :| n in todo;
      TotalAny(sets, todo, n);
      var more: nat;
      byId, more := OfferAll(byId, sets[n].hosts, Gathered(sets, order));
      DistinctAppend(order, n);
      GatheredMore(sets, order, n);
      order := order + [n];
      collisions := collisions + more;
      todo := todo - {n};
    }
    TableBest(Gathered(sets, order));
    out := Values(byId);
    SortedValues(byId, out);
    out := Sort(out, IdLe);
    ItsResult(sets, order, out);
    ResultIsMerge(sets, out);
  }

  lemma NoneGathered(sets: map<string, HostSet>)
    ensures Table(Gathered(sets, [])) == map[] && Total(sets, {}) == 0 && Distinct<string>([])
  {}

  lemma ItsResult(sets: map<string, HostSet>, order: seq<string>, out: seq<HostRecord>)
    requires Visits(sets, order) && Listing(Table(Gathered(sets, order)), out)
    ensures MergeResult(sets, out)
  {}

  lemma {:induction false} GatheredMore(sets: map<string, HostSet>, order: seq<string>, n: string)
    ensures Gathered(sets, order + [n]) == Gathered(sets, order) + Records(sets, n)
  {
    if order != [] {
      GatheredMore(sets, order[1..], n);
      assert (order + [n])[1..] == order[1..] + [n];
    }
  }

  lemma {:induction false} GatheredIs(sets: map<string, HostSet>, order: seq<string>, h: HostRecord)
    ensures h in Gathered(sets, order) <==> exists n :: n in order && h in Records(sets, n)
  {
    if order != [] {
      GatheredIs(sets, order[1..], h);
      assert order == [order[0]] + order[1..];
    }
  }

  /** Offers the records of one source in order. */
  method OfferAll(start: map<string, HostRecord>, hosts: seq<HostRecord>, ghost before: seq<HostRecord>)
    returns (byId: map<string, HostRecord>, collisions: nat)
    requires start == Table(before)
    ensures byId == Table(before + hosts)
    ensures |byId| + collisions == |start| + |hosts|
  {
    hide Table;
    byId, collisions := start, 0;
    assert before + hosts[..0] == before;
    for i := 0 to |hosts|
      invariant byId == Table(before + hosts[..i])
      invariant |byId| + collisions == |start| + i
    {
      var h := hosts[i];
      TableMore(before + hosts[..i], h);
      assert before + hosts[..i + 1] == before + hosts[..i] + [h];
      if h.id in byId { collisions := collisions + 1; }
      byId := Offer(byId, h);
    }
    assert hosts[..|hosts|] == hosts;
  }

  lemma TableMore(list: seq<HostRecord>, h: HostRecord)
    ensures Table(list + [h]) == Offer(Table(list), h)
  {
    assert (list + [h])[..|list|] == list;
  }

  lemma {:induction false} TableBest(list: seq<HostRecord>)
    ensures Best(Table(list), Elems(list))
  {
    if list != [] {
      var rest, h := list[..|list| - 1], list[|list| - 1];
      TableBest(rest);
      OfferKeepsBest(Table(rest), Elems(rest), h);
      assert list == rest + [h];
      assert Elems(list) == Elems(rest) + {h};
    }
  }

  lemma OfferKeepsBest(byId: map<string, HostRecord>, seen: set<HostRecord>, h: HostRecord)
    requires Best(byId, seen)
    ensures Best(Offer(byId, h), seen + {h})
  {}

  /** The values of the table, in the arbitrary order of a map traversal. */
  method Values(byId: map<string, HostRecord>) returns (out: seq<HostRecord>)
    requires forall id :: id in byId ==> byId[id].id == id
    ensures |out| == |byId|
    ensures forall h :: h in out <==> h.id in byId && byId[h.id] == h
    ensures forall i, j :: 0 <= i < j < |out| ==> out[i].id != out[j].id
  {
    out := [];
    var todo := byId.Keys;
    while todo != {}
      invariant todo <= byId.Keys && |out| + |todo| == |byId|
      invariant forall h :: h in out <==> h.id in byId && h.id !in todo && byId[h.id] == h
      invariant forall i, j :: 0 <= i < j < |out| ==> out[i].id != out[j].id
    {
      var id :| id in todo;
      todo := todo - {id};
      out := out + [byId[id]];
    }
  }

  lemma SortedValues(byId: map<string, HostRecord>, out: seq<HostRecord>)
    requires forall i, j :: 0 <= i < j < |out| ==> out[i].id != out[j].id
    ensures var s := Sort(out, IdLe);
            StrictlySorted(s) && |s| == |out| && forall h :: h in s <==> h in out
  {
    var s := Sort(out, IdLe);
    IdLePreorder();
    SortSorted(out, IdLe);
    assert Distinct(out);
    SortDistinct(out, IdLe);
    SamePermutation(out, s);
    forall h ensures h in s <==> h in out { assert h in Elems(s) <==> h in Elems(out); }
    forall i, j | 0 <= i < j < |s| ensures StrLt(s[i].id, s[j].id) {
      assert s[i] in out && s[j] in out && s[i] != s[j];
      assert IdLe(s[i], s[j]);
    }
  }

  lemma IdLePreorder()
    ensures TotalPreorder(IdLe)
  {
    StrLeTotalOrder();
    forall x, y ensures IdLe(x, y) || IdLe(y, x) { assert StrLe(x.id, y.id) || StrLe(y.id, x.id); }
    forall x, y, z | IdLe(x, y) && IdLe(y, z) ensures IdLe(x, z) { assert StrLe(x.id, y.id) && StrLe(y.id, z.id); }
  }

  lemma GatheredOffered(sets: map<string, HostSet>, order: seq<string>, h: HostRecord)
    requires Visits(sets, order)
    ensures h in Gathered(sets, order) <==> Offered(sets, h)
  {
    GatheredIs(sets, order, h);
    assert forall n :: n in order <==> n in Elems(order);
  }

  lemma ResultIsMerge(sets: map<string, HostSet>, out: seq<HostRecord>)
    requires MergeResult(sets, out)
    ensures IsMerge(sets, out)
  {
    hide StrictlySorted, Visits, Table, Gathered, Offered;
    var order :| Visits(sets, order) && Listing(Table(Gathered(sets, order)), out);
    var byId := Table(Gathered(sets, order));
    TableBest(Gathered(sets, order));
    forall h ensures h in Gathered(sets, order) <==> Offered(sets, h) { GatheredOffered(sets, order, h); }
    forall h | Offered(sets, h) ensures Covered(out, h) { assert byId[h.id] in out; }
  }

  lemma MergeSorted(sets: map<string, HostSet>, out: seq<HostRecord>)
    requires IsMerge(sets, out)
    ensures StrictlySorted(out)
  {}

  /** An offered record that no record of the same ID outranks. */
  ghost predicate Top(sets: map<string, HostSet>, h: HostRecord) {
    Offered(sets, h) && forall g :: Offered(sets, g) && g.id == h.id ==> g.priority <= h.priority
  }

  /** No ID has two different records of the highest priority. */
  ghost predicate Untied(sets: map<string, HostSet>) {
    forall g, h :: Top(sets, g) && Top(sets, h) && g.id == h.id ==> g == h
  }

  /** Without ties at the top the merge is the same whatever order the sources are
      visited in. */
  lemma MergeDetermined(sets: map<string, HostSet>, x: seq<HostRecord>, y: seq<HostRecord>)
    requires Untied(sets) && IsMerge(sets, x) && IsMerge(sets, y)
    ensures x == y
  {
    forall h ensures h in x <==> h in y {
      if h in x { MergeTop(sets, x, y, h); }
      if h in y { MergeTop(sets, y, x, h); }
    }
    hide Untied;
    SortedById(x);
    SortedById(y);
    DistinctMultiset(x);
    DistinctMultiset(y);
    assert Elems(x) == Elems(y);
    SameIdOrder(x, y);
  }

  /** A merge holds top records only. */
  lemma MergedIsTop(sets: map<string, HostSet>, x: seq<HostRecord>, h: HostRecord)
    requires IsMerge(sets, x) && h in x
    ensures Top(sets, h)
  {
    SortedById(x);
    forall g | Offered(sets, g) && g.id == h.id ensures g.priority <= h.priority {
      assert Covered(x, g);
    }
  }

  lemma MergeTop(sets: map<string, HostSet>, x: seq<HostRecord>, y: seq<HostRecord>, h: HostRecord)
    requires Untied(sets) && IsMerge(sets, x) && IsMerge(sets, y) && h in x
    ensures h in y
  {
    MergedIsTop(sets, x, h);
    assert Offered(sets, h) && Covered(y, h);
    var g :| g in y && g.id == h.id && h.priority <= g.priority;
    MergedIsTop(sets, y, g);
    assert g == h;
  }

  // ---------- which visiting orders matter ----------

  /** The record of this ID that wins among a list: the first of the highest priority. */
  function Winner(list: seq<HostRecord>, id: string): Option<HostRecord> {
    if id in Table(list) then Some(Table(list)[id]) else None
  }

  /** Two sources whose first top records of one ID differ. */
  ghost predicate Rivals(sets: map<string, HostSet>, m: string, n: string, id: string) {
    var g, h := Winner(Records(sets, m), id), Winner(Records(sets, n), id);
    g.Some? && h.Some? && g != h && Top(sets, g.value) && Top(sets, h.value)
  }

  /** The merge is the same for every visiting order if and only if no two sources have
      different first top records of one ID. Equal priorities inside one source do no harm:
      there the first record listed always wins. */
  lemma MergeOrderExact(sets: map<string, HostSet>)
    ensures (forall x, y :: MergeResult(sets, x) && MergeResult(sets, y) ==> x == y) <==>
              !exists m, n, id :: Rivals(sets, m, n, id)
  {
    hide MergeResult, Rivals;
    if m, n, id :| Rivals(sets, m, n, id) {
      var x, y := RivalResults(sets, m, n, id);
    } else {
      forall x, y | MergeResult(sets, x) && MergeResult(sets, y) ensures x == y { SameResult(sets, x, y); }
    }
  }

  /** A later record wins only by a higher priority. */
  function Beat(x: Option<HostRecord>, y: Option<HostRecord>): Option<HostRecord> {
    if x.None? then y else if y.None? || y.value.priority <= x.value.priority then x else y
  }

  lemma WinnerMore(list: seq<HostRecord>, h: HostRecord, id: string)
    ensures Winner(list + [h], id) == if h.id == id then Beat(Winner(list, id), Some(h)) else Winner(list, id)
  {
    hide Table;
    TableMore(list, h);
    TableBest(list);
  }

  /** The winner of two lists is the better of their winners, the first at equal priority. */
  lemma {:induction false} WinnerConcat(x: seq<HostRecord>, y: seq<HostRecord>, id: string)
    ensures Winner(x + y, id) == Beat(Winner(x, id), Winner(y, id))
  {
    if y == [] {
      assert x + y == x;
    } else {
      var rest, h := y[..|y| - 1], y[|y| - 1];
      hide Winner;
      WinnerConcat(x, rest, id);
      WinnerMore(x + rest, h, id);
      WinnerMore(rest, h, id);
      assert x + y == x + rest + [h] && y == rest + [h];
    }
  }

  lemma WinnerIs(list: seq<HostRecord>, id: string)
    ensures Winner(list, id).Some? ==> Winner(list, id).value in list && Winner(list, id).value.id == id
    ensures forall h :: h in list && h.id == id ==>
              Winner(list, id).Some? && h.priority <= Winner(list, id).value.priority
  {
    hide Table;
    TableBest(list);
  }

  /** The winner over all sources is the winner of some source. */
  lemma {:induction false} WinnerSource(sets: map<string, HostSet>, order: seq<string>, id: string)
    requires Winner(Gathered(sets, order), id).Some?
    ensures exists n :: n in order && Winner(Records(sets, n), id) == Winner(Gathered(sets, order), id)
  {
    hide Winner;
    if order == [] {
      WinnerIs([], id);
    } else {
      WinnerConcat(Records(sets, order[0]), Gathered(sets, order[1..]), id);
      if Winner(Gathered(sets, order), id) != Winner(Records(sets, order[0]), id) {
        WinnerSource(sets, order[1..], id);
      }
    }
  }

  lemma WinnerTop(sets: map<string, HostSet>, order: seq<string>, id: string)
    requires Visits(sets, order)
    ensures Winner(Gathered(sets, order), id).Some? ==> Top(sets, Winner(Gathered(sets, order), id).value)
    ensures forall h :: Offered(sets, h) && h.id == id ==> Winner(Gathered(sets, order), id).Some?
  {
    hide Winner, Visits, Gathered, Offered;
    WinnerIs(Gathered(sets, order), id);
    forall h ensures h in Gathered(sets, order) <==> Offered(sets, h) { GatheredOffered(sets, order, h); }
  }

  lemma SameWinner(sets: map<string, HostSet>, p: seq<string>, q: seq<string>, id: string)
    requires Visits(sets, p) && Visits(sets, q) && !exists m, n :: Rivals(sets, m, n, id)
    ensures Winner(Gathered(sets, p), id) == Winner(Gathered(sets, q), id)
  {
    hide Visits, Winner, Gathered, Records;
    WinnerTop(sets, p, id);
    WinnerTop(sets, q, id);
    WinnerIs(Gathered(sets, p), id);
    WinnerIs(Gathered(sets, q), id);
    if Winner(Gathered(sets, p), id).Some? && Winner(Gathered(sets, q), id).Some? {
      WinnerSource(sets, p, id);
      WinnerSource(sets, q, id);
      var m :| m in p && Winner(Records(sets, m), id) == Winner(Gathered(sets, p), id);
      var n :| n in q && Winner(Records(sets, n), id) == Winner(Gathered(sets, q), id);
      assert !Rivals(sets, m, n, id);
    }
  }

  lemma SameResult(sets: map<string, HostSet>, x: seq<HostRecord>, y: seq<HostRecord>)
    requires MergeResult(sets, x) && MergeResult(sets, y) && !exists m, n, id :: Rivals(sets, m, n, id)
    ensures x == y
  {
    hide Visits, Gathered, Listing, Rivals, Table;
    var p :| Visits(sets, p) && Listing(Table(Gathered(sets, p)), x);
    var q :| Visits(sets, q) && Listing(Table(Gathered(sets, q)), y);
    forall id ensures Winner(Gathered(sets, p), id) == Winner(Gathered(sets, q), id) {
      SameWinner(sets, p, q, id);
    }
    SameTable(Gathered(sets, p), Gathered(sets, q));
    SameListing(Table(Gathered(sets, p)), x, y);
  }

  lemma SameTable(x: seq<HostRecord>, y: seq<HostRecord>)
    requires forall id :: Winner(x, id) == Winner(y, id)
    ensures Table(x) == Table(y)
  {
    hide Table;
    forall id ensures id in Table(x) <==> id in Table(y) && (id in Table(x) ==> Table(x)[id] == Table(y)[id]) {
      assert Winner(x, id) == Winner(y, id);
    }
  }

  lemma SameListing(byId: map<string, HostRecord>, x: seq<HostRecord>, y: seq<HostRecord>)
    requires Listing(byId, x) && Listing(byId, y)
    ensures x == y
  {
    SortedById(x);
    SortedById(y);
    DistinctMultiset(x);
    DistinctMultiset(y);
    assert Elems(x) == Elems(y);
    SameIdOrder(x, y);
  }

  lemma OneMoreListed(byId: map<string, HostRecord>, id: string, rest: seq<HostRecord>)
    requires id in byId && byId[id].id == id && Listing(byId - {id}, rest)
    ensures Listing(byId, Sort([byId[id]] + rest, IdLe))
  {
    hide Sort, StrictlySorted;
    SortedById(rest);
    forall i, j | 0 <= i < j < |rest| + 1 ensures ([byId[id]] + rest)[i].id != ([byId[id]] + rest)[j].id {
      assert i > 0 ==> rest[i - 1] != rest[j - 1] && rest[i - 1] in rest;
      assert rest[j - 1] in rest;
    }
    SortedValues(byId, [byId[id]] + rest);
  }

  lemma {:induction false} ListingExists(byId: map<string, HostRecord>) returns (out: seq<HostRecord>)
    requires forall id :: id in byId ==> byId[id].id == id
    ensures Listing(byId, out)
    decreases |byId|
  {
    if byId == map[] {
      out := [];
    } else {
      var id :| id in byId;
      hide Listing;
      var rest := ListingExists(byId - {id});
      OneMoreListed(byId, id, rest);
      out := Sort([byId[id]] + rest, IdLe);
    }
  }

  lemma {:induction false} Enumerate(s: set<string>) returns (q: seq<string>)
    ensures Distinct(q) && Elems(q) == s
  {
    if s == {} {
      q := [];
    } else {
      var n :| n in s;
      q := Enumerate(s - {n});
      DistinctAppend(q, n);
      q := q + [n];
    }
  }

  /** An order that visits a source with a top winner first ends with that winner. */
  lemma FirstWins(sets: map<string, HostSet>, m: string, id: string) returns (out: seq<HostRecord>)
    requires Winner(Records(sets, m), id).Some? && Top(sets, Winner(Records(sets, m), id).value)
    ensures MergeResult(sets, out) && Winner(Records(sets, m), id).value in out
  {
    WinnerIs(Records(sets, m), id);
    var rest := Enumerate(sets.Keys - {m});
    var order := [m] + rest;
    DistinctConcat([m], rest);
    assert Visits(sets, order);
    hide Visits, Winner;
    WinnerConcat(Records(sets, m), Gathered(sets, rest), id);
    assert order[1..] == rest;
    WinnerIs(Gathered(sets, rest), id);
    hide Gathered;
    if Winner(Gathered(sets, rest), id).Some? { RestOffered(sets, rest, Winner(Gathered(sets, rest), id).value); }
    TableBest(Gathered(sets, order));
    hide Table;
    out := ListingExists(Table(Gathered(sets, order)));
    WinnerListed(Gathered(sets, order), id, out);
  }

  lemma RestOffered(sets: map<string, HostSet>, rest: seq<string>, h: HostRecord)
    requires h in Gathered(sets, rest)
    ensures Offered(sets, h)
  {
    GatheredIs(sets, rest, h);
  }

  lemma WinnerListed(list: seq<HostRecord>, id: string, out: seq<HostRecord>)
    requires Winner(list, id).Some? && Listing(Table(list), out)
    ensures Winner(list, id).value in out
  {
    TableBest(list);
  }

  lemma RivalResults(sets: map<string, HostSet>, m: string, n: string, id: string)
    returns (x: seq<HostRecord>, y: seq<HostRecord>)
    requires Rivals(sets, m, n, id)
    ensures MergeResult(sets, x) && MergeResult(sets, y) && x != y
  {
    hide MergeResult, Winner, Top;
    WinnerIs(Records(sets, m), id);
    WinnerIs(Records(sets, n), id);
    x := FirstWins(sets, m, id);
    y := FirstWins(sets, n, id);
    ResultIsMerge(sets, x);
    MergeSorted(sets, x);
    SortedById(x);
  }

  lemma SortedById(x: seq<HostRecord>)
    requires StrictlySorted(x)
    ensures Distinct(x) && forall g, h :: g in x && h in x && g.id == h.id ==> g == h
  {
    forall i, j | 0 <= i < |x| && 0 <= j < |x| && x[i].id == x[j].id ensures i == j {
      StrLtIrreflexive(x[i].id);
    }
  }

  lemma SameHead(x: seq<HostRecord>, y: seq<HostRecord>)
    requires StrictlySorted(x) && StrictlySorted(y) && |x| == |y| > 0 && Elems(x) == Elems(y)
    ensures x[0] == y[0]
  {
    assert x[0] in Elems(y) && y[0] in Elems(x);
    var i :| 0 <= i < |y| && y[i] == x[0];
    var j :| 0 <= j < |x| && x[j] == y[0];
    if i > 0 && j > 0 {
      StrLtTransitive(x[0].id, y[0].id, x[0].id);
      StrLtIrreflexive(x[0].id);
    }
  }

  lemma {:induction false} SameIdOrder(x: seq<HostRecord>, y: seq<HostRecord>)
    requires StrictlySorted(x) && StrictlySorted(y) && multiset(x) == multiset(y)
    ensures x == y
  {
    SamePermutation(x, y);
    if |x| > 0 {
      SameHead(x, y);
      SameTail(x, y);
      StrictTail(x);
      StrictTail(y);
      hide StrictlySorted;
      SameIdOrder(x[1..], y[1..]);
      assert x == [x[0]] + x[1..] && y == [y[0]] + y[1..];
    }
  }

  lemma StrictTail(x: seq<HostRecord>)
    requires |x| > 0 && StrictlySorted(x)
    ensures StrictlySorted(x[1..])
  {}

  /** With a tie it is not: the first record seen wins. */
  lemma TieDependsOnOrder()
    ensures var g := HostRecord("h", "1", map[], "file", true, "", 10);
            var h := HostRecord("h", "2", map[], "http", true, "", 10);
            Offer(Offer(map[], g), h)["h"] == g && Offer(Offer(map[], h), g)["h"] == h && g != h
  {
    assert "1" != "2";
  }

  // ---------- the store ----------

  /** The provider sets and the cached merged view. */
  class Store {
    var sets: map<string, HostSet>
    var gen: nat
    var snap: Option<Snapshot>

    /** A cached view is the result of a merge of the current sets. */
    ghost predicate Valid()
      reads this
    {
      snap.Some? ==> MergeResult(sets, snap.value.hosts) && snap.value.Valid() && snap.value.generation == gen
                     && |snap.value.hosts| + snap.value.collisions == Total(sets, sets.Keys)
    }

    constructor ()
      ensures Valid() && sets == map[] && gen == 0 && snap == None
    {
      sets, gen, snap := map[], 0, None;
    }

    method Replace(s: HostSet)
      requires Valid()
      modifies this
      ensures Valid() && sets == old(sets)[s.source := s] && gen == old(gen) + 1 && snap == None
    {
      sets, gen, snap := sets[s.source := s], gen + 1, None;
    }

    method Remove(source: string)
      requires Valid()
      modifies this
      ensures Valid() && sets == old(sets) - {source}
      ensures source !in old(sets) ==> gen == old(gen) && snap == old(snap)
      ensures source in old(sets) ==> gen == old(gen) + 1 && snap == None
    {
      if source !in sets {
        assert sets == sets - {source};
        return;
      }
      sets, gen, snap := sets - {source}, gen + 1, None;
    }

    /** The merged view of the current sets, built once per generation. */
    method View() returns (v: Snapshot)
      requires Valid()
      modifies this
      ensures Valid() && sets == old(sets) && gen == old(gen) && snap == Some(v)
      ensures old(snap).Some? ==> v == old(snap).value
    {
      if snap.Some? { return snap.value; }
      hide IsMerge, MergeResult, Total;
      var hosts, collisions := Merge(sets);
      MergeSorted(sets, hosts);
      hide StrictlySorted;
      var byId: map<string, nat> := map[];
      for i := 0 to |hosts|
        invariant forall id :: id in byId <==> exists j :: 0 <= j < i && hosts[j].id == id
        invariant forall id :: id in byId ==> byId[id] < i && hosts[byId[id]].id == id
      {
        byId := byId[hosts[i].id := i];
      }
      v := Snapshot(hosts, byId, gen, collisions);
      snap := Some(v);
    }
  }
}
