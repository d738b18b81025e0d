/** The probe tasks of one node: which tasks a node wants for a state, and how the running
    task set follows (internal/runner/runner.go). */
module TaskRunner {
  import opened Base
  import opened Slots
  import opened Tables
  import opened Windows

  datatype Kind = ICMP | UDP | TCP

  datatype Params = Params(kind: Kind, count: int, interval: Time, timeout: Time, payloadBytes: int, port: int,
                           mode: string, ttl: int, df: bool)

  datatype Probe = Probe(enabled: bool, params: Params)

  datatype ProbeConfig = ProbeConfig(icmp: Probe, udp: Probe, tcp: Probe, window: Time) {
    function Of(kind: Kind): Probe {
      match kind case ICMP => icmp case UDP => udp case TCP => tcp
    }
  }

  /** What one node knows: its own name, the probe settings, the addresses in its snapshot
      and the dial string of an address and a port. */
  datatype Node = Node(id: string, cfg: ProbeConfig, addresses: map<string, string>, dial: (string, int) -> string)

  datatype TaskKey = TaskKey(pairing: string, slot: int, kind: Kind, forward: bool)

  datatype TaskV = TaskV(key: TaskKey, src: string, dst: string, address: string, port: int,
                         zoneSrc: string, zoneDst: string, cls: Class, rank: Rank, params: Params)

  /** The settings of one kind; an ICMP probe has no port. */
  function ParamsOf(cfg: ProbeConfig, kind: Kind): (Params, int) {
    var p := cfg.Of(kind).params.(kind := kind);
    match kind
    case ICMP => (p.(port := 0, mode := ""), 0)
    case UDP => (p.(mode := "", ttl := 0, df := false), p.port)
    case TCP => (p.(ttl := 0, df := false), p.port)
  }

  /** What a task measures; a change of it restarts it. */
  function Ident(dial: (string, int) -> string, src: string, dst: string, address: string, port: int): string {
    src + ">" + dst + "@" + dial(address, port)
  }

  /** `b` goes on past `a` with the character, and `x` makes up for it. */
  predicate Overruns(c: char, a: string, x: string, b: string, y: string) {
    |a| < |b| && b[..|a|] == a && b[|a|] == c && x == b[|a| + 1..] + [c] + y
  }

  /** When two joined strings are equal. */
  lemma JoinTells(c: char, a: string, x: string, b: string, y: string)
    ensures a + [c] + x == b + [c] + y
            <==> (a == b && x == y) || Overruns(c, a, x, b, y) || Overruns(c, b, y, a, x)
  {
    JoinOverruns(c, a, x, b, y);
    JoinOverruns(c, b, y, a, x);
    hide Overruns;
  }

  lemma JoinOverruns(c: char, a: string, x: string, b: string, y: string)
    ensures |a| < |b| ==> (a + [c] + x == b + [c] + y <==> Overruns(c, a, x, b, y))
    ensures |a| == |b| ==> (a + [c] + x == b + [c] + y <==> a == b && x == y)
    ensures |b| <= |a| ==> !Overruns(c, a, x, b, y)
  {
    var l, r := a + [c] + x, b + [c] + y;
    if |a| < |b| {
      if l == r {
        assert l[|a|] == c && r[|a|] == b[|a|];
        assert b[..|a|] == r[..|a|] == l[..|a|] == a;
        assert x == l[|a| + 1..] == r[|a| + 1..] == b[|a| + 1..] + [c] + y;
      }
      if Overruns(c, a, x, b, y) {
        assert b == a + [c] + b[|a| + 1..];
        assert l == r;
      }
    } else if |a| == |b| && l == r {
      assert a == l[..|a|] == r[..|b|] == b;
      assert x == l[|a| + 1..] == r[|b| + 1..] == y;
    }
  }

  /** The tasks of one node are told apart by their target and its dial string, unless the name
      of one target goes on past the other with '@' and the dial string makes up for it. */
  lemma IdentExact(dial: (string, int) -> string, src: string, d: string, a: string, p: int, e: string, b: string,
                   q: int)
    ensures Ident(dial, src, d, a, p) == Ident(dial, src, e, b, q) <==>
              || (d == e && dial(a, p) == dial(b, q))
              || Overruns('@', d, dial(a, p), e, dial(b, q)) || Overruns('@', e, dial(b, q), d, dial(a, p))
  {
    var x, y := d + "@" + dial(a, p), e + "@" + dial(b, q);
    assert Ident(dial, src, d, a, p) == src + ['>'] + x && Ident(dial, src, e, b, q) == src + ['>'] + y;
    JoinTells('>', src, x, src, y);
    JoinTells('@', d, dial(a, p), e, dial(b, q));
    hide Ident;
  }

  /** A task between these hosts is told apart from every other such task. */
  predicate ClearNames(src: string, dst: string) { '>' !in src && '@' !in dst }

  /** The same endpoints and the same dial string. */
  lemma IdentTells(dial: (string, int) -> string, s: string, d: string, a: string, p: int, t: string, e: string,
                   b: string, q: int)
    requires ClearNames(s, d) && ClearNames(t, e)
    ensures Ident(dial, s, d, a, p) == Ident(dial, t, e, b, q) <==> s == t && d == e && dial(a, p) == dial(b, q)
  {
    var x, y := d + "@" + dial(a, p), e + "@" + dial(b, q);
    assert Ident(dial, s, d, a, p) == s + ['>'] + x && Ident(dial, t, e, b, q) == t + ['>'] + y;
    JoinTells('>', s, x, t, y);
    JoinTells('@', d, dial(a, p), e, dial(b, q));
    hide Ident;
  }

  function SourceSide(forward: bool): Side { if forward then SideA else SideB }

  function Source(s: Slot, forward: bool): string { s.Host(SourceSide(forward)) }

  function Target(s: Slot, forward: bool): string { s.Host(SourceSide(!forward)) }

  /** The node is the source of this direction and can address its target. */
  predicate Sends(n: Node, s: Slot, forward: bool) {
    s.Filled() && Source(s, forward) == n.id && Target(s, forward) in n.addresses
  }

  function TaskOf(n: Node, key: string, p: PairingV, s: Slot, kind: Kind, forward: bool): TaskV
    requires Sends(n, s, forward)
  {
    var (params, port) := ParamsOf(n.cfg, kind);
    TaskV(TaskKey(key, s.index, kind, forward), Source(s, forward), Target(s, forward),
      n.addresses[Target(s, forward)], port,
          p.Zone(SourceSide(forward)), p.Zone(SourceSide(!forward)), s.cls, s.Seat(SourceSide(forward)).rank, params)
  }

  /** The probe task that slot s of a pairing contributes under a key, if it does. */
  function SlotTask(n: Node, p: PairingV, s: Slot, k: TaskKey): (t: Option<TaskV>)
    ensures t.Some? ==> t.value.key == k
  {
    if k.slot == s.index && Sends(n, s, k.forward) && n.cfg.Of(k.kind).enabled
    then Some(TaskOf(n, k.pairing, p, s, k.kind, k.forward)) else None
  }

  /** A later slot with the same index hides an earlier one. */
  function SlotsTask(n: Node, p: PairingV, slots: seq<Slot>, k: TaskKey): (t: Option<TaskV>)
    ensures t.Some? ==> t.value.key == k
  {
    if |slots| == 0 then None
    else
      var last := SlotTask(n, p, slots[|slots| - 1], k);
      if last.Some? then last else SlotsTask(n, p, slots[..|slots| - 1], k)
  }

  /** The probe task a node wants under a key. */
  function Wants(n: Node, st: map<string, PairingV>, k: TaskKey): (t: Option<TaskV>)
    ensures t.Some? ==> t.value.key == k
  {
    if k.pairing in st && st[k.pairing].Active() then SlotsTask(n, st[k.pairing], st[k.pairing].slots, k) else None
  }

  // ---------- coverage ----------

  /** Every slot is numbered by its position. */
  ghost predicate Numbered(p: PairingV) {
    forall i :: 0 <= i < |p.slots| ==> p.slots[i].index == i
  }

  lemma {:induction false} SlotsTaskIs(n: Node, p: PairingV, slots: seq<Slot>, k: TaskKey)
    requires forall i :: 0 <= i < |slots| ==> slots[i].index == i
    ensures SlotsTask(n, p, slots, k) == if 0 <= k.slot < |slots| then SlotTask(n, p, slots[k.slot], k) else None
  {
    if |slots| > 0 { SlotsTaskIs(n, p, slots[..|slots| - 1], k); }
  }

  /** A node wants a task under a key exactly when the pairing is active, the slot is there
      and filled, the kind is enabled, the node is the source and it can address the target. */
  lemma WantedExact(n: Node, st: map<string, PairingV>, k: TaskKey)
    requires k.pairing in st ==> Numbered(st[k.pairing])
    ensures Wants(n, st, k).Some? <==>
              && k.pairing in st && st[k.pairing].Active() && 0 <= k.slot < |st[k.pairing].slots|
                   && n.cfg.Of(k.kind).enabled
              && Sends(n, st[k.pairing].slots[k.slot], k.forward)
  {
    if k.pairing in st { SlotsTaskIs(n, st[k.pairing], st[k.pairing].slots, k); }
  }

  /** Uncoordinated coverage: when every node holds the same numbered state and a snapshot
      with both ends, each direction and enabled kind of each filled slot of an active
      pairing is wanted by the node of its source host and by no other node. */
  lemma Coverage(n: Node, st: map<string, PairingV>, k: TaskKey)
    requires k.pairing in st && st[k.pairing].Active() && Numbered(st[k.pairing]) && 0 <= k.slot < |st[k.pairing].slots|
    requires st[k.pairing].slots[k.slot].Filled() && n.cfg.Of(k.kind).enabled
    requires st[k.pairing].slots[k.slot].a.host in n.addresses && st[k.pairing].slots[k.slot].b.host in n.addresses
    ensures var s := st[k.pairing].slots[k.slot];
            && (Wants(n, st, k).Some? <==> n.id == Source(s, k.forward))
            && (Wants(n, st, k).Some? ==>
                 var t := Wants(n, st, k).value;
                 t.key == k && t.src == Source(s, k.forward) && t.dst == Target(s, k.forward)
                 && t.dst == Source(s, !k.forward) && t.address == n.addresses[t.dst])
  {
    WantedExact(n, st, k);
    SlotsTaskIs(n, st[k.pairing], st[k.pairing].slots, k);
  }

  /** What a wanted task is, field by field: from the host, the zone and the rank of its source
      side to the host and the zone of the other one, at the address of the target, with the
      settings of its kind. */
  lemma TaskMeans(n: Node, st: map<string, PairingV>, k: TaskKey)
    requires Wants(n, st, k).Some? && Numbered(st[k.pairing])
    ensures 0 <= k.slot < |st[k.pairing].slots|
    ensures var t, p, s := Wants(n, st, k).value, st[k.pairing], st[k.pairing].slots[k.slot];
            && (if k.forward then
                  && t.src == s.a.host && t.zoneSrc == p.zoneA && t.rank == s.a.rank
                  && t.dst == s.b.host && t.zoneDst == p.zoneB
                else
                  && t.src == s.b.host && t.zoneSrc == p.zoneB && t.rank == s.b.rank
                  && t.dst == s.a.host && t.zoneDst == p.zoneA)
            && t.src == n.id && t.cls == s.cls && t.dst in n.addresses && t.address == n.addresses[t.dst]
    ensures var t := Wants(n, st, k).value;
            SettingsOf(n.cfg, k.kind, t.params, t.port)
  {
    SlotsTaskIs(n, st[k.pairing], st[k.pairing].slots, k);
  }

  /** The settings of a kind: one for ICMP has no port and no mode, one for UDP no mode, and
      only one for ICMP sets the hop limit and the fragment bit. */
  predicate SettingsOf(cfg: ProbeConfig, kind: Kind, p: Params, port: int) {
    var of := if kind == ICMP then cfg.icmp.params else if kind == UDP then cfg.udp.params else cfg.tcp.params;
    && p.kind == kind && p.count == of.count && p.interval == of.interval && p.timeout == of.timeout
    && p.payloadBytes == of.payloadBytes
    && p.port == port && port == (if kind == ICMP then 0 else of.port)
    && p.mode == (if kind == TCP then of.mode else "")
    && (if kind == ICMP then p.ttl == of.ttl && p.df == of.df else p.ttl == 0 && !p.df)
  }

  // ---------- what a node wants ----------

  /** The enabled kinds in order. */
  method Kinds(cfg: ProbeConfig) returns (kinds: seq<Kind>)
    ensures forall k :: k in kinds <==> cfg.Of(k).enabled
  {
    kinds := [];
    if cfg.icmp.enabled { kinds := kinds + [ICMP]; }
    if cfg.udp.enabled { kinds := kinds + [UDP]; }
    if cfg.tcp.enabled { kinds := kinds + [TCP]; }
  }

  function Found(m: map<TaskKey, TaskV>, k: TaskKey): Option<TaskV> {
    if k in m then Some(m[k]) else None
  }

  /** Adds the probe tasks of one direction of one slot, one for each kind. */
  method AddDirection(n: Node, key: string, p: PairingV, s: Slot, forward: bool, kinds: seq<Kind>, start: map<TaskKey,
                      TaskV>)
    returns (out: map<TaskKey, TaskV>)
    requires Sends(n, s, forward)
    ensures forall k :: Found(out, k) ==
              if k.pairing == key && k.slot == s.index && k.forward == forward && k.kind in kinds
                                          then Some(TaskOf(n, key, p, s, k.kind, forward)) else Found(start, k)
  {
    out := start;
    for i := 0 to |kinds|
      invariant forall k :: Found(out, k) ==
                  if k.pairing == key && k.slot == s.index && k.forward == forward && k.kind in kinds[..i]
                                              then Some(TaskOf(n, key, p, s, k.kind, forward)) else Found(start, k)
    {
      var v := TaskOf(n, key, p, s, kinds[i], forward);
      out := out[v.key := v];
    }
  }

  /** Adds the probe tasks of one slot, both directions. */
  method AddSlot(n: Node, key: string, p: PairingV, s: Slot, kinds: seq<Kind>, start: map<TaskKey, TaskV>)
    returns (out: map<TaskKey, TaskV>)
    requires forall k :: k in kinds <==> n.cfg.Of(k).enabled
    ensures forall k :: Found(out, k) ==
              if k.pairing == key && SlotTask(n, p, s, k).Some? then SlotTask(n, p, s, k) else Found(start, k)
  {
    hide TaskOf, ParamsOf;
    out := start;
    if !s.Filled() { return; }
    if Source(s, true) == n.id && Target(s, true) in n.addresses {
      out := AddDirection(n, key, p, s, true, kinds, out);
    }
    if Source(s, false) == n.id && Target(s, false) in n.addresses {
      out := AddDirection(n, key, p, s, false, kinds, out);
    }
  }

  /** Adds the probe tasks of one active pairing. */
  method AddPairing(n: Node, key: string, p: PairingV, kinds: seq<Kind>, start: map<TaskKey, TaskV>)
    returns (out: map<TaskKey, TaskV>)
    requires forall k :: k in kinds <==> n.cfg.Of(k).enabled
    requires forall k :: k in start ==> k.pairing != key
    ensures forall k :: Found(out, k) == if k.pairing == key then SlotsTask(n, p, p.slots, k) else Found(start, k)
  {
    hide SlotTask;
    out := start;
    for i := 0 to |p.slots|
      invariant forall k :: Found(out, k) ==
                  if k.pairing == key then SlotsTask(n, p, p.slots[..i], k) else Found(start, k)
    {
      assert p.slots[..i + 1][..i] == p.slots[..i];
      out := AddSlot(n, key, p, p.slots[i], kinds, out);
    }
    assert p.slots[..|p.slots|] == p.slots;
  }

  /** The probe tasks this node wants for a state, visited in map order. */
  method Desired(n: Node, st: map<string, PairingV>) returns (out: map<TaskKey, TaskV>)
    ensures forall k :: Found(out, k) == Wants(n, st, k)
  {
    hide SlotsTask;
    var kinds := Kinds(n.cfg);
    out := map[];
    var todo := st.Keys;
    while todo != {}
      invariant todo <= st.Keys
      invariant forall k :: Found(out, k) == if k.pairing in todo then None else Wants(n, st, k)
    {
      var key :| key in todo;
      if st[key].Active() {
        forall k | k in out ensures k.pairing != key { assert Found(out, k).Some?; }
        out := AddPairing(n, key, st[key], kinds, out);
      }
      todo := todo - {key};
    }
  }

  // ---------- running tasks ----------

  /** A running task. Only its labels change while it runs. */
  class Task {
    const key: TaskKey
    const src: string
    const dst: string
    const address: string
    const port: int
    const zoneSrc: string
    const zoneDst: string
    const params: Params
    const window: Window
    var cls: Class
    var rank: Rank

    constructor (v: TaskV, d: Time)
      ensures Started(v) && fresh(window) && window.Valid() && window.allSamples == []
    {
      key, src, dst, address, port := v.key, v.src, v.dst, v.address, v.port;
      zoneSrc, zoneDst, params, cls, rank := v.zoneSrc, v.zoneDst, v.params, v.cls, v.rank;
      window := new Window(d);
    }

    /** It measures what the wanted one asks for, under the same labels. */
    ghost predicate Started(v: TaskV)
      reads this
    {
      && key == v.key && src == v.src && dst == v.dst && address == v.address && port == v.port
      && zoneSrc == v.zoneSrc && zoneDst == v.zoneDst && params == v.params && cls == v.cls && rank == v.rank
    }

    /** It runs between these hosts, dials the same string and has the same settings. */
    predicate Probes(dial: (string, int) -> string, v: TaskV) {
      src == v.src && dst == v.dst && dial(address, port) == dial(v.address, v.port) && params == v.params
    }

    lemma SameTells(dial: (string, int) -> string, v: TaskV)
      requires ClearNames(src, dst) && ClearNames(v.src, v.dst)
      ensures Same(dial, v) == Probes(dial, v)
    {
      IdentTells(dial, src, dst, address, port, v.src, v.dst, v.address, v.port);
      hide Ident;
    }

    /** Same endpoints and same settings: no restart is needed. */
    predicate Same(dial: (string, int) -> string, v: TaskV) {
      Ident(dial, src, dst, address, port) == Ident(dial, v.src, v.dst, v.address, v.port) && params == v.params
    }
  }

  /** The probe tasks of one node. */
  class Runner {
    const probers: set<Kind>
    var tasks: map<TaskKey, Task>
    var ready: bool

    /** Every task sits under its own key and has a prober. */
    ghost predicate Valid()
      reads this
    {
      forall k :: k in tasks ==> tasks[k].key == k && k.kind in probers
    }

    constructor (probers: set<Kind>)
      ensures this.probers == probers && tasks == map[] && !ready && Valid()
    {
      this.probers, tasks, ready := probers, map[], false;
    }

    /** The first half of Run: from now on states are applied. */
    method Begin()
      requires Valid()
      modifies this`ready
      ensures ready && Valid() && tasks == old(tasks)
    {
      ready := true;
    }

    /** The second half of Run: every task is stopped. */
    method Shutdown()
      requires Valid()
      modifies this`tasks
      ensures Valid() && tasks == map[] && ready == old(ready)
    {
      StopAll(tasks.Keys);
      assert tasks.Keys == {};
    }

    /** The probe task under k goes on: it is wanted, with the same endpoints and settings. */
    ghost predicate GoesOn(node: Node, old_: map<TaskKey, Task>, want: map<TaskKey, TaskV>, k: TaskKey) {
      k in old_ && k in want && old_[k].Same(node.dial, want[k])
    }

    /** For clear names the task under k measures what is wanted there, and it is the one that
        ran before exactly when that one measured it already. */
    ghost predicate Right(was: map<TaskKey, Task>, dial: (string, int) -> string, k: TaskKey, v: TaskV)
      requires k in tasks
      reads this, tasks.Values
    {
      (k in was ==> ClearNames(was[k].src, was[k].dst)) && ClearNames(v.src, v.dst) ==>
        && tasks[k].Probes(dial, v) && tasks[k].cls == v.cls && tasks[k].rank == v.rank
        && (k in was ==> (tasks[k] == was[k] <==> was[k].Probes(dial, v)))
    }

    /** Installs a new state under the snapshot and the settings of the moment. The running
        tasks become exactly the wanted ones that have a prober; a task with the same
        endpoints and settings goes on with its window under refreshed labels; every other
        one is a new task with a new empty window. */
    method Apply(node: Node, st: map<string, PairingV>)
      requires Valid()
      modifies this`tasks, tasks.Values
      ensures Valid()
      ensures !ready ==> tasks == old(tasks)
      ensures ready ==> forall k :: k in tasks <==> Wants(node, st, k).Some? && k.kind in probers
      ensures ready ==> forall k :: k in tasks ==>
                var v := Wants(node, st, k).value;
                if k in old(tasks) && old(tasks)[k].Same(node.dial, v)
                then tasks[k] == old(tasks)[k] && tasks[k].cls == v.cls && tasks[k].rank == v.rank
                else
                  && fresh(tasks[k]) && tasks[k].Started(v)
                  && fresh(tasks[k].window) && tasks[k].window.allSamples == []
      ensures ready ==> forall k :: k in tasks ==> Right(old(tasks), node.dial, k, Wants(node, st, k).value)
    {
      if !ready { return; }
      var want := Desired(node, st);
      hide Wants, Ident, Task.Same, ClearNames, GoesOn;
      forall k | k in want ensures want[k].key == k { assert Found(want, k).Some?; }
      var toStop, toStart := Compare(node, want);
      StopAll(toStop);
      StartAll(node, want, toStart);
      AllTell(node, old(tasks), st);
    }

    /** For clear names the running task goes on exactly when nothing it measures changes. */
    static lemma AllTell(node: Node, ts: map<TaskKey, Task>, st: map<string, PairingV>)
      ensures forall k :: k in ts && Wants(node, st, k).Some? ==>
                var v := Wants(node, st, k).value;
                ClearNames(ts[k].src, ts[k].dst) && ClearNames(v.src, v.dst) ==>
                  ts[k].Same(node.dial, v) == ts[k].Probes(node.dial, v)
    {
      hide Wants, ClearNames, Task.Same, Task.Probes;
      forall k | k in ts && Wants(node, st, k).Some?
        ensures var v := Wants(node, st, k).value;
                ClearNames(ts[k].src, ts[k].dst) && ClearNames(v.src, v.dst) ==>
                  ts[k].Same(node.dial, v) == ts[k].Probes(node.dial, v)
      {
        var v := Wants(node, st, k).value;
        if ClearNames(ts[k].src, ts[k].dst) && ClearNames(v.src, v.dst) { ts[k].SameTells(node.dial, v); }
      }
    }

    /** Compares the running tasks, in map order, with the wanted ones. */
    method Compare(node: Node, want: map<TaskKey, TaskV>) returns (toStop: set<TaskKey>, toStart: set<TaskKey>)
      requires Valid()
      modifies tasks.Values
      ensures toStop == set k | k in tasks && !GoesOn(node, tasks, want, k)
      ensures toStart == set k | k in want && !GoesOn(node, tasks, want, k)
      ensures forall k :: GoesOn(node, tasks, want, k) ==> tasks[k].cls == want[k].cls && tasks[k].rank == want[k].rank
    {
      hide Ident;
      toStop, toStart := {}, {};
      var todo := tasks.Keys;
      while todo != {}
        invariant todo <= tasks.Keys
        invariant toStop == set k | k in tasks && k !in todo && !GoesOn(node, tasks, want, k)
        invariant toStart == set k | k in want && k in tasks && k !in todo && !GoesOn(node, tasks, want, k)
        invariant forall k :: GoesOn(node, tasks, want, k) && k !in todo ==>
                    tasks[k].cls == want[k].cls && tasks[k].rank == want[k].rank
      {
        var k :| k in todo;
        todo := todo - {k};
        if k !in want {
          toStop := toStop + {k};
        } else if !tasks[k].Same(node.dial, want[k]) {
          toStop, toStart := toStop + {k}, toStart + {k};
        } else {
          tasks[k].cls, tasks[k].rank := want[k].cls, want[k].rank;
        }
      }
      toStart := toStart + set k | k in want && k !in tasks;
    }

    /** Stops tasks one by one. */
    method StopAll(toStop: set<TaskKey>)
      modifies this`tasks
      ensures tasks == old(tasks) - toStop
    {
      var todo := toStop;
      while todo != {}
        invariant todo <= toStop && tasks == old(tasks) - (toStop - todo)
      {
        var k :| k in todo;
        tasks := tasks - {k};
        todo := todo - {k};
      }
    }

    /** Starts the wanted tasks one by one, skipping those that run or have no prober. */
    method StartAll(node: Node, want: map<TaskKey, TaskV>, toStart: set<TaskKey>)
      requires Valid() && toStart <= want.Keys && toStart !! tasks.Keys
      requires forall k :: k in want ==> want[k].key == k
      modifies this`tasks
      ensures Valid()
      ensures forall k :: k in tasks <==> k in old(tasks) || (k in toStart && k.kind in probers)
      ensures forall k :: k in old(tasks) ==> tasks[k] == old(tasks)[k]
      ensures forall k :: k in tasks && k !in old(tasks) ==>
                fresh(tasks[k]) && tasks[k].Started(want[k]) && fresh(tasks[k].window)
                  && tasks[k].window.allSamples == []
    {
      var todo := toStart;
      while todo != {}
        invariant todo <= toStart && Valid()
        invariant forall k :: k in tasks <==> k in old(tasks) || (k in toStart && k !in todo && k.kind in probers)
        invariant forall k :: k in old(tasks) ==> tasks[k] == old(tasks)[k]
        invariant forall k :: k in tasks && k !in old(tasks) ==>
                    fresh(tasks[k]) && tasks[k].Started(want[k]) && fresh(tasks[k].window)
                      && tasks[k].window.allSamples == []
      {
        var k :| k in todo;
        if k !in tasks && k.kind in probers {
          var t := new Task(want[k], node.cfg.window);
          tasks := tasks[k := t];
        }
        todo := todo - {k};
      }
    }
  }
}
