/** Host eligibility with hysteresis: what each event does to the record of one host, and
    the tracker that holds the records (internal/health/health.go). */
module Health {
  import opened Base
  import opened Inventory
  import opened Zones

  // ---------- one host ----------

  datatype Health = Unknown | Healthy | Suspect | Pending | Unhealthy | Cooldown | Ineligible

  datatype Config = Config(unhealthyAfter: int, healthyAfter: int, releaseHold: Time, missingGrace: Time,
                           dnsGrace: Time, flapThreshold: int, flapWindow: Time, flapCooldown: Time)

  datatype Status = Status(
    id: string, state: Health, reason: string, source: string, firstSeen: Time, lastSeen: Option<Time>,
    lastSuccess: Option<Time>, lastFailure: Option<Time>, failStreak: int, okStreak: int,
    markedAt: Option<Time>, releaseAt: Option<Time>, cooldownEnd: Option<Time>, transitions: nat,
    present: bool, missingAt: Option<Time>, resolveFail: Option<Time>, flapMarks: seq<Time>, assignedAt: Option<Time>)
  {
    predicate Eligible() { EligibleState(state) }
  }

  /** Pending is still eligible: the release hold has not expired. */
  predicate EligibleState(s: Health) {
    s == Unknown || s == Healthy || s == Suspect || s == Pending
  }

  function NewStatus(id: string, now: Time): Status {
    Status(id, Unknown, "", "", now, None, None, None, 0, 0, None, None, None, 0, false, None, None, [], None)
  }

  /** The flap marks that are no older than the window. */
  function Recent(marks: seq<Time>, now: Time, window: Time): (r: seq<Time>)
    ensures forall m :: m in r <==> m in marks && now - m <= window
  {
    if |marks| == 0 then []
    else
      var n := |marks| - 1;
      assert forall m :: m in marks <==> m in marks[..n] || m == marks[n];
      Recent(marks[..n], now, window) + if now - marks[n] <= window then [marks[n]] else []
  }

  /** One more eligibility change would put the host into cooldown. */
  predicate Flaps(cfg: Config, st: Status, now: Time) {
    cfg.flapThreshold > 0 && |Recent(st.flapMarks + [now], now, cfg.flapWindow)| > cfg.flapThreshold
  }

  /** A change of state, with flap detection when it changes eligibility. */
  function Enter(cfg: Config, st: Status, to: Health, reason: string, now: Time): Status {
    if st.state == to then (if reason != "" then st.(reason := reason) else st)
    else
      var moved := if to == Healthy then st.(state := to, reason := "", markedAt := None, releaseAt := None)
                   else st.(state := to, reason := reason);
      if st.Eligible() == moved.Eligible() then moved
      else
        var keep := Recent(st.flapMarks + [now], now, cfg.flapWindow);
        var marked := moved.(flapMarks := keep, transitions := |keep|);
        if Flaps(cfg, st, now) && to != Ineligible && to != Cooldown
        then marked.(state := Cooldown, reason := "flapping", cooldownEnd := Some(now + cfg.flapCooldown))
        else marked
  }

  /** The host is in the provider's snapshot. */
  function Seen(cfg: Config, cur: Option<Status>, h: HostRecord, now: Time): Status {
    var old_ := if cur.Some? then cur.value else NewStatus(h.id, now);
    var st := old_.(source := h.source, lastSeen := Some(now), present := true, missingAt := None);
    if !h.healthy then Enter(cfg, st, Ineligible, h.reason, now)
    else if st.state == Ineligible then Enter(cfg, st, Unknown, "", now)
    else st
  }

  /** The host has been absent for the whole grace. */
  predicate GraceOver(cfg: Config, st: Status, now: Time) {
    st.missingAt.Some? && now - st.missingAt.value >= cfg.missingGrace
  }

  /** The host is not in the provider's snapshot. */
  function Missing(cfg: Config, cur: Status, now: Time): Status {
    var st := if cur.present then cur.(present := false, missingAt := Some(now)) else cur;
    if GraceOver(cfg, st, now) then Enter(cfg, st, Ineligible, "absent from provider", now) else st
  }

  function ProbeOk(cfg: Config, cur: Status, now: Time): Status {
    var st := cur.(lastSuccess := Some(now), okStreak := cur.okStreak + 1, failStreak := 0);
    if st.state == Ineligible || st.state == Cooldown then st
    else if st.okStreak >= cfg.healthyAfter then Enter(cfg, st, Healthy, "", now)
    else st
  }

  function ProbeFailed(cfg: Config, cur: Status, now: Time): Status {
    var st := cur.(lastFailure := Some(now), failStreak := cur.failStreak + 1, okStreak := 0);
    if st.state == Ineligible || st.state == Cooldown then st
    else if st.failStreak < cfg.unhealthyAfter then Enter(cfg, st, Suspect, "probe failing", now)
    else if st.state != Pending && st.state != Unhealthy then
      var r := Enter(cfg, st, Pending, "probe failed repeatedly", now);
      r.(markedAt := Some(now), releaseAt := Some(now + cfg.releaseHold))
    else st
  }

  function Probed(cfg: Config, cur: Status, ok: bool, now: Time): Status {
    if ok then ProbeOk(cfg, cur, now) else ProbeFailed(cfg, cur, now)
  }

  function Resolved(cfg: Config, st: Status, ok: bool, now: Time): Status {
    if ok then st.(resolveFail := None)
    else if st.resolveFail.None? then st.(resolveFail := Some(now))
    else if now - st.resolveFail.value >= cfg.dnsGrace && st.Eligible() then
      Enter(cfg, st, Unhealthy, "address does not resolve", now)
    else st
  }

  predicate Expired(at: Option<Time>, now: Time) { at.Some? && now >= at.value }

  /** A pending release or a cooldown that is over. */
  function TimerDone(cfg: Config, st: Status, now: Time): Status {
    if st.state == Pending && Expired(st.releaseAt, now) then Enter(cfg, st, Unhealthy, st.reason, now)
    else if st.state == Cooldown && Expired(st.cooldownEnd, now) then
      Enter(cfg, st, Unknown, "", now).(okStreak := 0, failStreak := 0)
    else st
  }

  function Ticked(cfg: Config, cur: Status, now: Time): Status {
    var st := TimerDone(cfg, cur, now);
    if st.state != Ineligible && GraceOver(cfg, st, now) then Enter(cfg, st, Ineligible, "absent from provider", now)
    else st
  }

  /** A new configuration recomputes the release timer of a pending host. */
  function Retimed(cfg: Config, st: Status): Status {
    if st.state == Pending && st.markedAt.Some? then st.(releaseAt := Some(st.markedAt.value + cfg.releaseHold)) else st
  }

  function MarkedAssigned(st: Status, now: Time): Status {
    if st.assignedAt.None? then st.(assignedAt := Some(now)) else st
  }

  /** The timers of one host. */
  function Deadlines(cfg: Config, st: Status): set<Time> {
    (if st.state == Pending && st.releaseAt.Some? then {st.releaseAt.value} else {})
    + (if st.state == Cooldown && st.cooldownEnd.Some? then {st.cooldownEnd.value} else {})
    + (if st.missingAt.Some? && st.state != Ineligible then {st.missingAt.value + cfg.missingGrace} else {})
  }

  // ---------- events ----------

  /** What can happen to one host. `Idle` is an event of another host. */
  datatype Event = Idle | InSnapshot(host: HostRecord) | NotInSnapshot | Probe(ok: bool) | Resolve(ok: bool)
                 | Tick | Assigned | Reload(cfg: Config)

  /** The record of one host after one event under the configuration in force. */
  function React(cfg: Config, id: string, cur: Option<Status>, ev: Event, now: Time): Option<Status> {
    match ev
    case Idle => cur
    case InSnapshot(h) => Some(Seen(cfg, cur, h, now))
    case NotInSnapshot => if cur.Some? then Some(Missing(cfg, cur.value, now)) else None
    case Probe(ok) => Some(Probed(cfg, if cur.Some? then cur.value else NewStatus(id, now), ok, now))
    case Resolve(ok) => if cur.Some? then Some(Resolved(cfg, cur.value, ok, now)) else None
    case Tick => if cur.Some? then Some(Ticked(cfg, cur.value, now)) else None
    case Assigned => if cur.Some? then Some(MarkedAssigned(cur.value, now)) else None
    case Reload(new_) => if cur.Some? then Some(Retimed(new_, cur.value)) else None
  }

  function At(hosts: map<string, Status>, id: string): Option<Status> {
    if id in hosts then Some(hosts[id]) else None
  }

  /** The event a snapshot is for one host. */
  function ObserveEvent(snap: Snapshot, id: string): Event {
    var h := snap.Get(id);
    if h.Some? then InSnapshot(h.value) else NotInSnapshot
  }

  // ---------- the tracker ----------

  /** The filter on the flap marks, one mark at a time. */
  method KeepRecent(marks: seq<Time>, now: Time, window: Time) returns (keep: seq<Time>)
    ensures keep == Recent(marks, now, window)
  {
    keep := [];
    for n := 0 to |marks|
      invariant keep == Recent(marks[..n], now, window)
    {
      assert marks[..n + 1][..n] == marks[..n];
      if now - marks[n] <= window { keep := keep + [marks[n]]; }
    }
    assert marks[..|marks|] == marks;
  }

  /** The health records of all hosts. */
  class Tracker {
    var cfg: Config
    var hosts: map<string, Status>

    constructor (cfg: Config)
      ensures this.cfg == cfg && hosts == map[]
    {
      this.cfg, hosts := cfg, map[];
    }

    /** Changes the state of one host and applies flap detection. */
    method Transition(id: string, to: Health, reason: string, now: Time)
      requires id in hosts
      modifies this`hosts
      ensures hosts == old(hosts)[id := Enter(cfg, old(hosts)[id], to, reason, now)]
    {
      var st := hosts[id];
      if st.state == to {
        if reason != "" { st := st.(reason := reason); }
        hosts := hosts[id := st];
        return;
      }
      var was := st.Eligible();
      var marks := st.flapMarks;
      st := st.(state := to, reason := reason);
      if to == Healthy { st := st.(reason := "", markedAt := None, releaseAt := None); }
      if was != st.Eligible() {
        var keep := KeepRecent(marks + [now], now, cfg.flapWindow);
        st := st.(flapMarks := keep, transitions := |keep|);
        if cfg.flapThreshold > 0 && |keep| > cfg.flapThreshold && to != Ineligible && to != Cooldown {
          st := st.(state := Cooldown, reason := "flapping", cooldownEnd := Some(now + cfg.flapCooldown));
        }
      }
      hosts := hosts[id := st];
    }

    /** Recomputes the release timers against the new hold. */
    method SetConfig(new_: Config, now: Time)
      modifies this
      ensures cfg == new_
      ensures forall id :: At(hosts, id) == React(old(cfg), id, At(old(hosts), id), Reload(new_), now)
    {
      hide RetimedBut, Retimed;
      cfg := new_;
      ghost var before := hosts;
      var todo := hosts.Keys;
      NoneRetimed(new_, before);
      while todo != {}
        invariant todo <= before.Keys && cfg == new_ && RetimedBut(new_, before, hosts, todo)
      {
        var id :| id in todo;
        RetimedStep(new_, before, hosts, todo, id);
        var st := hosts[id];
        if st.state == Pending && st.markedAt.Some? {
          hosts := hosts[id := st.(releaseAt := Some(st.markedAt.value + new_.releaseHold))];
        }
        todo := todo - {id};
      }
      AllRetimed(old(cfg), new_, before, hosts, now);
    }

    /** Applies a provider snapshot to every host of the snapshot and to every other host
        already tracked, the latter in map order. */
    method Observe(snap: Snapshot, now: Time)
      requires snap.Valid()
      modifies this`hosts
      ensures forall id :: At(hosts, id) == React(cfg, id, At(old(hosts), id), ObserveEvent(snap, id), now)
      ensures forall h :: h in snap.hosts ==> h.id in hosts && Obeys(h, At(old(hosts), h.id), hosts[h.id].state)
    {
      hide Seen, Missing, SeenUpTo, Snapshot.Get, Snapshot.Valid, Obeys;
      ghost var before := hosts;
      NoneSeen(cfg, snap, before, now);
      for n := 0 to |snap.hosts|
        invariant SeenUpTo(cfg, snap, n, before, hosts, now)
      {
        OneMoreSeen(cfg, snap, n, before, hosts, now);
        ObserveHost(snap.hosts[n], now);
      }
      AllSeen(cfg, snap, before, hosts, now);
      ObserveRest(snap, now, before);
      AllObey(cfg, snap, before, hosts, now);
    }

    method ObserveHost(h: HostRecord, now: Time)
      modifies this`hosts
      ensures hosts == old(hosts)[h.id := Seen(cfg, At(old(hosts), h.id), h, now)]
    {
      hide Enter;
      if h.id !in hosts { hosts := hosts[h.id := NewStatus(h.id, now)]; }
      hosts :=
        hosts[h.id := hosts[h.id].(source := h.source, lastSeen := Some(now), present := true, missingAt := None)];
      if !h.healthy {
        Transition(h.id, Ineligible, h.reason, now);
      } else if hosts[h.id].state == Ineligible {
        Transition(h.id, Unknown, "", now);
      }
    }

    method ObserveRest(snap: Snapshot, now: Time, ghost before: map<string, Status>)
      requires forall id :: snap.Get(id).Some? ==>
                 At(hosts, id) == Some(Seen(cfg, At(before, id), snap.Get(id).value, now))
      requires forall id :: snap.Get(id).None? ==> At(hosts, id) == At(before, id)
      modifies this`hosts
      ensures forall id :: At(hosts, id) == React(cfg, id, At(before, id), ObserveEvent(snap, id), now)
    {
      hide Seen, Missing, Snapshot.Get;
      ghost var mid := hosts;
      var todo := hosts.Keys;
      while todo != {}
        invariant todo <= hosts.Keys == mid.Keys
        invariant forall id :: id in hosts ==>
                    hosts[id] == if id in todo || snap.Get(id).Some? then mid[id] else Missing(cfg, mid[id], now)
      {
        var id :| id in todo;
        if snap.Get(id).None? { ObserveMissing(id, now); }
        todo := todo - {id};
      }
      forall id ensures At(hosts, id) == React(cfg, id, At(before, id), ObserveEvent(snap, id), now) {
        if snap.Get(id).Some? { assert At(mid, id).Some?; }
      }
    }

    method ObserveMissing(id: string, now: Time)
      requires id in hosts
      modifies this`hosts
      ensures hosts == old(hosts)[id := Missing(cfg, old(hosts)[id], now)]
    {
      hide Enter;
      if hosts[id].present { hosts := hosts[id := hosts[id].(present := false, missingAt := Some(now))]; }
      var st := hosts[id];
      if st.missingAt.Some? && now - st.missingAt.value >= cfg.missingGrace {
        Transition(id, Ineligible, "absent from provider", now);
      }
      assert hosts == old(hosts)[id := hosts[id]];
    }

    /** Applies one probe outcome. */
    method RecordProbe(id: string, ok: bool, now: Time)
      modifies this`hosts
      ensures At(hosts, id) == React(cfg, id, At(old(hosts), id), Probe(ok), now)
      ensures hosts == old(hosts)[id := hosts[id]]
    {
      hide ProbeOk, ProbeFailed;
      if id !in hosts { hosts := hosts[id := NewStatus(id, now)]; }
      if ok { RecordOk(id, now); } else { RecordFailure(id, now); }
      assert hosts == old(hosts)[id := hosts[id]];
    }

    method RecordOk(id: string, now: Time)
      requires id in hosts
      modifies this`hosts
      ensures hosts == old(hosts)[id := ProbeOk(cfg, old(hosts)[id], now)]
    {
      hide Enter;
      var st := hosts[id];
      hosts := hosts[id := st.(lastSuccess := Some(now), okStreak := st.okStreak + 1, failStreak := 0)];
      if st.state == Ineligible || st.state == Cooldown { return; }
      if hosts[id].okStreak >= cfg.healthyAfter { Transition(id, Healthy, "", now); }
    }

    method RecordFailure(id: string, now: Time)
      requires id in hosts
      modifies this`hosts
      ensures hosts == old(hosts)[id := ProbeFailed(cfg, old(hosts)[id], now)]
    {
      hide Enter;
      var st := hosts[id];
      hosts := hosts[id := st.(lastFailure := Some(now), failStreak := st.failStreak + 1, okStreak := 0)];
      if st.state == Ineligible || st.state == Cooldown { return; }
      if hosts[id].failStreak < cfg.unhealthyAfter {
        Transition(id, Suspect, "probe failing", now);
        return;
      }
      if st.state != Pending && st.state != Unhealthy {
        Transition(id, Pending, "probe failed repeatedly", now);
        hosts := hosts[id := hosts[id].(markedAt := Some(now), releaseAt := Some(now + cfg.releaseHold))];
      }
    }

    /** Applies one resolution outcome; an untracked host is ignored. */
    method RecordResolve(id: string, ok: bool, now: Time)
      modifies this`hosts
      ensures At(hosts, id) == React(cfg, id, At(old(hosts), id), Resolve(ok), now)
      ensures hosts == if id in old(hosts) then old(hosts)[id := hosts[id]] else old(hosts)
    {
      hide Enter;
      if id !in hosts { return; }
      var st := hosts[id];
      if ok { hosts := hosts[id := st.(resolveFail := None)]; return; }
      if st.resolveFail.None? { hosts := hosts[id := st.(resolveFail := Some(now))]; return; }
      if now - st.resolveFail.value >= cfg.dnsGrace && st.Eligible() {
        Transition(id, Unhealthy, "address does not resolve", now);
      }
      assert hosts == old(hosts)[id := hosts[id]];
    }

    method MarkAssigned(id: string, now: Time)
      modifies this`hosts
      ensures At(hosts, id) == React(cfg, id, At(old(hosts), id), Assigned, now)
      ensures hosts == if id in old(hosts) then old(hosts)[id := hosts[id]] else old(hosts)
    {
      if id in hosts && hosts[id].assignedAt.None? { hosts := hosts[id := hosts[id].(assignedAt := Some(now))]; }
      assert id in hosts ==> hosts == old(hosts)[id := hosts[id]];
    }

    /** The hosts that may hold a slot side now. */
    method EligibleHosts() returns (elig: set<string>)
      ensures forall id :: id in elig <==> id in hosts && hosts[id].Eligible()
    {
      elig := set id | id in hosts && hosts[id].Eligible();
    }

    /** The earliest timer of any host, if there is one. */
    method NextDeadline() returns (next: Option<Time>)
      ensures next.None? <==> forall id :: id in hosts ==> Deadlines(cfg, hosts[id]) == {}
      ensures next.Some? ==> (exists id :: id in hosts && next.value in Deadlines(cfg, hosts[id]))
                             && forall id, t :: id in hosts && t in Deadlines(cfg, hosts[id]) ==> next.value <= t
    {
      next := None;
      var todo := hosts.Keys;
      while todo != {}
        invariant todo <= hosts.Keys
        invariant next.None? ==> forall id :: id in hosts && id !in todo ==> Deadlines(cfg, hosts[id]) == {}
        invariant next.Some? ==> exists id :: id in hosts && next.value in Deadlines(cfg, hosts[id])
        invariant next.Some? ==> forall id, t :: id in hosts && id !in todo && t in Deadlines(cfg, hosts[id]) ==>
                    next.value <= t
      {
        var id :| id in todo;
        var st := hosts[id];
        ghost var before := next;
        if st.state == Pending { next := Earlier(next, st.releaseAt); }
        if st.state == Cooldown { next := Earlier(next, st.cooldownEnd); }
        if st.missingAt.Some? && st.state != Ineligible {
          next := Earlier(next, Some(st.missingAt.value + cfg.missingGrace));
        }
        EarliestOf(cfg, st, before, next);
        hide Deadlines;
        todo := todo - {id};
      }
    }

    /** Advances the timers of every host, in map order, and returns the hosts whose
        eligibility changed, sorted. */
    method TickAll(now: Time) returns (changed: seq<string>)
      modifies this`hosts
      ensures forall id :: At(hosts, id) == React(cfg, id, At(old(hosts), id), Tick, now)
      ensures Increasing(changed)
      ensures forall id :: id in changed <==>
                id in old(hosts) && old(hosts)[id].Eligible() != Ticked(cfg, old(hosts)[id], now).Eligible()
    {
      hide TickedBut, MovedIs, Ticked, Increasing;
      ghost var before := hosts;
      var moved: seq<string> := [];
      var todo := hosts.Keys;
      NoneTicked(cfg, before, now);
      while todo != {}
        invariant todo <= before.Keys && TickedBut(cfg, before, hosts, todo, now)
                    && MovedIs(cfg, before, moved, todo, now)
      {
        var id :| id in todo;
        TickedStep(cfg, before, hosts, moved, todo, now, id);
        var was := hosts[id].Eligible();
        TickHost(id, now);
        if hosts[id].Eligible() != was { moved := moved + [id]; }
        todo := todo - {id};
      }
      AllTicked(cfg, before, hosts, moved, now);
      SortIncreasing(moved);
      changed := Sort(moved, StrLe);
    }

    method TickHost(id: string, now: Time)
      requires id in hosts
      modifies this`hosts
      ensures hosts == old(hosts)[id := Ticked(cfg, old(hosts)[id], now)]
    {
      hide Enter;
      match hosts[id].state {
        case Pending =>
          if Expired(hosts[id].releaseAt, now) { Transition(id, Unhealthy, hosts[id].reason, now); }
        case Cooldown =>
          if Expired(hosts[id].cooldownEnd, now) {
            Transition(id, Unknown, "", now);
            hosts := hosts[id := hosts[id].(okStreak := 0, failStreak := 0)];
          }
        case _ =>
      }
      var st := hosts[id];
      if st.missingAt.Some? && st.state != Ineligible && now - st.missingAt.value >= cfg.missingGrace {
        Transition(id, Ineligible, "absent from provider", now);
      }
      assert hosts == old(hosts)[id := hosts[id]];
    }
  }

  /** The release times of all hosts outside `todo` follow the new hold. */
  ghost predicate RetimedBut(new_: Config, before: map<string, Status>, hosts: map<string, Status>, todo: set<string>) {
    hosts.Keys == before.Keys && forall id :: id in before ==>
      hosts[id] == if id in todo then before[id] else Retimed(new_, before[id])
  }

  lemma NoneRetimed(new_: Config, before: map<string, Status>)
    ensures RetimedBut(new_, before, before, before.Keys)
  {}

  lemma RetimedStep(new_: Config, before: map<string, Status>, hosts: map<string, Status>, todo: set<string>,
                    id: string)
    requires RetimedBut(new_, before, hosts, todo) && id in todo && id in before
    ensures id in hosts && hosts[id] == before[id]
    ensures var st := before[id];
            if st.state == Pending && st.markedAt.Some? then
              RetimedBut(new_, before, hosts[id := st.(releaseAt := Some(st.markedAt.value + new_.releaseHold))],
                todo - {id})
            else RetimedBut(new_, before, hosts, todo - {id})
  {}

  lemma AllRetimed(cfg: Config, new_: Config, before: map<string, Status>, hosts: map<string, Status>, now: Time)
    requires RetimedBut(new_, before, hosts, {})
    ensures forall id :: At(hosts, id) == React(cfg, id, At(before, id), Reload(new_), now)
  {
    hide Retimed;
  }

  /** Every host outside `todo` has been ticked. */
  ghost predicate TickedBut(cfg: Config, before: map<string, Status>, hosts: map<string, Status>, todo: set<string>,
                            now: Time) {
    hosts.Keys == before.Keys && forall id :: id in before ==>
      hosts[id] == if id in todo then before[id] else Ticked(cfg, before[id], now)
  }

  predicate Moves(cfg: Config, st: Status, now: Time) { st.Eligible() != Ticked(cfg, st, now).Eligible() }

  /** The hosts outside `todo` whose eligibility changed, once each. */
  ghost predicate MovedIs(cfg: Config, before: map<string, Status>, moved: seq<string>, todo: set<string>, now: Time) {
    Distinct(moved) && forall id :: id in moved <==> id in before && id !in todo && Moves(cfg, before[id], now)
  }

  lemma NoneTicked(cfg: Config, before: map<string, Status>, now: Time)
    ensures TickedBut(cfg, before, before, before.Keys, now) && MovedIs(cfg, before, [], before.Keys, now)
  {
    hide Ticked, Moves;
  }

  lemma TickedStep(cfg: Config, before: map<string, Status>, hosts: map<string, Status>, moved: seq<string>,
                   todo: set<string>, now: Time, id: string)
    requires TickedBut(cfg, before, hosts, todo, now) && MovedIs(cfg, before, moved, todo, now) && id in todo
               && id in before
    ensures id in hosts && hosts[id] == before[id]
    ensures TickedBut(cfg, before, hosts[id := Ticked(cfg, before[id], now)], todo - {id}, now)
    ensures var turned := before[id].Eligible() != Ticked(cfg, before[id], now).Eligible();
            MovedIs(cfg, before, if turned then moved + [id] else moved, todo - {id}, now)
  {
    hide Ticked;
    if Moves(cfg, before[id], now) { DistinctAppend(moved, id); }
    hide Distinct;
  }

  lemma AllTicked(cfg: Config, before: map<string, Status>, hosts: map<string, Status>, moved: seq<string>, now: Time)
    requires TickedBut(cfg, before, hosts, {}, now) && MovedIs(cfg, before, moved, {}, now)
    ensures forall id :: At(hosts, id) == React(cfg, id, At(before, id), Tick, now)
    ensures Distinct(moved)
    ensures forall id :: id in moved <==>
              id in before && before[id].Eligible() != Ticked(cfg, before[id], now).Eligible()
  {
    hide Ticked, Distinct;
  }

  function Earlier(next: Option<Time>, at: Option<Time>): Option<Time> {
    if at.None? then next else if next.None? || at.value < next.value then at else next
  }

  lemma EarliestOf(cfg: Config, st: Status, before: Option<Time>, next: Option<Time>)
    requires var a := if st.state == Pending then Earlier(before, st.releaseAt) else before;
             var b := if st.state == Cooldown then Earlier(a, st.cooldownEnd) else a;
             next ==
               if st.missingAt.Some? && st.state != Ineligible
               then Earlier(b, Some(st.missingAt.value + cfg.missingGrace)) else b
    ensures next.None? <==> before.None? && Deadlines(cfg, st) == {}
    ensures next.Some? ==> next == before || next.value in Deadlines(cfg, st)
    ensures next.Some? && before.Some? ==> next.value <= before.value
    ensures forall t :: t in Deadlines(cfg, st) ==> next.Some? && next.value <= t
  {}

  /** The first n hosts of the snapshot are observed, no other host is touched. */
  ghost predicate SeenUpTo(cfg: Config, snap: Snapshot, n: nat, before: map<string, Status>, hosts: map<string, Status>,
                           now: Time)
  {
    && n <= |snap.hosts|
    && (forall i :: 0 <= i < n ==>
         At(hosts, snap.hosts[i].id) == Some(Seen(cfg, At(before, snap.hosts[i].id), snap.hosts[i], now)))
    && forall id :: (forall i :: 0 <= i < n ==> snap.hosts[i].id != id) ==> At(hosts, id) == At(before, id)
  }

  lemma NoneSeen(cfg: Config, snap: Snapshot, before: map<string, Status>, now: Time)
    ensures SeenUpTo(cfg, snap, 0, before, before, now)
  {}

  lemma OneMoreSeen(cfg: Config, snap: Snapshot, n: nat, before: map<string, Status>, hosts: map<string, Status>,
                    now: Time)
    requires snap.Valid() && n < |snap.hosts| && SeenUpTo(cfg, snap, n, before, hosts, now)
    ensures var h := snap.hosts[n];
            SeenUpTo(cfg, snap, n + 1, before, hosts[h.id := Seen(cfg, At(hosts, h.id), h, now)], now)
  {
    hide Seen;
    DistinctIds(snap.hosts);
    hide Snapshot.Valid;
    var h := snap.hosts[n];
    assert At(hosts, h.id) == At(before, h.id);
    var more := hosts[h.id := Seen(cfg, At(hosts, h.id), h, now)];
    forall i | 0 <= i < n + 1
      ensures At(more, snap.hosts[i].id) == Some(Seen(cfg, At(before, snap.hosts[i].id), snap.hosts[i], now))
    {
      if i < n { assert At(more, snap.hosts[i].id) == At(hosts, snap.hosts[i].id); }
    }
    forall id | forall i :: 0 <= i < n + 1 ==> snap.hosts[i].id != id ensures At(more, id) == At(before, id) {
      assert id != h.id && At(more, id) == At(hosts, id);
    }
  }

  lemma AllSeen(cfg: Config, snap: Snapshot, before: map<string, Status>, hosts: map<string, Status>, now: Time)
    requires snap.Valid() && SeenUpTo(cfg, snap, |snap.hosts|, before, hosts, now)
    ensures forall id :: snap.Get(id).Some? ==>
              At(hosts, id) == Some(Seen(cfg, At(before, id), snap.Get(id).value, now))
    ensures forall id :: snap.Get(id).None? ==> At(hosts, id) == At(before, id)
  {
    GetMeaning(snap);
    hide Seen;
  }

  /** The provider decides at once: a host it marks unhealthy is ineligible; a healthy one that
      was ineligible starts again, or cools down when it flaps; any other keeps its state. */
  ghost predicate Obeys(h: HostRecord, was: Option<Status>, state: Health) {
    if !h.healthy then state == Ineligible
    else if was.None? then state == Unknown
    else if was.value.state == Ineligible then state == Unknown || state == Cooldown
    else state == was.value.state
  }

  lemma SeenObeys(cfg: Config, was: Option<Status>, h: HostRecord, now: Time)
    ensures Obeys(h, was, Seen(cfg, was, h, now).state)
  {
    hide Recent, Flaps;
  }

  lemma AllObey(cfg: Config, snap: Snapshot, before: map<string, Status>, hosts: map<string, Status>, now: Time)
    requires snap.Valid()
    requires forall id :: At(hosts, id) == React(cfg, id, At(before, id), ObserveEvent(snap, id), now)
    ensures forall h :: h in snap.hosts ==> h.id in hosts && Obeys(h, At(before, h.id), hosts[h.id].state)
  {
    GetMeaning(snap);
    hide Seen, Obeys, Snapshot.Valid, Snapshot.Get;
    forall h | h in snap.hosts ensures h.id in hosts && Obeys(h, At(before, h.id), hosts[h.id].state) {
      assert At(hosts, h.id) == React(cfg, h.id, At(before, h.id), ObserveEvent(snap, h.id), now);
      SeenObeys(cfg, At(before, h.id), h, now);
    }
  }

  lemma GetMeaning(snap: Snapshot)
    requires snap.Valid()
    ensures forall i :: 0 <= i < |snap.hosts| ==> snap.Get(snap.hosts[i].id) == Some(snap.hosts[i])
    ensures forall id :: snap.Get(id).Some? ==> exists i :: 0 <= i < |snap.hosts| && snap.hosts[i].id == id
  {
    DistinctIds(snap.hosts);
  }
}
