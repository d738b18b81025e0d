/** What each event does to the record of a host, and exactly when a host loses or regains
    eligibility (internal/health/health.go:114-245, 348-423). */
module Eligibility {
  import opened Base
  import opened Inventory
  import opened Health
  import opened Hysteresis

  // ---------- flapping ----------

  /** The marks that are no older than the window, in order. */
  function InWindow(marks: seq<Time>, now: Time, window: Time): seq<Time> {
    if |marks| == 0 then []
    else if marks[0] >= now - window then [marks[0]] + InWindow(marks[1..], now, window)
    else InWindow(marks[1..], now, window)
  }

  /** One more change of eligibility now exceeds the threshold inside the window. */
  predicate TooMany(cfg: Config, st: Status, now: Time) {
    cfg.flapThreshold > 0 && |InWindow(st.flapMarks + [now], now, cfg.flapWindow)| > cfg.flapThreshold
  }

  lemma {:induction false} InWindowAppend(marks: seq<Time>, m: Time, now: Time, window: Time)
    ensures InWindow(marks + [m], now, window)
         == if m >= now - window then InWindow(marks, now, window) + [m] else InWindow(marks, now, window)
  {
    var all := marks + [m];
    if |marks| == 0 {
      assert all == [m] && all[1..] == [];
    } else {
      assert all[1..] == marks[1..] + [m] && all[0] == marks[0];
      InWindowAppend(marks[1..], m, now, window);
    }
  }

  lemma {:induction false} RecentIsInWindow(marks: seq<Time>, now: Time, window: Time)
    ensures Recent(marks, now, window) == InWindow(marks, now, window)
  {
    if |marks| > 0 {
      var n := |marks| - 1;
      RecentIsInWindow(marks[..n], now, window);
      InWindowAppend(marks[..n], marks[n], now, window);
      assert marks == marks[..n] + [marks[n]];
    }
  }

  lemma TooManyIs(cfg: Config, st: Status, now: Time)
    ensures TooMany(cfg, st, now) == Flaps(cfg, st, now)
  {
    RecentIsInWindow(st.flapMarks + [now], now, cfg.flapWindow);
  }

  /** The states in which a host may hold a slot side. */
  predicate MayHold(s: Health) { s == Unknown || s == Healthy || s == Suspect || s == Pending }

  /** A host is sent from one state to another: unless it keeps or loses its eligibility for
      good, or does not flap, it arrives in cooldown instead. */
  predicate Arrives(cfg: Config, st: Status, to: Health, r: Status, now: Time) {
    if MayHold(st.state) == MayHold(to) then
      r.state == to && r.flapMarks == st.flapMarks && r.cooldownEnd == st.cooldownEnd && r.transitions == st.transitions
    else
      && r.flapMarks == InWindow(st.flapMarks + [now], now, cfg.flapWindow) && r.transitions == |r.flapMarks|
      && if TooMany(cfg, st, now) && to != Ineligible
         then r.state == Cooldown && r.cooldownEnd == Some(now + cfg.flapCooldown) && r.reason == "flapping"
         else r.state == to && r.cooldownEnd == st.cooldownEnd
  }

  predicate SameTimers(st: Status, r: Status) { r.markedAt == st.markedAt && r.releaseAt == st.releaseAt }

  /** The host stays in its state, with its marks and its timers. */
  predicate Stays(st: Status, r: Status) {
    && r.state == st.state && r.flapMarks == st.flapMarks && r.transitions == st.transitions
    && r.cooldownEnd == st.cooldownEnd && SameTimers(st, r)
  }

  /** What a change of state leaves alone. */
  predicate Untouched(st: Status, r: Status) {
    && r.id == st.id && r.source == st.source && r.firstSeen == st.firstSeen && r.lastSeen == st.lastSeen
    && r.lastSuccess == st.lastSuccess && r.lastFailure == st.lastFailure
    && r.failStreak == st.failStreak && r.okStreak == st.okStreak
    && r.present == st.present && r.missingAt == st.missingAt && r.resolveFail == st.resolveFail
    && r.assignedAt == st.assignedAt
  }

  lemma EnterArrives(cfg: Config, st: Status, to: Health, reason: string, now: Time)
    requires to != Cooldown
    ensures var r := Enter(cfg, st, to, reason, now);
            && Untouched(st, r) && Arrives(cfg, st, to, r, now)
            && (r.state == to ==> r.reason == if st.state == to && reason == "" then st.reason
                                              else if to == Healthy && st.state != to then "" else reason)
            && (if to == Healthy && st.state != Healthy then r.markedAt == None && r.releaseAt == None
                else r.markedAt == st.markedAt && r.releaseAt == st.releaseAt)
  {
    RecentIsInWindow(st.flapMarks + [now], now, cfg.flapWindow);
    TooManyIs(cfg, st, now);
    hide Recent, InWindow, TooMany;
  }

  /** Only the state and the marks decide where a host arrives. */
  lemma SameArrival(cfg: Config, st: Status, s: Status, now: Time)
    requires st.state == s.state && st.flapMarks == s.flapMarks && st.cooldownEnd == s.cooldownEnd
               && st.transitions == s.transitions
    ensures forall to, r :: Arrives(cfg, st, to, r, now) == Arrives(cfg, s, to, r, now)
  {}

  lemma PendingHolds(cfg: Config, st: Status, now: Time)
    requires MayHold(st.state)
    ensures forall r :: Arrives(cfg, st, Pending, r, now) ==> r.state == Pending
  {}

  lemma IneligibleArrives(cfg: Config, st: Status, now: Time)
    ensures forall r :: Arrives(cfg, st, Ineligible, r, now) ==> r.state == Ineligible
  {}

  // ---------- one event ----------

  /** The record an event of a snapshot or a probe starts from: of a host never seen before, one
      that is unknown and has no history. */
  function RecordOf(id: string, cur: Option<Status>, now: Time): Status {
    if cur.Some? then cur.value
    else Status(id, Unknown, "", "", now, None, None, None, 0, 0, None, None, None, 0, false, None, None, [], None)
  }

  /** The host is in the snapshot: an unhealthy one is ineligible at once; a healthy one that was
      ineligible starts again, and any other keeps its state. Its absence is over. */
  lemma SnapshotTable(cfg: Config, id: string, cur: Option<Status>, h: HostRecord, now: Time)
    ensures var st, r := RecordOf(h.id, cur, now), React(cfg, id, cur, InSnapshot(h), now);
            && r.Some?
            && Untouched(st.(source := h.source, lastSeen := Some(now), present := true, missingAt := None), r.value)
            && r.value.markedAt == st.markedAt && r.value.releaseAt == st.releaseAt
            && (if !h.healthy then Arrives(cfg, st, Ineligible, r.value, now) && r.value.state == Ineligible
                else if st.state == Ineligible then Arrives(cfg, st, Unknown, r.value, now)
                else Stays(st, r.value))
            && (!h.healthy && h.reason != "" ==> r.value.reason == h.reason)
  {
    var s := RecordOf(h.id, cur, now).(source := h.source, lastSeen := Some(now), present := true, missingAt := None);
    EnterArrives(cfg, s, Ineligible, h.reason, now);
    EnterArrives(cfg, s, Unknown, "", now);
    hide Enter, InWindow, TooMany, MayHold;
  }

  /** The host is not in the snapshot: the first absence after a presence is recorded, and once
      the grace has passed since the recorded one the host is ineligible. */
  lemma AbsenceTable(cfg: Config, id: string, cur: Option<Status>, now: Time)
    ensures var r := React(cfg, id, cur, NotInSnapshot, now);
            && (cur.None? <==> r.None?)
            && (cur.Some? ==>
                 var st := cur.value.(present := false, missingAt := if cur.value.present then Some(now)
                                                                     else cur.value.missingAt);
                 && Untouched(st, r.value) && r.value.markedAt == st.markedAt && r.value.releaseAt == st.releaseAt
                 && if st.missingAt.Some? && now >= st.missingAt.value + cfg.missingGrace
                    then Arrives(cfg, st, Ineligible, r.value, now) && r.value.state == Ineligible
                    else Stays(st, r.value))
  {
    if cur.Some? {
      var st := if cur.value.present then cur.value.(present := false, missingAt := Some(now)) else cur.value;
      EnterArrives(cfg, st, Ineligible, "absent from provider", now);
    }
    hide Enter, InWindow, TooMany, MayHold;
  }

  /** A probe succeeds: the run of successes grows and that of failures ends. The configured run
      makes a host healthy, also a pending one, whose release is cancelled; a provider decision
      or a cooldown is not cleared. */
  lemma SuccessTable(cfg: Config, id: string, cur: Option<Status>, now: Time)
    ensures var st, r := RecordOf(id, cur, now), React(cfg, id, cur, Probe(true), now);
            && r.Some?
            && Untouched(st.(lastSuccess := Some(now), okStreak := st.okStreak + 1, failStreak := 0), r.value)
            && if (st.state == Ineligible || st.state == Cooldown) || st.okStreak + 1 < cfg.healthyAfter
               then Stays(st, r.value) && r.value.markedAt == st.markedAt
                 && r.value.releaseAt == st.releaseAt
               else Arrives(cfg, st, Healthy, r.value, now)
                    && (st.state != Healthy ==> r.value.markedAt == None && r.value.releaseAt == None)
  {
    var st := RecordOf(id, cur, now);
    var s := st.(lastSuccess := Some(now), okStreak := st.okStreak + 1, failStreak := 0);
    EnterArrives(cfg, s, Healthy, "", now);
    SameArrival(cfg, s, st, now);
    hide Enter, InWindow, TooMany, MayHold, Arrives;
  }

  /** A probe fails: the run of failures grows and that of successes ends. Below the limit the
      host is suspect; at the limit its release is pending for one hold from now, unless it is
      pending or unhealthy already. */
  lemma FailureTable(cfg: Config, id: string, cur: Option<Status>, now: Time)
    ensures var st, r := RecordOf(id, cur, now), React(cfg, id, cur, Probe(false), now);
            && r.Some?
            && Untouched(st.(lastFailure := Some(now), failStreak := st.failStreak + 1, okStreak := 0), r.value)
            && if (st.state == Ineligible || st.state == Cooldown) then Stays(st, r.value)
               else if st.failStreak + 1 < cfg.unhealthyAfter then
                 Arrives(cfg, st, Suspect, r.value, now) && SameTimers(st, r.value)
               else if (st.state == Pending || st.state == Unhealthy) then Stays(st, r.value)
               else
                 && Arrives(cfg, st, Pending, r.value, now) && r.value.state == Pending
                 && r.value.markedAt == Some(now) && r.value.releaseAt == Some(now + cfg.releaseHold)
  {
    hide ProbeFailed, Arrives, Untouched;
    var st := RecordOf(id, cur, now);
    if st.state == Ineligible || st.state == Cooldown {
      FailureClosed(cfg, st, now);
    } else if st.failStreak + 1 < cfg.unhealthyAfter {
      FailureBelow(cfg, st, now);
    } else if st.state == Pending || st.state == Unhealthy {
      FailureClosed(cfg, st, now);
    } else {
      FailureAt(cfg, st, now);
    }
  }

  /** The record with one failure more. */
  function Failed(st: Status, now: Time): Status {
    st.(lastFailure := Some(now), failStreak := st.failStreak + 1, okStreak := 0)
  }

  lemma FailureClosed(cfg: Config, st: Status, now: Time)
    requires st.state == Ineligible || st.state == Cooldown
               || (st.failStreak + 1 >= cfg.unhealthyAfter && (st.state == Pending || st.state == Unhealthy))
    ensures var r := ProbeFailed(cfg, st, now); Untouched(Failed(st, now), r) && Stays(st, r)
  {
    hide Enter;
  }

  lemma FailureBelow(cfg: Config, st: Status, now: Time)
    requires st.state != Ineligible && st.state != Cooldown && st.failStreak + 1 < cfg.unhealthyAfter
    ensures var r := ProbeFailed(cfg, st, now);
            Untouched(Failed(st, now), r) && Arrives(cfg, st, Suspect, r, now) && SameTimers(st, r)
  {
    var f := Failed(st, now);
    EnterArrives(cfg, f, Suspect, "probe failing", now);
    SameArrival(cfg, f, st, now);
    hide Enter, Arrives, Untouched;
  }

  lemma FailureAt(cfg: Config, st: Status, now: Time)
    requires MayHold(st.state) && st.state != Pending && st.failStreak + 1 >= cfg.unhealthyAfter
    ensures var r := ProbeFailed(cfg, st, now);
            && Untouched(Failed(st, now), r) && Arrives(cfg, st, Pending, r, now) && r.state == Pending
            && r.markedAt == Some(now) && r.releaseAt == Some(now + cfg.releaseHold)
  {
    var f := Failed(st, now);
    var r := Enter(cfg, f, Pending, "probe failed repeatedly", now);
    EnterArrives(cfg, f, Pending, "probe failed repeatedly", now);
    SameArrival(cfg, f, st, now);
    PendingHolds(cfg, st, now);
    OnlyTimers(cfg, st, f, Pending, r, now);
    hide Enter, Arrives, Untouched;
  }

  /** The two times of a pending release play no part in either. */
  lemma OnlyTimers(cfg: Config, st: Status, f: Status, to: Health, r: Status, now: Time)
    ensures forall m, t :: Untouched(f, r.(markedAt := m, releaseAt := t)) == Untouched(f, r)
    ensures forall m, t :: Arrives(cfg, st, to, r.(markedAt := m, releaseAt := t), now) == Arrives(cfg, st, to, r, now)
  {}

  /** A resolution of a tracked host: success ends a failure, the first failure is recorded, and
      once the grace has passed since the recorded one an eligible host is unhealthy. */
  lemma ResolveTable(cfg: Config, id: string, st: Status, ok: bool, now: Time)
    ensures var r := React(cfg, id, Some(st), Resolve(ok), now);
            && r.Some? && SameTimers(st, r.value)
            && Untouched(st.(resolveFail := if ok then None else if st.resolveFail.None? then Some(now)
                                                                 else st.resolveFail), r.value)
            && if !ok && st.resolveFail.Some? && now >= st.resolveFail.value + cfg.dnsGrace && MayHold(st.state)
               then Arrives(cfg, st, Unhealthy, r.value, now)
               else Stays(st, r.value)
    ensures React(cfg, id, None, Resolve(ok), now) == None
  {
    EnterArrives(cfg, st, Unhealthy, "address does not resolve", now);
    hide Enter, InWindow, TooMany;
  }

  /** The clock: a release that is due makes a pending host unhealthy, a cooldown that is over
      lets the host start again with both runs at nothing, and an absence of the whole grace
      makes any host ineligible. */
  lemma TickTable(cfg: Config, id: string, st: Status, now: Time)
    ensures var r := React(cfg, id, Some(st), Tick, now);
            var absent := st.missingAt.Some? && now >= st.missingAt.value + cfg.missingGrace && st.state != Ineligible;
            && r.Some? && SameTimers(st, r.value)
            && if absent then r.value.state == Ineligible
               else if st.state == Pending && st.releaseAt.Some? && now >= st.releaseAt.value then
                 Arrives(cfg, st, Unhealthy, r.value, now) && Untouched(st, r.value)
               else if st.state == Cooldown && st.cooldownEnd.Some? && now >= st.cooldownEnd.value then
                 Arrives(cfg, st, Unknown, r.value, now) && Untouched(st.(okStreak := 0, failStreak := 0), r.value)
               else r.value == st
  {
    TimerTable(cfg, st, now);
    hide TimerDone, Arrives, Untouched;
    var d := TimerDone(cfg, st, now);
    EnterArrives(cfg, d, Ineligible, "absent from provider", now);
    IneligibleArrives(cfg, d, now);
    hide Enter;
  }

  lemma TimerTable(cfg: Config, st: Status, now: Time)
    ensures var d := TimerDone(cfg, st, now);
            && SameTimers(st, d) && d.missingAt == st.missingAt && (d.state == Ineligible <==> st.state == Ineligible)
            && if st.state == Pending && st.releaseAt.Some? && now >= st.releaseAt.value then
                 Arrives(cfg, st, Unhealthy, d, now) && Untouched(st, d)
               else if st.state == Cooldown && st.cooldownEnd.Some? && now >= st.cooldownEnd.value then
                 Arrives(cfg, st, Unknown, d, now) && Untouched(st.(okStreak := 0, failStreak := 0), d)
               else d == st
  {
    EnterArrives(cfg, st, Unhealthy, st.reason, now);
    EnterArrives(cfg, st, Unknown, "", now);
    OnlyStreaks(cfg, st, Unknown, Enter(cfg, st, Unknown, "", now), now);
    NeverIneligible(cfg, st, now);
    hide Enter, Arrives, Untouched;
  }

  lemma OnlyStreaks(cfg: Config, st: Status, to: Health, r: Status, now: Time)
    ensures Arrives(cfg, st, to, r.(okStreak := 0, failStreak := 0), now) == Arrives(cfg, st, to, r, now)
    ensures Untouched(st, r) ==> Untouched(st.(okStreak := 0, failStreak := 0), r.(okStreak := 0, failStreak := 0))
  {}

  lemma NeverIneligible(cfg: Config, st: Status, now: Time)
    ensures forall to, r :: to != Ineligible && Arrives(cfg, st, to, r, now) ==> r.state != Ineligible
    ensures forall s, r :: Untouched(s, r) ==> r.missingAt == s.missingAt
  {}

  /** Assignments and reloads: the first assignment is recorded, a reload sets the release of a
      pending host by the new hold, and neither does anything else. */
  lemma RecordTable(cfg: Config, id: string, st: Status, new_: Config, now: Time)
    ensures React(cfg, id, Some(st), Assigned, now)
         == Some(st.(assignedAt := if st.assignedAt.Some? then st.assignedAt else Some(now)))
    ensures React(cfg, id, Some(st), Reload(new_), now)
         == Some(st.(releaseAt := if st.state == Pending && st.markedAt.Some? then
              Some(st.markedAt.value + new_.releaseHold)
                                  else st.releaseAt))
    ensures React(cfg, id, None, Assigned, now) == None && React(cfg, id, None, Reload(new_), now) == None
    ensures React(cfg, id, None, Tick, now) == None && React(cfg, id, Some(st), Idle, now) == Some(st)
  {
    assert st.(assignedAt := st.assignedAt) == st && st.(releaseAt := st.releaseAt) == st;
  }

  // ---------- when eligibility is lost, and when it comes back ----------

  lemma HoldsIs(st: Status)
    ensures st.Eligible() == MayHold(st.state)
  {}

  /** The events that make an eligible host ineligible, exactly. */
  predicate Loses(cfg: Config, st: Status, ev: Event, now: Time) {
    match ev
    case InSnapshot(h) => !h.healthy
    case NotInSnapshot => var m := if st.present then Some(now) else st.missingAt;
      m.Some? && now >= m.value + cfg.missingGrace
    case Tick =>
      || (st.missingAt.Some? && now >= st.missingAt.value + cfg.missingGrace)
      || (st.state == Pending && st.releaseAt.Some? && now >= st.releaseAt.value)
    case Resolve(ok) => !ok && st.resolveFail.Some? && now >= st.resolveFail.value + cfg.dnsGrace
    case _ => false
  }

  /** An event makes an eligible host ineligible if and only if it is one of those. */
  lemma LossStep(cfg: Config, id: string, st: Status, ev: Event, now: Time)
    requires MayHold(st.state)
    ensures var r := React(cfg, id, Some(st), ev, now);
            r.Some? && (!r.value.Eligible() <==> Loses(cfg, st, ev, now))
  {
    ArrivesHolds(cfg, st, now);
    hide React, Arrives, Untouched;
    match ev
    case InSnapshot(h) => SnapshotTable(cfg, id, Some(st), h, now);
    case NotInSnapshot => AbsenceTable(cfg, id, Some(st), now);
    case Probe(ok) => if ok { SuccessTable(cfg, id, Some(st), now); } else { FailureTable(cfg, id, Some(st), now); }
    case Resolve(ok) => ResolveTable(cfg, id, st, ok, now);
    case Tick => TickTable(cfg, id, st, now);
    case Assigned => RecordTable(cfg, id, st, cfg, now);
    case Reload(new_) => RecordTable(cfg, id, st, new_, now);
    case Idle => RecordTable(cfg, id, st, cfg, now);
  }

  /** Where a host arrives that is sent on, as far as its eligibility goes. */
  lemma ArrivesHolds(cfg: Config, st: Status, now: Time)
    ensures forall to, r :: Arrives(cfg, st, to, r, now) && (MayHold(st.state) || to == Ineligible) ==>
              (MayHold(r.state) <==> MayHold(to))
    ensures forall to, r :: Arrives(cfg, st, to, r, now) && !MayHold(st.state) ==>
              (MayHold(r.state) <==> MayHold(to) && !TooMany(cfg, st, now))
  {
    hide InWindow, TooMany;
  }

  /** The events that send an ineligible host back, exactly. */
  predicate Returns(cfg: Config, st: Status, ev: Event, now: Time) {
    match ev
    case InSnapshot(h) => h.healthy && st.state == Ineligible
    case Probe(ok) => st.state == Unhealthy
                      && if ok then st.okStreak + 1 >= cfg.healthyAfter else st.failStreak + 1 < cfg.unhealthyAfter
    case Tick => st.state == Cooldown && st.cooldownEnd.Some? && now >= st.cooldownEnd.value
                 && !(st.missingAt.Some? && now >= st.missingAt.value + cfg.missingGrace)
    case _ => false
  }

  /** An event makes an ineligible host eligible again if and only if it sends the host back
      and the host does not flap. */
  lemma GainStep(cfg: Config, id: string, st: Status, ev: Event, now: Time)
    requires !MayHold(st.state)
    ensures var r := React(cfg, id, Some(st), ev, now);
            r.Some? && (r.value.Eligible() <==> Returns(cfg, st, ev, now) && !TooMany(cfg, st, now))
  {
    ArrivesHolds(cfg, st, now);
    hide React, Arrives, Untouched, TooMany;
    match ev
    case InSnapshot(h) => SnapshotTable(cfg, id, Some(st), h, now);
    case NotInSnapshot => AbsenceTable(cfg, id, Some(st), now);
    case Probe(ok) => if ok { SuccessTable(cfg, id, Some(st), now); } else { FailureTable(cfg, id, Some(st), now); }
    case Resolve(ok) => ResolveTable(cfg, id, st, ok, now);
    case Tick => TickTable(cfg, id, st, now);
    case Assigned => RecordTable(cfg, id, st, cfg, now);
    case Reload(new_) => RecordTable(cfg, id, st, new_, now);
    case Idle => RecordTable(cfg, id, st, cfg, now);
  }

  // ---------- over whole traces ----------

  /** The host was in the snapshot of step b, not in that of step a after it, and has not been
      in one since. */
  ghost predicate Gone(r: Trace, b: nat, a: nat, n: nat) {
    && b < a < n <= |r.steps| && r.steps[b].ev.InSnapshot? && r.steps[a].ev.NotInSnapshot?
    && forall j :: b < j < n ==> !r.steps[j].ev.InSnapshot?
  }

  /** At step n the host has been gone for the grace. */
  ghost predicate LongGone(r: Trace, b: nat, a: nat, n: nat, grace: Time, now: Time) {
    Gone(r, b, a, n + 1) && now >= r.steps[a].now + grace
  }

  /** What an event does to the record of presence. */
  lemma PresenceKept(cfg: Config, id: string, cur: Option<Status>, ev: Event, now: Time)
    ensures var r := React(cfg, id, cur, ev, now);
            && (ev.InSnapshot? ==> r.Some? && r.value.present && r.value.missingAt == None)
            && (!ev.InSnapshot? && cur.Some? ==>
                 && r.Some? && r.value.present == (cur.value.present && !ev.NotInSnapshot?)
                 && r.value.missingAt == if ev.NotInSnapshot? && cur.value.present then Some(now)
                                         else cur.value.missingAt)
            && (!ev.InSnapshot? && cur.None? && r.Some? ==> !r.value.present && r.value.missingAt == None)
  {
    AllEntersKeep(cfg);
    hide Enter;
  }

  /** A host recorded as present was in the last snapshot there was. */
  lemma {:induction false} PresentOrigin(r: Trace, n: nat) returns (b: nat)
    requires n <= |r.steps| && r.Tracked(n) && r.After(n).st.value.present
    ensures b < n && r.steps[b].ev.InSnapshot?
    ensures forall j :: b < j < n ==> !r.steps[j].ev.InSnapshot? && !r.steps[j].ev.NotInSnapshot?
  {
    AtFirst(r);
    AfterStep(r, n - 1);
    var p, s := r.After(n - 1), r.steps[n - 1];
    PresenceKept(p.cfg, r.id, p.st, s.ev, s.now);
    hide React, Trace.After;
    if s.ev.InSnapshot? { b := n - 1; } else { b := PresentOrigin(r, n - 1); }
  }

  /** A recorded absence began at the first snapshot without the host after one with it. */
  lemma {:induction false} GoneOrigin(r: Trace, n: nat) returns (b: nat, a: nat)
    requires n <= |r.steps| && r.Tracked(n) && r.After(n).st.value.missingAt.Some?
    ensures Gone(r, b, a, n) && r.After(n).st.value.missingAt == Some(r.steps[a].now)
  {
    AtFirst(r);
    AfterStep(r, n - 1);
    var p, s := r.After(n - 1), r.steps[n - 1];
    PresenceKept(p.cfg, r.id, p.st, s.ev, s.now);
    hide React, Trace.After;
    if s.ev.NotInSnapshot? && p.st.Some? && p.st.value.present {
      a := n - 1;
      b := PresentOrigin(r, n - 1);
    } else {
      b, a := GoneOrigin(r, n - 1);
    }
  }

  /** The record of a host since the last snapshot with it: it is present until a snapshot
      without it, and absent from the first of those on. */
  ghost predicate SinceSeen(r: Trace, b: nat, n: nat)
    requires 0 < n <= |r.steps|
  {
    && r.Tracked(n)
    && var st := r.After(n).st.value;
       && (st.present ==> forall j :: b < j < n ==> !r.steps[j].ev.NotInSnapshot?)
       && (!st.present ==>
            && st.missingAt.Some? && st.missingAt.value <= r.steps[n - 1].now
            && forall j :: b < j < n && r.steps[j].ev.NotInSnapshot? ==> st.missingAt.value <= r.steps[j].now)
  }

  lemma {:induction false} AbsenceRecorded(r: Trace, b: nat, n: nat)
    requires r.Clock() && b < n <= |r.steps| && r.steps[b].ev.InSnapshot?
    requires forall j :: b < j < n ==> !r.steps[j].ev.InSnapshot?
    ensures SinceSeen(r, b, n)
  {
    ClockOrders(r, if n > 1 then n - 2 else 0, n - 1);
    var p, s := r.After(n - 1), r.steps[n - 1];
    AfterStep(r, n - 1);
    PresenceKept(p.cfg, r.id, p.st, s.ev, s.now);
    hide React, Trace.After;
    if b < n - 1 { AbsenceRecorded(r, b, n - 1); }
  }

  ghost predicate LongFailing(r: Trace, a: nat, n: nat, grace: Time, now: Time) {
    UnresolvedSince(r, a, n) && now >= r.steps[a].now + grace
  }

  lemma {:induction false} FailureRecorded(r: Trace, a: nat, n: nat)
    requires r.Clock() && UnresolvedSince(r, a, n)
    ensures r.Tracked(n) && r.After(n).st.value.resolveFail.Some?
              && r.After(n).st.value.resolveFail.value <= r.steps[a].now
  {
    var p, s := r.After(n - 1), r.steps[n - 1];
    AfterStep(r, n - 1);
    ResolveRecord(p.cfg, r.id, p.st, s.ev, s.now);
    hide React, Trace.After;
    if a < n - 1 {
      FailureRecorded(r, a, n - 1);
    } else if p.st.value.resolveFail.Some? {
      var c := ResolveOrigin(r, a);
    }
  }

  /** A host that has been pending since step a was marked no later than that. */
  ghost predicate LongPending(r: Trace, a: nat, n: nat, hold: Time, now: Time) {
    PendingSince(r, a, n) && now >= r.steps[a].now + hold
  }

  lemma {:induction false} PendingMarked(r: Trace, a: nat, n: nat)
    requires r.Clock() && PendingSince(r, a, n)
    ensures r.After(n).st.value.markedAt.Some? && r.After(n).st.value.markedAt.value <= r.steps[a].now
  {
    hide Trace.After, Trace.FailRun;
    PendingLast(r, n - 1);
    if a < n - 1 {
      PendingMarked(r, a, n - 1);
    } else if r.Tracked(a) && r.After(a).st.value.state == Pending {
      var c := PendingOrigin(r, a);
    }
  }

  /** The four causes of a loss, in the events of the trace. */
  ghost predicate LossCause(r: Trace, n: nat)
    requires n < |r.steps|
  {
    var cfg, s := r.After(n).cfg, r.steps[n];
    || (s.ev.InSnapshot? && !s.ev.host.healthy)
    || ((s.ev.NotInSnapshot? || s.ev.Tick?)
         && exists b: nat, a: nat :: LongGone(r, b, a, n, cfg.missingGrace, s.now))
    || (s.ev == Resolve(false) && exists a: nat :: LongFailing(r, a, n, cfg.dnsGrace, s.now))
    || (s.ev.Tick? && exists a: nat :: LongPending(r, a, n, cfg.releaseHold, s.now))
  }

  /** A tracked host that is eligible loses eligibility at a step if and only if the provider
      marks it unhealthy there, or it has been out of the snapshots for the missing grace, or its
      address has not resolved for the DNS grace, or it has been pending for the release hold
      since a failed probe at the limit. */
  lemma LossExact(r: Trace, n: nat)
    requires r.Clock() && n < |r.steps| && r.Eligible(n)
    ensures !r.Eligible(n + 1) <==> LossCause(r, n)
  {
    var p, s := r.After(n), r.steps[n];
    AfterStep(r, n);
    LossStep(p.cfg, r.id, p.st.value, s.ev, s.now);
    LossesMean(r, n);
    hide React, Trace.After, LossCause, Loses;
  }

  lemma LossesMean(r: Trace, n: nat)
    requires r.Clock() && n < |r.steps| && r.Tracked(n)
    ensures Loses(r.After(n).cfg, r.After(n).st.value, r.steps[n].ev, r.steps[n].now) <==> LossCause(r, n)
  {
    hide LongGone, LongFailing, LongPending, Trace.After;
    if r.steps[n].ev.NotInSnapshot? || r.steps[n].ev.Tick? { AbsenceMeans(r, n); }
    UnresolvedMeans(r, n);
    PendingMeans(r, n);
  }

  predicate Past(from: Option<Time>, grace: Time, now: Time) { from.Some? && now >= from.value + grace }

  lemma AbsenceMeans(r: Trace, n: nat)
    requires r.Clock() && n < |r.steps| && r.Tracked(n) && (r.steps[n].ev.NotInSnapshot? || r.steps[n].ev.Tick?)
    ensures var cfg, st, s := r.After(n).cfg, r.After(n).st.value, r.steps[n];
            var m := if s.ev.NotInSnapshot? && st.present then Some(s.now) else st.missingAt;
            Past(m, cfg.missingGrace, s.now) <==> exists b: nat, a: nat ::
              LongGone(r, b, a, n, cfg.missingGrace, s.now)
  {
    var p, s := r.After(n), r.steps[n];
    AfterStep(r, n);
    PresenceKept(p.cfg, r.id, p.st, s.ev, s.now);
    hide React, Trace.After, Gone;
    if Past(r.After(n + 1).st.value.missingAt, p.cfg.missingGrace, s.now) {
      var b, a := GoneOrigin(r, n + 1);
      assert LongGone(r, b, a, n, p.cfg.missingGrace, s.now);
    }
    forall b: nat, a: nat | LongGone(r, b, a, n, p.cfg.missingGrace, s.now)
      ensures Past(r.After(n + 1).st.value.missingAt, p.cfg.missingGrace, s.now)
    {
      GoneRecorded(r, b, a, n + 1);
    }
  }

  lemma GoneRecorded(r: Trace, b: nat, a: nat, n: nat)
    requires r.Clock() && Gone(r, b, a, n)
    ensures r.Tracked(n) && r.After(n).st.value.missingAt.Some?
              && r.After(n).st.value.missingAt.value <= r.steps[a].now
  {
    AbsenceRecorded(r, b, n);
    hide Trace.After;
  }

  lemma UnresolvedMeans(r: Trace, n: nat)
    requires r.Clock() && n < |r.steps| && r.Tracked(n)
    ensures var cfg, st, s := r.After(n).cfg, r.After(n).st.value, r.steps[n];
            Past(st.resolveFail, cfg.dnsGrace, s.now) <==> exists a: nat :: LongFailing(r, a, n, cfg.dnsGrace, s.now)
  {
    hide Trace.After, UnresolvedSince;
    var p, s := r.After(n), r.steps[n];
    if Past(p.st.value.resolveFail, p.cfg.dnsGrace, s.now) {
      var a := ResolveOrigin(r, n);
      assert LongFailing(r, a, n, p.cfg.dnsGrace, s.now);
    }
    forall a: nat | LongFailing(r, a, n, p.cfg.dnsGrace, s.now)
      ensures Past(p.st.value.resolveFail, p.cfg.dnsGrace, s.now)
    {
      FailureRecorded(r, a, n);
    }
  }

  lemma PendingMeans(r: Trace, n: nat)
    requires r.Clock() && n < |r.steps| && r.Tracked(n)
    ensures var cfg, st, s := r.After(n).cfg, r.After(n).st.value, r.steps[n];
            st.state == Pending && Past(st.releaseAt, 0, s.now) <==> exists a: nat ::
              LongPending(r, a, n, cfg.releaseHold, s.now)
  {
    hide Trace.After, PendingSince;
    var p, s := r.After(n), r.steps[n];
    if p.st.value.state == Pending {
      var c := PendingOrigin(r, n);
      assert Past(p.st.value.releaseAt, 0, s.now) ==> LongPending(r, c, n, p.cfg.releaseHold, s.now);
      forall a: nat | LongPending(r, a, n, p.cfg.releaseHold, s.now)
        ensures Past(p.st.value.releaseAt, 0, s.now)
      {
        PendingMarked(r, a, n);
      }
    } else {
      forall a: nat ensures !PendingSince(r, a, n) { NotPending(r, a, n); }
    }
  }

  lemma NotPending(r: Trace, a: nat, n: nat)
    requires n <= |r.steps| && r.Tracked(n) && r.After(n).st.value.state != Pending
    ensures !PendingSince(r, a, n)
  {}
}
