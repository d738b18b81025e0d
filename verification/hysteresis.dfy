/** Whole event traces of one host: how often it can flap, why it loses eligibility, and
    when its timers fire (internal/health/health.go). */
module Hysteresis {
  import opened Base
  import opened Inventory
  import opened Health

  datatype Step = Step(ev: Event, now: Time)

  /** A tracker's configuration and its record of one host. */
  datatype Point = Point(cfg: Config, st: Option<Status>)

  /** The events of one host, from before it is first seen. */
  datatype Trace = Trace(id: string, cfg: Config, steps: seq<Step>) {

    function After(n: nat): Point
      requires n <= |steps|
      decreases n
    {
      if n == 0 then Point(cfg, None)
      else
        var p := After(n - 1);
        var s := steps[n - 1];
        Point(if s.ev.Reload? then s.ev.cfg else p.cfg, React(p.cfg, id, p.st, s.ev, s.now))
    }

    predicate Tracked(n: nat)
      requires n <= |steps|
    {
      After(n).st.Some?
    }

    predicate Eligible(n: nat)
      requires n <= |steps|
    {
      Tracked(n) && After(n).st.value.Eligible()
    }

    /** Time never runs backwards. */
    ghost predicate Clock() {
      forall i, j :: 0 <= i < j < |steps| ==> steps[i].now <= steps[j].now
    }

    /** Reloads leave the flap settings alone. */
    ghost predicate SameFlapSettings() {
      forall i :: 0 <= i < |steps| && steps[i].ev.Reload? ==>
        var c := steps[i].ev.cfg;
        c.flapThreshold == cfg.flapThreshold && c.flapWindow == cfg.flapWindow && c.flapCooldown == cfg.flapCooldown
    }

    /** How often the host becomes eligible in the steps from i up to n. */
    function Regains(i: nat, n: nat): nat
      requires i <= n <= |steps|
      decreases n - i
    {
      if i == n then 0 else Regains(i, n - 1) + if !Eligible(n - 1) && Eligible(n) then 1 else 0
    }

    function Losses(i: nat, n: nat): nat
      requires i <= n <= |steps|
      decreases n - i
    {
      if i == n then 0 else Losses(i, n - 1) + if Eligible(n - 1) && !Eligible(n) then 1 else 0
    }

    /** The failed probes since the last successful one. */
    function FailRun(n: nat): nat
      requires n <= |steps|
      decreases n
    {
      if n == 0 then 0
      else match steps[n - 1].ev
        case Probe(ok) => if ok then 0 else FailRun(n - 1) + 1
        case _ => FailRun(n - 1)
    }

    /** The successful probes since the last failed one. */
    function OkRun(n: nat): nat
      requires n <= |steps|
      decreases n
    {
      if n == 0 then 0
      else match steps[n - 1].ev
        case Probe(ok) => if ok then OkRun(n - 1) + 1 else 0
        case _ => OkRun(n - 1)
    }
  }

  // ---------- flap bound ----------

  /** How many marks are at or after a time. */
  function Since(marks: seq<Time>, from: Time): (r: nat)
    ensures r <= |marks|
  {
    if |marks| == 0 then 0
    else Since(marks[..|marks| - 1], from) + if marks[|marks| - 1] >= from then 1 else 0
  }

  lemma SinceAppend(marks: seq<Time>, m: Time, from: Time)
    ensures Since(marks + [m], from) == Since(marks, from) + if m >= from then 1 else 0
  {
    assert (marks + [m])[..|marks|] == marks;
  }

  /** Dropping marks older than the window drops none at or after a time inside it. */
  lemma {:induction false} RecentKeeps(marks: seq<Time>, now: Time, window: Time, from: Time)
    requires now - window <= from
    ensures Since(Recent(marks, now, window), from) == Since(marks, from)
  {
    if |marks| > 0 {
      var n := |marks| - 1;
      RecentKeeps(marks[..n], now, window, from);
      var kept := Recent(marks[..n], now, window);
      SinceAppend(kept, marks[n], from);
      assert kept + [] == kept;
    }
  }

  /** From marks m0 and state s0 to m1 and s1: a change of eligibility leaves a mark, no
      mark inside the window is lost, and a host that becomes eligible has no more marks
      than the threshold. */
  ghost predicate Counted(cfg: Config, m0: seq<Time>, s0: Health, m1: seq<Time>, s1: Health, from: Time) {
    && Since(m1, from) >= Since(m0, from) + (if EligibleState(s1) != EligibleState(s0) then 1 else 0)
    && (cfg.flapThreshold > 0 && !EligibleState(s0) && EligibleState(s1) ==> |m1| <= cfg.flapThreshold)
  }

  lemma NotCounted(cfg: Config, marks: seq<Time>, s: Health, from: Time)
    ensures Counted(cfg, marks, s, marks, s, from)
  {}

  /** Where the marks of a change of state come from. */
  lemma EnterShape(cfg: Config, st: Status, to: Health, reason: string, now: Time)
    ensures var r := Enter(cfg, st, to, reason, now);
            if EligibleState(to) == EligibleState(st.state) then r.flapMarks == st.flapMarks
              && EligibleState(r.state) == EligibleState(st.state)
            else r.flapMarks == Recent(st.flapMarks + [now], now, cfg.flapWindow)
    ensures var r := Enter(cfg, st, to, reason, now);
            cfg.flapThreshold > 0 && !EligibleState(st.state) && EligibleState(r.state) ==>
              |r.flapMarks| <= cfg.flapThreshold
  {
    hide Recent;
  }

  lemma EnterCounted(cfg: Config, st: Status, to: Health, reason: string, now: Time, from: Time)
    requires now - cfg.flapWindow <= from <= now
    ensures var r := Enter(cfg, st, to, reason, now); Counted(cfg, st.flapMarks, st.state, r.flapMarks, r.state, from)
  {
    RecentKeeps(st.flapMarks + [now], now, cfg.flapWindow, from);
    SinceAppend(st.flapMarks, now, from);
    EnterShape(cfg, st, to, reason, now);
    hide Enter, Recent, Since, EligibleState;
  }

  /** A host that is made ineligible for good, or keeps its eligibility, ends in the state
      it was sent to; any other may end in cooldown. */
  lemma EnterStays(cfg: Config, st: Status, to: Health, reason: string, now: Time)
    ensures var r := Enter(cfg, st, to, reason, now);
            && (r.state == to || r.state == Cooldown)
            && (to == Ineligible ==> r.state == to)
            && (EligibleState(to) == st.Eligible() ==> r.state == to)
  {}

  lemma TickedCounted(cfg: Config, st: Status, now: Time, from: Time)
    requires now - cfg.flapWindow <= from <= now
    ensures var r := Ticked(cfg, st, now); Counted(cfg, st.flapMarks, st.state, r.flapMarks, r.state, from)
  {
    NotCounted(cfg, st.flapMarks, st.state, from);
    EnterCounted(cfg, st, Unhealthy, st.reason, now, from);
    EnterCounted(cfg, st, Unknown, "", now, from);
    var t := TimerDone(cfg, st, now);
    EnterCounted(cfg, t, Ineligible, "absent from provider", now, from);
    EnterStays(cfg, t, Ineligible, "absent from provider", now);
    hide Enter, Since;
  }

  lemma SeenCounted(cfg: Config, st: Status, h: HostRecord, now: Time, from: Time)
    requires now - cfg.flapWindow <= from <= now
    ensures var r := Seen(cfg, Some(st), h, now); Counted(cfg, st.flapMarks, st.state, r.flapMarks, r.state, from)
  {
    var s := st.(source := h.source, lastSeen := Some(now), present := true, missingAt := None);
    NotCounted(cfg, st.flapMarks, st.state, from);
    EnterCounted(cfg, s, Ineligible, h.reason, now, from);
    EnterCounted(cfg, s, Unknown, "", now, from);
    hide Enter, Counted;
  }

  lemma ProbedCounted(cfg: Config, st: Status, ok: bool, now: Time, from: Time)
    requires now - cfg.flapWindow <= from <= now
    ensures var r := Probed(cfg, st, ok, now); Counted(cfg, st.flapMarks, st.state, r.flapMarks, r.state, from)
  {
    hide ProbeOk, ProbeFailed, Counted;
    if ok { OkCounted(cfg, st, now, from); } else { FailCounted(cfg, st, now, from); }
  }

  lemma OkCounted(cfg: Config, st: Status, now: Time, from: Time)
    requires now - cfg.flapWindow <= from <= now
    ensures var r := ProbeOk(cfg, st, now); Counted(cfg, st.flapMarks, st.state, r.flapMarks, r.state, from)
  {
    NotCounted(cfg, st.flapMarks, st.state, from);
    EnterCounted(cfg, st.(lastSuccess := Some(now), okStreak := st.okStreak + 1, failStreak := 0), Healthy, "", now,
      from);
    hide Enter, Counted;
  }

  lemma FailCounted(cfg: Config, st: Status, now: Time, from: Time)
    requires now - cfg.flapWindow <= from <= now
    ensures var r := ProbeFailed(cfg, st, now); Counted(cfg, st.flapMarks, st.state, r.flapMarks, r.state, from)
  {
    hide Enter, Counted;
    var f := st.(lastFailure := Some(now), failStreak := st.failStreak + 1, okStreak := 0);
    NotCounted(cfg, st.flapMarks, st.state, from);
    if f.failStreak < cfg.unhealthyAfter {
      EnterCounted(cfg, f, Suspect, "probe failing", now, from);
    } else {
      EnterCounted(cfg, f, Pending, "probe failed repeatedly", now, from);
    }
  }

  lemma OthersCounted(cfg: Config, st: Status, ok: bool, now: Time, from: Time)
    requires now - cfg.flapWindow <= from <= now
    ensures var r := Missing(cfg, st, now); Counted(cfg, st.flapMarks, st.state, r.flapMarks, r.state, from)
    ensures var r := Resolved(cfg, st, ok, now); Counted(cfg, st.flapMarks, st.state, r.flapMarks, r.state, from)
  {
    NotCounted(cfg, st.flapMarks, st.state, from);
    EnterCounted(cfg, if st.present then st.(present := false, missingAt := Some(now))
                      else st, Ineligible, "absent from provider", now, from);
    EnterCounted(cfg, st, Unhealthy, "address does not resolve", now, from);
    hide Enter, Counted;
  }

  /** One event of a tracked host. */
  lemma ReactCounted(cfg: Config, id: string, st: Status, ev: Event, now: Time, from: Time)
    requires now - cfg.flapWindow <= from <= now
    ensures var r := React(cfg, id, Some(st), ev, now);
            r.Some? && Counted(cfg, st.flapMarks, st.state, r.value.flapMarks, r.value.state, from)
  {
    NotCounted(cfg, st.flapMarks, st.state, from);
    hide Seen, Missing, Probed, Resolved, Ticked, Counted;
    match ev
    case InSnapshot(h) => SeenCounted(cfg, st, h, now, from);
    case NotInSnapshot => OthersCounted(cfg, st, true, now, from);
    case Probe(ok) => ProbedCounted(cfg, st, ok, now, from);
    case Resolve(ok) => OthersCounted(cfg, st, ok, now, from);
    case Tick => TickedCounted(cfg, st, now, from);
    case _ =>
  }

  lemma {:induction false} FlapSettings(r: Trace, n: nat)
    requires n <= |r.steps| && r.SameFlapSettings()
    ensures var c := r.After(n).cfg;
            c.flapThreshold == r.cfg.flapThreshold && c.flapWindow == r.cfg.flapWindow
              && c.flapCooldown == r.cfg.flapCooldown
  {
    if n > 0 { FlapSettings(r, n - 1); }
    hide React;
  }

  lemma AfterStep(r: Trace, n: nat)
    requires n < |r.steps|
    ensures r.After(n + 1).st == React(r.After(n).cfg, r.id, r.After(n).st, r.steps[n].ev, r.steps[n].now)
  {}

  lemma AtFirst(r: Trace)
    ensures !r.Tracked(0)
  {}

  lemma StaysTracked(r: Trace, n: nat)
    requires n < |r.steps| && r.Tracked(n)
    ensures r.Tracked(n + 1)
  {
    hide Seen, Missing, Probed, Resolved, Ticked, Retimed, MarkedAssigned;
  }

  lemma {:induction false} TrackedFrom(r: Trace, i: nat, n: nat)
    requires i <= n <= |r.steps| && r.Tracked(i)
    ensures r.Tracked(n)
  {
    if i < n {
      TrackedFrom(r, i, n - 1);
      hide Trace.Tracked;
      StaysTracked(r, n - 1);
    }
  }

  /** The marks of a tracked host. */
  function Marks(r: Trace, n: nat): seq<Time>
    requires n <= |r.steps| && r.Tracked(n)
  {
    r.After(n).st.value.flapMarks
  }

  /** One step of a tracked host, counting the marks since an earlier time in the window. */
  lemma StepCounted(r: Trace, i: nat, n: nat, from: Time)
    requires i <= n < |r.steps| && r.SameFlapSettings() && r.Tracked(i) && r.Tracked(n)
    requires r.steps[n].now - r.cfg.flapWindow <= from <= r.steps[n].now
    ensures r.Tracked(n + 1)
    ensures Since(Marks(r, n + 1), from) >= Since(Marks(r, n), from)
              + if r.Eligible(n + 1) != r.Eligible(n) then 1 else 0
    ensures r.cfg.flapThreshold > 0 && !r.Eligible(n) && r.Eligible(n + 1) ==> |Marks(r, n + 1)| <= r.cfg.flapThreshold
  {
    hide React, Since, Trace.SameFlapSettings, Trace.After, EligibleState;
    FlapSettings(r, n);
    AfterStep(r, n);
    var p, s := r.After(n), r.steps[n];
    ReactCounted(p.cfg, r.id, p.st.value, s.ev, s.now, from);
  }

  /** The marks from the first step on count every change since. */
  lemma {:induction false} ChangesMarked(r: Trace, i: nat, n: nat)
    requires i < n <= |r.steps| && r.Clock() && r.SameFlapSettings() && r.Tracked(i)
    requires r.steps[n - 1].now - r.steps[i].now <= r.cfg.flapWindow
    ensures r.Tracked(n)
    ensures r.Regains(i, n) + r.Losses(i, n) <= Since(Marks(r, n), r.steps[i].now)
  {
    hide Since, Marks, Trace.SameFlapSettings, Trace.After, Trace.Tracked, Trace.Eligible, Trace.Clock;
    TrackedFrom(r, i, n - 1);
    ClockOrders(r, i, n - 1);
    if i < n - 1 {
      ClockOrders(r, n - 2, n - 1);
      ChangesMarked(r, i, n - 1);
    }
    StepCounted(r, i, n - 1, r.steps[i].now);
  }

  lemma ClockOrders(r: Trace, i: nat, j: nat)
    requires r.Clock() && i <= j < |r.steps|
    ensures r.steps[i].now <= r.steps[j].now
  {}

  lemma {:induction false} Alternation(r: Trace, i: nat, n: nat)
    requires i <= n <= |r.steps|
    ensures r.Regains(i, n) - r.Losses(i, n) == (if r.Eligible(n) then 1 else 0) - (if r.Eligible(i) then 1 else 0)
  {
    hide Trace.Eligible;
    if i < n { Alternation(r, i, n - 1); }
  }

  /** Flap bound: in any stretch of steps no longer than the flap window, whatever their
      mix, a tracked host regains eligibility g times with 2g - 1 <= flapThreshold. */
  lemma {:induction false} FlapBound(r: Trace, i: nat, n: nat)
    requires i < n <= |r.steps| && r.Clock() && r.SameFlapSettings() && r.cfg.flapThreshold > 0
    requires r.Tracked(i) && r.steps[n - 1].now - r.steps[i].now <= r.cfg.flapWindow
    ensures 2 * r.Regains(i, n) - 1 <= r.cfg.flapThreshold
    decreases n
  {
    hide Since, Marks, Trace.SameFlapSettings, Trace.After, Trace.Tracked, Trace.Eligible, Trace.Clock;
    ClockOrders(r, i, n - 1);
    if !r.Eligible(n - 1) && r.Eligible(n) {
      ChangesMarked(r, i, n);
      Alternation(r, i, n);
      TrackedFrom(r, i, n - 1);
      StepCounted(r, i, n - 1, r.steps[n - 1].now);
    } else if i < n - 1 {
      ClockOrders(r, n - 2, n - 1);
      FlapBound(r, i, n - 1);
    }
  }

  // ---------- why eligibility is lost ----------

  /** The host was found absent at step a and has not been in a snapshot since. */
  ghost predicate AbsentSince(r: Trace, a: nat, n: nat) {
    a < n <= |r.steps| && r.steps[a].ev.NotInSnapshot? && forall j :: a <= j < n ==> !r.steps[j].ev.InSnapshot?
  }

  /** Resolution of a tracked host failed at step a and has not succeeded since. */
  ghost predicate UnresolvedSince(r: Trace, a: nat, n: nat) {
    && a < n <= |r.steps| && r.Tracked(a) && r.steps[a].ev == Resolve(false)
    && forall j :: a <= j < n ==> r.steps[j].ev != Resolve(true)
  }

  /** At step a the failed probes in a row reached the limit, and the host has been
      pending since. */
  ghost predicate PendingSince(r: Trace, a: nat, n: nat) {
    && a < n <= |r.steps| && r.steps[a].ev == Probe(false)
    && r.FailRun(a + 1) >= r.After(a).cfg.unhealthyAfter
    && forall j :: a < j <= n ==> r.Tracked(j) && r.After(j).st.value.state == Pending
  }

  /** Changing state touches neither the absence nor the resolution record. */
  lemma EnterKeeps(cfg: Config, st: Status, to: Health, reason: string, now: Time)
    ensures var r := Enter(cfg, st, to, reason, now);
            r.missingAt == st.missingAt && r.resolveFail == st.resolveFail && r.present == st.present
              && r.failStreak == st.failStreak && r.okStreak == st.okStreak
  {}

  lemma {:induction false} MissingOrigin(r: Trace, n: nat) returns (a: nat)
    requires n <= |r.steps| && r.Tracked(n) && r.After(n).st.value.missingAt.Some?
    ensures AbsentSince(r, a, n) && r.After(n).st.value.missingAt == Some(r.steps[a].now)
  {
    AtFirst(r);
    AfterStep(r, n - 1);
    var p, s := r.After(n - 1), r.steps[n - 1];
    MissingKept(p.cfg, r.id, p.st, s.ev, s.now);
    hide React, Trace.After;
    if s.ev.NotInSnapshot? && p.st.value.present {
      a := n - 1;
    } else {
      a := MissingOrigin(r, n - 1);
    }
  }

  lemma MissingKept(cfg: Config, id: string, cur: Option<Status>, ev: Event, now: Time)
    ensures var r := React(cfg, id, cur, ev, now);
            (r.Some? && r.value.missingAt.Some? ==>
                 && cur.Some? && !ev.InSnapshot?
                 && r.value.missingAt == if ev.NotInSnapshot? && cur.value.present then Some(now)
                                         else cur.value.missingAt)
  {
    AllEntersKeep(cfg);
    hide Enter;
  }

  lemma AllEntersKeep(cfg: Config)
    ensures forall st: Status, to, reason, now ::
              var r := Enter(cfg, st, to, reason, now);
              r.missingAt == st.missingAt && r.resolveFail == st.resolveFail && r.present == st.present
              && r.failStreak == st.failStreak && r.okStreak == st.okStreak
  {
    forall st: Status, to, reason, now
      ensures var r := Enter(cfg, st, to, reason, now);
              r.missingAt == st.missingAt && r.resolveFail == st.resolveFail && r.present == st.present
              && r.failStreak == st.failStreak && r.okStreak == st.okStreak
    {
      EnterKeeps(cfg, st, to, reason, now);
    }
  }

  lemma {:induction false} ResolveOrigin(r: Trace, n: nat) returns (a: nat)
    requires n <= |r.steps| && r.Tracked(n) && r.After(n).st.value.resolveFail.Some?
    ensures UnresolvedSince(r, a, n) && r.After(n).st.value.resolveFail == Some(r.steps[a].now)
  {
    AtFirst(r);
    AfterStep(r, n - 1);
    var p, s := r.After(n - 1), r.steps[n - 1];
    ResolveRecord(p.cfg, r.id, p.st, s.ev, s.now);
    hide React, Trace.After;
    if s.ev == Resolve(false) && p.st.value.resolveFail.None? {
      a := n - 1;
    } else {
      a := ResolveOrigin(r, n - 1);
    }
  }

  lemma ResolveRecord(cfg: Config, id: string, cur: Option<Status>, ev: Event, now: Time)
    ensures var r := React(cfg, id, cur, ev, now);
            && (cur.Some? ==>
                 && r.Some?
                 && r.value.resolveFail == if ev == Resolve(true) then None
                                           else if ev == Resolve(false) && cur.value.resolveFail.None? then Some(now)
                                           else cur.value.resolveFail)
            && (cur.None? && r.Some? ==> r.value.resolveFail == None)
  {
    AllEntersKeep(cfg);
    hide Enter;
  }

  /** The recorded streak never exceeds the real run of failed probes. */
  lemma {:induction false} StreakIsReal(r: Trace, n: nat)
    requires n <= |r.steps|
    ensures r.Tracked(n) ==> r.After(n).st.value.failStreak <= r.FailRun(n)
  {
    if n > 0 {
      StreakIsReal(r, n - 1);
      var p, s := r.After(n - 1), r.steps[n - 1];
      StreakKept(p.cfg, r.id, p.st, s.ev, s.now);
      hide React;
    }
  }

  lemma StreakKept(cfg: Config, id: string, cur: Option<Status>, ev: Event, now: Time)
    ensures var r := React(cfg, id, cur, ev, now);
            var was := if cur.Some? then cur.value.failStreak else 0;
            r.Some? ==>
              r.value.failStreak
                <= (match ev case Probe(ok) => (if ok then 0 else was + 1) case _ => if was < 0 then 0 else was)
  {
    AllEntersKeep(cfg);
    hide Enter;
  }

  /** How a host comes to be pending, or stays so. */
  ghost predicate PendingStep(cfg: Config, cur: Option<Status>, ev: Event, now: Time, r: Status) {
    r.state == Pending ==>
      if cur.Some? && cur.value.state == Pending then
        && r.markedAt == cur.value.markedAt
        && r.releaseAt == (if ev.Reload? && cur.value.markedAt.Some? then
             Some(cur.value.markedAt.value + ev.cfg.releaseHold)
                           else cur.value.releaseAt)
      else
        && ev == Probe(false) && r.markedAt == Some(now) && r.releaseAt == Some(now + cfg.releaseHold)
        && r.failStreak >= cfg.unhealthyAfter
  }

  lemma EnterPending(cfg: Config, st: Status, to: Health, reason: string, now: Time)
    ensures var r := Enter(cfg, st, to, reason, now);
            && r.failStreak == st.failStreak
            && (r.state == Pending ==> to == Pending)
            && (st.state == to ==> r == st.(reason := r.reason))
  {}

  lemma PendingKept(cfg: Config, id: string, cur: Option<Status>, ev: Event, now: Time)
    ensures var r := React(cfg, id, cur, ev, now); r.Some? ==> PendingStep(cfg, cur, ev, now, r.value)
  {
    hide Enter;
    match ev
    case InSnapshot(h) =>
      var known := if cur.Some? then cur.value else NewStatus(h.id, now);
    var st := known.(source := h.source, lastSeen := Some(now), present := true, missingAt := None);
      EnterPending(cfg, st, Ineligible, h.reason, now);
      EnterPending(cfg, st, Unknown, "", now);
    case NotInSnapshot =>
      if cur.Some? {
        var st := if cur.value.present then cur.value.(present := false, missingAt := Some(now)) else cur.value;
        EnterPending(cfg, st, Ineligible, "absent from provider", now);
      }
    case Probe(ok) =>
      var st := if cur.Some? then cur.value else NewStatus(id, now);
      if ok {
        EnterPending(cfg, st.(lastSuccess := Some(now), okStreak := st.okStreak + 1, failStreak := 0), Healthy, "",
          now);
      } else {
        FailPending(cfg, st, now);
        hide ProbeFailed;
      }
    case Resolve(ok) => if cur.Some? { EnterPending(cfg, cur.value, Unhealthy, "address does not resolve", now); }
    case Tick => if cur.Some? { TickPending(cfg, cur.value, now); hide Ticked; }
    case _ =>
  }

  lemma FailPending(cfg: Config, st: Status, now: Time)
    ensures PendingStep(cfg, Some(st), Probe(false), now, ProbeFailed(cfg, st, now))
  {
    hide Enter;
    var f := st.(lastFailure := Some(now), failStreak := st.failStreak + 1, okStreak := 0);
    EnterPending(cfg, f, Suspect, "probe failing", now);
    EnterPending(cfg, f, Pending, "probe failed repeatedly", now);
  }

  lemma TickPending(cfg: Config, st: Status, now: Time)
    ensures PendingStep(cfg, Some(st), Tick, now, Ticked(cfg, st, now))
  {
    hide Enter;
    EnterPending(cfg, st, Unhealthy, st.reason, now);
    EnterPending(cfg, st, Unknown, "", now);
    EnterPending(cfg, TimerDone(cfg, st, now), Ineligible, "absent from provider", now);
  }

  /** The last step of a pending host: it was pending before, or it became so. */
  lemma PendingLast(r: Trace, n: nat)
    requires n < |r.steps| && r.Tracked(n + 1) && r.After(n + 1).st.value.state == Pending
    ensures PendingStep(r.After(n).cfg, r.After(n).st, r.steps[n].ev, r.steps[n].now, r.After(n + 1).st.value)
    ensures r.After(n + 1).st.value.failStreak <= r.FailRun(n + 1)
    ensures r.After(n + 1).cfg == if r.steps[n].ev.Reload? then r.steps[n].ev.cfg else r.After(n).cfg
  {
    hide React, Trace.After, Trace.FailRun, PendingStep;
    AfterStep(r, n);
    AfterConfig(r, n);
    StreakIsReal(r, n + 1);
    PendingKept(r.After(n).cfg, r.id, r.After(n).st, r.steps[n].ev, r.steps[n].now);
  }

  /** The record of a host pending since step a: its mark, and its release time under the
      hold now in force. */
  ghost predicate PendingRecord(r: Trace, a: nat, n: nat) {
    && PendingSince(r, a, n)
    && r.After(n).st.value.markedAt == Some(r.steps[a].now)
    && r.After(n).st.value.releaseAt == Some(r.steps[a].now + r.After(n).cfg.releaseHold)
  }

  /** A pending host has been pending since its failed probes reached the limit, and its
      release time is that moment plus the hold now in force, also after a reload. */
  lemma {:induction false} PendingOrigin(r: Trace, n: nat) returns (a: nat)
    requires n <= |r.steps| && r.Tracked(n) && r.After(n).st.value.state == Pending
    ensures PendingRecord(r, a, n)
  {
    hide PendingRecord, Trace.After;
    AtFirst(r);
    if r.Tracked(n - 1) && r.After(n - 1).st.value.state == Pending {
      a := PendingOrigin(r, n - 1);
      PendingGoesOn(r, a, n - 1);
    } else {
      a := n - 1;
      PendingStarts(r, n - 1);
    }
  }

  lemma AfterConfig(r: Trace, n: nat)
    requires n < |r.steps|
    ensures r.After(n + 1).cfg == if r.steps[n].ev.Reload? then r.steps[n].ev.cfg else r.After(n).cfg
  {}

  lemma PendingGoesOn(r: Trace, a: nat, n: nat)
    requires n < |r.steps| && PendingRecord(r, a, n) && r.Tracked(n + 1) && r.After(n + 1).st.value.state == Pending
    ensures PendingRecord(r, a, n + 1)
  {
    hide Trace.After, Trace.FailRun;
    PendingLast(r, n);
  }

  lemma PendingStarts(r: Trace, n: nat)
    requires n < |r.steps| && !(r.Tracked(n) && r.After(n).st.value.state == Pending)
    requires r.Tracked(n + 1) && r.After(n + 1).st.value.state == Pending
    ensures PendingRecord(r, n, n + 1)
  {
    hide Trace.After, Trace.FailRun;
    PendingLast(r, n);
  }

  /** The reasons one event can have for making an eligible host ineligible. */
  lemma LossReason(cfg: Config, id: string, st: Status, ev: Event, now: Time)
    requires st.Eligible()
    ensures var r := React(cfg, id, Some(st), ev, now);
            r.Some? && !r.value.Eligible() ==>
              || (ev.InSnapshot? && !ev.host.healthy)
              || ((ev.NotInSnapshot? || ev.Tick?) && GraceOver(cfg, r.value, now))
              || (ev == Resolve(false) && st.resolveFail.Some? && now - st.resolveFail.value >= cfg.dnsGrace)
              || (ev.Tick? && st.state == Pending && Expired(st.releaseAt, now))
  {
    AllEntersKeep(cfg);
    AllEntersLose(cfg);
    hide Enter;
  }

  lemma AllEntersLose(cfg: Config)
    ensures forall st: Status, to, reason, now :: st.Eligible() && EligibleState(to) ==>
              Enter(cfg, st, to, reason, now).Eligible()
  {}

  /** Release hysteresis: a host loses eligibility only because the provider marks it
      unhealthy, or it has been absent for the missing grace, or its address has not
      resolved for the DNS grace, or its failed probes in a row reached the limit and it
      then stayed pending for the release hold. */
  lemma LossHasCause(r: Trace, n: nat)
    requires n < |r.steps| && r.Eligible(n) && !r.Eligible(n + 1)
    ensures var cfg, s := r.After(n).cfg, r.steps[n];
            || (s.ev.InSnapshot? && !s.ev.host.healthy)
            || ((s.ev.NotInSnapshot? || s.ev.Tick?)
                 && exists a: nat :: AbsentSince(r, a, n + 1) && s.now >= r.steps[a].now + cfg.missingGrace)
            || (s.ev == Resolve(false) && exists a: nat ::
                 UnresolvedSince(r, a, n) && s.now >= r.steps[a].now + cfg.dnsGrace)
            || (s.ev.Tick? && exists a: nat :: PendingSince(r, a, n) && s.now >= r.steps[a].now + cfg.releaseHold)
  {
    var p, s := r.After(n), r.steps[n];
    StaysTracked(r, n);
    LossReason(p.cfg, r.id, p.st.value, s.ev, s.now);
    hide React, AbsentSince, UnresolvedSince, PendingSince;
    var q := r.After(n + 1).st.value;
    if (s.ev.NotInSnapshot? || s.ev.Tick?) && GraceOver(p.cfg, q, s.now) {
      var a := MissingOrigin(r, n + 1);
    } else if s.ev == Resolve(false) && p.st.value.resolveFail.Some? {
      var a := ResolveOrigin(r, n);
    } else if s.ev.Tick? && p.st.value.state == Pending {
      var a := PendingOrigin(r, n);
    }
  }

  // ---------- timers ----------

  /** Before its earliest deadline a tick leaves a host alone. */
  lemma TickEarly(cfg: Config, st: Status, now: Time)
    requires forall t :: t in Deadlines(cfg, st) ==> now < t
    ensures Ticked(cfg, st, now) == st
  {
    if st.state == Pending && st.releaseAt.Some? { assert st.releaseAt.value in Deadlines(cfg, st); }
    if st.state == Cooldown && st.cooldownEnd.Some? { assert st.cooldownEnd.value in Deadlines(cfg, st); }
    if st.missingAt.Some? && st.state != Ineligible {
      assert st.missingAt.value + cfg.missingGrace in Deadlines(cfg, st);
    }
  }

  /** After a tick every deadline that is left lies in the future. */
  lemma TickSettles(cfg: Config, st: Status, now: Time)
    requires cfg.flapCooldown > 0
    ensures forall t :: t in Deadlines(cfg, Ticked(cfg, st, now)) ==> now < t
  {
    EnterStays(cfg, st, Unhealthy, st.reason, now);
    EnterStays(cfg, st, Unknown, "", now);
    EnterTimers(cfg, st, Unhealthy, st.reason, now);
    EnterTimers(cfg, st, Unknown, "", now);
    var t := TimerDone(cfg, st, now);
    EnterStays(cfg, t, Ineligible, "absent from provider", now);
    EnterTimers(cfg, t, Ineligible, "absent from provider", now);
    hide Enter;
  }

  lemma EnterTimers(cfg: Config, st: Status, to: Health, reason: string, now: Time)
    ensures var r := Enter(cfg, st, to, reason, now);
            && r.missingAt == st.missingAt
            && (r.state == Cooldown && st.state != Cooldown && to != Cooldown ==>
                 r.cooldownEnd == Some(now + cfg.flapCooldown))
            && (r.state == Cooldown && st.state == Cooldown && to != Cooldown ==>
                 r.cooldownEnd == Some(now + cfg.flapCooldown))
  {}

  /** What a tracker's next deadline is: the least timer of any host. */
  ghost predicate IsNext(cfg: Config, hosts: map<string, Status>, next: Option<Time>) {
    && (next.None? <==> forall id :: id in hosts ==> Deadlines(cfg, hosts[id]) == {})
    && (next.Some? ==>
          && (exists id :: id in hosts && next.value in Deadlines(cfg, hosts[id]))
          && forall id, t :: id in hosts && t in Deadlines(cfg, hosts[id]) ==> next.value <= t)
  }

  /** Timer agreement: a tick before the next deadline changes no host, and after any tick
      the next deadline lies in the future, so the loop that wakes at the deadline neither
      misses a timer nor spins on one. */
  lemma TimersAgree(cfg: Config, hosts: map<string, Status>, after: map<string, Status>, next: Option<Time>,
                    then_: Option<Time>, now: Time)
    requires cfg.flapCooldown > 0 && IsNext(cfg, hosts, next) && IsNext(cfg, after, then_)
    requires forall id :: At(after, id) == React(cfg, id, At(hosts, id), Tick, now)
    ensures (next.Some? ==> now < next.value) ==> after == hosts
    ensures then_.Some? ==> now < then_.value
  {
    hide Ticked, Deadlines;
    forall id ensures id in after <==> id in hosts { assert At(after, id) == React(cfg, id, At(hosts, id), Tick, now); }
    forall id | id in hosts
      ensures after[id] == Ticked(cfg, hosts[id], now) && forall t :: t in Deadlines(cfg, after[id]) ==> now < t
    {
      assert At(after, id) == React(cfg, id, At(hosts, id), Tick, now);
      TickSettles(cfg, hosts[id], now);
    }
    if next.Some? ==> now < next.value {
      forall id | id in hosts ensures after[id] == hosts[id] { TickEarly(cfg, hosts[id], now); }
    }
  }

  /** No mark lies in the future; those of a host in cooldown are at least a whole
      cooldown older than its end. */
  ghost predicate MarksOld(st: Status, now: Time, cooldown: Time) {
    && (forall m :: m in st.flapMarks ==> m <= now)
    && (st.state == Cooldown ==> st.cooldownEnd.Some? && forall m :: m in st.flapMarks ==>
         m <= st.cooldownEnd.value - cooldown)
  }

  lemma EnterMarksOld(cfg: Config, st: Status, to: Health, reason: string, now: Time)
    requires MarksOld(st, now, cfg.flapCooldown) && to != Cooldown
    ensures MarksOld(Enter(cfg, st, to, reason, now), now, cfg.flapCooldown)
  {}

  lemma ReactMarksOld(cfg: Config, id: string, cur: Option<Status>, ev: Event, now: Time)
    requires cur.Some? ==> MarksOld(cur.value, now, cfg.flapCooldown)
    ensures var r := React(cfg, id, cur, ev, now); r.Some? ==> MarksOld(r.value, now, cfg.flapCooldown)
  {
    SameMarks(now, cfg.flapCooldown);
    hide Seen, Missing, Probed, Resolved, Ticked, MarksOld;
    match ev
    case InSnapshot(h) => SeenMarksOld(cfg, cur, h, now);
    case NotInSnapshot => if cur.Some? { OthersMarksOld(cfg, cur.value, true, now); }
    case Probe(ok) => ProbedMarksOld(cfg, if cur.Some? then cur.value else NewStatus(id, now), ok, now);
    case Resolve(ok) => if cur.Some? { OthersMarksOld(cfg, cur.value, ok, now); }
    case Tick => if cur.Some? { TickedMarksOld(cfg, cur.value, now); }
    case _ =>
  }

  lemma SeenMarksOld(cfg: Config, cur: Option<Status>, h: HostRecord, now: Time)
    requires cur.Some? ==> MarksOld(cur.value, now, cfg.flapCooldown)
    ensures MarksOld(Seen(cfg, cur, h, now), now, cfg.flapCooldown)
  {
    SameMarks(now, cfg.flapCooldown);
    hide Enter, MarksOld;
    var known := if cur.Some? then cur.value else NewStatus(h.id, now);
    var st := known.(source := h.source, lastSeen := Some(now), present := true, missingAt := None);
    EnterMarksOld(cfg, st, Ineligible, h.reason, now);
    EnterMarksOld(cfg, st, Unknown, "", now);
  }

  lemma OthersMarksOld(cfg: Config, st: Status, ok: bool, now: Time)
    requires MarksOld(st, now, cfg.flapCooldown)
    ensures MarksOld(Missing(cfg, st, now), now, cfg.flapCooldown)
              && MarksOld(Resolved(cfg, st, ok, now), now, cfg.flapCooldown)
  {
    SameMarks(now, cfg.flapCooldown);
    hide Enter, MarksOld;
    EnterMarksOld(cfg, if st.present then st.(present := false, missingAt := Some(now))
                       else st, Ineligible, "absent from provider", now);
    EnterMarksOld(cfg, st, Unhealthy, "address does not resolve", now);
  }

  lemma ProbedMarksOld(cfg: Config, st: Status, ok: bool, now: Time)
    requires MarksOld(st, now, cfg.flapCooldown)
    ensures MarksOld(Probed(cfg, st, ok, now), now, cfg.flapCooldown)
  {
    SameMarks(now, cfg.flapCooldown);
    hide Enter, MarksOld;
    var f := st.(lastFailure := Some(now), failStreak := st.failStreak + 1, okStreak := 0);
    EnterMarksOld(cfg, st.(lastSuccess := Some(now), okStreak := st.okStreak + 1, failStreak := 0), Healthy, "", now);
    EnterMarksOld(cfg, f, Suspect, "probe failing", now);
    EnterMarksOld(cfg, f, Pending, "probe failed repeatedly", now);
  }

  lemma TickedMarksOld(cfg: Config, st: Status, now: Time)
    requires MarksOld(st, now, cfg.flapCooldown)
    ensures MarksOld(Ticked(cfg, st, now), now, cfg.flapCooldown)
  {
    SameMarks(now, cfg.flapCooldown);
    hide Enter, MarksOld;
    EnterMarksOld(cfg, st, Unhealthy, st.reason, now);
    EnterMarksOld(cfg, st, Unknown, "", now);
    EnterMarksOld(cfg, TimerDone(cfg, st, now), Ineligible, "absent from provider", now);
  }

  /** Only the marks, the state and the end of the cooldown matter. */
  lemma SameMarks(now: Time, cooldown: Time)
    ensures forall s: Status, t: Status ::
              && MarksOld(s, now, cooldown)
              && t.flapMarks == s.flapMarks && t.state == s.state && t.cooldownEnd == s.cooldownEnd
              ==> MarksOld(t, now, cooldown)
    ensures forall id :: MarksOld(NewStatus(id, now), now, cooldown)
  {}

  lemma {:induction false} TraceMarksOld(r: Trace, n: nat, now: Time)
    requires n <= |r.steps| && r.Clock() && r.SameFlapSettings() && (n > 0 ==> r.steps[n - 1].now <= now)
    ensures r.Tracked(n) ==> MarksOld(r.After(n).st.value, now, r.cfg.flapCooldown)
  {
    if n > 0 {
      var p, s := r.After(n - 1), r.steps[n - 1];
      TraceMarksOld(r, n - 1, s.now);
      FlapSettings(r, n - 1);
      ReactMarksOld(p.cfg, r.id, p.st, s.ev, s.now);
      hide React;
    }
  }

  /** When the cooldown is longer than the flap window, the first tick at or after the end
      of a cooldown releases a present host instead of renewing the cooldown. */
  lemma CooldownReleases(r: Trace, n: nat)
    requires n < |r.steps| && r.Clock() && r.SameFlapSettings() && r.cfg.flapCooldown > r.cfg.flapWindow >= 0
    requires r.Tracked(n) && r.After(n).st.value.state == Cooldown && r.After(n).st.value.missingAt.None?
    requires r.steps[n].ev.Tick? && Expired(r.After(n).st.value.cooldownEnd, r.steps[n].now)
    ensures r.Tracked(n + 1) && r.After(n + 1).st.value.state == Unknown && r.Eligible(n + 1)
  {
    var p, s := r.After(n), r.steps[n];
    TraceMarksOld(r, n, s.now);
    FlapSettings(r, n);
    OldMarksGo(p.st.value.flapMarks, s.now, p.cfg.flapWindow);
    assert r.After(n + 1).st == Some(Ticked(p.cfg, p.st.value, s.now));
    hide Recent, React;
  }

  lemma OldMarksGo(marks: seq<Time>, now: Time, window: Time)
    requires window >= 0 && forall m :: m in marks ==> now - m > window
    ensures Recent(marks + [now], now, window) == [now]
  {
    assert (marks + [now])[..|marks|] == marks;
    OldMarksDrop(marks, now, window);
  }

  // ---------- readmission ----------

  /** When the next probe makes an unhealthy host eligible again: a success needs the
      configured run of successes, but a failure needs only to be an early one. */
  lemma ReadmissionExact(cfg: Config, st: Status, ok: bool, now: Time)
    requires st.state == Unhealthy
    ensures Probed(cfg, st, ok, now).Eligible() <==>
              (if ok then st.okStreak + 1 >= cfg.healthyAfter else st.failStreak + 1 < cfg.unhealthyAfter)
                && !Flaps(cfg, st, now)
  {
    hide Recent;
  }

  /** A probe makes a tracked host eligible again. */
  ghost predicate Readmits(r: Trace, n: nat) {
    n < |r.steps| && r.steps[n].ev.Probe? && r.Tracked(n) && !r.Eligible(n) && r.Eligible(n + 1)
  }

  /** A run of events under one configuration. */
  ghost predicate Constant(r: Trace, cfg: Config) {
    r.cfg == cfg && r.Clock() && forall i :: 0 <= i < |r.steps| ==> !r.steps[i].ev.Reload?
  }

  /** Readmission has the configured run of successes before it if and only if a single
      failed probe counts as a failure, or no successes are asked for. */
  lemma ReadmissionEarned(cfg: Config)
    ensures (forall r, n: nat :: Constant(r, cfg) && Readmits(r, n) ==> r.OkRun(n + 1) >= cfg.healthyAfter)
              <==> cfg.unhealthyAfter <= 1 || cfg.healthyAfter <= 0
  {
    hide Constant, Trace.OkRun, Trace.After;
    if cfg.unhealthyAfter <= 1 || cfg.healthyAfter <= 0 {
      forall r, n: nat | Constant(r, cfg) && Readmits(r, n) ensures r.OkRun(n + 1) >= cfg.healthyAfter {
        Earned(r, n, cfg);
      }
    } else {
      var r, n := Unearned(cfg);
      assert r.OkRun(n + 1) < cfg.healthyAfter;
    }
  }

  lemma {:induction false} SettingsStay(r: Trace, n: nat, cfg: Config)
    requires Constant(r, cfg) && n <= |r.steps|
    ensures r.After(n).cfg == cfg
  {
    hide React;
    if n > 0 { SettingsStay(r, n - 1, cfg); }
  }

  /** The streaks a record shows are within the real runs of probes. */
  ghost predicate StreaksWithin(st: Option<Status>, oks: int) {
    st.Some? ==> st.value.failStreak >= 0 && st.value.okStreak <= oks
  }

  lemma StreaksStep(cfg: Config, id: string, cur: Option<Status>, ev: Event, now: Time, oks: nat)
    requires StreaksWithin(cur, oks)
    ensures StreaksWithin(React(cfg, id, cur, ev, now),
              match ev case Probe(ok) => (if ok then oks + 1 else 0) case _ => oks)
  {
    AllEntersKeep(cfg);
    hide Enter;
  }

  lemma {:induction false} StreaksAlong(r: Trace, n: nat)
    requires n <= |r.steps|
    ensures StreaksWithin(r.After(n).st, r.OkRun(n))
  {
    hide React, StreaksWithin;
    if n == 0 {
      NoStreaks();
    } else {
      StreaksAlong(r, n - 1);
      StreaksStep(r.After(n - 1).cfg, r.id, r.After(n - 1).st, r.steps[n - 1].ev, r.steps[n - 1].now, r.OkRun(n - 1));
    }
  }

  lemma NoStreaks()
    ensures StreaksWithin(None, 0)
  {}

  lemma ProbeReadmits(cfg: Config, st: Status, ok: bool, now: Time)
    requires !st.Eligible() && Probed(cfg, st, ok, now).Eligible()
    ensures st.state == Unhealthy
  {
    hide Enter;
  }

  lemma Earned(r: Trace, n: nat, cfg: Config)
    requires Constant(r, cfg) && Readmits(r, n) && (cfg.unhealthyAfter <= 1 || cfg.healthyAfter <= 0)
    ensures r.OkRun(n + 1) >= cfg.healthyAfter
  {
    SettingsStay(r, n, cfg);
    StreaksAlong(r, n);
    AfterStep(r, n);
    hide Trace.After, Probed, Constant, Flaps;
    var st, s := r.After(n).st.value, r.steps[n];
    ProbeReadmits(cfg, st, s.ev.ok, s.now);
    ReadmissionExact(cfg, st, s.ev.ok, s.now);
  }

  /** Otherwise one failed probe readmits: the address does not resolve until the host is
      unhealthy, the flap window passes, and the first failure only makes it suspect. */
  lemma Unearned(cfg: Config) returns (r: Trace, n: nat)
    requires cfg.unhealthyAfter > 1 && cfg.healthyAfter > 0
    ensures Constant(r, cfg) && Readmits(r, n) && r.OkRun(n + 1) == 0
  {
    var g := if cfg.dnsGrace > 0 then cfg.dnsGrace else 0;
    var t := g + 1 + if cfg.flapWindow > 0 then cfg.flapWindow else 0;
    var h := HostRecord("h", "", map[], "file", true, "", 0);
    r, n := Trace("h", cfg, [Step(InSnapshot(h), 0), Step(Resolve(false), 0), Step(Resolve(false), g),
      Step(Probe(false), t)]), 3;
    hide Trace.After, Trace.OkRun, Resolved, Flaps, Readmits;
    Unresolving(r, g);
    var s2, s3 := r.After(2).st.value, r.After(3).st.value;
    LoneMark(cfg, s2, g);
    NextMark(cfg, s3, g, t);
    ReadmitsAtOnce(r, n, cfg);
  }

  /** A first failed probe readmits an unhealthy host that does not flap. */
  lemma ReadmitsAtOnce(r: Trace, n: nat, cfg: Config)
    requires Constant(r, cfg) && n < |r.steps| && r.steps[n].ev == Probe(false) && cfg.unhealthyAfter > 1
    requires r.Tracked(n) && r.After(n).st.value.state == Unhealthy && r.After(n).st.value.failStreak == 0
    requires !Flaps(cfg, r.After(n).st.value, r.steps[n].now)
    ensures Readmits(r, n) && r.OkRun(n + 1) == 0
  {
    AfterStep(r, n);
    SettingsStay(r, n, cfg);
    ReadmissionExact(cfg, r.After(n).st.value, false, r.steps[n].now);
    hide Trace.After, Probed, Flaps, Constant;
  }

  lemma Unresolving(r: Trace, g: Time)
    requires |r.steps| > 2 && r.steps[0].ev.InSnapshot? && r.steps[0].ev.host.healthy
    requires r.steps[1] == Step(Resolve(false), 0) && r.steps[2] == Step(Resolve(false), g)
    ensures r.After(2).st.Some? && r.After(3).st == Some(Resolved(r.cfg, r.After(2).st.value, false, g))
    ensures var st := r.After(2).st.value;
            st.state == Unknown && st.flapMarks == [] && st.resolveFail == Some(0) && st.failStreak == 0
  {
    hide Enter, Ticked, Probed, Missing;
    assert r.After(1).st == Some(Seen(r.cfg, None, r.steps[0].ev.host, r.steps[0].now));
    assert r.After(2).st == Some(Resolved(r.cfg, r.After(1).st.value, false, 0));
  }

  /** A host without marks becomes unhealthy and keeps at most the new mark. */
  lemma LoneMark(cfg: Config, st: Status, now: Time)
    requires st.state == Unknown && st.flapMarks == [] && st.resolveFail.Some?
               && now - st.resolveFail.value >= cfg.dnsGrace
    ensures var r := Resolved(cfg, st, false, now);
            r.state == Unhealthy && r.failStreak == st.failStreak && |r.flapMarks| <= 1
              && forall m :: m in r.flapMarks ==> m == now
  {
    RecentShorter([] + [now], now, cfg.flapWindow);
    hide Recent;
  }

  /** Once the flap window has passed, one more change does not flap. */
  lemma NextMark(cfg: Config, st: Status, then_: Time, now: Time)
    requires (forall m :: m in st.flapMarks ==> m == then_) && now - then_ > cfg.flapWindow
    ensures !Flaps(cfg, st, now)
  {
    OldMarksDrop(st.flapMarks, now, cfg.flapWindow);
    assert (st.flapMarks + [now])[..|st.flapMarks|] == st.flapMarks;
  }

  /** Marks older than the window are dropped. */
  lemma {:induction false} OldMarksDrop(marks: seq<Time>, now: Time, window: Time)
    requires forall m :: m in marks ==> now - m > window
    ensures Recent(marks, now, window) == []
  {
    if |marks| > 0 {
      var n := |marks| - 1;
      forall m | m in marks[..n] ensures now - m > window { assert m in marks; }
      OldMarksDrop(marks[..n], now, window);
      assert marks[n] in marks;
    }
  }

  /** With three failures and two successes asked for, one success and then one failure
      readmit a host that three failures had made unhealthy. */
  lemma EarlyReadmission(h: HostRecord)
    requires h.healthy
    ensures var r := Trace(h.id, Config(3, 2, 60, 60, 60, 3, 600, 900),
                           [Step(InSnapshot(h), 0), Step(Probe(false), 10), Step(Probe(false), 20),
                            Step(Probe(false), 30), Step(Tick, 90), Step(Probe(true), 100), Step(Probe(false), 115)]);
            Readmits(r, 6) && r.OkRun(6) == 1 && r.OkRun(7) == 0
  {
    hide React, EligibleState;
    var cfg := Config(3, 2, 60, 60, 60, 3, 600, 900);
    var r := Trace(h.id, cfg,
                   [Step(InSnapshot(h), 0), Step(Probe(false), 10), Step(Probe(false), 20), Step(Probe(false), 30),
                    Step(Tick, 90), Step(Probe(true), 100), Step(Probe(false), 115)]);
    var s1, s2, s3, s4 := ThreeFailures(cfg, h);
    var s5, s6, s7 := ReleaseAndReturn(cfg, h.id, s4);
    assert r.After(0) == Point(cfg, None);
    assert r.After(1) == Point(cfg, Some(s1));
    assert r.After(2) == Point(cfg, Some(s2));
    assert r.After(3) == Point(cfg, Some(s3));
    assert r.After(4) == Point(cfg, Some(s4));
    assert r.After(5) == Point(cfg, Some(s5));
    assert r.After(6) == Point(cfg, Some(s6));
    assert r.After(7) == Point(cfg, Some(s7));
  }

  /** The snapshot and three failures make the host pending. */
  lemma ThreeFailures(cfg: Config, h: HostRecord) returns (s1: Status, s2: Status, s3: Status, s4: Status)
    requires h.healthy && cfg.unhealthyAfter == 3 && cfg.releaseHold == 60
    ensures React(cfg, h.id, None, InSnapshot(h), 0) == Some(s1)
    ensures React(cfg, h.id, Some(s1), Probe(false), 10) == Some(s2)
    ensures React(cfg, h.id, Some(s2), Probe(false), 20) == Some(s3)
    ensures React(cfg, h.id, Some(s3), Probe(false), 30) == Some(s4)
    ensures s4.state == Pending && s4.flapMarks == [] && s4.releaseAt == Some(90) && s4.missingAt == None
    ensures s4.okStreak == 0
  {
    hide Recent, Flaps;
    s1 := NewStatus(h.id, 0).(source := h.source, lastSeen := Some(0), present := true);
    s2 := s1.(lastFailure := Some(10), failStreak := 1, state := Suspect, reason := "probe failing");
    s3 := s2.(lastFailure := Some(20), failStreak := 2);
    s4 := s3.(lastFailure := Some(30), failStreak := 3, state := Pending, reason := "probe failed repeatedly",
              markedAt := Some(30), releaseAt := Some(90));
  }

  /** The hold ends, one success does not readmit, one failure then does. */
  lemma ReleaseAndReturn(cfg: Config, id: string, s4: Status) returns (s5: Status, s6: Status, s7: Status)
    requires cfg == Config(3, 2, 60, 60, 60, 3, 600, 900)
    requires s4.state == Pending && s4.flapMarks == [] && s4.releaseAt == Some(90) && s4.missingAt == None
    requires s4.okStreak == 0
    ensures React(cfg, id, Some(s4), Tick, 90) == Some(s5)
    ensures React(cfg, id, Some(s5), Probe(true), 100) == Some(s6) && !s6.Eligible()
    ensures React(cfg, id, Some(s6), Probe(false), 115) == Some(s7) && s7.Eligible()
  {
    OneMark();
    RecentShorter([90] + [115], 115, 600);
    hide Recent;
    s5 := s4.(state := Unhealthy, flapMarks := [90], transitions := 1);
    s6 := s5.(lastSuccess := Some(100), okStreak := 1, failStreak := 0);
    s7 := Probed(cfg, s6, false, 115);
  }

  lemma OneMark()
    ensures Recent([] + [90], 90, 600) == [90]
  {
    assert ([] + [90])[..0] == [];
  }

  lemma {:induction false} RecentShorter(marks: seq<Time>, now: Time, window: Time)
    ensures |Recent(marks, now, window)| <= |marks|
  {
    if |marks| > 0 { RecentShorter(marks[..|marks| - 1], now, window); }
  }
}
