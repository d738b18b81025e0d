/** The debounced state writer as a timed state machine (internal/state/store.go). */
module Persistence {
  import opened Base
  import opened Tables

  /** Times are in nanoseconds. */
  const SECOND: Time := 1_000_000_000

  datatype Config = Config(debounce: Time, maxDelay: Time) {
    function Debounce(): (d: Time)
      ensures d > 0
    {
      if debounce <= 0 then 60 * SECOND else debounce
    }
    function Cap(): (m: Time)
      ensures m >= Debounce()
    {
      if maxDelay < Debounce() then 5 * Debounce() else maxDelay
    }
  }

  /** The state of the writer. `timer` is the deadline of the armed timer, `inflight` the
      snapshot being saved, `disk` what the file holds up to its version and time stamp. */
  datatype Writer = Writer(
    cur: StateV, dirty: bool, firstDirty: Option<Time>, kick: bool, timer: Option<Time>,
    inflight: Option<StateV>, disk: Option<StateV>, lastWrite: Option<Time>, writes: nat, failures: nat)

  // ---------- the steps ----------

  /** A new state arrives; a pending kick absorbs the new one. */
  function Updated(w: Writer, st: StateV, now: Time): Writer {
    w.(cur := st, dirty := true, firstDirty := if w.dirty then w.firstDirty else Some(now), kick := true)
  }

  /** How long the timer is set for: the debounce, cut to what the cap leaves. */
  function Wait(cfg: Config, first: Option<Time>, now: Time): (w: Time)
    ensures 0 <= w <= cfg.Debounce()
  {
    var remain := if first.Some? then cfg.Cap() - (now - first.value) else cfg.Debounce();
    if remain >= cfg.Debounce() then cfg.Debounce() else if remain < 0 then 0 else remain
  }

  /** The kick is handled: the timer starts again, unless it is armed and the cap is reached. */
  function Kicked(cfg: Config, w: Writer, now: Time): Writer {
    if w.timer.Some? && w.firstDirty.Some? && now - w.firstDirty.value >= cfg.Cap() then w.(kick := false)
    else w.(kick := false, timer := Some(now + Wait(cfg, w.firstDirty, now)))
  }

  /** The timer fires: a dirty state is taken for saving. */
  function Fired(w: Writer): Writer {
    if w.dirty then w.(timer := None, dirty := false, firstDirty := None, inflight := Some(w.cur))
    else w.(timer := None)
  }

  /** The save ends; a failed one makes the state dirty again and retries. */
  function Saved(cfg: Config, w: Writer, ok: bool, now: Time): Writer
    requires w.inflight.Some?
  {
    if ok then w.(inflight := None, disk := w.inflight, lastWrite := Some(now), writes := w.writes + 1)
    else w.(inflight := None, failures := w.failures + 1, dirty := true,
            firstDirty := if w.firstDirty.None? then Some(now) else w.firstDirty, timer := Some(now + cfg.Debounce()))
  }

  // ---------- the store ----------

  /** The in-memory authority and its write schedule. */
  class Store {
    const cfg: Config
    var cur: StateV
    var dirty: bool
    var firstDirty: Option<Time>
    var kick: bool
    var timer: Option<Time>
    var inflight: Option<StateV>
    var disk: Option<StateV>
    var lastWrite: Option<Time>
    var writes: nat
    var failures: nat

    ghost function View(): Writer
      reads this
    {
      Writer(cur, dirty, firstDirty, kick, timer, inflight, disk, lastWrite, writes, failures)
    }

    constructor (cfg: Config, initial: StateV, file: Option<StateV>)
      ensures this.cfg == cfg && View() == Writer(initial, false, None, false, None, None, file, None, 0, 0)
    {
      this.cfg := cfg;
      cur, dirty, firstDirty, kick, timer := initial, false, None, false, None;
      inflight, disk, lastWrite, writes, failures := None, file, None, 0, 0;
    }

    method Update(st: StateV, now: Time)
      modifies this
      ensures View() == Updated(old(View()), st, now)
    {
      cur := st;
      if !dirty {
        dirty := true;
        firstDirty := Some(now);
      }
      kick := true;
    }

    /** The kick branch of the write loop. */
    method HandleKick(now: Time)
      modifies this
      ensures View() == Kicked(cfg, old(View()), now)
    {
      kick := false;
      var first := firstDirty;
      if timer.Some? && first.Some? && now - first.value >= cfg.Cap() { return; }
      var wait := cfg.Debounce();
      if first.Some? {
        var remain := cfg.Cap() - (now - first.value);
        if remain < wait { wait := remain; }
      }
      if wait < 0 { wait := 0; }
      timer := Some(now + wait);
    }

    /** The timer branch up to the save: the first half of Flush. */
    method Fire() returns (snapshot: Option<StateV>)
      modifies this
      ensures View() == Fired(old(View()))
      ensures snapshot == if old(dirty) then Some(old(cur)) else None
    {
      timer := None;
      if !dirty { return None; }
      snapshot := Some(cur);
      inflight := snapshot;
      dirty := false;
      firstDirty := None;
    }

    /** The second half of Flush, and the retry of the write loop. */
    method FinishSave(ok: bool, now: Time)
      requires inflight.Some?
      modifies this
      ensures View() == Saved(cfg, old(View()), ok, now)
    {
      if !ok {
        failures := failures + 1;
        dirty := true;
        if firstDirty.None? { firstDirty := Some(now); }
        timer := Some(now + cfg.Debounce());
      } else {
        disk := inflight;
        writes := writes + 1;
        lastWrite := Some(now);
      }
      inflight := None;
    }
  }

  // ---------- timed runs ----------

  datatype Event = Update(st: StateV) | Kick | Fire | Save(ok: bool)

  datatype Step = Step(ev: Event, now: Time)

  /** The write loop takes a kick only when one is pending, fires only an expired timer,
      and does neither during a save. */
  predicate Enabled(w: Writer, s: Step) {
    match s.ev
    case Update(_) => true
    case Kick => w.kick && w.inflight.None?
    case Fire => w.timer.Some? && w.timer.value <= s.now && w.inflight.None?
    case Save(_) => w.inflight.Some?
  }

  /** Time does not run backwards; it stands still while a kick or a save is pending, and
      it does not run past the armed timer. */
  predicate Prompt(w: Writer, last: Time, now: Time) {
    && last <= now
    && (w.kick || w.inflight.Some? ==> now == last)
    && (w.timer.Some? && last <= w.timer.value ==> now <= w.timer.value)
  }

  function Apply(cfg: Config, w: Writer, s: Step): Writer
    requires Enabled(w, s)
  {
    match s.ev
    case Update(st) => Updated(w, st, s.now)
    case Kick => Kicked(cfg, w, s.now)
    case Fire => Fired(w)
    case Save(ok) => Saved(cfg, w, ok, s.now)
  }

  datatype Run = Run(cfg: Config, initial: StateV, file: Option<StateV>, begin: Time, steps: seq<Step>) {

    function Clock(n: nat): Time
      requires n <= |steps|
    {
      if n == 0 then begin else steps[n - 1].now
    }

    /** The writer after n steps; a step that is not enabled changes nothing. */
    function After(n: nat): Writer
      requires n <= |steps|
      decreases n
    {
      if n == 0 then Writer(initial, false, None, false, None, None, file, None, 0, 0)
      else
        var w := After(n - 1);
        if Enabled(w, steps[n - 1]) then Apply(cfg, w, steps[n - 1]) else w
    }

    ghost predicate Valid() {
      forall n :: 0 <= n < |steps| ==> Enabled(After(n), steps[n]) && Prompt(After(n), Clock(n), steps[n].now)
    }
  }

  /** The invariant of every timed run. */
  ghost predicate Inv(r: Run, w: Writer, now: Time) {
    && (w.dirty <==> w.firstDirty.Some?)
    && (w.dirty ==> w.firstDirty.value <= now <= w.firstDirty.value + r.cfg.Cap())
    && (w.dirty ==> w.kick || w.timer.Some?)
    && (w.timer.Some? ==> now <= w.timer.value)
    && (w.timer.Some? && w.dirty ==> w.timer.value <= w.firstDirty.value + r.cfg.Cap())
    && (w.timer.Some? ==> w.timer.value <= now + r.cfg.Debounce())
    && (w.lastWrite.Some? ==> w.lastWrite.value <= now)
    && (w.lastWrite.Some? && w.timer.Some? ==> w.timer.value >= w.lastWrite.value + r.cfg.Debounce())
    && (w.lastWrite.Some? && w.dirty ==> w.firstDirty.value >= w.lastWrite.value)
    && (w.lastWrite.Some? && w.inflight.Some? ==> now >= w.lastWrite.value + r.cfg.Debounce())
    && (w.inflight.Some? ==> w.timer.None? && (w.dirty ==> w.firstDirty.value == now))
    && (!w.dirty ==> Latest(w) == Some(w.cur) || (w.cur == r.initial && Latest(w) == r.file))
  }

  /** What the file holds, or will hold when the save under way succeeds. */
  function Latest(w: Writer): Option<StateV> {
    if w.inflight.Some? then w.inflight else w.disk
  }

  lemma StepKeeps(r: Run, w: Writer, last: Time, s: Step)
    requires Inv(r, w, last) && Prompt(w, last, s.now) && Enabled(w, s)
    ensures Inv(r, Apply(r.cfg, w, s), s.now)
  {}

  lemma InvStart(r: Run)
    ensures Inv(r, r.After(0), r.Clock(0))
  {}

  lemma AfterStep(r: Run, n: nat)
    requires n < |r.steps| && r.Valid()
    ensures Enabled(r.After(n), r.steps[n]) && r.After(n + 1) == Apply(r.cfg, r.After(n), r.steps[n])
    ensures r.Clock(n + 1) == r.steps[n].now
    ensures Prompt(r.After(n), r.Clock(n), r.steps[n].now)
  {
    hide Apply, Enabled, Prompt;
  }

  lemma {:induction false} InvHolds(r: Run, n: nat)
    requires n <= |r.steps| && r.Valid()
    ensures Inv(r, r.After(n), r.Clock(n))
  {
    hide Inv, Apply, Enabled, Prompt, Run.After, Run.Valid;
    if n > 0 {
      InvHolds(r, n - 1);
      AfterStep(r, n - 1);
      StepKeeps(r, r.After(n - 1), r.Clock(n - 1), r.steps[n - 1]);
    } else {
      InvStart(r);
    }
  }

  /** An attempt to write: the timer fires on a dirty state. */
  predicate Attempt(r: Run, m: nat)
    requires m < |r.steps|
  {
    r.steps[m].ev.Fire? && r.After(m).dirty
  }

  /** A step that is not an attempt ends no dirty period. */
  lemma DirtyStays(cfg: Config, w: Writer, s: Step)
    requires Enabled(w, s) && w.dirty && w.firstDirty.Some? && !s.ev.Fire?
    ensures Apply(cfg, w, s).dirty && Apply(cfg, w, s).firstDirty == w.firstDirty
  {}

  /** Without an attempt a dirty period goes on. */
  lemma {:induction false} DirtyGoesOn(r: Run, i: nat, n: nat, f: Time)
    requires i <= n <= |r.steps| && r.Valid() && r.After(i).dirty && r.After(i).firstDirty == Some(f)
    requires forall m: nat :: i <= m < n ==> !Attempt(r, m)
    ensures r.After(n).dirty && r.After(n).firstDirty == Some(f)
  {
    hide Run.After, Run.Valid, Apply, Enabled, Prompt;
    if i < n {
      DirtyGoesOn(r, i, n - 1, f);
      AfterStep(r, n - 1);
      assert !Attempt(r, n - 1);
      DirtyStays(r.cfg, r.After(n - 1), r.steps[n - 1]);
    }
  }

  /** The cap: every dirty period sees an attempt to write no later than the cap after it
      began, however many updates keep arriving. */
  lemma AttemptedInTime(r: Run, i: nat, n: nat, f: Time)
    requires i <= n <= |r.steps| && r.Valid() && r.After(i).dirty && r.After(i).firstDirty == Some(f)
    requires r.Clock(n) > f + r.cfg.Cap()
    ensures exists m: nat :: i <= m < n && Attempt(r, m) && r.steps[m].now <= f + r.cfg.Cap()
  {
    hide Run.After, Run.Valid, Attempt, Apply, Enabled;
    if forall m: nat :: i <= m < n ==> !Attempt(r, m) {
      DirtyGoesOn(r, i, n, f);
      InvHolds(r, n);
    } else {
      var m := FirstAttempt(r, i, n);
      DirtyGoesOn(r, i, m, f);
      AttemptNow(r, m, f);
    }
  }

  lemma AttemptNow(r: Run, m: nat, f: Time)
    requires m < |r.steps| && r.Valid() && Attempt(r, m) && r.After(m).firstDirty == Some(f)
    ensures r.steps[m].now <= f + r.cfg.Cap()
  {
    hide Run.After, Run.Valid, Apply;
    InvHolds(r, m);
    AfterStep(r, m);
  }

  lemma {:induction false} FirstAttempt(r: Run, i: nat, n: nat) returns (m: nat)
    requires i <= n <= |r.steps| && exists m: nat :: i <= m < n && Attempt(r, m)
    ensures i <= m < n && Attempt(r, m) && forall k: nat :: i <= k < m ==> !Attempt(r, k)
    decreases n - i
  {
    hide Attempt;
    if Attempt(r, i) { m := i; } else { m := FirstAttempt(r, i + 1, n); }
  }

  /** The successful writes in the steps from i up to n. */
  function Writes(r: Run, i: nat, n: nat): nat
    requires i <= n <= |r.steps|
    decreases n - i
  {
    if i == n then 0 else Writes(r, i, n - 1) + if r.steps[n - 1].ev == Save(true) then 1 else 0
  }

  /** What a step does to the time of the last write. */
  lemma WriteStep(r: Run, n: nat)
    requires n < |r.steps| && r.Valid()
    ensures var w, v, s := r.After(n), r.After(n + 1), r.steps[n];
            if s.ev == Save(true) then v.lastWrite == Some(s.now)
              && (w.lastWrite.Some? ==> s.now >= w.lastWrite.value + r.cfg.Debounce())
            else v.lastWrite == w.lastWrite
    ensures r.Clock(n) <= r.Clock(n + 1) == r.steps[n].now
  {
    hide Run.After, Run.Valid;
    InvHolds(r, n);
    AfterStep(r, n);
  }

  lemma {:induction false} LastWriteIs(r: Run, i: nat, n: nat)
    requires i <= n <= |r.steps| && r.Valid()
    ensures r.Clock(i) <= r.Clock(n)
    ensures var last := r.After(n).lastWrite;
            Writes(r, i, n) > 0 ==>
              last.Some? && last.value >= r.Clock(i) + (Writes(r, i, n) - 1) * r.cfg.Debounce()
  {
    hide Run.After, Run.Valid, Run.Clock;
    if i < n {
      LastWriteIs(r, i, n - 1);
      WriteStep(r, n - 1);
      if r.steps[n - 1].ev == Save(true) { OneMore(Writes(r, i, n - 1), r.cfg.Debounce()); }
    }
  }

  lemma OneMore(k: int, d: Time)
    ensures (k - 1) * d + d == k * d
  {}

  /** The write rate: k successful writes take at least k - 1 debounces, so any two of
      them are a debounce apart. */
  lemma WriteRate(r: Run, i: nat, n: nat)
    requires i <= n <= |r.steps| && r.Valid()
    ensures (Writes(r, i, n) - 1) * r.cfg.Debounce() <= r.Clock(n) - r.Clock(i)
  {
    hide Run.After, Run.Valid, Run.Clock, Writes;
    LastWriteIs(r, i, n);
    InvHolds(r, n);
    if Writes(r, i, n) == 0 { assert (0 - 1) * r.cfg.Debounce() <= 0; }
  }

  /** When nothing is dirty the file holds the state in memory, or will when the save under
      way succeeds, or no state has replaced the initial one; also after failed saves. */
  lemma CleanIsSaved(r: Run, n: nat)
    requires n <= |r.steps| && r.Valid() && !r.After(n).dirty
    ensures var w := r.After(n);
            Latest(w) == Some(w.cur) || (w.cur == r.initial && Latest(w) == r.file)
  {
    InvHolds(r, n);
  }

  // ---------- what is in memory and on disk ----------

  /** The state of the last update in the first n steps. */
  function LastUpdate(r: Run, n: nat): StateV
    requires n <= |r.steps|
  {
    if n == 0 then r.initial
    else match r.steps[n - 1].ev
      case Update(st) => st
      case _ => LastUpdate(r, n - 1)
  }

  /** An update or a failed save came after the last time the timer fired. */
  predicate Unsaved(r: Run, n: nat)
    requires n <= |r.steps|
  {
    n > 0 && match r.steps[n - 1].ev
             case Update(_) => true
             case Save(ok) => !ok || Unsaved(r, n - 1)
             case Fire => false
             case Kick => Unsaved(r, n - 1)
  }

  /** The state in memory when the timer last fired on one to save. */
  function Taken(r: Run, n: nat): StateV
    requires n <= |r.steps|
  {
    if n == 0 then r.initial
    else if r.steps[n - 1].ev.Fire? && Unsaved(r, n - 1) then LastUpdate(r, n - 1)
    else Taken(r, n - 1)
  }

  /** The last successful save in the first n steps. */
  function LastSave(r: Run, n: nat): Option<nat>
    requires n <= |r.steps|
  {
    if n == 0 then None else if r.steps[n - 1].ev == Save(true) then Some(n - 1) else LastSave(r, n - 1)
  }

  function SavesEnded(r: Run, n: nat, ok: bool): nat
    requires n <= |r.steps|
  {
    if n == 0 then 0 else SavesEnded(r, n - 1, ok) + if r.steps[n - 1].ev == Save(ok) then 1 else 0
  }

  /** The writer as its history has it. */
  ghost predicate AsHistory(r: Run, n: nat, w: Writer)
    requires n <= |r.steps|
  {
    && w.cur == LastUpdate(r, n) && w.dirty == Unsaved(r, n)
    && (w.inflight.Some? ==> w.inflight.value == Taken(r, n))
    && w.writes == SavesEnded(r, n, true) && w.failures == SavesEnded(r, n, false)
    && match LastSave(r, n)
       case None => w.disk == r.file && w.lastWrite == None
       case Some(m) => m < n && w.disk == Some(Taken(r, m)) && w.lastWrite == Some(r.steps[m].now)
  }

  lemma HistoryStep(r: Run, n: nat, w: Writer)
    requires n < |r.steps| && Enabled(w, r.steps[n]) && AsHistory(r, n, w)
    ensures AsHistory(r, n + 1, Apply(r.cfg, w, r.steps[n]))
  {}

  /** The memory holds the last update; the file holds what was in memory when the timer fired
      before the last successful save; the counters count the saves that ended each way. */
  lemma {:induction false} HistoryExact(r: Run, n: nat)
    requires n <= |r.steps| && r.Valid()
    ensures AsHistory(r, n, r.After(n))
  {
    hide Apply, Enabled, Prompt, Run.Valid, AsHistory;
    if n > 0 {
      HistoryExact(r, n - 1);
      AfterStep(r, n - 1);
      hide Run.After;
      HistoryStep(r, n - 1, r.After(n - 1));
    } else {
      HistoryStart(r);
    }
  }

  /** What a kick does to the timer: armed and dirty for the cap already, it stays; otherwise it is
      set to a debounce from now or to the end of the cap, whichever comes first, but not to the
      past. */
  lemma KickMeans(cfg: Config, w: Writer, now: Time)
    ensures var v := Kicked(cfg, w, now);
            && v == w.(kick := false, timer := v.timer)
            && var capped := w.firstDirty.Some? && now >= w.firstDirty.value + cfg.Cap();
               if w.timer.Some? && capped then v.timer == w.timer
               else v.timer == Some(if capped then now
                                    else if w.firstDirty.Some? then
                                      Min(now + cfg.Debounce(), w.firstDirty.value + cfg.Cap())
                                    else now + cfg.Debounce())
  {}

  lemma HistoryStart(r: Run)
    ensures AsHistory(r, 0, r.After(0))
  {}

  // ---------- the quiet window before a write ----------

  /** The time of the last update or failed save in the first n steps. */
  function LastChange(r: Run, n: nat): Option<Time>
    requires n <= |r.steps|
  {
    if n == 0 then None
    else
      var s := r.steps[n - 1];
      if s.ev.Update? || s.ev == Save(false) then Some(s.now) else LastChange(r, n - 1)
  }

  function Min(x: Time, y: Time): Time { if x <= y then x else y }

  /** A dirty state changed at this moment when its kick is pending; when it is not, the
      timer stands at a debounce after the change or at the cap. */
  ghost predicate Scheduled(cfg: Config, w: Writer, u: Option<Time>, now: Time) {
    && (w.kick ==> u == Some(now))
    && (w.dirty ==>
          && u.Some? && u.value <= now && w.firstDirty.Some?
          && (!w.kick ==> w.timer == Some(Min(u.value + cfg.Debounce(), w.firstDirty.value + cfg.Cap()))))
  }

  lemma StepSchedules(r: Run, w: Writer, last: Time, s: Step, u: Option<Time>)
    requires Inv(r, w, last) && Prompt(w, last, s.now) && Enabled(w, s) && Scheduled(r.cfg, w, u, last)
    ensures Scheduled(r.cfg, Apply(r.cfg, w, s), if s.ev.Update? || s.ev == Save(false) then Some(s.now) else u, s.now)
  {}

  lemma ScheduleStart(r: Run)
    ensures Scheduled(r.cfg, r.After(0), LastChange(r, 0), r.Clock(0))
  {}

  lemma {:induction false} ScheduleHolds(r: Run, n: nat)
    requires n <= |r.steps| && r.Valid()
    ensures Scheduled(r.cfg, r.After(n), LastChange(r, n), r.Clock(n))
  {
    hide Inv, Apply, Enabled, Prompt, Scheduled, Run.After, Run.Valid, Run.Clock;
    if n == 0 {
      ScheduleStart(r);
    } else {
      ScheduleHolds(r, n - 1);
      InvHolds(r, n - 1);
      AfterStep(r, n - 1);
      StepSchedules(r, r.After(n - 1), r.Clock(n - 1), r.steps[n - 1], LastChange(r, n - 1));
    }
  }

  /** The quiet window exactly: with no kick pending, an attempt to write comes a debounce
      after the last change or at the cap, whichever is first; with a kick pending it comes
      at the moment of the last change. So a full debounce without a change lies before a
      write if and only if no kick is pending and the cap leaves room for it. */
  lemma QuietWindowExact(r: Run, m: nat)
    requires m < |r.steps| && r.Valid() && Attempt(r, m)
    ensures r.After(m).firstDirty.Some? && LastChange(r, m).Some?
    ensures var f, u, w := r.After(m).firstDirty.value, LastChange(r, m).value, r.After(m);
            && r.steps[m].now == (if w.kick then u else Min(u + r.cfg.Debounce(), f + r.cfg.Cap()))
            && (r.steps[m].now - u >= r.cfg.Debounce() <==> !w.kick && u + r.cfg.Debounce() <= f + r.cfg.Cap())
  {
    hide Run.After, Run.Valid, Apply;
    InvHolds(r, m);
    ScheduleHolds(r, m);
    AfterStep(r, m);
  }

  /** A write does not need a quiet window of a whole debounce: under the cap it can come
      right after a change. */
  lemma WriteWithoutQuietWindow(x: StateV, y: StateV)
    ensures var r := Run(Config(60, 60), x, None, 0,
                         [Step(Update(x), 0), Step(Kick, 0), Step(Update(y), 50), Step(Kick, 50), Step(Fire, 60),
                           Step(Save(true), 60)]);
            r.Valid() && r.After(6).disk == Some(y) && 60 - 50 < r.cfg.Debounce()
  {
    var r := Run(Config(60, 60), x, None, 0,
                 [Step(Update(x), 0), Step(Kick, 0), Step(Update(y), 50), Step(Kick, 50), Step(Fire, 60),
                   Step(Save(true), 60)]);
    var w0 := Writer(x, false, None, false, None, None, None, None, 0, 0);
    var w1 := w0.(dirty := true, firstDirty := Some(0), kick := true);
    var w2 := w1.(kick := false, timer := Some(60));
    var w3 := w2.(cur := y, kick := true);
    var w4 := w3.(kick := false);
    var w5 := w4.(timer := None, dirty := false, firstDirty := None, inflight := Some(y));
    assert r.After(0) == w0;
    assert r.After(1) == w1;
    assert r.After(2) == w2;
    assert r.After(3) == w3;
    assert r.After(4) == w4;
    assert r.After(5) == w5;
  }
}
