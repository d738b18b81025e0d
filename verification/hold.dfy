/** The removal hold over chained runs (internal/reconcile/reconcile.go:189-207). */
module RemovalHold {
  import opened Base
  import opened Slots
  import opened Tables
  import opened Invariants
  import opened Runs

  /** The pairings stored after the first n runs. */
  function Stored(es: seq<Env>, n: nat): map<string, PairingV>
    requires n <= |es|
  {
    if n == 0 then map[] else RunAll(es[..n]).value.pairings
  }

  lemma StoredStep(es: seq<Env>, n: nat)
    requires n < |es|
    ensures RunAll(es[..n + 1]) == Some(Next(es[n], RunAll(es[..n])))
    ensures Stored(es, n + 1) == Next(es[n], RunAll(es[..n])).pairings
  {
    assert es[..n + 1][..n] == es[..n];
    hide Next;
  }

  /** The table is discarded at run n. */
  predicate Rebuilt(es: seq<Env>, n: nat)
    requires n < |es|
  {
    Start(es[n], RunAll(es[..n])).pairings != Stored(es, n)
  }

  /** Pairing k was active until run m, has been unwanted from run m up to run n, was
      given its deadline by run m, and no run after m came at or after that deadline. */
  ghost predicate WaitingSince(es: seq<Env>, n: nat, k: string, m: nat)
    requires n <= |es|
  {
    && m < n
    && (forall j :: m <= j < n ==> k !in es[j].want)
    && (forall j :: m <= j <= n ==> k in Stored(es, j))
    && Stored(es, m)[k].Active()
    && (forall j :: m < j <= n ==> Stored(es, j)[k].removeAt == Some(es[m].now + es[m].hold))
    && (forall j :: m < j < n ==> es[j].now < es[m].now + es[m].hold)
  }

  /** What one run does to the deadline of pairing k. */
  lemma DeadlineNext(e: Env, cur: Option<StateV>, k: string)
    requires e.Valid() && (cur.Some? ==> StateOk(cur.value))
    ensures var x, y := Start(e, cur).pairings, Next(e, cur).pairings;
            && (k in e.want ==> k in y && y[k].Active())
            && (k !in e.want && k in y ==>
                 && k in x && y[k] == x[k].(removeAt := y[k].removeAt)
                 && y[k].removeAt == (if x[k].removeAt.Some? then x[k].removeAt else Some(e.now + e.hold)))
            && (k !in e.want && k in x ==>
                 (k !in y <==> x[k].removeAt.Some? && e.now >= x[k].removeAt.value))
  {
    hide Next, StateOk, StoredOk, Start, StepOne, Env.Valid;
    StartOk(e, cur);
    NextAt(e, cur, k);
    var st := Start(e, cur);
    if k in e.want {
      NextPairingOk(e, cur, k);
    } else if k in st.pairings {
      assert StoredOk(e, k, Get(st.pairings, k));
      StaleStep(e, NextSuperHosts(e, st.superHosts), k, st.pairings[k]);
    }
  }

  lemma DeadlineStep(es: seq<Env>, n: nat, k: string)
    requires n < |es| && forall i :: 0 <= i <= n ==> es[i].Valid()
    ensures var x, y, e := Stored(es, n), Stored(es, n + 1), es[n];
            && (k in e.want ==> k in y && y[k].Active())
            && (k !in e.want && k in y ==>
                 && k in x && y[k] == x[k].(removeAt := y[k].removeAt)
                 && y[k].removeAt == (if x[k].removeAt.Some? then x[k].removeAt else Some(e.now + e.hold))
                 && (x[k].removeAt.Some? ==> e.now < x[k].removeAt.value))
            && (k !in e.want && k in x && !Rebuilt(es, n) ==>
                 (k !in y <==> x[k].removeAt.Some? && e.now >= x[k].removeAt.value))
  {
    var e, cur := es[n], RunAll(es[..n]);
    StoredStep(es, n);
    RunAllOk(es[..n]);
    StartPairings(e, cur);
    hide Next, StateOk, Start, Env.Valid;
    DeadlineNext(e, cur, k);
  }

  lemma NotRebuilt(es: seq<Env>, n: nat)
    requires n < |es| && !Rebuilt(es, n)
    ensures Start(es[n], RunAll(es[..n])).pairings == Stored(es, n)
  {}

  lemma StartPairings(e: Env, cur: Option<StateV>)
    ensures var x := if cur.Some? then cur.value.pairings else map[];
            Start(e, cur).pairings == x || Start(e, cur).pairings == map[]
  {}

  /** Every deadline in the table has been set by the first run that found the pairing
      unwanted, and the pairing has stayed unwanted since. */
  lemma {:induction false} DeadlineOrigin(es: seq<Env>, n: nat, k: string) returns (m: nat)
    requires n <= |es| && forall i :: 0 <= i < |es| ==> es[i].Valid()
    requires k in Stored(es, n) && Stored(es, n)[k].removeAt.Some?
    ensures WaitingSince(es, n, k, m)
  {
    hide Stored, Env.Valid, WaitingSince, RunAll, Next, Start, StateOk, StepOne, NextSuperHosts;
    assert n > 0 by { StoredNone(es); }
    DeadlineStep(es, n - 1, k);
    var x := Stored(es, n - 1);
    if x[k].removeAt.Some? {
      m := DeadlineOrigin(es, n - 1, k);
      WaitsOn(es, n - 1, k, m);
    } else {
      m := n - 1;
      WaitStarts(es, n - 1, k);
    }
  }

  lemma WaitStarts(es: seq<Env>, n: nat, k: string)
    requires n < |es| && k !in es[n].want && k in Stored(es, n) && k in Stored(es, n + 1)
    requires Stored(es, n)[k].Active() && Stored(es, n + 1)[k].removeAt == Some(es[n].now + es[n].hold)
    ensures WaitingSince(es, n + 1, k, n)
  {
    hide Stored;
  }

  lemma WaitsOn(es: seq<Env>, n: nat, k: string, m: nat)
    requires n < |es| && WaitingSince(es, n, k, m) && k !in es[n].want && k in Stored(es, n) && k in Stored(es, n + 1)
    requires Stored(es, n + 1)[k].removeAt == Stored(es, n)[k].removeAt
    requires forall t :: Stored(es, n)[k].removeAt == Some(t) ==> es[n].now < t
    ensures WaitingSince(es, n + 1, k, m)
  {
    hide Stored;
  }

  lemma StoredNone(es: seq<Env>)
    ensures Stored(es, 0) == map[]
  {}

  /** Run n is the first at or after the deadline that run m set for a pairing that has
      not been wanted since. */
  ghost predicate Due(es: seq<Env>, n: nat, k: string, m: nat)
    requires n < |es|
  {
    WaitingSince(es, n, k, m) && k !in es[n].want && es[n].now >= es[m].now + es[m].hold
  }

  /** Removal hold: unless the table is rebuilt, a run deletes a pairing exactly when it
      has been unwanted in every run since some earlier run set its deadline and this run
      is the first one at or after that deadline. */
  lemma RemovalExact(es: seq<Env>, n: nat, k: string)
    requires n < |es| && forall i :: 0 <= i < |es| ==> es[i].Valid()
    requires k in Stored(es, n) && !Rebuilt(es, n)
    ensures k !in Stored(es, n + 1) <==> exists m: nat :: Due(es, n, k, m)
  {
    hide Stored, Env.Valid, Rebuilt, WaitingSince, Due;
    if k !in Stored(es, n + 1) { RemovedIsDue(es, n, k); }
    forall m: nat | Due(es, n, k, m) ensures k !in Stored(es, n + 1) { DueIsRemoved(es, n, k, m); }
  }

  lemma RemovedIsDue(es: seq<Env>, n: nat, k: string)
    requires n < |es| && forall i :: 0 <= i < |es| ==> es[i].Valid()
    requires k in Stored(es, n) && !Rebuilt(es, n) && k !in Stored(es, n + 1)
    ensures exists m: nat :: Due(es, n, k, m)
  {
    hide Stored, Env.Valid, Rebuilt, WaitingSince;
    DeadlineStep(es, n, k);
    var m := DeadlineOrigin(es, n, k);
    WaitingNow(es, n, k, m);
    assert Due(es, n, k, m);
  }

  lemma DueIsRemoved(es: seq<Env>, n: nat, k: string, m: nat)
    requires n < |es| && forall i :: 0 <= i < |es| ==> es[i].Valid()
    requires k in Stored(es, n) && !Rebuilt(es, n) && Due(es, n, k, m)
    ensures k !in Stored(es, n + 1)
  {
    hide Stored, Env.Valid, Rebuilt, WaitingSince;
    DeadlineStep(es, n, k);
    WaitingNow(es, n, k, m);
  }

  lemma WaitingNow(es: seq<Env>, n: nat, k: string, m: nat)
    requires n <= |es| && WaitingSince(es, n, k, m)
    ensures m < n && k in Stored(es, n) && Stored(es, n)[k].removeAt == Some(es[m].now + es[m].hold)
  {
    hide Stored;
  }

  /** A pairing that is wanted again before that keeps every side that is still valid,
      and its deadline is erased. */
  lemma ReturnKeepsSides(es: seq<Env>, n: nat, k: string, i: nat, side: Side)
    requires n < |es| && forall i :: 0 <= i < |es| ==> es[i].Valid()
    requires k in Stored(es, n) && !Rebuilt(es, n) && k in es[n].want
    requires var p, e := Stored(es, n)[k], es[n];
             && i < e.Layout().total && i < |p.slots| && p.slots[i].cls == e.Layout().ClassAt(i)
             && p.slots[i].Host(side) != "" && e.OkHost(p.slots[i].Host(side), p.Zone(side))
    ensures k in Stored(es, n + 1)
    ensures var q := Stored(es, n + 1)[k];
            q.removeAt == None && i < |q.slots| && q.slots[i].Seat(side) == Stored(es, n)[k].slots[i].Seat(side)
  {
    hide Stored, ComputeLayout, Next, Rebuilt, RunAll, Start, StoredOk, StepOne, PairingOk, StateOk, Env.Valid;
    DeadlineStep(es, n, k);
    StoredStep(es, n);
    NotRebuilt(es, n);
    var e, cur := es[n], RunAll(es[..n]);
    RunAllOk(es[..n]);
    StartOk(e, cur);
    NextAt(e, cur, k);
    var st := Start(e, cur);
    assert StoredOk(e, k, Get(st.pairings, k));
    assert e.Valid();
    KeptSide(e, NextSuperHosts(e, st.superHosts), k, Stored(es, n)[k], i, side);
  }

  lemma KeptSide(e: Env, sh: map<string, seq<string>>, k: string, p: PairingV, i: nat, side: Side)
    requires e.Valid() && k in e.want && StoredOk(e, k, Some(p)) && i < e.Layout().total && i < |p.slots|
    requires p.slots[i].cls == e.Layout().ClassAt(i)
    requires p.slots[i].Host(side) != "" && e.OkHost(p.slots[i].Host(side), p.Zone(side))
    ensures var r := StepOne(e, sh, k, Some(p));
            r.Some? && i < |r.value.slots| && r.value.slots[i].Seat(side) == p.slots[i].Seat(side)
  {
    hide StepOne;
    Stickiness(e, sh, k, p, i, side);
  }
}
