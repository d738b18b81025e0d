/** What the aggregate of a window says about the cycles in it (internal/probe/probe.go:208-353). */
module Reports {
  import opened Base
  import opened Windows

  // ---------- sums ----------

  function Tally<T>(s: seq<T>, f: T -> int): int {
    if |s| == 0 then 0 else f(s[0]) + Tally(s[1..], f)
  }

  lemma {:induction false} TallyAppend<T>(s: seq<T>, x: T, f: T -> int)
    ensures Tally(s + [x], f) == Tally(s, f) + f(x)
  {
    if |s| > 0 {
      assert (s + [x])[1..] == s[1..] + [x];
      TallyAppend(s[1..], x, f);
    } else {
      assert (s + [x])[1..] == [];
    }
  }

  /** A sum over a sequence is the sum over all but its last element, and that one. */
  lemma TallyLast<T>(s: seq<T>, f: T -> int)
    requires |s| > 0
    ensures Tally(s, f) == Tally(s[..|s| - 1], f) + f(s[|s| - 1])
  {
    assert s == s[..|s| - 1] + [s[|s| - 1]];
    TallyAppend(s[..|s| - 1], s[|s| - 1], f);
  }

  function SentIn(c: Counter): int { c.sent }
  function ReceivedIn(c: Counter): int { c.received }
  function LostIn(c: Counter): int { c.lost }
  function ReorderedIn(c: Counter): int { c.reordered }
  function RttIn(x: Sample): int { x.rtt }
  function ConnectIn(x: Sample): int { if x.connect.Some? then x.connect.value else 0 }
  function ConnectsIn(x: Sample): int { if x.connect.Some? then 1 else 0 }

  lemma {:induction false} SumsMean(s: seq<Counter>)
    ensures var r := SumOf(s);
            && r.sent == Tally(s, SentIn) && r.received == Tally(s, ReceivedIn)
            && r.lost == Tally(s, LostIn) && r.reordered == Tally(s, ReorderedIn)
  {
    if |s| > 0 {
      SumsMean(s[..|s| - 1]);
      TallyLast(s, SentIn);
      TallyLast(s, ReceivedIn);
      TallyLast(s, LostIn);
      TallyLast(s, ReorderedIn);
    }
    hide Tally;
  }

  lemma {:induction false} TotalMeans(s: seq<Sample>)
    ensures Total(Rtts(s)) == Tally(s, RttIn)
  {
    if |s| > 0 {
      TotalMeans(s[..|s| - 1]);
      TallyLast(s, RttIn);
      assert Rtts(s)[..|s| - 1] == Rtts(s[..|s| - 1]);
    }
    hide Tally;
  }

  lemma {:induction false} ConnectsMean(s: seq<Sample>)
    ensures Total(Connects(s)) == Tally(s, ConnectIn) && |Connects(s)| == Tally(s, ConnectsIn)
  {
    hide Tally, Total;
    NoSamples();
    NoTally<Sample>(ConnectIn);
    NoTally<Sample>(ConnectsIn);
    if |s| > 0 {
      var t := s[..|s| - 1];
      ConnectsMean(t);
      TallyLast(s, ConnectIn);
      TallyLast(s, ConnectsIn);
      if s[|s| - 1].connect.Some? { ConnectsStep(Connects(t), s[|s| - 1].connect.value); } else {
        assert Connects(t) + [] == Connects(t);
      }
    }
  }

  lemma NoTally<T>(f: T -> int)
    ensures Tally([], f) == 0
  {}

  function Distance(x: Time, y: Time): Time { if x < y then y - x else x - y }

  /** The distances between one sample and the next, added up. */
  function Steps(s: seq<Sample>): Time {
    if |s| <= 1 then 0 else Distance(s[0].rtt, s[1].rtt) + Steps(s[1..])
  }

  lemma {:induction false} StepsAppend(s: seq<Sample>, x: Sample)
    requires |s| > 0
    ensures Steps(s + [x]) == Steps(s) + Distance(s[|s| - 1].rtt, x.rtt)
  {
    assert (s + [x])[1..] == s[1..] + [x];
    if |s| > 1 { StepsAppend(s[1..], x); }
  }

  lemma {:induction false} JumpsMean(s: seq<Sample>)
    ensures Jumps(Rtts(s)) == Steps(s)
  {
    if |s| > 1 {
      var t := s[..|s| - 1];
      JumpsMean(t);
      StepsAppend(t, s[|s| - 1]);
      assert s == t + [s[|s| - 1]] && Rtts(s)[..|s| - 1] == Rtts(t);
    }
  }

  /** The quotient that is cut toward zero. */
  predicate Divides(total: Time, n: int, m: Time) {
    n > 0 && if total >= 0 then m * n <= total < m * n + n else m * n - n < total <= m * n
  }

  lemma QuotientDivides(total: Time, n: nat)
    requires n > 0
    ensures Divides(total, n, Quotient(total, n))
  {
    var a := if total >= 0 then total else -total;
    assert (a / n) * n <= a < (a / n) * n + n;
    assert (-(a / n)) * n == -((a / n) * n);
  }

  // ---------- ranks ----------

  function Lower(v: Time): Time -> int { (x: Time) => if x < v then 1 else 0 }
  function AtMost(v: Time): Time -> int { (x: Time) => if x <= v then 1 else 0 }
  function Below(v: Time): Sample -> int { (x: Sample) => if x.rtt < v then 1 else 0 }
  function UpTo(v: Time): Sample -> int { (x: Sample) => if x.rtt <= v then 1 else 0 }

  /** The value has this rank among the samples: no more of them lie below it, and more do not
      exceed it. */
  ghost predicate HasRank(s: seq<Sample>, v: Time, i: nat) {
    Tally(s, Below(v)) <= i < Tally(s, UpTo(v))
  }

  /** The rank is the nearest one to the fraction q of the way. */
  predicate NearestRank(n: nat, q: real, i: nat) {
    && (q <= 0.0 ==> i == 0)
    && (q >= 1.0 ==> i == n - 1)
    && (0.0 < q < 1.0 ==> i as real <= q * ((n - 1) as real) + 0.5 < (i + 1) as real)
  }

  lemma PositionNearest(n: nat, q: real)
    requires n > 0
    ensures NearestRank(n, q, Position(n, q))
  {
    var m := (n - 1) as real;
    if q <= 0.0 {
      MulNonNegative(-q, m);
      assert q * m == -((-q) * m);
    } else if q >= 1.0 {
      MulNonNegative(q - 1.0, m);
      assert q * m == m + (q - 1.0) * m;
    } else {
      MulNonNegative(q, m);
      MulNonNegative(1.0 - q, m);
      assert q * m == m - (1.0 - q) * m;
    }
  }

  lemma {:induction false} InsertTally(x: Time, t: seq<Time>, f: Time -> int)
    ensures Tally(Insert(x, t, Le), f) == f(x) + Tally(t, f)
  {
    if |t| > 0 && !Le(x, t[0]) {
      InsertTally(x, t[1..], f);
      assert Insert(x, t, Le)[1..] == Insert(x, t[1..], Le);
    } else {
      assert Insert(x, t, Le)[1..] == t;
    }
  }

  lemma {:induction false} SortTally(t: seq<Time>, f: Time -> int)
    ensures Tally(Sort(t, Le), f) == Tally(t, f)
  {
    if |t| > 0 {
      SortTally(t[1..], f);
      InsertTally(t[0], Sort(t[1..], Le), f);
    }
  }

  lemma {:induction false} FewBelow(t: seq<Time>, v: Time, i: nat)
    requires forall j :: i <= j < |t| ==> v <= t[j]
    ensures Tally(t, Lower(v)) <= i
  {
    if |t| > 0 { FewBelow(t[1..], v, if i > 0 then i - 1 else 0); }
  }

  lemma {:induction false} ManyUpTo(t: seq<Time>, v: Time, i: nat)
    requires i <= |t| && forall j :: 0 <= j < i ==> t[j] <= v
    ensures Tally(t, AtMost(v)) >= i
  {
    if |t| > 0 { ManyUpTo(t[1..], v, if i > 0 then i - 1 else 0); }
  }

  lemma {:induction false} SameTally(s: seq<Sample>, v: Time)
    ensures Tally(Rtts(s), Lower(v)) == Tally(s, Below(v)) && Tally(Rtts(s), AtMost(v)) == Tally(s, UpTo(v))
  {
    if |s| > 0 {
      SameTally(s[1..], v);
      assert Rtts(s)[1..] == Rtts(s[1..]);
    }
  }

  lemma SortedRank(s: seq<Sample>, i: nat)
    requires i < |s|
    ensures |Sort(Rtts(s), Le)| == |s| && HasRank(s, Sort(Rtts(s), Le)[i], i)
  {
    var t := Sort(Rtts(s), Le);
    LeOrder();
    SortSorted(Rtts(s), Le);
    SamePermutation(Rtts(s), t);
    SortTally(Rtts(s), Lower(t[i]));
    SortTally(Rtts(s), AtMost(t[i]));
    SameTally(s, t[i]);
    hide Tally, Sort;
    forall j | 0 <= j < |t| ensures (j <= i ==> t[j] <= t[i]) && (i <= j ==> t[i] <= t[j]) {
      assert j < i ==> Le(t[j], t[i]);
      assert i < j ==> Le(t[i], t[j]);
    }
    FewBelow(t, t[i], i);
    ManyUpTo(t, t[i], i + 1);
  }

  // ---------- errors and answers ----------

  function IsClass(c: string): Counter -> int { (x: Counter) => if x.errClass == c then 1 else 0 }

  /** Each class of error that occurs is counted, and no other is named. */
  ghost predicate ErrorsAre(s: seq<Counter>, m: map<string, nat>) {
    forall c :: (c in m <==> c != "" && Tally(s, IsClass(c)) > 0) && (c in m ==> m[c] == Tally(s, IsClass(c)))
  }

  lemma {:induction false} ErrorsMean(s: seq<Counter>)
    ensures ErrorsAre(s, Errors(s))
  {
    if |s| > 0 {
      ErrorsMean(s[..|s| - 1]);
      forall c ensures Tally(s, IsClass(c)) == Tally(s[..|s| - 1], IsClass(c)) + IsClass(c)(s[|s| - 1]) {
        TallyLast(s, IsClass(c));
      }
      forall c ensures Tally(s[..|s| - 1], IsClass(c)) >= 0 { TallyNatural(s[..|s| - 1], c); }
    }
    hide Tally;
  }

  lemma {:induction false} TallyNatural(s: seq<Counter>, c: string)
    ensures Tally(s, IsClass(c)) >= 0
  {
    if |s| > 0 { TallyNatural(s[1..], c); }
  }

  /** Cycle i is the last one with an answer. */
  ghost predicate AnswerAt(s: seq<Counter>, i: nat) {
    i < |s| && s[i].received > 0 && forall j :: i < j < |s| ==> s[j].received == 0
  }

  /** The last cycle with an answer began then; without one there is no such time. */
  ghost predicate AnsweredLast(s: seq<Counter>, t: Option<Time>) {
    match t
    case None => forall i :: 0 <= i < |s| ==> s[i].received == 0
    case Some(at) => exists i: nat :: AnswerAt(s, i) && s[i].at == at
  }

  lemma {:induction false} AnswerMeans(s: seq<Counter>)
    ensures AnsweredLast(s, LastAnswer(s))
  {
    if |s| > 0 {
      var n := |s| - 1;
      AnswerMeans(s[..n]);
      if s[n].received > 0 {
        assert AnswerAt(s, n);
      } else if LastAnswer(s[..n]).Some? {
        var i: nat :| AnswerAt(s[..n], i) && s[..n][i].at == LastAnswer(s[..n]).value;
        AnswerStays(s, i);
        hide AnswerAt;
      }
    }
  }

  lemma AnswerStays(s: seq<Counter>, i: nat)
    requires |s| > 0 && s[|s| - 1].received == 0 && AnswerAt(s[..|s| - 1], i)
    ensures AnswerAt(s, i)
  {
    assert forall j :: 0 <= j < |s| - 1 ==> s[j] == s[..|s| - 1][j];
  }

  // ---------- the whole report ----------

  /** The counts of the report: the plain sums, and the share of the probes sent that are lost. */
  ghost predicate CountsAre(s: seq<Counter>, r: Stats) {
    && r.sums.sent == Tally(s, SentIn) && r.sums.received == Tally(s, ReceivedIn)
    && r.sums.lost == Tally(s, LostIn) && r.sums.reordered == Tally(s, ReorderedIn)
    && (r.sums.sent == 0 ==> r.lossRatio == 0.0)
    && (r.sums.sent > 0 ==> r.lossRatio * (r.sums.sent as real) == r.sums.lost as real)
    && ErrorsAre(s, r.errors)
  }

  /** The extremes, and the mean cut toward zero. */
  ghost predicate SpreadIs(s: seq<Sample>, min: Time, max: Time, mean: Time) {
    if |s| == 0 then min == max == mean == 0
    else
      && (exists i :: 0 <= i < |s| && s[i].rtt == min) && (exists i :: 0 <= i < |s| && s[i].rtt == max)
      && (forall i :: 0 <= i < |s| ==> min <= s[i].rtt <= max)
      && Divides(Tally(s, RttIn), |s|, mean)
  }

  /** The mean distance between a sample and the next one. */
  ghost predicate JitterIs(s: seq<Sample>, jitter: Time) {
    if |s| <= 1 then jitter == 0 else Divides(Steps(s), |s| - 1, jitter)
  }

  /** The mean over the samples that have a connect time. */
  ghost predicate ConnectMeanIs(s: seq<Sample>, mean: Time) {
    var n := Tally(s, ConnectsIn);
    if n == 0 then mean == 0 else Divides(Tally(s, ConnectIn), n, mean)
  }

  /** At each fraction asked for the sample of the nearest rank. */
  ghost predicate QuantilesAre(s: seq<Sample>, qs: seq<real>, m: map<real, Time>) {
    && (forall q :: q in m <==> |s| > 0 && q in qs)
    && forall q :: q in m ==> QuantileIs(s, q, m[q])
  }

  ghost predicate QuantileIs(s: seq<Sample>, q: real, v: Time) {
    exists i: nat :: NearestRank(|s|, q, i) && HasRank(s, v, i)
  }

  /** The times of the report; all nothing without a sample. */
  ghost predicate TimesAre(s: seq<Sample>, qs: seq<real>, r: Stats) {
    && r.samples == |s| && SpreadIs(s, r.min, r.max, r.mean) && JitterIs(s, r.jitter)
    && ConnectMeanIs(s, r.connectMean) && QuantilesAre(s, qs, r.percentiles)
  }

  lemma RatioMeans(s: Sums)
    ensures s.sent == 0 ==> LossRatio(s) == 0.0
    ensures s.sent > 0 ==> LossRatio(s) * (s.sent as real) == s.lost as real
  {}

  lemma CountsMean(samples: seq<Sample>, counters: seq<Counter>, lastOK: Option<Time>, qs: seq<real>)
    ensures CountsAre(counters, StatsOf(samples, counters, lastOK, qs))
  {
    SumsMean(counters);
    ErrorsMean(counters);
    RatioMeans(SumOf(counters));
    hide SumOf, Errors, ErrorsAre, Tally, LossRatio, Least, Greatest, Mean, Jitter, Quantile, Sort, Connects, Rtts;
  }

  lemma ExtremesMean(s: seq<Sample>)
    requires |s| > 0
    ensures exists i :: 0 <= i < |s| && s[i].rtt == Least(Rtts(s))
    ensures exists i :: 0 <= i < |s| && s[i].rtt == Greatest(Rtts(s))
    ensures forall i :: 0 <= i < |s| ==> Least(Rtts(s)) <= s[i].rtt <= Greatest(Rtts(s))
  {
    var r := Rtts(s);
    Extremes(r);
    hide Least, Greatest;
    var i :| 0 <= i < |r| && r[i] == Least(r);
    var j :| 0 <= j < |r| && r[j] == Greatest(r);
    assert s[i].rtt == r[i] && s[j].rtt == r[j];
    forall k | 0 <= k < |s| ensures Least(r) <= s[k].rtt <= Greatest(r) { assert r[k] in r; }
  }

  lemma SpreadMeans(s: seq<Sample>)
    requires |s| > 0
    ensures var r := Rtts(s); SpreadIs(s, Least(r), Greatest(r), Mean(r))
  {
    TotalMeans(s);
    ExtremesMean(s);
    QuotientDivides(Total(Rtts(s)), |s|);
    hide Total, Tally, Least, Greatest, Quotient, Divides;
  }

  lemma JitterMeans(s: seq<Sample>)
    ensures JitterIs(s, Jitter(Rtts(s)))
  {
    JumpsMean(s);
    if |s| > 1 { QuotientDivides(Jumps(Rtts(s)), |s| - 1); }
    hide Jumps, Steps, Quotient, Divides;
  }

  lemma ConnectMeanMeans(s: seq<Sample>)
    ensures ConnectMeanIs(s, Mean(Connects(s)))
  {
    ConnectsMean(s);
    if |Connects(s)| > 0 { QuotientDivides(Total(Connects(s)), |Connects(s)|); }
    hide Total, Tally, Connects, Quotient, Divides;
  }

  lemma QuantileMeans(s: seq<Sample>, q: real)
    requires |s| > 0
    ensures QuantileIs(s, q, Quantile(Sort(Rtts(s), Le), q))
  {
    SortedRank(s, Position(|s|, q));
    PositionNearest(|s|, q);
    hide HasRank, NearestRank, Position, Sort;
  }

  lemma TimesMean(s: seq<Sample>, counters: seq<Counter>, lastOK: Option<Time>, qs: seq<real>)
    ensures TimesAre(s, qs, StatsOf(s, counters, lastOK, qs))
  {
    NoSamples();
    NoTally<Sample>(ConnectsIn);
    JitterMeans(s);
    ConnectMeanMeans(s);
    if |s| > 0 {
      SpreadMeans(s);
      forall q: real ensures QuantileIs(s, q, Quantile(Sort(Rtts(s), Le), q)) { QuantileMeans(s, q); }
    } else {
      assert Connects(s) == [];
      hide Connects;
    }
    hide Mean, Jitter, Least, Greatest, Sort, Quantile, QuantileIs, SumOf, Errors, LossRatio, Tally;
  }

  /** What the report of a window says about the cycles still in it. */
  lemma ReportMeaning(samples: seq<Sample>, counters: seq<Counter>, lastOK: Option<Time>, qs: seq<real>)
    ensures var r := StatsOf(samples, counters, lastOK, qs);
            CountsAre(counters, r) && TimesAre(samples, qs, r) && r.lastSuccess == lastOK
  {
    CountsMean(samples, counters, lastOK, qs);
    TimesMean(samples, counters, lastOK, qs);
    hide CountsAre, TimesAre, SumOf;
  }

  /** What one cycle adds to a window: one sample for each round trip, with the connect time of
      the same probe if there is one, and its counts; all at its start, or now if it has none. */
  lemma EntriesOf(c: Cycle, now: Time)
    ensures var at, more := StartOf(c, now), SamplesOf(c, StartOf(c, now));
            && at == (if c.startedAt.Some? then c.startedAt.value else now)
            && |more| == |c.rtt|
            && (forall i :: 0 <= i < |more| ==>
                 && more[i].at == at && more[i].rtt == c.rtt[i]
                 && more[i].connect == if i < |c.connectRtt| then Some(c.connectRtt[i]) else None)
    ensures var at, n := StartOf(c, now), CounterOf(c, StartOf(c, now));
            && n.at == at && n.sent == c.sent && n.received == c.received && n.lost == c.lost
            && n.reordered == c.reordered && n.errClass == c.errClass
  {}
}
