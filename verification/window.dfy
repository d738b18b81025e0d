/** The rolling sample window of one measurement task (internal/probe/probe.go). */
module Windows {
  import opened Base

  /** Times are in nanoseconds. */
  const MINUTE: Time := 60_000_000_000

  datatype Sample = Sample(at: Time, rtt: Time, connect: Option<Time>)

  datatype Counter = Counter(at: Time, sent: nat, received: nat, lost: nat, reordered: nat, errClass: string)

  /** The outcome of one probe cycle. The empty class means no error. */
  datatype Cycle = Cycle(startedAt: Option<Time>, rtt: seq<Time>, connectRtt: seq<Time>,
                         sent: nat, received: nat, lost: nat, reordered: nat, errClass: string)

  function StartOf(c: Cycle, now: Time): Time {
    if c.startedAt.Some? then c.startedAt.value else now
  }

  function SampleAt(c: Cycle, at: Time, i: nat): Sample
    requires i < |c.rtt|
  {
    Sample(at, c.rtt[i], if i < |c.connectRtt| then Some(c.connectRtt[i]) else None)
  }

  function SamplesOf(c: Cycle, at: Time): seq<Sample> {
    seq(|c.rtt|, i requires 0 <= i < |c.rtt| => SampleAt(c, at, i))
  }

  function CounterOf(c: Cycle, at: Time): Counter {
    Counter(at, c.sent, c.received, c.lost, c.reordered, c.errClass)
  }

  // ---------- expiry ----------

  function SampleTime(x: Sample): Time { x.at }

  function CounterTime(x: Counter): Time { x.at }

  /** What is left when the leading entries before a time are dropped. */
  function DropOld<T>(s: seq<T>, at: T -> Time, cut: Time): (r: seq<T>)
    ensures |r| <= |s|
  {
    if |s| == 0 || at(s[0]) >= cut then s else DropOld(s[1..], at, cut)
  }

  /** The entries at or after a time. */
  function Kept<T>(s: seq<T>, at: T -> Time, cut: Time): (r: seq<T>)
    ensures |r| <= |s|
  {
    if |s| == 0 then []
    else (if at(s[0]) >= cut then [s[0]] else []) + Kept(s[1..], at, cut)
  }

  lemma {:induction false} DropOldIs<T>(s: seq<T>, at: T -> Time, i: nat, cut: Time)
    requires i <= |s| && (forall j :: 0 <= j < i ==> at(s[j]) < cut) && (i < |s| ==> at(s[i]) >= cut)
    ensures DropOld(s, at, cut) == s[i..]
  {
    if i > 0 { DropOldIs(s[1..], at, i - 1, cut); }
  }

  /** Dropping, adding and dropping again at a later time is dropping once at the end. */
  lemma {:induction false} DropOldTwice<T>(s: seq<T>, more: seq<T>, at: T -> Time, early: Time, late: Time)
    requires early <= late
    ensures DropOld(DropOld(s, at, early) + more, at, late) == DropOld(s + more, at, late)
  {
    if |s| > 0 && at(s[0]) < early {
      DropOldTwice(s[1..], more, at, early, late);
      assert (s + more)[1..] == s[1..] + more;
    }
  }

  lemma {:induction false} KeptSame<T>(s: seq<T>, at: T -> Time, cut: Time)
    ensures Kept(s, at, cut) == s <==> forall i :: 0 <= i < |s| ==> at(s[i]) >= cut
  {
    if |s| > 0 {
      KeptSame(s[1..], at, cut);
      assert s == [s[0]] + s[1..];
      if at(s[0]) >= cut && Kept(s[1..], at, cut) != s[1..] {
        assert Kept(s, at, cut)[1..] == Kept(s[1..], at, cut);
        var i :| 0 <= i < |s[1..]| && at(s[1..][i]) < cut;
        assert at(s[i + 1]) < cut;
      }
    }
  }

  /** No old entry lies behind one that is not old. */
  ghost predicate NoStraggler<T>(s: seq<T>, at: T -> Time, cut: Time) {
    forall i, j :: 0 <= i < j < |s| && at(s[i]) >= cut ==> at(s[j]) >= cut
  }

  /** Dropping the leading old entries drops all old ones if and only if none lies behind an
      entry that stays. */
  lemma {:induction false} DropOldExact<T>(s: seq<T>, at: T -> Time, cut: Time)
    ensures DropOld(s, at, cut) == Kept(s, at, cut) <==> NoStraggler(s, at, cut)
  {
    if |s| > 0 {
      if at(s[0]) >= cut {
        KeptSame(s, at, cut);
      } else {
        DropOldExact(s[1..], at, cut);
        if NoStraggler(s[1..], at, cut) {
          forall i, j | 0 <= i < j < |s| && at(s[i]) >= cut ensures at(s[j]) >= cut {
            assert s[i] == s[1..][i - 1] && s[j] == s[1..][j - 1];
          }
        }
      }
    }
  }

  ghost predicate InOrder<T>(s: seq<T>, at: T -> Time) {
    forall i, j :: 0 <= i < j < |s| ==> at(s[i]) <= at(s[j])
  }

  /** So with cycles in the order of their start it drops exactly the old entries. */
  lemma InOrderExact<T>(s: seq<T>, at: T -> Time, cut: Time)
    requires InOrder(s, at)
    ensures DropOld(s, at, cut) == Kept(s, at, cut)
  {
    DropOldExact(s, at, cut);
  }

  /** Adding to a window that has been expired before and expiring it again gives what
      expiring the whole history gives. */
  lemma GrowHistory<T>(all: seq<T>, s: seq<T>, more: seq<T>, at: T -> Time, expired: Option<Time>, dur: Time, now: Time)
    requires expired.Some? ==> expired.value <= now
    requires s == if expired.Some? then DropOld(all, at, expired.value - dur) else all
    ensures DropOld(s + more, at, now - dur) == DropOld(all + more, at, now - dur)
  {
    if expired.Some? { DropOldTwice(all, more, at, expired.value - dur, now - dur); }
  }

  // ---------- the aggregate ----------

  function Rtts(s: seq<Sample>): seq<Time> { seq(|s|, i requires 0 <= i < |s| => s[i].rtt) }

  function Total(s: seq<Time>): Time {
    if |s| == 0 then 0 else Total(s[..|s| - 1]) + s[|s| - 1]
  }

  function Least(s: seq<Time>): Time
    requires |s| > 0
  {
    if |s| == 1 then s[0] else if s[|s| - 1] < Least(s[..|s| - 1]) then s[|s| - 1] else Least(s[..|s| - 1])
  }

  function Greatest(s: seq<Time>): Time
    requires |s| > 0
  {
    if |s| == 1 then s[0] else if s[|s| - 1] > Greatest(s[..|s| - 1]) then s[|s| - 1] else Greatest(s[..|s| - 1])
  }

  function Abs(x: Time): Time { if x < 0 then -x else x }

  /** The sum of the differences between consecutive samples. */
  function Jumps(s: seq<Time>): Time {
    if |s| <= 1 then 0 else Jumps(s[..|s| - 1]) + Abs(s[|s| - 1] - s[|s| - 2])
  }

  function Connects(s: seq<Sample>): seq<Time> {
    if |s| == 0 then []
    else Connects(s[..|s| - 1]) + if s[|s| - 1].connect.Some? then [s[|s| - 1].connect.value] else []
  }

  /** Division that truncates toward zero. */
  function Quotient(a: Time, n: nat): Time
    requires n > 0
  {
    if a >= 0 then a / n else -((-a) / n)
  }

  function Mean(s: seq<Time>): Time {
    if |s| == 0 then 0 else Quotient(Total(s), |s|)
  }

  function Jitter(s: seq<Time>): Time {
    if |s| <= 1 then 0 else Quotient(Jumps(s), |s| - 1)
  }

  predicate Le(x: Time, y: Time) { x <= y }

  function Truncate(x: real): int { if x >= 0.0 then x.Floor else -((-x).Floor) }

  function Position(n: nat, q: real): (i: nat)
    requires n > 0
    ensures i < n
  {
    var i := Truncate(q * ((n - 1) as real) + 0.5);
    if i < 0 then 0 else if i >= n then n - 1 else i
  }

  /** The nearest-rank value for q over a sorted list. */
  function Quantile(sorted: seq<Time>, q: real): Time {
    if |sorted| == 0 then 0 else sorted[Position(|sorted|, q)]
  }

  datatype Sums = Sums(sent: nat, received: nat, lost: nat, reordered: nat)

  function SumOf(s: seq<Counter>): Sums {
    if |s| == 0 then Sums(0, 0, 0, 0)
    else
      var r, c := SumOf(s[..|s| - 1]), s[|s| - 1];
      Sums(r.sent + c.sent, r.received + c.received, r.lost + c.lost, r.reordered + c.reordered)
  }

  /** How often each error class occurs. */
  function Errors(s: seq<Counter>): map<string, nat> {
    if |s| == 0 then map[]
    else
      var m, c := Errors(s[..|s| - 1]), s[|s| - 1].errClass;
      if c == "" then m else m[c := (if c in m then m[c] else 0) + 1]
  }

  /** The start of the last cycle that received an answer. */
  function LastAnswer(s: seq<Counter>): Option<Time> {
    if |s| == 0 then None
    else if s[|s| - 1].received > 0 then Some(s[|s| - 1].at) else LastAnswer(s[..|s| - 1])
  }

  lemma AnswerStep(s: seq<Counter>, c: Counter)
    ensures LastAnswer(s + [c]) == if c.received > 0 then Some(c.at) else LastAnswer(s)
  {
    assert (s + [c])[..|s|] == s;
  }

  datatype Stats = Stats(samples: nat, sums: Sums, lossRatio: real, min: Time, max: Time, mean: Time, jitter: Time,
                         connectMean: Time, lastSuccess: Option<Time>, percentiles: map<real, Time>,
                         errors: map<string, nat>)

  function LossRatio(s: Sums): real {
    if s.sent > 0 then s.lost as real / s.sent as real else 0.0
  }

  function StatsOf(samples: seq<Sample>, counters: seq<Counter>, lastOK: Option<Time>, percentiles: seq<real>): Stats {
    var r, sums := Rtts(samples), SumOf(counters);
    if |r| == 0 then Stats(0, sums, LossRatio(sums), 0, 0, 0, 0, 0, lastOK, map[], Errors(counters))
    else Stats(|r|, sums, LossRatio(sums), Least(r), Greatest(r), Mean(r), Jitter(r), Mean(Connects(samples)), lastOK,
               map q | q in percentiles :: Quantile(Sort(r, Le), q), Errors(counters))
  }

  // ---------- the window ----------

  class Window {
    const dur: Time
    var samples: seq<Sample>
    var counters: seq<Counter>
    var lastOK: Option<Time>

    /** Everything added since the last reset, and the time of the last expiry. */
    ghost var allSamples: seq<Sample>
    ghost var allCounters: seq<Counter>
    ghost var expired: Option<Time>

    /** The window is the whole history without its leading part older than the duration. */
    ghost predicate Valid()
      reads this
    {
      && samples == (if expired.Some? then DropOld(allSamples, SampleTime, expired.value - dur) else allSamples)
      && counters == (if expired.Some? then DropOld(allCounters, CounterTime, expired.value - dur) else allCounters)
      && lastOK == LastAnswer(allCounters)
    }

    /** The clock does not go back. */
    ghost predicate ClockOn(now: Time)
      reads this
    {
      expired.Some? ==> expired.value <= now
    }

    constructor (d: Time)
      ensures Valid() && dur == (if d <= 0 then MINUTE else d)
      ensures allSamples == [] && allCounters == [] && expired == None
    {
      dur := if d <= 0 then MINUTE else d;
      samples, counters, lastOK := [], [], None;
      allSamples, allCounters, expired := [], [], None;
    }

    /** Folds one cycle in and drops what has expired. */
    method Add(c: Cycle, now: Time)
      requires Valid() && ClockOn(now)
      modifies this
      ensures Valid() && expired == Some(now)
      ensures allSamples == old(allSamples) + SamplesOf(c, StartOf(c, now))
      ensures allCounters == old(allCounters) + [CounterOf(c, StartOf(c, now))]
    {
      hide DropOld, LastAnswer;
      var at := StartOf(c, now);
      ghost var more := SamplesOf(c, at);
      for i := 0 to |c.rtt|
        modifies this`samples
        invariant samples == old(samples) + more[..i]
      {
        samples := samples + [SampleAt(c, at, i)];
      }
      assert more[..|c.rtt|] == more;
      counters := counters + [CounterOf(c, at)];
      AnswerStep(allCounters, CounterOf(c, at));
      if c.received > 0 { lastOK := Some(at); }
      ghost var s0, c0 := old(samples), old(counters);
      GrowHistory(allSamples, s0, more, SampleTime, expired, dur, now);
      GrowHistory(allCounters, c0, [CounterOf(c, at)], CounterTime, expired, dur, now);
      allSamples, allCounters := allSamples + more, allCounters + [CounterOf(c, at)];
      Expire(now);
    }

    /** Drops the leading samples and counters outside the window. */
    method Expire(now: Time)
      requires DropOld(samples, SampleTime, now - dur) == DropOld(allSamples, SampleTime, now - dur)
      requires DropOld(counters, CounterTime, now - dur) == DropOld(allCounters, CounterTime, now - dur)
      requires lastOK == LastAnswer(allCounters)
      modifies this`samples, this`counters, this`expired
      ensures Valid() && expired == Some(now)
    {
      hide DropOld, LastAnswer;
      var cut := now - dur;
      var i := 0;
      while i < |samples| && samples[i].at < cut
        invariant i <= |samples|
        invariant forall k :: 0 <= k < i ==> samples[k].at < cut
      {
        i := i + 1;
      }
      DropOldIs(samples, SampleTime, i, cut);
      if i > 0 { samples := samples[i..]; } else { assert samples[0..] == samples; }
      var j := 0;
      while j < |counters| && counters[j].at < cut
        invariant j <= |counters|
        invariant forall k :: 0 <= k < j ==> counters[k].at < cut
      {
        j := j + 1;
      }
      DropOldIs(counters, CounterTime, j, cut);
      if j > 0 { counters := counters[j..]; } else { assert counters[0..] == counters; }
      expired := Some(now);
    }

    method Reset()
      modifies this
      ensures Valid() && allSamples == [] && allCounters == [] && samples == [] && counters == [] && lastOK == None
                && expired == None
    {
      samples, counters, lastOK := [], [], None;
      allSamples, allCounters, expired := [], [], None;
    }

    /** The aggregate over the window as of now. */
    method Report(percentiles: seq<real>, now: Time) returns (r: Stats)
      requires Valid() && ClockOn(now)
      modifies this`samples, this`counters, this`expired
      ensures Valid() && expired == Some(now)
      ensures r == StatsOf(DropOld(allSamples, SampleTime, now - dur), DropOld(allCounters, CounterTime, now - dur),
                           LastAnswer(allCounters), percentiles)
    {
      hide DropOld, LastAnswer, StatsOf;
      assert allSamples + [] == allSamples && samples + [] == samples && allCounters + [] == allCounters
               && counters + [] == counters;
      GrowHistory(allSamples, samples, [], SampleTime, expired, dur, now);
      GrowHistory(allCounters, counters, [], CounterTime, expired, dur, now);
      Expire(now);
      r := Aggregate(samples, counters, lastOK, percentiles);
    }
  }

  /** One pass over the counters and one over the samples. */
  method Aggregate(samples: seq<Sample>, counters: seq<Counter>, lastOK: Option<Time>,
                   percentiles: seq<real>) returns (r: Stats)
    ensures r == StatsOf(samples, counters, lastOK, percentiles)
  {
    var sums := Sums(0, 0, 0, 0);
    var errors: map<string, nat> := map[];
    for n := 0 to |counters|
      invariant sums == SumOf(counters[..n]) && errors == Errors(counters[..n])
    {
      assert counters[..n + 1][..n] == counters[..n];
      var c := counters[n];
      sums := Sums(sums.sent + c.sent, sums.received + c.received, sums.lost + c.lost, sums.reordered + c.reordered);
      if c.errClass != "" {
        errors := errors[c.errClass := (if c.errClass in errors then errors[c.errClass] else 0) + 1];
      }
    }
    assert counters[..|counters|] == counters;
    if |samples| == 0 {
      return Stats(0, sums, LossRatio(sums), 0, 0, 0, 0, 0, lastOK, map[], errors);
    }
    var m := Measure(samples);
    var sorted := Sort(Rtts(samples), Le);
    r := Stats(|samples|, sums, LossRatio(sums), m.min, m.max, m.mean, m.jitter, m.connectMean, lastOK,
               map q | q in percentiles :: Quantile(sorted, q), errors);
  }

  datatype Measures = Measures(min: Time, max: Time, mean: Time, jitter: Time, connectMean: Time)

  method Measure(samples: seq<Sample>) returns (m: Measures)
    requires |samples| > 0
    ensures var r := Rtts(samples);
            m == Measures(Least(r), Greatest(r), Mean(r), Jitter(r), Mean(Connects(samples)))
  {
    hide Quotient, Abs, Total, Jumps, Least, Greatest, Connects;
    ghost var r := Rtts(samples);
    NoSamples();
    var total, jumps, connTotal, connCount := 0, 0, 0, 0;
    var min, max := samples[0].rtt, samples[0].rtt;
    for i := 0 to |samples|
      invariant total == Total(r[..i]) && jumps == Jumps(r[..i])
      invariant i > 0 ==> min == Least(r[..i]) && max == Greatest(r[..i])
      invariant i == 0 ==> min == max == r[0]
      invariant connTotal == Total(Connects(samples[..i])) && connCount == |Connects(samples[..i])|
    {
      var s := samples[i];
      OneMoreSample(samples, i);
      total := total + s.rtt;
      if s.rtt < min { min := s.rtt; }
      if s.rtt > max { max := s.rtt; }
      if i > 0 { jumps := jumps + Abs(s.rtt - samples[i - 1].rtt); }
      if s.connect.Some? {
        ConnectsStep(Connects(samples[..i]), s.connect.value);
        connTotal := connTotal + s.connect.value;
        connCount := connCount + 1;
      }
    }
    assert r[..|samples|] == r && samples[..|samples|] == samples;
    m := Measures(min, max, Quotient(total, |samples|),
                  if |samples| > 1 then Quotient(jumps, |samples| - 1) else 0,
                  if connCount > 0 then Quotient(connTotal, connCount) else 0);
  }

  lemma NoSamples()
    ensures Total([]) == 0 && Jumps([]) == 0 && Connects([]) == []
  {}

  /** What one more sample does to each measure. */
  lemma OneMoreSample(samples: seq<Sample>, i: nat)
    requires i < |samples|
    ensures var r, s := Rtts(samples), samples[i];
            && Total(r[..i + 1]) == Total(r[..i]) + s.rtt
            && Jumps(r[..i + 1]) == Jumps(r[..i]) + (if i > 0 then Abs(s.rtt - samples[i - 1].rtt) else 0)
            && Least(r[..i + 1]) == (if i == 0 || s.rtt < Least(r[..i]) then s.rtt else Least(r[..i]))
            && Greatest(r[..i + 1]) == (if i == 0 || s.rtt > Greatest(r[..i]) then s.rtt else Greatest(r[..i]))
            && Connects(samples[..i + 1])
                 == (if s.connect.Some? then Connects(samples[..i]) + [s.connect.value] else Connects(samples[..i]))
  {
    var r := Rtts(samples);
    assert r[..i + 1][..i] == r[..i] && r[..i + 1][i] == samples[i].rtt;
    assert samples[..i + 1][..i] == samples[..i];
    assert Connects(samples[..i]) + [] == Connects(samples[..i]);
    hide Abs;
  }

  lemma ConnectsStep(s: seq<Time>, x: Time)
    ensures Total(s + [x]) == Total(s) + x
  {
    assert (s + [x])[..|s|] == s;
  }

  // ---------- what the aggregate means ----------

  lemma {:induction false} Extremes(s: seq<Time>)
    requires |s| > 0
    ensures Least(s) in s && Greatest(s) in s
    ensures forall x :: x in s ==> Least(s) <= x <= Greatest(s)
  {
    if |s| > 1 {
      var t := s[..|s| - 1];
      Extremes(t);
      forall x | x in s ensures Least(s) <= x <= Greatest(s) { assert x in t || x == s[|s| - 1]; }
    }
  }

  lemma {:induction false} TotalBounds(s: seq<Time>, lo: Time, hi: Time)
    requires forall x :: x in s ==> lo <= x <= hi
    ensures lo * |s| <= Total(s) <= hi * |s|
  {
    if |s| > 0 {
      var t := s[..|s| - 1];
      forall x | x in t ensures lo <= x <= hi { assert x in s; }
      TotalBounds(t, lo, hi);
      assert s[|s| - 1] in s;
    }
  }

  lemma {:induction false} JumpsBounded(s: seq<Time>, lo: Time, hi: Time)
    requires |s| > 0 && forall x :: x in s ==> lo <= x <= hi
    ensures 0 <= Jumps(s) <= (hi - lo) * (|s| - 1)
  {
    if |s| > 1 {
      var t := s[..|s| - 1];
      forall x | x in t ensures lo <= x <= hi { assert x in s; }
      JumpsBounded(t, lo, hi);
      assert s[|s| - 1] in s && s[|s| - 2] in s;
      assert (hi - lo) * (|t| - 1) + (hi - lo) == (hi - lo) * (|s| - 1);
    }
  }

  lemma QuotientBounds(a: Time, n: nat, lo: Time, hi: Time)
    requires n > 0 && 0 <= lo && lo * n <= a <= hi * n
    ensures lo <= Quotient(a, n) <= hi
  {
    MulLe(0, lo, n);
    var q := a / n;
    assert q * n <= a < (q + 1) * n;
    assert (hi + 1) * n == hi * n + n;
    if q < lo { MulLe(q + 1, lo, n); }
    if q > hi { MulLe(hi + 1, q, n); }
  }

  /** For non-negative round-trip times the mean lies between the extremes and the jitter
      does not exceed their distance. */
  lemma AggregateBounds(s: seq<Time>)
    requires |s| > 0 && forall x :: x in s ==> x >= 0
    ensures 0 <= Least(s) <= Mean(s) <= Greatest(s)
    ensures 0 <= Jitter(s) <= Greatest(s) - Least(s)
  {
    Extremes(s);
    TotalBounds(s, Least(s), Greatest(s));
    QuotientBounds(Total(s), |s|, Least(s), Greatest(s));
    JumpsBounded(s, Least(s), Greatest(s));
    if |s| > 1 { QuotientBounds(Jumps(s), |s| - 1, 0, Greatest(s) - Least(s)); }
  }

  lemma TruncateMonotone(x: real, y: real)
    requires x <= y
    ensures Truncate(x) <= Truncate(y)
  {}

  lemma PositionMonotone(n: nat, p: real, q: real)
    requires n > 0 && p <= q
    ensures Position(n, p) <= Position(n, q)
  {
    var m := (n - 1) as real;
    MulNonNegative(q - p, m);
    assert q * m == p * m + (q - p) * m;
    TruncateMonotone(p * m + 0.5, q * m + 0.5);
  }

  lemma LeOrder()
    ensures TotalPreorder(Le)
  {}

  /** Every reported quantile lies between the extremes, and a larger q never reports a
      smaller value. */
  lemma QuantileMeaning(s: seq<Time>, p: real, q: real)
    requires |s| > 0 && p <= q
    ensures Least(s) <= Quantile(Sort(s, Le), p) <= Quantile(Sort(s, Le), q) <= Greatest(s)
  {
    hide Position, Least, Greatest, Sort, Truncate;
    var t := Sort(s, Le);
    LeOrder();
    SortSorted(s, Le);
    SamePermutation(s, t);
    PositionMonotone(|t|, p, q);
    Extremes(s);
    var i, j := Position(|t|, p), Position(|t|, q);
    assert t[i] in Elems(t) && t[j] in Elems(t);
    assert i < j ==> Le(t[i], t[j]);
  }
}
