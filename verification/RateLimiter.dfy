// The sliding-window rate limiter. Times are in nanoseconds. The clock is read
// before the lock is taken, so the moments of a key need not be in order.
module RateLimiter {
  const WINDOW: int := 60 * 1_000_000_000

  // A call of a key with a limit, in the order of the lock.
  datatype Entry = Entry(moment: int, passed: bool)

  // The stamps that still count at a moment.
  function Recent(stamps: seq<int>, moment: int): seq<int> {
    if stamps == [] then []
    else
      var rest := Recent(stamps[..|stamps| - 1], moment);
      var stamp := stamps[|stamps| - 1];
      if moment - stamp < WINDOW then rest + [stamp] else rest
  }

  // How many stamps lie in the span that starts at a time.
  function CountIn(stamps: seq<int>, from: int, span: int): nat {
    if stamps == [] then 0
    else
      var stamp := stamps[|stamps| - 1];
      CountIn(stamps[..|stamps| - 1], from, span) + if from <= stamp < from + span then 1 else 0
  }

  // The moments of the calls that passed.
  function Passed(log: seq<Entry>): seq<int> {
    if log == [] then []
    else
      var front, last := Passed(log[..|log| - 1]), log[|log| - 1];
      if last.passed then front + [last.moment] else front
  }

  // What is left of them when every call drops what is a minute older than itself.
  function Kept(log: seq<Entry>): seq<int> {
    if log == [] then []
    else
      var last := log[|log| - 1];
      var recent := Recent(Kept(log[..|log| - 1]), last.moment);
      if last.passed then recent + [last.moment] else recent
  }

  lemma RecentAppend(stamps: seq<int>, stamp: int, moment: int)
    ensures Recent(stamps + [stamp], moment) == Recent(stamps, moment) + if moment - stamp < WINDOW then [stamp] else []
  {
    assert (stamps + [stamp])[..|stamps|] == stamps;
  }

  lemma CountAppend(stamps: seq<int>, stamp: int, from: int, span: int)
    ensures CountIn(stamps + [stamp], from, span) ==
            CountIn(stamps, from, span) + if from <= stamp < from + span then 1 else 0
  {
    assert (stamps + [stamp])[..|stamps|] == stamps;
  }

  // A passed call still counts when every call since came less than a minute
  // after it.
  ghost predicate Counts(log: seq<Entry>, i: nat) {
    i < |log| && log[i].passed && forall j :: i < j < |log| ==> log[j].moment - log[i].moment < WINDOW
  }

  ghost function Counting(log: seq<Entry>, n: nat): seq<int>
    requires n <= |log|
  {
    if n == 0 then []
    else if Counts(log, n - 1) then Counting(log, n - 1) + [log[n - 1].moment]
    else Counting(log, n - 1)
  }

  // The stamps that are kept are those of the calls that still count.
  lemma {:induction false} KeptAreCounting(log: seq<Entry>)
    ensures Kept(log) == Counting(log, |log|)
    decreases log
  {
    if log != [] {
      KeptAreCounting(log[..|log| - 1]);
      CountingLater(log, |log| - 1);
    }
  }

  lemma {:induction false} CountingLater(log: seq<Entry>, n: nat)
    requires n < |log|
    ensures Counting(log, n) == Recent(Counting(log[..|log| - 1], n), log[|log| - 1].moment)
    decreases n
  {
    if n > 0 {
      CountingLater(log, n - 1);
      var front, last := log[..|log| - 1], log[|log| - 1];
      assert front[n - 1] == log[n - 1];
      assert Counts(log, n - 1) <==> Counts(front, n - 1) && last.moment - log[n - 1].moment < WINDOW by {
        assert forall j :: n - 1 < j < |front| ==> front[j] == log[j];
      }
      RecentAppend(Counting(front, n - 1), log[n - 1].moment, last.moment);
    }
  }

  // Each call of a log passed exactly when fewer than the limit still counted.
  ghost predicate AnsweredRight(log: seq<Entry>, limit: int) {
    forall i :: 0 <= i < |log| ==> RightAt(log, limit, i)
  }

  ghost predicate RightAt(log: seq<Entry>, limit: int, i: nat)
    requires i < |log|
  {
    log[i].passed <==> |Recent(Kept(log[..i]), log[i].moment)| < limit
  }

  // No call read the clock more than this before an earlier one.
  ghost predicate Lagging(log: seq<Entry>, lag: int) {
    forall i, j :: 0 <= i < j < |log| ==> log[j].moment >= log[i].moment - lag
  }

  lemma FrontIsAlike(log: seq<Entry>, limit: int, lag: int)
    requires log != [] && AnsweredRight(log, limit) && Lagging(log, lag)
    ensures AnsweredRight(log[..|log| - 1], limit) && Lagging(log[..|log| - 1], lag)
  {
    var front := log[..|log| - 1];
    forall i | 0 <= i < |front|
      ensures RightAt(front, limit, i)
    {
      assert RightAt(log, limit, i) && front[..i] == log[..i];
    }
  }

  // Dropping what is a minute older than a moment keeps a span that starts later.
  lemma {:induction false} RecentKeepsSpan(stamps: seq<int>, moment: int, from: int, span: int)
    requires moment - WINDOW < from
    ensures CountIn(Recent(stamps, moment), from, span) == CountIn(stamps, from, span)
    decreases stamps
  {
    if stamps != [] {
      var front, stamp := stamps[..|stamps| - 1], stamps[|stamps| - 1];
      RecentKeepsSpan(front, moment, from, span);
      CountAppend(Recent(front, moment), stamp, from, span);
    }
  }

  // All passed calls of a span are kept while no call came a minute after its start.
  lemma {:induction false} KeptCoverSpan(log: seq<Entry>, from: int, span: int)
    requires forall i :: 0 <= i < |log| ==> log[i].moment - WINDOW < from
    ensures CountIn(Kept(log), from, span) == CountIn(Passed(log), from, span)
    decreases log
  {
    if log != [] {
      var front, last := log[..|log| - 1], log[|log| - 1];
      KeptCoverSpan(front, from, span);
      RecentKeepsSpan(Kept(front), last.moment, from, span);
      CountAppend(Recent(Kept(front), last.moment), last.moment, from, span);
      CountAppend(Passed(front), last.moment, from, span);
    }
  }

  lemma {:induction false} CountAtMost(stamps: seq<int>, from: int, span: int)
    ensures CountIn(stamps, from, span) <= |stamps|
    decreases stamps
  {
    if stamps != [] {
      CountAtMost(stamps[..|stamps| - 1], from, span);
    }
  }

  // Whatever the order of the clock readings, no span that is shorter than a
  // minute by the lag ever holds more passed calls than the limit.
  lemma {:induction false} NoSpanIsOverfull(log: seq<Entry>, limit: nat, lag: nat, from: int)
    requires AnsweredRight(log, limit) && Lagging(log, lag)
    ensures CountIn(Passed(log), from, WINDOW - lag) <= limit
    decreases log
  {
    if log != [] {
      var front, last := log[..|log| - 1], log[|log| - 1];
      FrontIsAlike(log, limit, lag);
      NoSpanIsOverfull(front, limit, lag, from);
      assert RightAt(log, limit, |front|);
      hide Recent, Kept, CountIn, AnsweredRight;
      if last.passed {
        NextInSpan(front, last.moment, limit, lag, from);
      }
    }
  }

  lemma NextInSpan(log: seq<Entry>, moment: int, limit: nat, lag: nat, from: int)
    requires |Recent(Kept(log), moment)| < limit && CountIn(Passed(log), from, WINDOW - lag) <= limit
    requires forall i :: 0 <= i < |log| ==> moment >= log[i].moment - lag
    ensures CountIn(Passed(log) + [moment], from, WINDOW - lag) <= limit
  {
    hide Recent, Kept, Passed, CountIn;
    var span := WINDOW - lag;
    CountAppend(Passed(log), moment, from, span);
    if from <= moment < from + span {
      KeptCoverSpan(log, from, span);
      RecentKeepsSpan(Kept(log), moment, from, span);
      CountAtMost(Recent(Kept(log), moment), from, span);
    }
  }

  // The span cannot be longer: with any lag up to a minute, and any limit above
  // one, some calls pass that fill a span longer by one.
  lemma LagFillsLongerSpan(limit: nat, lag: nat) returns (log: seq<Entry>)
    requires limit >= 2 && lag <= WINDOW
    ensures AnsweredRight(log, limit) && Lagging(log, lag)
    ensures CountIn(Passed(log), 0, WINDOW - lag + 1) > limit
  {
    hide Recent, Kept, Passed, CountIn, AnsweredRight;
    var zeros := Zeros(limit, limit);
    var third, last := Entry(WINDOW, true), Entry(WINDOW - lag, true);
    log := zeros + [third] + [last];
    OldAreDropped(Kept(zeros), WINDOW);
    GrowsRight(zeros, third, limit);
    assert Kept(zeros + [third]) == [WINDOW];
    NewAreKept([WINDOW], last.moment);
    GrowsRight(zeros + [third], last, limit);
    ZerosInSpan(Passed(zeros), WINDOW - lag + 1);
    CountAppend(Passed(zeros), WINDOW, 0, WINDOW - lag + 1);
    CountAppend(Passed(zeros + [third]), last.moment, 0, WINDOW - lag + 1);
    assert forall i :: 0 <= i < limit ==> log[i] == zeros[i];
  }

  lemma {:induction false} ZerosInSpan(stamps: seq<int>, span: nat)
    requires span > 0 && forall i :: 0 <= i < |stamps| ==> stamps[i] == 0
    ensures CountIn(stamps, 0, span) == |stamps|
    decreases stamps
  {
    if stamps != [] {
      ZerosInSpan(stamps[..|stamps| - 1], span);
    }
  }

  // That many calls at time zero pass.
  lemma {:induction false} Zeros(n: nat, limit: nat) returns (log: seq<Entry>)
    requires n <= limit
    ensures |log| == n && forall i :: 0 <= i < n ==> log[i] == Entry(0, true)
    ensures AnsweredRight(log, limit) && Kept(log) == Passed(log) == seq(n, _ => 0)
  {
    log := [];
    if n > 0 {
      var front := Zeros(n - 1, limit);
      log := front + [Entry(0, true)];
      NewAreKept(Kept(front), 0);
      hide Recent, AnsweredRight;
      GrowsRight(front, Entry(0, true), limit);
    }
  }

  lemma GrowsRight(log: seq<Entry>, entry: Entry, limit: nat)
    requires AnsweredRight(log, limit) && (entry.passed <==> |Recent(Kept(log), entry.moment)| < limit)
    ensures AnsweredRight(log + [entry], limit)
    ensures Passed(log + [entry]) == if entry.passed then Passed(log) + [entry.moment] else Passed(log)
    ensures var recent := Recent(Kept(log), entry.moment);
            Kept(log + [entry]) == if entry.passed then recent + [entry.moment] else recent
  {
    var more := log + [entry];
    assert more[..|log|] == log;
    forall i | 0 <= i < |more|
      ensures RightAt(more, limit, i)
    {
      if i < |log| {
        assert RightAt(log, limit, i) && more[..i] == log[..i];
      }
    }
  }

  lemma {:induction false} OldAreDropped(stamps: seq<int>, moment: int)
    requires forall i :: 0 <= i < |stamps| ==> moment - stamps[i] >= WINDOW
    ensures Recent(stamps, moment) == []
    decreases stamps
  {
    if stamps != [] {
      OldAreDropped(stamps[..|stamps| - 1], moment);
    }
  }

  lemma {:induction false} NewAreKept(stamps: seq<int>, moment: int)
    requires forall i :: 0 <= i < |stamps| ==> moment - stamps[i] < WINDOW
    ensures Recent(stamps, moment) == stamps
    decreases stamps
  {
    if stamps != [] {
      NewAreKept(stamps[..|stamps| - 1], moment);
    }
  }

  // With a limit of one, no clock order lets two calls pass within a minute.
  lemma OneIsNeverTwo(log: seq<Entry>, from: int)
    requires AnsweredRight(log, 1)
    ensures CountIn(Passed(log), from, WINDOW) <= 1
  {
    PassedFarApart(log);
    FarApartIsOne(Passed(log), from);
  }

  ghost predicate FarApart(stamps: seq<int>) {
    forall i, j :: 0 <= i < j < |stamps| ==> stamps[j] - stamps[i] >= WINDOW
  }

  lemma {:induction false} PassedFarApart(log: seq<Entry>)
    requires AnsweredRight(log, 1)
    ensures FarApart(Passed(log))
    ensures Kept(log) == if Passed(log) == [] then [] else [Passed(log)[|Passed(log)| - 1]]
    decreases log
  {
    if log != [] {
      var front, last := log[..|log| - 1], log[|log| - 1];
      FrontOfOne(log);
      PassedFarApart(front);
      assert RightAt(log, 1, |front|);
      OneStamp(if Passed(front) == [] then 0 else Passed(front)[|Passed(front)| - 1], last.moment);
      hide Recent, AnsweredRight;
      if last.passed {
        NextFarApart(Passed(front), last.moment);
      }
    }
  }

  lemma OneStamp(stamp: int, moment: int)
    ensures Recent([], moment) == [] && Recent([stamp], moment) == if moment - stamp < WINDOW then [stamp] else []
  {
    assert [stamp][..0] == [];
  }

  lemma NextFarApart(stamps: seq<int>, moment: int)
    requires FarApart(stamps) && (stamps != [] ==> moment - stamps[|stamps| - 1] >= WINDOW)
    ensures FarApart(stamps + [moment])
  {
    assert forall i :: 0 <= i < |stamps| ==> stamps[i] <= stamps[|stamps| - 1];
  }

  lemma FrontOfOne(log: seq<Entry>)
    requires log != [] && AnsweredRight(log, 1)
    ensures AnsweredRight(log[..|log| - 1], 1)
  {
    var front := log[..|log| - 1];
    forall i | 0 <= i < |front|
      ensures RightAt(front, 1, i)
    {
      assert RightAt(log, 1, i) && front[..i] == log[..i];
    }
  }

  lemma {:induction false} FarApartIsOne(stamps: seq<int>, from: int)
    requires FarApart(stamps)
    ensures CountIn(stamps, from, WINDOW) <= 1
    ensures |stamps| > 0 && stamps[|stamps| - 1] < from ==> CountIn(stamps, from, WINDOW) == 0
    decreases stamps
  {
    if stamps != [] {
      var front := stamps[..|stamps| - 1];
      FarApartIsOne(front, from);
      if front != [] {
        assert stamps[|stamps| - 1] - front[|front| - 1] >= WINDOW;
      }
    }
  }

  // In general, a refusal means that the last minute, and what is ahead of it by
  // the lag, holds at least the limit, and a passed call finds fewer than the limit
  // in the part of it that no lag reaches.
  lemma KeptAreBetween(log: seq<Entry>, lag: nat, moment: int)
    requires forall i :: 0 <= i < |log| ==> moment >= log[i].moment - lag
    ensures CountIn(Passed(log), moment - WINDOW + lag + 1, WINDOW) <= |Recent(Kept(log), moment)|
    ensures |Recent(Kept(log), moment)| <= CountIn(Passed(log), moment - WINDOW + 1, WINDOW + lag)
  {
    var from := moment - WINDOW + lag + 1;
    KeptCoverSpan(log, from, WINDOW);
    RecentKeepsSpan(Kept(log), moment, from, WINDOW);
    CountAtMost(Recent(Kept(log), moment), from, WINDOW);
    RecentAreCounted(log, lag, moment);
  }

  // What is kept was passed.
  lemma {:induction false} KeptFewer(log: seq<Entry>, from: int, span: int)
    ensures CountIn(Kept(log), from, span) <= CountIn(Passed(log), from, span)
    decreases log
  {
    if log != [] {
      var front, last := log[..|log| - 1], log[|log| - 1];
      KeptFewer(front, from, span);
      RecentFewer(Kept(front), last.moment, from, span);
      CountAppend(Recent(Kept(front), last.moment), last.moment, from, span);
      CountAppend(Passed(front), last.moment, from, span);
    }
  }

  lemma {:induction false} RecentFewer(stamps: seq<int>, moment: int, from: int, span: int)
    ensures CountIn(Recent(stamps, moment), from, span) <= CountIn(stamps, from, span)
    decreases stamps
  {
    if stamps != [] {
      var front, stamp := stamps[..|stamps| - 1], stamps[|stamps| - 1];
      RecentFewer(front, moment, from, span);
      CountAppend(Recent(front, moment), stamp, from, span);
    }
  }

  lemma RecentAreCounted(log: seq<Entry>, lag: nat, moment: int)
    requires forall i :: 0 <= i < |log| ==> moment >= log[i].moment - lag
    ensures |Recent(Kept(log), moment)| <= CountIn(Passed(log), moment - WINDOW + 1, WINDOW + lag)
  {
    KeptAreBelow(log, moment + lag);
    AllAreCounted(Kept(log), lag, moment);
    KeptFewer(log, moment - WINDOW + 1, WINDOW + lag);
  }

  lemma {:induction false} KeptAreBelow(log: seq<Entry>, bound: int)
    requires forall i :: 0 <= i < |log| ==> log[i].moment <= bound
    ensures forall i :: 0 <= i < |Kept(log)| ==> Kept(log)[i] <= bound
    decreases log
  {
    if log != [] {
      KeptAreBelow(log[..|log| - 1], bound);
      RecentAreBelow(Kept(log[..|log| - 1]), log[|log| - 1].moment, bound);
    }
  }

  lemma {:induction false} RecentAreBelow(stamps: seq<int>, moment: int, bound: int)
    requires forall i :: 0 <= i < |stamps| ==> stamps[i] <= bound
    ensures forall i :: 0 <= i < |Recent(stamps, moment)| ==> Recent(stamps, moment)[i] <= bound
    decreases stamps
  {
    if stamps != [] {
      RecentAreBelow(stamps[..|stamps| - 1], moment, bound);
    }
  }

  lemma {:induction false} AllAreCounted(stamps: seq<int>, lag: nat, moment: int)
    requires forall i :: 0 <= i < |stamps| ==> stamps[i] <= moment + lag
    ensures |Recent(stamps, moment)| == CountIn(stamps, moment - WINDOW + 1, WINDOW + lag)
    decreases stamps
  {
    if stamps != [] {
      AllAreCounted(stamps[..|stamps| - 1], lag, moment);
    }
  }

  // With moments in order, a call passes exactly when the last minute has room,
  // and a refusal means that this minute holds exactly the limit. A minute is so
  // many nanoseconds.
  lemma InOrderIsExact(log: seq<Entry>, limit: nat, i: nat)
    requires AnsweredRight(log, limit) && Lagging(log, 0) && i < |log|
    ensures var count := CountIn(Passed(log[..i]), log[i].moment - 60_000_000_000 + 1, 60_000_000_000);
            (log[i].passed <==> count < limit) && (!log[i].passed ==> count == limit)
  {
    hide Recent, Kept, Passed, CountIn;
    var front := log[..i];
    forall k | 0 <= k < i
      ensures RightAt(front, limit, k)
    {
      assert RightAt(log, limit, k) && front[..k] == log[..k];
    }
    assert RightAt(log, limit, i);
    hide RightAt;
    KeptAreBetween(front, 0, log[i].moment);
    NoSpanIsOverfull(front, limit, 0, log[i].moment - WINDOW + 1);
  }

  // With moments in order no minute ever holds more passed calls than the limit.
  lemma NoMinuteIsOverfull(log: seq<Entry>, limit: nat, from: int)
    requires AnsweredRight(log, limit) && Lagging(log, 0)
    ensures CountIn(Passed(log), from, 60_000_000_000) <= limit
  {
    NoSpanIsOverfull(log, limit, 0, from);
  }

  function At(stamps: map<string, seq<int>>, key: string): seq<int> {
    if key in stamps then stamps[key] else []
  }

  function LogOf(logs: map<string, seq<Entry>>, key: string): seq<Entry> {
    if key in logs then logs[key] else []
  }

  class RateLimiter {
    var timestampsByKey: map<string, seq<int>>
    // All calls with a limit, in the order of the lock.
    ghost var logs: map<string, seq<Entry>>

    // The limiter keeps for each key what still counts of its whole log.
    ghost predicate Valid()
      reads this
    {
      forall key :: At(timestampsByKey, key) == Kept(LogOf(logs, key))
    }

    constructor ()
      ensures Valid() && logs == map[]
    {
      timestampsByKey, logs := map[], map[];
    }

    // A call passes exactly when fewer than the limit of the calls that passed
    // still count, for any clock.
    method Allow(key: string, perMinute: int, moment: int) returns (allowed: bool)
      requires Valid()
      modifies this
      ensures Valid()
      ensures perMinute <= 0 ==> allowed && logs == old(logs)
      ensures perMinute > 0 ==>
        && (allowed <==>
            |Counting(LogOf(old(logs), key) + [Entry(moment, false)], |LogOf(old(logs), key)|)| < perMinute)
        && logs == old(logs)[key := LogOf(old(logs), key) + [Entry(moment, allowed)]]
    {
      if perMinute <= 0 {
        return true;
      }
      var recent := SelectRecent(At(timestampsByKey, key), moment);
      ghost var before := LogOf(logs, key);
      StillCount(before, moment);
      if |recent| >= perMinute {
        LogGrows(before, Entry(moment, false));
        timestampsByKey := timestampsByKey[key := recent];
        logs := logs[key := before + [Entry(moment, false)]];
        return false;
      }
      LogGrows(before, Entry(moment, true));
      timestampsByKey := timestampsByKey[key := recent + [moment]];
      logs := logs[key := before + [Entry(moment, true)]];
      allowed := true;
    }
  }

  // What counts at a call are the recent ones of what is kept.
  lemma StillCount(log: seq<Entry>, moment: int)
    ensures Counting(log + [Entry(moment, false)], |log|) == Recent(Kept(log), moment)
  {
    var more := log + [Entry(moment, false)];
    assert more[..|log|] == log;
    CountingLater(more, |log|);
    KeptAreCounting(log);
  }

  lemma LogGrows(log: seq<Entry>, entry: Entry)
    ensures var recent := Recent(Kept(log), entry.moment);
            Kept(log + [entry]) == if entry.passed then recent + [entry.moment] else recent
  {
    assert (log + [entry])[..|log|] == log;
  }

  method SelectRecent(stamps: seq<int>, moment: int) returns (recent: seq<int>)
    ensures recent == Recent(stamps, moment)
  {
    recent := [];
    for index := 0 to |stamps|
      invariant recent == Recent(stamps[..index], moment)
    {
      RecentAppend(stamps[..index], stamps[index], moment);
      assert stamps[..index + 1] == stamps[..index] + [stamps[index]];
      if moment - stamps[index] < WINDOW {
        recent := recent + [stamps[index]];
      }
    }
    assert stamps[..|stamps|] == stamps;
  }

  datatype Call = Call(key: string, moment: int)

  // The calls of a key, with their answers.
  function CallsOf(calls: seq<Call>, answers: seq<bool>, key: string): seq<Entry>
    requires |calls| == |answers|
  {
    if calls == [] then []
    else
      var n := |calls| - 1;
      var front := CallsOf(calls[..n], answers[..n], key);
      if calls[n].key == key then front + [Entry(calls[n].moment, answers[n])] else front
  }

  // The log of every key with a limit goes on by its calls, all answered right.
  ghost predicate Served(before: map<string, seq<Entry>>, logs: map<string, seq<Entry>>, limits: string -> int,
                         calls: seq<Call>, answers: seq<bool>) {
    && |calls| == |answers|
    && forall key :: limits(key) > 0 ==>
         && LogOf(logs, key) == LogOf(before, key) + CallsOf(calls, answers, key)
         && AnsweredRight(LogOf(logs, key), limits(key))
  }

  lemma CallsGrow(calls: seq<Call>, answers: seq<bool>, call: Call, allowed: bool, key: string)
    requires |calls| == |answers|
    ensures CallsOf(calls + [call], answers + [allowed], key) ==
            if call.key == key then CallsOf(calls, answers, key) + [Entry(call.moment, allowed)]
            else CallsOf(calls, answers, key)
  {
    assert (calls + [call])[..|calls|] == calls && (answers + [allowed])[..|answers|] == answers;
  }

  lemma ServeStep(before: map<string, seq<Entry>>, logs: map<string, seq<Entry>>, logs': map<string, seq<Entry>>,
                  limits: string -> int, calls: seq<Call>, answers: seq<bool>, call: Call, allowed: bool)
    requires Served(before, logs, limits, calls, answers)
    requires var log := LogOf(logs, call.key);
             limits(call.key) > 0 ==>
               && (allowed <==> |Recent(Kept(log), call.moment)| < limits(call.key))
               && logs' == logs[call.key := log + [Entry(call.moment, allowed)]]
    requires limits(call.key) <= 0 ==> logs' == logs
    ensures Served(before, logs', limits, calls + [call], answers + [allowed])
  {
    hide Recent, Kept, Passed, CallsOf, AnsweredRight;
    forall key | limits(key) > 0
      ensures LogOf(logs', key) == LogOf(before, key) + CallsOf(calls + [call], answers + [allowed], key)
      ensures AnsweredRight(LogOf(logs', key), limits(key))
    {
      CallsGrow(calls, answers, call, allowed, key);
      if key == call.key {
        GrowsRight(LogOf(logs, key), Entry(call.moment, allowed), limits(key));
      }
    }
  }

  // Over any run of calls of any keys, each with its own limit, under any clock,
  // every call is answered right, and no span that is shorter than a minute by the
  // lag of a key ever holds more passed calls than its limit.
  method Serve(limiter: RateLimiter, limits: string -> int, calls: seq<Call>) returns (answers: seq<bool>)
    requires limiter.Valid()
    requires forall key :: limits(key) > 0 ==> AnsweredRight(LogOf(limiter.logs, key), limits(key))
    modifies limiter
    ensures limiter.Valid() && Served(old(limiter.logs), limiter.logs, limits, calls, answers)
    ensures forall key, lag: nat :: limits(key) > 0 && Lagging(LogOf(limiter.logs, key), lag) ==>
              WithinLimit(LogOf(limiter.logs, key), limits(key), WINDOW - lag)
  {
    hide Recent, Served, Kept, Passed, CountIn, AnsweredRight, Lagging, Counting;
    ghost var before := limiter.logs;
    answers := [];
    ServedStart(before, limits);
    for index := 0 to |calls|
      invariant limiter.Valid() && |answers| == index
      invariant Served(before, limiter.logs, limits, calls[..index], answers)
    {
      var call := calls[index];
      ghost var logs := limiter.logs;
      StillCount(LogOf(logs, call.key), call.moment);
      var allowed := limiter.Allow(call.key, limits(call.key), call.moment);
      ServeStep(before, logs, limiter.logs, limits, calls[..index], answers, call, allowed);
      assert calls[..index + 1] == calls[..index] + [call];
      answers := answers + [allowed];
    }
    assert calls[..|calls|] == calls;
    ServedMeans(before, limiter.logs, limits, calls, answers);
  }

  lemma ServedStart(logs: map<string, seq<Entry>>, limits: string -> int)
    requires forall key :: limits(key) > 0 ==> AnsweredRight(LogOf(logs, key), limits(key))
    ensures Served(logs, logs, limits, [], [])
  {
  }

  lemma ServedMeans(before: map<string, seq<Entry>>, logs: map<string, seq<Entry>>, limits: string -> int,
                    calls: seq<Call>, answers: seq<bool>)
    requires Served(before, logs, limits, calls, answers)
    ensures forall key, lag: nat :: limits(key) > 0 && Lagging(LogOf(logs, key), lag) ==>
              WithinLimit(LogOf(logs, key), limits(key), WINDOW - lag)
  {
    hide Lagging, AnsweredRight, WithinLimit;
    forall key, lag: nat | limits(key) > 0 && Lagging(LogOf(logs, key), lag)
      ensures WithinLimit(LogOf(logs, key), limits(key), WINDOW - lag)
    {
      AllSpansFit(LogOf(logs, key), limits(key), lag);
    }
  }

  lemma AllSpansFit(log: seq<Entry>, limit: nat, lag: nat)
    requires AnsweredRight(log, limit) && Lagging(log, lag)
    ensures WithinLimit(log, limit, WINDOW - lag)
  {
    hide AnsweredRight, Lagging, CountIn, Passed;
    var span := WINDOW - lag;
    forall from
      ensures CountIn(Passed(log), from, span) <= limit
    {
      NoSpanIsOverfull(log, limit, lag, from);
    }
  }

  // No such span holds more than the limit.
  ghost predicate WithinLimit(log: seq<Entry>, limit: int, span: int) {
    forall from :: CountIn(Passed(log), from, span) <= limit
  }
}
