/** Deciding whether a log line alerts: the first matching rule counts its matches in
    that file over a sliding window kept as a queue of timestamps. */
module Whitelist {
  import opened Wrappers

  type Path = string
  type Instant = nat // nanoseconds

  const WINDOW_SECONDS: nat := 300
  const NANOS: nat := 1_000_000_000
  const U32: nat := 0x1_0000_0000

  datatype Priority = P0 | P1 | P2

  datatype CheckResult = AlwaysAlert | Skip | Alert(count: nat, priority: Priority)

  /** The regular expression is represented by the lines it matches. */
  datatype Rule = Rule(matches: string -> bool, threshold: int, priority: Priority)

  /** The queue of each (rule, file). */
  type Queues = map<(nat, Path), seq<Instant>>

  datatype LogEvent = LogEvent(line: string, source: Path, now: Instant)

  function Queue(qs: Queues, k: nat, source: Path): seq<Instant> {
    if (k, source) in qs then qs[(k, source)] else []
  }

  /** Whole seconds since `t`; an instant in the future has age zero. */
  function Age(now: Instant, t: Instant): nat {
    if now > t then (now - t) / NANOS else 0
  }

  predicate Fresh(now: Instant, t: Instant) {
    Age(now, t) <= WINDOW_SECONDS
  }

  function FirstMatch(rules: seq<Rule>, line: string): nat
    ensures FirstMatch(rules, line) <= |rules|
    ensures FirstMatch(rules, line) < |rules| ==> rules[FirstMatch(rules, line)].matches(line)
    ensures forall i :: 0 <= i < FirstMatch(rules, line) ==> !rules[i].matches(line)
  {
    if rules == [] then 0
    else if rules[0].matches(line) then 0
    else 1 + FirstMatch(rules[1..], line)
  }

  function Verdict(r: Rule, count: nat): CheckResult {
    if count % U32 > r.threshold % U32 then Alert(count % U32, r.priority) else Skip
  }

  // ---------------------------------------------------------------- reference

  /** The rule an event is counted under, if any. */
  function CountedUnder(rules: seq<Rule>, e: LogEvent): Option<nat> {
    var k := FirstMatch(rules, e.line);
    if k == |rules| || rules[k].threshold == -1 then None else Some(k)
  }

  /** Every past match of a rule in a file. */
  function Matches(rules: seq<Rule>, history: seq<LogEvent>, k: nat, source: Path): seq<Instant> {
    if history == [] then []
    else
      var e := history[|history| - 1];
      Matches(rules, history[..|history| - 1], k, source) +
      (if CountedUnder(rules, e) == Some(k) && e.source == source then [e.now] else [])
  }

  function Recent(ts: seq<Instant>, now: Instant): seq<Instant> {
    if ts == [] then []
    else
      var n := |ts| - 1;
      Recent(ts[..n], now) + (if Fresh(now, ts[n]) then [ts[n]] else [])
  }

  /** The decision read off the whole history. */
  function Decide(rules: seq<Rule>, history: seq<LogEvent>, e: LogEvent): CheckResult {
    var k := FirstMatch(rules, e.line);
    if k == |rules| then AlwaysAlert
    else if rules[k].threshold == -1 then Skip
    else Verdict(rules[k], |Recent(Matches(rules, history, k, e.source), e.now)| + 1)
  }

  // ---------------------------------------------------------------- the queue

  function PopExpired(q: seq<Instant>, now: Instant): seq<Instant> {
    if q != [] && !Fresh(now, q[0]) then PopExpired(q[1..], now) else q
  }

  function CheckLine(rules: seq<Rule>, qs: Queues, e: LogEvent): (Queues, CheckResult) {
    var k := FirstMatch(rules, e.line);
    if k == |rules| then (qs, AlwaysAlert)
    else if rules[k].threshold == -1 then (qs, Skip)
    else
      var q := PopExpired(Queue(qs, k, e.source), e.now) + [e.now];
      (qs[(k, e.source) := q], Verdict(rules[k], |q|))
  }

  class Whitelist {
    const rules: seq<Rule>
    var timestamps: Queues

    constructor (rules: seq<Rule>)
      ensures this.rules == rules && timestamps == map[]
    {
      this.rules := rules;
      timestamps := map[];
    }

    method Check(line: string, source: Path, now: Instant) returns (r: CheckResult)
      modifies this
      ensures (timestamps, r) == CheckLine(rules, old(timestamps), LogEvent(line, source, now))
    {
      for i := 0 to |rules|
        invariant timestamps == old(timestamps)
        invariant forall j :: 0 <= j < i ==> !rules[j].matches(line)
      {
        if rules[i].matches(line) {
          assert FirstMatch(rules, line) == i;
          if rules[i].threshold == -1 {
            return Skip;
          }
          var ts: seq<Instant> := if (i, source) in timestamps then timestamps[(i, source)] else [];
          while ts != [] && Age(now, ts[0]) > WINDOW_SECONDS
            invariant PopExpired(ts, now) == PopExpired(Queue(old(timestamps), i, source), now)
          {
            ts := ts[1..];
          }
          ts := ts + [now];
          timestamps := timestamps[(i, source) := ts];
          var count := |ts| % U32;
          if count > rules[i].threshold % U32 {
            return Alert(count, rules[i].priority);
          } else {
            return Skip;
          }
        }
      }
      return AlwaysAlert;
    }
  }

  // ---------------------------------------------------------------- refinement

  function QueuesAfter(rules: seq<Rule>, history: seq<LogEvent>): Queues {
    if history == [] then map[]
    else CheckLine(rules, QueuesAfter(rules, history[..|history| - 1]), history[|history| - 1]).0
  }

  /** The clock never goes back, over the history and up to `now`. */
  ghost predicate Monotone(history: seq<LogEvent>, now: Instant) {
    && (forall i, j :: 0 <= i <= j < |history| ==> history[i].now <= history[j].now)
    && (history != [] ==> history[|history| - 1].now <= now)
  }

  ghost predicate Sorted(q: seq<Instant>) {
    forall i, j :: 0 <= i <= j < |q| ==> q[i] <= q[j]
  }

  lemma FreshFromNewer(now: Instant, t: Instant, t': Instant)
    requires t <= t' && Fresh(now, t)
    ensures Fresh(now, t')
  {
  }

  lemma ExpiredStaysExpired(now: Instant, now': Instant, t: Instant)
    requires now <= now' && !Fresh(now, t)
    ensures !Fresh(now', t)
  {
  }

  lemma {:induction false} RecentOfFresh(ts: seq<Instant>, now: Instant)
    requires forall i :: 0 <= i < |ts| ==> Fresh(now, ts[i])
    ensures Recent(ts, now) == ts
  {
    if ts != [] { RecentOfFresh(ts[..|ts| - 1], now); }
  }

  lemma {:induction false} RecentSplit(xs: seq<Instant>, ys: seq<Instant>, now: Instant)
    ensures Recent(xs + ys, now) == Recent(xs, now) + Recent(ys, now)
  {
    if ys == [] {
      assert xs + ys == xs;
    } else {
      var n := |ys| - 1;
      assert (xs + ys)[..|xs| + n] == xs + ys[..n];
      RecentSplit(xs, ys[..n], now);
    }
  }

  /** Popping from the front of a sorted queue is filtering it. */
  lemma {:induction false} PopIsFilter(q: seq<Instant>, now: Instant)
    requires Sorted(q)
    ensures PopExpired(q, now) == Recent(q, now)
  {
    if q != [] {
      if Fresh(now, q[0]) {
        forall i | 0 <= i < |q|
          ensures Fresh(now, q[i])
        {
          FreshFromNewer(now, q[0], q[i]);
        }
        RecentOfFresh(q, now);
      } else {
        PopIsFilter(q[1..], now);
        RecentSplit([q[0]], q[1..], now);
        assert q == [q[0]] + q[1..];
        assert Recent([q[0]], now) == [];
      }
    }
  }

  /** Filtering at an earlier time first changes nothing. */
  lemma {:induction false} RecentOfRecent(ts: seq<Instant>, now: Instant, now': Instant)
    requires now <= now'
    ensures Recent(Recent(ts, now), now') == Recent(ts, now')
  {
    if ts != [] {
      var n := |ts| - 1;
      RecentOfRecent(ts[..n], now, now');
      if Fresh(now, ts[n]) {
        RecentSplit(Recent(ts[..n], now), [ts[n]], now');
        assert Recent([ts[n]], now') == if Fresh(now', ts[n]) then [ts[n]] else [];
      } else {
        ExpiredStaysExpired(now, now', ts[n]);
        assert Recent(ts, now) == Recent(ts[..n], now) && Recent(ts, now') == Recent(ts[..n], now');
      }
    }
  }

  lemma {:induction false} RecentIsOlder(ts: seq<Instant>, now: Instant, bound: Instant)
    requires Sorted(ts) && UpTo(ts, bound)
    ensures Sorted(Recent(ts, now)) && UpTo(Recent(ts, now), bound)
  {
    if ts != [] {
      var n := |ts| - 1;
      RecentIsOlder(ts[..n], now, ts[n]);
      RecentIsOlder(ts[..n], now, bound);
    }
  }

  function Pushed(q: seq<Instant>, at: Instant): seq<Instant> {
    PopExpired(q, at) + [at]
  }

  predicate UpTo(q: seq<Instant>, bound: Instant) {
    forall i :: 0 <= i < |q| ==> q[i] <= bound
  }

  lemma PushSorted(q: seq<Instant>, at: Instant)
    requires Sorted(q) && UpTo(q, at)
    ensures Sorted(Pushed(q, at)) && UpTo(Pushed(q, at), at)
  {
    PopIsFilter(q, at);
    RecentIsOlder(q, at, at);
    AppendSorted(PopExpired(q, at), at);
  }

  lemma AppendSorted(q: seq<Instant>, at: Instant)
    requires Sorted(q) && UpTo(q, at)
    ensures Sorted(q + [at]) && UpTo(q + [at], at)
  {
  }

  /** Popping and pushing keeps a queue in step with the list of all matches. */
  lemma PushInStep(q: seq<Instant>, all: seq<Instant>, at: Instant, now: Instant)
    requires Sorted(q) && at <= now && Recent(q, now) == Recent(all, now)
    ensures Recent(Pushed(q, at), now) == Recent(all + [at], now)
  {
    calc {
      Recent(Pushed(q, at), now);
      { PopIsFilter(q, at); }
      Recent(Recent(q, at) + [at], now);
      { RecentSplit(Recent(q, at), [at], now); }
      Recent(Recent(q, at), now) + Recent([at], now);
      { RecentOfRecent(q, at, now); }
      Recent(all, now) + Recent([at], now);
      { RecentSplit(all, [at], now); }
      Recent(all + [at], now);
    }
  }

  lemma QueueAfterCheck(rules: seq<Rule>, qs: Queues, e: LogEvent, k: nat, source: Path)
    ensures Queue(CheckLine(rules, qs, e).0, k, source) ==
      if CountedUnder(rules, e) == Some(k) && e.source == source then Pushed(Queue(qs, k, source), e.now)
      else Queue(qs, k, source)
  {
  }

  /** Each queue is sorted and, from now on, shows the same recent matches as the
      whole history: what was popped had expired for good. */
  lemma {:induction false} QueueShowsHistory(
    rules: seq<Rule>, history: seq<LogEvent>, k: nat, source: Path, now: Instant)
    requires Monotone(history, now)
    ensures var q := Queue(QueuesAfter(rules, history), k, source);
      Sorted(q) && UpTo(q, now) && Recent(q, now) == Recent(Matches(rules, history, k, source), now)
  {
    if history != [] {
      var n := |history| - 1;
      var pre, e := history[..n], history[n];
      QueueShowsHistory(rules, pre, k, source, e.now);
      QueueShowsHistory(rules, pre, k, source, now);
      QueueAfterCheck(rules, QueuesAfter(rules, pre), e, k, source);
      var q, all := Queue(QueuesAfter(rules, pre), k, source), Matches(rules, pre, k, source);
      if CountedUnder(rules, e) == Some(k) && e.source == source {
        PushSorted(q, e.now);
        PushInStep(q, all, e.now, now);
      } else {
        assert all + [] == all;
      }
    }
  }

  /** Every decision is the one the full history dictates. */
  lemma DecisionFromHistory(rules: seq<Rule>, history: seq<LogEvent>, e: LogEvent)
    requires Monotone(history, e.now)
    ensures CheckLine(rules, QueuesAfter(rules, history), e).1 == Decide(rules, history, e)
  {
    var k := FirstMatch(rules, e.line);
    QueueShowsHistory(rules, history, k, e.source, e.now);
    PopIsFilter(Queue(QueuesAfter(rules, history), k, e.source), e.now);
  }

  function OnlyFrom(history: seq<LogEvent>, source: Path): seq<LogEvent> {
    if history == [] then []
    else
      var e := history[|history| - 1];
      OnlyFrom(history[..|history| - 1], source) + (if e.source == source then [e] else [])
  }

  lemma {:induction false} MatchesOnlyFrom(rules: seq<Rule>, history: seq<LogEvent>, k: nat, source: Path)
    ensures Matches(rules, OnlyFrom(history, source), k, source) == Matches(rules, history, k, source)
  {
    if history != [] {
      var n := |history| - 1;
      MatchesOnlyFrom(rules, history[..n], k, source);
      var pre := OnlyFrom(history[..n], source);
      if history[n].source == source {
        assert (pre + [history[n]])[..|pre|] == pre;
      } else {
        assert OnlyFrom(history, source) == pre;
        assert Matches(rules, history, k, source) == Matches(rules, history[..n], k, source);
      }
    }
  }

  lemma {:induction false} QueueOnlyFrom(rules: seq<Rule>, history: seq<LogEvent>, k: nat, source: Path)
    ensures Queue(QueuesAfter(rules, OnlyFrom(history, source)), k, source)
         == Queue(QueuesAfter(rules, history), k, source)
  {
    if history != [] {
      var n := |history| - 1;
      var pre, e := OnlyFrom(history[..n], source), history[n];
      QueueOnlyFrom(rules, history[..n], k, source);
      QueueAfterCheck(rules, QueuesAfter(rules, history[..n]), e, k, source);
      if e.source == source {
        assert (pre + [e])[..|pre|] == pre;
        QueueAfterCheck(rules, QueuesAfter(rules, pre), e, k, source);
      } else {
        assert OnlyFrom(history, source) == pre;
      }
    }
  }

  /** Other files never influence a decision: without their events, and whatever the
      clock does, the code decides the same. With a monotone clock that is also the
      decision computed from the events of the file alone. */
  lemma OtherFilesIrrelevant(rules: seq<Rule>, history: seq<LogEvent>, e: LogEvent)
    ensures CheckLine(rules, QueuesAfter(rules, history), e).1
         == CheckLine(rules, QueuesAfter(rules, OnlyFrom(history, e.source)), e).1
    ensures Monotone(history, e.now) ==>
              CheckLine(rules, QueuesAfter(rules, history), e).1 == Decide(rules, OnlyFrom(history, e.source), e)
  {
    QueueOnlyFrom(rules, history, FirstMatch(rules, e.line), e.source);
    if Monotone(history, e.now) {
      DecisionFromHistory(rules, history, e);
      MatchesOnlyFrom(rules, history, FirstMatch(rules, e.line), e.source);
    }
  }

  // ---------------------------------------------------------------- when a line alerts

  /** Rule `k` is the first that matches the line. */
  predicate FirstMatches(rules: seq<Rule>, line: string, k: nat) {
    k < |rules| && rules[k].matches(line) && forall j :: 0 <= j < k ==> !rules[j].matches(line)
  }

  /** The event counts: same file, same first rule, less than 301 seconds ago. */
  predicate Counts(rules: seq<Rule>, past: LogEvent, k: nat, e: LogEvent) {
    past.source == e.source && FirstMatches(rules, past.line, k) && e.now - past.now < 301_000_000_000
  }

  function Counted(rules: seq<Rule>, history: seq<LogEvent>, k: nat, e: LogEvent): set<nat> {
    set i: nat | i < |history| && Counts(rules, history[i], k, e)
  }

  lemma {:induction false} CountedAreRecent(rules: seq<Rule>, history: seq<LogEvent>, k: nat, e: LogEvent)
    requires k < |rules| && rules[k].threshold != -1
    ensures |Recent(Matches(rules, history, k, e.source), e.now)| == |Counted(rules, history, k, e)|
  {
    if history != [] {
      var n := |history| - 1;
      var pre, past := history[..n], history[n];
      CountedAreRecent(rules, pre, k, e);
      CountedOneMore(rules, history, k, e);
      assert CountedUnder(rules, past) == Some(k) <==> FirstMatches(rules, past.line, k);
      var ms := Matches(rules, pre, k, e.source);
      if CountedUnder(rules, past) == Some(k) && past.source == e.source {
        RecentSplit(ms, [past.now], e.now);
        assert Recent([past.now], e.now) == if Fresh(e.now, past.now) then [past.now] else [];
      } else {
        assert ms + [] == ms;
      }
    }
  }

  lemma CountedOneMore(rules: seq<Rule>, history: seq<LogEvent>, k: nat, e: LogEvent)
    requires history != []
    ensures var n := |history| - 1;
      |Counted(rules, history, k, e)|
        == |Counted(rules, history[..n], k, e)| + if Counts(rules, history[n], k, e) then 1 else 0
  {
    var n: nat := |history| - 1;
    var before := Counted(rules, history[..n], k, e);
    assert Counted(rules, history, k, e) == before + if Counts(rules, history[n], k, e) then {n} else {};
    assert n !in before;
  }

  lemma FirstMatchIs(rules: seq<Rule>, line: string, k: nat)
    requires FirstMatches(rules, line, k)
    ensures FirstMatch(rules, line) == k
  {
  }

  /** A line that no rule matches always alerts, and no other line does so. */
  lemma AlwaysAlertsIff(rules: seq<Rule>, qs: Queues, e: LogEvent)
    ensures CheckLine(rules, qs, e).1 == AlwaysAlert <==> forall k :: 0 <= k < |rules| ==> !rules[k].matches(e.line)
  {
    var k := FirstMatch(rules, e.line);
    if k < |rules| { assert rules[k].matches(e.line); }
  }

  /** A matched line in the events and times of the history: a rule with threshold -1
      never alerts, any other exactly when this line and the counted past ones exceed
      its threshold, both as 32-bit numbers. */
  lemma AlertsIff(rules: seq<Rule>, history: seq<LogEvent>, e: LogEvent, k: nat)
    requires Monotone(history, e.now) && FirstMatches(rules, e.line, k)
    ensures CheckLine(rules, QueuesAfter(rules, history), e).1 ==
      var count := (|Counted(rules, history, k, e)| + 1) % 0x1_0000_0000;
      if rules[k].threshold != -1 && count > rules[k].threshold % 0x1_0000_0000
      then Alert(count, rules[k].priority) else Skip
  {
    FirstMatchIs(rules, e.line, k);
    DecisionFromHistory(rules, history, e);
    if rules[k].threshold != -1 { CountedAreRecent(rules, history, k, e); }
  }
}
