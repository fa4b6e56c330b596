/** Dual-window rate limiting per trust scope (scripts/fast_reply_service.py, `_RateLimiter`).

    Times are exact reals read from a clock that never goes back. The ghost history keeps every
    call ever allowed; the buckets are what the service keeps in memory. */
module RateLimiter {

  type Scope = string

  datatype Limits = Limits(perMin: nat, perHour: nat, cloudPerHour: nat)

  const MINUTE := 60.0
  const HOUR := 3600.0

  function LimitsFor(scope: Scope): (l: Limits)
    ensures l.perMin > 0 && l.perHour > 0
  {
    if scope == "rohit" then Limits(60, 600, 60)
    else if scope == "rohit.draft" then Limits(30, 300, 60)
    else if scope == "guest" then Limits(5, 30, 0)
    else if scope == "public" then Limits(5, 30, 0)
    else Limits(5, 30, 0)
  }

  // ----- decisions by counting the full history --------------------------------------------------

  predicate Ascending(times: seq<real>) {
    forall i, j :: 0 <= i <= j < |times| ==> times[i] <= times[j]
  }

  /** The calls of `times` at or after `cutoff`. */
  function Since(times: seq<real>, cutoff: real): (r: seq<real>)
    ensures |r| <= |times|
  {
    if times == [] then []
    else if times[0] >= cutoff then [times[0]] + Since(times[1..], cutoff)
    else Since(times[1..], cutoff)
  }

  datatype Decision =
    | Allowed
    | DeniedMinute(retryAfter: real)
    | DeniedHour(retryAfter: real)

  function AtLeastOne(x: real): real { if x > 1.0 then x else 1.0 }

  /** What a call at `now` must be answered, given every call its scope was ever allowed. */
  function Decide(history: seq<real>, limits: Limits, now: real): Decision
    requires limits.perMin > 0 && limits.perHour > 0
  {
    var minute, hour := Since(history, now - MINUTE), Since(history, now - HOUR);
    if |minute| >= limits.perMin then DeniedMinute(AtLeastOne(minute[0] + MINUTE - now))
    else if |hour| >= limits.perHour then DeniedHour(AtLeastOne(hour[0] + HOUR - now))
    else Allowed
  }

  /** The budgets of the scopes. */
  lemma BudgetsMean(scope: Scope)
    ensures scope == "rohit" ==> LimitsFor(scope) == Limits(60, 600, 60)
    ensures scope == "rohit.draft" ==> LimitsFor(scope) == Limits(30, 300, 60)
    ensures scope != "rohit" && scope != "rohit.draft" ==> LimitsFor(scope) == Limits(5, 30, 0)
  {
  }

  /** The decision over an ascending history whose calls from k on lie in the last minute and from m on in the
      last hour: too many of them deny, and the wait is until the oldest of them leaves, at least a second. */
  lemma DecideMeans(history: seq<real>, limits: Limits, now: real, k: nat, m: nat)
    requires limits.perMin > 0 && limits.perHour > 0 && Ascending(history) && k <= |history| && m <= |history|
    requires forall i :: 0 <= i < |history| ==> (i < k <==> history[i] < now - 60.0)
    requires forall i :: 0 <= i < |history| ==> (i < m <==> history[i] < now - 3600.0)
    ensures Decide(history, limits, now) ==
      if |history| - k >= limits.perMin
        then DeniedMinute(if history[k] + 60.0 - now > 1.0 then history[k] + 60.0 - now else 1.0)
      else if |history| - m >= limits.perHour
        then DeniedHour(if history[m] + 3600.0 - now > 1.0 then history[m] + 3600.0 - now else 1.0)
      else Allowed
  {
    SinceOfAscending(history, now - 60.0, k);
    SinceOfAscending(history, now - 3600.0, m);
  }

  lemma {:induction false} SinceOfAscending(times: seq<real>, cutoff: real, k: nat)
    requires Ascending(times) && k <= |times|
    requires forall i :: 0 <= i < k ==> times[i] < cutoff
    requires k < |times| ==> times[k] >= cutoff
    ensures Since(times, cutoff) == times[k..]
    decreases |times|
  {
    if times == [] {
    } else {
      if k > 0 {
        SinceOfAscending(times[1..], cutoff, k - 1);
        assert times[1..][k - 1..] == times[k..];
      } else {
        assert times[0] >= cutoff;
        if |times| > 1 {
          assert times[0] <= times[1];
        }
        SinceOfAscending(times[1..], cutoff, 0);
      }
    }
  }

  /** In an ascending list some split point separates the calls before the cutoff from the rest. */
  lemma SplitPoint(times: seq<real>, cutoff: real) returns (k: nat)
    requires Ascending(times)
    ensures k <= |times| && (forall i :: 0 <= i < k ==> times[i] < cutoff)
    ensures k < |times| ==> times[k] >= cutoff
    ensures Since(times, cutoff) == times[k..]
  {
    k := 0;
    while k < |times| && times[k] < cutoff
      invariant k <= |times| && forall i :: 0 <= i < k ==> times[i] < cutoff
    {
      k := k + 1;
    }
    SinceOfAscending(times, cutoff, k);
  }

  // ----- the limiter ------------------------------------------------------------------------------

  datatype Bucket = Bucket(minute: seq<real>, hour: seq<real>)

  method Prune(times: seq<real>, cutoff: real) returns (kept: seq<real>)
    requires Ascending(times)
    ensures kept == Since(times, cutoff)
  {
    var i := 0;
    while i < |times|
      invariant i <= |times| && forall j :: 0 <= j < i ==> times[j] < cutoff
    {
      if times[i] >= cutoff { break; }
      i := i + 1;
    }
    SinceOfAscending(times, cutoff, i);
    kept := times[i..];
  }

  /** Pruning at one cutoff and then at a later one is pruning at the later one. */
  lemma {:induction false} SinceTwice(times: seq<real>, early: real, late: real)
    requires early <= late
    ensures Since(Since(times, early), late) == Since(times, late)
  {
    if times == [] {
    } else {
      SinceTwice(times[1..], early, late);
      if times[0] >= early {
        assert ([times[0]] + Since(times[1..], early))[1..] == Since(times[1..], early);
      }
    }
  }

  lemma {:induction false} SinceOfAppended(times: seq<real>, now: real, cutoff: real)
    requires cutoff <= now
    ensures Since(times + [now], cutoff) == Since(times, cutoff) + [now]
  {
    if times == [] {
      assert [now][1..] == [];
    } else {
      assert (times + [now])[1..] == times[1..] + [now];
      SinceOfAppended(times[1..], now, cutoff);
    }
  }

  lemma SinceKeepsOrder(times: seq<real>, cutoff: real)
    requires Ascending(times)
    ensures Ascending(Since(times, cutoff))
  {
    var k := SplitPoint(times, cutoff);
  }

  lemma {:induction false} SinceComesFrom(times: seq<real>, cutoff: real)
    ensures forall i :: 0 <= i < |Since(times, cutoff)| ==> Since(times, cutoff)[i] in times
  {
    if times == [] {
    } else {
      SinceComesFrom(times[1..], cutoff);
    }
  }

  /** A scope's bucket against its full history: they agree from the current cutoffs on. */
  ghost predicate Faithful(b: Bucket, history: seq<real>, clock: real) {
    && Ascending(b.minute) && Ascending(b.hour)
    && Since(b.minute, clock - MINUTE) == Since(history, clock - MINUTE)
    && Since(b.hour, clock - HOUR) == Since(history, clock - HOUR)
    && forall i :: 0 <= i < |history| ==> history[i] <= clock
  }

  lemma FaithfulLater(b: Bucket, history: seq<real>, clock: real, now: real)
    requires Faithful(b, history, clock) && clock <= now
    ensures Faithful(b, history, now)
  {
    SinceTwice(b.minute, clock - MINUTE, now - MINUTE);
    SinceTwice(history, clock - MINUTE, now - MINUTE);
    SinceTwice(b.hour, clock - HOUR, now - HOUR);
    SinceTwice(history, clock - HOUR, now - HOUR);
  }

  lemma FaithfulPruned(b: Bucket, history: seq<real>, now: real)
    requires Faithful(b, history, now)
    ensures Faithful(Bucket(Since(b.minute, now - MINUTE), Since(b.hour, now - HOUR)), history, now)
  {
    SinceTwice(b.minute, now - MINUTE, now - MINUTE);
    SinceTwice(b.hour, now - HOUR, now - HOUR);
    SinceKeepsOrder(b.minute, now - MINUTE);
    SinceKeepsOrder(b.hour, now - HOUR);
  }

  /** Recording a call in a freshly pruned bucket. */
  lemma FaithfulRecorded(b: Bucket, history: seq<real>, now: real)
    requires Faithful(b, history, now)
    requires b == Bucket(Since(history, now - MINUTE), Since(history, now - HOUR))
    ensures Faithful(Bucket(b.minute + [now], b.hour + [now]), history + [now], now)
  {
    WindowRecorded(b.minute, history, now, now - MINUTE);
    WindowRecorded(b.hour, history, now, now - HOUR);
  }

  lemma WindowRecorded(kept: seq<real>, history: seq<real>, now: real, cutoff: real)
    requires Ascending(kept) && kept == Since(history, cutoff) == Since(kept, cutoff) && cutoff <= now
    requires forall i :: 0 <= i < |history| ==> history[i] <= now
    ensures Ascending(kept + [now])
    ensures Since(kept + [now], cutoff) == Since(history + [now], cutoff)
  {
    SinceComesFrom(history, cutoff);
    SinceOfAppended(kept, now, cutoff);
    SinceOfAppended(history, now, cutoff);
  }

  ghost function Of(history: map<Scope, seq<real>>, scope: Scope): seq<real> {
    if scope in history then history[scope] else []
  }

  ghost predicate AllFaithful(buckets: map<Scope, Bucket>, history: map<Scope, seq<real>>, clock: real) {
    && history.Keys <= buckets.Keys
    && forall s :: s in buckets ==> Faithful(buckets[s], Of(history, s), clock)
  }

  /** What one pass over a scope's bucket leaves behind. */
  lemma Refreshed(buckets: map<Scope, Bucket>, history: map<Scope, seq<real>>, clock: real, scope: Scope, now: real)
    requires AllFaithful(buckets, history, clock) && clock <= now
    ensures
      var b := if scope in buckets then buckets[scope] else Bucket([], []);
      var times := Of(history, scope);
      && Ascending(b.minute) && Ascending(b.hour)
      && Since(b.minute, now - MINUTE) == Since(times, now - MINUTE)
      && Since(b.hour, now - HOUR) == Since(times, now - HOUR)
      && AllFaithful(buckets[scope := Bucket(Since(times, now - MINUTE), Since(times, now - HOUR))], history, now)
  {
    var b := if scope in buckets then buckets[scope] else Bucket([], []);
    var times := Of(history, scope);
    assert Faithful(b, times, clock);
    FaithfulLater(b, times, clock, now);
    FaithfulPruned(b, times, now);
    var after := buckets[scope := Bucket(Since(times, now - MINUTE), Since(times, now - HOUR))];
    forall s | s in after ensures Faithful(after[s], Of(history, s), now) {
      if s != scope {
        FaithfulLater(buckets[s], Of(history, s), clock, now);
      }
    }
  }

  lemma Recorded(buckets: map<Scope, Bucket>, history: map<Scope, seq<real>>, scope: Scope, now: real)
    requires AllFaithful(buckets, history, now) && scope in buckets
    requires buckets[scope] == Bucket(Since(Of(history, scope), now - MINUTE), Since(Of(history, scope), now - HOUR))
    ensures
      var b, times := buckets[scope], Of(history, scope);
      AllFaithful(buckets[scope := Bucket(b.minute + [now], b.hour + [now])], history[scope := times + [now]], now)
  {
    FaithfulRecorded(buckets[scope], Of(history, scope), now);
  }

  class Limiter {
    var buckets: map<Scope, Bucket>
    ghost var history: map<Scope, seq<real>>
    ghost var clock: real

    ghost function HistoryOf(scope: Scope): seq<real>
      reads this
    {
      Of(history, scope)
    }

    ghost predicate Valid()
      reads this
    {
      AllFaithful(buckets, history, clock)
    }

    constructor (ghost start: real)
      ensures Valid() && clock == start && forall s :: HistoryOf(s) == []
    {
      buckets, history, clock := map[], map[], start;
    }

    /** Fetch (or create) the scope's bucket and prune both windows in it. */
    method RefreshBucket(scope: Scope, now: real) returns (b: Bucket)
      requires Valid() && now >= clock
      modifies this
      ensures Valid() && clock == now && history == old(history)
      ensures scope in buckets && buckets[scope] == b
      ensures b == Bucket(Since(HistoryOf(scope), now - MINUTE), Since(HistoryOf(scope), now - HOUR))
    {
      b := if scope in buckets then buckets[scope] else Bucket([], []);
      Refreshed(buckets, history, clock, scope, now);
      var minute := Prune(b.minute, now - MINUTE);
      var hour := Prune(b.hour, now - HOUR);
      b := Bucket(minute, hour);
      buckets := buckets[scope := b];
      clock := now;
    }

    /** Every decision is the one the full history calls for, and a denied call leaves no trace. */
    method CheckAndRecord(scope: Scope, now: real) returns (d: Decision)
      requires Valid() && now >= clock
      modifies this
      ensures Valid() && clock == now
      ensures d == Decide(old(HistoryOf(scope)), LimitsFor(scope), now)
      ensures history == if d.Allowed? then old(history)[scope := old(HistoryOf(scope)) + [now]] else old(history)
    {
      var limits := LimitsFor(scope);
      var b := RefreshBucket(scope, now);
      if |b.minute| >= limits.perMin {
        return DeniedMinute(AtLeastOne(b.minute[0] + MINUTE - now));
      }
      if |b.hour| >= limits.perHour {
        return DeniedHour(AtLeastOne(b.hour[0] + HOUR - now));
      }
      Record(scope, now);
      d := Allowed;
    }

    method Record(scope: Scope, now: real)
      requires Valid() && clock == now && scope in buckets
      requires buckets[scope] == Bucket(Since(HistoryOf(scope), now - MINUTE), Since(HistoryOf(scope), now - HOUR))
      modifies this`buckets, this`history
      ensures Valid()
      ensures history == old(history)[scope := old(HistoryOf(scope)) + [now]]
    {
      var b := buckets[scope];
      Recorded(buckets, history, scope, now);
      history := history[scope := HistoryOf(scope) + [now]];
      buckets := buckets[scope := Bucket(b.minute + [now], b.hour + [now])];
    }

    /** The budget report: how much of each window the full history has used up. */
    method Status(scope: Scope, now: real) returns (usedPerMin: nat, usedPerHour: nat)
      requires Valid() && now >= clock
      modifies this
      ensures Valid() && clock == now && history == old(history)
      ensures usedPerMin == |Since(HistoryOf(scope), now - MINUTE)|
      ensures usedPerHour == |Since(HistoryOf(scope), now - HOUR)|
    {
      var b := RefreshBucket(scope, now);
      usedPerMin, usedPerHour := |b.minute|, |b.hour|;
    }
  }

  // ----- whole runs ---------------------------------------------------------------------------------

  datatype Call = Call(scope: Scope, now: real)

  predicate ClockNeverGoesBack(calls: seq<Call>) {
    forall i, j :: 0 <= i <= j < |calls| ==> calls[i].now <= calls[j].now
  }

  /** The calls a scope has been allowed after a run, by the decisions CheckAndRecord makes. */
  function AllowedBy(calls: seq<Call>, scope: Scope): seq<real> {
    if calls == [] then []
    else
      var before := AllowedBy(calls[..|calls| - 1], scope);
      var last := calls[|calls| - 1];
      if last.scope == scope && Decide(before, LimitsFor(scope), last.now).Allowed?
        then before + [last.now]
        else before
  }

  /** The limiter's history after a run of calls holds, scope by scope, what the run allowed. */
  ghost predicate Follows(history: map<Scope, seq<real>>, calls: seq<Call>) {
    forall s :: Of(history, s) == AllowedBy(calls, s)
  }

  /** What CheckAndRecord promises about the history carries a run on by one call. */
  lemma CheckingFollowsTheRun(history: map<Scope, seq<real>>, calls: seq<Call>, scope: Scope, now: real,
                              after: map<Scope, seq<real>>)
    requires Follows(history, calls)
    requires after == (if Decide(Of(history, scope), LimitsFor(scope), now).Allowed?
                       then history[scope := Of(history, scope) + [now]] else history)
    ensures Follows(after, calls + [Call(scope, now)])
  {
    forall s ensures Of(after, s) == AllowedBy(calls + [Call(scope, now)], s) {
      assert Of(history, s) == AllowedBy(calls, s);
      assert (calls + [Call(scope, now)])[..|calls|] == calls;
    }
  }

  /** The history after a whole run of calls, as CheckAndRecord promises it call by call. */
  ghost function HistoryAfter(calls: seq<Call>): map<Scope, seq<real>> {
    if calls == [] then map[]
    else
      var before, last := HistoryAfter(calls[..|calls| - 1]), calls[|calls| - 1];
      if Decide(Of(before, last.scope), LimitsFor(last.scope), last.now).Allowed?
        then before[last.scope := Of(before, last.scope) + [last.now]] else before
  }

  /** Over every run, the limiter's history holds for every scope exactly the calls the run allowed. */
  lemma {:induction false} HistoryFollowsTheRun(calls: seq<Call>)
    ensures Follows(HistoryAfter(calls), calls)
  {
    if calls == [] {
    } else {
      var before, last := calls[..|calls| - 1], calls[|calls| - 1];
      HistoryFollowsTheRun(before);
      CheckingFollowsTheRun(HistoryAfter(before), before, last.scope, last.now, HistoryAfter(calls));
      assert before + [Call(last.scope, last.now)] == calls;
    }
  }

  /** Any n+1 consecutive allowed calls span more than `width`. */
  ghost predicate Spaced(times: seq<real>, n: nat, width: real) {
    forall i, j :: 0 <= i && j == i + n && j < |times| ==> times[j] - times[i] > width
  }

  lemma SpacedStep(times: seq<real>, n: nat, width: real, now: real)
    requires Ascending(times) && n > 0 && Spaced(times, n, width)
    requires forall i :: 0 <= i < |times| ==> times[i] <= now
    requires |Since(times, now - width)| < n
    ensures Ascending(times + [now]) && Spaced(times + [now], n, width)
  {
    var k := SplitPoint(times, now - width);
    assert |times| - k < n;
  }

  lemma AllowedStep(before: seq<real>, limits: Limits, now: real)
    requires limits.perMin > 0 && limits.perHour > 0 && Decide(before, limits, now).Allowed?
    requires Ascending(before) && forall i :: 0 <= i < |before| ==> before[i] <= now
    requires Spaced(before, limits.perMin, MINUTE) && Spaced(before, limits.perHour, HOUR)
    ensures Ascending(before + [now])
    ensures Spaced(before + [now], limits.perMin, MINUTE) && Spaced(before + [now], limits.perHour, HOUR)
  {
    SpacedStep(before, limits.perMin, MINUTE, now);
    SpacedStep(before, limits.perHour, HOUR, now);
  }

  lemma {:induction false} RunsStaySpaced(calls: seq<Call>, scope: Scope)
    requires ClockNeverGoesBack(calls)
    ensures Ascending(AllowedBy(calls, scope))
    ensures Spaced(AllowedBy(calls, scope), LimitsFor(scope).perMin, MINUTE)
    ensures Spaced(AllowedBy(calls, scope), LimitsFor(scope).perHour, HOUR)
    ensures calls != [] ==> forall i :: 0 <= i < |AllowedBy(calls, scope)| ==>
      AllowedBy(calls, scope)[i] <= calls[|calls| - 1].now
    ensures calls == [] ==> AllowedBy(calls, scope) == []
  {
    if calls == [] {
    } else {
      var init, last := calls[..|calls| - 1], calls[|calls| - 1];
      RunsStaySpaced(init, scope);
      var before, limits := AllowedBy(init, scope), LimitsFor(scope);
      forall i | 0 <= i < |before| ensures before[i] <= last.now {
        assert init[|init| - 1].now <= last.now;
      }
      if last.scope == scope && Decide(before, limits, last.now).Allowed? {
        AllowedStep(before, limits, last.now);
      }
    }
  }

  /** Positions of the calls inside the closed window from `lo` to `hi`. */
  function InWindow(times: seq<real>, lo: real, hi: real): set<nat> {
    set i: nat | i < |times| && lo <= times[i] <= hi
  }

  lemma SpacedAt(times: seq<real>, n: nat, width: real, k: nat)
    requires Spaced(times, n, width) && k + n < |times|
    ensures times[k + n] - times[k] > width
  {
  }

  lemma SpacedBoundsWindows(times: seq<real>, n: nat, width: real, lo: real)
    requires Ascending(times) && n > 0 && Spaced(times, n, width)
    ensures |InWindow(times, lo, lo + width)| <= n
  {
    var k := SplitPoint(times, lo);
    if k + n < |times| {
      SpacedAt(times, n, width, k);
    }
    forall i: nat | i < |times| && lo <= times[i] <= lo + width
      ensures k <= i < k + n
    {
      if k + n <= i {
        assert false;
      }
    }
    Interval(InWindow(times, lo, lo + width), k, n);
  }

  lemma {:induction false} Interval(s: set<nat>, k: nat, n: nat)
    requires forall i :: i in s ==> k <= i < k + n
    ensures |s| <= n
  {
    if n == 0 {
      assert s == {};
    } else {
      Interval(s - {k + n - 1}, k, n - 1);
    }
  }

  /** However calls of all scopes interleave, no closed minute and no closed hour ever holds more
      allowed calls of one scope than its budget. */
  lemma BudgetsHoldInEveryWindow(calls: seq<Call>, scope: Scope, lo: real)
    requires ClockNeverGoesBack(calls)
    ensures |InWindow(AllowedBy(calls, scope), lo, lo + MINUTE)| <= LimitsFor(scope).perMin
    ensures |InWindow(AllowedBy(calls, scope), lo, lo + HOUR)| <= LimitsFor(scope).perHour
  {
    RunsStaySpaced(calls, scope);
    SpacedBoundsWindows(AllowedBy(calls, scope), LimitsFor(scope).perMin, MINUTE, lo);
    SpacedBoundsWindows(AllowedBy(calls, scope), LimitsFor(scope).perHour, HOUR, lo);
  }

  function OnlyScope(calls: seq<Call>, scope: Scope): seq<Call> {
    if calls == [] then []
    else if calls[|calls| - 1].scope == scope
      then OnlyScope(calls[..|calls| - 1], scope) + [calls[|calls| - 1]]
    else OnlyScope(calls[..|calls| - 1], scope)
  }

  /** Scopes do not share budgets: deleting every other scope's calls from a run changes nothing. */
  lemma {:induction false} OtherScopesDoNotMatter(calls: seq<Call>, scope: Scope)
    ensures AllowedBy(OnlyScope(calls, scope), scope) == AllowedBy(calls, scope)
  {
    if calls == [] {
    } else {
      var init, last := calls[..|calls| - 1], calls[|calls| - 1];
      OtherScopesDoNotMatter(init, scope);
      if last.scope == scope {
        assert OnlyScope(calls, scope)[..|OnlyScope(calls, scope)| - 1] == OnlyScope(init, scope);
      }
    }
  }

  // ----- Retry-After ----------------------------------------------------------------------------------

  /** The header value: the fractional wait truncated, plus one second. */
  function WireSeconds(retryAfter: real): int {
    retryAfter.Floor + 1
  }

  /** The header is the least whole number of seconds above the wait. */
  lemma WireMeans(retryAfter: real)
    ensures retryAfter < WireSeconds(retryAfter) as real <= retryAfter + 1.0
  {
  }

  /** If the wait on the wire is honoured and nothing else was allowed meanwhile, the window that
      denied has room again. After an hour denial the call then succeeds; after a minute denial only
      a full hour window can still refuse it. */
  lemma WaitingFreesTheWindow(calls: seq<Call>, scope: Scope, now: real, later: real)
    requires ClockNeverGoesBack(calls) && (calls != [] ==> calls[|calls| - 1].now <= now)
    requires !Decide(AllowedBy(calls, scope), LimitsFor(scope), now).Allowed?
    requires later >= now + WireSeconds(Decide(AllowedBy(calls, scope), LimitsFor(scope), now).retryAfter) as real
    ensures var denied, retried := Decide(AllowedBy(calls, scope), LimitsFor(scope), now),
                                   Decide(AllowedBy(calls, scope), LimitsFor(scope), later);
      && (denied.DeniedHour? ==> retried.Allowed?)
      && (denied.DeniedMinute? ==> !retried.DeniedMinute?)
      && (denied.DeniedMinute? ==>
           (retried.DeniedHour? <==> |Since(AllowedBy(calls, scope), later - HOUR)| >= LimitsFor(scope).perHour))
  {
    var h, limits := AllowedBy(calls, scope), LimitsFor(scope);
    RunsStaySpaced(calls, scope);
    match Decide(h, limits, now)
    case DeniedMinute(retry) =>
      OldestExpires(h, limits.perMin, MINUTE, now, later);
    case DeniedHour(retry) =>
      OldestExpires(h, limits.perHour, HOUR, now, later);
      LaterSeesLess(h, now - MINUTE, later - MINUTE);
  }

  lemma OldestExpires(h: seq<real>, n: nat, width: real, now: real, later: real)
    requires Ascending(h) && n > 0 && Spaced(h, n, width)
    requires forall i :: 0 <= i < |h| ==> h[i] <= now
    requires |Since(h, now - width)| >= n
    requires later > Since(h, now - width)[0] + width && later >= now
    ensures |Since(h, later - width)| < n
  {
    var k := SplitPoint(h, now - width);
    var l := SplitPoint(h, later - width);
    assert h[k] < later - width;
    assert l > k;
    if k + n < |h| {
      SpacedAt(h, n, width, k);
      assert false;
    }
  }

  lemma LaterSeesLess(h: seq<real>, cutoff: real, later: real)
    requires Ascending(h) && cutoff <= later
    ensures |Since(h, later)| <= |Since(h, cutoff)|
  {
    var k := SplitPoint(h, cutoff);
    var l := SplitPoint(h, later);
  }
}
