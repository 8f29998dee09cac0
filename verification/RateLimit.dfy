/** The per-org token-bucket limiter: one bucket per org scope, made on first use. */
module RateLimit {
  import opened Basics

  /** A token bucket as of its last admitted call; its clock counts in tokens, that is, rps times the time. */
  datatype Bucket = Bucket(tokens: real, last: real)

  datatype Limits = Limits(rps: real, burst: int)
  {
    /** A non-positive burst defaults to the rate, truncated, but at least one. */
    function Cap(): int {
      if burst > 0 then burst else if rps.Floor < 1 then 1 else rps.Floor
    }

    /** The bucket clock at a time. */
    function Clock(at: real): real {
      rps * at
    }

    /** Tokens available at a clock reading: what was left plus what dripped in, up to the cap. */
    function Level(b: Bucket, clock: real): real {
      var filled := if clock < b.last then b.tokens else b.tokens + (clock - b.last);
      if filled > Cap() as real then Cap() as real else filled
    }

    function Full(clock: real): Bucket {
      Bucket(Cap() as real, clock)
    }

    /** The bucket contract of the rate library: one token per admitted call, none for a rejected one. */
    function Allow(b: Bucket, clock: real): (Bucket, bool) {
      if Level(b, clock) >= 1.0 then (Bucket(Level(b, clock) - 1.0, clock), true) else (b, false)
    }
  }

  datatype Arrival = Arrival(scope: string, at: real)

  /** One call against the limiter map; a non-positive rate disables limiting. */
  function Decide(l: Limits, m: map<string, Bucket>, a: Arrival): (map<string, Bucket>, bool) {
    if l.rps <= 0.0 then (m, true)
    else
      var clock := l.Clock(a.at);
      var (b, ok) := l.Allow(if a.scope in m then m[a.scope] else l.Full(clock), clock);
      (m[a.scope := b], ok)
  }

  class RateLimiter {
    const limits: Limits
    var limiters: map<string, Bucket>

    constructor (limits: Limits)
      ensures this.limits == limits && limiters == map[]
    {
      this.limits := limits;
      limiters := map[];
    }

    /** The interceptor: find or create the org's limiter, then ask it. */
    method Call(scope: string, at: real) returns (admitted: bool)
      modifies this
      ensures (limiters, admitted) == Decide(limits, old(limiters), Arrival(scope, at))
    {
      if limits.rps <= 0.0 {
        return true;
      }
      var clock := limits.Clock(at);
      if scope !in limiters {
        limiters := limiters[scope := limits.Full(clock)];
      }
      var (b, ok) := limits.Allow(limiters[scope], clock);
      limiters := limiters[scope := b];
      assert limiters == old(limiters)[scope := b];
      return ok;
    }
  }

  // ---- isolation ----

  /** Decisions of an interleaved run, call by call. */
  function Decisions(l: Limits, m: map<string, Bucket>, calls: seq<Arrival>): (ds: seq<bool>)
    ensures |ds| == |calls|
    decreases |calls|
  {
    if calls == [] then []
    else
      var (m', ok) := Decide(l, m, calls[0]);
      [ok] + Decisions(l, m', calls[1..])
  }

  /** Decisions of one limiter that sees only the given clock readings; None is a limiter not made yet. */
  function Alone(l: Limits, b: Option<Bucket>, clocks: seq<real>): (ds: seq<bool>)
    ensures |ds| == |clocks|
    decreases |clocks|
  {
    if clocks == [] then []
    else
      var (b', ok) := l.Allow(if b.Some? then b.value else l.Full(clocks[0]), clocks[0]);
      [ok] + Alone(l, Some(b'), clocks[1..])
  }

  function TimesOf(org: string, calls: seq<Arrival>): seq<real> {
    if calls == [] then []
    else if calls[0].scope == org then [calls[0].at] + TimesOf(org, calls[1..])
    else TimesOf(org, calls[1..])
  }

  function Clocks(l: Limits, times: seq<real>): seq<real> {
    seq(|times|, i requires 0 <= i < |times| => l.Clock(times[i]))
  }

  function DecisionsFor(org: string, calls: seq<Arrival>, ds: seq<bool>): seq<bool>
    requires |ds| == |calls|
  {
    if calls == [] then []
    else if calls[0].scope == org then [ds[0]] + DecisionsFor(org, calls[1..], ds[1..])
    else DecisionsFor(org, calls[1..], ds[1..])
  }

  /** Isolation: whatever the other orgs do, an org is admitted as if it were alone. */
  lemma {:induction false} Isolation(l: Limits, m: map<string, Bucket>, calls: seq<Arrival>, org: string)
    requires l.rps > 0.0
    ensures DecisionsFor(org, calls, Decisions(l, m, calls)) == Alone(l, Lookup(m, org), Clocks(l, TimesOf(org, calls)))
    decreases |calls|
  {
    if calls != [] {
      var (m', ok) := Decide(l, m, calls[0]);
      Isolation(l, m', calls[1..], org);
      assert Decisions(l, m, calls)[1..] == Decisions(l, m', calls[1..]);
      var clocks := Clocks(l, TimesOf(org, calls));
      if calls[0].scope == org {
        assert clocks[0] == l.Clock(calls[0].at) && clocks[1..] == Clocks(l, TimesOf(org, calls[1..]));
      } else {
        assert Lookup(m', org) == Lookup(m, org);
      }
    }
  }

  // ---- the bound ----

  function Admitted(ds: seq<bool>): int {
    if ds == [] then 0 else (if ds[0] then 1 else 0) + Admitted(ds[1..])
  }

  ghost predicate Ordered(times: seq<real>) {
    forall i, j :: 0 <= i < j < |times| ==> times[i] <= times[j]
  }

  /** Calls from a bucket are bounded by what it holds plus what drips in before the last of them. */
  lemma {:induction false} BoundFrom(l: Limits, b: Bucket, clocks: seq<real>)
    requires clocks != [] && Ordered(clocks) && l.Level(b, clocks[0]) >= 0.0
    ensures Admitted(Alone(l, Some(b), clocks)) as real <= l.Level(b, clocks[0]) + (clocks[|clocks| - 1] - clocks[0])
    decreases |clocks|
  {
    var (b', ok) := l.Allow(b, clocks[0]);
    var rest := clocks[1..];
    var ds := Alone(l, Some(b), clocks);
    assert ds[1..] == Alone(l, Some(b'), rest);
    if rest == [] {
      assert Admitted(ds[1..]) == 0;
    } else {
      assert clocks[0] <= rest[0];
      assert rest[|rest| - 1] == clocks[|clocks| - 1];
      BoundFrom(l, b', rest);
    }
  }

  /** The limiter after some calls. */
  function After(l: Limits, b: Option<Bucket>, clocks: seq<real>): Option<Bucket>
    decreases |clocks|
  {
    if clocks == [] then b
    else After(l, Some(l.Allow(if b.Some? then b.value else l.Full(clocks[0]), clocks[0]).0), clocks[1..])
  }

  lemma {:induction false} AloneSplits(l: Limits, b: Option<Bucket>, xs: seq<real>, ys: seq<real>)
    ensures Alone(l, b, xs + ys) == Alone(l, b, xs) + Alone(l, After(l, b, xs), ys)
    decreases |xs|
  {
    if xs == [] {
      assert xs + ys == ys;
    } else {
      assert (xs + ys)[1..] == xs[1..] + ys;
      AloneSplits(l, Some(l.Allow(if b.Some? then b.value else l.Full(xs[0]), xs[0]).0), xs[1..], ys);
    }
  }

  /** A limiter never runs a debt. */
  lemma {:induction false} AfterNonNegative(l: Limits, b: Option<Bucket>, clocks: seq<real>)
    requires b.Some? ==> b.value.tokens >= 0.0
    ensures After(l, b, clocks).Some? ==> After(l, b, clocks).value.tokens >= 0.0
    decreases |clocks|
  {
    if clocks != [] {
      AfterNonNegative(l, Some(l.Allow(if b.Some? then b.value else l.Full(clocks[0]), clocks[0]).0), clocks[1..]);
    }
  }

  lemma {:induction false} Middle<T>(xs: seq<T>, ys: seq<T>, zs: seq<T>)
    ensures (xs + (ys + zs))[|xs|..|xs| + |ys|] == ys
  {
  }

  /** A window's decisions are those of the limiter left by the calls before it. */
  lemma {:induction false} AloneSlice(l: Limits, clocks: seq<real>, i: nat, j: nat)
    requires i < j <= |clocks|
    ensures Alone(l, None, clocks)[i..j] == Alone(l, After(l, None, clocks[..i]), clocks[i..j])
  {
    var before, window, after := clocks[..i], clocks[i..j], clocks[j..];
    assert clocks == before + (window + after);
    var b := After(l, None, before);
    AloneSplits(l, None, before, window + after);
    AloneSplits(l, b, window, after);
    Middle(Alone(l, None, before), Alone(l, b, window), Alone(l, After(l, b, window), after));
  }

  /** From any limiter without a debt, made or not, at most the cap plus the drip. */
  lemma {:induction false} WindowFrom(l: Limits, b: Option<Bucket>, clocks: seq<real>)
    requires clocks != [] && Ordered(clocks)
    requires b.Some? ==> b.value.tokens >= 0.0
    ensures Admitted(Alone(l, b, clocks)) as real <= l.Cap() as real + (clocks[|clocks| - 1] - clocks[0])
  {
    var b0 := if b.Some? then b.value else l.Full(clocks[0]);
    assert Alone(l, b, clocks) == Alone(l, Some(b0), clocks);
    BoundFrom(l, b0, clocks);
  }

  /** At most the cap plus the drip is admitted in any window of a lone limiter's life. */
  lemma {:induction false} AloneWindow(l: Limits, clocks: seq<real>, i: nat, j: nat)
    requires Ordered(clocks) && i < j <= |clocks|
    ensures Admitted(Alone(l, None, clocks)[i..j]) as real <= l.Cap() as real + (clocks[j - 1] - clocks[i])
  {
    AloneSlice(l, clocks, i, j);
    AfterNonNegative(l, None, clocks[..i]);
    WindowFrom(l, After(l, None, clocks[..i]), clocks[i..j]);
  }

  // ---- no call is rejected without need ----

  /** What a limiter grants the next call at a clock reading. */
  function LevelAt(l: Limits, b: Option<Bucket>, clock: real): real {
    if b.Some? then l.Level(b.value, clock) else l.Cap() as real
  }

  /** The limiter last looked at no later than this reading, and holds no more than the cap. */
  ghost predicate Current(l: Limits, b: Option<Bucket>, clock: real) {
    b.Some? ==> b.value.last <= clock && b.value.tokens <= l.Cap() as real
  }

  /** From one call to the next the level loses a token if the call was admitted, and gains the drip, up to the cap. */
  lemma {:induction false} LevelStep(l: Limits, b: Option<Bucket>, now: real, next: real)
    requires Current(l, b, now) && now <= next && l.Cap() >= 1
    ensures var (b', ok) := l.Allow(if b.Some? then b.value else l.Full(now), now);
            && Current(l, Some(b'), next)
            && (ok <==> LevelAt(l, b, now) >= 1.0)
            && var left := LevelAt(l, b, now) - (if ok then 1.0 else 0.0) + (next - now);
               LevelAt(l, Some(b'), next) == if left > l.Cap() as real then l.Cap() as real else left
  {
  }

  /**
   * Before any call the level is exactly the cap plus the drip minus what was
   * admitted, counted from the call at which the bucket was last full, or else from
   * the first call and what the limiter held then.
   */
  lemma {:induction false} LevelIsSpent(l: Limits, b: Option<Bucket>, clocks: seq<real>, n: nat) returns (since: nat)
    requires Ordered(clocks) && n < |clocks| && l.Cap() >= 1 && Current(l, b, clocks[0])
    ensures since <= n && Current(l, After(l, b, clocks[..n]), clocks[n])
    ensures var level := LevelAt(l, After(l, b, clocks[..n]), clocks[n]);
            var admitted := Admitted(Alone(l, b, clocks)[since..n]) as real;
            || level == l.Cap() as real + (clocks[n] - clocks[since]) - admitted
            || (since == 0 && level == LevelAt(l, b, clocks[0]) + (clocks[n] - clocks[0]) - admitted)
    decreases n
  {
    var ds := Alone(l, b, clocks);
    if n == 0 {
      assert clocks[..0] == [] && ds[0..0] == [];
      return 0;
    }
    since := LevelIsSpent(l, b, clocks, n - 1);
    var before := After(l, b, clocks[..n - 1]);
    LevelStep(l, before, clocks[n - 1], clocks[n]);
    AfterSnoc(l, b, clocks, n - 1);
    AdmittedSnoc(ds, since, n - 1);
    if LevelAt(l, After(l, b, clocks[..n]), clocks[n]) == l.Cap() as real {
      assert ds[n..n] == [];
      since := n;
    }
  }

  /** The limiter after one more call, and what that call was told. */
  lemma {:induction false} AfterSnoc(l: Limits, b: Option<Bucket>, clocks: seq<real>, n: nat)
    requires n < |clocks|
    ensures var before := After(l, b, clocks[..n]);
            var (b', ok) := l.Allow(if before.Some? then before.value else l.Full(clocks[n]), clocks[n]);
            After(l, b, clocks[..n + 1]) == Some(b') && Alone(l, b, clocks)[n] == ok
    decreases n
  {
    if n == 0 {
      assert clocks[..0] == [] && clocks[..1] == [clocks[0]];
      assert [clocks[0]][1..] == [];
    } else {
      var b1 := Some(l.Allow(if b.Some? then b.value else l.Full(clocks[0]), clocks[0]).0);
      AfterSnoc(l, b1, clocks[1..], n - 1);
      assert clocks[..n][1..] == clocks[1..][..n - 1] && clocks[..n + 1][1..] == clocks[1..][..n];
    }
  }

  lemma {:induction false} AdmittedSnoc(ds: seq<bool>, i: nat, n: nat)
    requires i <= n < |ds|
    ensures Admitted(ds[i..n + 1]) == Admitted(ds[i..n]) + if ds[n] then 1 else 0
    decreases n - i
  {
    if i == n {
      assert ds[n..n + 1] == [ds[n]] && ds[n..n] == [];
      assert [ds[n]][1..] == [];
    } else {
      AdmittedSnoc(ds, i + 1, n);
      assert ds[i..n + 1][1..] == ds[i + 1..n + 1] && ds[i..n][1..] == ds[i + 1..n];
    }
  }

  /** The default and the given burst: never less than one call. */
  lemma {:induction false} CapIs(l: Limits)
    ensures l.burst > 0 ==> l.Cap() == l.burst
    ensures l.burst <= 0 && l.rps >= 1.0 ==> l.Cap() as real <= l.rps < l.Cap() as real + 1.0
    ensures l.burst <= 0 && l.rps < 1.0 ==> l.Cap() == 1
    ensures l.Cap() >= 1
  {
  }

  /**
   * A call is rejected only when the budget is spent: counted from some earlier
   * call, one more would have exceeded the cap plus the drip. Together with
   * AloneWindow this says exactly how much is admitted.
   */
  lemma {:induction false} RejectedOnlyWhenSpent(l: Limits, clocks: seq<real>, n: nat) returns (since: nat)
    requires Ordered(clocks) && n < |clocks| && !Alone(l, None, clocks)[n]
    ensures since <= n
    ensures Admitted(Alone(l, None, clocks)[since..n]) as real + 1.0 > l.Cap() as real + (clocks[n] - clocks[since])
  {
    CapIs(l);
    since := LevelIsSpent(l, None, clocks, n);
    AfterSnoc(l, None, clocks, n);
  }

  /** The same for an org among others, in time. */
  lemma {:induction false} RejectionIsEarned(l: Limits, calls: seq<Arrival>, org: string, times: seq<real>, ds: seq<bool>, n: nat) returns (since: nat)
    requires l.rps > 0.0
    requires times == TimesOf(org, calls) && ds == DecisionsFor(org, calls, Decisions(l, map[], calls))
    requires Ordered(times) && n < |times|
    ensures |ds| == |times| && since <= n
    ensures !ds[n] ==> Admitted(ds[since..n]) as real + 1.0 > l.Cap() as real + l.rps * (times[n] - times[since])
  {
    Isolation(l, map[], calls, org);
    since := 0;
    if !ds[n] {
      ClocksOrdered(l, times);
      since := RejectedOnlyWhenSpent(l, Clocks(l, times), n);
      ClockOrder(l, times[since], times[n]);
    }
  }

  /** A rate of zero or less disables limiting: every call is admitted and nothing is kept. */
  lemma {:induction false} DisabledAdmitsAll(l: Limits, m: map<string, Bucket>, calls: seq<Arrival>)
    requires l.rps <= 0.0
    ensures forall i :: 0 <= i < |calls| ==> Decisions(l, m, calls)[i]
    decreases |calls|
  {
    if calls != [] {
      DisabledAdmitsAll(l, m, calls[1..]);
      assert Decide(l, m, calls[0]) == (m, true);
    }
  }

  lemma {:induction false} ClockOrder(l: Limits, x: real, y: real)
    ensures l.Clock(y) - l.Clock(x) == l.rps * (y - x)
    ensures l.rps > 0.0 && x <= y ==> l.Clock(x) <= l.Clock(y)
  {
  }

  lemma {:induction false} ClocksOrdered(l: Limits, times: seq<real>)
    requires l.rps > 0.0 && Ordered(times)
    ensures Ordered(Clocks(l, times))
  {
    forall a, b | 0 <= a < b < |times| ensures Clocks(l, times)[a] <= Clocks(l, times)[b] {
      ClockOrder(l, times[a], times[b]);
    }
  }

  lemma {:induction false} LoneBound(l: Limits, times: seq<real>, i: nat, j: nat)
    requires l.rps > 0.0 && Ordered(times) && i < j <= |times|
    ensures Admitted(Alone(l, None, Clocks(l, times))[i..j]) as real <= l.Cap() as real + l.rps * (times[j - 1] - times[i])
  {
    var clocks := Clocks(l, times);
    var span := clocks[j - 1] - clocks[i];
    assert span == l.rps * (times[j - 1] - times[i]) by {
      ClockOrder(l, times[i], times[j - 1]);
    }
    ClocksOrdered(l, times);
    AloneWindow(l, clocks, i, j);
  }

  /**
   * The bound: in any window of an org's calls, however the other orgs
   * interleave, at most burst plus rps times the window's length are admitted.
   */
  lemma {:induction false} WindowBound(l: Limits, calls: seq<Arrival>, org: string, times: seq<real>, ds: seq<bool>, i: nat, j: nat)
    requires l.rps > 0.0
    requires times == TimesOf(org, calls) && ds == DecisionsFor(org, calls, Decisions(l, map[], calls))
    requires Ordered(times) && i < j <= |times|
    ensures |ds| == |times|
    ensures Admitted(ds[i..j]) as real <= l.Cap() as real + l.rps * (times[j - 1] - times[i])
  {
    Isolation(l, map[], calls, org);
    LoneBound(l, times, i, j);
  }
}
