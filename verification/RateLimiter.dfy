/** The multi-tenant token bucket with its idle sweep. */
module RateLimiter {
  import opened Common
  import opened Clock

  const SWEEP_INTERVAL := 256

  datatype Config = Config(capacity: int, rate: real, idle: real)

  datatype Limiter = Limiter(buckets: map<string, real>, lastUpdated: map<string, real>, sinceSweep: nat)

  datatype Grant = Grant(granted: bool, state: Limiter)

  function Min(a: real, b: real): real { if a <= b then a else b }

  function Inflow(c: Config, elapsed: real): real {
    elapsed * c.rate
  }

  function Refill(c: Config, tokens: real, elapsed: real): real {
    Min(c.capacity as real, tokens + Inflow(c, elapsed))
  }

  function Get(m: map<string, real>, k: string, default: real): real {
    if k in m then m[k] else default
  }

  /** Untouched for long enough, and full by now if it were refilled. */
  predicate Evictable(c: Config, s: Limiter, now: real, t: string)
    requires t in s.buckets
  {
    var idleFor := now - Get(s.lastUpdated, t, now);
    idleFor >= c.idle && Refill(c, s.buckets[t], idleFor) >= c.capacity as real
  }

  function Stale(c: Config, s: Limiter, now: real): set<string> {
    set t | t in s.buckets && Evictable(c, s, now, t)
  }

  function Sweep(c: Config, s: Limiter, now: real): Limiter {
    var stale := Stale(c, s, now);
    s.(buckets := s.buckets - stale, lastUpdated := s.lastUpdated - stale)
  }

  /** Every 256th acquisition sweeps first. */
  function Tick(c: Config, s: Limiter, now: real): Limiter {
    if s.sinceSweep + 1 >= SWEEP_INTERVAL then Sweep(c, s, now).(sinceSweep := 0)
    else s.(sinceSweep := s.sinceSweep + 1)
  }

  function Take(c: Config, s: Limiter, tenant: string, now: real): Grant {
    var tokens := if tenant in s.buckets
                  then Refill(c, s.buckets[tenant], now - Get(s.lastUpdated, tenant, now))
                  else Refill(c, c.capacity as real, now - now);
    var granted := tokens >= 1.0;
    Grant(granted, s.(buckets := s.buckets[tenant := if granted then tokens - 1.0 else tokens],
                      lastUpdated := s.lastUpdated[tenant := now]))
  }

  function Acquire(c: Config, s: Limiter, tenant: string, now: real): Grant {
    Take(c, Tick(c, s, now), tenant, now)
  }

  const EMPTY := Limiter(map[], map[], 0)

  class TokenBucketLimiter {
    const config: Config
    var buckets: map<string, real>
    var lastUpdated: map<string, real>
    var sinceSweep: nat

    constructor (config: Config)
      ensures this.config == config && View() == EMPTY
    {
      this.config := config;
      buckets, lastUpdated, sinceSweep := map[], map[], 0;
    }

    ghost function View(): Limiter
      reads this
    {
      Limiter(buckets, lastUpdated, sinceSweep)
    }

    /** Collect the stale tenants, then delete them from both maps. */
    method EvictIdle(now: real)
      modifies this
      ensures View() == Sweep(config, old(View()), now)
    {
      ghost var s := View();
      ghost var goal := Stale(config, s, now);
      var stale: set<string> := {};
      var todo := buckets.Keys;
      while todo != {}
        invariant todo <= buckets.Keys && View() == s
        invariant stale == set t | t in buckets.Keys - todo && Evictable(config, s, now, t)
        decreases todo
      {
        var tenant :| tenant in todo;
        todo := todo - {tenant};
        var idleFor := now - Get(lastUpdated, tenant, now);
        if idleFor >= config.idle {
          var projected := Refill(config, buckets[tenant], idleFor);
          if projected >= config.capacity as real {
            stale := stale + {tenant};
          }
        }
      }
      assert stale == goal;
      while stale != {}
        invariant stale <= goal && sinceSweep == s.sinceSweep
        invariant buckets == s.buckets - (goal - stale) && lastUpdated == s.lastUpdated - (goal - stale)
        decreases stale
      {
        var tenant :| tenant in stale;
        stale := stale - {tenant};
        buckets := buckets - {tenant};
        lastUpdated := lastUpdated - {tenant};
      }
    }

    method CountAcquisition(now: real)
      modifies this
      ensures View() == Tick(config, old(View()), now)
    {
      sinceSweep := sinceSweep + 1;
      if sinceSweep >= SWEEP_INTERVAL {
        sinceSweep := 0;
        SweepIgnoresCounter(config, old(View()), 0, now);
        EvictIdle(now);
      }
    }

    method TryAcquire(tenant: string, now: real) returns (granted: bool)
      requires buckets.Keys == lastUpdated.Keys
      modifies this
      ensures Grant(granted, View()) == Acquire(config, old(View()), tenant, now)
      ensures buckets.Keys == lastUpdated.Keys
    {
      TickKeepsKeys(config, View(), now);
      CountAcquisition(now);
      granted := TakeToken(tenant, now);
    }

    /** Create the bucket if needed, refill it, take a token if there is one. */
    method TakeToken(tenant: string, now: real) returns (granted: bool)
      requires buckets.Keys == lastUpdated.Keys
      modifies this
      ensures Grant(granted, View()) == Take(config, old(View()), tenant, now)
      ensures buckets.Keys == lastUpdated.Keys
    {
      if tenant !in buckets {
        buckets := buckets[tenant := config.capacity as real];
        lastUpdated := lastUpdated[tenant := now];
      }
      var elapsed := now - lastUpdated[tenant];
      var tokens := Refill(config, buckets[tenant], elapsed);
      buckets := buckets[tenant := tokens];
      lastUpdated := lastUpdated[tenant := now];
      granted := tokens >= 1.0;
      if granted {
        buckets := buckets[tenant := tokens - 1.0];
      }
      assert buckets == old(View()).buckets[tenant := if granted then tokens - 1.0 else tokens];
      assert lastUpdated == old(View()).lastUpdated[tenant := now];
    }
  }

  lemma {:induction false} SweepIgnoresCounter(c: Config, s: Limiter, n: nat, now: real)
    ensures Sweep(c, s.(sinceSweep := n), now) == Sweep(c, s, now).(sinceSweep := n)
  {
    assert Stale(c, s.(sinceSweep := n), now) == Stale(c, s, now);
  }

  lemma {:induction false} TickKeepsKeys(c: Config, s: Limiter, now: real)
    requires s.buckets.Keys == s.lastUpdated.Keys
    ensures Tick(c, s, now).buckets.Keys == Tick(c, s, now).lastUpdated.Keys
  {
  }

  // ---- runs, shared and private ----

  datatype Call = Call(tenant: string, now: real)

  function Shared(c: Config, calls: seq<Call>): Limiter {
    if calls == [] then EMPTY
    else
      var call := calls[|calls| - 1];
      Acquire(c, Shared(c, calls[..|calls| - 1]), call.tenant, call.now).state
  }

  /** The answer to one more call after `calls`. */
  function Answer(c: Config, calls: seq<Call>, call: Call): bool {
    Acquire(c, Shared(c, calls), call.tenant, call.now).granted
  }

  /** One tenant's own bucket, created on first use and never evicted. */
  datatype Bucket = Bucket(tokens: real, last: real)

  function PrivateTokens(c: Config, b: Option<Bucket>, now: real): real {
    if b == None then c.capacity as real else Refill(c, b.value.tokens, now - b.value.last)
  }

  function Private(c: Config, times: seq<real>): Option<Bucket> {
    if times == [] then None
    else
      var now := times[|times| - 1];
      var tokens := PrivateTokens(c, Private(c, times[..|times| - 1]), now);
      Some(Bucket(if tokens >= 1.0 then tokens - 1.0 else tokens, now))
  }

  function PrivateAnswer(c: Config, times: seq<real>, now: real): bool {
    PrivateTokens(c, Private(c, times), now) >= 1.0
  }

  /** When the tenant called, ignoring everybody else. */
  function Own(calls: seq<Call>, tenant: string): seq<real> {
    if calls == [] then []
    else
      var init, last := calls[..|calls| - 1], calls[|calls| - 1];
      if last.tenant == tenant then Own(init, tenant) + [last.now] else Own(init, tenant)
  }

  ghost predicate ClockNeverSteps(calls: seq<Call>) {
    InTimeOrder(calls, (c: Call) => c.now)
  }

  lemma {:induction false} InflowGrows(c: Config, x: real, y: real)
    requires x <= y && 0.0 <= c.rate
    ensures Inflow(c, x) <= Inflow(c, y)
  {
    assert (y - x) * c.rate >= 0.0;
  }

  lemma {:induction false} InflowIsNonNegative(c: Config, x: real)
    requires 0.0 <= x && 0.0 <= c.rate
    ensures 0.0 <= Inflow(c, x)
  {
  }

  lemma {:induction false} InflowAdds(c: Config, x: real, y: real)
    ensures Inflow(c, x + y) == Inflow(c, x) + Inflow(c, y)
  {
  }

  // What the shared limiter holds for `t` against what `t`'s own bucket holds at `clock`:
  // the same bucket, or none because its own bucket would be full.
  ghost predicate Coupled(c: Config, s: Limiter, b: Option<Bucket>, t: string, clock: real) {
    && s.buckets.Keys == s.lastUpdated.Keys
    && (b.Some? ==> b.value.last <= clock)
    && if t in s.buckets then b == Some(Bucket(s.buckets[t], s.lastUpdated[t]))
       else b.Some? ==> b.value.tokens + Inflow(c, clock - b.value.last) >= c.capacity as real
  }

  lemma {:induction false} WaitKeepsCoupled(c: Config, s: Limiter, b: Option<Bucket>, t: string, clock: real, now: real)
    requires 0.0 <= c.rate && Coupled(c, s, b, t, clock) && clock <= now
    ensures Coupled(c, s, b, t, now)
  {
    if b.Some? { InflowGrows(c, clock - b.value.last, now - b.value.last); }
  }

  lemma {:induction false} SweepKeepsCoupled(c: Config, s: Limiter, b: Option<Bucket>, t: string, now: real)
    requires Coupled(c, s, b, t, now)
    ensures Coupled(c, Tick(c, s, now), b, t, now)
  {
  }

  lemma {:induction false} TakeKeepsCoupled(c: Config, s: Limiter, times: seq<real>, t: string, call: Call)
    requires Coupled(c, s, Private(c, times), t, call.now)
    ensures call.tenant != t ==> Coupled(c, Take(c, s, call.tenant, call.now).state, Private(c, times), t, call.now)
    ensures call.tenant == t ==> Coupled(c, Take(c, s, t, call.now).state, Private(c, times + [call.now]), t, call.now)
  {
    assert (times + [call.now])[..|times|] == times;
  }

  lemma {:induction false} RunIsCoupled(c: Config, calls: seq<Call>, t: string, clock: real)
    requires 0.0 <= c.rate && ClockNeverSteps(calls)
    requires forall i :: 0 <= i < |calls| ==> calls[i].now <= clock
    ensures Coupled(c, Shared(c, calls), Private(c, Own(calls, t)), t, clock)
  {
    if calls != [] {
      var init, call := calls[..|calls| - 1], calls[|calls| - 1];
      var s, b := Shared(c, init), Private(c, Own(init, t));
      RunIsCoupled(c, init, t, call.now);
      SweepKeepsCoupled(c, s, b, t, call.now);
      TakeKeepsCoupled(c, Tick(c, s, call.now), Own(init, t), t, call);
      if call.tenant == t {
        assert Own(calls, t)[..|Own(calls, t)| - 1] == Own(init, t);
      }
      WaitKeepsCoupled(c, Shared(c, calls), Private(c, Own(calls, t)), t, call.now, clock);
    }
  }

  /** Every call is answered as the tenant's private, never-evicted bucket would answer it. */
  lemma {:induction false} SharedIsPrivate(c: Config, calls: seq<Call>, call: Call)
    requires 0.0 <= c.rate && ClockNeverSteps(calls + [call])
    ensures Answer(c, calls, call) == PrivateAnswer(c, Own(calls, call.tenant), call.now)
  {
    var all := calls + [call];
    assert forall i :: 0 <= i < |calls| ==> calls[i] == all[i] && all[i].now <= all[|calls|].now;
    RunIsCoupled(c, calls, call.tenant, call.now);
    SweepKeepsCoupled(c, Shared(c, calls), Private(c, Own(calls, call.tenant)), call.tenant, call.now);
  }

  // ---- how much one tenant can get ----

  /** Grants to `t` at times in `[from, to]`, as the shared limiter gives them. */
  function Grants(c: Config, calls: seq<Call>, t: string, from: real, to: real): nat {
    if calls == [] then 0
    else
      var init, call := calls[..|calls| - 1], calls[|calls| - 1];
      Grants(c, init, t, from, to) +
      if call.tenant == t && from <= call.now <= to && Answer(c, init, call) then 1 else 0
  }

  function PrivateGrants(c: Config, times: seq<real>, from: real, to: real): nat {
    if times == [] then 0
    else
      var init, now := times[..|times| - 1], times[|times| - 1];
      PrivateGrants(c, init, from, to) + if from <= now <= to && PrivateAnswer(c, init, now) then 1 else 0
  }

  lemma {:induction false} GrantsArePrivate(c: Config, calls: seq<Call>, t: string, from: real, to: real)
    requires 0.0 <= c.rate && ClockNeverSteps(calls)
    ensures Grants(c, calls, t, from, to) == PrivateGrants(c, Own(calls, t), from, to)
  {
    if calls != [] {
      var init, call := calls[..|calls| - 1], calls[|calls| - 1];
      GrantsArePrivate(c, init, t, from, to);
      assert init + [call] == calls;
      SharedIsPrivate(c, init, call);
      if call.tenant == t { assert Own(calls, t)[..|Own(calls, t)| - 1] == Own(init, t); }
    }
  }

  lemma {:induction false} OwnIsSorted(calls: seq<Call>, t: string, clock: real)
    requires ClockNeverSteps(calls) && forall i :: 0 <= i < |calls| ==> calls[i].now <= clock
    ensures Ascending(Own(calls, t)) && forall i :: 0 <= i < |Own(calls, t)| ==> Own(calls, t)[i] <= clock
  {
    if calls != [] {
      OwnIsSorted(calls[..|calls| - 1], t, calls[|calls| - 1].now);
    }
  }

  lemma {:induction false} BeforeWindow(c: Config, times: seq<real>, from: real, to: real)
    requires forall i :: 0 <= i < |times| ==> times[i] < from
    ensures PrivateGrants(c, times, from, to) == 0
  {
    if times != [] { BeforeWindow(c, times[..|times| - 1], from, to); }
  }

  /** A full bucket; a limiter of negative capacity never holds a token. */
  function Full(c: Config): real { if c.capacity >= 0 then c.capacity as real else 0.0 }

  lemma {:induction false} RefillBounds(c: Config, tokens: real, elapsed: real)
    requires 0.0 <= c.rate && Min(0.0, c.capacity as real) <= tokens && 0.0 <= elapsed
    ensures Min(0.0, c.capacity as real) <= Refill(c, tokens, elapsed) <= c.capacity as real
    ensures Refill(c, tokens, elapsed) <= tokens + Inflow(c, elapsed)
  {
    InflowIsNonNegative(c, elapsed);
  }

  // Tokens found by a call at `now`, before it takes one: never more than are there or fit.
  lemma {:induction false} TokensFound(c: Config, times: seq<real>)
    requires 0.0 <= c.rate && Ascending(times) && times != []
    ensures var init, now := times[..|times| - 1], times[|times| - 1];
      var found := PrivateTokens(c, Private(c, init), now);
      && Min(0.0, c.capacity as real) <= found <= c.capacity as real
      && (init == [] || found <= Private(c, init).value.tokens + Inflow(c, now - init[|init| - 1]))
    decreases |times|, 0
  {
    var init, now := times[..|times| - 1], times[|times| - 1];
    TokensInRange(c, init);
    if init != [] {
      assert init[|init| - 1] == times[|times| - 2] <= now;
      RefillBounds(c, Private(c, init).value.tokens, now - init[|init| - 1]);
    }
  }

  lemma {:induction false} TokensInRange(c: Config, times: seq<real>)
    requires 0.0 <= c.rate && Ascending(times)
    ensures Private(c, times).Some? ==>
      Min(0.0, c.capacity as real) <= Private(c, times).value.tokens <= c.capacity as real
    ensures times != [] ==> Private(c, times).value.last == times[|times| - 1]
    decreases |times|, 1
  {
    if times != [] { TokensFound(c, times); }
  }

  /**
   Conservation.  Tokens in hand plus grants since `from` never exceed a full bucket plus what
   has flowed in since `from`.
   */
  lemma {:induction false} TokensAreConserved(c: Config, times: seq<real>, from: real, to: real)
    requires 0.0 <= c.rate && Ascending(times) && times != []
    requires from <= times[|times| - 1] <= to
    ensures Private(c, times).value.tokens + PrivateGrants(c, times, from, to) as real
         <= Full(c) + Inflow(c, times[|times| - 1] - from)
  {
    var init, now := times[..|times| - 1], times[|times| - 1];
    TokensFound(c, times);
    var found := PrivateTokens(c, Private(c, init), now);
    if init != [] && from <= init[|init| - 1] {
      var last := init[|init| - 1];
      TokensAreConserved(c, init, from, to);
      InflowAdds(c, now - last, last - from);
      assert (now - last) + (last - from) == now - from;
    } else {
      assert forall i :: 0 <= i < |init| ==> init[i] <= init[|init| - 1];
      BeforeWindow(c, init, from, to);
      InflowIsNonNegative(c, now - from);
    }
    assert found + PrivateGrants(c, init, from, to) as real <= Full(c) + Inflow(c, now - from);
    TakeIsCounted(c, times, from, to);
  }

  // What a call in the window takes from the bucket it adds to the count.
  lemma {:induction false} TakeIsCounted(c: Config, times: seq<real>, from: real, to: real)
    requires times != [] && from <= times[|times| - 1] <= to
    ensures var init, now := times[..|times| - 1], times[|times| - 1];
      Private(c, times).value.tokens + PrivateGrants(c, times, from, to) as real
        == PrivateTokens(c, Private(c, init), now) + PrivateGrants(c, init, from, to) as real
  {
  }

  lemma {:induction false} NoCapacityNoGrants(c: Config, times: seq<real>, from: real, to: real)
    requires 0.0 <= c.rate && Ascending(times) && c.capacity < 0
    ensures PrivateGrants(c, times, from, to) == 0
  {
    if times != [] {
      TokensFound(c, times);
      NoCapacityNoGrants(c, times[..|times| - 1], from, to);
    }
  }

  lemma {:induction false} PrivateBound(c: Config, times: seq<real>, from: real, to: real)
    requires 0.0 <= c.rate && Ascending(times) && from <= to
    ensures PrivateGrants(c, times, from, to) as real <= Full(c) + Inflow(c, to - from)
  {
    InflowIsNonNegative(c, to - from);
    if c.capacity < 0 {
      NoCapacityNoGrants(c, times, from, to);
    } else if times != [] {
      var now := times[|times| - 1];
      if now > to {
        PrivateBound(c, times[..|times| - 1], from, to);
      } else if now < from {
        BeforeWindow(c, times, from, to);
      } else {
        TokensInRange(c, times);
        TokensAreConserved(c, times, from, to);
        InflowGrows(c, now - from, to - from);
      }
    }
  }

  lemma {:induction false} GrantsWithinInflow(c: Config, calls: seq<Call>, t: string, from: real, to: real)
    requires 0.0 <= c.rate && ClockNeverSteps(calls) && from <= to
    ensures Grants(c, calls, t, from, to) as real <= Full(c) + Inflow(c, to - from)
  {
    GrantsArePrivate(c, calls, t, from, to);
    OwnIsSorted(calls, t, if calls == [] then 0.0 else calls[|calls| - 1].now);
    PrivateBound(c, Own(calls, t), from, to);
  }

  lemma {:induction false} InflowIs(c: Config, elapsed: real)
    ensures Inflow(c, elapsed) == elapsed * c.rate
  {
  }

  /** No more than a full bucket and what `seconds` of refilling add. */
  predicate WithinAllowance(c: Config, grants: nat, seconds: real) {
    grants as real <= Full(c) + seconds * c.rate
  }

  /** One grant more than a full bucket and what `seconds` of refilling add. */
  predicate BeyondAllowance(c: Config, grants: nat, seconds: real) {
    grants as real + 1.0 > c.capacity as real + seconds * c.rate
  }

  /** A whole token flows in within `seconds`. */
  predicate TokenFlowsIn(c: Config, seconds: real) {
    seconds * c.rate >= 1.0
  }

  lemma {:induction false} AllowanceIsInflow(c: Config, grants: nat, seconds: real)
    ensures WithinAllowance(c, grants, seconds) <==> grants as real <= Full(c) + Inflow(c, seconds)
    ensures BeyondAllowance(c, grants, seconds) <==> c.capacity as real + Inflow(c, seconds) - grants as real < 1.0
    ensures TokenFlowsIn(c, seconds) <==> Inflow(c, seconds) >= 1.0
  {
    InflowIs(c, seconds);
  }

  /** Over any interval, across sweeps and re-creations, a tenant gets a burst plus the refill. */
  lemma {:induction false} GrantsAreBounded(c: Config, calls: seq<Call>, t: string, from: real, to: real)
    requires 0.0 <= c.rate && ClockNeverSteps(calls) && from <= to
    ensures WithinAllowance(c, Grants(c, calls, t, from, to), to - from)
  {
    GrantsWithinInflow(c, calls, t, from, to);
    AllowanceIsInflow(c, Grants(c, calls, t, from, to), to - from);
  }

  // ---- exactly when a call is granted ----

  /** What the allowance since `from` leaves over, once the grants since then are taken off. */
  function Slack(c: Config, times: seq<real>, from: real, now: real): real {
    c.capacity as real + Inflow(c, now - from) - PrivateGrants(c, times, from, now) as real
  }

  predicate Tight(c: Config, times: seq<real>, now: real, tokens: real, k: nat) {
    k < |times| && tokens == Slack(c, times, times[k], now)
  }

  // The bucket holds the least of a full one and of what every earlier call's allowance leaves over.
  ghost predicate LeastSlack(c: Config, times: seq<real>, now: real, tokens: real) {
    && tokens <= c.capacity as real
    && (forall k :: 0 <= k < |times| ==> tokens <= Slack(c, times, times[k], now))
    && (tokens == c.capacity as real || exists k :: Tight(c, times, now, tokens, k))
  }

  lemma {:induction false} WindowGrows(c: Config, times: seq<real>, from: real, to: real, to': real)
    requires to <= to' && forall i :: 0 <= i < |times| ==> times[i] <= to
    ensures PrivateGrants(c, times, from, to) == PrivateGrants(c, times, from, to')
  {
    if times != [] { WindowGrows(c, times[..|times| - 1], from, to, to'); }
  }

  // How one call moves the slack of an earlier moment.
  lemma {:induction false} SlackMoves(c: Config, times: seq<real>, from: real, last: real, now: real)
    requires from <= last <= now && forall i :: 0 <= i < |times| ==> times[i] <= last
    ensures Slack(c, times + [last], from, now) ==
      Slack(c, times, from, last) - (if PrivateAnswer(c, times, last) then 1.0 else 0.0) + Inflow(c, now - last)
  {
    var more := times + [last];
    assert more[..|times|] == times;
    WindowGrows(c, more, from, last, now);
    InflowAdds(c, now - last, last - from);
    assert (now - last) + (last - from) == now - from;
  }

  lemma {:induction false} OwnSlackMoves(c: Config, times: seq<real>, last: real, now: real)
    requires last <= now && forall i :: 0 <= i < |times| ==> times[i] <= last
    ensures Slack(c, times + [last], last, now) ==
      c.capacity as real - PrivateGrants(c, times, last, last) as real
        - (if PrivateAnswer(c, times, last) then 1.0 else 0.0) + Inflow(c, now - last)
  {
    SlackMoves(c, times, last, last, now);
    assert Inflow(c, last - last) == 0.0;
  }

  lemma {:induction false} GrantsNow(c: Config, times: seq<real>, last: real)
    requires PrivateGrants(c, times, last, last) > 0
    ensures exists k :: 0 <= k < |times| && times[k] == last
  {
    var init := times[..|times| - 1];
    if times[|times| - 1] != last {
      GrantsNow(c, init, last);
      var k :| 0 <= k < |init| && init[k] == last;
      assert times[k] == last;
    }
  }

  /** The bucket always holds that least slack. */
  lemma {:induction false} TokensAreLeastSlack(c: Config, times: seq<real>, now: real)
    requires Ascending(times) && forall i :: 0 <= i < |times| ==> times[i] <= now
    ensures LeastSlack(c, times, now, PrivateTokens(c, Private(c, times), now))
  {
    if times != [] {
      var init, last := times[..|times| - 1], times[|times| - 1];
      assert times == init + [last];
      assert forall i :: 0 <= i < |init| ==> init[i] == times[i] <= last;
      TokensAreLeastSlack(c, init, last);
      SlackAfterCall(c, init, last, now);
    }
  }

  lemma {:induction false} SlackAfterCall(c: Config, init: seq<real>, last: real, now: real)
    requires last <= now && forall i :: 0 <= i < |init| ==> init[i] <= last
    requires LeastSlack(c, init, last, PrivateTokens(c, Private(c, init), last))
    ensures LeastSlack(c, init + [last], now, PrivateTokens(c, Private(c, init + [last]), now))
  {
    var times, found := init + [last], PrivateTokens(c, Private(c, init), last);
    assert times[..|init|] == init;
    var taken := if PrivateAnswer(c, init, last) then 1.0 else 0.0;
    var tokens := PrivateTokens(c, Private(c, times), now);
    assert tokens == Min(c.capacity as real, found - taken + Inflow(c, now - last));
    forall k | 0 <= k < |init|
      ensures Slack(c, times, times[k], now) == Slack(c, init, init[k], last) - taken + Inflow(c, now - last)
    {
      SlackMoves(c, init, init[k], last, now);
    }
    OwnSlackMoves(c, init, last, now);
    LastSlack(c, init, last);
    if tokens != c.capacity as real {
      if found == c.capacity as real {
        assert Tight(c, times, now, tokens, |init|);
      } else {
        var k :| Tight(c, init, last, found, k);
        assert Tight(c, times, now, tokens, k);
      }
    }
  }

  // Grants at this very moment are charged to the calls that got them.
  lemma {:induction false} LastSlack(c: Config, init: seq<real>, last: real)
    requires LeastSlack(c, init, last, PrivateTokens(c, Private(c, init), last))
    ensures PrivateTokens(c, Private(c, init), last) <= c.capacity as real - PrivateGrants(c, init, last, last) as real
  {
    if PrivateGrants(c, init, last, last) > 0 {
      GrantsNow(c, init, last);
      var k :| 0 <= k < |init| && init[k] == last;
      assert PrivateTokens(c, Private(c, init), last) <= Slack(c, init, init[k], last);
      assert Inflow(c, last - last) == 0.0;
    }
  }

  /** Some allowance, of a full bucket now or of one full at an earlier call of the tenant, is used up. */
  ghost predicate UsedUp(c: Config, calls: seq<Call>, call: Call) {
    || c.capacity < 1
    || exists k :: 0 <= k < |calls| && Overdrawn(c, calls, call, k)
  }

  predicate Overdrawn(c: Config, calls: seq<Call>, call: Call, k: nat)
    requires k < |calls|
  {
    calls[k].tenant == call.tenant &&
    BeyondAllowance(c, Grants(c, calls, call.tenant, calls[k].now, call.now), call.now - calls[k].now)
  }

  lemma {:induction false} OwnCallAt(calls: seq<Call>, t: string, k: nat) returns (j: nat)
    requires k < |calls| && calls[k].tenant == t
    ensures j < |Own(calls, t)| && Own(calls, t)[j] == calls[k].now
  {
    var init := calls[..|calls| - 1];
    if k < |init| {
      j := OwnCallAt(init, t, k);
    } else {
      j := |Own(init, t)|;
    }
  }

  lemma {:induction false} CallOfOwn(calls: seq<Call>, t: string, j: nat) returns (k: nat)
    requires j < |Own(calls, t)|
    ensures k < |calls| && calls[k].tenant == t && calls[k].now == Own(calls, t)[j]
  {
    var init := calls[..|calls| - 1];
    if j < |Own(init, t)| {
      k := CallOfOwn(init, t, j);
    } else {
      k := |init|;
    }
  }

  lemma {:induction false} OverdrawnIsSlack(c: Config, calls: seq<Call>, call: Call, k: nat)
    requires 0.0 <= c.rate && ClockNeverSteps(calls) && k < |calls| && calls[k].tenant == call.tenant
    ensures Overdrawn(c, calls, call, k) <==> Slack(c, Own(calls, call.tenant), calls[k].now, call.now) < 1.0
  {
    var own, from := Own(calls, call.tenant), calls[k].now;
    GrantsArePrivate(c, calls, call.tenant, from, call.now);
    AllowanceIsInflow(c, PrivateGrants(c, own, from, call.now), call.now - from);
  }

  lemma {:induction false} CallsAreBefore(calls: seq<Call>, call: Call)
    requires ClockNeverSteps(calls + [call])
    ensures ClockNeverSteps(calls) && forall i :: 0 <= i < |calls| ==> calls[i].now <= call.now
    ensures Ascending(Own(calls, call.tenant))
    ensures forall i :: 0 <= i < |Own(calls, call.tenant)| ==> Own(calls, call.tenant)[i] <= call.now
  {
    var all := calls + [call];
    assert forall i :: 0 <= i < |calls| ==> calls[i] == all[i] && all[i].now <= all[|calls|].now;
    OwnIsSorted(calls, call.tenant, call.now);
  }

  lemma {:induction false} RefusalIsOverdraft(c: Config, calls: seq<Call>, call: Call)
    requires 0.0 <= c.rate && ClockNeverSteps(calls + [call]) && !Answer(c, calls, call)
    ensures UsedUp(c, calls, call)
  {
    var own := Own(calls, call.tenant);
    CallsAreBefore(calls, call);
    SharedIsPrivate(c, calls, call);
    TokensAreLeastSlack(c, own, call.now);
    var tokens := PrivateTokens(c, Private(c, own), call.now);
    if c.capacity >= 1 {
      var j :| Tight(c, own, call.now, tokens, j);
      var k := CallOfOwn(calls, call.tenant, j);
      OverdrawnIsSlack(c, calls, call, k);
    }
  }

  lemma {:induction false} OverdraftIsRefusal(c: Config, calls: seq<Call>, call: Call)
    requires 0.0 <= c.rate && ClockNeverSteps(calls + [call]) && UsedUp(c, calls, call)
    ensures !Answer(c, calls, call)
  {
    var own := Own(calls, call.tenant);
    CallsAreBefore(calls, call);
    SharedIsPrivate(c, calls, call);
    TokensAreLeastSlack(c, own, call.now);
    if c.capacity >= 1 {
      var k :| 0 <= k < |calls| && Overdrawn(c, calls, call, k);
      var j := OwnCallAt(calls, call.tenant, k);
      OverdrawnIsSlack(c, calls, call, k);
      assert PrivateTokens(c, Private(c, own), call.now) <= Slack(c, own, own[j], call.now);
    }
  }

  /** In every interleaving, a call is refused exactly when some allowance is used up. */
  lemma {:induction false} RefusedIff(c: Config, calls: seq<Call>, call: Call)
    requires 0.0 <= c.rate && ClockNeverSteps(calls + [call])
    ensures !Answer(c, calls, call) <==> UsedUp(c, calls, call)
  {
    if UsedUp(c, calls, call) {
      OverdraftIsRefusal(c, calls, call);
    }
    if !Answer(c, calls, call) {
      RefusalIsOverdraft(c, calls, call);
    }
  }

  lemma {:induction false} PatientBucket(c: Config, own: seq<real>, now: real)
    requires 0.0 <= c.rate && 1 <= c.capacity && Ascending(own)
    requires own != [] ==> Inflow(c, now - own[|own| - 1]) >= 1.0
    ensures PrivateAnswer(c, own, now)
  {
    TokensInRange(c, own);
  }

  /** A tenant that waits for one token to flow in is granted it. */
  lemma {:induction false} PatienceIsRewarded(c: Config, calls: seq<Call>, call: Call)
    requires 0.0 <= c.rate && 1 <= c.capacity && ClockNeverSteps(calls + [call])
    requires forall k :: 0 <= k < |calls| && calls[k].tenant == call.tenant ==> TokenFlowsIn(c, call.now - calls[k].now)
    ensures Answer(c, calls, call)
  {
    var own := Own(calls, call.tenant);
    CallsAreBefore(calls, call);
    SharedIsPrivate(c, calls, call);
    if own != [] {
      var k := CallOfOwn(calls, call.tenant, |own| - 1);
      AllowanceIsInflow(c, 0, call.now - calls[k].now);
    }
    PatientBucket(c, own, call.now);
  }

  // ---- when buckets are forgotten ----

  /** Untouched for the idle time, and refilled to the brim since. */
  predicate Forgettable(c: Config, s: Limiter, t: string, now: real)
    requires t in s.buckets && t in s.lastUpdated
  {
    var waited := now - s.lastUpdated[t];
    waited >= c.idle && s.buckets[t] + waited * c.rate >= c.capacity as real
  }

  lemma {:induction false} CountsCalls(c: Config, calls: seq<Call>)
    ensures Shared(c, calls).sinceSweep == |calls| % 256
    ensures Shared(c, calls).buckets.Keys == Shared(c, calls).lastUpdated.Keys
  {
    if calls != [] {
      var init := calls[..|calls| - 1];
      CountsCalls(c, init);
      TickKeepsKeys(c, Shared(c, init), calls[|calls| - 1].now);
    }
  }

  lemma {:induction false} SweepForgets(c: Config, s: Limiter, now: real, t: string)
    requires s.buckets.Keys == s.lastUpdated.Keys && t in s.buckets
    ensures t in Sweep(c, s, now).buckets <==> !Forgettable(c, s, t, now)
  {
    InflowIs(c, now - s.lastUpdated[t]);
  }

  /** Just every 256th call forgets, and it forgets exactly the idle, refilled buckets of other tenants. */
  lemma {:induction false} EverySweepForgetsIff(c: Config, calls: seq<Call>, call: Call, t: string)
    requires t in Shared(c, calls).buckets && t != call.tenant
    ensures t in Shared(c, calls).lastUpdated
    ensures t !in Shared(c, calls + [call]).buckets <==>
      (|calls| + 1) % 256 == 0 && Forgettable(c, Shared(c, calls), t, call.now)
  {
    assert (calls + [call])[..|calls|] == calls;
    CountsCalls(c, calls);
    SweepForgets(c, Shared(c, calls), call.now, t);
  }
}
