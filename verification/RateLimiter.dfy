/**
  The token bucket limiter. Times are readings of a monotone clock in nanoseconds; a call that
  creates a bucket reads the clock a second time, in the bucket's constructor. Tokens are reals.
 */
module RateLimiterModule {

  datatype TokenBucket = TokenBucket(tokens: real, lastRefill: int, rate: real, maxTokens: real)

  /** `duration_cast` to whole milliseconds truncates toward zero. */
  function Milliseconds(nanoseconds: int): int {
    if nanoseconds >= 0 then nanoseconds / 1_000_000 else -(-nanoseconds / 1_000_000)
  }

  /** The tokens a rate earns in a number of milliseconds. */
  function Earned(ms: int, rate: real): real {
    Yield(ms as real / 1000.0, rate)
  }

  function Yield(seconds: real, rate: real): real {
    seconds * rate
  }

  function Credit(b: TokenBucket, now: int): real {
    Earned(Milliseconds(now - b.lastRefill), b.rate)
  }

  function AtMost(x: real, max: real): real {
    if x > max then max else x
  }

  function Refill(b: TokenBucket, now: int): TokenBucket {
    b.(tokens := AtMost(b.tokens + Credit(b, now), b.maxTokens), lastRefill := now)
  }

  predicate Admits(b: TokenBucket) {
    b.tokens >= 1.0
  }

  function Spend(b: TokenBucket): TokenBucket {
    if Admits(b) then b.(tokens := b.tokens - 1.0) else b
  }

  function NewBucket(rate: real, burst: real, born: int): TokenBucket {
    TokenBucket(burst, born, rate, burst)
  }

  datatype State = State(buckets: map<string, TokenBucket>, defaultRate: real, defaultBurst: real)

  /** One call, with the clock readings it takes. */
  datatype Event =
    | Allow(client: string, now: int, born: int)
    | SetRate(client: string, rate: real, born: int)
    | SetBurst(client: string, burst: nat, born: int)
    | Reset(client: string)
    | Configure(rate: real, burst: nat)

  /** The bucket a call finds, or the one it creates. */
  function BucketFor(s: State, client: string, rate: real, burst: real, born: int): TokenBucket {
    if client in s.buckets then s.buckets[client] else NewBucket(rate, burst, born)
  }

  function Refilled(s: State, e: Event): TokenBucket
    requires e.Allow?
  {
    Refill(BucketFor(s, e.client, s.defaultRate, s.defaultBurst, e.born), e.now)
  }

  function Next(s: State, e: Event): State {
    match e
    case Allow(client, now, born) => s.(buckets := s.buckets[client := Spend(Refilled(s, e))])
    case SetRate(client, rate, born) =>
      s.(buckets := s.buckets[client := BucketFor(s, client, rate, s.defaultBurst, born).(rate := rate)])
    case SetBurst(client, burst, born) =>
      var b := BucketFor(s, client, s.defaultRate, burst as real, born);
      s.(buckets := s.buckets[client := b.(maxTokens := burst as real, tokens := AtMost(b.tokens, burst as real))])
    case Reset(client) => s.(buckets := s.buckets - {client})
    case Configure(rate, burst) => s.(defaultRate := rate, defaultBurst := burst as real)
  }

  function TokensOf(s: State, client: string): real {
    if client in s.buckets then s.buckets[client].tokens else 0.0
  }

  /** The state after a run of calls. */
  function Run(s: State, events: seq<Event>): State
    decreases |events|
  {
    if events == [] then s else Run(Next(s, events[0]), events[1..])
  }

  class RateLimiter {
    var buckets: map<string, TokenBucket>
    var defaultRate: real
    var defaultBurst: real

    function Abs(): State
      reads this
    {
      State(buckets, defaultRate, defaultBurst)
    }

    constructor ()
      ensures Abs() == State(map[], 100.0, 10.0)
    {
      buckets := map[];
      defaultRate := 100.0;
      defaultBurst := 10.0;
    }

    method ConfigureDefaults(rps: real, burst: nat)
      modifies this
      ensures Abs() == Next(old(Abs()), Configure(rps, burst))
    {
      defaultRate := rps;
      defaultBurst := burst as real;
    }

    method AllowRequest(client: string, now: int, born: int) returns (ok: bool)
      modifies this
      ensures Abs() == Next(old(Abs()), Allow(client, now, born))
      ensures ok == Admits(Refilled(old(Abs()), Allow(client, now, born)))
    {
      if client !in buckets {
        buckets := buckets[client := NewBucket(defaultRate, defaultBurst, born)];
      }
      var bucket := buckets[client];
      var elapsed := Milliseconds(now - bucket.lastRefill);
      var elapsedSeconds := elapsed as real / 1000.0;
      assert elapsedSeconds * bucket.rate == Earned(elapsed, bucket.rate);
      hide Earned, Milliseconds;
      bucket := bucket.(tokens := bucket.tokens + elapsedSeconds * bucket.rate);
      if bucket.tokens > bucket.maxTokens {
        bucket := bucket.(tokens := bucket.maxTokens);
      }
      bucket := bucket.(lastRefill := now);
      ok := bucket.tokens >= 1.0;
      if ok {
        bucket := bucket.(tokens := bucket.tokens - 1.0);
      }
      buckets := buckets[client := bucket];
    }

    method SetClientRate(client: string, rps: real, born: int)
      modifies this
      ensures Abs() == Next(old(Abs()), SetRate(client, rps, born))
    {
      if client !in buckets {
        buckets := buckets[client := NewBucket(rps, defaultBurst, born)];
      } else {
        buckets := buckets[client := buckets[client].(rate := rps)];
      }
    }

    method SetClientBurst(client: string, burst: nat, born: int)
      modifies this
      ensures Abs() == Next(old(Abs()), SetBurst(client, burst, born))
    {
      if client !in buckets {
        buckets := buckets[client := NewBucket(defaultRate, burst as real, born)];
      } else {
        var b := buckets[client].(maxTokens := burst as real);
        if b.tokens > burst as real {
          b := b.(tokens := burst as real);
        }
        buckets := buckets[client := b];
      }
    }

    method ResetClient(client: string)
      modifies this
      ensures Abs() == Next(old(Abs()), Reset(client))
    {
      buckets := buckets - {client};
    }

    method GetTokens(client: string) returns (tokens: real)
      ensures tokens == TokensOf(Abs(), client)
    {
      return if client in buckets then buckets[client].tokens else 0.0;
    }
  }

  // ------------------------------------------------------------------ the bounds

  /** Rates are not negative, and no bucket holds more than its maximum. */
  predicate Capped(s: State) {
    && s.defaultRate >= 0.0 && s.defaultBurst >= 0.0
    && forall c | c in s.buckets ::
         s.buckets[c].tokens <= s.buckets[c].maxTokens && s.buckets[c].rate >= 0.0 && s.buckets[c].maxTokens >= 0.0
  }

  predicate NonNegativeRate(e: Event) {
    (e.SetRate? ==> e.rate >= 0.0) && (e.Configure? ==> e.rate >= 0.0)
  }

  lemma StepKeepsCapped(s: State, e: Event)
    requires Capped(s) && NonNegativeRate(e)
    ensures Capped(Next(s, e))
  {
  }

  /** No bucket owes tokens. */
  predicate Solvent(s: State) {
    forall c | c in s.buckets :: s.buckets[c].tokens >= 0.0
  }

  /** A call that found no bucket, and whose second clock reading came too late for its burst. */
  predicate LateBirth(s: State, e: Event) {
    && e.Allow? && e.client !in s.buckets
    && Earned(Milliseconds(e.born - e.now), s.defaultRate) > s.defaultBurst
  }

  /** The clock does not run backwards: within the call, nor since the bucket was last refilled. */
  predicate InOrder(s: State, e: Event) {
    e.Allow? ==> e.now <= e.born && (e.client in s.buckets ==> s.buckets[e.client].lastRefill <= e.now)
  }

  /** Tokens stay in [0, burst] after every call, exactly unless a bucket is born late. */
  lemma TokensStayInRange(s: State, e: Event)
    requires Capped(s) && Solvent(s) && NonNegativeRate(e) && InOrder(s, e)
    ensures Capped(Next(s, e))
    ensures Solvent(Next(s, e)) <==> !LateBirth(s, e)
  {
    StepKeepsCapped(s, e);
    if e.Allow? {
      var b := BucketFor(s, e.client, s.defaultRate, s.defaultBurst, e.born);
      if e.client in s.buckets {
        EarnedNonNegative(Milliseconds(e.now - b.lastRefill), b.rate);
      } else {
        EarnedOpposite(Milliseconds(e.born - e.now), b.rate);
        EarnedNonNegative(Milliseconds(e.born - e.now), b.rate);
      }
      hide Earned;
      assert Solvent(Next(s, e)) <==> Spend(Refilled(s, e)).tokens >= 0.0 by {
        var next := Next(s, e);
        assert next.buckets[e.client] == Spend(Refilled(s, e));
        assert forall c | c in s.buckets && c != e.client :: next.buckets[c] == s.buckets[c];
      }
    }
  }

  /** At 1000 tokens a second and no burst, a bucket born a millisecond after its call owes a token. */
  lemma LateBucketOwes()
    ensures var s, e := State(map[], 1000.0, 0.0), Allow("client", 0, 1_000_000);
            && Capped(s) && Solvent(s) && InOrder(s, e)
            && TokensOf(Next(s, e), "client") == -1.0
  {
    var s, e := State(map[], 1000.0, 0.0), Allow("client", 0, 1_000_000);
    assert Milliseconds(e.now - e.born) == -1;
    assert Earned(-1, 1000.0) == -1.0;
    assert Next(s, e).buckets["client"].tokens == -1.0;
  }

  /** A run with no negative rate, no clock running backwards and no late birth. */
  predicate Orderly(s: State, events: seq<Event>)
    decreases |events|
  {
    events != [] ==>
      var e := events[0];
      NonNegativeRate(e) && InOrder(s, e) && !LateBirth(s, e) && Orderly(Next(s, e), events[1..])
  }

  /** Tokens stay in [0, burst] over whole runs. */
  lemma {:induction false} RunStaysInRange(s: State, events: seq<Event>)
    requires Capped(s) && Solvent(s) && Orderly(s, events)
    ensures Capped(Run(s, events)) && Solvent(Run(s, events))
    decreases |events|
  {
    if events != [] {
      TokensStayInRange(s, events[0]);
      hide Capped, Solvent, NonNegativeRate, InOrder, LateBirth, Next;
      RunStaysInRange(Next(s, events[0]), events[1..]);
    }
  }

  lemma EarnedNonNegative(ms: int, rate: real)
    requires ms >= 0 && rate >= 0.0
    ensures Earned(ms, rate) >= 0.0
  {
  }

  lemma EarnedOpposite(ms: int, rate: real)
    ensures Earned(-ms, rate) == -Earned(ms, rate)
  {
  }

  // ------------------------------------------------------------- the window bound

  predicate AdmitsCall(s: State, e: Event, client: string) {
    e.Allow? && e.client == client && Admits(Refilled(s, e))
  }

  /** How many requests of one client a run admits. */
  function Admitted(s: State, events: seq<Event>, client: string): nat
    decreases |events|
  {
    if events == [] then 0
    else (if AdmitsCall(s, events[0], client) then 1 else 0) + Admitted(Next(s, events[0]), events[1..], client)
  }

  /** Calls that leave the client's rate, burst and bucket alone; other clients may do anything. */
  predicate LeavesAlone(e: Event, client: string) {
    (e.SetRate? || e.SetBurst? || e.Reset?) ==> e.client != client
  }

  /** The client's calls, and only those, come at times from `s` to `t` that never run backwards. */
  predicate Timed(events: seq<Event>, client: string, s: int, t: int)
    decreases |events|
  {
    s <= t &&
    (events != [] ==>
       var e := events[0];
       && LeavesAlone(e, client)
       && (if e.Allow? && e.client == client then s <= e.now && Timed(events[1..], client, e.now, t)
           else Timed(events[1..], client, s, t)))
  }

  /** Tokens a rate earns in nanoseconds, without truncation. */
  function Flow(ns: int, rate: real): real {
    Yield(ns as real / 1_000_000_000.0, rate)
  }

  lemma TruncationOnlyLoses(ns: int, rate: real)
    requires ns >= 0 && rate >= 0.0
    ensures Earned(Milliseconds(ns), rate) <= Flow(ns, rate) <= Earned(Milliseconds(ns), rate) + rate / 1000.0
  {
    var ms := Milliseconds(ns);
    assert ms * 1_000_000 <= ns < (ms + 1) * 1_000_000;
    hide Yield, Milliseconds;
    Bracket(ms as real / 1000.0, ns as real / 1_000_000_000.0, rate);
  }

  lemma Bracket(a: real, b: real, rate: real)
    requires a <= b <= a + 0.001 && rate >= 0.0
    ensures Yield(a, rate) <= Yield(b, rate) <= Yield(a, rate) + rate / 1000.0
  {
    YieldAdds(a, b - a, rate);
    YieldSmall(b - a, rate);
    hide Yield;
  }

  lemma YieldAdds(a: real, d: real, rate: real)
    ensures Yield(a + d, rate) == Yield(a, rate) + Yield(d, rate)
  {
  }

  lemma YieldSmall(d: real, rate: real)
    requires 0.0 <= d <= 0.001 && rate >= 0.0
    ensures 0.0 <= Yield(d, rate) <= rate / 1000.0
  {
    Scale(0.0, d, rate);
    Scale(d, 0.001, rate);
  }

  lemma Scale(a: real, b: real, rate: real)
    requires a <= b && rate >= 0.0
    ensures a * rate <= b * rate
  {
  }

  lemma FlowAdds(a: int, b: int, rate: real)
    ensures Flow(a + b, rate) == Flow(a, rate) + Flow(b, rate)
  {
    assert (a + b) as real / 1_000_000_000.0 == a as real / 1_000_000_000.0 + b as real / 1_000_000_000.0;
  }

  lemma FlowNonNegative(ns: int, rate: real)
    requires ns >= 0 && rate >= 0.0
    ensures Flow(ns, rate) >= 0.0
  {
  }

  /**
    The potential of a bucket bounds what it can still admit: what it holds now and what its rate
    brings in until `t`. It may owe tokens only as long as nothing has been admitted.
   */
  lemma {:induction false} AdmittedWithinPotential(st: State, events: seq<Event>, client: string, s: int, t: int)
    requires client in st.buckets && st.buckets[client].rate >= 0.0
    requires st.buckets[client].lastRefill == s && Timed(events, client, s, t)
    ensures var b := st.buckets[client];
            var k := Admitted(st, events, client);
            k == 0 || k as real <= b.tokens + Flow(t - s, b.rate)
    decreases |events|
  {
    hide Flow, Earned, Milliseconds;
    if events != [] {
      var e, b := events[0], st.buckets[client];
      var next := Next(st, e);
      if e.Allow? && e.client == client {
        var after := next.buckets[client];
        AdmittedWithinPotential(next, events[1..], client, e.now, t);
        TruncationOnlyLoses(e.now - s, b.rate);
        FlowAdds(e.now - s, t - e.now, b.rate);
        FlowNonNegative(t - e.now, b.rate);
        assert Refilled(st, e).tokens <= b.tokens + Flow(e.now - s, b.rate);
      } else {
        assert next.buckets[client] == b;
        AdmittedWithinPotential(next, events[1..], client, s, t);
      }
    }
  }

  /**
    Between a call of a client at time `s` and one at time `t`, both included, whatever other clients
    do meanwhile, at most burst + rate * (t - s) requests of that client are admitted.
   */
  lemma WindowBound(st: State, events: seq<Event>, client: string, t: int)
    requires Capped(st) && events != [] && events[0].Allow? && events[0].client == client
    requires Timed(events, client, events[0].now, t)
    ensures var b := BucketFor(st, client, st.defaultRate, st.defaultBurst, events[0].born);
            Admitted(st, events, client) as real <= b.maxTokens + Flow(t - events[0].now, b.rate)
  {
    hide Flow, Earned, Milliseconds;
    var e := events[0];
    var b := BucketFor(st, client, st.defaultRate, st.defaultBurst, e.born);
    FirstCall(st, e);
    hide Next, Refilled, Spend;
    AdmittedWithinPotential(Next(st, e), events[1..], client, e.now, t);
    FlowNonNegative(t - e.now, b.rate);
  }

  /** What the first call leaves: at most the maximum, with what it took. */
  lemma FirstCall(st: State, e: Event)
    requires Capped(st) && e.Allow?
    ensures var b := BucketFor(st, e.client, st.defaultRate, st.defaultBurst, e.born);
            && e.client in Next(st, e).buckets && b.rate >= 0.0 && b.maxTokens >= 0.0
            && var after := Next(st, e).buckets[e.client];
            && after.rate == b.rate && after.lastRefill == e.now
            && after.tokens + (if Admits(Refilled(st, e)) then 1.0 else 0.0) <= b.maxTokens
  {
    hide Earned, Milliseconds;
  }

  // --------------------------------------------------------------- lazy and eager

  /** One millisecond of a bucket that is refilled all the time. */
  function Tick(tokens: real, rate: real, max: real): real {
    AtMost(tokens + rate / 1000.0, max)
  }

  function Ticks(tokens: real, rate: real, max: real, ms: nat): real {
    if ms == 0 then tokens else Tick(Ticks(tokens, rate, max, ms - 1), rate, max)
  }

  /** The decisions of the lazy bucket at a sequence of times. */
  function LazyRun(b: TokenBucket, times: seq<int>): seq<bool>
    decreases |times|
  {
    if times == [] then []
    else
      var r := Refill(b, times[0]);
      [Admits(r)] + LazyRun(Spend(r), times[1..])
  }

  /** The decisions of a bucket that ticks every millisecond since `last`, in milliseconds. */
  function EagerRun(tokens: real, rate: real, max: real, last: int, times: seq<int>): seq<bool>
    requires forall k :: 0 <= k < |times| ==> last <= times[k]
    requires forall j, k :: 0 <= j < k < |times| ==> times[j] <= times[k]
    decreases |times|
  {
    if times == [] then []
    else
      var now := Ticks(tokens, rate, max, times[0] - last);
      [now >= 1.0] + EagerRun(if now >= 1.0 then now - 1.0 else now, rate, max, times[0], times[1..])
  }

  lemma {:induction false} TicksAreRefill(tokens: real, rate: real, max: real, ms: nat)
    requires tokens <= max && rate >= 0.0
    ensures Ticks(tokens, rate, max, ms) == AtMost(tokens + Earned(ms, rate), max)
  {
    if ms > 0 {
      TicksAreRefill(tokens, rate, max, ms - 1);
      EarnedNonNegative(ms - 1, rate);
      assert Earned(ms, rate) == Earned(ms - 1, rate) + rate / 1000.0;
    }
  }

  function InNanoseconds(ms: seq<int>): seq<int> {
    seq(|ms|, k requires 0 <= k < |ms| => ms[k] * 1_000_000)
  }

  /** When calls fall on whole milliseconds, refilling only when asked decides the same as ticking. */
  lemma {:induction false} LazyIsEager(b: TokenBucket, last: int, times: seq<int>)
    requires b.tokens <= b.maxTokens && b.rate >= 0.0 && b.lastRefill == last * 1_000_000
    requires forall k :: 0 <= k < |times| ==> last <= times[k]
    requires forall j, k :: 0 <= j < k < |times| ==> times[j] <= times[k]
    ensures LazyRun(b, InNanoseconds(times)) == EagerRun(b.tokens, b.rate, b.maxTokens, last, times)
    decreases |times|
  {
    if times != [] {
      var ms := times[0] - last;
      assert Milliseconds(times[0] * 1_000_000 - b.lastRefill) == ms by { WholeMilliseconds(ms); }
      TicksAreRefill(b.tokens, b.rate, b.maxTokens, ms);
      assert InNanoseconds(times)[1..] == InNanoseconds(times[1..]);
      hide Earned;
      LazyIsEager(Spend(Refill(b, times[0] * 1_000_000)), times[0], times[1..]);
    }
  }

  lemma WholeMilliseconds(ms: nat)
    ensures Milliseconds(ms * 1_000_000) == ms
  {
  }

  /** The tokens left after a run, lazily refilled. */
  function LazyTokens(b: TokenBucket, times: seq<int>): real
    decreases |times|
  {
    if times == [] then b.tokens else LazyTokens(Spend(Refill(b, times[0])), times[1..])
  }

  /** A bucket that never truncates, from which the same requests are taken that `b` admits. */
  function FluidTokens(fluid: real, b: TokenBucket, times: seq<int>): real
    decreases |times|
  {
    if times == [] then fluid
    else
      var r := Refill(b, times[0]);
      var filled := AtMost(fluid + Flow(times[0] - b.lastRefill, b.rate), b.maxTokens);
      FluidTokens(if Admits(r) then filled - 1.0 else filled, Spend(r), times[1..])
  }

  /** A millisecond's tokens for each call. */
  function Truncated(calls: nat, rate: real): real {
    calls as real * (rate / 1000.0)
  }

  /**
    For calls at any times, the lazy bucket never holds more than the continuous one with the same
    admissions, and truncation costs it less than a millisecond's tokens at every call.
   */
  lemma {:induction false} LazyBelowFluid(b: TokenBucket, fluid: real, times: seq<int>, lag: real)
    requires b.rate >= 0.0 && b.tokens <= fluid <= b.tokens + lag && fluid <= b.maxTokens
    requires forall k :: 0 <= k < |times| ==> b.lastRefill <= times[k]
    requires forall j, k :: 0 <= j < k < |times| ==> times[j] <= times[k]
    ensures LazyTokens(b, times) <= FluidTokens(fluid, b, times)
         <= LazyTokens(b, times) + (lag + Truncated(|times|, b.rate))
    decreases |times|
  {
    if times != [] {
      var now := times[0];
      var r := Refill(b, now);
      var filled := AtMost(fluid + Flow(now - b.lastRefill, b.rate), b.maxTokens);
      OneRefillBelowFluid(b, fluid, now, lag);
      OneMoreTruncation(|times[1..]|, b.rate);
      hide Flow, Earned, Milliseconds, Refill, Truncated;
      LazyBelowFluid(Spend(r), if Admits(r) then filled - 1.0 else filled, times[1..], lag + b.rate / 1000.0);
    }
  }

  lemma OneRefillBelowFluid(b: TokenBucket, fluid: real, now: int, lag: real)
    requires b.rate >= 0.0 && b.tokens <= fluid <= b.tokens + lag && fluid <= b.maxTokens
    requires b.lastRefill <= now
    ensures var r := Refill(b, now);
            && r.lastRefill == now && r.rate == b.rate && r.maxTokens == b.maxTokens
            && r.tokens <= AtMost(fluid + Flow(now - b.lastRefill, b.rate), b.maxTokens)
               <= r.tokens + (lag + b.rate / 1000.0)
  {
    TruncationOnlyLoses(now - b.lastRefill, b.rate);
    hide Flow, Earned, Milliseconds;
  }

  lemma OneMoreTruncation(calls: nat, rate: real)
    ensures Truncated(calls + 1, rate) == Truncated(calls, rate) + rate / 1000.0
  {
  }

  // --------------------------------------------------- runs of the limiter, and eager buckets

  /** What the calls of one client are answered during a run. */
  function Answers(s: State, events: seq<Event>, client: string): seq<bool>
    decreases |events|
  {
    if events == [] then []
    else
      var e := events[0];
      (if e.Allow? && e.client == client then [Admits(Refilled(s, e))] else [])
      + Answers(Next(s, e), events[1..], client)
  }

  /** When they came. */
  function CallTimes(events: seq<Event>, client: string): seq<int>
    decreases |events|
  {
    if events == [] then []
    else
      (if events[0].Allow? && events[0].client == client then [events[0].now] else [])
      + CallTimes(events[1..], client)
  }

  /** No call in the run changes the client's rate or burst, or forgets its bucket. */
  predicate AllLeaveAlone(events: seq<Event>, client: string) {
    forall k | 0 <= k < |events| :: LeavesAlone(events[k], client)
  }

  lemma {:induction false} AnswersAreLazy(st: State, events: seq<Event>, client: string)
    requires client in st.buckets && AllLeaveAlone(events, client)
    ensures Answers(st, events, client) == LazyRun(st.buckets[client], CallTimes(events, client))
    ensures TokensOf(Run(st, events), client) == LazyTokens(st.buckets[client], CallTimes(events, client))
    decreases |events|
  {
    if events != [] {
      var e, rest := events[0], events[1..];
      var times := CallTimes(rest, client);
      hide Refill, Spend, Admits;
      assert LeavesAlone(e, client);
      AnswersAreLazy(Next(st, e), rest, client);
      if e.Allow? && e.client == client {
        assert ([e.now] + times)[1..] == times;
      } else {
        assert Next(st, e).buckets[client] == st.buckets[client];
        assert [] + times == times && [] + Answers(Next(st, e), rest, client) == Answers(Next(st, e), rest, client);
      }
    }
  }

  /** Milliseconds that do not run backwards from `last` on. */
  predicate Ordered(last: int, times: seq<int>) {
    && (forall k :: 0 <= k < |times| ==> last <= times[k])
    && forall j, k :: 0 <= j < k < |times| ==> times[j] <= times[k]
  }

  /** A bucket that an eager one can stand for. */
  predicate Sane(b: TokenBucket) {
    b.tokens <= b.maxTokens && b.rate >= 0.0
  }

  /**
    In every run in which a client calls on whole milliseconds, whatever other clients do meanwhile and
    however the defaults change, it is answered as by a bucket that is refilled every millisecond.
   */
  lemma AnswersAreEager(st: State, events: seq<Event>, client: string, last: int, times: seq<int>)
    requires client in st.buckets && AllLeaveAlone(events, client) && Sane(st.buckets[client])
    requires st.buckets[client].lastRefill == last * 1_000_000
    requires Ordered(last, times) && CallTimes(events, client) == InNanoseconds(times)
    ensures var b := st.buckets[client];
            Answers(st, events, client) == EagerRun(b.tokens, b.rate, b.maxTokens, last, times)
  {
    hide Answers, LazyRun, EagerRun, CallTimes, InNanoseconds, Run;
    AnswersAreLazy(st, events, client);
    LazyIsEager(st.buckets[client], last, times);
  }

  /** What a rate earns in the whole milliseconds between the reading of a call and the birth of its bucket. */
  function Delayed(e: Event, rate: real): real
    requires e.Allow?
  {
    ((e.born - e.now) / 1_000_000) as real / 1000.0 * rate
  }

  /**
    A client that has no bucket starts with the default burst, less what the default rate earns in the
    whole milliseconds between the reading of its call and the birth of its bucket.
   */
  lemma FirstAnswersAreEager(st: State, events: seq<Event>, client: string, times: seq<int>)
    requires client !in st.buckets && st.defaultRate >= 0.0 && st.defaultBurst >= 0.0
    requires events != [] && events[0].Allow? && events[0].client == client && events[0].now <= events[0].born
    requires AllLeaveAlone(events, client) && CallTimes(events, client) == InNanoseconds(times)
    requires times != [] && Ordered(times[0], times)
    ensures Answers(st, events, client) ==
            EagerRun(st.defaultBurst - Delayed(events[0], st.defaultRate), st.defaultRate, st.defaultBurst,
                     times[0], times)
  {
    var e := events[0];
    var missing := Delayed(e, st.defaultRate);
    var b := TokenBucket(st.defaultBurst - missing, e.now, st.defaultRate, st.defaultBurst);
    hide *;
    FirstTime(events, client, times);
    LateStart(st, e);
    SameFromFirstCall(st, events, client, b);
    AnswersAreEager(st.(buckets := st.buckets[client := b]), events, client, times[0], times);
  }

  /** A bucket that refills to the same at the first call makes no difference. */
  lemma SameFromFirstCall(st: State, events: seq<Event>, client: string, b: TokenBucket)
    requires events != [] && events[0].Allow? && events[0].client == client && client !in st.buckets
    requires Refill(b, events[0].now) == Refilled(st, events[0])
    ensures Answers(st.(buckets := st.buckets[client := b]), events, client) == Answers(st, events, client)
  {
    var e := events[0];
    var with := st.(buckets := st.buckets[client := b]);
    hide Refill, Spend, Admits;
    assert Refilled(with, e) == Refilled(st, e);
    assert with.buckets[client := Spend(Refilled(st, e))] == st.buckets[client := Spend(Refilled(st, e))];
    assert Next(with, e) == Next(st, e);
  }

  lemma FirstTime(events: seq<Event>, client: string, times: seq<int>)
    requires events != [] && events[0].Allow? && events[0].client == client && times != []
    requires CallTimes(events, client) == InNanoseconds(times)
    ensures events[0].now == times[0] * 1_000_000
  {
    assert CallTimes(events, client)[0] == events[0].now;
  }

  lemma DelayIsEarned(e: Event, rate: real)
    requires e.Allow?
    ensures Delayed(e, rate) == Earned((e.born - e.now) / 1_000_000, rate)
  {
  }

  /** A late birth costs what the rate earns in the delay. */
  lemma LateStart(st: State, e: Event)
    requires e.Allow? && e.client !in st.buckets && st.defaultRate >= 0.0 && e.now <= e.born
    ensures Delayed(e, st.defaultRate) >= 0.0
    ensures var b := TokenBucket(st.defaultBurst - Delayed(e, st.defaultRate), e.now, st.defaultRate, st.defaultBurst);
            Refill(b, e.now) == Refilled(st, e)
  {
    var late := (e.born - e.now) / 1_000_000;
    EarnedNonNegative(late, st.defaultRate);
    DelayIsEarned(e, st.defaultRate);
    assert Milliseconds(e.now - e.born) == -late && Milliseconds(0) == 0;
    EarnedOpposite(late, st.defaultRate);
    EarnedOpposite(0, st.defaultRate);
    hide Earned, Delayed, Milliseconds;
  }

  /** A new rate counts from the client's last call on, not from the change. */
  lemma RateCountsFromLastCall(st: State, events: seq<Event>, client: string, rate: real, born: int,
                               last: int, times: seq<int>)
    requires client in st.buckets && AllLeaveAlone(events, client) && rate >= 0.0
    requires st.buckets[client].tokens <= st.buckets[client].maxTokens
    requires st.buckets[client].lastRefill == last * 1_000_000
    requires Ordered(last, times) && CallTimes(events, client) == InNanoseconds(times)
    ensures var b := st.buckets[client];
            Answers(Next(st, SetRate(client, rate, born)), events, client) ==
            EagerRun(b.tokens, rate, b.maxTokens, last, times)
  {
    hide Answers, EagerRun, CallTimes, InNanoseconds;
    AnswersAreEager(Next(st, SetRate(client, rate, born)), events, client, last, times);
  }

  /** So does a new burst, and it takes away at once what no longer fits. */
  lemma BurstCountsFromLastCall(st: State, events: seq<Event>, client: string, burst: nat, born: int,
                                last: int, times: seq<int>)
    requires client in st.buckets && AllLeaveAlone(events, client) && st.buckets[client].rate >= 0.0
    requires st.buckets[client].lastRefill == last * 1_000_000
    requires Ordered(last, times) && CallTimes(events, client) == InNanoseconds(times)
    ensures var b := st.buckets[client];
            Answers(Next(st, SetBurst(client, burst, born)), events, client) ==
            EagerRun(if b.tokens > burst as real then burst as real else b.tokens, b.rate, burst as real, last, times)
  {
    hide Answers, EagerRun, CallTimes, InNanoseconds;
    AnswersAreEager(Next(st, SetBurst(client, burst, born)), events, client, last, times);
  }

  /** Set before its first call, a client has a full bucket from then on. */
  lemma SetBeforeFirstCall(st: State, events: seq<Event>, client: string, rate: real, burst: nat,
                           last: int, times: seq<int>)
    requires client !in st.buckets && AllLeaveAlone(events, client) && rate >= 0.0 && st.defaultRate >= 0.0
    requires Ordered(last, times) && CallTimes(events, client) == InNanoseconds(times)
    ensures Answers(Next(st, SetRate(client, rate, last * 1_000_000)), events, client) ==
            EagerRun(st.defaultBurst, rate, st.defaultBurst, last, times)
    ensures Answers(Next(st, SetBurst(client, burst, last * 1_000_000)), events, client) ==
            EagerRun(burst as real, st.defaultRate, burst as real, last, times)
  {
    hide Answers, EagerRun, CallTimes, InNanoseconds;
    AnswersAreEager(Next(st, SetRate(client, rate, last * 1_000_000)), events, client, last, times);
    AnswersAreEager(Next(st, SetBurst(client, burst, last * 1_000_000)), events, client, last, times);
  }

  /** After a reset a client is answered as one that never called, and by the defaults of that time. */
  lemma ResetStartsOver(st: State, events: seq<Event>, client: string, rate: real, burst: nat, times: seq<int>)
    requires rate >= 0.0 && AllLeaveAlone(events, client) && CallTimes(events, client) == InNanoseconds(times)
    requires events != [] && events[0].Allow? && events[0].client == client && events[0].now <= events[0].born
    requires times != [] && Ordered(times[0], times)
    ensures Answers(Next(Next(st, Reset(client)), Configure(rate, burst)), events, client) ==
            EagerRun(burst as real - Delayed(events[0], rate), rate, burst as real, times[0], times)
  {
    hide Answers, EagerRun, CallTimes, InNanoseconds, Delayed;
    FirstAnswersAreEager(Next(Next(st, Reset(client)), Configure(rate, burst)), events, client, times);
  }

  /** At any times: never more than the continuous bucket, and behind it by the truncation only. */
  lemma RunBelowFluid(st: State, events: seq<Event>, client: string)
    requires client in st.buckets && AllLeaveAlone(events, client) && Sane(st.buckets[client])
    requires Ordered(st.buckets[client].lastRefill, CallTimes(events, client))
    ensures var b, times := st.buckets[client], CallTimes(events, client);
            TokensOf(Run(st, events), client) <= FluidTokens(b.tokens, b, times)
            <= TokensOf(Run(st, events), client) + Truncated(|times|, b.rate)
  {
    hide Answers, LazyRun, CallTimes, Run, Truncated, TokensOf;
    AnswersAreLazy(st, events, client);
    LazyBelowFluid(st.buckets[client], st.buckets[client].tokens, CallTimes(events, client), 0.0);
  }
}
