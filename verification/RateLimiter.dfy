/** The per-peer token bucket (go/node/transport.go).  Times are integer nanoseconds that never decrease. */
module RateLimiter {

  const SECOND: int := 1_000_000_000

  /** maxTokens and refillRate (tokens per second) of one limiter. */
  datatype Config = Config(maxTokens: int, refillRate: int)

  datatype Bucket = Bucket(tokens: int, lastRefill: int)

  function NewBucket(c: Config, now: int): Bucket
  {
    Bucket(c.maxTokens, now)
  }

  /** int(elapsed.Seconds()): whole seconds, for a non-negative elapsed time. */
  function WholeSeconds(elapsed: int): int
  {
    elapsed / SECOND
  }

  function Min(a: int, b: int): int
  {
    if a < b then a else b
  }

  function Refill(c: Config, b: Bucket, now: int): Bucket
  {
    var add := WholeSeconds(now - b.lastRefill) * c.refillRate;
    if add > 0 then Bucket(Min(b.tokens + add, c.maxTokens), now) else b
  }

  /** The bucket after one call of Allow, and whether the call was granted. */
  function Take(c: Config, b: Bucket, now: int): (Bucket, bool)
  {
    var r := Refill(c, b, now);
    if r.tokens > 0 then (r.(tokens := r.tokens - 1), true) else (r, false)
  }

  predicate Ordered(times: seq<int>)
  {
    forall i, j | 0 <= i <= j < |times| :: times[i] <= times[j]
  }

  /** The bucket after calls at these times, and how many of them were granted. */
  function After(c: Config, b: Bucket, times: seq<int>): Bucket
    decreases |times|
  {
    if times == [] then b else After(c, Take(c, b, times[0]).0, times[1..])
  }

  function Grants(c: Config, b: Bucket, times: seq<int>): nat
    decreases |times|
  {
    if times == [] then 0
    else
      var (b', ok) := Take(c, b, times[0]);
      (if ok then 1 else 0) + Grants(c, b', times[1..])
  }

  /** What a limiter can grant at once: one whose maximum is negative never grants anything. */
  function Burst(c: Config): nat
  {
    if c.maxTokens > 0 then c.maxTokens else 0
  }

  /** Between 0 and the maximum, or stuck at a maximum that is negative. */
  predicate InRange(c: Config, b: Bucket)
  {
    if c.maxTokens >= 0 then 0 <= b.tokens <= c.maxTokens else b.tokens == c.maxTokens
  }

  /** The tokens that can be spent. */
  function Held(b: Bucket): nat
  {
    if b.tokens > 0 then b.tokens else 0
  }

  /** Tokens per second that can arrive: a rate that is not positive never refills. */
  function Inflow(c: Config): nat
  {
    if c.refillRate > 0 then c.refillRate else 0
  }

  lemma FloorSum(a: int, b: int)
    requires a >= 0 && b >= 0
    ensures WholeSeconds(a) + WholeSeconds(b) <= WholeSeconds(a + b)
  {
  }

  lemma MulMonotone(k: nat, x: int, y: int)
    requires k == 0 || x <= y
    ensures k * x <= k * y
  {
  }

  lemma WholeTokens(c: Config, e: int)
    requires e >= 0
    ensures WholeSeconds(e) * c.refillRate > 0 <==> WholeSeconds(e) > 0 && c.refillRate > 0
    ensures WholeSeconds(e) * c.refillRate > 0 ==> WholeSeconds(e) * c.refillRate == Inflow(c) * WholeSeconds(e)
  {
    if WholeSeconds(e) > 0 && c.refillRate <= 0 {
      assert WholeSeconds(e) * c.refillRate <= 0;
    }
  }

  /** Tokens held plus tokens that can still arrive by end never grow, and every grant takes one. */
  lemma StepSpends(c: Config, b: Bucket, now: int, end: int)
    requires InRange(c, b) && b.lastRefill <= now <= end
    ensures var (b', ok) := Take(c, b, now);
            && InRange(c, b') && b.lastRefill <= b'.lastRefill <= now
            && Held(b') + Inflow(c) * WholeSeconds(end - b'.lastRefill) + (if ok then 1 else 0)
               <= Held(b) + Inflow(c) * WholeSeconds(end - b.lastRefill)
  {
    var e, k := now - b.lastRefill, Inflow(c);
    WholeTokens(c, e);
    if WholeSeconds(e) * c.refillRate > 0 {
      FloorSum(e, end - now);
      MulMonotone(k, WholeSeconds(e) + WholeSeconds(end - now), WholeSeconds(end - b.lastRefill));
      assert k * (WholeSeconds(e) + WholeSeconds(end - now)) == k * WholeSeconds(e) + k * WholeSeconds(end - now);
    }
  }

  lemma {:induction false} GrantsAreBudgeted(c: Config, b: Bucket, times: seq<int>, end: int)
    requires InRange(c, b) && Ordered(times) && (times != [] ==> b.lastRefill <= times[0] && times[|times| - 1] <= end)
    requires b.lastRefill <= end
    ensures Grants(c, b, times) <= Held(b) + Inflow(c) * WholeSeconds(end - b.lastRefill)
    decreases |times|
  {
    if times != [] {
      StepSpends(c, b, times[0], end);
      GrantsAreBudgeted(c, Take(c, b, times[0]).0, times[1..], end);
    } else {
      assert Inflow(c) * WholeSeconds(end - b.lastRefill) >= 0;
    }
  }

  /** T nanoseconds in seconds, rounded up. */
  function CeilSeconds(t: nat): nat
  {
    (t + SECOND - 1) / SECOND
  }

  /** A clock less than a second behind the window's start adds no more than rounding up does. */
  lemma LateClock(last: int, first: int, end: int)
    requires last <= first <= end && WholeSeconds(first - last) == 0
    ensures WholeSeconds(end - last) <= CeilSeconds(end - first)
  {
    assert end - last <= end - first + SECOND - 1;
  }

  lemma SameAfterRefill(c: Config, b: Bucket, now: int)
    requires b.lastRefill <= now
    ensures Take(c, Refill(c, b, now), now) == Take(c, b, now)
  {
    assert WholeSeconds(0) == 0;
  }

  /** When the first call refills, it restarts the clock at the window's start. */
  lemma {:induction false} WindowFromRefill(c: Config, b: Bucket, times: seq<int>, end: int)
    requires InRange(c, b) && Ordered(times) && times != [] && b.lastRefill <= times[0] && end == times[|times| - 1]
    requires WholeSeconds(times[0] - b.lastRefill) * c.refillRate > 0
    ensures Grants(c, b, times) <= Burst(c) + Inflow(c) * CeilSeconds(end - times[0])
  {
    var r := Refill(c, b, times[0]);
    SameAfterRefill(c, b, times[0]);
    assert Grants(c, b, times) == Grants(c, r, times);
    GrantsAreBudgeted(c, r, times, end);
    MulMonotone(Inflow(c), WholeSeconds(end - times[0]), CeilSeconds(end - times[0]));
  }

  lemma {:induction false} WindowWithoutRefill(c: Config, b: Bucket, times: seq<int>, end: int)
    requires InRange(c, b) && Ordered(times) && times != [] && b.lastRefill <= times[0] && end == times[|times| - 1]
    requires WholeSeconds(times[0] - b.lastRefill) * c.refillRate <= 0
    ensures Grants(c, b, times) <= Burst(c) + Inflow(c) * CeilSeconds(end - times[0])
  {
    WholeTokens(c, times[0] - b.lastRefill);
    var k, x, y := Inflow(c), WholeSeconds(end - b.lastRefill), CeilSeconds(end - times[0]);
    GrantsAreBudgeted(c, b, times, end);
    assert k == 0 || x <= y by {
      if k != 0 {
        LateClock(b.lastRefill, times[0], end);
      }
    }
    MulMonotone(k, x, y);
  }

  /** The grants among any calls that start from a reachable bucket. */
  lemma {:induction false} WindowFromBucket(c: Config, b: Bucket, times: seq<int>)
    requires InRange(c, b) && Ordered(times) && times != [] && b.lastRefill <= times[0]
    ensures Grants(c, b, times) <= Burst(c) + Inflow(c) * CeilSeconds(times[|times| - 1] - times[0])
  {
    var end := times[|times| - 1];
    if WholeSeconds(times[0] - b.lastRefill) * c.refillRate > 0 {
      WindowFromRefill(c, b, times, end);
    } else {
      WindowWithoutRefill(c, b, times, end);
    }
  }

  lemma {:induction false} AfterInRange(c: Config, b: Bucket, times: seq<int>)
    requires InRange(c, b) && Ordered(times) && (times != [] ==> b.lastRefill <= times[0])
    ensures InRange(c, After(c, b, times))
    ensures After(c, b, times).lastRefill <= if times == [] then b.lastRefill else times[|times| - 1]
    decreases |times|
  {
    if times != [] {
      StepSpends(c, b, times[0], times[0]);
      AfterInRange(c, Take(c, b, times[0]).0, times[1..]);
    }
  }

  /**
   For any calls of Allow on a new limiter, at times that never decrease: the tokens stay between 0 and
   maxTokens (or at a negative maxTokens), and any window of consecutive calls i..j grants at most maxTokens plus
   refillRate for each second of the window, rounded up.
   */
  lemma {:induction false} WindowBound(c: Config, start: int, times: seq<int>, i: nat, j: nat)
    requires Ordered(times) && i < j <= |times| && start <= times[0]
    ensures InRange(c, After(c, NewBucket(c, start), times[..i]))
    ensures Grants(c, After(c, NewBucket(c, start), times[..i]), times[i..j])
         <= Burst(c) + Inflow(c) * CeilSeconds(times[j - 1] - times[i])
  {
    AfterInRange(c, NewBucket(c, start), times[..i]);
    WindowFromBucket(c, After(c, NewBucket(c, start), times[..i]), times[i..j]);
  }

  // ---------- and it does grant ----------

  /** A call is refused exactly when the limiter never grants, or its tokens are spent and no second has passed. */
  lemma RefusedExactly(c: Config, b: Bucket, now: int)
    requires InRange(c, b) && b.lastRefill <= now
    ensures !Take(c, b, now).1 <==>
              c.maxTokens <= 0 || (b.tokens == 0 && (c.refillRate <= 0 || now - b.lastRefill < SECOND))
  {
    WholeTokens(c, now - b.lastRefill);
  }

  /** With that many tokens in the bucket that many calls are granted, whenever they come. */
  lemma {:induction false} EnoughTokens(c: Config, b: Bucket, times: seq<int>)
    requires InRange(c, b) && Ordered(times) && (times != [] ==> b.lastRefill <= times[0]) && |times| <= Held(b)
    ensures Grants(c, b, times) == |times|
    decreases |times|
  {
    if times != [] {
      StepSpends(c, b, times[0], times[0]);
      WholeTokens(c, times[0] - b.lastRefill);
      EnoughTokens(c, Take(c, b, times[0]).0, times[1..]);
    }
  }

  /** Within a second of the last refill only the tokens in the bucket are granted, and all of them. */
  lemma {:induction false} OnlyTheTokens(c: Config, b: Bucket, times: seq<int>)
    requires forall i | 0 <= i < |times| :: b.lastRefill <= times[i] < b.lastRefill + SECOND
    ensures Grants(c, b, times) == Min(|times|, Held(b))
    decreases |times|
  {
    if times != [] {
      assert WholeSeconds(times[0] - b.lastRefill) == 0;
      OnlyTheTokens(c, Take(c, b, times[0]).0, times[1..]);
    }
  }

  /** A refill adds the rate for every whole second, up to the maximum, and starts the next second at its own time. */
  lemma {:induction false} GrantsAfterRefill(c: Config, b: Bucket, times: seq<int>)
    requires InRange(c, b) && c.maxTokens >= 0 && c.refillRate > 0 && Ordered(times) && times != []
    requires times[0] - b.lastRefill >= SECOND && times[|times| - 1] - times[0] < SECOND
    ensures Grants(c, b, times)
         == Min(|times|, Min(b.tokens + WholeSeconds(times[0] - b.lastRefill) * c.refillRate, c.maxTokens))
  {
    WholeTokens(c, times[0] - b.lastRefill);
    SameAfterRefill(c, b, times[0]);
    var r := Refill(c, b, times[0]);
    assert Grants(c, b, times) == Grants(c, r, times);
    OnlyTheTokens(c, r, times);
  }

  /** The time since which a limiter has been idle, before call i. */
  function IdleSince(start: int, times: seq<int>, i: nat): int
    requires i <= |times|
  {
    if i == 0 then start else times[i - 1]
  }

  /** An idle time worth maxTokens fills the bucket, although the seconds of a refill are rounded down. */
  lemma IdleFills(c: Config, b: Bucket, since: int, now: int)
    requires InRange(c, b) && b.lastRefill <= since <= now && c.maxTokens > 0
    requires WholeSeconds(now - since) * c.refillRate >= c.maxTokens
    ensures Refill(c, b, now) == Bucket(c.maxTokens, now)
  {
    WholeTokens(c, now - since);
    FloorSum(now - since, since - b.lastRefill);
    assert WholeSeconds(since - b.lastRefill) >= 0;
    hide WholeSeconds;
    MulMonotone(c.refillRate, WholeSeconds(now - since), WholeSeconds(now - b.lastRefill));
  }

  /** For any history of a new limiter: after an idle time worth maxTokens the next maxTokens calls are all granted. */
  lemma {:induction false} IdleRestoresBurst(c: Config, start: int, times: seq<int>, i: nat, j: nat)
    requires Ordered(times) && i < j <= |times| && start <= times[0] && j - i <= c.maxTokens
    requires WholeSeconds(times[i] - IdleSince(start, times, i)) * c.refillRate >= c.maxTokens
    ensures Grants(c, After(c, NewBucket(c, start), times[..i]), times[i..j]) == j - i
  {
    AfterInRange(c, NewBucket(c, start), times[..i]);
    hide After, Refill, Take, WholeSeconds;
    var b := After(c, NewBucket(c, start), times[..i]);
    assert b.lastRefill <= IdleSince(start, times, i) <= times[i];
    IdleFills(c, b, IdleSince(start, times, i), times[i]);
    SameAfterRefill(c, b, times[i]);
    var r := Refill(c, b, times[i]);
    assert times[i..j][0] == times[i];
    assert Grants(c, b, times[i..j]) == Grants(c, r, times[i..j]);
    EnoughTokens(c, r, times[i..j]);
  }

  /** Calls a second or more apart are all granted. */
  lemma {:induction false} SlowCallsAreGranted(c: Config, b: Bucket, times: seq<int>)
    requires InRange(c, b) && c.maxTokens > 0 && c.refillRate > 0
    requires times != [] ==> times[0] - b.lastRefill >= SECOND
    requires forall i, j | 0 <= i < j < |times| :: times[j] - times[i] >= SECOND
    ensures Grants(c, b, times) == |times|
    decreases |times|
  {
    if times != [] {
      RefusedExactly(c, b, times[0]);
      StepSpends(c, b, times[0], times[0]);
      var b' := Take(c, b, times[0]).0;
      SlowCallsAreGranted(c, b', times[1..]);
    }
  }

  class PeerRateLimiter {
    const config: Config
    var tokens: int
    var lastRefill: int

    ghost function Value(): Bucket
      reads this
    {
      Bucket(tokens, lastRefill)
    }

    constructor (maxTokens: int, refillRate: int, now: int)
      ensures config == Config(maxTokens, refillRate) && Value() == NewBucket(config, now)
    {
      config := Config(maxTokens, refillRate);
      tokens, lastRefill := maxTokens, now;
    }

    method Allow(now: int) returns (ok: bool)
      modifies this
      ensures (Value(), ok) == Take(config, old(Value()), now)
    {
      var elapsed := now - lastRefill;
      var tokensToAdd := WholeSeconds(elapsed) * config.refillRate;
      if tokensToAdd > 0 {
        tokens := Min(tokens + tokensToAdd, config.maxTokens);
        lastRefill := now;
      }
      if tokens > 0 {
        tokens := tokens - 1;
        return true;
      }
      return false;
    }
  }
}
