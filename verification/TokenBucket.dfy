/**
 The token bucket behind every rate limit, over real numbers: `capacity`
 tokens, refilled continuously, one token per allowed request.
 */
module TokenBucket {

  datatype Quota = Quota(capacity: real, refill: real)

  datatype Bucket = Bucket(tokens: real, lastSeen: real)

  datatype Decision = Allow | Deny(retryAfterSeconds: nat)

  /** Buckets idle for this many seconds are dropped. */
  const IDLE_EVICTION: real := 3600.0

  function Fresh(q: Quota, now: real): Bucket {
    Bucket(q.capacity, now)
  }

  /** Tokens refilled over a time. */
  function Gain(elapsed: real, rate: real): real {
    elapsed * rate
  }

  /** How long it takes to refill that many tokens. */
  function SecondsFor(tokens: real, rate: real): real
    requires rate > 0.0
  {
    tokens / rate
  }

  /** Tokens available at `now`; a clock that has not advanced refills nothing. */
  function Refilled(b: Bucket, now: real, q: Quota): real {
    var elapsed := if now < b.lastSeen then 0.0 else now - b.lastSeen;
    var tokens := b.tokens + Gain(elapsed, q.refill);
    if tokens < q.capacity then tokens else q.capacity
  }

  /** Whole seconds until one token is available, at least one. */
  function RetryAfter(tokens: real, q: Quota): (seconds: nat)
    ensures seconds >= 1
  {
    if q.refill <= 0.0 then 3600
    else
      var missing := if tokens < 1.0 then 1.0 - tokens else 0.0;
      var seconds := SecondsFor(missing, q.refill).Floor;
      if seconds < 1 then 1 else seconds
  }

  function Consume(b: Bucket, now: real, q: Quota): (Bucket, Decision) {
    var tokens := Refilled(b, now, q);
    if tokens >= 1.0 then (Bucket(tokens - 1.0, now), Allow)
    else (Bucket(tokens, now), Deny(RetryAfter(tokens, q)))
  }

  // ----- Runs of one bucket under a fixed quota -----

  function After(b: Bucket, times: seq<real>, q: Quota): Bucket
    decreases |times|
  {
    if times == [] then b else After(Consume(b, times[0], q).0, times[1..], q)
  }

  function Decisions(b: Bucket, times: seq<real>, q: Quota): (ds: seq<Decision>)
    ensures |ds| == |times|
    decreases |times|
  {
    if times == [] then []
    else [Consume(b, times[0], q).1] + Decisions(Consume(b, times[0], q).0, times[1..], q)
  }

  function Allows(ds: seq<Decision>): nat {
    if ds == [] then 0 else (if ds[0].Allow? then 1 else 0) + Allows(ds[1..])
  }

  /** Checks at times that never go back, from a bucket last seen before them. */
  ghost predicate Chronological(b: Bucket, times: seq<real>) {
    && (times != [] ==> b.lastSeen <= times[0])
    && (forall i, j :: 0 <= i < j < |times| ==> times[i] <= times[j])
  }

  /** Nothing is negative. A bucket filled under an earlier quota may hold more than this one's capacity. */
  ghost predicate Reasonable(b: Bucket, q: Quota) {
    0.0 <= b.tokens && 0.0 <= q.capacity && 0.0 <= q.refill
  }

  // ----- Real arithmetic used below -----

  lemma {:induction false} WaitCovers(tokens: real, wait: real, rate: real)
    requires tokens >= 0.0 && rate > 0.0
    ensures SecondsFor(tokens, rate) >= 0.0
    ensures wait >= SecondsFor(tokens, rate) <==> Gain(wait, rate) >= tokens
  {
    var exact := SecondsFor(tokens, rate);
    assert exact * rate == tokens;
    if wait >= exact { GainMonotone(exact, wait, rate); }
    else { assert wait * rate < exact * rate; }
  }

  lemma {:induction false} GainMonotone(a: real, b: real, rate: real)
    requires a <= b && rate >= 0.0
    ensures Gain(a, rate) <= Gain(b, rate)
    ensures Gain(0.0, rate) == 0.0
  {
  }

  lemma {:induction false} GainSplits(x: real, y: real, z: real, rate: real)
    ensures Gain(z - x, rate) == Gain(y - x, rate) + Gain(z - y, rate)
  {
  }

  /** A check leaves no negative tokens and never makes more than time refills. */
  lemma {:induction false} ConsumeKeepsReasonable(b: Bucket, now: real, q: Quota)
    requires Reasonable(b, q) && b.lastSeen <= now
    ensures Reasonable(Consume(b, now, q).0, q) && Consume(b, now, q).0.lastSeen == now
    ensures Refilled(b, now, q) <= b.tokens + Gain(now - b.lastSeen, q.refill)
  {
    hide Gain;
    GainMonotone(0.0, now - b.lastSeen, q.refill);
  }

  // ----- The rate bound -----

  /** One step of the accounting: tokens after a check, plus what is refilled until the next. */
  lemma {:induction false} OneCheckIsCovered(b: Bucket, first: real, second: real, last: real, q: Quota)
    requires Reasonable(b, q) && b.lastSeen <= first <= second <= last
    ensures var (b', d) := Consume(b, first, q);
            (if d.Allow? then 1.0 else 0.0) + Refilled(b', second, q) + Gain(last - second, q.refill)
            <= Refilled(b, first, q) + Gain(last - first, q.refill)
  {
    hide Gain;
    ConsumeKeepsReasonable(b, first, q);
    ConsumeKeepsReasonable(Consume(b, first, q).0, second, q);
    GainSplits(first, second, last, q.refill);
  }

  /** From the first check on, at most the tokens then available plus what is refilled. */
  lemma {:induction false} AllowsAreCovered(b: Bucket, times: seq<real>, q: Quota)
    requires Reasonable(b, q) && Chronological(b, times) && times != []
    ensures Allows(Decisions(b, times, q)) as real
            <= Refilled(b, times[0], q) + Gain(times[|times| - 1] - times[0], q.refill)
    decreases |times|
  {
    hide Gain;
    var (b', d) := Consume(b, times[0], q);
    var rest := times[1..];
    ConsumeKeepsReasonable(b, times[0], q);
    assert Decisions(b, times, q)[1..] == Decisions(b', rest, q);
    if rest == [] {
      GainMonotone(0.0, 0.0, q.refill);
      assert Decisions(b', rest, q) == [];
    } else {
      assert rest[0] == times[1] && rest[|rest| - 1] == times[|times| - 1];
      AllowsAreCovered(b', rest, q);
      OneCheckIsCovered(b, times[0], rest[0], rest[|rest| - 1], q);
    }
  }

  lemma {:induction false} DecisionsSplit(b: Bucket, times: seq<real>, q: Quota, i: nat)
    requires i <= |times| && Reasonable(b, q) && Chronological(b, times)
    ensures Reasonable(After(b, times[..i], q), q)
    ensures Chronological(After(b, times[..i], q), times[i..])
    ensures Decisions(b, times, q)[i..] == Decisions(After(b, times[..i], q), times[i..], q)
    decreases |times|
  {
    hide Gain;
    if i == 0 {
      assert times[..0] == [] && times[0..] == times;
    } else {
      var b' := Consume(b, times[0], q).0;
      ConsumeKeepsReasonable(b, times[0], q);
      DecisionsSplit(b', times[1..], q, i - 1);
      assert times[..i][0] == times[0] && times[..i][1..] == times[1..][..i - 1];
      assert times[i..] == times[1..][i - 1..];
      assert Decisions(b, times, q)[i..] == Decisions(b', times[1..], q)[i - 1..];
    }
  }

  lemma {:induction false} DecisionsOfPrefix(b: Bucket, times: seq<real>, q: Quota, n: nat)
    requires n <= |times|
    ensures Decisions(b, times, q)[..n] == Decisions(b, times[..n], q)
    decreases |times|
  {
    if n > 0 {
      DecisionsOfPrefix(Consume(b, times[0], q).0, times[1..], q, n - 1);
      assert times[..n][0] == times[0] && times[..n][1..] == times[1..][..n - 1];
    }
  }

  lemma {:induction false} WindowIsARun(b: Bucket, times: seq<real>, q: Quota, i: nat, j: nat)
    requires Reasonable(b, q) && Chronological(b, times)
    requires i < j <= |times|
    ensures var start := After(b, times[..i], q);
            && Reasonable(start, q) && Chronological(start, times[i..j])
            && Decisions(b, times, q)[i..j] == Decisions(start, times[i..j], q)
  {
    hide Gain;
    DecisionsSplit(b, times, q, i);
    DecisionsOfPrefix(After(b, times[..i], q), times[i..], q, j - i);
    assert times[i..][..j - i] == times[i..j];
    assert Decisions(b, times, q)[i..j] == Decisions(b, times, q)[i..][..j - i];
  }

  /**
   The limit that a token bucket is for: in every run, among the checks from
   the i-th to the last before the j-th, the number allowed is at most the
   capacity plus the refill over the time they span.
   */
  lemma {:induction false} RateBound(b: Bucket, times: seq<real>, q: Quota, i: nat, j: nat)
    requires Reasonable(b, q) && Chronological(b, times)
    requires i < j <= |times|
    ensures Allows(Decisions(b, times, q)[i..j]) as real <= q.capacity + Gain(times[j - 1] - times[i], q.refill)
  {
    hide Gain;
    WindowIsARun(b, times, q, i, j);
    AllowsAreCovered(After(b, times[..i], q), times[i..j], q);
  }

  /**
   The other side of the bound: an allow costs one token and no more, so a
   bucket that holds `n` tokens allows the next `n` checks, whenever they come.
   */
  lemma {:induction false} TokensBuyChecks(b: Bucket, times: seq<real>, q: Quota)
    requires |times| as real <= b.tokens && |times| as real <= q.capacity && 0.0 <= q.refill
    ensures forall i :: 0 <= i < |times| ==> Decisions(b, times, q)[i] == Allow
    decreases |times|
  {
    if times != [] {
      hide Gain;
      GainMonotone(0.0, if times[0] < b.lastSeen then 0.0 else times[0] - b.lastSeen, q.refill);
      var b' := Consume(b, times[0], q).0;
      assert b'.tokens >= |times[1..]| as real;
      TokensBuyChecks(b', times[1..], q);
    }
  }

  // ----- Denied polls -----

  /** A denied check leaves no trace: the next one goes exactly as if it had not happened. */
  lemma {:induction false} DeniedPollIsInvisible(b: Bucket, poll: real, later: real, q: Quota)
    requires 0.0 <= q.refill && b.lastSeen <= poll <= later
    requires Consume(b, poll, q).1.Deny?
    ensures Consume(Consume(b, poll, q).0, later, q) == Consume(b, later, q)
  {
    hide Gain;
    GainSplits(b.lastSeen, poll, later, q.refill);
    GainMonotone(0.0, poll - b.lastSeen, q.refill);
    GainMonotone(0.0, later - poll, q.refill);
  }

  /** However often a caller polls while denied, its admission comes no later. */
  lemma {:induction false} PollingNeverDelays(b: Bucket, polls: seq<real>, later: real, q: Quota)
    requires 0.0 <= q.refill && Chronological(b, polls + [later])
    requires Allows(Decisions(b, polls, q)) == 0
    ensures Consume(After(b, polls, q), later, q) == Consume(b, later, q)
    decreases |polls|
  {
    hide Gain;
    if polls != [] {
      var all := polls + [later];
      assert all[0] == polls[0] && all[|all| - 1] == later;
      var b' := Consume(b, polls[0], q).0;
      assert Decisions(b, polls, q)[0] == Consume(b, polls[0], q).1;
      assert Decisions(b, polls, q)[1..] == Decisions(b', polls[1..], q);
      assert polls[1..] + [later] == all[1..];
      PollingNeverDelays(b', polls[1..], later, q);
      DeniedPollIsInvisible(b, polls[0], later, q);
    }
  }

  // ----- The Retry-After hint -----

  lemma {:induction false} FloorCovers(x: real)
    requires x >= 0.0
    ensures x < (x.Floor + 1) as real && x.Floor as real <= x
  {
  }

  /**
   A denied caller that waits for the hint and one second more, and polls as it
   likes meanwhile without being allowed, is allowed then.
   */
  lemma {:induction false} OneSecondPastTheHintAdmits(b: Bucket, now: real, polls: seq<real>, wait: real, q: Quota)
    requires Reasonable(b, q) && 0.0 < q.refill && 1.0 <= q.capacity && b.lastSeen <= now
    requires var (b', d) := Consume(b, now, q);
             d.Deny? && wait >= d.retryAfterSeconds as real + 1.0 &&
             Chronological(b', polls + [now + wait]) && Allows(Decisions(b', polls, q)) == 0
    ensures Consume(After(Consume(b, now, q).0, polls, q), now + wait, q).1.Allow?
  {
    hide Gain, SecondsFor;
    var (b', d) := Consume(b, now, q);
    PollingNeverDelays(b', polls, now + wait, q);
    WaitCovers(1.0 - b'.tokens, wait, q.refill);
    FloorCovers(SecondsFor(1.0 - b'.tokens, q.refill));
  }

  /**
   The hint itself is rounded down, so waiting exactly that long is enough only
   when nothing was lost: when the exact wait is a whole number of seconds, or
   at most the one second the hint never goes below.
   */
  lemma {:induction false} HintSufficesIff(b: Bucket, now: real, q: Quota)
    requires Reasonable(b, q) && 0.0 < q.refill && 1.0 <= q.capacity && b.lastSeen <= now
    requires Consume(b, now, q).1.Deny?
    ensures var (b', d) := Consume(b, now, q);
            var exact := SecondsFor(1.0 - b'.tokens, q.refill);
            Consume(b', now + d.retryAfterSeconds as real, q).1.Allow?
            <==> exact <= 1.0 || exact == exact.Floor as real
  {
    hide Gain, SecondsFor;
    var (b', d) := Consume(b, now, q);
    WaitCovers(1.0 - b'.tokens, d.retryAfterSeconds as real, q.refill);
    FloorCovers(SecondsFor(1.0 - b'.tokens, q.refill));
  }

  /** A quota that never refills is hinted an hour, and nothing a caller waits for changes its answer. */
  lemma {:induction false} NoRefillNoHope(b: Bucket, now: real, later: real, q: Quota)
    requires q.refill == 0.0 && Consume(b, now, q).1.Deny?
    ensures Consume(b, now, q).1 == Deny(3600) && Consume(Consume(b, now, q).0, later, q).1 == Deny(3600)
  {
    assert Gain(0.0, 0.0) == 0.0;
    assert forall t: real :: Gain(t, q.refill) == 0.0;
  }

  /** Such a wait exists: at 0.4 tokens a second the hint is 2 and the caller needs 2.5 seconds. */
  lemma {:induction false} HintCanBeTooShort()
    ensures var q := Quota(1.0, 0.4);
            var (b, d) := Consume(Bucket(0.0, 0.0), 0.0, q);
            d == Deny(2) && Consume(b, 2.0, q).1.Deny? && Consume(b, 3.0, q).1.Allow?
  {
    assert 1.0 / 0.4 == 2.5;
    assert 2.5.Floor == 2;
  }

  // ----- Idle eviction -----

  /** Dropping the bucket, which a later check then recreates full, changes nothing. */
  ghost predicate EvictionUnobservable(q: Quota) {
    forall b: Bucket, now: real {:trigger Consume(b, now, q)} ::
      Reasonable(b, q) && now - b.lastSeen >= IDLE_EVICTION ==>
        Consume(b, now, q) == Consume(Fresh(q, now), now, q)
  }

  lemma {:induction false} IdleBucketIsFull(b: Bucket, now: real, q: Quota)
    requires Reasonable(b, q) && q.capacity <= q.refill * IDLE_EVICTION && now - b.lastSeen >= IDLE_EVICTION
    ensures Refilled(b, now, q) == q.capacity == Refilled(Fresh(q, now), now, q)
  {
    GainMonotone(IDLE_EVICTION, now - b.lastSeen, q.refill);
    assert q.refill * IDLE_EVICTION == IDLE_EVICTION * q.refill;
  }

  /** Eviction is unobservable exactly for quotas that refill within the idle time. */
  lemma {:induction false} EvictionUnobservableIff(q: Quota)
    requires 0.0 <= q.capacity && 0.0 <= q.refill
    ensures EvictionUnobservable(q) <==> q.capacity <= q.refill * IDLE_EVICTION
  {
    if q.capacity <= q.refill * IDLE_EVICTION {
      forall b: Bucket, now: real | Reasonable(b, q) && now - b.lastSeen >= IDLE_EVICTION
        ensures Consume(b, now, q) == Consume(Fresh(q, now), now, q)
      {
        IdleBucketIsFull(b, now, q);
      }
    } else {
      var drained := Bucket(0.0, 0.0);
      assert Reasonable(drained, q);
      assert Refilled(drained, IDLE_EVICTION, q) == IDLE_EVICTION * q.refill;
      assert Refilled(Fresh(q, IDLE_EVICTION), IDLE_EVICTION, q) == q.capacity;
      assert Consume(drained, IDLE_EVICTION, q).0.tokens != Consume(Fresh(q, IDLE_EVICTION), IDLE_EVICTION, q).0.tokens
             || Consume(drained, IDLE_EVICTION, q).1 != Consume(Fresh(q, IDLE_EVICTION), IDLE_EVICTION, q).1;
    }
  }

  /** The key's whole later history is the same, decisions and bucket alike. */
  lemma {:induction false} EvictedKeySeesTheSameFuture(b: Bucket, times: seq<real>, q: Quota)
    requires Reasonable(b, q) && q.capacity <= q.refill * IDLE_EVICTION
    requires times != [] && times[0] - b.lastSeen >= IDLE_EVICTION
    ensures Decisions(b, times, q) == Decisions(Fresh(q, times[0]), times, q)
    ensures After(b, times, q) == After(Fresh(q, times[0]), times, q)
  {
    EvictionUnobservableIff(q);
    assert Consume(b, times[0], q) == Consume(Fresh(q, times[0]), times[0], q);
  }

  /** The limits the Hub ships with. */
  function DefaultLimits(): seq<Quota> {
    [ Quota(10.0, 1.0 / 6.0),    // login per address
      Quota(10.0, 1.0 / 30.0),   // login per account
      Quota(3.0, 1.0 / 600.0),   // registration per address
      Quota(60.0, 1.0),          // session refresh per address
      Quota(60.0, 2.0),          // submissions per organization
      Quota(10.0, 1.0 / 10.0) ]  // federated sign-in per address
  }

  lemma {:induction false} DefaultLimitsAreUnaffectedByEviction()
    ensures forall i :: 0 <= i < |DefaultLimits()| ==> EvictionUnobservable(DefaultLimits()[i])
  {
    var limits := DefaultLimits();
    forall i | 0 <= i < |limits| ensures EvictionUnobservable(limits[i]) {
      assert limits[i].capacity <= limits[i].refill * IDLE_EVICTION && 0.0 <= limits[i].refill;
      EvictionUnobservableIff(limits[i]);
    }
  }
}
