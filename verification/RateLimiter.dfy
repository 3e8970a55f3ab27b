/**
 The upload rate limiter: a token bucket refilled by a periodic timer.  The timer counts down by
 the time that passed and raises an alarm when that uses it up; the overshoot is dropped.
 */
module RateLimiter {
  import opened Arithmetic
  import opened Words

  /** `refill` is the number of tokens one alarm adds, a fixed share of the bucket size. */
  datatype Config = Config(bucketSize: Uint32, refill: Uint32, period: nat)

  datatype State = State(tokens: Uint32, timer: nat)

  function Initial(c: Config): State {
    State(c.bucketSize, c.period)
  }

  function Replenished(c: Config, tokens: Uint32, replaced: Uint32): Uint32 {
    var sum := ToUint32(tokens as int + replaced);
    if sum > c.bucketSize then c.bucketSize else sum
  }

  datatype Op = Elapse(diff: nat) | Request(tokens: Uint32)

  predicate Fires(s: State, op: Op) {
    op.Elapse? && s.timer <= op.diff
  }

  predicate Grants(s: State, op: Op) {
    op.Request? && s.tokens >= op.tokens
  }

  function Step(c: Config, s: State, op: Op): State {
    match op
    case Elapse(diff) =>
      if s.timer <= diff then State(Replenished(c, s.tokens, c.refill), c.period)
      else s.(timer := s.timer - diff)
    case Request(n) =>
      if s.tokens >= n then s.(tokens := s.tokens - n) else s
  }

  // ---- runs --------------------------------------------------------------------------

  datatype History = History(elapsed: nat, alarms: nat, granted: nat)

  ghost function Run(c: Config, s: State, ops: seq<Op>): (State, History) {
    if ops == [] then (s, History(0, 0, 0))
    else
      var n := |ops| - 1;
      var (s', h) := Run(c, s, ops[..n]);
      var op := ops[n];
      (Step(c, s', op), History(h.elapsed + (if op.Elapse? then op.diff else 0),
                                h.alarms + (if Fires(s', op) then 1 else 0),
                                h.granted + (if Grants(s', op) then op.tokens else 0)))
  }

  /**
   The bucket never overflows, an alarm needs a full period, and what was granted is paid for by
   the first fill and the refills.  This holds even where the 32-bit addition of tokens wraps.
   */
  lemma {:induction false} BucketInvariant(c: Config, ops: seq<Op>)
    ensures var (s, h) := Run(c, Initial(c), ops);
            && s.tokens <= c.bucketSize
            && s.timer <= c.period
            && h.alarms * c.period + (c.period - s.timer) <= h.elapsed
            && h.granted + s.tokens <= c.bucketSize + h.alarms * c.refill
  {
    if ops != [] {
      var n := |ops| - 1;
      BucketInvariant(c, ops[..n]);
      var (s, h) := Run(c, Initial(c), ops[..n]);
      if Fires(s, ops[n]) {
        OneMore(h.alarms, c.period);
        OneMore(h.alarms, c.refill);
      }
    }
  }

  /** The rate bound: tokens granted over any run from start-up, by the time that passed. */
  lemma RateBound(c: Config, ops: seq<Op>)
    requires c.period > 0
    ensures var h := Run(c, Initial(c), ops).1;
            && h.alarms <= h.elapsed / c.period
            && h.granted <= c.bucketSize + (h.elapsed / c.period) * c.refill
  {
    BucketInvariant(c, ops);
    var h := Run(c, Initial(c), ops).1;
    QuotientBound(h.alarms, c.period, h.elapsed);
    MulMonotone(h.alarms, h.elapsed / c.period, c.refill);
  }

  // ---- progress of a waiting sender ---------------------------------------------------

  /** Adding tokens is "add, then cut at the bucket size" exactly when the sum fits in 32 bits. */
  lemma IncTokenExact(c: Config, tokens: Uint32, replaced: Uint32)
    requires tokens <= c.bucketSize
    ensures Replenished(c, tokens, replaced) as int
              == (if tokens + replaced <= c.bucketSize then tokens + replaced else c.bucketSize)
            <==> tokens + replaced < 0x1_0000_0000
  {
  }

  /** The tokens after `k` alarms with nobody drawing. */
  function AfterAlarms(c: Config, tokens: Uint32, k: nat): Uint32 {
    if k == 0 then tokens else Replenished(c, AfterAlarms(c, tokens, k - 1), c.refill)
  }

  /** `n` tokens more, cut at the bucket size. */
  function Filled(c: Config, tokens: Uint32, n: nat): nat {
    if tokens + n <= c.bucketSize then tokens + n else c.bucketSize
  }

  lemma {:induction false} AlarmsFill(c: Config, tokens: Uint32, k: nat)
    requires tokens <= c.bucketSize && c.bucketSize as int + c.refill < 0x1_0000_0000
    ensures AfterAlarms(c, tokens, k) as int == Filled(c, tokens, k * c.refill)
  {
    if k > 0 {
      var before := (k - 1) * c.refill;
      AlarmsFill(c, tokens, k - 1);
      OneFill(c, tokens, before, AfterAlarms(c, tokens, k - 1));
      assert k * c.refill == before + c.refill by { OneMore(k - 1, c.refill); }
    } else {
      assert k * c.refill == 0;
    }
  }

  lemma OneFill(c: Config, tokens: Uint32, n: nat, now: Uint32)
    requires tokens <= c.bucketSize && c.bucketSize as int + c.refill < 0x1_0000_0000
    requires now as int == Filled(c, tokens, n)
    ensures Replenished(c, now, c.refill) as int == Filled(c, tokens, n + c.refill)
  {
  }

  /**
   The sender's loop "while DecToken fails, wait for a refill" ends exactly for requests that fit
   into the bucket; a larger message waits for ever.
   */
  lemma WaitingSenderIsServed(c: Config, tokens: Uint32, n: Uint32)
    requires tokens <= c.bucketSize && c.bucketSize as int + c.refill < 0x1_0000_0000 && c.refill > 0
    ensures (exists k :: AfterAlarms(c, tokens, k) >= n) <==> n <= c.bucketSize
  {
    if n <= c.bucketSize {
      MulMonotone(1, c.refill, n);
      AlarmsFill(c, tokens, n);
      assert AfterAlarms(c, tokens, n) >= n;
    } else {
      forall k ensures AfterAlarms(c, tokens, k) < n { AlarmsFill(c, tokens, k); }
    }
  }

  // ---- the bucket object ---------------------------------------------------------------

  class LeakyBucket {
    const bucketSize: Uint32
    const refill: Uint32
    var tokens: Uint32
    var timer: seq<nat>
    const period: seq<nat>

    ghost function Configuration(): Config
      requires |period| == 1
    {
      Config(bucketSize, refill, period[0])
    }

    ghost predicate Valid()
      reads this
    {
      |period| == 1 && |timer| == 1
    }

    ghost function View(): State
      requires Valid()
      reads this
    {
      State(tokens, timer[0])
    }

    constructor (bucketSize: Uint32, refill: Uint32, timerPeriod: nat)
      ensures Valid() && Configuration() == Config(bucketSize, refill, timerPeriod)
      ensures View() == Initial(Configuration())
    {
      this.bucketSize := bucketSize;
      this.refill := refill;
      this.tokens := bucketSize;
      this.period := [timerPeriod];
      this.timer := [timerPeriod];
    }

    method IncToken(tokensReplaced: Uint32)
      requires Valid()
      modifies this`tokens
      ensures tokens == Replenished(Configuration(), old(tokens), tokensReplaced)
    {
      tokens := ToUint32(tokens as int + tokensReplaced);
      if tokens > bucketSize {
        tokens := bucketSize;
      }
    }

    method DecToken(tokensRequested: Uint32) returns (ok: bool)
      requires Valid()
      modifies this`tokens
      ensures ok == Grants(old(View()), Request(tokensRequested))
      ensures View() == Step(Configuration(), old(View()), Request(tokensRequested))
    {
      ok := tokens >= tokensRequested;
      if ok {
        tokens := tokens - tokensRequested;
      }
    }

    method UpdateTimer(diffTime: nat)
      requires Valid()
      modifies this
      ensures Valid() && View() == Step(Configuration(), old(View()), Elapse(diffTime))
    {
      for i := 0 to |period|
        invariant Valid()
        invariant View() == if i == 0 then old(View()) else Step(Configuration(), old(View()), Elapse(diffTime))
      {
        if timer[i] <= diffTime {
          IncToken(refill);
          timer := timer[i := period[i]];
        } else {
          timer := timer[i := timer[i] - diffTime];
        }
      }
    }
  }
}
