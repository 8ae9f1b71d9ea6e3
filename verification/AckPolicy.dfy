/**
 * What happens to a stream message after its worker returned (omni-relayer/src/workers/mod.rs): acked,
 * terminated, or handed back with a growing delay. Durations and timestamps are whole seconds.
 */
module AckPolicy {
  import opened Wrappers
  import opened Arithmetic

  const U32_MAX: nat := 0xFFFF_FFFF
  const I64_MAX: int := 0x7FFF_FFFF_FFFF_FFFF
  const I64_MIN: int := -0x8000_0000_0000_0000

  datatype EventAction = Retry | RetryAfter(delay: nat) | Remove | Drop

  datatype WorkerError = WorkerError(message: string)
  type WorkerResult = Result<EventAction, WorkerError>

  datatype AckDecision = AckIt | NakWithBackoff(backoff: nat) | GiveUp | AgeOut

  function Pow(base: nat, exp: nat): nat {
    if exp == 0 then 1 else base * Pow(base, exp - 1)
  }

  /** `u64::saturating_pow`. */
  function SaturatingPow(base: nat, exp: nat): nat { Min(Pow(base, exp), U64_MAX) }

  function SaturatingPred(n: nat): nat { if n == 0 then 0 else n - 1 }

  function ComputeAckDecision(result: WorkerResult, age: nat, delivered: nat, maxBackoff: nat, maxAge: nat): AckDecision {
    match result
    case Ok(Remove) => AckIt
    case Ok(Drop) => GiveUp
    case Ok(RetryAfter(d)) => if age > maxAge then AgeOut else NakWithBackoff(Min(d, maxBackoff))
    case _ =>
      if age > maxAge then AgeOut
      else NakWithBackoff(Min(SaturatingPow(3, SaturatingPred(delivered)), maxBackoff))
  }

  // ----- Answering the stream -----

  datatype Config = Config(maxBackoffHours: nat, maxAgeHours: nat)

  function SecondsOfHours(h: nat): nat { Min(h * 3600, U64_MAX) }

  /** Delivery metadata of a message, when the client can read it. */
  datatype Info = Info(published: int, delivered: int)

  function Age(now: int, published: int): nat {
    var d := now - published;
    var clamped := if d > I64_MAX then I64_MAX else if d < I64_MIN then I64_MIN else d;
    if clamped < 0 then -clamped else clamped
  }

  function DeliveredCount(delivered: int): nat {
    if 0 <= delivered <= U32_MAX then delivered else U32_MAX
  }

  datatype Reply = SendAck | SendTerm | SendNak(delay: nat) | Silent

  function ReplyTo(d: AckDecision): Reply {
    match d
    case AckIt => SendAck
    case GiveUp => SendTerm
    case AgeOut => SendTerm
    case NakWithBackoff(delay) => SendNak(delay)
  }

  function DecisionFor(result: WorkerResult, info: Info, now: int, config: Config): AckDecision {
    ComputeAckDecision(result, Age(now, info.published), DeliveredCount(info.delivered),
                       SecondsOfHours(config.maxBackoffHours), SecondsOfHours(config.maxAgeHours))
  }

  predicate IsTerminal(result: WorkerResult) {
    result.Ok? && (result.value.Remove? || result.value.Drop?)
  }

  /** The message is past the age limit, as far as its metadata can be read. */
  predicate Expired(info: Option<Info>, now: int, config: Config) {
    info.Some? && Age(now, info.value.published) > SecondsOfHours(config.maxAgeHours)
  }

  /** A delivery that ends for good once the answer lands: its worker is done with it, or it is past the age limit. */
  predicate Ends(result: WorkerResult, expired: bool) { IsTerminal(result) || expired }

  /** Readable metadata, a message of the past, and limits that fit the machine's words. */
  ghost predicate Plain(info: Option<Info>, now: int, config: Config) {
    && info.Some? && 0 <= now - info.value.published <= I64_MAX && 1 <= info.value.delivered <= U32_MAX
    && config.maxBackoffHours * 3600 <= U64_MAX && config.maxAgeHours * 3600 <= U64_MAX
  }

  /** The answer, in the numbers of the configuration: `most` and `limit` are its two limits in seconds. */
  ghost predicate Answers(sent: Reply, result: WorkerResult, age: int, delivered: int, most: nat, limit: nat) {
    match result
    case Ok(Remove) => sent == SendAck
    case Ok(Drop) => sent == SendTerm
    case Ok(RetryAfter(wait)) =>
      if age > limit then sent == SendTerm
      else sent.SendNak? && sent.delay <= wait && sent.delay <= most && (sent.delay == wait || sent.delay == most)
    case _ =>
      if age > limit || delivered < 1 then sent == SendTerm
      else sent.SendNak? && sent.delay <= Pow(3, delivered - 1) && sent.delay <= most
           && (sent.delay == Pow(3, delivered - 1) || sent.delay == most)
  }

  /**
   * Answers the stream for one delivery; `landed` says whether the answer reached it. The message leaves the
   * queue exactly when a terminal answer landed. Worker verdicts that are terminal need no metadata.
   */
  method HandleNatsAck(result: WorkerResult, info: Option<Info>, now: int, config: Config, landed: bool)
    returns (left: bool, sent: Reply)
    ensures sent.Silent? <==> info.None? && !IsTerminal(result)
    ensures info.Some? ==> sent == ReplyTo(DecisionFor(result, info.value, now, config))
    ensures IsTerminal(result) ==> sent == (if result.value.Remove? then SendAck else SendTerm)
    ensures left <==> landed && (sent.SendAck? || sent.SendTerm?)
    ensures left <==> landed && Ends(result, Expired(info, now, config))
    ensures Plain(info, now, config) ==>
              Answers(sent, result, now - info.value.published, info.value.delivered,
                      config.maxBackoffHours * 3600, config.maxAgeHours * 3600)
  {
    if Plain(info, now, config) && IsFailure(result) && now - info.value.published <= config.maxAgeHours * 3600 {
      BackoffIsExact(result, now - info.value.published, info.value.delivered, config.maxBackoffHours * 3600,
                     config.maxAgeHours * 3600);
    }
    match result {
      case Ok(Remove) => return landed, SendAck;
      case Ok(Drop) => return landed, SendTerm;
      case _ =>
    }
    if info.Some? {
      match DecisionFor(result, info.value, now, config) {
        case AckIt => return landed, SendAck;
        case GiveUp => return landed, SendTerm;
        case AgeOut => return landed, SendTerm;
        case NakWithBackoff(backoff) => return false, SendNak(backoff);
      }
    }
    return false, Silent;
  }

  // ----- How long a failing message can be redelivered -----

  /** A worker outcome that asks for a retry at the stream's own pace. */
  predicate IsFailure(result: WorkerResult) { result.Err? || result.value.Retry? }

  /** The delay after the `d`-th delivery, without machine arithmetic. */
  function Delay(d: nat, maxBackoff: nat): nat
    requires d >= 1
  {
    Min(Pow(3, d - 1), maxBackoff)
  }

  lemma {:induction false} PowMonotone(a: nat, b: nat)
    requires a <= b
    ensures 1 <= Pow(3, a) <= Pow(3, b)
    decreases b
  {
    if b == 0 {
    } else if a == b {
      PowMonotone(a - 1, b - 1);
    } else {
      PowMonotone(a, b - 1);
    }
  }

  lemma PowPasses64Bits()
    ensures Pow(3, 41) > U64_MAX
  {
    assert Pow(3, 10) == 59049;
    PowAdd(10, 10);
    PowAdd(20, 20);
    PowAdd(40, 1);
  }

  lemma {:induction false} PowAdd(a: nat, b: nat)
    ensures Pow(3, a + b) == Pow(3, a) * Pow(3, b)
  {
    if b > 0 {
      PowAdd(a, b - 1);
      assert Pow(3, a + b) == 3 * Pow(3, a + b - 1);
      assert 3 * (Pow(3, a) * Pow(3, b - 1)) == Pow(3, a) * (3 * Pow(3, b - 1));
    }
  }

  /**
   * The delay is min(3^(d-1), maxBackoff) for every delivery number, although the code saturates the power at
   * 64 bits and the delivery number at 32.
   */
  lemma BackoffIsExact(result: WorkerResult, age: nat, d: int, maxBackoff: nat, maxAge: nat)
    requires IsFailure(result) && age <= maxAge && 1 <= d && maxBackoff <= U64_MAX
    ensures ComputeAckDecision(result, age, DeliveredCount(d), maxBackoff, maxAge) == NakWithBackoff(Delay(d, maxBackoff))
  {
    if d > U32_MAX {
      PowPasses64Bits();
      PowMonotone(41, d - 1);
      PowMonotone(41, U32_MAX - 1);
    }
  }

  /** Counts that no delivery has: zero waits like the first delivery, a negative one as long as possible. */
  lemma BackoffOfOddCounts(result: WorkerResult, age: nat, d: int, maxBackoff: nat, maxAge: nat)
    requires IsFailure(result) && age <= maxAge && d <= 0 && maxBackoff <= U64_MAX
    ensures ComputeAckDecision(result, age, DeliveredCount(d), maxBackoff, maxAge)
         == NakWithBackoff(if d < 0 then maxBackoff else Delay(1, maxBackoff))
  {
    if d < 0 {
      PowPasses64Bits();
      PowMonotone(41, U32_MAX - 1);
    }
  }

  /** A clock that is behind makes a message as old as one that is ahead by as much. */
  lemma AgeIsDistance(now: int, published: int)
    requires -I64_MAX <= now - published <= I64_MAX
    ensures Age(now, published) == (if now < published then published - now else now - published)
  {
  }

  lemma BackoffGrows(d: nat, e: nat, maxBackoff: nat)
    requires 1 <= d <= e
    ensures Delay(d, maxBackoff) <= Delay(e, maxBackoff) <= maxBackoff
  {
    PowMonotone(d - 1, e - 1);
  }

  /**
   * Delivery times of one message all of whose deliveries so far failed: each delivery but the last was handed
   * back, the nak landed, and the next delivery came no sooner than the delay asked for.
   */
  ghost predicate FailingRun(published: int, times: seq<int>, results: seq<WorkerResult>, maxBackoff: nat, maxAge: nat) {
    && |times| == |results| > 0
    && published <= times[0]
    && (forall k :: 0 <= k < |results| ==> IsFailure(results[k]))
    && forall k :: 0 <= k < |times| - 1 ==> HandedBack(published, times, results, maxBackoff, maxAge, k)
  }

  ghost predicate HandedBack(published: int, times: seq<int>, results: seq<WorkerResult>, maxBackoff: nat, maxAge: nat, k: nat)
    requires |times| == |results| && k < |times| - 1
  {
    var decision := ComputeAckDecision(results[k], Age(times[k], published), DeliveredCount(k + 1), maxBackoff, maxAge);
    decision.NakWithBackoff? && times[k + 1] >= times[k] + decision.backoff
  }

  /** The first `n` delays together. */
  function TotalDelay(n: nat, maxBackoff: nat): nat {
    if n == 0 then 0 else TotalDelay(n - 1, maxBackoff) + Delay(n, maxBackoff)
  }

  /** Least exponent whose power of three reaches `m`. */
  function Log3(m: nat): nat { if m <= 1 then 0 else 1 + Log3((m + 2) / 3) }

  lemma {:induction false} Log3Spec(m: nat)
    ensures Pow(3, Log3(m)) >= m
    ensures Log3(m) > 0 ==> Pow(3, Log3(m) - 1) < m
  {
    if m > 1 {
      var third := (m + 2) / 3;
      Log3Spec(third);
      if Log3(third) > 0 { assert Pow(3, Log3(m) - 1) == 3 * Pow(3, Log3(third) - 1); }
    }
  }

  /** From the `l`-th delivery on, where 3^l reaches the maximum, every delay is the maximum. */
  lemma {:induction false} TotalDelayGrows(n: nat, l: nat, maxBackoff: nat)
    requires Pow(3, l) >= maxBackoff
    ensures TotalDelay(l + n, maxBackoff) >= Times(n, maxBackoff)
  {
    if n > 0 {
      TotalDelayGrows(n - 1, l, maxBackoff);
      PowMonotone(l, l + n - 1);
      assert Delay(l + n, maxBackoff) == maxBackoff;
    }
  }

  lemma {:induction false} TimesMonotone(n: nat, k: nat, m: nat)
    requires n <= k
    ensures Times(n, m) <= Times(k, m)
  {
    if n < k { TimesMonotone(n, k - 1, m); }
  }

  lemma QuotientIsShort(a: nat, m: nat)
    requires m >= 1
    ensures a < Times(a / m + 1, m)
  {
    TimesIsProduct(a / m + 1, m);
    assert (a / m + 1) * m == a / m * m + m;
  }

  predicate ClockInRange(published: int, times: seq<int>) {
    forall k :: 0 <= k < |times| ==> times[k] - published <= I64_MAX
  }

  /** Waiting out the delays is what the message's age is made of. */
  lemma {:induction false} AgeOfRun(published: int, times: seq<int>, results: seq<WorkerResult>, maxBackoff: nat, maxAge: nat, k: nat)
    requires FailingRun(published, times, results, maxBackoff, maxAge) && ClockInRange(published, times)
    requires maxBackoff <= U64_MAX && k < |times|
    ensures times[k] - published >= TotalDelay(k, maxBackoff)
    ensures k < |times| - 1 ==> times[k] - published <= maxAge
  {
    if k > 0 {
      AgeOfRun(published, times, results, maxBackoff, maxAge, k - 1);
      assert HandedBack(published, times, results, maxBackoff, maxAge, k - 1);
      BackoffIsExact(results[k - 1], Age(times[k - 1], published), k, maxBackoff, maxAge);
    }
    if k < |times| - 1 { assert HandedBack(published, times, results, maxBackoff, maxAge, k); }
  }

  /** The delays before the last delivery but one fit into the age limit. */
  lemma DelaysFitAgeLimit(published: int, times: seq<int>, results: seq<WorkerResult>, maxBackoff: nat, maxAge: nat)
    requires FailingRun(published, times, results, maxBackoff, maxAge) && ClockInRange(published, times)
    requires maxBackoff <= U64_MAX && |times| >= 2
    ensures TotalDelay(|times| - 2, maxBackoff) <= maxAge
  {
    AgeOfRun(published, times, results, maxBackoff, maxAge, |times| - 2);
  }

  function DeliveryBound(maxBackoff: nat, maxAge: nat): nat
    requires maxBackoff >= 1
  {
    Log3(maxBackoff) + maxAge / maxBackoff + 2
  }

  /** Redelivery bound: a message that keeps failing is delivered at most this often before it is terminated. */
  lemma RedeliveryBound(published: int, times: seq<int>, results: seq<WorkerResult>, maxBackoff: nat, maxAge: nat)
    requires FailingRun(published, times, results, maxBackoff, maxAge) && ClockInRange(published, times)
    requires 1 <= maxBackoff <= U64_MAX
    ensures |times| <= DeliveryBound(maxBackoff, maxAge)
  {
    if |times| >= 2 { DelaysFitAgeLimit(published, times, results, maxBackoff, maxAge); }
    CountWithinAge(|times|, maxBackoff, maxAge);
  }

  /** `q` maximal delays fit into the age limit at most. */
  lemma FullDelaysWithinAge(n: nat, l: nat, q: nat, maxBackoff: nat, maxAge: nat)
    requires Pow(3, l) >= maxBackoff && TotalDelay(l + n, maxBackoff) <= maxAge < Times(q + 1, maxBackoff)
    ensures n <= q
  {
    TotalDelayGrows(n, l, maxBackoff);
    if n > q { TimesMonotone(q + 1, n, maxBackoff); }
  }

  lemma CountFrom(deliveries: nat, l: nat, q: nat, maxBackoff: nat, maxAge: nat)
    requires Pow(3, l) >= maxBackoff && maxAge < Times(q + 1, maxBackoff)
    requires deliveries >= 2 ==> TotalDelay(deliveries - 2, maxBackoff) <= maxAge
    ensures deliveries <= l + q + 2
  {
    if deliveries > l + 2 {
      var n := deliveries - 2 - l;
      assert l + n == deliveries - 2;
      FullDelaysWithinAge(n, l, q, maxBackoff, maxAge);
    }
  }

  lemma CountWithin(deliveries: nat, q: nat, maxBackoff: nat, maxAge: nat)
    requires maxAge < Times(q + 1, maxBackoff)
    requires deliveries >= 2 ==> TotalDelay(deliveries - 2, maxBackoff) <= maxAge
    ensures deliveries <= Log3(maxBackoff) + q + 2
  {
    Log3Reaches(maxBackoff);
    CountFrom(deliveries, Log3(maxBackoff), q, maxBackoff, maxAge);
  }

  lemma CountWithinAge(deliveries: nat, maxBackoff: nat, maxAge: nat)
    requires maxBackoff >= 1 && (deliveries >= 2 ==> TotalDelay(deliveries - 2, maxBackoff) <= maxAge)
    ensures deliveries <= DeliveryBound(maxBackoff, maxAge)
  {
    QuotientIsShort(maxAge, maxBackoff);
    CountWithin(deliveries, maxAge / maxBackoff, maxBackoff, maxAge);
  }

  lemma Log3Reaches(m: nat)
    ensures Pow(3, Log3(m)) >= m
  {
    Log3Spec(m);
  }

  ghost predicate IsBound(n: nat, maxBackoff: nat, maxAge: nat) {
    forall published: int, times: seq<int>, results: seq<WorkerResult> ::
      FailingRun(published, times, results, maxBackoff, maxAge) && ClockInRange(published, times) ==> |times| <= n
  }

  /** Without a backoff of at least a second there is no bound at all. */
  lemma BoundedIffBackoffPositive(maxBackoff: nat, maxAge: nat)
    requires maxBackoff <= U64_MAX
    ensures (exists n: nat :: IsBound(n, maxBackoff, maxAge)) <==> maxBackoff >= 1
  {
    if maxBackoff >= 1 {
      var n := DeliveryBound(maxBackoff, maxAge);
      forall published: int, times: seq<int>, results: seq<WorkerResult>
        | FailingRun(published, times, results, maxBackoff, maxAge) && ClockInRange(published, times)
        ensures |times| <= n
      {
        RedeliveryBound(published, times, results, maxBackoff, maxAge);
      }
      assert IsBound(n, maxBackoff, maxAge);
    } else {
      forall n: nat ensures !IsBound(n, maxBackoff, maxAge) {
        var times := seq(n + 1, i => 0);
        var results: seq<WorkerResult> := seq(n + 1, i => Ok(Retry));
        assert FailingRun(0, times, results, maxBackoff, maxAge);
      }
    }
  }

  /** Delivered promptly after each delay, a failing message is terminated at the first delivery past its age limit. */
  lemma PromptRunEnds(published: int, result: WorkerResult, k: nat, maxBackoff: nat, maxAge: nat)
    requires IsFailure(result) && maxBackoff <= U64_MAX && TotalDelay(k, maxBackoff) <= I64_MAX
    ensures ComputeAckDecision(result, Age(published + TotalDelay(k, maxBackoff), published), DeliveredCount(k + 1), maxBackoff, maxAge)
         == if TotalDelay(k, maxBackoff) > maxAge then AgeOut else NakWithBackoff(Delay(k + 1, maxBackoff))
  {
    if TotalDelay(k, maxBackoff) <= maxAge {
      BackoffIsExact(result, TotalDelay(k, maxBackoff), k + 1, maxBackoff, maxAge);
    }
  }
}
