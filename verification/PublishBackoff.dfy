// Publishing to JetStream: attempts, and the sleeps between them.
module PublishBackoff {
  import opened Wrappers
  import opened Bits

  // The longest duration, in nanoseconds.
  const DURATION_MAX: nat := 0xFFFF_FFFF_FFFF_FFFF * 1_000_000_000 + 999_999_999

  // How one attempt ends: the request may fail, and so may its
  // acknowledgement.
  datatype Try = Acked(ack: string) | AckFailed(error: string) | RequestFailed(error: string)

  function Saturated(ns: nat): nat {
    if ns < DURATION_MAX then ns else DURATION_MAX
  }

  // One, two, four and so on, up to sixty-four.
  function Factor(attempt: nat): nat {
    var doublings := if attempt == 0 then 0 else attempt - 1;
    Pow2(if doublings < 6 then doublings else 6)
  }

  // Percent of jitter, by the last byte of the message id.
  function Jitter(lastByte: Option<nat>): nat {
    (if lastByte.Some? then lastByte.value else 0) % 25
  }

  // The jitter is below 25 percent, none without an id, and the same for two
  // bytes exactly if they differ by a multiple of 25.
  lemma JitterMeans(a: nat, b: nat)
    ensures Jitter(Some(a)) < 25 && Jitter(None) == 0 && (a < 25 ==> Jitter(Some(a)) == a)
    ensures Jitter(Some(a)) == Jitter(Some(b)) <==> (a - b) % 25 == 0
  {
  }

  // The sleep before the next attempt, after that many have failed.
  function Backoff(retryBackoff: nat, jitter: nat, attempt: nat): nat {
    var base := Saturated(retryBackoff * Factor(attempt));
    Saturated(base + base / 100 * jitter)
  }

  // The sleeps between n + 1 attempts.
  function Sleeps(retryBackoff: nat, jitter: nat, n: nat): (sleeps: seq<nat>)
    ensures |sleeps| == n && forall i | 0 <= i < n :: sleeps[i] == Backoff(retryBackoff, jitter, i + 1)
  {
    seq(n, i requires 0 <= i < n => Backoff(retryBackoff, jitter, i + 1))
  }

  // Publishes until an attempt is acknowledged or the retries are used up.
  method Send(tries: nat -> Try, retries: u32, retryBackoff: nat, lastByte: Option<nat>)
    returns (r: Result<string, string>, attempts: nat, sleeps: seq<nat>)
    ensures 1 <= attempts <= retries + 1
    ensures forall k: nat | k < attempts - 1 :: !tries(k).Acked?
    ensures r.Ok? <==> tries(attempts - 1).Acked?
    ensures r.Ok? ==> r.value == tries(attempts - 1).ack
    ensures r.Err? ==> attempts == retries + 1 && r.error == tries(attempts - 1).error
    ensures sleeps == Sleeps(retryBackoff, Jitter(lastByte), attempts - 1)
  {
    hide Backoff, Jitter;
    var attempt: u32 := 0;
    sleeps := [];
    while true
      invariant attempt <= retries && forall k: nat | k < attempt :: !tries(k).Acked?
      invariant sleeps == Sleeps(retryBackoff, Jitter(lastByte), attempt)
      decreases retries - attempt
    {
      var outcome := tries(attempt);
      match outcome {
        case Acked(ack) =>
          return Ok(ack), attempt + 1, sleeps;
        case AckFailed(error) =>
          if attempt >= retries { return Err(error), attempt + 1, sleeps; }
        case RequestFailed(error) =>
          if attempt >= retries { return Err(error), attempt + 1, sleeps; }
      }
      attempt := attempt + 1;
      sleeps := sleeps + [Backoff(retryBackoff, Jitter(lastByte), attempt)];
    }
  }

  // ---- how long the sleeps are ----

  lemma {:induction false} Pow2Grows(a: nat, b: nat)
    requires a <= b
    ensures Pow2(a) <= Pow2(b)
  {
    if a < b { Pow2Grows(a, b - 1); }
  }

  lemma FactorGrows(a: nat, b: nat)
    requires a <= b
    ensures Factor(a) <= Factor(b) <= 64
  {
    var i, j := if a == 0 then 0 else a - 1, if b == 0 then 0 else b - 1;
    Pow2Grows(if i < 6 then i else 6, if j < 6 then j else 6);
    Pow2Grows(if j < 6 then j else 6, 6);
    assert Pow2(6) == 64;
  }

  // The factor doubles with every failure up to the seventh and then stays.
  lemma FactorDoubles(attempt: nat)
    requires attempt >= 1
    ensures Factor(1) == 1
    ensures Factor(attempt + 1) == if attempt <= 6 then 2 * Factor(attempt) else 64
  {
    assert Pow2(6) == 64;
  }

  lemma ProductGrows(x: nat, a: nat, b: nat)
    requires a <= b
    ensures x * a <= x * b && a * x <= b * x
  {
  }

  // A longer base never gives a shorter sleep.
  lemma JitteredGrows(a: nat, b: nat, jitter: nat)
    requires a <= b
    ensures a + a / 100 * jitter <= b + b / 100 * jitter
  {
    ProductGrows(jitter, a / 100, b / 100);
  }

  // Sleeps do not get shorter, and none exceeds sixty-four times the base
  // and 24 percent of that, whatever saturates.
  lemma BackoffBounds(retryBackoff: nat, lastByte: Option<nat>, a: nat, b: nat)
    requires a <= b
    ensures Backoff(retryBackoff, Jitter(lastByte), a) <= Backoff(retryBackoff, Jitter(lastByte), b)
            <= 64 * retryBackoff + 64 * retryBackoff / 100 * 24
  {
    var jitter := Jitter(lastByte);
    FactorGrows(a, b);
    ProductGrows(retryBackoff, Factor(a), Factor(b));
    ProductGrows(retryBackoff, Factor(b), 64);
    var low, high := Saturated(retryBackoff * Factor(a)), Saturated(retryBackoff * Factor(b));
    JitteredGrows(low, high, jitter);
    JitteredGrows(high, 64 * retryBackoff, jitter);
    ProductGrows(64 * retryBackoff / 100, jitter, 24);
  }

  // Jitter only lengthens a sleep.
  lemma BackoffAtLeastBase(retryBackoff: nat, lastByte: Option<nat>, attempt: nat)
    ensures Backoff(retryBackoff, Jitter(lastByte), attempt) >= Saturated(retryBackoff * Factor(attempt))
  {
    ProductGrows(Saturated(retryBackoff * Factor(attempt)) / 100, 0, Jitter(lastByte));
  }

  // Jitter adds at most 24 percent.
  lemma JitterWithin(base: nat, jitter: nat)
    requires jitter <= 24
    ensures 100 * (base + base / 100 * jitter) <= 124 * base
  {
    var part := base / 100;
    assert 100 * part <= base;
    ProductGrows(part, jitter, 24);
    Scaled(part, jitter);
  }

  lemma Scaled(part: nat, jitter: nat)
    ensures 100 * (part * jitter) == part * jitter * 100
  {
  }

  // Short of the longest duration, the jitter is that many hundredths of the base,
  // rounded down in steps of as much.
  lemma JitterShare(retryBackoff: nat, lastByte: Option<nat>, attempt: nat)
    ensures var base, jitter, sleep := retryBackoff * Factor(attempt), Jitter(lastByte),
                                       Backoff(retryBackoff, Jitter(lastByte), attempt);
            && sleep <= 0xFFFF_FFFF_FFFF_FFFF * 1_000_000_000 + 999_999_999
            && (2 * base <= DURATION_MAX ==> base * jitter - 100 * jitter <= 100 * (sleep - base) <= base * jitter)
  {
    var base, jitter := retryBackoff * Factor(attempt), Jitter(lastByte);
    if 2 * base <= DURATION_MAX {
      hide Factor, Jitter;
      ShareWithin(base, jitter);
    }
  }

  lemma ShareWithin(base: nat, jitter: nat)
    requires jitter < 25
    ensures base * jitter - 100 * jitter <= 100 * (base / 100 * jitter) <= base * jitter
    ensures base + base / 100 * jitter <= 2 * base
  {
    var part := base / 100;
    assert 100 * part <= base < 100 * part + 100;
    ProductGrows(jitter, 100 * part, base);
    ProductGrows(jitter, base, 100 * part + 100);
    assert jitter * (100 * part + 100) == 100 * (part * jitter) + 100 * jitter;
    assert jitter * (100 * part) == 100 * (part * jitter);
    JitterWithin(base, jitter);
  }

  function Total(sleeps: seq<nat>): nat {
    if sleeps == [] then 0 else Total(sleeps[..|sleeps| - 1]) + sleeps[|sleeps| - 1]
  }

  // The sum of the first n factors.
  function Weight(n: nat): nat {
    if n <= 7 then Pow2(n) - 1 else 127 + 64 * (n - 7)
  }

  lemma WeightNext(n: nat)
    ensures Weight(n + 1) == Weight(n) + Factor(n + 1)
  {
    assert Pow2(6) == 64 && Pow2(7) == 128;
  }

  lemma SleepWithin(retryBackoff: nat, lastByte: Option<nat>, attempt: nat)
    ensures var base, sleep := retryBackoff * Factor(attempt), Backoff(retryBackoff, Jitter(lastByte), attempt);
            100 * sleep <= 124 * base && (64 * retryBackoff <= DURATION_MAX ==> base <= sleep)
  {
    var jitter, base := Jitter(lastByte), Saturated(retryBackoff * Factor(attempt));
    JitterWithin(base, jitter);
    BackoffAtLeastBase(retryBackoff, lastByte, attempt);
    FactorGrows(attempt, attempt);
    ProductGrows(retryBackoff, Factor(attempt), 64);
    hide Factor, Jitter;
  }

  // All the sleeping of one publish is within closed bounds.
  lemma {:induction false} TotalSleepBounded(retryBackoff: nat, lastByte: Option<nat>, n: nat)
    ensures var weight, total := if n <= 7 then Pow2(n) - 1 else 127 + 64 * (n - 7),
                                 Total(Sleeps(retryBackoff, Jitter(lastByte), n));
            && 100 * total <= 124 * (retryBackoff * weight)
            && (64 * retryBackoff <= DURATION_MAX ==> retryBackoff * weight <= total)
  {
    TotalWithin(retryBackoff, lastByte, n);
  }

  lemma {:induction false} TotalWithin(retryBackoff: nat, lastByte: Option<nat>, n: nat)
    ensures var total := Total(Sleeps(retryBackoff, Jitter(lastByte), n));
            && 100 * total <= 124 * (retryBackoff * Weight(n))
            && (64 * retryBackoff <= DURATION_MAX ==> retryBackoff * Weight(n) <= total)
  {
    hide Backoff, Jitter, Weight, Factor;
    if n > 0 {
      var sleeps := Sleeps(retryBackoff, Jitter(lastByte), n);
      assert sleeps[..n - 1] == Sleeps(retryBackoff, Jitter(lastByte), n - 1);
      TotalWithin(retryBackoff, lastByte, n - 1);
      SleepWithin(retryBackoff, lastByte, n);
      WeightNext(n - 1);
      assert retryBackoff * Weight(n) == retryBackoff * Weight(n - 1) + retryBackoff * Factor(n);
    } else {
      NoWeight();
    }
  }

  lemma NoWeight()
    ensures Weight(0) == 0
  {
  }
}
