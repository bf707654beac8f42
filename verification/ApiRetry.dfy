/** Calling the server with retries and exponential backoff. */
module ApiRetry {
  import opened Protocol

  datatype RetrySettings = RetrySettings(maxAttempts: int, baseMillis: int, capMillis: int)
  {
    function Attempts(): nat { if maxAttempts < 1 then 1 else maxAttempts }

    function Base(): real { (if baseMillis < 0 then 0 else baseMillis) as real / 1000.0 }

    /** The cap is never below the base delay. */
    function Cap(): real { (if capMillis < baseMillis then baseMillis else capMillis) as real / 1000.0 }
  }

  function Power2(n: nat): real { if n == 0 then 1.0 else 2.0 * Power2(n - 1) }

  function MinReal(a: real, b: real): real { if a < b then a else b }

  /** The delay before jitter. */
  function Exponential(s: RetrySettings, attempt: nat): real {
    MinReal(s.Base() * Power2(if attempt < 1 then 0 else attempt - 1), s.Cap())
  }

  /** `spread` is the random draw between 0 and 1. */
  function Backoff(s: RetrySettings, attempt: nat, spread: real): real {
    var delay := Exponential(s, attempt);
    MinReal(delay + spread * (if delay > 0.0 then delay * 0.2 else 0.1), s.Cap())
  }

  lemma Product(x: real, y: real)
    requires x >= 0.0 && y >= 0.0
    ensures x * y >= 0.0
  {}

  /** Whatever the settings and the jitter, the delay lies between its unjittered value and the cap; it is never
      negative unless the cap is. */
  lemma BackoffBounds(s: RetrySettings, attempt: nat, spread: real)
    requires 0.0 <= spread <= 1.0
    ensures Exponential(s, attempt) <= Backoff(s, attempt, spread) <= s.Cap()
    ensures Exponential(s, attempt) >= 0.0 <==> s.Cap() >= 0.0
  {
    var delay := Exponential(s, attempt);
    var power := if attempt < 1 then 0 else attempt - 1;
    PowerPositive(power);
    Product(s.Base(), Power2(power));
    var width := if delay > 0.0 then delay * 0.2 else 0.1;
    Product(spread, width);
  }

  lemma {:induction false} PowerPositive(n: nat)
    ensures Power2(n) > 0.0
  {
    if n > 0 {
      PowerPositive(n - 1);
    }
  }

  lemma Doubled(base: real, power: real)
    ensures base * (2.0 * power) == 2.0 * (base * power)
  {}

  /** The delays before jitter start with the base delay, a negative one counting as none, and double from attempt to
      attempt until they reach the cap, which is the larger of the two settings; from then on they stay there. */
  lemma DelaysDouble(s: RetrySettings, attempt: nat)
    requires attempt >= 1
    ensures s.Cap() == (if s.capMillis < s.baseMillis then s.baseMillis else s.capMillis) as real / 1000.0
    ensures Exponential(s, 1) == MinReal(if s.baseMillis < 0 then 0.0 else s.baseMillis as real / 1000.0, s.Cap())
    ensures Exponential(s, attempt) < s.Cap() ==>
      Exponential(s, attempt + 1) == MinReal(2.0 * Exponential(s, attempt), s.Cap())
    ensures Exponential(s, attempt) >= s.Cap() ==> Exponential(s, attempt) == Exponential(s, attempt + 1) == s.Cap()
  {
    PowerPositive(attempt - 1);
    Product(s.Base(), Power2(attempt - 1));
    Doubled(s.Base(), Power2(attempt - 1));
    assert Power2(attempt) == 2.0 * Power2(attempt - 1);
    assert Power2(0) == 1.0;
  }

  /** The jitter adds up to a fifth of the delay, in proportion to the draw, or up to a tenth of a second where there
      is no delay; what goes over the cap is cut off. */
  lemma JitterIsAFifth(s: RetrySettings, attempt: nat, spread: real)
    requires 0.0 <= spread <= 1.0
    ensures Exponential(s, attempt) > 0.0 ==> var delay := Exponential(s, attempt);
      Backoff(s, attempt, spread) == MinReal(delay + spread * (delay / 5.0), s.Cap())
    ensures Exponential(s, attempt) <= 0.0 ==>
      Backoff(s, attempt, spread) == MinReal(Exponential(s, attempt) + spread / 10.0, s.Cap())
  {
    assert Exponential(s, attempt) / 5.0 == Exponential(s, attempt) * 0.2;
    assert spread * 0.1 == spread / 10.0;
  }

  function Sum(delays: seq<real>): real {
    if delays == [] then 0.0 else Sum(delays[..|delays| - 1]) + delays[|delays| - 1]
  }

  /** `n` times `x`. */
  function Times(n: nat, x: real): real { if n == 0 then 0.0 else Times(n - 1, x) + x }

  lemma {:induction false} SumBound(delays: seq<real>, cap: real)
    requires forall i :: 0 <= i < |delays| ==> delays[i] <= cap
    ensures Sum(delays) <= Times(|delays|, cap)
  {
    if delays != [] {
      SumBound(delays[..|delays| - 1], cap);
    }
  }

  lemma {:induction false} TimesMore(m: nat, n: nat, x: real)
    requires m <= n && x >= 0.0
    ensures Times(m, x) <= Times(n, x)
  {
    if m < n {
      TimesMore(m, n - 1, x);
    }
  }

  /** What sleeps of at most `cap` each come to, if there are no more than `n`. */
  lemma TotalSleep(sleeps: seq<real>, n: nat, cap: real)
    requires |sleeps| <= n && forall i :: 0 <= i < |sleeps| ==> sleeps[i] <= cap
    ensures Sum(sleeps) <= Times(|sleeps|, cap)
    ensures cap >= 0.0 ==> Sum(sleeps) <= Times(n, cap)
  {
    SumBound(sleeps, cap);
    if cap >= 0.0 {
      TimesMore(|sleeps|, n, cap);
    }
  }

  /** A call of the error callback: the attempt that failed, and whether another one is scheduled. */
  datatype Callback = Callback(attempt: nat, scheduled: bool)

  /** The retry loop around an action that answers `outcome(n)` on its n-th call. */
  method RunApiCallWithRetry(s: RetrySettings, outcome: nat -> Reply, spread: nat -> real)
    returns (result: Reply, calls: nat, callbacks: seq<Callback>, sleeps: seq<real>)
    requires forall n :: 0.0 <= spread(n) <= 1.0
    ensures 1 <= calls && (calls == 1 || calls <= s.maxAttempts)
    ensures result == outcome(calls)
    ensures forall n :: 1 <= n < calls ==> outcome(n) == Failed(Retryable)
    ensures result == Failed(Retryable) ==> calls >= s.maxAttempts
    ensures |callbacks| == if result == Failed(Retryable) then calls else calls - 1
    ensures forall i :: 0 <= i < |callbacks| ==> callbacks[i] == Callback(i + 1, i + 1 < s.maxAttempts)
    ensures |sleeps| == calls - 1
    ensures forall i :: 0 <= i < |sleeps| ==>
      Exponential(s, i + 1) <= sleeps[i] <= s.Cap() && sleeps[i] == Backoff(s, i + 1, spread(i + 1))
    ensures Sum(sleeps) <= Times(|sleeps|, s.Cap())
    ensures s.Cap() >= 0.0 && s.maxAttempts >= 1 ==> Sum(sleeps) <= Times(s.maxAttempts - 1, s.Cap())
  {
    var attempt := 0;
    callbacks, sleeps := [], [];
    while true
      invariant attempt < s.Attempts()
      invariant forall n :: 1 <= n <= attempt ==> outcome(n) == Failed(Retryable)
      invariant |callbacks| == |sleeps| == attempt
      invariant forall i :: 0 <= i < attempt ==> callbacks[i] == Callback(i + 1, i + 1 < s.Attempts())
      invariant forall i :: 0 <= i < attempt ==>
        Exponential(s, i + 1) <= sleeps[i] <= s.Cap() && sleeps[i] == Backoff(s, i + 1, spread(i + 1))
      decreases s.Attempts() - attempt
    {
      attempt := attempt + 1;
      result := outcome(attempt);
      if result != Failed(Retryable) {
        break;
      }
      callbacks := callbacks + [Callback(attempt, attempt < s.Attempts())];
      if attempt >= s.Attempts() {
        break;
      }
      BackoffBounds(s, attempt, spread(attempt));
      sleeps := sleeps + [Backoff(s, attempt, spread(attempt))];
    }
    calls := attempt;
    TotalSleep(sleeps, s.Attempts() - 1, s.Cap());
  }
}
