/** The deterministic trigger of the chaos configuration: fire on every k-th call, k = int(1 / probability). */
module ChaosTrigger {
  import opened Wrappers
  import opened DivMod

  /** int(1 / p), or 0 when p is not positive. */
  function Every(p: real): (k: nat)
    ensures p > 0.0 ==> k as real <= 1.0 / p < k as real + 1.0
  {
    if p > 0.0 then Positive(p); (1.0 / p).Floor else 0
  }

  lemma Positive(p: real)
    requires p > 0.0
    ensures 1.0 / p > 0.0
  {
  }

  /** The counter has just been raised to `counter`. */
  predicate Fires(p: real, counter: nat) { Every(p) > 0 && counter % Every(p) == 0 }

  class ChaosConfig {
    var requestCounter: nat

    constructor ()
      ensures requestCounter == 0
    {
      requestCounter := 0;
    }

    /** `draw` is the random number used when the deterministic mode is off. */
    method ShouldTrigger(probability: Option<real>, deterministic: bool, draw: real) returns (fire: bool)
      modifies this
      ensures var p := if probability.Some? then probability.value else 1.0;
        if deterministic then requestCounter == old(requestCounter) + 1 && fire == Fires(p, requestCounter)
        else requestCounter == old(requestCounter) && fire == (draw < p)
    {
      var p := if probability.None? then 1.0 else probability.value;
      if deterministic {
        requestCounter := requestCounter + 1;
        var every := Every(p);
        if every > 0 { return requestCounter % every == 0; }
        return false;
      }
      return draw < p;
    }

    /** n deterministic calls in a row; returns how many fired. */
    method Burst(p: real, n: nat) returns (fired: nat)
      modifies this
      ensures requestCounter == old(requestCounter) + n
      ensures fired == Fired(p, old(requestCounter), n)
    {
      fired := 0;
      for i := 0 to n
        invariant requestCounter == old(requestCounter) + i && fired == Fired(p, old(requestCounter), i)
      {
        var fire := ShouldTrigger(Some(p), true, 0.0);
        if fire { fired := fired + 1; }
      }
    }

    method ResetCounter()
      modifies this
      ensures requestCounter == 0
    {
      requestCounter := 0;
    }
  }

  /** How many of the n calls after counter value c fire. */
  function Fired(p: real, c: nat, n: nat): nat {
    if n == 0 then 0 else Fired(p, c, n - 1) + if Fires(p, c + n) then 1 else 0
  }

  /** Exactly (c + n) div k - c div k of n calls fire; none if k is 0. */
  lemma {:induction false} FiredCount(p: real, c: nat, n: nat)
    ensures Every(p) > 0 ==> Fired(p, c, n) == (c + n) / Every(p) - c / Every(p)
    ensures Every(p) == 0 ==> Fired(p, c, n) == 0
  {
    if n > 0 {
      FiredCount(p, c, n - 1);
      if Every(p) > 0 { DivModStep(Every(p), c + n - 1); }
    }
  }

  lemma Scale(a: real, b: real, p: real)
    requires a <= b && p > 0.0
    ensures a * p <= b * p
  {
  }

  lemma ScaleStrict(a: real, b: real, p: real)
    requires a < b && p > 0.0
    ensures a * p < b * p
  {
  }

  lemma TimesReciprocal(p: real)
    requires p > 0.0
    ensures 1.0 / p * p == 1.0
  {
  }

  /** With q = 1 / p and k = int(q): k * p and (k + 1) * p lie on either side of 1. */
  lemma Bracket(k: real, q: real, p: real)
    requires p > 0.0 && q * p == 1.0 && k <= q < k + 1.0
    ensures k * p <= 1.0 < k * p + p
  {
    var next := k + 1.0;
    Scale(k, q, p);
    ScaleStrict(q, next, p);
    assert next * p == k * p + p;
  }

  lemma Cancel(a: real, b: real, k: real, ak: real, bk: real)
    requires k > 0.0 && ak == a * k && bk == b * k && ak <= bk
    ensures a <= b
  {
    if a > b { ScaleStrict(b, a, k); }
  }

  lemma CancelStrict(a: real, b: real, k: real, ak: real, bk: real)
    requires k > 0.0 && ak == a * k && bk == b * k && ak < bk
    ensures a < b
  {
    if a >= b { Scale(b, a, k); }
  }

  lemma Twice(k: real, p: real, kp: real)
    requires kp == k * p
    ensures p * k == kp && 2.0 * p * k == 2.0 * kp
  {
  }

  lemma AtLeastItself(k: real, p: real, kp: real)
    requires k >= 1.0 && p > 0.0 && kp == k * p
    ensures p <= kp
  {
    Scale(1.0, k, p);
  }

  /** With r = 1 / k for k >= 1. */
  lemma RateBounds(k: real, r: real, p: real, kp: real)
    requires k >= 1.0 && r * k == 1.0 && p > 0.0 && kp == k * p && kp <= 1.0 < kp + p
    ensures p <= 1.0 && p <= r < 2.0 * p
  {
    AtLeastItself(k, p, kp);
    Twice(k, p, kp);
    Cancel(p, r, k, kp, 1.0);
    CancelStrict(r, 2.0 * p, k, 1.0, 2.0 * kp);
  }

  /** For 0 < p <= 1 the firing rate 1 / k lies in [p, 2p); outside that range the trigger never fires. */
  lemma RateWithinFactorTwo(p: real)
    ensures Every(p) > 0 <==> 0.0 < p <= 1.0
    ensures Every(p) > 0 ==> p <= 1.0 / Every(p) as real < 2.0 * p
  {
    if p > 0.0 {
      var k := Every(p) as real;
      TimesReciprocal(p);
      Bracket(k, 1.0 / p, p);
      if Every(p) > 0 {
        TimesReciprocal(k);
        RateBounds(k, 1.0 / k, p, k * p);
      }
    }
  }
}
