/** Sending one email with bounded retries (aiosmtplib_mailer.py). */
module SmtpRetry {
  import opened Wrappers

  // ---- Classification --------------------------------------------------------------------------

  datatype FailureType = Transient | Permanent

  /** How one attempt can end. Anything else the client raises is not caught here. */
  datatype Attempt =
    | Delivered
    | Response(code: int)
    | AuthenticationError
    | RecipientsRefused(codes: seq<int>)
    | Disconnected
    | ConnectTimeout
    | NameResolution
    | OtherOsError
    | Uncaught

  /** `_classify_response_code`. */
  function ClassifyCode(code: int): FailureType {
    if code == 421 then Permanent
    else if 400 <= code < 500 then Transient
    else Permanent
  }

  /** `_classify_smtp_error`. */
  function Classify(a: Attempt): FailureType {
    match a
    case AuthenticationError => Permanent
    case RecipientsRefused(codes) =>
      if codes != [] && forall i :: 0 <= i < |codes| ==> ClassifyCode(codes[i]) == Permanent then Permanent
      else Transient
    case Response(code) => ClassifyCode(code)
    case _ => Transient
  }

  /** Section 4.2.1 of RFC 5321: 4yz replies are transient, 5yz permanent; 421, closing the
      channel, is taken as permanent, and so is any code outside both classes. */
  lemma ReplyClasses(code: int)
    ensures 500 <= code < 600 ==> ClassifyCode(code) == Permanent
    ensures 400 <= code < 500 ==> (ClassifyCode(code) == Transient <==> code != 421)
    ensures ClassifyCode(code) == Transient ==> 400 <= code < 500
  {
  }

  /** A refusal of every recipient is retried exactly when some refusal is transient, or none
      is known. */
  lemma RefusalRetried(codes: seq<int>)
    ensures Classify(RecipientsRefused(codes)) == Transient
       <==> codes == [] || exists i :: 0 <= i < |codes| && ClassifyCode(codes[i]) == Transient
  {
    if codes != [] && forall i :: 0 <= i < |codes| ==> ClassifyCode(codes[i]) != Transient {
      forall i | 0 <= i < |codes|
        ensures ClassifyCode(codes[i]) == Permanent
      {
        assert ClassifyCode(codes[i]) != Transient;
      }
    }
  }

  // ---- The loop --------------------------------------------------------------------------------

  datatype Outcome = Sent | PermanentFailure(attempt: nat) | RetriesExhausted(attempts: nat)
                   | SizeExceeded | Raised

  datatype Config = Config(maxRetries: nat, initial: real, ceiling: real, maxBytes: nat)

  /** The constructor's checks. */
  predicate Valid(cfg: Config) {
    cfg.initial > 0.0 && cfg.initial <= cfg.ceiling && cfg.maxBytes >= 1
  }

  function Pow2(n: nat): real {
    if n == 0 then 1.0 else 2.0 * Pow2(n - 1)
  }

  function Min(a: real, b: real): real {
    if a <= b then a else b
  }

  /** The wait after attempt `n`. */
  function Backoff(cfg: Config, n: nat): real
    requires n >= 1
  {
    Min(cfg.ceiling, cfg.initial * Pow2(n - 1))
  }

  predicate Retried(a: Attempt) {
    !a.Delivered? && !a.Uncaught? && Classify(a) == Transient
  }

  /** A reply that may be answered differently later: 4yz, but not 421, which closes the channel. */
  predicate TryLater(code: int) {
    400 <= code <= 499 && code != 421
  }

  /** What the service tries again. */
  predicate Retryable(a: Attempt) {
    match a
    case Disconnected => true
    case ConnectTimeout => true
    case NameResolution => true
    case OtherOsError => true
    case Response(code) => TryLater(code)
    case RecipientsRefused(codes) => codes == [] || exists i :: 0 <= i < |codes| && TryLater(codes[i])
    case Delivered => false
    case AuthenticationError => false
    case Uncaught => false
  }

  /** However an attempt ends, it is retried exactly if it is one of these. */
  lemma RetriedExact(a: Attempt)
    ensures Retried(a) <==> Retryable(a)
  {
    if a.RecipientsRefused? {
      forall i | 0 <= i < |a.codes|
        ensures ClassifyCode(a.codes[i]) == Transient <==> TryLater(a.codes[i])
      {
        ReplyClasses(a.codes[i]);
      }
      RefusalRetried(a.codes);
    }
  }

  /** The attempts before the last are retryable; the last is not and says how it ended, or was the
      last one allowed. */
  ghost predicate EndsAs(script: nat -> Attempt, maxRetries: nat, attempts: nat, outcome: Outcome) {
    && 1 <= attempts <= maxRetries + 1
    && (forall i: nat :: i < attempts - 1 ==> Retryable(script(i)))
    && if Retryable(script(attempts - 1)) then
         attempts == maxRetries + 1 && outcome == RetriesExhausted(attempts)
       else match script(attempts - 1)
         case Delivered => outcome == Sent
         case Uncaught => outcome == Raised
         case AuthenticationError => outcome == PermanentFailure(attempts)
         case Response(_) => outcome == PermanentFailure(attempts)
         case RecipientsRefused(_) => outcome == PermanentFailure(attempts)
         case _ => false
  }

  lemma VerdictExact(script: nat -> Attempt, maxRetries: nat, attempts: nat, outcome: Outcome)
    requires attempts >= 1 && Ends(script, maxRetries, attempts - 1) && outcome == Verdict(script(attempts - 1), attempts)
    ensures EndsAs(script, maxRetries, attempts, outcome)
  {
    forall i: nat
      ensures Retried(script(i)) <==> Retryable(script(i))
    {
      RetriedExact(script(i));
    }
  }

  /** The relay: attempt `i` ends as `script(i)`. Attempts and waits are recorded. */
  class Relay {
    const script: nat -> Attempt
    var attempts: nat
    var waits: seq<real>

    constructor (script: nat -> Attempt)
      ensures this.script == script && attempts == 0 && waits == []
    {
      this.script := script;
      attempts, waits := 0, [];
    }

    method OpenAndSend() returns (a: Attempt)
      modifies this
      ensures a == script(old(attempts)) && attempts == old(attempts) + 1 && waits == old(waits)
    {
      a := script(attempts);
      attempts := attempts + 1;
    }

    method Sleep(seconds: real)
      modifies this
      ensures attempts == old(attempts) && waits == old(waits) + [seconds]
    {
      waits := waits + [seconds];
    }
  }

  /** Attempt `n` is the first whose end is not retried, or the last one allowed. */
  ghost predicate Ends(script: nat -> Attempt, maxRetries: nat, n: nat) {
    && n <= maxRetries
    && (forall i: nat :: i < n ==> Retried(script(i)))
    && (Retried(script(n)) ==> n == maxRetries)
  }

  /** There is exactly one such attempt, whatever the relay does. */
  lemma EndsOnce(script: nat -> Attempt, maxRetries: nat, m: nat, n: nat)
    requires Ends(script, maxRetries, m) && Ends(script, maxRetries, n)
    ensures m == n
  {
    assert m >= n || Retried(script(m));
    assert n >= m || Retried(script(n));
  }

  /** The result, given how the ending attempt (counted from one) ended. */
  function Verdict(a: Attempt, attempts: nat): Outcome {
    if a.Delivered? then Sent
    else if a.Uncaught? then Raised
    else if Classify(a) == Permanent then PermanentFailure(attempts)
    else RetriesExhausted(attempts)
  }

  /** `_send_with_retries`: at most `maxRetries + 1` attempts; the first one not retried, or the
      last, fixes the result; between two attempts there is one wait, the backoff. */
  method SendWithRetries(cfg: Config, relay: Relay) returns (outcome: Outcome)
    requires Valid(cfg) && relay.attempts == 0 && relay.waits == []
    modifies relay
    ensures 1 <= relay.attempts <= cfg.maxRetries + 1
    ensures Ends(relay.script, cfg.maxRetries, relay.attempts - 1)
    ensures outcome == Verdict(relay.script(relay.attempts - 1), relay.attempts)
    ensures EndsAs(relay.script, cfg.maxRetries, relay.attempts, outcome)
    ensures |relay.waits| == relay.attempts - 1
    ensures forall i :: 0 <= i < |relay.waits| ==> relay.waits[i] == Backoff(cfg, i + 1)
  {
    var attempt := 1;
    while true
      invariant 1 <= attempt <= cfg.maxRetries + 1 && relay.attempts == attempt - 1 == |relay.waits|
      invariant forall i: nat :: i < attempt - 1 ==> Retried(relay.script(i))
      invariant forall i :: 0 <= i < |relay.waits| ==> relay.waits[i] == Backoff(cfg, i + 1)
      decreases cfg.maxRetries + 1 - attempt
    {
      var a := relay.OpenAndSend();
      if a.Delivered? {
        outcome := Sent;
        break;
      }
      if a.Uncaught? {
        outcome := Raised;
        break;
      }
      if Classify(a) == Permanent {
        outcome := PermanentFailure(attempt);
        break;
      }
      if attempt > cfg.maxRetries {
        outcome := RetriesExhausted(attempt);
        break;
      }
      relay.Sleep(Backoff(cfg, attempt));
      attempt := attempt + 1;
    }
    VerdictExact(relay.script, cfg.maxRetries, relay.attempts, outcome);
  }

  /** `send`: an oversized message reaches no relay. */
  method Send(cfg: Config, relay: Relay, bytes: nat) returns (outcome: Outcome)
    requires Valid(cfg) && relay.attempts == 0 && relay.waits == []
    modifies relay
    ensures bytes > cfg.maxBytes ==> outcome == SizeExceeded && relay.attempts == 0
    ensures bytes <= cfg.maxBytes ==>
              && 1 <= relay.attempts <= cfg.maxRetries + 1
              && outcome == Verdict(relay.script(relay.attempts - 1), relay.attempts)
              && Ends(relay.script, cfg.maxRetries, relay.attempts - 1)
              && EndsAs(relay.script, cfg.maxRetries, relay.attempts, outcome)
  {
    if bytes > cfg.maxBytes {
      return SizeExceeded;
    }
    outcome := SendWithRetries(cfg, relay);
  }

  // ---- Waiting time ----------------------------------------------------------------------------

  lemma {:induction false} Pow2Grows(m: nat, n: nat)
    requires m <= n
    ensures 1.0 <= Pow2(m) <= Pow2(n)
  {
    if m < n {
      Pow2Grows(m, n - 1);
    } else if n > 0 {
      Pow2Grows(n - 1, n - 1);
    }
  }

  /** Backoffs never fall, and stay between the first interval and the ceiling. */
  lemma BackoffBounds(cfg: Config, m: nat, n: nat)
    requires Valid(cfg) && 1 <= m <= n
    ensures cfg.initial <= Backoff(cfg, m) <= Backoff(cfg, n) <= cfg.ceiling
  {
    Pow2Grows(m - 1, n - 1);
    Scale(cfg.initial, 1.0, Pow2(m - 1));
    Scale(cfg.initial, Pow2(m - 1), Pow2(n - 1));
  }

  /** The first wait is the initial interval; each further one doubles until the ceiling. */
  lemma BackoffDoubles(cfg: Config, n: nat)
    requires Valid(cfg) && n >= 1
    ensures Backoff(cfg, 1) == cfg.initial
    ensures Backoff(cfg, n + 1) == Min(cfg.ceiling, 2.0 * Backoff(cfg, n))
  {
    BackoffBounds(cfg, n, n + 1);
    assert cfg.initial * Pow2(n) == 2.0 * (cfg.initial * Pow2(n - 1));
  }

  lemma Scale(c: real, a: real, b: real)
    requires c > 0.0 && a <= b
    ensures c * a <= c * b
  {
  }

  lemma OneMore(n: real, c: real)
    ensures (n + 1.0) * c == n * c + c
  {
  }

  lemma Geometric(c: real, p: real)
    ensures c * (2.0 * p - 1.0) == c * (p - 1.0) + c * p
  {
  }

  function Total(waits: seq<real>): real {
    if waits == [] then 0.0 else Total(waits[..|waits| - 1]) + waits[|waits| - 1]
  }

  function CeilingTotal(cfg: Config, n: nat): real {
    n as real * cfg.ceiling
  }

  function GeometricTotal(cfg: Config, n: nat): real {
    cfg.initial * (Pow2(n) - 1.0)
  }

  lemma TotalsGrow(cfg: Config, n: nat)
    ensures CeilingTotal(cfg, n + 1) == CeilingTotal(cfg, n) + cfg.ceiling
    ensures GeometricTotal(cfg, n + 1) == GeometricTotal(cfg, n) + cfg.initial * Pow2(n)
  {
    OneMore(n as real, cfg.ceiling);
    Geometric(cfg.initial, Pow2(n));
  }

  /** However an email ends, it has waited no longer than n ceilings, and no longer than the
      geometric sum initial * (2^n - 1). */
  lemma {:induction false} WaitsBounded(cfg: Config, waits: seq<real>)
    requires Valid(cfg) && forall i :: 0 <= i < |waits| ==> waits[i] == Backoff(cfg, i + 1)
    ensures Total(waits) <= CeilingTotal(cfg, |waits|)
    ensures Total(waits) <= GeometricTotal(cfg, |waits|)
  {
    if waits != [] {
      var n := |waits| - 1;
      WaitsBounded(cfg, waits[..n]);
      TotalsGrow(cfg, n);
      assert waits[n] <= cfg.initial * Pow2(n);
      assert Total(waits) <= GeometricTotal(cfg, n) + cfg.initial * Pow2(n);
      assert n + 1 == |waits|;
    }
  }
}
