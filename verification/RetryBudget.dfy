/** The gateway client's retry budget: one model with retries, then its fallbacks. */
module RetryBudget {
  import opened Arithmetic
  import opened Sequences
  import opened Wrappers

  const BURST_RETRY_CEILING_SECS := 60

  datatype Policy = Policy(maxRetries: nat, baseDelayMs: nat, maxDelayMs: nat, fallbackModels: seq<string>)

  const DEFAULT_POLICY := Policy(6, 300, 12000, [])

  /** The only policies a client is built with: the default one, with fallback models. */
  function ProgramPolicy(fallbackModels: seq<string>): Policy {
    DEFAULT_POLICY.(fallbackModels := fallbackModels)
  }

  datatype ErrorClass = Transient | Permanent

  function LowerAscii(c: char): char {
    if 'A' <= c <= 'Z' then c - 'A' + 'a' else c
  }

  function ToLowerAscii(s: string): string {
    seq(|s|, i requires 0 <= i < |s| => LowerAscii(s[i]))
  }

  /** The body says the upstream timed out, which trying again would only repeat. */
  predicate IsTimeoutTagged(body: string) {
    var b := ToLowerAscii(body);
    Contains(b, "request_timed_out") || Contains(b, "\"type\":\"timeout\"")
  }

  function RetryCap(body: string, maxRetries: nat): nat {
    if IsTimeoutTagged(body) then 1 else maxRetries
  }

  /** `retry-after` is in seconds; an absent one does not count as exhausted here. */
  predicate IsExhaustedWindow(status: nat, retryAfter: Option<nat>) {
    status == 429 && retryAfter.Some? && retryAfter.value > BURST_RETRY_CEILING_SECS
  }

  function ClassifyStatus(status: nat, body: string): ErrorClass {
    if status == 429 then
      if Contains(body, "quota") || Contains(body, "billing") || Contains(body, "exceeded")
      then Permanent else Transient
    else if status in {500, 502, 503, 504, 408} then Transient
    else Permanent
  }

  /** The exponential delay before jitter. */
  function CappedDelay(attempt: nat, policy: Policy): nat {
    var base := policy.baseDelayMs * Pow2(attempt);
    if base < policy.maxDelayMs then base else policy.maxDelayMs
  }

  /** A jitter draw is a whole number of thousandths below one. */
  type Draw = x: nat | x < 1000

  function Jittered(capped: nat, draw: Draw): nat {
    var jitter := capped * draw / 1000;
    (if capped > jitter / 2 then capped - jitter / 2 else 0) + jitter
  }

  function JitteredDelay(attempt: nat, policy: Policy, draw: Draw): nat {
    Jittered(CappedDelay(attempt, policy), draw)
  }

  lemma {:induction false} JitterBelow(capped: nat, draw: Draw)
    ensures capped * draw / 1000 <= capped && (capped > 0 ==> capped * draw / 1000 < capped)
  {
    MulMonotone(draw, 999, capped);
    assert draw * capped == capped * draw;
    if capped > 0 {
      assert capped * draw < 1000 * capped;
    }
  }

  /** Every backoff lies between its cap and half as much again. */
  lemma {:induction false} JitterBounds(capped: nat, draw: Draw)
    ensures capped <= Jittered(capped, draw) && 2 * Jittered(capped, draw) <= 3 * capped
  {
    JitterBelow(capped, draw);
  }

  lemma {:induction false} CappedMonotone(i: nat, j: nat, policy: Policy)
    requires i <= j
    ensures CappedDelay(i, policy) <= CappedDelay(j, policy)
  {
    Pow2Monotone(i, j);
    MulMonotone(Pow2(i), Pow2(j), policy.baseDelayMs);
  }

  lemma {:induction false} JitteredMonotone(c: nat, d: Draw, c': nat, d': Draw)
    requires c <= c' && d <= d'
    ensures Jittered(c, d) <= Jittered(c', d')
  {
    MulMonotone(c, c', d);
    MulMonotone(d, d', c');
    assert c * d <= c' * d' by {
      assert d * c' == c' * d;
      assert d' * c' == c' * d';
    }
    JitterBelow(c, d);
    JitterBelow(c', d');
  }

  const MAX_DRAW: Draw := 999

  /** The last attempt a sleep can follow: an answer tagged as timed out is slept on once in any case. */
  function LastSlept(policy: Policy): nat {
    if policy.maxRetries == 0 then 0 else policy.maxRetries - 1
  }

  /** The longest backoff a policy can come to. */
  function LongestBackoff(policy: Policy): nat {
    JitteredDelay(LastSlept(policy), policy, MAX_DRAW)
  }

  lemma {:induction false} BackoffWithinLongest(attempt: nat, policy: Policy, draw: Draw)
    requires attempt <= LastSlept(policy)
    ensures JitteredDelay(attempt, policy, draw) <= LongestBackoff(policy)
  {
    CappedMonotone(attempt, LastSlept(policy), policy);
    JitteredMonotone(CappedDelay(attempt, policy), draw, CappedDelay(LastSlept(policy), policy), MAX_DRAW);
  }

  // ---- one model ---------------------------------------------------------------------------

  datatype Answer =
    | Unreachable
    | RequestError
    | UnreadableBody(status: nat)
    | Response(status: nat, retryAfter: Option<nat>, body: string, completion: Option<string>)

  datatype Strain =
    | TransientStrain(attempt: nat, status: nat, model: string, delayMs: nat)
    | Exhausted(attempts: nat, status: nat, model: string)

  /** How a call on one model ends; `Spent` is the bail after the loop. */
  datatype Outcome = Completed(text: string) | Failed | Spent

  /** What upstream answers to each attempt at a model, and the jitter drawn for it. */
  datatype Upstream = Upstream(answers: nat -> Answer, draws: nat -> Draw)

  predicate IsSuccess(status: nat) {
    200 <= status < 300
  }

  /** Is this answer slept on and followed by another attempt, if the loop allows one? */
  predicate GoesOn(a: Answer, attempt: nat, policy: Policy) {
    (a.Unreachable? && attempt != policy.maxRetries)
    || (a.Response? && !IsSuccess(a.status) && ClassifyStatus(a.status, a.body).Transient?
        && attempt < RetryCap(a.body, policy.maxRetries) && !IsExhaustedWindow(a.status, a.retryAfter))
  }

  function StatusOf(a: Answer): nat {
    if a.Response? then a.status else 0
  }

  function DelayOf(a: Answer, attempt: nat, policy: Policy, draw: Draw): nat {
    if a.Response? && a.retryAfter.Some? then a.retryAfter.value * 1000
    else JitteredDelay(attempt, policy, draw)
  }

  function EndOf(a: Answer): Outcome {
    if a.Response? && IsSuccess(a.status) && a.completion.Some? then Completed(a.completion.value) else Failed
  }

  function EndStrain(a: Answer, attempt: nat, model: string): seq<Strain> {
    if a.Response? && !IsSuccess(a.status) then [Exhausted(attempt + 1, a.status, model)] else []
  }

  function StrainOf(up: Upstream, policy: Policy, model: string, n: nat): (s: seq<Strain>)
    ensures |s| == n
  {
    if n == 0 then [] else StrainOf(up, policy, model, n - 1) + [EntryOf(up, policy, model, n - 1)]
  }

  function EntryOf(up: Upstream, policy: Policy, model: string, i: nat): Strain {
    TransientStrain(i, StatusOf(up.answers(i)), model, DelayOf(up.answers(i), i, policy, up.draws(i)))
  }

  lemma {:induction false} StrainAt(up: Upstream, policy: Policy, model: string, n: nat, i: nat)
    requires i < n
    ensures StrainOf(up, policy, model, n)[i] == EntryOf(up, policy, model, i)
  {
    if i == n - 1 {
    } else {
      StrainAt(up, policy, model, n - 1, i);
    }
  }

  /** What a call on one model comes to. */
  predicate IsModelCall(up: Upstream, policy: Policy, model: string, outcome: Outcome, strain: seq<Strain>,
                        requests: nat)
  {
    1 <= requests <= policy.maxRetries + 1
    && (forall i :: 0 <= i < requests - 1 ==> GoesOn(up.answers(i), i, policy))
    && (if outcome.Spent?
        then requests == policy.maxRetries + 1 && GoesOn(up.answers(requests - 1), requests - 1, policy)
             && strain == StrainOf(up, policy, model, requests)
        else !GoesOn(up.answers(requests - 1), requests - 1, policy) && outcome == EndOf(up.answers(requests - 1))
             && strain == StrainOf(up, policy, model, requests - 1)
                          + EndStrain(up.answers(requests - 1), requests - 1, model))
  }

  /** One attempt's answer: the outcome if the call ends here, and the strain it leaves. */
  method Judge(answer: Answer, attempt: nat, policy: Policy, model: string, draw: Draw)
    returns (end: Option<Outcome>, strain: seq<Strain>)
    ensures end.None? <==> GoesOn(answer, attempt, policy)
    ensures end.None? ==>
      strain == [TransientStrain(attempt, StatusOf(answer), model, DelayOf(answer, attempt, policy, draw))]
    ensures end.Some? ==> end.value == EndOf(answer) && strain == EndStrain(answer, attempt, model)
  {
    end, strain := Some(Failed), [];
    match answer {
      case Unreachable =>
        if attempt != policy.maxRetries {
          return None, [TransientStrain(attempt, 0, model, JitteredDelay(attempt, policy, draw))];
        }
      case RequestError =>
      case UnreadableBody(_) =>
      case Response(status, retryAfter, body, completion) =>
        if IsSuccess(status) {
          if completion.Some? {
            end := Some(Completed(completion.value));
          }
          return;
        }
        if ClassifyStatus(status, body).Transient? && attempt < RetryCap(body, policy.maxRetries)
           && !IsExhaustedWindow(status, retryAfter) {
          var delay := if retryAfter.Some? then retryAfter.value * 1000 else JitteredDelay(attempt, policy, draw);
          return None, [TransientStrain(attempt, status, model, delay)];
        }
        strain := [Exhausted(attempt + 1, status, model)];
    }
  }

  method TryModelWithRetries(up: Upstream, policy: Policy, model: string, strainBefore: seq<Strain>)
    returns (outcome: Outcome, strain: seq<Strain>, requests: nat)
    ensures |strainBefore| <= |strain| && strain[..|strainBefore|] == strainBefore
    ensures IsModelCall(up, policy, model, outcome, strain[|strainBefore|..], requests)
  {
    strain, requests := strainBefore, 0;
    for attempt := 0 to policy.maxRetries + 1
      invariant requests == attempt
      invariant forall i :: 0 <= i < attempt ==> GoesOn(up.answers(i), i, policy)
      invariant strain == strainBefore + StrainOf(up, policy, model, attempt)
    {
      requests := attempt + 1;
      var end, added := Judge(up.answers(attempt), attempt, policy, model, up.draws(attempt));
      ghost var earlier := StrainOf(up, policy, model, attempt);
      strain := strain + added;
      assert strain[|strainBefore|..] == earlier + added;
      if end.Some? {
        outcome := end.value;
        return;
      }
      assert earlier + added == StrainOf(up, policy, model, attempt + 1);
    }
    outcome := Spent;
    assert strain[|strainBefore|..] == StrainOf(up, policy, model, policy.maxRetries + 1);
  }

  /** The bail after the loop needs a policy without retries, and an answer tagged as timed out. */
  lemma {:induction false} SpentIff(
    up: Upstream, policy: Policy, model: string, outcome: Outcome, strain: seq<Strain>, requests: nat)
    requires IsModelCall(up, policy, model, outcome, strain, requests)
    ensures outcome.Spent? <==>
      policy.maxRetries == 0 && GoesOn(up.answers(0), 0, policy)
    ensures outcome.Spent? ==>
      up.answers(0).Response? && IsTimeoutTagged(up.answers(0).body) && policy.maxRetries == 0
  {
  }

  /** No client the program builds reaches it. */
  lemma {:induction false} NeverSpent(
    up: Upstream, fallbacks: seq<string>, model: string, outcome: Outcome, strain: seq<Strain>, requests: nat)
    requires IsModelCall(up, ProgramPolicy(fallbacks), model, outcome, strain, requests)
    ensures !outcome.Spent?
    ensures requests <= 7
  {
    SpentIff(up, ProgramPolicy(fallbacks), model, outcome, strain, requests);
  }

  /** A timeout-tagged answer after the first attempt ends the model. */
  lemma {:induction false} TaggedTimeoutEnds(
    up: Upstream, policy: Policy, model: string, outcome: Outcome, strain: seq<Strain>, requests: nat, i: nat)
    requires IsModelCall(up, policy, model, outcome, strain, requests)
    requires 1 <= i < requests && up.answers(i).Response? && IsTimeoutTagged(up.answers(i).body)
    ensures i == requests - 1 && !outcome.Spent?
  {
    assert !GoesOn(up.answers(i), i, policy);
  }

  /** What each wait was for, and how long it was. */
  lemma {:induction false} WaitIsDelay(
    up: Upstream, policy: Policy, model: string, outcome: Outcome, strain: seq<Strain>, requests: nat, i: nat)
    requires IsModelCall(up, policy, model, outcome, strain, requests)
    requires i < |strain| && strain[i].TransientStrain?
    ensures strain[i]
      == TransientStrain(i, StatusOf(up.answers(i)), model, DelayOf(up.answers(i), i, policy, up.draws(i)))
    ensures GoesOn(up.answers(i), i, policy) && i <= LastSlept(policy)
  {
    var n := if outcome.Spent? then requests else requests - 1;
    if i < n {
      StrainAt(up, policy, model, n, i);
    }
    assert i < n ==> GoesOn(up.answers(i), i, policy);
  }

  predicate NamesWait(a: Answer) {
    a.Response? && a.retryAfter.Some?
  }

  /** A named wait is slept on as it is, unless a 429 names one above the ceiling; others are backoffs. */
  lemma {:induction false} WaitMeaning(
    up: Upstream, policy: Policy, model: string, outcome: Outcome, strain: seq<Strain>, requests: nat, i: nat)
    requires IsModelCall(up, policy, model, outcome, strain, requests)
    requires i < |strain| && strain[i].TransientStrain?
    ensures strain[i].attempt == i && strain[i].model == model
    ensures NamesWait(up.answers(i)) ==> strain[i].delayMs == up.answers(i).retryAfter.value * 1000
    ensures NamesWait(up.answers(i)) && up.answers(i).status == 429 ==>
      strain[i].delayMs <= BURST_RETRY_CEILING_SECS * 1000
    ensures !NamesWait(up.answers(i)) ==>
      CappedDelay(i, policy) <= strain[i].delayMs && 2 * strain[i].delayMs <= 3 * CappedDelay(i, policy)
      && strain[i].delayMs <= LongestBackoff(policy)
  {
    WaitIsDelay(up, policy, model, outcome, strain, requests, i);
    JitterBounds(CappedDelay(i, policy), up.draws(i));
    BackoffWithinLongest(i, policy, up.draws(i));
  }

  const CEILING_MS := BURST_RETRY_CEILING_SECS * 1000

  /**
   * Where no backoff is longer than the ceiling, a wait is longer exactly when an answer other
   * than a 429 names such a wait. In particular no 429 is slept on past the ceiling.
   */
  lemma {:induction false} LongWaitIff(
    up: Upstream, policy: Policy, model: string, outcome: Outcome, strain: seq<Strain>, requests: nat, i: nat)
    requires IsModelCall(up, policy, model, outcome, strain, requests)
    requires i < |strain| && strain[i].TransientStrain? && LongestBackoff(policy) <= CEILING_MS
    ensures strain[i].delayMs > CEILING_MS <==>
      NamesWait(up.answers(i)) && up.answers(i).status != 429
      && up.answers(i).retryAfter.value > BURST_RETRY_CEILING_SECS
    ensures strain[i].status == 429 ==> strain[i].delayMs <= CEILING_MS
  {
    WaitMeaning(up, policy, model, outcome, strain, requests, i);
    WaitIsDelay(up, policy, model, outcome, strain, requests, i);
  }

  /** A 429 naming no wait, whatever the attempt, with the greatest jitter. */
  function Overloaded(): Upstream {
    Upstream((i: nat) => Response(429, None, "", None), (i: nat) => MAX_DRAW)
  }

  /** Any other policy that retries does sleep on a 429 past the ceiling: here is the run. */
  lemma {:induction false} LongestBackoffReached(policy: Policy, model: string)
    returns (outcome: Outcome, strain: seq<Strain>, i: nat)
    requires policy.maxRetries > 0
    ensures IsModelCall(Overloaded(), policy, model, outcome, strain, policy.maxRetries + 1)
    ensures i < |strain| && strain[i].TransientStrain? && strain[i].status == 429
    ensures strain[i].delayMs == LongestBackoff(policy)
  {
    var up, n := Overloaded(), policy.maxRetries;
    assert !Contains("", "quota") && !Contains("", "billing") && !Contains("", "exceeded");
    assert !Contains("", "request_timed_out") && !Contains("", "\"type\":\"timeout\"");
    assert ToLowerAscii("") == "";
    assert forall j :: 0 <= j < n ==> GoesOn(up.answers(j), j, policy);
    outcome := Failed;
    strain := StrainOf(up, policy, model, n) + EndStrain(up.answers(n), n, model);
    i := n - 1;
  }

  /** A cap of forty seconds is enough, and the program's is twelve. */
  lemma {:induction false} ShortCapSuffices(policy: Policy)
    requires policy.maxDelayMs <= 40000
    ensures LongestBackoff(policy) <= CEILING_MS
  {
    JitterBounds(CappedDelay(LastSlept(policy), policy), MAX_DRAW);
  }

  /** For every client the program builds: no 429 is slept on past sixty seconds. */
  lemma {:induction false} NoLongRateLimitWait(
    up: Upstream, fallbacks: seq<string>, model: string, outcome: Outcome, strain: seq<Strain>, requests: nat, i: nat)
    requires IsModelCall(up, ProgramPolicy(fallbacks), model, outcome, strain, requests)
    requires i < |strain| && strain[i].TransientStrain?
    ensures strain[i].status == 429 ==> strain[i].delayMs <= 60000
    ensures strain[i].delayMs > 60000 <==>
      NamesWait(up.answers(i)) && up.answers(i).status != 429 && up.answers(i).retryAfter.value > 60
  {
    ShortCapSuffices(ProgramPolicy(fallbacks));
    LongWaitIff(up, ProgramPolicy(fallbacks), model, outcome, strain, requests, i);
  }

  /** The same answer every time, naming a wait. */
  function Naming(status: nat, seconds: nat): Upstream {
    Upstream((i: nat) => Response(status, Some(seconds), "", None), (i: nat) => 0)
  }

  /**
   * Both sides of the condition, for the program's policy: a 429 naming 11997 seconds fails at
   * once, a 503 naming as much is slept on in full.
   */
  lemma {:induction false} LongNamedWaits(model: string) returns (strain: seq<Strain>)
    ensures IsModelCall(Naming(429, 11997), DEFAULT_POLICY, model, Failed, [Exhausted(1, 429, model)], 1)
    ensures IsModelCall(Naming(503, 11997), DEFAULT_POLICY, model, Failed, strain, 7)
    ensures strain != [] && strain[0] == TransientStrain(0, 503, model, 11997000)
  {
    var refused, down := Naming(429, 11997), Naming(503, 11997);
    assert StrainOf(refused, DEFAULT_POLICY, model, 0) == [];
    assert ToLowerAscii("") == "";
    assert !Contains("", "request_timed_out") && !Contains("", "\"type\":\"timeout\"");
    assert forall j :: 0 <= j < 6 ==> GoesOn(down.answers(j), j, DEFAULT_POLICY);
    StrainAt(down, DEFAULT_POLICY, model, 6, 0);
    strain := StrainOf(down, DEFAULT_POLICY, model, 6) + EndStrain(down.answers(6), 6, model);
  }

  // ---- the whole call ----------------------------------------------------------------------

  /** How many requests a model takes, counting from attempt `from` on. */
  function Requests(up: Upstream, policy: Policy, from: nat): (n: nat)
    requires from <= policy.maxRetries
    ensures from < n <= policy.maxRetries + 1
    decreases policy.maxRetries - from
  {
    if from == policy.maxRetries || !GoesOn(up.answers(from), from, policy) then from + 1
    else Requests(up, policy, from + 1)
  }

  /** What a model gives in the end. */
  function Given(up: Upstream, policy: Policy): Option<string> {
    var last := Requests(up, policy, 0) - 1;
    var a := up.answers(last);
    if !GoesOn(a, last, policy) && EndOf(a).Completed? then Some(EndOf(a).text) else None
  }

  lemma {:induction false} RequestsCounted(up: Upstream, policy: Policy, from: nat, requests: nat)
    requires from < requests <= policy.maxRetries + 1
    requires forall i :: from <= i < requests - 1 ==> GoesOn(up.answers(i), i, policy)
    requires requests == policy.maxRetries + 1 || !GoesOn(up.answers(requests - 1), requests - 1, policy)
    ensures Requests(up, policy, from) == requests
    decreases requests - from
  {
    if from == requests - 1 {
    } else {
      assert GoesOn(up.answers(from), from, policy);
      RequestsCounted(up, policy, from + 1, requests);
    }
  }

  /** The strain a model leaves: one entry for each attempt that went on, and one for a refusal. */
  function Left(up: Upstream, policy: Policy, model: string): seq<Strain> {
    var n := Requests(up, policy, 0);
    if GoesOn(up.answers(n - 1), n - 1, policy) then StrainOf(up, policy, model, n)
    else StrainOf(up, policy, model, n - 1) + EndStrain(up.answers(n - 1), n - 1, model)
  }

  /** The models in the order they are tried: the requested one, then the fallbacks. */
  function ModelAt(policy: Policy, model: string, i: nat): string
    requires i <= |policy.fallbackModels|
  {
    if i == 0 then model else policy.fallbackModels[i - 1]
  }

  /** The strain the first `n` models leave, in order. */
  function AllLeft(ups: nat -> Upstream, policy: Policy, model: string, n: nat): seq<Strain>
    requires n <= 1 + |policy.fallbackModels|
  {
    if n == 0 then []
    else AllLeft(ups, policy, model, n - 1) + Left(ups(n - 1), policy, ModelAt(policy, model, n - 1))
  }

  /** A call on one model is decided by its answers. */
  lemma {:induction false} ModelCallIsDetermined(
    up: Upstream, policy: Policy, model: string, outcome: Outcome, strain: seq<Strain>, requests: nat)
    requires IsModelCall(up, policy, model, outcome, strain, requests)
    ensures requests == Requests(up, policy, 0) && strain == Left(up, policy, model)
    ensures Given(up, policy) == if outcome.Completed? then Some(outcome.text) else None
  {
    RequestsCounted(up, policy, 0, requests);
  }

  /** One model, for what it gives and how many requests that takes. */
  method TryModel(up: Upstream, policy: Policy, model: string, strainBefore: seq<Strain>)
    returns (text: Option<string>, strain: seq<Strain>, requests: nat)
    ensures text == Given(up, policy) && requests == Requests(up, policy, 0)
    ensures strain == strainBefore + Left(up, policy, model)
  {
    var outcome;
    outcome, strain, requests := TryModelWithRetries(up, policy, model, strainBefore);
    ModelCallIsDetermined(up, policy, model, outcome, strain[|strainBefore|..], requests);
    text := if outcome.Completed? then Some(outcome.text) else None;
  }

  /** A call that has tried the first models: how many requests each took, and that all but the last gave nothing. */
  predicate Tried(ups: nat -> Upstream, policy: Policy, requests: seq<nat>, text: Option<string>) {
    0 < |requests| <= 1 + |policy.fallbackModels|
    && (forall i :: 0 <= i < |requests| ==> requests[i] == Requests(ups(i), policy, 0))
    && (forall i :: 0 <= i < |requests| - 1 ==> Given(ups(i), policy).None?)
    && text == Given(ups(|requests| - 1), policy)
  }

  lemma {:induction false} TriedNext(ups: nat -> Upstream, policy: Policy, requests: seq<nat>, n: nat)
    requires Tried(ups, policy, requests, None) && n == |requests| <= |policy.fallbackModels|
    ensures Tried(ups, policy, requests + [Requests(ups(n), policy, 0)], Given(ups(n), policy))
  {
    assert forall i :: 0 <= i < n ==> Given(ups(i), policy).None?;
  }

  /** The model at place `i`, after those before it. */
  method TryNext(ups: nat -> Upstream, policy: Policy, ghost primary: string, i: nat, model: string,
                 strainBefore: seq<Strain>)
    returns (text: Option<string>, strain: seq<Strain>, requests: nat)
    requires i <= |policy.fallbackModels| && model == ModelAt(policy, primary, i)
    requires strainBefore == AllLeft(ups, policy, primary, i)
    ensures text == Given(ups(i), policy) && requests == Requests(ups(i), policy, 0)
    ensures strain == AllLeft(ups, policy, primary, i + 1)
  {
    text, strain, requests := TryModel(ups(i), policy, model, strainBefore);
  }

  /** The whole call: the primary model, then the fallbacks in turn, until one completes. */
  method ChatCompletion(ups: nat -> Upstream, model: string, policy: Policy)
    returns (text: Option<string>, strain: seq<Strain>, requests: seq<nat>)
    ensures Tried(ups, policy, requests, text)
    ensures strain == AllLeft(ups, policy, model, |requests|)
    ensures text.None? ==> |requests| == 1 + |policy.fallbackModels|
  {
    var n;
    text, strain, n := TryNext(ups, policy, model, 0, model, []);
    requests := [n];
    if text.Some? {
      return;
    }
    for i := 0 to |policy.fallbackModels|
      invariant |requests| == i + 1 && text.None?
      invariant Tried(ups, policy, requests, text)
      invariant strain == AllLeft(ups, policy, model, i + 1)
    {
      TriedNext(ups, policy, requests, i + 1);
      text, strain, n := TryNext(ups, policy, model, i + 1, policy.fallbackModels[i], strain);
      requests := requests + [n];
      if text.Some? {
        return;
      }
    }
  }

  /** The whole call takes at most one full budget for each model. */
  lemma {:induction false} WholeCallBudget(
    ups: nat -> Upstream, policy: Policy, requests: seq<nat>, text: Option<string>)
    requires Tried(ups, policy, requests, text)
    ensures Total(requests) <= (1 + |policy.fallbackModels|) * (policy.maxRetries + 1)
  {
    TotalBounded(requests, policy.maxRetries + 1);
    MulMonotone(|requests|, 1 + |policy.fallbackModels|, policy.maxRetries + 1);
  }

  function Total(ns: seq<nat>): nat {
    if ns == [] then 0 else Total(ns[..|ns| - 1]) + ns[|ns| - 1]
  }

  lemma {:induction false} TotalBounded(ns: seq<nat>, each: nat)
    requires forall i :: 0 <= i < |ns| ==> ns[i] <= each
    ensures Total(ns) <= |ns| * each
  {
    if ns == [] {
    } else {
      TotalBounded(ns[..|ns| - 1], each);
      assert |ns| * each == (|ns| - 1) * each + each;
    }
  }
}
