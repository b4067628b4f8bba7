/** What the subscription provider's retry loop makes of its answers, whatever they are. */
module ClaudeRetry {
  import opened Arithmetic
  import opened Wrappers

  const MAX_ATTEMPTS: nat := 4
  const BURST_RETRY_CEILING_SECS := 60
  const DEFAULT_WINDOW_COOLDOWN_MS := 15 * 60 * 1000

  datatype ErrorClass = Transient | Permanent

  function ClassifyStatus(status: nat): ErrorClass {
    if status in {429, 500, 502, 503, 504, 408, 529} then Transient else Permanent
  }

  predicate IsSuccess(status: nat) {
    200 <= status < 300
  }

  /** A spent quota window rather than a burst limit. */
  predicate IsExhaustedWindow(status: nat, retryAfter: Option<nat>) {
    status == 429 && (retryAfter.None? || retryAfter.value > BURST_RETRY_CEILING_SECS)
  }

  predicate IsAuthFailure(status: nat) {
    status == 401 || status == 403
  }

  /** When a login is worth trying again: the reset on the wire, else `retry-after`, else a cooldown. */
  function WindowResumesAt(now: nat, resetSecs: Option<nat>, retryAfter: Option<nat>): (at: nat)
    ensures at >= now
    ensures resetSecs.Some? && resetSecs.value * 1000 > now ==> at == resetSecs.value * 1000
    ensures !(resetSecs.Some? && resetSecs.value * 1000 > now) ==>
      at == now + if retryAfter.Some? then retryAfter.value * 1000 else DEFAULT_WINDOW_COOLDOWN_MS
  {
    if resetSecs.Some? && resetSecs.value * 1000 > now then resetSecs.value * 1000
    else if retryAfter.Some? then now + retryAfter.value * 1000
    else now + DEFAULT_WINDOW_COOLDOWN_MS
  }

  function Backoff(attempt: nat): nat {
    var base := 400 * Pow2(attempt);
    if base < 8000 then base else 8000
  }

  /** What a successful response holds. */
  datatype Body = BrokenBody | EmptyCompletion | Completion(text: string)

  /** How one round went: the token lookup, the request, and whether a rotation found a login. */
  datatype Answer =
    | NoToken
    | Unreachable
    | RequestError
    | Response(status: nat, retryAfter: Option<nat>, body: Body, rotates: bool)

  datatype Strain =
    | TransientStrain(attempt: nat, status: nat, delayMs: nat)
    | Exhausted(attempts: nat, status: nat)

  datatype Outcome = Completed(text: string) | Failed | FellThrough

  /** Does this answer move the provider to another login? */
  predicate Moves(a: Answer) {
    a.Response? && !IsSuccess(a.status)
    && (IsExhaustedWindow(a.status, a.retryAfter) || IsAuthFailure(a.status)) && a.rotates
  }

  /** Is this answer worth another try on the same login? */
  predicate WaitsOn(a: Answer) {
    a.Unreachable?
    || (a.Response? && if IsSuccess(a.status) then a.body.EmptyCompletion?
                       else !Moves(a) && ClassifyStatus(a.status).Transient?)
  }

  /** Does the loop go round again after answer `a` to this attempt? */
  predicate GoesOn(a: Answer, attempt: nat) {
    Moves(a) || (WaitsOn(a) && attempt + 1 < MAX_ATTEMPTS)
  }

  function DelayOf(a: Answer, attempt: nat): nat {
    if Moves(a) then 0 else Backoff(attempt)
  }

  function StatusOf(a: Answer): nat {
    if a.Response? then a.status else 0
  }

  /** One entry for each attempt that was followed by another. */
  function StrainOf(answers: seq<Answer>, n: nat): (s: seq<Strain>)
    requires n <= |answers|
    ensures |s| == n
    ensures forall i :: 0 <= i < n ==>
      s[i] == TransientStrain(i, StatusOf(answers[i]), DelayOf(answers[i], i))
  {
    seq(n, i requires 0 <= i < n => TransientStrain(i, StatusOf(answers[i]), DelayOf(answers[i], i)))
  }

  function TotalDelay(strain: seq<Strain>): nat {
    if strain == [] then 0
    else
      TotalDelay(strain[..|strain| - 1])
      + (if strain[|strain| - 1].TransientStrain? then strain[|strain| - 1].delayMs else 0)
  }

  /** How a call that stops at its last answer ends. */
  function EndOf(a: Answer): Outcome {
    if a.Response? && IsSuccess(a.status) && a.body.Completion? then Completed(a.body.text) else Failed
  }

  function EndStrain(a: Answer, attempt: nat): seq<Strain> {
    if a.Response? && !IsSuccess(a.status) then [Exhausted(attempt + 1, a.status)] else []
  }

  /**
   * What a call over `answers` comes to: it goes round while the answers ask for it, and ends at
   * the first that does not. `rounds` counts the attempts begun, `slept` the milliseconds waited.
   */
  predicate IsCall(answers: seq<Answer>, outcome: Outcome, strain: seq<Strain>, rounds: nat, slept: nat)
    requires |answers| == MAX_ATTEMPTS
  {
    1 <= rounds <= MAX_ATTEMPTS
    && (forall i :: 0 <= i < rounds - 1 ==> GoesOn(answers[i], i))
    && (if outcome.FellThrough?
        then rounds == MAX_ATTEMPTS && GoesOn(answers[rounds - 1], rounds - 1)
             && strain == StrainOf(answers, rounds)
        else !GoesOn(answers[rounds - 1], rounds - 1) && outcome == EndOf(answers[rounds - 1])
             && strain == StrainOf(answers, rounds - 1) + EndStrain(answers[rounds - 1], rounds - 1))
    && slept == TotalDelay(strain)
  }

  /** One attempt's answer: the outcome if the call ends here, and the strain it leaves. */
  method Judge(answer: Answer, attempt: nat) returns (end: Option<Outcome>, strain: seq<Strain>)
    requires attempt < MAX_ATTEMPTS
    ensures end.None? <==> GoesOn(answer, attempt)
    ensures end.None? ==> strain == [TransientStrain(attempt, StatusOf(answer), DelayOf(answer, attempt))]
    ensures end.Some? ==> end.value == EndOf(answer) && strain == EndStrain(answer, attempt)
  {
    var delay := Backoff(attempt);
    end, strain := Some(Failed), [];
    match answer {
      case NoToken =>
      case RequestError =>
      case Unreachable =>
        if attempt + 1 < MAX_ATTEMPTS {
          return None, [TransientStrain(attempt, 0, delay)];
        }
      case Response(status, retryAfter, body, rotates) =>
        if IsSuccess(status) {
          if body.EmptyCompletion? && attempt + 1 < MAX_ATTEMPTS {
            return None, [TransientStrain(attempt, status, delay)];
          }
          if body.Completion? {
            return Some(Completed(body.text)), [];
          }
          return;
        }
        if (IsExhaustedWindow(status, retryAfter) || IsAuthFailure(status)) && rotates {
          return None, [TransientStrain(attempt, status, 0)];
        }
        if ClassifyStatus(status).Transient? && attempt + 1 < MAX_ATTEMPTS {
          return None, [TransientStrain(attempt, status, delay)];
        }
        strain := [Exhausted(attempt + 1, status)];
    }
  }

  lemma {:induction false} StrainStep(answers: seq<Answer>, n: nat)
    requires n < |answers|
    ensures var entry := TransientStrain(n, StatusOf(answers[n]), DelayOf(answers[n], n));
      StrainOf(answers, n + 1) == StrainOf(answers, n) + [entry]
      && TotalDelay(StrainOf(answers, n + 1)) == TotalDelay(StrainOf(answers, n)) + entry.delayMs
  {
    assert StrainOf(answers, n + 1)[..n] == StrainOf(answers, n);
  }

  lemma {:induction false} EndKeepsDelay(answers: seq<Answer>, n: nat)
    requires n < |answers|
    ensures TotalDelay(StrainOf(answers, n) + EndStrain(answers[n], n)) == TotalDelay(StrainOf(answers, n))
  {
    TotalDelayConcat(StrainOf(answers, n), EndStrain(answers[n], n));
    TotalDelayOne(EndStrain(answers[n], n));
  }

  lemma {:induction false} TotalDelayOne(strain: seq<Strain>)
    requires |strain| <= 1
    ensures TotalDelay(strain) == if strain != [] && strain[0].TransientStrain? then strain[0].delayMs else 0
  {
    if strain != [] {
      assert strain[..0] == [];
    }
  }

  /** A call whose first `n` attempts all went on. */
  predicate WentOn(answers: seq<Answer>, n: nat, strain: seq<Strain>, slept: nat)
    requires |answers| == MAX_ATTEMPTS && n <= MAX_ATTEMPTS
  {
    (forall i :: 0 <= i < n ==> GoesOn(answers[i], i))
    && strain == StrainOf(answers, n) && slept == TotalDelay(strain)
  }

  lemma {:induction false} WentOnNext(answers: seq<Answer>, n: nat, strain: seq<Strain>, slept: nat, delay: nat)
    requires |answers| == MAX_ATTEMPTS && n < MAX_ATTEMPTS && WentOn(answers, n, strain, slept)
    requires GoesOn(answers[n], n) && delay == DelayOf(answers[n], n)
    ensures WentOn(answers, n + 1, strain + [TransientStrain(n, StatusOf(answers[n]), delay)], slept + delay)
  {
    StrainStep(answers, n);
  }

  /** It ends at the first attempt that does not. */
  lemma {:induction false} WentOnEnds(answers: seq<Answer>, n: nat, strain: seq<Strain>, slept: nat)
    requires |answers| == MAX_ATTEMPTS && n < MAX_ATTEMPTS && WentOn(answers, n, strain, slept)
    requires !GoesOn(answers[n], n)
    ensures IsCall(answers, EndOf(answers[n]), strain + EndStrain(answers[n], n), n + 1, slept)
  {
    EndKeepsDelay(answers, n);
  }

  /** Or falls past the loop when there is none. */
  lemma {:induction false} WentOnFalls(answers: seq<Answer>, strain: seq<Strain>, slept: nat)
    requires |answers| == MAX_ATTEMPTS && WentOn(answers, MAX_ATTEMPTS, strain, slept)
    ensures IsCall(answers, FellThrough, strain, MAX_ATTEMPTS, slept)
  {
  }

  lemma {:induction false} AllGoOnFalls(answers: seq<Answer>) returns (strain: seq<Strain>, slept: nat)
    requires |answers| == MAX_ATTEMPTS && forall i :: 0 <= i < MAX_ATTEMPTS ==> GoesOn(answers[i], i)
    ensures IsCall(answers, FellThrough, strain, MAX_ATTEMPTS, slept)
  {
    strain := StrainOf(answers, MAX_ATTEMPTS);
    slept := TotalDelay(strain);
    WentOnFalls(answers, strain, slept);
  }

  // ---- what holds of every call ------------------------------------------------------------

  lemma {:induction false} TotalDelayConcat(a: seq<Strain>, b: seq<Strain>)
    ensures TotalDelay(a + b) == TotalDelay(a) + TotalDelay(b)
  {
    if b == [] {
      assert a + b == a;
    } else {
      assert (a + b)[..|a + b| - 1] == a + b[..|b| - 1];
      TotalDelayConcat(a, b[..|b| - 1]);
    }
  }

  /** Backing off before every further attempt at most: 400, 800 and 1600 milliseconds. */
  function Budget(n: nat): nat {
    if n == 0 then 0 else Budget(n - 1) + Backoff(n - 1)
  }

  lemma {:induction false} StrainWithinBudget(answers: seq<Answer>, n: nat)
    requires n <= |answers|
    ensures TotalDelay(StrainOf(answers, n)) <= Budget(n)
  {
    if n == 0 {
    } else {
      StrainWithinBudget(answers, n - 1);
      assert StrainOf(answers, n)[..n - 1] == StrainOf(answers, n - 1);
    }
  }

  /** No call waits longer than 2800 milliseconds in all. */
  lemma {:induction false} SleepsAtMost(
    answers: seq<Answer>, outcome: Outcome, strain: seq<Strain>, rounds: nat, slept: nat)
    requires |answers| == MAX_ATTEMPTS && IsCall(answers, outcome, strain, rounds, slept)
    ensures slept <= 2800
  {
    assert Pow2(1) == 2 && Pow2(2) == 4;
    assert Budget(3) == 2800;
    assert Budget(1) <= Budget(2) <= Budget(3);
    if outcome.FellThrough? {
      // The fourth answer moved the provider, so nothing is slept after it.
      StrainWithinBudget(answers, 3);
      StrainStep(answers, 3);
    } else {
      StrainWithinBudget(answers, rounds - 1);
      EndKeepsDelay(answers, rounds - 1);
    }
  }

  /** Control falls past the loop exactly when every attempt goes on and the last one rotated. */
  lemma {:induction false} FallsThroughIff(
    answers: seq<Answer>, outcome: Outcome, strain: seq<Strain>, rounds: nat, slept: nat)
    requires |answers| == MAX_ATTEMPTS && IsCall(answers, outcome, strain, rounds, slept)
    ensures outcome.FellThrough? <==>
      (forall i :: 0 <= i < MAX_ATTEMPTS - 1 ==> GoesOn(answers[i], i)) && Moves(answers[MAX_ATTEMPTS - 1])
  {
    if !outcome.FellThrough? {
      assert !GoesOn(answers[rounds - 1], rounds - 1);
    }
  }

  /** A completed call's strain has one entry for each earlier attempt, and no more. */
  lemma {:induction false} StrainOnSuccess(
    answers: seq<Answer>, outcome: Outcome, strain: seq<Strain>, rounds: nat, slept: nat)
    requires |answers| == MAX_ATTEMPTS && IsCall(answers, outcome, strain, rounds, slept) && outcome.Completed?
    ensures |strain| == rounds - 1
    ensures forall i :: 0 <= i < |strain| ==>
      strain[i].TransientStrain? && strain[i].attempt == i && strain[i].status == StatusOf(answers[i])
  {
    assert strain == StrainOf(answers, rounds - 1) + [];
  }

  /** The call is decided by the answers: two runs over the same answers come to the same. */
  lemma {:induction false} CallIsDetermined(
    answers: seq<Answer>, o: Outcome, s: seq<Strain>, r: nat, t: nat, o': Outcome, s': seq<Strain>, r': nat, t': nat)
    requires |answers| == MAX_ATTEMPTS && IsCall(answers, o, s, r, t) && IsCall(answers, o', s', r', t')
    ensures o == o' && s == s' && r == r' && t == t'
  {
    assert !(r < r') && !(r' < r);
  }
}
