/**
 * The subscription provider's retry loop over its logins: only the upstream's answers, the files
 * and what other requests do meanwhile come from outside.
 */
module ClaudeCall {
  import opened Wrappers
  import opened ClaudeRetry
  import opened Logins

  /** What upstream answers to one request. */
  datatype Http =
    | NoConnection
    | Broken
    | Status(status: nat, retryAfter: Option<nat>, resetSecs: Option<nat>, body: Body)

  /**
   * One attempt: what other requests do to the logins since the last one, what looking for a token
   * meets, the answer, what other requests do before it comes, and the time and what looking at
   * each login meets in a rotation.
   */
  datatype Attempt = Attempt(
    before: seq<Op>, look: Env, http: Http, others: seq<Op>, now: nat, envs: nat -> Env)

  predicate Playable(s: Held, a: Attempt) {
    AllInRange(s, a.before) && OpsFit(|s.tokens|, a.others)
  }

  /** Does this answer call for another login? */
  predicate WantsMove(http: Http) {
    http.Status? && !IsSuccess(http.status)
    && (IsExhaustedWindow(http.status, http.retryAfter) || IsAuthFailure(http.status))
  }

  // ---- one attempt -------------------------------------------------------------------------

  /** The logins when the attempt begins. */
  function Begun(s: Held, a: Attempt): (s': Held)
    requires Playable(s, a)
    ensures |s'.tokens| == |s.tokens| && s'.active < |s'.tokens|
  {
    AfterOps(s, a.before)
  }

  /** The login it speaks as. */
  function Account(s: Held, a: Attempt): (account: nat)
    requires Playable(s, a)
    ensures account < |s.tokens|
  {
    Begun(s, a).active
  }

  function Looked(s: Held, a: Attempt): (s': Held)
    requires Playable(s, a)
    ensures |s'.tokens| == |s.tokens| && s'.active == Account(s, a)
  {
    AfterOp(Begun(s, a), Use(a.look))
  }

  predicate HasToken(s: Held, a: Attempt)
    requires Playable(s, a)
  {
    NonEmpty(Looked(s, a).tokens[Account(s, a)].accessToken)
  }

  /** The logins when the answer is there. */
  function Answered(s: Held, a: Attempt): (s': Held)
    requires Playable(s, a)
    ensures |s'.tokens| == |s.tokens| && s'.active < |s'.tokens|
  {
    AfterOps(Looked(s, a), a.others)
  }

  function Moved(s: Held, a: Attempt): Rotation
    requires Playable(s, a) && a.http.Status?
  {
    Rotated(Answered(s, a), Account(s, a), WindowResumesAt(a.now, a.http.resetSecs, a.http.retryAfter), a.now, a.envs)
  }

  function AnswerOf(s: Held, a: Attempt): Answer
    requires Playable(s, a)
  {
    if !HasToken(s, a) then NoToken
    else
      match a.http
      case NoConnection => Unreachable
      case Broken => RequestError
      case Status(status, retryAfter, _, body) =>
        Response(status, retryAfter, body, WantsMove(a.http) && Moved(s, a).answer.Some?)
  }

  function HeldAfter(s: Held, a: Attempt): (s': Held)
    requires Playable(s, a)
    ensures |s'.tokens| == |s.tokens| && s'.active < |s'.tokens|
  {
    if !HasToken(s, a) then Looked(s, a)
    else if WantsMove(a.http) then Moved(s, a).held
    else Answered(s, a)
  }

  // ---- the whole call ----------------------------------------------------------------------

  predicate AllPlayable(s: Held, attempts: seq<Attempt>) {
    s.active < |s.tokens| && forall n :: 0 <= n < |attempts| ==>
      OpsFit(|s.tokens|, attempts[n].before) && OpsFit(|s.tokens|, attempts[n].others)
  }

  /** The logins before attempt `n`. */
  function HeldAt(s: Held, attempts: seq<Attempt>, n: nat): (s': Held)
    requires n <= |attempts| && AllPlayable(s, attempts)
    ensures |s'.tokens| == |s.tokens| && s'.active < |s'.tokens|
  {
    if n == 0 then s else HeldAfter(HeldAt(s, attempts, n - 1), attempts[n - 1])
  }

  function AnswerAt(s: Held, attempts: seq<Attempt>, n: nat): Answer
    requires n < |attempts| && AllPlayable(s, attempts)
  {
    AnswerOf(HeldAt(s, attempts, n), attempts[n])
  }

  function Answers(s: Held, attempts: seq<Attempt>): (answers: seq<Answer>)
    requires AllPlayable(s, attempts)
    ensures |answers| == |attempts|
    ensures forall n :: 0 <= n < |attempts| ==> answers[n] == AnswerAt(s, attempts, n)
  {
    seq(|attempts|, n requires 0 <= n < |attempts| => AnswerAt(s, attempts, n))
  }

  lemma {:induction false} NextAttempt(s: Held, attempts: seq<Attempt>, n: nat)
    requires AllPlayable(s, attempts) && n < |attempts|
    ensures Playable(HeldAt(s, attempts, n), attempts[n])
    ensures HeldAt(s, attempts, n + 1) == HeldAfter(HeldAt(s, attempts, n), attempts[n])
    ensures Answers(s, attempts)[n] == AnswerOf(HeldAt(s, attempts, n), attempts[n])
  {
  }

  method LetOthersRun(accounts: Accounts, ops: seq<Op>)
    requires AllInRange(accounts.State(), ops)
    modifies accounts
    ensures accounts.State() == AfterOps(old(accounts.State()), ops)
  {
    ghost var s := accounts.State();
    for i := 0 to |ops|
      invariant AllInRange(s, ops[..i]) && accounts.State() == AfterOps(s, ops[..i])
    {
      assert ops[..i + 1][..i] == ops[..i] && ops[..i + 1][i] == ops[i];
      match ops[i] {
        case Use(env) => var token := accounts.CurrentAccessToken(env);
        case Rotate(from, resumesAt, now, envs) => var answer := accounts.RotateAccount(from, resumesAt, now, envs);
      }
    }
    assert ops[..|ops|] == ops;
  }

  /** One round of the loop, up to the point where its answer is judged. */
  method Try(accounts: Accounts, a: Attempt) returns (answer: Answer)
    requires Playable(accounts.State(), a)
    modifies accounts
    ensures answer == AnswerOf(old(accounts.State()), a)
    ensures accounts.State() == HeldAfter(old(accounts.State()), a)
  {
    LetOthersRun(accounts, a.before);
    var token := accounts.CurrentAccessToken(a.look);
    if token.None? {
      return NoToken;
    }
    var account := token.value.1;
    LetOthersRun(accounts, a.others);
    match a.http {
      case NoConnection => answer := Unreachable;
      case Broken => answer := RequestError;
      case Status(status, retryAfter, resetSecs, body) =>
        var rotates := false;
        if !IsSuccess(status) && (IsExhaustedWindow(status, retryAfter) || IsAuthFailure(status)) {
          var moved := accounts.RotateAccount(account, WindowResumesAt(a.now, resetSecs, retryAfter), a.now, a.envs);
          rotates := moved.Some?;
        }
        answer := Response(status, retryAfter, body, rotates);
    }
  }

  /** Round `n` of a call that began with the logins `s`. */
  method Round(accounts: Accounts, ghost s: Held, attempts: seq<Attempt>, n: nat) returns (answer: Answer)
    requires n < |attempts| && AllPlayable(s, attempts) && accounts.State() == HeldAt(s, attempts, n)
    modifies accounts
    ensures answer == Answers(s, attempts)[n] && accounts.State() == HeldAt(s, attempts, n + 1)
  {
    NextAttempt(s, attempts, n);
    answer := Try(accounts, attempts[n]);
  }

  /** The loop, over what each attempt would meet. */
  method Complete(accounts: Accounts, attempts: seq<Attempt>)
    returns (outcome: Outcome, strain: seq<Strain>, rounds: nat, slept: nat)
    requires |attempts| == MAX_ATTEMPTS && AllPlayable(accounts.State(), attempts)
    modifies accounts
    ensures IsCall(Answers(old(accounts.State()), attempts), outcome, strain, rounds, slept)
    ensures accounts.State() == HeldAt(old(accounts.State()), attempts, rounds)
  {
    ghost var s := accounts.State();
    ghost var answers := Answers(s, attempts);
    strain, rounds, slept := [], 0, 0;
    for attempt := 0 to MAX_ATTEMPTS
      invariant rounds == attempt && accounts.State() == HeldAt(s, attempts, attempt)
      invariant WentOn(answers, attempt, strain, slept)
    {
      rounds := attempt + 1;
      var answer := Round(accounts, s, attempts, attempt);
      var end, added := Judge(answer, attempt);
      if end.Some? {
        WentOnEnds(answers, attempt, strain, slept);
        outcome, strain := end.value, strain + added;
        return;
      }
      WentOnNext(answers, attempt, strain, slept, added[0].delayMs);
      strain, slept := strain + added, slept + added[0].delayMs;
    }
    WentOnFalls(answers, strain, slept);
    outcome := FellThrough;
  }

  // ---- when control falls past the loop ----------------------------------------------------

  /** Can the provider leave this login: another request has left it already, or another can be used? */
  predicate CanLeave(s: Held, account: nat, now: nat, envs: nat -> Env)
    requires account < |s.tokens|
  {
    |s.tokens| >= 2 && (s.active != account || !NoneUsable(s.tokens, account, |s.tokens|, now, envs))
  }

  lemma {:induction false} MovesIff(s: Held, a: Attempt)
    requires Playable(s, a)
    ensures Moves(AnswerOf(s, a))
      <==> HasToken(s, a) && WantsMove(a.http) && CanLeave(Answered(s, a), Account(s, a), a.now, a.envs)
  {
    if HasToken(s, a) && WantsMove(a.http) {
      var before := Answered(s, a);
      if before.active == Account(s, a) && |before.tokens| >= 2 {
        StaysIffNoneUsable(before, Rotate(
          Account(s, a), WindowResumesAt(a.now, a.http.resetSecs, a.http.retryAfter), a.now, a.envs));
      }
    }
  }

  /**
   * Control falls past the loop exactly when three attempts go on, and the fourth finds a token,
   * is told to leave its login, and can.
   */
  lemma {:induction false} CallFallsThroughIff(
    s: Held, attempts: seq<Attempt>, outcome: Outcome, strain: seq<Strain>, rounds: nat, slept: nat)
    requires |attempts| == MAX_ATTEMPTS && AllPlayable(s, attempts)
    requires IsCall(Answers(s, attempts), outcome, strain, rounds, slept)
    ensures var before, last := HeldAt(s, attempts, 3), attempts[3];
      outcome.FellThrough? <==>
        (forall i :: 0 <= i < 3 ==> GoesOn(AnswerAt(s, attempts, i), i))
        && HasToken(before, last) && WantsMove(last.http)
        && CanLeave(Answered(before, last), Account(before, last), last.now, last.envs)
  {
    var answers := Answers(s, attempts);
    FallsThroughIff(answers, outcome, strain, rounds, slept);
    MovesIff(HeldAt(s, attempts, 3), attempts[3]);
    assert answers[3] == AnswerOf(HeldAt(s, attempts, 3), attempts[3]);
    assert (forall i :: 0 <= i < 3 ==> GoesOn(answers[i], i))
      <==> (forall i :: 0 <= i < 3 ==> GoesOn(AnswerAt(s, attempts, i), i));
  }

  /** With one login it never does. */
  lemma {:induction false} OneLoginNeverFallsThrough(
    s: Held, attempts: seq<Attempt>, outcome: Outcome, strain: seq<Strain>, rounds: nat, slept: nat)
    requires |attempts| == MAX_ATTEMPTS && AllPlayable(s, attempts) && |s.tokens| == 1
    requires IsCall(Answers(s, attempts), outcome, strain, rounds, slept)
    ensures !outcome.FellThrough?
  {
    CallFallsThroughIff(s, attempts, outcome, strain, rounds, slept);
  }

  /** Upstream is unreachable, overloaded or answers with nothing: try again on the same login. */
  predicate IsOverload(http: Http) {
    http.NoConnection?
    || (http.Status? && if IsSuccess(http.status) then http.body.EmptyCompletion?
                        else !WantsMove(http) && ClassifyStatus(http.status).Transient?)
  }

  /** Nobody else is using the logins, and the first three answers ask to try again. */
  predicate QuietOverload(attempts: seq<Attempt>) {
    |attempts| == MAX_ATTEMPTS
    && (forall n :: 0 <= n < MAX_ATTEMPTS ==> attempts[n].before == [] && attempts[n].others == [])
    && (forall n :: 0 <= n < 3 ==> IsOverload(attempts[n].http))
  }

  /** Such attempts leave every login but the active one as it was. */
  lemma {:induction false} OverloadKeepsSpares(s: Held, attempts: seq<Attempt>, n: nat, i: nat)
    requires QuietOverload(attempts) && AllPlayable(s, attempts) && n <= 3 && i < |s.tokens| && i != s.active
    ensures HeldAt(s, attempts, n).active == s.active && HeldAt(s, attempts, n).tokens[i] == s.tokens[i]
  {
    if n == 0 {
    } else {
      OverloadKeepsSpares(s, attempts, n - 1, i);
    }
  }

  predicate AlwaysHasToken(s: Held, attempts: seq<Attempt>)
    requires |attempts| == MAX_ATTEMPTS && AllPlayable(s, attempts)
  {
    forall n :: 0 <= n < MAX_ATTEMPTS ==> HasToken(HeldAt(s, attempts, n), attempts[n])
  }

  lemma {:induction false} OverloadsGoOnIff(s: Held, attempts: seq<Attempt>)
    requires QuietOverload(attempts) && AllPlayable(s, attempts)
    ensures (forall i :: 0 <= i < 3 ==> GoesOn(AnswerAt(s, attempts, i), i))
      <==> (forall i :: 0 <= i < 3 ==> HasToken(HeldAt(s, attempts, i), attempts[i]))
  {
    forall i | 0 <= i < 3
      ensures GoesOn(AnswerAt(s, attempts, i), i) <==> HasToken(HeldAt(s, attempts, i), attempts[i])
    {
      assert IsOverload(attempts[i].http);
    }
  }

  lemma {:induction false} SameSpares(s: Held, s': Held, now: nat, envs: nat -> Env)
    requires s.active == s'.active < |s.tokens| == |s'.tokens|
    requires forall i :: 0 <= i < |s.tokens| && i != s.active ==> s'.tokens[i] == s.tokens[i]
    ensures NoneUsable(s'.tokens, s.active, |s.tokens|, now, envs)
      <==> NoneUsable(s.tokens, s.active, |s.tokens|, now, envs)
  {
    forall step | 1 <= step < |s.tokens|
      ensures UsableAt(s'.tokens, s.active, step, now, envs) == UsableAt(s.tokens, s.active, step, now, envs)
    {
      assert Candidate(s.active, step, |s.tokens|) != s.active;
    }
  }

  /**
   * What a caller can see coming: after three overloads, an answer asking to leave the login falls
   * past the loop exactly when a token was there each time and a spare login can be used, as the
   * logins were when the call began.
   */
  lemma {:induction false} OverloadThenMoveFallsThroughIff(
    s: Held, attempts: seq<Attempt>, outcome: Outcome, strain: seq<Strain>, rounds: nat, slept: nat)
    requires QuietOverload(attempts) && AllPlayable(s, attempts) && WantsMove(attempts[3].http)
    requires IsCall(Answers(s, attempts), outcome, strain, rounds, slept)
    ensures outcome.FellThrough? <==>
      AlwaysHasToken(s, attempts) && |s.tokens| >= 2
      && !NoneUsable(s.tokens, s.active, |s.tokens|, attempts[3].now, attempts[3].envs)
  {
    CallFallsThroughIff(s, attempts, outcome, strain, rounds, slept);
    OverloadsGoOnIff(s, attempts);
    if |s.tokens| >= 2 {
      SparesAsAtFirst(s, attempts);
    }
  }

  lemma {:induction false} SparesAsAtFirst(s: Held, attempts: seq<Attempt>)
    requires QuietOverload(attempts) && AllPlayable(s, attempts) && |s.tokens| >= 2
    ensures var before, last := HeldAt(s, attempts, 3), attempts[3];
      Account(before, last) == s.active
      && (CanLeave(Answered(before, last), Account(before, last), last.now, last.envs)
          <==> !NoneUsable(s.tokens, s.active, |s.tokens|, last.now, last.envs))
  {
    var before, last := HeldAt(s, attempts, 3), attempts[3];
    OverloadKeepsSpares(s, attempts, 3, if s.active == 0 then 1 else 0);
    forall i | 0 <= i < |s.tokens| && i != s.active ensures Answered(before, last).tokens[i] == s.tokens[i] {
      OverloadKeepsSpares(s, attempts, 3, i);
    }
    SameSpares(s, Answered(before, last), last.now, last.envs);
  }

  // ---- one such call -----------------------------------------------------------------------

  /** A login whose token is good for a day. */
  function Lasting(access: string): Content {
    Login(Some(access), Some("refresh"), Some(86_400_000))
  }

  /** Two credential files, which nobody touches. */
  function TwoFiles(path: Path): Content {
    if path == "x" then Lasting("a") else if path == "y" then Lasting("b") else Unreadable
  }

  function FromFile(path: Path, access: string): TokenState {
    TokenState(Some(access), Some("refresh"), Some(86_400_000), Some(path), None)
  }

  const TWO_LOGINS := Held([FromFile("x", "a"), FromFile("y", "b")], 0)

  /** The provider comes to hold these two logins by loading the files. */
  lemma {:induction false} TwoLoginsLoaded()
    ensures LoadedAll(["x", "y"], TwoFiles) == TWO_LOGINS.tokens
  {
    var paths := ["x", "y"];
    assert paths[..1] == ["x"] && ["x"][..0] == [];
    assert LoadedAll(["x"], TwoFiles) == [FromFile("x", "a")];
  }

  /** Whoever looks at a login finds its file as it was. */
  function Meet(path: Path): Env {
    Env(TwoFiles(path), 0, Unanswered, TwoFiles(path), true, TwoFiles(path), 0)
  }

  function Meeting(status: nat): Attempt {
    Attempt([], Meet("x"), Status(status, None, None, BrokenBody), [], 0,
            (i: nat) => if i == 0 then Meet("x") else Meet("y"))
  }

  function ThreeThenQuota(): seq<Attempt> {
    [Meeting(503), Meeting(503), Meeting(503), Meeting(429)]
  }

  lemma {:induction false} LoginStays(path: Path, access: string)
    requires TwoFiles(path) == Lasting(access)
    ensures Current(FromFile(path, access), Meet(path)) == FromFile(path, access)
    ensures access != "" ==> Usable(FromFile(path, access), 0, Meet(path))
  {
  }

  lemma {:induction false} MeetingLooks(status: nat)
    ensures Playable(TWO_LOGINS, Meeting(status)) && Answered(TWO_LOGINS, Meeting(status)) == TWO_LOGINS
    ensures Account(TWO_LOGINS, Meeting(status)) == 0 && HasToken(TWO_LOGINS, Meeting(status))
  {
    LoginStays("x", "a");
    assert Looked(TWO_LOGINS, Meeting(status)).tokens == TWO_LOGINS.tokens;
  }

  lemma {:induction false} MeetingKeeps(status: nat)
    requires !WantsMove(Meeting(status).http)
    ensures Playable(TWO_LOGINS, Meeting(status)) && HeldAfter(TWO_LOGINS, Meeting(status)) == TWO_LOGINS
    ensures AnswerOf(TWO_LOGINS, Meeting(status)) == Response(status, None, BrokenBody, false)
  {
    MeetingLooks(status);
  }

  lemma {:induction false} QuotaMoves()
    ensures Playable(TWO_LOGINS, Meeting(429))
    ensures AnswerOf(TWO_LOGINS, Meeting(429)) == Response(429, None, BrokenBody, true)
  {
    var a := Meeting(429);
    MeetingLooks(429);
    LoginStays("y", "b");
    assert UsableAt(TWO_LOGINS.tokens, 0, 1, 0, a.envs);
    MovesIff(TWO_LOGINS, a);
  }

  lemma {:induction false} ThreeKeep(n: nat)
    requires n <= 3
    ensures AllPlayable(TWO_LOGINS, ThreeThenQuota())
    ensures HeldAt(TWO_LOGINS, ThreeThenQuota(), n) == TWO_LOGINS
  {
    if n == 0 {
    } else {
      ThreeKeep(n - 1);
      MeetingKeeps(503);
    }
  }

  lemma {:induction false} AnswersOfThreeThenQuota()
    ensures AllPlayable(TWO_LOGINS, ThreeThenQuota())
    ensures var down, spent := Response(503, None, BrokenBody, false), Response(429, None, BrokenBody, true);
      Answers(TWO_LOGINS, ThreeThenQuota()) == [down, down, down, spent]
  {
    ThreeKeep(0);
    ThreeKeep(1);
    ThreeKeep(2);
    ThreeKeep(3);
    MeetingKeeps(503);
    QuotaMoves();
  }

  /**
   * Two good logins loaded from two files, three answers 503, then a 429 naming no wait: the call
   * falls past its loop.
   */
  lemma {:induction false} FourAnswersFallThrough() returns (strain: seq<Strain>, slept: nat)
    ensures LoadedAll(["x", "y"], TwoFiles) == TWO_LOGINS.tokens && TWO_LOGINS.active == 0
    ensures AllPlayable(TWO_LOGINS, ThreeThenQuota())
    ensures IsCall(Answers(TWO_LOGINS, ThreeThenQuota()), FellThrough, strain, 4, slept)
  {
    TwoLoginsLoaded();
    AnswersOfThreeThenQuota();
    strain, slept := AllGoOnFalls(Answers(TWO_LOGINS, ThreeThenQuota()));
  }
}
