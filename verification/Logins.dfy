/**
 * The logins a provider may speak as: adopting a credential file another process rewrites,
 * refreshing a login's token and writing it back, and moving to another login when one is spent.
 */
module Logins {
  import opened Wrappers

  type Path = string

  const TOKEN_REFRESH_BUFFER_MS := 5 * 60 * 1000
  const DEFAULT_EXPIRES_IN_SECS := 3600

  datatype TokenState = TokenState(
    accessToken: Option<string>,
    refreshToken: Option<string>,
    expiresAtMs: Option<nat>,
    sourcePath: Option<Path>,
    resumesAtMs: Option<nat>)
  {
    predicate HasCredential() {
      NonEmpty(accessToken) || NonEmpty(refreshToken)
    }

    /** Worth trying: something to present, and no spent window still running. */
    predicate IsAvailable(now: nat) {
      HasCredential() && !WindowRunning(now)
    }

    predicate WindowRunning(now: nat) {
      resumesAtMs.Some? && now < resumesAtMs.value
    }

    predicate AccessIsLive(now: nat) {
      NonEmpty(accessToken) && expiresAtMs.Some? && expiresAtMs.value > now
    }
  }

  predicate NonEmpty(token: Option<string>) {
    token.Some? && token.value != ""
  }

  /**
   * What a credential file holds: nothing that can be read as JSON, JSON that is not an object,
   * an object without a login, a login entry that is not an object, or a login.
   */
  datatype Content =
    | Unreadable
    | NotObject
    | NoLogin
    | OddLogin
    | Login(access: Option<string>, refresh: Option<string>, expires: Option<nat>)

  function RefreshOnDisk(content: Content): Option<string> {
    if content.Login? then content.refresh else None
  }

  function Loaded(path: Path, content: Content): Option<TokenState> {
    match content
    case Login(access, refresh, expires) => Some(TokenState(access, refresh, expires, Some(path), None))
    case OddLogin => Some(TokenState(None, None, None, Some(path), None))
    case _ => None
  }

  /** Does the file hold a non-empty access token other than the held one? */
  predicate IsRotated(held: TokenState, onDisk: TokenState) {
    NonEmpty(onDisk.accessToken) && onDisk.accessToken != held.accessToken
  }

  /** The held login once the file has been looked at. */
  function Adopted(held: TokenState, seen: Content): TokenState {
    if held.sourcePath.None? then held
    else
      var onDisk := Loaded(held.sourcePath.value, seen);
      if onDisk.Some? && IsRotated(held, onDisk.value)
      then onDisk.value.(resumesAtMs := held.resumesAtMs)
      else held
  }

  /** Recovery after a lost refresh race: the file's login, if newer and not expired. */
  function Reread(held: TokenState, seen: Content, now: nat): Option<TokenState> {
    if held.sourcePath.None? then None
    else
      var onDisk := Loaded(held.sourcePath.value, seen);
      if onDisk.Some? && IsRotated(held, onDisk.value)
         && onDisk.value.expiresAtMs.Some? && onDisk.value.expiresAtMs.value > now
      then Some(onDisk.value.(resumesAtMs := held.resumesAtMs))
      else None
  }

  // ---- refreshing --------------------------------------------------------------------------

  /** The token endpoint's answer. */
  datatype Reply = Unanswered | Refused | Malformed
                 | Granted(access: string, refresh: Option<string>, expiresIn: Option<nat>)

  /** What writing back came to, with the file afterwards. */
  datatype WriteBack = Written(content: Content) | LeftAlone(content: Content) | WriteFailed(content: Content)

  /** Write refreshed tokens back, unless the file has moved on to another refresh token. */
  function WrittenBack(
    onDisk: Content, access: string, newRefresh: Option<string>, expires: nat, refreshedFrom: string, diskWorks: bool)
    : WriteBack
  {
    if RefreshOnDisk(onDisk).Some? && RefreshOnDisk(onDisk).value != refreshedFrom then LeftAlone(onDisk)
    else if onDisk.NotObject? || onDisk.OddLogin? || !diskWorks then WriteFailed(onDisk)
    else
      Written(Login(Some(access), if newRefresh.Some? then newRefresh else RefreshOnDisk(onDisk), Some(expires)))
  }

  /** Everything outside the provider that one refresh depends on. */
  datatype Env = Env(
    seen: Content,      // the file when it is looked at
    now: nat,
    reply: Reply,
    atWrite: Content,   // the file when tokens are written back
    diskWorks: bool,
    seenAgain: Content, // the file when it is read again after a failed refresh
    nowAgain: nat)

  datatype Refresh = Refresh(token: TokenState, ok: bool, file: Content)

  function ExpiryOf(reply: Reply, now: nat): nat
    requires reply.Granted?
  {
    now + reply.expiresIn.GetOr(DEFAULT_EXPIRES_IN_SECS) * 1000
  }

  /** Refresh a login: the login afterwards, whether that worked, and the file afterwards. */
  function Refreshed(token: TokenState, env: Env): Refresh {
    if token.refreshToken.None? || !env.reply.Granted? then Refresh(token, false, env.atWrite)
    else
      var from := token.refreshToken.value;
      var expires := ExpiryOf(env.reply, env.now);
      var file :=
        if token.sourcePath.None? then env.atWrite
        else WrittenBack(env.atWrite, env.reply.access, env.reply.refresh, expires, from, env.diskWorks).content;
      Refresh(
        token.(accessToken := Some(env.reply.access),
               refreshToken := Some(env.reply.refresh.GetOr(from)),
               expiresAtMs := Some(expires)),
        true, file)
  }

  /** Can this login still speak: an unexpired token, or a refresh the endpoint accepts? */
  function Authenticated(token: TokenState, env: Env): Refresh {
    if token.AccessIsLive(env.now) then Refresh(token, true, env.atWrite) else Refreshed(token, env)
  }

  predicate NeedsRefresh(token: TokenState, now: nat) {
    !NonEmpty(token.accessToken)
    || token.expiresAtMs.None? || token.expiresAtMs.value <= now + TOKEN_REFRESH_BUFFER_MS
  }

  /** The active login once a usable token has been looked for. */
  function Current(token: TokenState, env: Env): TokenState {
    var adopted := Adopted(token, env.seen);
    if !NeedsRefresh(adopted, env.now) then adopted
    else
      var r := Refreshed(adopted, env);
      if r.ok then r.token else Reread(adopted, env.seenAgain, env.nowAgain).GetOr(adopted)
  }

  // ---- rotation ----------------------------------------------------------------------------

  /** May the provider go on as this login? */
  predicate Usable(token: TokenState, now: nat, env: Env) {
    var adopted := Adopted(token, env.seen);
    adopted.IsAvailable(now) && Authenticated(adopted, env).ok
  }

  /** A login after rotation has looked at it. */
  function Tried(token: TokenState, now: nat, env: Env): TokenState {
    var adopted := Adopted(token, env.seen);
    if adopted.IsAvailable(now) then Authenticated(adopted, env).token else adopted
  }

  /** The login `step` places after `from`, round robin. */
  function Candidate(from: nat, step: nat, count: nat): (c: nat)
    requires from < count && step < count
    ensures c < count
  {
    if from + step < count then from + step else from + step - count
  }

  /** How many places after `from` login `i` comes. */
  function StepOf(from: nat, i: nat, count: nat): (step: nat)
    requires from < count && i < count
    ensures step < count && Candidate(from, step, count) == i
    ensures step == 0 <==> i == from
  {
    if i >= from then i - from else i + count - from
  }

  lemma {:induction false} WrapIsRemainder(x: nat, count: nat)
    requires x < count + count
    ensures x % count == if x < count then x else x - count
  {
    if x < count {
      assert x / count == 0;
    } else {
      assert (x - count) / count == 0;
      assert x == count + (x - count);
    }
  }

  predicate NoneUsable(tokens: seq<TokenState>, from: nat, before: nat, now: nat, envs: nat -> Env)
    requires from < |tokens| && before <= |tokens|
  {
    forall step | 1 <= step < before :: !UsableAt(tokens, from, step, now, envs)
  }

  predicate UsableAt(tokens: seq<TokenState>, from: nat, step: nat, now: nat, envs: nat -> Env)
    requires from < |tokens| && step < |tokens|
  {
    var c := Candidate(from, step, |tokens|);
    Usable(tokens[c], now, envs(c))
  }

  /** The first step from `step` on that reaches a usable login; the full round when there is none. */
  function FirstUsable(tokens: seq<TokenState>, from: nat, step: nat, now: nat, envs: nat -> Env): (k: nat)
    requires from < |tokens| && 1 <= step <= |tokens| && NoneUsable(tokens, from, step, now, envs)
    ensures step <= k <= |tokens| && NoneUsable(tokens, from, k, now, envs)
    ensures k < |tokens| ==> UsableAt(tokens, from, k, now, envs)
    decreases |tokens| - step
  {
    if step == |tokens| || UsableAt(tokens, from, step, now, envs) then step
    else FirstUsable(tokens, from, step + 1, now, envs)
  }

  /** The logins after a rotation that looked at the first `k` places after `from`. */
  predicate LookedAt(before: seq<TokenState>, after: seq<TokenState>, from: nat, k: nat, resumesAt: nat,
                     now: nat, envs: nat -> Env)
    requires from < |before|
  {
    |after| == |before|
    && forall i :: 0 <= i < |before| ==>
         after[i] == if i == from then before[i].(resumesAtMs := Some(resumesAt))
                     else if StepOf(from, i, |before|) <= k then Tried(before[i], now, envs(i))
                     else before[i]
  }

  lemma {:induction false} LookedAtNext(before: seq<TokenState>, tokens: seq<TokenState>, from: nat, step: nat,
                                        resumesAt: nat, now: nat, envs: nat -> Env)
    requires from < |before| && 1 <= step < |before|
    requires LookedAt(before, tokens, from, step - 1, resumesAt, now, envs)
    ensures var c := Candidate(from, step, |before|);
      tokens[c] == before[c]
      && LookedAt(before, tokens[c := Tried(before[c], now, envs(c))], from, step, resumesAt, now, envs)
  {
    var c := Candidate(from, step, |before|);
    assert StepOf(from, c, |before|) == step;
    assert forall i :: 0 <= i < |before| && StepOf(from, i, |before|) == step ==> i == c;
  }

  /** Every place is at most a round away. */
  lemma {:induction false} LookedAtAll(before: seq<TokenState>, tokens: seq<TokenState>, from: nat,
                                       resumesAt: nat, now: nat, envs: nat -> Env)
    requires from < |before| && LookedAt(before, tokens, from, |before| - 1, resumesAt, now, envs)
    ensures LookedAt(before, tokens, from, |before|, resumesAt, now, envs)
  {
  }

  datatype Held = Held(tokens: seq<TokenState>, active: nat)

  /** What a rotation off `from` does to the logins, and what it answers. */
  predicate IsRotation(s: Held, from: nat, resumesAt: nat, now: nat, envs: nat -> Env, r: Option<nat>, s': Held)
    requires s.active < |s.tokens| && from < |s.tokens|
  {
    if |s.tokens| < 2 || s.active != from then
      LookedAt(s.tokens, s'.tokens, from, 0, resumesAt, now, envs) && s'.active == s.active
      && r == (if |s.tokens| < 2 then None else Some(s.active))
    else
      var k := FirstUsable(s.tokens, from, 1, now, envs);
      LookedAt(s.tokens, s'.tokens, from, k, resumesAt, now, envs)
      && r == (if k < |s.tokens| then Some(Candidate(from, k, |s.tokens|)) else None)
      && s'.active == r.GetOr(s.active)
  }

  datatype Rotation = Rotation(answer: Option<nat>, held: Held)

  /** The only rotation there is. */
  function Rotated(s: Held, from: nat, resumesAt: nat, now: nat, envs: nat -> Env): (r: Rotation)
    requires s.active < |s.tokens| && from < |s.tokens|
    ensures IsRotation(s, from, resumesAt, now, envs, r.answer, r.held)
  {
    var stays := |s.tokens| < 2 || s.active != from;
    var k := if stays then 0 else FirstUsable(s.tokens, from, 1, now, envs);
    var answer :=
      if |s.tokens| < 2 then None
      else if s.active != from then Some(s.active)
      else if k < |s.tokens| then Some(Candidate(from, k, |s.tokens|)) else None;
    Rotation(answer, Held(
      seq(|s.tokens|, i requires 0 <= i < |s.tokens| =>
        if i == from then s.tokens[i].(resumesAtMs := Some(resumesAt))
        else if StepOf(from, i, |s.tokens|) <= k then Tried(s.tokens[i], now, envs(i))
        else s.tokens[i]),
      if stays then s.active else answer.GetOr(s.active)))
  }

  lemma {:induction false} RotationIsDetermined(
    s: Held, from: nat, resumesAt: nat, now: nat, envs: nat -> Env, r: Option<nat>, s': Held)
    requires s.active < |s.tokens| && from < |s.tokens| && IsRotation(s, from, resumesAt, now, envs, r, s')
    ensures Rotation(r, s') == Rotated(s, from, resumesAt, now, envs)
  {
    assert s'.tokens == Rotated(s, from, resumesAt, now, envs).held.tokens;
  }

  /** The logins that can be loaded from these files and have something to present. */
  function LoadedAll(paths: seq<Path>, files: Path -> Content): (tokens: seq<TokenState>)
    ensures forall t :: t in tokens ==> t.HasCredential() && t.sourcePath.Some? && t.resumesAtMs.None?
    ensures forall t :: t in tokens ==>
      t.sourcePath.value in paths && Loaded(t.sourcePath.value, files(t.sourcePath.value)) == Some(t)
  {
    if paths == [] then []
    else
      var last := paths[|paths| - 1];
      var loaded := Loaded(last, files(last));
      LoadedAll(paths[..|paths| - 1], files)
      + (if loaded.Some? && loaded.value.HasCredential() then [loaded.value] else [])
  }

  /** No file with a login to present is passed over. */
  lemma {:induction false} LoadedAllComplete(paths: seq<Path>, files: Path -> Content, path: Path)
    requires path in paths && Loaded(path, files(path)).Some? && Loaded(path, files(path)).value.HasCredential()
    ensures Loaded(path, files(path)).value in LoadedAll(paths, files)
  {
    if path == paths[|paths| - 1] {
    } else {
      LoadedAllComplete(paths[..|paths| - 1], files, path);
    }
  }

  class Accounts {
    var tokens: seq<TokenState>
    var active: nat

    predicate Valid()
      reads this
    {
      active < |tokens|
    }

    function State(): Held
      reads this
    {
      Held(tokens, active)
    }

    constructor (tokens: seq<TokenState>)
      requires tokens != []
      ensures Valid() && this.tokens == tokens && active == 0
    {
      this.tokens, this.active := tokens, 0;
    }

    /** Loading the logins at start, skipping files without one; with none at all there is no provider. */
    static method Load(paths: seq<Path>, files: Path -> Content) returns (r: Option<Accounts>)
      ensures r.None? <==> LoadedAll(paths, files) == []
      ensures r.Some? ==>
        fresh(r.value) && r.value.Valid() && r.value.State() == Held(LoadedAll(paths, files), 0)
    {
      var tokens := [];
      for i := 0 to |paths|
        invariant tokens == LoadedAll(paths[..i], files)
      {
        assert paths[..i + 1][..i] == paths[..i];
        var loaded := Loaded(paths[i], files(paths[i]));
        if loaded.Some? && loaded.value.HasCredential() {
          tokens := tokens + [loaded.value];
        }
      }
      assert paths[..|paths|] == paths;
      if tokens == [] {
        return None;
      }
      var accounts := new Accounts(tokens);
      r := Some(accounts);
    }

    method AdoptFileIfChanged(i: nat, seen: Content)
      requires i < |tokens|
      modifies this`tokens
      ensures tokens == old(tokens)[i := Adopted(old(tokens)[i], seen)]
    {
      var token := tokens[i];
      if token.sourcePath.None? {
        return;
      }
      var loaded := Loaded(token.sourcePath.value, seen);
      if loaded.None? {
        return;
      }
      var rotated := NonEmpty(loaded.value.accessToken) && loaded.value.accessToken != token.accessToken;
      if !rotated {
        return;
      }
      var resumes := token.resumesAtMs;
      tokens := tokens[i := loaded.value.(resumesAtMs := resumes)];
    }

    method RefreshToken(i: nat, env: Env) returns (ok: bool, file: Content)
      requires i < |tokens|
      modifies this`tokens
      ensures var r := Refreshed(old(tokens)[i], env);
        tokens == old(tokens)[i := r.token] && ok == r.ok && file == r.file
    {
      file := env.atWrite;
      var token := tokens[i];
      if token.refreshToken.None? || !env.reply.Granted? {
        return false, file;
      }
      var from := token.refreshToken.value;
      var expires := ExpiryOf(env.reply, env.now);
      if token.sourcePath.Some? {
        var written := WrittenBack(env.atWrite, env.reply.access, env.reply.refresh, expires, from, env.diskWorks);
        file := written.content;
      }
      tokens := tokens[i := tokens[i].(accessToken := Some(env.reply.access))];
      tokens := tokens[i := tokens[i].(refreshToken := Some(env.reply.refresh.GetOr(from)))];
      tokens := tokens[i := tokens[i].(expiresAtMs := Some(expires))];
      ok := true;
    }

    /** A usable access token and the login it belongs to. */
    method CurrentAccessToken(env: Env) returns (r: Option<(string, nat)>)
      requires Valid()
      modifies this`tokens
      ensures tokens == old(tokens)[active := Current(old(tokens)[active], env)]
      ensures r == if NonEmpty(tokens[active].accessToken)
                   then Some((tokens[active].accessToken.value, active)) else None
    {
      AdoptFileIfChanged(active, env.seen);
      if NeedsRefresh(tokens[active], env.now) {
        var ok, file := RefreshToken(active, env);
        if !ok {
          var rotated := Reread(tokens[active], env.seenAgain, env.nowAgain);
          if rotated.Some? {
            tokens := tokens[active := rotated.value];
          }
        }
      }
      var access := tokens[active].accessToken;
      r := if NonEmpty(access) then Some((access.value, active)) else None;
    }

    method CanAuthenticate(i: nat, env: Env) returns (ok: bool)
      requires i < |tokens|
      modifies this`tokens
      ensures var r := Authenticated(old(tokens)[i], env);
        tokens == old(tokens)[i := r.token] && ok == r.ok
    {
      if tokens[i].AccessIsLive(env.now) {
        return true;
      }
      var file;
      ok, file := RefreshToken(i, env);
    }

    /** Look at one candidate: adopt its file, and see whether it is available and can speak. */
    method TryLogin(i: nat, now: nat, env: Env) returns (usable: bool)
      requires i < |tokens|
      modifies this`tokens
      ensures tokens == old(tokens)[i := Tried(old(tokens)[i], now, env)]
      ensures usable == Usable(old(tokens)[i], now, env)
    {
      AdoptFileIfChanged(i, env.seen);
      if !tokens[i].IsAvailable(now) {
        return false;
      }
      usable := CanAuthenticate(i, env);
    }

    /** Try the logins after `from` in turn, and go on as the first that can be used. */
    method MoveOn(from: nat, now: nat, envs: nat -> Env, ghost before: seq<TokenState>, ghost resumesAt: nat)
      returns (r: Option<nat>)
      requires from == active < |before| && LookedAt(before, tokens, from, 0, resumesAt, now, envs)
      modifies this
      ensures var k := FirstUsable(before, from, 1, now, envs);
        LookedAt(before, tokens, from, k, resumesAt, now, envs)
        && r == (if k < |before| then Some(Candidate(from, k, |before|)) else None)
      ensures active == r.GetOr(from)
    {
      var count := |tokens|;
      for step := 1 to count
        invariant active == from && |before| == count
        invariant NoneUsable(before, from, step, now, envs)
        invariant FirstUsable(before, from, 1, now, envs) == FirstUsable(before, from, step, now, envs)
        invariant LookedAt(before, tokens, from, step - 1, resumesAt, now, envs)
      {
        WrapIsRemainder(from + step, count);
        LookedAtNext(before, tokens, from, step, resumesAt, now, envs);
        var candidate := (from + step) % count;
        var usable := TryLogin(candidate, now, envs(candidate));
        assert usable == UsableAt(before, from, step, now, envs);
        if usable {
          active := candidate;
          return Some(candidate);
        }
      }
      LookedAtAll(before, tokens, from, resumesAt, now, envs);
      return None;
    }

    /** Move off the login at `from`, which is not worth trying again until `resumesAt`. */
    method RotateAccount(from: nat, resumesAt: nat, now: nat, envs: nat -> Env) returns (r: Option<nat>)
      requires Valid() && from < |tokens|
      modifies this
      ensures Valid()
      ensures Rotation(r, State()) == Rotated(old(State()), from, resumesAt, now, envs)
    {
      ghost var before := tokens;
      ghost var s := State();
      tokens := tokens[from := tokens[from].(resumesAtMs := Some(resumesAt))];
      if |tokens| < 2 {
        RotationIsDetermined(s, from, resumesAt, now, envs, None, State());
        return None;
      }
      // Another request already moved us; ride along.
      if active != from {
        RotationIsDetermined(s, from, resumesAt, now, envs, Some(active), State());
        return Some(active);
      }
      r := MoveOn(from, now, envs, before, resumesAt);
      RotationIsDetermined(s, from, resumesAt, now, envs, r, State());
    }
  }

  // ---- what adoption, refreshing and rotation keep -----------------------------------------

  /** After adopting, the held access token is the file's whenever the file has a non-empty one. */
  lemma {:induction false} AdoptMatchesFile(held: TokenState, seen: Content)
    requires held.sourcePath.Some? && seen.Login? && NonEmpty(seen.access)
    ensures Adopted(held, seen).accessToken == seen.access
    ensures held.accessToken != seen.access ==>
      Adopted(held, seen).refreshToken == seen.refresh && Adopted(held, seen).expiresAtMs == seen.expires
  {
  }

  /** A login's recorded window belongs to the account: no exchange of its tokens touches it. */
  lemma {:induction false} WindowSurvives(token: TokenState, env: Env, now: nat)
    ensures Adopted(token, env.seen).resumesAtMs == token.resumesAtMs
    ensures Refreshed(token, env).token.resumesAtMs == token.resumesAtMs
    ensures Reread(token, env.seen, now).Some? ==> Reread(token, env.seen, now).value.resumesAtMs == token.resumesAtMs
    ensures Current(token, env).resumesAtMs == token.resumesAtMs
    ensures Tried(token, now, env).resumesAtMs == token.resumesAtMs
    ensures Current(token, env).sourcePath == token.sourcePath == Tried(token, now, env).sourcePath
  {
  }

  /** One operation on the set of logins. */
  datatype Op =
    | Use(env: Env)
    | Rotate(from: nat, resumesAt: nat, now: nat, envs: nat -> Env)

  predicate InRange(s: Held, op: Op) {
    s.active < |s.tokens| && (op.Rotate? ==> op.from < |s.tokens|)
  }

  /** What `CurrentAccessToken` and `RotateAccount` do to the state. */
  function AfterOp(s: Held, op: Op): (s': Held)
    requires InRange(s, op)
    ensures |s'.tokens| == |s.tokens| && s'.active < |s'.tokens|
  {
    match op
    case Use(env) => s.(tokens := s.tokens[s.active := Current(s.tokens[s.active], env)])
    case Rotate(from, resumesAt, now, envs) => Rotated(s, from, resumesAt, now, envs).held
  }

  /** What a rotation answers. */
  function RotateAnswer(s: Held, op: Op): Option<nat>
    requires InRange(s, op) && op.Rotate?
  {
    Rotated(s, op.from, op.resumesAt, op.now, op.envs).answer
  }

  /** These operations rotate off none but the first `count` logins. */
  predicate OpsFit(count: nat, ops: seq<Op>) {
    forall i :: 0 <= i < |ops| && ops[i].Rotate? ==> ops[i].from < count
  }

  predicate AllInRange(s: Held, ops: seq<Op>) {
    s.active < |s.tokens| && OpsFit(|s.tokens|, ops)
  }

  function AfterOps(s: Held, ops: seq<Op>): (s': Held)
    requires AllInRange(s, ops)
    ensures |s'.tokens| == |s.tokens| && s'.active < |s'.tokens|
  {
    if ops == [] then s else AfterOp(AfterOps(s, ops[..|ops| - 1]), ops[|ops| - 1])
  }

  /** When was login `i`'s window last recorded in a run? */
  function LastParked(ops: seq<Op>, i: nat): Option<nat> {
    if ops == [] then None
    else
      var last := ops[|ops| - 1];
      if last.Rotate? && last.from == i then Some(last.resumesAt) else LastParked(ops[..|ops| - 1], i)
  }

  lemma {:induction false} StepKeepsWindows(s: Held, op: Op, i: nat)
    requires InRange(s, op) && i < |s.tokens|
    ensures AfterOp(s, op).tokens[i].resumesAtMs
      == if op.Rotate? && op.from == i then Some(op.resumesAt) else s.tokens[i].resumesAtMs
  {
    match op {
      case Use(env) => WindowSurvives(s.tokens[s.active], env, env.now);
      case Rotate(_, _, now, envs) => WindowSurvives(s.tokens[i], envs(i), now);
    }
  }

  /**
   * Over every run the active index stays in range and every login's window is the one last
   * recorded by a rotation off it, whatever was adopted, re-read and refreshed meanwhile.
   */
  lemma {:induction false} RunKeepsWindows(s: Held, ops: seq<Op>, i: nat)
    requires AllInRange(s, ops) && i < |s.tokens|
    ensures var s' := AfterOps(s, ops);
      |s'.tokens| == |s.tokens| && s'.active < |s'.tokens|
      && s'.tokens[i].resumesAtMs
         == (if LastParked(ops, i).Some? then LastParked(ops, i) else s.tokens[i].resumesAtMs)
  {
    if ops == [] {
    } else {
      var front, last := ops[..|ops| - 1], ops[|ops| - 1];
      RunKeepsWindows(s, front, i);
      StepKeepsWindows(AfterOps(s, front), last, i);
    }
  }

  /**
   * The active login moves only by a rotation off it, to the first login in round-robin order that
   * can be used; in particular never to one whose recorded window is still running.
   */
  lemma {:induction false} MovesOnlyToFirstUsable(s: Held, op: Op)
    requires InRange(s, op) && AfterOp(s, op).active != s.active
    ensures var to := AfterOp(s, op).active;
      op.Rotate? && op.from == s.active && RotateAnswer(s, op) == Some(to)
      && NoneUsable(s.tokens, op.from, StepOf(op.from, to, |s.tokens|), op.now, op.envs)
      && Usable(s.tokens[to], op.now, op.envs(to)) && !s.tokens[to].WindowRunning(op.now)
  {
    var to := AfterOp(s, op).active;
    var k := FirstUsable(s.tokens, op.from, 1, op.now, op.envs);
    WindowSurvives(s.tokens[to], op.envs(to), op.now);
  }

  /** A rotation off the active login stays put exactly when no other login can be used. */
  lemma {:induction false} StaysIffNoneUsable(s: Held, op: Op)
    requires InRange(s, op) && op.Rotate? && op.from == s.active
    ensures AfterOp(s, op).active == s.active <==> RotateAnswer(s, op).None?
    ensures RotateAnswer(s, op).None? <==> NoneUsable(s.tokens, op.from, |s.tokens|, op.now, op.envs)
  {
    var k := FirstUsable(s.tokens, op.from, 1, op.now, op.envs);
    if k < |s.tokens| {
      assert UsableAt(s.tokens, op.from, k, op.now, op.envs);
    }
  }
}
