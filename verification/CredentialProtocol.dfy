/**
 * The credential file as a protocol between two processes over one-time refresh tokens. The
 * provider adopts, re-reads and refreshes; the other process logs in, refreshes and logs out.
 */
module CredentialProtocol {
  import opened Wrappers
  import opened Logins

  /**
   * `issued` are the refresh tokens that have ever existed, `dead` those the endpoint no longer
   * takes, `spentHere` those this provider exchanged for another.
   */
  datatype World = World(
    file: Content, held: TokenState, spentHere: set<string>, dead: set<string>, issued: set<string>)

  datatype Action =
    | OtherLogsIn(access: Option<string>, refresh: Option<string>, expires: Option<nat>)
    | OtherSpends(spent: string)
    | OtherLogsOut(left: Content)
    | Adopt
    | ReadAgain(now: nat)
    | RefreshAndWrite(reply: Reply, now: nat, diskWorks: bool)

  function EnvOf(w: World, a: Action): Env
    requires a.RefreshAndWrite?
  {
    Env(w.file, a.now, a.reply, w.file, a.diskWorks, w.file, a.now)
  }

  /**
   * What may happen: the other process writes only logins with a live refresh token or none, and
   * the endpoint takes a refresh token only while it is live and answers with a new one or with none.
   */
  predicate Enabled(w: World, a: Action) {
    match a
    case OtherLogsIn(_, refresh, _) => refresh.Some? ==> refresh.value !in w.dead
    case OtherSpends(spent) => spent in w.issued
    case OtherLogsOut(left) => !left.Login?
    case Adopt => true
    case ReadAgain(_) => true
    case RefreshAndWrite(reply, _, _) =>
      reply.Granted? && w.held.refreshToken.Some? ==>
        w.held.refreshToken.value !in w.dead && (reply.refresh.Some? ==> reply.refresh.value !in w.issued)
  }

  /** Does this action exchange the held refresh token for a new one? */
  predicate Exchanges(w: World, a: Action) {
    a.RefreshAndWrite? && a.reply.Granted? && a.reply.refresh.Some? && w.held.refreshToken.Some?
  }

  function Step(w: World, a: Action): World {
    match a
    case OtherLogsIn(access, refresh, expires) =>
      w.(file := Login(access, refresh, expires),
         issued := if refresh.Some? then w.issued + {refresh.value} else w.issued)
    case OtherSpends(spent) => w.(dead := w.dead + {spent})
    case OtherLogsOut(left) => w.(file := left)
    case Adopt => w.(held := Adopted(w.held, w.file))
    case ReadAgain(now) => w.(held := Reread(w.held, w.file, now).GetOr(w.held))
    case RefreshAndWrite(reply, now, diskWorks) =>
      var r := Refreshed(w.held, EnvOf(w, a));
      if Exchanges(w, a) then
        var spent := w.held.refreshToken.value;
        World(r.file, r.token, w.spentHere + {spent}, w.dead + {spent}, w.issued + {reply.refresh.value})
      else w.(held := r.token, file := r.file)
  }

  predicate HoldsSpent(token: Option<string>, w: World) {
    token.Some? && token.value in w.spentHere
  }

  /** Neither the file nor the provider holds a refresh token this provider has spent. */
  predicate Clean(w: World) {
    !HoldsSpent(RefreshOnDisk(w.file), w) && !HoldsSpent(w.held.refreshToken, w)
  }

  predicate Known(token: Option<string>, w: World) {
    token.Some? ==> token.value in w.issued
  }

  predicate Consistent(w: World) {
    w.held.sourcePath.Some? && w.spentHere <= w.dead <= w.issued
    && Known(RefreshOnDisk(w.file), w) && Known(w.held.refreshToken, w)
  }

  /** An exchange whose write-back fails while the file still holds the token being spent. */
  predicate LosesWrite(w: World, a: Action) {
    Exchanges(w, a) && !a.diskWorks && RefreshOnDisk(w.file) == w.held.refreshToken
  }

  lemma {:induction false} StepConsistent(w: World, a: Action)
    requires Consistent(w) && Enabled(w, a)
    ensures Consistent(Step(w, a))
  {
  }

  /** One action from a clean state leaves it clean exactly when it loses no write. */
  lemma {:induction false} StepCleanIff(w: World, a: Action)
    requires Consistent(w) && Clean(w) && Enabled(w, a)
    ensures Clean(Step(w, a)) <==> !LosesWrite(w, a)
  {
  }

  function Run(w: World, actions: seq<Action>): World {
    if actions == [] then w else Step(Run(w, actions[..|actions| - 1]), actions[|actions| - 1])
  }

  predicate Allowed(w: World, actions: seq<Action>) {
    forall i :: 0 <= i < |actions| ==> Enabled(Run(w, actions[..i]), actions[i])
  }

  lemma {:induction false} AllowedFront(w: World, actions: seq<Action>)
    requires Allowed(w, actions) && actions != []
    ensures Allowed(w, actions[..|actions| - 1])
    ensures Enabled(Run(w, actions[..|actions| - 1]), actions[|actions| - 1])
  {
    var front := actions[..|actions| - 1];
    forall i | 0 <= i < |front| ensures Enabled(Run(w, front[..i]), front[i]) {
      assert front[..i] == actions[..i];
    }
  }

  predicate LosesNoWrite(w: World, actions: seq<Action>) {
    forall i :: 0 <= i < |actions| ==> !LosesWrite(Run(w, actions[..i]), actions[i])
  }

  /**
   * In every run that loses no write-back, neither the file nor the provider ever holds a refresh
   * token this provider has spent.
   */
  lemma {:induction false} NeverHoldsSpent(w: World, actions: seq<Action>)
    requires Consistent(w) && Clean(w) && Allowed(w, actions) && LosesNoWrite(w, actions)
    ensures Consistent(Run(w, actions)) && Clean(Run(w, actions))
  {
    if actions == [] {
    } else {
      var n := |actions| - 1;
      var front := actions[..n];
      AllowedFront(w, actions);
      forall i | 0 <= i < n ensures !LosesWrite(Run(w, front[..i]), front[i]) {
        assert front[..i] == actions[..i];
      }
      NeverHoldsSpent(w, front);
      StepConsistent(Run(w, front), actions[n]);
      StepCleanIff(Run(w, front), actions[n]);
    }
  }

  // ---- what a refresh does to the file -----------------------------------------------------

  /** The endpoint grants the held refresh token. */
  predicate Grants(w: World, a: Action) {
    a.RefreshAndWrite? && a.reply.Granted? && w.held.refreshToken.Some? && w.held.sourcePath.Some?
  }

  /** And the new pair can be written. */
  predicate CanWrite(w: World, a: Action) {
    Grants(w, a) && a.diskWorks
  }

  /**
   * A refresh writes over the file exactly when the file is an object with room for a login, and
   * holds either the very refresh token being spent or a login without one.
   */
  predicate Overwrites(w: World, a: Action) {
    CanWrite(w, a) && !w.file.NotObject? && !w.file.OddLogin?
    && (RefreshOnDisk(w.file).None? || RefreshOnDisk(w.file) == w.held.refreshToken)
  }

  lemma {:induction false} RefreshWritesIff(w: World, a: Action)
    requires a.RefreshAndWrite?
    ensures Step(w, a).file
      == if Overwrites(w, a)
         then Login(Some(a.reply.access),
                    if a.reply.refresh.Some? then a.reply.refresh else RefreshOnDisk(w.file),
                    Some(ExpiryOf(a.reply, a.now)))
         else w.file
  {
  }

  /** For a login that answers with another access token: replaced exactly then. */
  lemma {:induction false} RefreshReplacesLoginIff(w: World, a: Action)
    requires Grants(w, a) && w.file.Login? && w.file.access != Some(a.reply.access)
    ensures Step(w, a).file != w.file
      <==> a.diskWorks && (w.file.refresh.None? || w.file.refresh == w.held.refreshToken)
  {
    RefreshWritesIff(w, a);
  }

  predicate ByProvider(a: Action) {
    a.Adopt? || a.ReadAgain? || a.RefreshAndWrite?
  }

  /** The endpoint never answers with the access token of the login in the file. */
  predicate GrantsOthers(file: Content, actions: seq<Action>)
    requires file.Login?
  {
    forall a :: a in actions && a.RefreshAndWrite? && a.reply.Granted? ==> file.access != Some(a.reply.access)
  }

  /** The provider never comes to hold the refresh token of the login that was in the file. */
  predicate NeverTakenOver(w: World, actions: seq<Action>) {
    forall i :: 0 <= i <= |actions| ==> Run(w, actions[..i]).held.refreshToken != RefreshOnDisk(w.file)
  }

  predicate FileKept(w: World, actions: seq<Action>) {
    forall i :: 0 <= i <= |actions| ==> Run(w, actions[..i]).file == w.file
  }

  predicate NeverWrites(w: World, actions: seq<Action>) {
    forall i :: 0 <= i < |actions| ==> !CanWrite(Run(w, actions[..i]), actions[i])
  }

  /** One more action of the provider, while the file is still the other's. */
  lemma {:induction false} ProviderStep(w: World, file: Content, a: Action)
    requires ByProvider(a) && w.file == file && file.Login? && w.held.refreshToken != file.refresh
    requires file.refresh.None? && a.RefreshAndWrite? && a.reply.Granted? ==> file.access != Some(a.reply.access)
    ensures Step(w, a).file == file <==> file.refresh.Some? || !CanWrite(w, a)
  {
    if a.RefreshAndWrite? {
      RefreshWritesIff(w, a);
    }
  }

  lemma {:induction false} NeverTakenOverFront(w: World, actions: seq<Action>)
    requires NeverTakenOver(w, actions) && actions != []
    ensures NeverTakenOver(w, actions[..|actions| - 1])
    ensures Run(w, actions[..|actions| - 1]).held.refreshToken != RefreshOnDisk(w.file)
  {
    var front := actions[..|actions| - 1];
    forall i | 0 <= i <= |front| ensures Run(w, front[..i]).held.refreshToken != RefreshOnDisk(w.file) {
      assert front[..i] == actions[..i];
    }
    assert front[..|front|] == front;
  }

  lemma {:induction false} FileKeptSnoc(w: World, actions: seq<Action>)
    requires actions != []
    ensures FileKept(w, actions) <==> FileKept(w, actions[..|actions| - 1]) && Run(w, actions).file == w.file
    ensures FileKept(w, actions[..|actions| - 1]) ==> Run(w, actions[..|actions| - 1]).file == w.file
  {
    var front := actions[..|actions| - 1];
    assert forall i :: 0 <= i <= |front| ==> front[..i] == actions[..i];
    assert actions[..|actions|] == actions && front[..|front|] == front;
  }

  lemma {:induction false} NeverWritesSnoc(w: World, actions: seq<Action>)
    requires actions != []
    ensures NeverWrites(w, actions)
      <==> NeverWrites(w, actions[..|actions| - 1])
           && !CanWrite(Run(w, actions[..|actions| - 1]), actions[|actions| - 1])
  {
    var front := actions[..|actions| - 1];
    assert forall i :: 0 <= i <= |front| ==> front[..i] == actions[..i];
    assert front[..|front|] == front;
  }

  /**
   * When another process's login is overwritten. Until the provider takes it over, its own actions
   * leave the file alone throughout exactly when the login has a refresh token to be told apart by,
   * or none of the provider's refreshes succeeds.
   */
  lemma {:induction false} LoginKeptIff(w: World, actions: seq<Action>)
    requires w.file.Login? && (forall a :: a in actions ==> ByProvider(a))
    requires NeverTakenOver(w, actions) && (w.file.refresh.None? ==> GrantsOthers(w.file, actions))
    ensures FileKept(w, actions) <==> w.file.refresh.Some? || NeverWrites(w, actions)
  {
    if actions == [] {
      assert actions[..0] == [];
    } else {
      var front, last := actions[..|actions| - 1], actions[|actions| - 1];
      NeverTakenOverFront(w, actions);
      FileKeptSnoc(w, actions);
      NeverWritesSnoc(w, actions);
      LoginKeptIff(w, front);
      assert last in actions;
      if FileKept(w, front) {
        ProviderStep(Run(w, front), w.file, last);
      }
    }
  }

  /** A login without a refresh token, written by another process, replaced by the account it left. */
  lemma {:induction false} AccessOnlyLoginIsOverwritten()
    ensures var held := TokenState(Some("a0"), Some("r0"), Some(0), Some("creds.json"), None);
      var w := World(Login(Some("a0"), Some("r0"), Some(0)), held, {}, {}, {"r0"});
      var login := OtherLogsIn(Some("other"), None, Some(9));
      var refresh := RefreshAndWrite(Granted("a1", Some("r1"), None), 0, true);
      Consistent(w) && Clean(w) && Enabled(w, login) && Enabled(Step(w, login), refresh)
      && Step(w, login).file == Login(Some("other"), None, Some(9))
      && Step(Step(w, login), refresh).file == Login(Some("a1"), Some("r1"), Some(3600000))
  {
  }

  /** A refresh logs back in on a file the other process has just logged out of. */
  lemma {:induction false} RefreshUndoesLogout()
    ensures var held := TokenState(Some("a0"), Some("r0"), Some(0), Some("creds.json"), None);
      var w := World(Login(Some("a0"), Some("r0"), Some(0)), held, {}, {}, {"r0"});
      var logout, refresh := OtherLogsOut(NoLogin), RefreshAndWrite(Granted("a1", Some("r1"), None), 0, true);
      Consistent(w) && Clean(w) && Enabled(w, logout) && Enabled(Step(w, logout), refresh)
      && Step(w, logout).file == NoLogin
      && Step(Step(w, logout), refresh).file == Login(Some("a1"), Some("r1"), Some(3600000))
  {
  }

  /** Does the file hold, before a refresh, a login the write-back will leave or fail to replace? */
  predicate LeavesOtherAccess(w: World, a: Action)
    requires a.RefreshAndWrite? && a.reply.Granted?
  {
    w.file.Login? && NonEmpty(w.file.access) && w.file.access != Some(a.reply.access)
    && (!a.diskWorks || (w.file.refresh.Some? && w.file.refresh != w.held.refreshToken))
  }

  /**
   * What is kept in memory after a refresh is still held after the next look at the file exactly
   * when the file did not hold another non-empty access token that the write-back left there. So a
   * failed write-back takes the provider back to the login it has just spent.
   */
  lemma {:induction false} RefreshedLoginKeptIff(w: World, a: Action)
    requires Consistent(w) && a.RefreshAndWrite? && a.reply.Granted? && w.held.refreshToken.Some?
    ensures Step(Step(w, a), Adopt).held == Step(w, a).held <==> !LeavesOtherAccess(w, a)
  {
    var w' := Step(w, a);
    RefreshWritesIff(w, a);
    assert w'.held.accessToken == Some(a.reply.access) && w'.held.sourcePath.Some?;
    if LeavesOtherAccess(w, a) {
      assert w'.file == w.file && Step(w', Adopt).held.accessToken == w.file.access;
    }
  }

  /** A run in which one failed write-back leaves the provider with a token no endpoint takes. */
  lemma {:induction false} FailedWriteStrandsProvider()
    ensures var held := TokenState(Some("a0"), Some("r0"), Some(0), Some("creds.json"), None);
      var w := World(Login(Some("a0"), Some("r0"), Some(0)), held, {}, {}, {"r0"});
      var refresh := RefreshAndWrite(Granted("a1", Some("r1"), None), 0, false);
      Consistent(w) && Clean(w) && Enabled(w, refresh)
      && var stranded := Step(Step(w, refresh), Adopt);
         stranded.held.refreshToken == Some("r0") && "r0" in stranded.dead
         && stranded.file == w.file && !Clean(stranded)
  {
  }
}
