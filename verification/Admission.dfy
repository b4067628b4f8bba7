/**
 * Admitting an agent to a node as her own Unix principal: a guarded step over the node's mappings
 * and accounts.
 */
module Admission {
  import opened Sequences
  import opened Wrappers

  const RESERVED_ACCOUNTS := ["root", "souveraine", "souveraine-session"]
  const HUMAN_UID_FLOOR := 1000
  const NO_LOGIN_SHELL := "/usr/bin/nologin"
  const MAX_ACCOUNT_LENGTH := 31
  const SEED_LENGTH := 64

  datatype Mapping = Mapping(
    agentId: string, agentSeedId: string, account: string, uid: nat, nodeId: string, stateRoot: string,
    admittedAt: nat)

  datatype Account = Account(name: string, uid: nat, shell: string)

  // ---- names -------------------------------------------------------------------------------

  predicate IsNameStart(c: char) { 'a' <= c <= 'z' || c == '_' }

  predicate IsNamePart(c: char) { IsNameStart(c) || '0' <= c <= '9' || c == '-' }

  predicate IsValidAccount(account: string) {
    account != "" && |account| <= MAX_ACCOUNT_LENGTH && IsNameStart(account[0])
    && (forall i :: 1 <= i < |account| ==> IsNamePart(account[i]))
    && account !in RESERVED_ACCOUNTS
  }

  datatype NameError = NoAccount | Malformed | Reserved

  method ValidateAccountName(account: string) returns (error: Option<NameError>)
    ensures error.None? <==> IsValidAccount(account)
    ensures error == Some(Reserved) <==> account in RESERVED_ACCOUNTS
  {
    if account == "" {
      return Some(NoAccount);
    }
    var firstOk := IsNameStart(account[0]);
    var restOk := true;
    for i := 1 to |account|
      invariant restOk <==> forall j :: 1 <= j < i ==> IsNamePart(account[j])
    {
      if !IsNamePart(account[i]) {
        restOk := false;
      }
    }
    if !(|account| <= MAX_ACCOUNT_LENGTH && firstOk && restOk) {
      return Some(Malformed);
    }
    if account in RESERVED_ACCOUNTS {
      return Some(Reserved);
    }
    return None;
  }

  /** An agent id becomes a filename. */
  predicate IsValidAgentId(agentId: string) {
    agentId != "" && '/' !in agentId && !Contains(agentId, "..")
  }

  predicate IsHexDigit(c: char) { '0' <= c <= '9' || 'a' <= c <= 'f' || 'A' <= c <= 'F' }

  predicate IsValidSeed(seedId: string) {
    seedId == "" || (|seedId| == SEED_LENGTH && forall i :: 0 <= i < |seedId| ==> IsHexDigit(seedId[i]))
  }

  // ---- mappings ----------------------------------------------------------------------------

  /** The mapping of one agent. There is one file per agent. */
  function LoadNodeMapping(ms: seq<Mapping>, agentId: string): (r: Option<Mapping>)
    ensures r.Some? ==> r.value in ms && r.value.agentId == agentId
    ensures r.None? ==> forall m :: m in ms ==> m.agentId != agentId
  {
    if ms == [] then None
    else if ms[0].agentId == agentId then Some(ms[0]) else LoadNodeMapping(ms[1..], agentId)
  }

  /** The agent of the first mapping with a property, in directory order. */
  function FirstOwner(ms: seq<Mapping>, holds: Mapping -> bool): (r: Option<string>)
    ensures r.Some? ==> exists m :: m in ms && holds(m) && m.agentId == r.value
    ensures r.None? ==> forall m :: m in ms ==> !holds(m)
  {
    if ms == [] then None
    else if holds(ms[0]) then Some(ms[0].agentId) else FirstOwner(ms[1..], holds)
  }

  /** The agent that holds an account. */
  function MappingOwnerOfAccount(ms: seq<Mapping>, account: string): (r: Option<string>)
    ensures r.Some? ==> exists m :: m in ms && m.account == account && m.agentId == r.value
    ensures r.None? ==> forall m :: m in ms ==> m.account != account
  {
    FirstOwner(ms, (m: Mapping) => m.account == account)
  }

  /** The agent that owns a uid. */
  function MappingOwnerOfUid(ms: seq<Mapping>, uid: nat): Option<string> {
    FirstOwner(ms, (m: Mapping) => m.uid == uid)
  }

  /** Writing an agent's mapping file. */
  function WithMapping(ms: seq<Mapping>, m: Mapping): seq<Mapping> {
    if ms == [] then [m]
    else if ms[0].agentId == m.agentId then [m] + ms[1..]
    else [ms[0]] + WithMapping(ms[1..], m)
  }

  predicate OnePerAgent(ms: seq<Mapping>) {
    forall i, j :: 0 <= i < j < |ms| ==> ms[i].agentId != ms[j].agentId
  }

  lemma {:induction false} WithMappingMeaning(ms: seq<Mapping>, m: Mapping)
    requires OnePerAgent(ms)
    ensures OnePerAgent(WithMapping(ms, m))
    ensures forall x :: x in WithMapping(ms, m) <==> x == m || (x in ms && x.agentId != m.agentId)
    ensures LoadNodeMapping(WithMapping(ms, m), m.agentId) == Some(m)
  {
    if ms == [] {
    } else {
      var first, rest := ms[0], ms[1..];
      assert ms == [first] + rest;
      assert forall x :: x in ms <==> x == first || x in rest;
      assert forall x :: x in rest ==> x.agentId != first.agentId;
      if first.agentId == m.agentId {
        assert OnePerAgent([m] + rest);
      } else {
        WithMappingMeaning(rest, m);
        OnePerAgentCons(first, WithMapping(rest, m));
      }
    }
  }

  lemma {:induction false} OnePerAgentCons(first: Mapping, rest: seq<Mapping>)
    requires OnePerAgent(rest) && forall x :: x in rest ==> x.agentId != first.agentId
    ensures OnePerAgent([first] + rest)
  {
    var all := [first] + rest;
    forall i, j | 0 <= i < j < |all| ensures all[i].agentId != all[j].agentId {
      assert all[j] == rest[j - 1];
    }
  }

  // ---- one admission -----------------------------------------------------------------------

  datatype Request = Request(agentId: string, account: string, seedId: string, dryRun: bool)

  /**
   * What the system contributes to one call: whether we may act, the account before, whether
   * creating it worked, the account after, the node's name, the state root and the time.
   */
  datatype Env = Env(
    permitted: bool, found: Option<Account>, sysusersWorks: bool, created: Option<Account>,
    nodeId: string, stateRoot: string, now: nat)

  datatype Refusal =
    | NeedsRoot
    | BadAccount
    | BadAgentId
    | BadSeed
    | AccountTaken(owner: string)
    | AlreadyAdmitted(account: string)
    | SeedDrift
    | LoginAccount(uid: nat)
    | SysusersFailed
    | AccountMissing
    | LoginShell(shell: string)

  datatype Answer = Refused(reason: Refusal) | Planned | Admitted(mapping: Mapping)

  /** The mapping a successful call records. */
  function Recorded(existing: Option<Mapping>, r: Request, env: Env): Mapping
    requires env.created.Some?
  {
    Mapping(
      r.agentId,
      if r.seedId == "" then (if existing.Some? then existing.value.agentSeedId else "") else r.seedId,
      env.created.value.name,
      env.created.value.uid,
      env.nodeId,
      env.stateRoot,
      if existing.Some? then existing.value.admittedAt else env.now)
  }

  /** Why a call is refused before anything is written, if it is. */
  function Refuses(ms: seq<Mapping>, r: Request, env: Env): Option<Refusal> {
    var owner, existing := MappingOwnerOfAccount(ms, r.account), LoadNodeMapping(ms, r.agentId);
    if !env.permitted && !r.dryRun then Some(NeedsRoot)
    else if !IsValidAccount(r.account) then Some(BadAccount)
    else if !IsValidAgentId(r.agentId) then Some(BadAgentId)
    else if !IsValidSeed(r.seedId) then Some(BadSeed)
    else if owner.Some? && owner.value != r.agentId then Some(AccountTaken(owner.value))
    else if existing.Some? && existing.value.account != r.account then Some(AlreadyAdmitted(existing.value.account))
    else if existing.Some? && existing.value.agentSeedId != "" && r.seedId != ""
         && existing.value.agentSeedId != r.seedId then Some(SeedDrift)
    else if env.found.Some? && env.found.value.uid >= HUMAN_UID_FLOOR && existing.None?
    then Some(LoginAccount(env.found.value.uid))
    else None
  }

  function Outcome(ms: seq<Mapping>, r: Request, env: Env): Answer {
    var refusal := Refuses(ms, r, env);
    if refusal.Some? then Refused(refusal.value)
    else if r.dryRun then Planned
    else if !env.sysusersWorks then Refused(SysusersFailed)
    else if env.created.None? then Refused(AccountMissing)
    else if env.created.value.shell != NO_LOGIN_SHELL then Refused(LoginShell(env.created.value.shell))
    else Admitted(Recorded(LoadNodeMapping(ms, r.agentId), r, env))
  }

  function AfterApply(ms: seq<Mapping>, r: Request, env: Env): seq<Mapping> {
    var answer := Outcome(ms, r, env);
    if answer.Admitted? then WithMapping(ms, answer.mapping) else ms
  }

  class Node {
    var mappings: seq<Mapping>
    /** The sysusers declarations written, by agent. */
    var dropIns: map<string, string>
    /** The agents' own roots, with the uid that owns each. */
    var stateRoots: map<string, nat>

    constructor ()
      ensures mappings == [] && dropIns == map[] && stateRoots == map[]
    {
      mappings, dropIns, stateRoots := [], map[], map[];
    }

    method Apply(r: Request, env: Env) returns (answer: Answer)
      modifies this
      ensures answer == Outcome(old(mappings), r, env)
      ensures mappings == AfterApply(old(mappings), r, env)
      ensures answer.Admitted? ==>
        dropIns == old(dropIns)[r.agentId := r.account]
        && stateRoots == old(stateRoots)[r.agentId := answer.mapping.uid]
      ensures !answer.Admitted? ==> stateRoots == old(stateRoots)
      ensures answer.Planned? || Refuses(old(mappings), r, env).Some? ==> dropIns == old(dropIns)
    {
      if !env.permitted && !r.dryRun {
        return Refused(NeedsRoot);
      }
      var nameError := ValidateAccountName(r.account);
      if nameError.Some? {
        return Refused(BadAccount);
      }
      if !IsValidAgentId(r.agentId) {
        return Refused(BadAgentId);
      }
      if !IsValidSeed(r.seedId) {
        return Refused(BadSeed);
      }
      var owner := MappingOwnerOfAccount(mappings, r.account);
      if owner.Some? && owner.value != r.agentId {
        return Refused(AccountTaken(owner.value));
      }
      var existing := LoadNodeMapping(mappings, r.agentId);
      if existing.Some? {
        if existing.value.account != r.account {
          return Refused(AlreadyAdmitted(existing.value.account));
        }
        if existing.value.agentSeedId != "" && r.seedId != "" && existing.value.agentSeedId != r.seedId {
          return Refused(SeedDrift);
        }
      }
      if env.found.Some? && env.found.value.uid >= HUMAN_UID_FLOOR && existing.None? {
        return Refused(LoginAccount(env.found.value.uid));
      }
      if r.dryRun {
        return Planned;
      }
      dropIns := dropIns[r.agentId := r.account];
      if !env.sysusersWorks {
        return Refused(SysusersFailed);
      }
      if env.created.None? {
        return Refused(AccountMissing);
      }
      var created := env.created.value;
      if created.shell != NO_LOGIN_SHELL {
        return Refused(LoginShell(created.shell));
      }
      var mapping := Mapping(
        r.agentId,
        if r.seedId == "" then (if existing.Some? then existing.value.agentSeedId else "") else r.seedId,
        created.name, created.uid, env.nodeId, env.stateRoot,
        if existing.Some? then existing.value.admittedAt else env.now);
      mappings := WithMapping(mappings, mapping);
      stateRoots := stateRoots[r.agentId := created.uid];
      answer := Admitted(mapping);
    }
  }

  // ---- what every run keeps ----------------------------------------------------------------

  /** Accounts are looked up by the name asked for. */
  predicate Honest(r: Request, env: Env) {
    env.created.Some? ==> env.created.value.name == r.account
  }

  predicate AccountsDistinct(ms: seq<Mapping>) {
    forall a, b :: a in ms && b in ms && a.account == b.account ==> a.agentId == b.agentId
  }

  predicate Sound(ms: seq<Mapping>) {
    OnePerAgent(ms) && AccountsDistinct(ms) && forall m :: m in ms ==> IsValidAccount(m.account)
  }

  lemma {:induction false} ApplySound(ms: seq<Mapping>, r: Request, env: Env)
    requires Sound(ms) && Honest(r, env)
    ensures Sound(AfterApply(ms, r, env))
  {
    var answer := Outcome(ms, r, env);
    if answer.Admitted? {
      WithMappingMeaning(ms, answer.mapping);
      assert forall x :: x in ms && x.account == r.account ==> x.agentId == r.agentId by {
        var owner := MappingOwnerOfAccount(ms, r.account);
        if owner.Some? {
          var m :| m in ms && m.account == r.account && m.agentId == owner.value;
        }
      }
    }
  }

  /** What may change in an agent's mapping, once she has one. */
  predicate Continues(before: Mapping, after: Mapping) {
    after.agentId == before.agentId && after.account == before.account && after.admittedAt == before.admittedAt
    && (before.agentSeedId != "" ==> after.agentSeedId == before.agentSeedId)
  }

  lemma {:induction false} LoadIsTheOne(ms: seq<Mapping>, m: Mapping)
    requires OnePerAgent(ms) && m in ms
    ensures LoadNodeMapping(ms, m.agentId) == Some(m)
  {
    var r := LoadNodeMapping(ms, m.agentId).value;
    var i, j :| 0 <= i < |ms| && 0 <= j < |ms| && ms[i] == m && ms[j] == r;
    assert !(i < j) && !(j < i);
  }

  lemma {:induction false} LoadAfterWrite(ms: seq<Mapping>, m: Mapping, agentId: string)
    requires OnePerAgent(ms)
    ensures LoadNodeMapping(WithMapping(ms, m), agentId)
      == if agentId == m.agentId then Some(m) else LoadNodeMapping(ms, agentId)
  {
    WithMappingMeaning(ms, m);
    var before, after := LoadNodeMapping(ms, agentId), LoadNodeMapping(WithMapping(ms, m), agentId);
    if agentId != m.agentId && before.Some? {
      assert before.value in WithMapping(ms, m);
      LoadIsTheOne(WithMapping(ms, m), before.value);
    }
  }

  lemma {:induction false} ApplyContinues(ms: seq<Mapping>, r: Request, env: Env, agentId: string)
    requires Sound(ms) && Honest(r, env) && LoadNodeMapping(ms, agentId).Some?
    ensures var after := LoadNodeMapping(AfterApply(ms, r, env), agentId);
      after.Some? && Continues(LoadNodeMapping(ms, agentId).value, after.value)
  {
    var answer := Outcome(ms, r, env);
    if answer.Admitted? {
      LoadAfterWrite(ms, answer.mapping, agentId);
    }
  }

  datatype Call = Call(request: Request, env: Env)

  function AfterCalls(calls: seq<Call>): seq<Mapping> {
    if calls == [] then []
    else
      var last := calls[|calls| - 1];
      AfterApply(AfterCalls(calls[..|calls| - 1]), last.request, last.env)
  }

  predicate AllHonest(calls: seq<Call>) {
    forall i :: 0 <= i < |calls| ==> Honest(calls[i].request, calls[i].env)
  }

  /** In every run of calls no two agents hold one account. */
  lemma {:induction false} RunIsSound(calls: seq<Call>)
    requires AllHonest(calls)
    ensures Sound(AfterCalls(calls))
  {
    if calls == [] {
    } else {
      var last := calls[|calls| - 1];
      RunIsSound(calls[..|calls| - 1]);
      ApplySound(AfterCalls(calls[..|calls| - 1]), last.request, last.env);
    }
  }

  /** An admitted agent's account, admission time and recorded seed never change afterwards. */
  lemma {:induction false} RunContinues(calls: seq<Call>, n: nat, agentId: string)
    requires AllHonest(calls) && n <= |calls| && LoadNodeMapping(AfterCalls(calls[..n]), agentId).Some?
    ensures var after := LoadNodeMapping(AfterCalls(calls), agentId);
      after.Some? && Continues(LoadNodeMapping(AfterCalls(calls[..n]), agentId).value, after.value)
    decreases |calls|
  {
    if n == |calls| {
      assert calls[..n] == calls;
    } else {
      var front, last := calls[..|calls| - 1], calls[|calls| - 1];
      assert front[..n] == calls[..n];
      RunContinues(front, n, agentId);
      RunIsSound(front);
      ApplyContinues(AfterCalls(front), last.request, last.env, agentId);
    }
  }

  /**
   * Every mapping in a run goes back to a call that admitted it: the account then had no login
   * shell, and if it was there before the agent's first admission its uid was below the floor.
   */
  lemma {:induction false} RecordedBy(calls: seq<Call>, m: Mapping) returns (n: nat)
    requires AllHonest(calls) && m in AfterCalls(calls)
    ensures n < |calls|
    ensures var call, before := calls[n], AfterCalls(calls[..n]);
      Outcome(before, call.request, call.env) == Admitted(m)
      && call.env.created.value.shell == NO_LOGIN_SHELL
      && m.account == call.request.account && m.uid == call.env.created.value.uid
      && (LoadNodeMapping(before, m.agentId).None? && call.env.found.Some?
          ==> call.env.found.value.uid < HUMAN_UID_FLOOR)
    decreases |calls|
  {
    var front, last := calls[..|calls| - 1], calls[|calls| - 1];
    var before := AfterCalls(front);
    var answer := Outcome(before, last.request, last.env);
    RunIsSound(front);
    if answer == Admitted(m) {
      n := |calls| - 1;
    } else {
      if answer.Admitted? {
        WithMappingMeaning(before, answer.mapping);
      }
      n := RecordedBy(front, m);
      assert front[..n] == calls[..n];
    }
  }

  /** The node's account table, with one uid for each name, answers every lookup of a run. */
  predicate OneAccountTable(calls: seq<Call>, uids: map<string, nat>) {
    (forall a, b :: a in uids && b in uids && uids[a] == uids[b] ==> a == b)
    && forall i :: 0 <= i < |calls| && calls[i].env.created.Some? ==>
      calls[i].env.created.value.name in uids
      && calls[i].env.created.value.uid == uids[calls[i].env.created.value.name]
  }

  /** On such a node the uid a turn runs under names the one agent admitted with it. */
  lemma {:induction false} UidNamesItsAgent(calls: seq<Call>, uids: map<string, nat>, m: Mapping)
    requires AllHonest(calls) && OneAccountTable(calls, uids) && m in AfterCalls(calls)
    ensures MappingOwnerOfUid(AfterCalls(calls), m.uid) == Some(m.agentId)
  {
    var ms := AfterCalls(calls);
    var owner := MappingOwnerOfUid(ms, m.uid);
    var holder :| holder in ms && holder.uid == m.uid && holder.agentId == owner.value;
    var i := RecordedBy(calls, m);
    var j := RecordedBy(calls, holder);
    assert uids[m.account] == uids[holder.account];
    RunIsSound(calls);
  }

  lemma {:induction false} OwnerIs(ms: seq<Mapping>, m: Mapping)
    requires Sound(ms) && m in ms
    ensures MappingOwnerOfAccount(ms, m.account) == Some(m.agentId)
  {
    var owner := MappingOwnerOfAccount(ms, m.account);
    var holder :| holder in ms && holder.account == m.account && holder.agentId == owner.value;
  }

  lemma {:induction false} WriteAgain(ms: seq<Mapping>, m: Mapping)
    requires LoadNodeMapping(ms, m.agentId) == Some(m)
    ensures WithMapping(ms, m) == ms
  {
    if ms[0].agentId == m.agentId {
    } else {
      WriteAgain(ms[1..], m);
    }
  }

  /** Once an agent's mapping is on record, the same request is admitted again, unchanged. */
  lemma {:induction false} AdmittedAgain(ms: seq<Mapping>, m: Mapping, r: Request, env: Env)
    requires Sound(ms) && LoadNodeMapping(ms, r.agentId) == Some(m) && m.account == r.account
    requires IsValidAgentId(r.agentId) && IsValidSeed(r.seedId) && (r.seedId == "" || r.seedId == m.agentSeedId)
    requires env.permitted && env.sysusersWorks && !r.dryRun
    requires env.created == Some(Account(m.account, m.uid, NO_LOGIN_SHELL))
    requires env.nodeId == m.nodeId && env.stateRoot == m.stateRoot
    ensures Outcome(ms, r, env) == Admitted(m)
  {
    OwnerIs(ms, m);
  }

  /** Repeating a call whose account has not changed leaves the mappings as they are. */
  lemma {:induction false} ApplyIdempotent(ms: seq<Mapping>, r: Request, env: Env, again: Env)
    requires Sound(ms) && Honest(r, env) && Outcome(ms, r, env).Admitted?
    requires again.permitted && again.sysusersWorks && again.created == env.created
    requires again.nodeId == env.nodeId && again.stateRoot == env.stateRoot
    ensures Outcome(AfterApply(ms, r, env), r, again) == Outcome(ms, r, env)
    ensures AfterApply(AfterApply(ms, r, env), r, again) == AfterApply(ms, r, env)
  {
    var m := Outcome(ms, r, env).mapping;
    var once := AfterApply(ms, r, env);
    ApplySound(ms, r, env);
    LoadAfterWrite(ms, m, m.agentId);
    AdmittedAgain(once, m, r, again);
    WriteAgain(once, m);
  }
}
