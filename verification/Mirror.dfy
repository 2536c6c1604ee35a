/** The small mirror of sets the contract refines: no lifetimes, no event log,
    and a prediction for every call. */
module Mirror {
  import opened HookCore
  import opened Ledger
  import opened Machine
  import Evaluator

  datatype Mirror = Mirror(
    admin: Option<Address>,
    config: Option<ComplianceConfig>,
    version: Option<U32>,
    layout: Option<U32>,
    bound: map<Address, Option<Address>>,
    frozen: set<Holding>)

  /** The mirror a ledger state stands for: its live entries. */
  function Abs(s: State): Mirror {
    Mirror(s.admin, s.config, s.version, s.layout,
           map token | token in s.bindings && s.now <= s.bindings[token].liveUntil :: s.bindings[token].sac,
           set h | h in s.flags && s.now <= s.flags[h])
  }

  /******* Predictions *******/

  /** Which of the parties a hook is predicted on hold funds; a withdrawal is screened once. */
  function PredictRoles(hook: Hook): seq<bool> {
    match hook
    case BeforeRegister(_) => [true]
    case BeforeMerge(_) => [true]
    case BeforeWithdraw(_) => [true]
    case BeforeDeposit(_, _) => [true, true]
    case BeforeTransfer(_, _) => [true, true]
    case BeforeTransferFrom(_, _, _) => [false, true, true]
  }

  function PredictParties(hook: Hook): (parties: seq<Address>)
    ensures |parties| == |PredictRoles(hook)|
  {
    match hook
    case BeforeRegister(account) => [account]
    case BeforeMerge(account) => [account]
    case BeforeWithdraw(account) => [account]
    case BeforeDeposit(from, to) => [from, to]
    case BeforeTransfer(from, to) => [from, to]
    case BeforeTransferFrom(spender, from, to) => [spender, from, to]
  }

  /** Scans one party: freeze, then policy, then SAC; each external answer is asked afresh. */
  function ScanParty(m: Mirror, config: ComplianceConfig, token: Address, holdsFunds: bool, party: Address, oracle: Oracle): Answer
    requires token in m.bound
  {
    var policy := if config.policy.Some? then oracle([], PolicyQuery(config.policy.value, party, token)) else Yes;
    if holdsFunds && Holding(token, party) in m.frozen then Err(Rejection(RejectionReason.AccountFrozen))
    else if policy == No then Err(Rejection(if holdsFunds then PolicyDenied else SpenderNotAuthorized))
    else if policy == Failed then Err(Rejection(PolicyUnavailable))
    else if holdsFunds && config.sacPassthrough && m.bound[token].Some? && oracle([], SacQuery(m.bound[token].value, party)) != Yes then
      Err(Rejection(SacAuthorizationFailed))
    else Done
  }

  /** Scans the parties in order, up to the first that is refused. */
  function Scan(m: Mirror, config: ComplianceConfig, token: Address, roles: seq<bool>, parties: seq<Address>, oracle: Oracle): Answer
    requires |roles| == |parties| && token in m.bound
  {
    if roles == [] then Done
    else
      var first := ScanParty(m, config, token, roles[0], parties[0], oracle);
      if first != Done then first else Scan(m, config, token, roles[1..], parties[1..], oracle)
  }

  function Predict(m: Mirror, token: Address, hook: Hook, oracle: Oracle): Answer {
    if m.config.None? then Err(Rejection(InvalidConfiguration))
    else if token !in m.bound then Err(Rejection(UnboundToken))
    else Scan(m, m.config.value, token, PredictRoles(hook), PredictParties(hook), oracle)
  }

  /** Why an admin call is refused, if it is. */
  function Refusal(m: Mirror, signers: set<Address>): Option<Answer> {
    if m.admin.None? then Some(Err(Rejection(InvalidConfiguration)))
    else if m.admin.value !in signers then Some(Trap)
    else None
  }

  function ScopeRefusal(m: Mirror, token: Address, signers: set<Address>): Option<Answer> {
    if Refusal(m, signers).Some? then Refusal(m, signers)
    else if m.config.None? then Some(Err(Rejection(InvalidConfiguration)))
    else if token !in m.bound then Some(Err(Rejection(UnboundToken)))
    else None
  }

  /** What the mirror becomes, and what the contract must answer. */
  function MirrorApply(m: Mirror, call: Call, signers: set<Address>, oracle: Oracle): (Mirror, Answer) {
    match call
    case Initialize(admin) =>
      if m.admin.Some? then (m, Err(AlreadyInitialized))
      else if admin !in signers then (m, Trap)
      else (m.(admin := Some(admin), layout := Some(VERSION)), Done)
    case SetConfig(config) =>
      if Refusal(m, signers).Some? then (m, Refusal(m, signers).value)
      else if m.config == Some(config) then (m, Done)
      else if m.version == Some(U32_MAX) then (m, Trap)
      else (m.(config := Some(config), version := Some(m.version.GetOr(0) + 1), layout := Some(m.layout.GetOr(VERSION))), Done)
    case BindToken(token, sac) =>
      if Refusal(m, signers).Some? then (m, Refusal(m, signers).value)
      else (m.(bound := m.bound[token := sac]), Done)
    case UnbindToken(token) =>
      if Refusal(m, signers).Some? then (m, Refusal(m, signers).value)
      else (m.(bound := m.bound - {token}), Done)
    case Freeze(token, account) =>
      if ScopeRefusal(m, token, signers).Some? then (m, ScopeRefusal(m, token, signers).value)
      else (m.(frozen := m.frozen + {Holding(token, account)}), Done)
    case Unfreeze(token, account) =>
      if ScopeRefusal(m, token, signers).Some? then (m, ScopeRefusal(m, token, signers).value)
      else (m.(frozen := m.frozen - {Holding(token, account)}), Done)
    case Enforce(token, hook) => (m, Predict(m, token, hook, oracle))
    case ReadAdmin => (m, AdminIs(m.admin))
    case ReadInitialized => (m, Flag(m.admin.Some?))
    case ReadStateVersion => (m, Number(m.layout.GetOr(0)))
    case ReadConfig => (m, ConfigIs(m.config))
    case ReadConfigVersion => (m, Number(m.version.GetOr(0)))
    case ReadBound(token) => (m, Flag(token in m.bound))
    case ReadFrozen(token, account) => (m, Flag(Holding(token, account) in m.frozen))
  }

  /******* Refinement of one call *******/

  lemma {:induction false} ScheduleHead(config: ComplianceConfig, sac: Option<Address>, roles: seq<PartyRole>, parties: seq<Address>)
    requires |roles| == |parties| > 0
    ensures
      Evaluator.Schedule(config, sac, roles, parties) ==
      Evaluator.PartyGates(config, sac, roles[0], parties[0]) + Evaluator.Schedule(config, sac, roles[1..], parties[1..])
  {
    var n := |roles| - 1;
    if n > 0 {
      ScheduleHead(config, sac, roles[..n], parties[..n]);
      assert roles[..n][1..] == roles[1..][..n - 1] && parties[..n][1..] == parties[1..][..n - 1];
    } else {
      assert Evaluator.Schedule(config, sac, roles[..0], parties[..0]) == [];
      assert Evaluator.Schedule(config, sac, roles[1..], parties[1..]) == [];
    }
  }

  function DecisionAnswer(decision: Decision): Answer {
    if decision.Allow? then Done else Err(Rejection(decision.reason))
  }

  /** With a stable oracle, running the gates of one party is scanning it. */
  lemma PartyIsScanned(s: State, config: ComplianceConfig, token: Address, role: PartyRole, party: Address, oracle: Oracle)
    requires IsBound(s, token) && Stable(oracle)
    ensures
      DecisionAnswer(Evaluator.RunGates(s, token, Evaluator.PartyGates(config, SacOf(s, token), role, party), oracle, []).0) ==
      ScanParty(Abs(s), config, token, HoldsFunds(role), party, oracle)
  {
    Evaluator.PartyOutcome(s, token, config, SacOf(s, token), role, party, oracle, []);
    assert forall query :: oracle([PolicyQuery(config.policy.GetOr(party), party, token)], query) == oracle([], query);
  }

  function Holdings(roles: seq<PartyRole>): seq<bool> {
    seq(|roles|, i requires 0 <= i < |roles| => HoldsFunds(roles[i]))
  }

  /** With stable oracles, running the schedule is scanning the mirror. */
  lemma {:induction false} ScheduleIsScan(s: State, config: ComplianceConfig, token: Address, roles: seq<PartyRole>, parties: seq<Address>, oracle: Oracle, history: seq<Query>)
    requires |roles| == |parties| && IsBound(s, token) && Stable(oracle)
    ensures
      DecisionAnswer(Evaluator.RunGates(s, token, Evaluator.Schedule(config, SacOf(s, token), roles, parties), oracle, history).0) ==
      Scan(Abs(s), config, token, Holdings(roles), parties, oracle)
  {
    if roles != [] {
      var sac := SacOf(s, token);
      var first, rest := Evaluator.PartyGates(config, sac, roles[0], parties[0]), Evaluator.Schedule(config, sac, roles[1..], parties[1..]);
      ScheduleHead(config, sac, roles, parties);
      Evaluator.RunGatesConcat(s, token, first, rest, oracle, history);
      Evaluator.StableIgnoresHistory(s, token, first, oracle, history, []);
      PartyIsScanned(s, config, token, roles[0], parties[0], oracle);
      ScheduleIsScan(s, config, token, roles[1..], parties[1..], oracle, Evaluator.RunGates(s, token, first, oracle, history).1);
      assert Holdings(roles)[1..] == Holdings(roles[1..]);
    }
  }

  /** An operation in scope is decided as the scan of its parties says. */
  lemma OperationIsScanned(s: State, token: Address, op: Operation, parties: seq<Address>, oracle: Oracle)
    requires s.config.Some? && IsBound(s, token) && |Parties(op)| == |parties| && Stable(oracle)
    ensures
      DecisionAnswer(Evaluator.Evaluate(s, token, op, parties, oracle, []).0) ==
      Scan(Abs(s), s.config.value, token, Holdings(Parties(op)), parties, oracle)
  {
    ScheduleIsScan(s, s.config.value, token, Parties(op), parties, oracle, []);
  }

  lemma HookIsPredicted(s: State, token: Address, hook: Hook, oracle: Oracle)
    requires Stable(oracle)
    ensures Apply(s, Enforce(token, hook), {}, oracle).1 == Predict(Abs(s), token, hook, oracle)
  {
    var decision := Evaluator.Evaluate(s, token, HookOperation(hook), HookParties(hook), oracle, []).0;
    assert Apply(s, Enforce(token, hook), {}, oracle).1 == DecisionAnswer(decision);
    if s.config.Some? && IsBound(s, token) {
      if hook.BeforeWithdraw? {
        Evaluator.WithdrawScreensTwice(s, token, hook.account, oracle, []);
        OperationIsScanned(s, token, Merge, [hook.account], oracle);
        assert Holdings(Parties(Merge)) == PredictRoles(hook);
      } else {
        OperationIsScanned(s, token, HookOperation(hook), HookParties(hook), oracle);
        assert Holdings(Parties(HookOperation(hook))) == PredictRoles(hook);
      }
    }
  }

  /** Reads renew lifetimes and nothing else. */
  lemma TouchKeepsMirror(s: State, token: Address, account: Address)
    ensures Abs(TouchBinding(s, token)) == Abs(s)
    ensures Abs(TouchFlag(s, token, account)) == Abs(s)
  {
    assert Abs(TouchBinding(s, token)).bound == Abs(s).bound;
    assert Abs(TouchFlag(s, token, account)).frozen == Abs(s).frozen;
  }

  lemma BindingWritesMirrored(s: State, token: Address, sac: Option<Address>)
    ensures Abs(PutBinding(s, token, sac)) == Abs(s).(bound := Abs(s).bound[token := sac])
    ensures Abs(DropBinding(s, token)) == Abs(s).(bound := Abs(s).bound - {token})
  {
    assert Abs(PutBinding(s, token, sac)).bound == Abs(s).bound[token := sac];
    assert Abs(DropBinding(s, token)).bound == Abs(s).bound - {token};
  }

  lemma FlagWritesMirrored(s: State, token: Address, account: Address)
    ensures Abs(PutFlag(s, token, account)) == Abs(s).(frozen := Abs(s).frozen + {Holding(token, account)})
    ensures Abs(DropFlag(s, token, account)) == Abs(s).(frozen := Abs(s).frozen - {Holding(token, account)})
  {
    assert Abs(PutFlag(s, token, account)).frozen == Abs(s).frozen + {Holding(token, account)};
    assert Abs(DropFlag(s, token, account)).frozen == Abs(s).frozen - {Holding(token, account)};
  }

  lemma BindMirrored(s: State, token: Address, sac: Option<Address>)
    ensures Abs(ApplyBind(s, token, sac)) == Abs(s).(bound := Abs(s).bound[token := sac])
  {
    var read := TouchBinding(s, token);
    TouchKeepsMirror(s, token, token);
    if IsBound(s, token) && s.bindings[token].sac == sac {
      assert Abs(s).bound[token := sac] == Abs(s).bound;
    } else {
      BindingWritesMirrored(read, token, sac);
      assert Abs(Emit(PutBinding(read, token, sac), TokenBound(token))) == Abs(PutBinding(read, token, sac));
    }
  }

  lemma UnbindMirrored(s: State, token: Address)
    ensures Abs(ApplyUnbind(s, token)) == Abs(s).(bound := Abs(s).bound - {token})
  {
    if IsBound(s, token) {
      BindingWritesMirrored(s, token, None);
      assert Abs(Emit(DropBinding(s, token), TokenUnbound(token))) == Abs(DropBinding(s, token));
    } else {
      assert Abs(s).bound - {token} == Abs(s).bound;
    }
  }

  lemma FreezeCallsMirrored(s: State, token: Address, account: Address)
    ensures Abs(ApplyFreeze(s, token, account)) == Abs(s).(frozen := Abs(s).frozen + {Holding(token, account)})
    ensures Abs(ApplyUnfreeze(s, token, account)) == Abs(s).(frozen := Abs(s).frozen - {Holding(token, account)})
  {
    var read := TouchBinding(s, token);
    TouchKeepsMirror(s, token, account);
    TouchKeepsMirror(read, token, account);
    FlagWritesMirrored(read, token, account);
    assert Abs(Emit(PutFlag(read, token, account), Event.AccountFrozen(token, account))) == Abs(PutFlag(read, token, account));
    assert Abs(Emit(DropFlag(read, token, account), AccountUnfrozen(token, account))) == Abs(DropFlag(read, token, account));
    if IsFrozen(s, token, account) {
      assert Abs(s).frozen + {Holding(token, account)} == Abs(s).frozen;
    } else {
      assert Abs(s).frozen - {Holding(token, account)} == Abs(s).frozen;
    }
  }

  /** The contract answers a call as the mirror predicts and abstracts to what the mirror becomes. */
  ghost predicate Mirrored(s: State, call: Call, signers: set<Address>, oracle: Oracle) {
    var (s', answer) := Apply(s, call, signers, oracle);
    (Abs(s'), answer) == MirrorApply(Abs(s), call, signers, oracle)
  }

  lemma LifecycleMirrored(s: State, call: Call, signers: set<Address>, oracle: Oracle)
    requires call.Initialize? || call.SetConfig?
    ensures Mirrored(s, call, signers, oracle)
  {
  }

  lemma ScopeMirrored(s: State, call: Call, signers: set<Address>, oracle: Oracle)
    requires call.BindToken? || call.UnbindToken?
    ensures Mirrored(s, call, signers, oracle)
  {
    if call.BindToken? {
      BindMirrored(s, call.token, call.sac);
    } else {
      UnbindMirrored(s, call.token);
    }
  }

  lemma FreezeMirrored(s: State, token: Address, account: Address, signers: set<Address>, oracle: Oracle)
    ensures Mirrored(s, Freeze(token, account), signers, oracle)
  {
    FreezeCallsMirrored(s, token, account);
  }

  lemma UnfreezeMirrored(s: State, token: Address, account: Address, signers: set<Address>, oracle: Oracle)
    ensures Mirrored(s, Unfreeze(token, account), signers, oracle)
  {
    FreezeCallsMirrored(s, token, account);
  }

  lemma HookMirrored(s: State, token: Address, hook: Hook, signers: set<Address>, oracle: Oracle)
    requires Stable(oracle)
    ensures Mirrored(s, Enforce(token, hook), signers, oracle)
  {
    HookIsPredicted(s, token, hook, oracle);
    TouchKeepsMirror(s, token, token);
  }

  /** One call of the contract refines one call of the mirror. */
  lemma {:induction false} CallRefinesMirror(s: State, call: Call, signers: set<Address>, oracle: Oracle)
    requires Stable(oracle)
    ensures Mirrored(s, call, signers, oracle)
  {
    match call
    case Initialize(_) => LifecycleMirrored(s, call, signers, oracle);
    case SetConfig(_) => LifecycleMirrored(s, call, signers, oracle);
    case BindToken(_, _) => ScopeMirrored(s, call, signers, oracle);
    case UnbindToken(_) => ScopeMirrored(s, call, signers, oracle);
    case Freeze(token, account) => FreezeMirrored(s, token, account, signers, oracle);
    case Unfreeze(token, account) => UnfreezeMirrored(s, token, account, signers, oracle);
    case Enforce(token, hook) => HookMirrored(s, token, hook, signers, oracle);
    case ReadBound(token) => TouchKeepsMirror(s, token, token);
    case ReadFrozen(token, account) => TouchKeepsMirror(s, token, account);
    case _ =>
  }

  /******* Refinement of runs *******/

  /** What lapsed between two calls. */
  datatype Loss = Loss(tokens: set<Address>, holdings: set<Holding>)

  function LostBy(s: State, at: nat): Loss {
    Loss(set token | token in s.bindings && s.now <= s.bindings[token].liveUntil && s.bindings[token].liveUntil < at :: token,
         set h | h in s.flags && s.now <= s.flags[h] && s.flags[h] < at :: h)
  }

  function Forget(m: Mirror, loss: Loss): Mirror {
    m.(bound := m.bound - loss.tokens, frozen := m.frozen - loss.holdings)
  }

  function Losses(s: State, steps: seq<Step>): (losses: seq<Loss>)
    ensures |losses| == |steps|
  {
    if steps == [] then []
    else
      var n := |steps| - 1;
      Losses(s, steps[..n]) + [LostBy(Run(s, steps[..n]), steps[n].at)]
  }

  function MirrorRun(m: Mirror, steps: seq<Step>, losses: seq<Loss>): Mirror
    requires |losses| == |steps|
  {
    if steps == [] then m
    else
      var n := |steps| - 1;
      var before := Forget(MirrorRun(m, steps[..n], losses[..n]), losses[n]);
      MirrorApply(before, steps[n].call, steps[n].signers, steps[n].oracle).0
  }

  function Predictions(m: Mirror, steps: seq<Step>, losses: seq<Loss>): seq<Answer>
    requires |losses| == |steps|
  {
    if steps == [] then []
    else
      var n := |steps| - 1;
      var before := Forget(MirrorRun(m, steps[..n], losses[..n]), losses[n]);
      Predictions(m, steps[..n], losses[..n]) + [MirrorApply(before, steps[n].call, steps[n].signers, steps[n].oracle).1]
  }

  ghost predicate StableRun(steps: seq<Step>) {
    forall i :: 0 <= i < |steps| ==> Stable(steps[i].oracle)
  }

  lemma AdvanceForgets(s: State, at: nat)
    ensures Abs(Advance(s, at)) == Forget(Abs(s), LostBy(s, at))
  {
    assert Abs(Advance(s, at)).bound == Forget(Abs(s), LostBy(s, at)).bound;
  }

  /** Every run of the contract, from any state, is a run of the mirror: same
      answers, and the stored state always abstracts to the mirror. The only
      thing the mirror is told is which entries lapsed between calls. */
  lemma {:induction false} RunRefinesMirror(s: State, steps: seq<Step>)
    requires StableRun(steps)
    ensures Abs(Run(s, steps)) == MirrorRun(Abs(s), steps, Losses(s, steps))
    ensures Answers(s, steps) == Predictions(Abs(s), steps, Losses(s, steps))
  {
    if steps != [] {
      var n := |steps| - 1;
      RunRefinesMirror(s, steps[..n]);
      var before := Run(s, steps[..n]);
      assert Losses(s, steps)[..n] == Losses(s, steps[..n]);
      AdvanceForgets(before, steps[n].at);
      CallRefinesMirror(Advance(before, steps[n].at), steps[n].call, steps[n].signers, steps[n].oracle);
    }
  }

  /******* Runs in which nothing lapses *******/

  /** The mirror run of the property suite: no entry ever lapses. */
  function PlainRun(m: Mirror, steps: seq<Step>): Mirror {
    if steps == [] then m
    else
      var n := |steps| - 1;
      MirrorApply(PlainRun(m, steps[..n]), steps[n].call, steps[n].signers, steps[n].oracle).0
  }

  function PlainPredictions(m: Mirror, steps: seq<Step>): seq<Answer> {
    if steps == [] then []
    else
      var n := |steps| - 1;
      PlainPredictions(m, steps[..n]) + [MirrorApply(PlainRun(m, steps[..n]), steps[n].call, steps[n].signers, steps[n].oracle).1]
  }

  /** Every entry outlives ledger `horizon`. */
  predicate LivesThrough(s: State, horizon: nat) {
    && (forall token :: token in s.bindings ==> horizon <= s.bindings[token].liveUntil)
    && (forall h :: h in s.flags ==> horizon <= s.flags[h])
  }

  lemma BindingWritesKeepHorizon(s: State, token: Address, sac: Option<Address>, horizon: nat)
    requires LivesThrough(s, horizon) && horizon <= s.now + s.grant
    ensures LivesThrough(TouchBinding(s, token), horizon)
    ensures LivesThrough(ApplyBind(s, token, sac), horizon) && LivesThrough(ApplyUnbind(s, token), horizon)
  {
  }

  lemma FlagWritesKeepHorizon(s: State, token: Address, account: Address, horizon: nat)
    requires LivesThrough(s, horizon) && horizon <= s.now + s.grant
    ensures LivesThrough(TouchFlag(s, token, account), horizon)
    ensures LivesThrough(ApplyFreeze(s, token, account), horizon) && LivesThrough(ApplyUnfreeze(s, token, account), horizon)
  {
  }

  lemma CallKeepsHorizon(s: State, call: Call, signers: set<Address>, oracle: Oracle, horizon: nat)
    requires LivesThrough(s, horizon) && horizon <= s.now + s.grant
    ensures LivesThrough(Apply(s, call, signers, oracle).0, horizon)
  {
    match call
    case BindToken(token, sac) => BindingWritesKeepHorizon(s, token, sac, horizon);
    case UnbindToken(token) => BindingWritesKeepHorizon(s, token, None, horizon);
    case Freeze(token, account) => FlagWritesKeepHorizon(s, token, account, horizon);
    case Unfreeze(token, account) => FlagWritesKeepHorizon(s, token, account, horizon);
    case Enforce(token, _) => BindingWritesKeepHorizon(s, token, None, horizon);
    case ReadBound(token) => BindingWritesKeepHorizon(s, token, None, horizon);
    case ReadFrozen(token, account) => FlagWritesKeepHorizon(s, token, account, horizon);
    case _ =>
  }

  /** No entry written after the start lapses before the start plus the granted lifetime. */
  lemma {:induction false} FreshRunLives(now: nat, grant: nat, steps: seq<Step>)
    requires Ordered(now, steps)
    ensures LivesThrough(Run(Fresh(now, grant), steps), now + grant)
  {
    if steps != [] {
      var n := |steps| - 1;
      FreshRunLives(now, grant, steps[..n]);
      RunClock(Fresh(now, grant), steps[..n]);
      CallKeepsHorizon(Advance(Run(Fresh(now, grant), steps[..n]), steps[n].at), steps[n].call, steps[n].signers, steps[n].oracle, now + grant);
    }
  }

  /** No entry lapses between two calls of the run. */
  ghost predicate NothingLapses(s: State, steps: seq<Step>) {
    steps == [] ||
    var n := |steps| - 1;
    && NothingLapses(s, steps[..n])
    && LostBy(Run(s, steps[..n]), steps[n].at) == Loss({}, {})
  }

  lemma {:induction false} PrefixNeverLapses(s: State, steps: seq<Step>, i: nat)
    requires i <= |steps| && NothingLapses(s, steps)
    ensures NothingLapses(s, steps[..i])
  {
    if i == |steps| {
      assert steps[..i] == steps;
    } else {
      var n := |steps| - 1;
      PrefixNeverLapses(s, steps[..n], i);
      assert steps[..n][..i] == steps[..i];
    }
  }

  /** Time in which nothing lapses is not seen by the mirror. */
  lemma QuietTimeUnseen(s: State, at: nat)
    requires LostBy(s, at) == Loss({}, {})
    ensures Abs(Advance(s, at)) == Abs(s)
  {
    AdvanceForgets(s, at);
    assert Forget(Abs(s), Loss({}, {})) == Abs(s);
  }

  /** While nothing lapses, from any state, the contract is exactly the plain mirror of sets. */
  lemma {:induction false} LapseFreeRunIsPlainMirror(s: State, steps: seq<Step>)
    requires StableRun(steps) && NothingLapses(s, steps)
    ensures Abs(Run(s, steps)) == PlainRun(Abs(s), steps)
    ensures Answers(s, steps) == PlainPredictions(Abs(s), steps)
  {
    if steps != [] {
      var n := |steps| - 1;
      LapseFreeRunIsPlainMirror(s, steps[..n]);
      var before := Run(s, steps[..n]);
      QuietTimeUnseen(before, steps[n].at);
      CallRefinesMirror(Advance(before, steps[n].at), steps[n].call, steps[n].signers, steps[n].oracle);
    }
  }

  /** In a fresh deployment nothing lapses before the lifetime the network grants a new entry. */
  lemma {:induction false} FreshRunNeverLapses(now: nat, grant: nat, steps: seq<Step>)
    requires Ordered(now, steps)
    requires steps != [] ==> steps[|steps| - 1].at <= now + grant
    ensures NothingLapses(Fresh(now, grant), steps)
  {
    if steps != [] {
      var n := |steps| - 1;
      FreshRunNeverLapses(now, grant, steps[..n]);
      FreshRunLives(now, grant, steps[..n]);
      assert LostBy(Run(Fresh(now, grant), steps[..n]), steps[n].at) == Loss({}, {});
    }
  }

  /** From a fresh deployment, for at most the lifetime the network grants a
      new entry, the contract is exactly the plain mirror of sets. */
  lemma {:induction false} FreshRunIsPlainMirror(now: nat, grant: nat, steps: seq<Step>)
    requires StableRun(steps) && Ordered(now, steps)
    requires steps != [] ==> steps[|steps| - 1].at <= now + grant
    ensures Abs(Run(Fresh(now, grant), steps)) == PlainRun(Abs(Fresh(now, grant)), steps)
    ensures Answers(Fresh(now, grant), steps) == PlainPredictions(Abs(Fresh(now, grant)), steps)
  {
    FreshRunNeverLapses(now, grant, steps);
    LapseFreeRunIsPlainMirror(Fresh(now, grant), steps);
  }
}
