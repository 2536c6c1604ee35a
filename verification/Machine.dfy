/** The contract as a transition function over its ledger state, and runs of it. */
module Machine {
  import opened HookCore
  import opened Ledger
  import Evaluator

  /** A gated operation with the addresses its entry point names. */
  datatype Hook =
    | BeforeRegister(account: Address)
    | BeforeDeposit(from: Address, to: Address)
    | BeforeTransfer(from: Address, to: Address)
    | BeforeWithdraw(account: Address)
    | BeforeMerge(account: Address)
    | BeforeTransferFrom(spender: Address, from: Address, to: Address)

  function HookOperation(hook: Hook): Operation {
    match hook
    case BeforeRegister(_) => Register
    case BeforeDeposit(_, _) => Deposit
    case BeforeTransfer(_, _) => Transfer
    case BeforeWithdraw(_) => Withdraw
    case BeforeMerge(_) => Merge
    case BeforeTransferFrom(_, _, _) => TransferFrom
  }

  /** The addresses screened, one per role; a withdrawal names its account twice. */
  function HookParties(hook: Hook): (parties: seq<Address>)
    ensures |parties| == |Parties(HookOperation(hook))|
  {
    match hook
    case BeforeRegister(account) => [account]
    case BeforeDeposit(from, to) => [from, to]
    case BeforeTransfer(from, to) => [from, to]
    case BeforeWithdraw(account) => [account, account]
    case BeforeMerge(account) => [account]
    case BeforeTransferFrom(spender, from, to) => [spender, from, to]
  }

  /** The entry points of the contract. */
  datatype Call =
    | Initialize(admin: Address)
    | SetConfig(config: ComplianceConfig)
    | BindToken(token: Address, sac: Option<Address>)
    | UnbindToken(token: Address)
    | Freeze(token: Address, account: Address)
    | Unfreeze(token: Address, account: Address)
    | Enforce(token: Address, hook: Hook)
    | ReadAdmin
    | ReadInitialized
    | ReadStateVersion
    | ReadConfig
    | ReadConfigVersion
    | ReadBound(token: Address)
    | ReadFrozen(token: Address, account: Address)

  /** What a call answers. `Trap` is a host failure: a missing signature or a
      checked overflow. */
  datatype Answer =
    | Done
    | Flag(flag: bool)
    | Number(number: U32)
    | AdminIs(admin: Option<Address>)
    | ConfigIs(config: Option<ComplianceConfig>)
    | Err(error: ContractError)
    | Trap
  {
    /** The frame of the call is kept; otherwise it is discarded whole. */
    predicate Committed() {
      !Err? && !Trap?
    }
  }

  /** The admin gate: no admin recorded is an error, an admin who did not sign is a trap. */
  function AdminGate(s: State, signers: set<Address>): Answer {
    if s.admin.None? then Err(Rejection(InvalidConfiguration))
    else if s.admin.value !in signers then Trap
    else Done
  }

  /** The scope gate of freeze administration. */
  function ScopeGate(s: State, token: Address): Answer {
    if s.config.None? then Err(Rejection(InvalidConfiguration))
    else if !IsBound(s, token) then Err(Rejection(UnboundToken))
    else Done
  }

  function ApplyInitialize(s: State, admin: Address, signers: set<Address>): (State, Answer) {
    if s.admin.Some? then (s, Err(AlreadyInitialized))
    else if admin !in signers then (s, Trap)
    else (Emit(s.(admin := Some(admin), layout := Some(VERSION)), Initialized(admin)), Done)
  }

  function ApplySetConfig(s: State, config: ComplianceConfig): (State, Answer) {
    if s.config == Some(config) then (s, Done)
    else if s.version.GetOr(0) == U32_MAX then (s, Trap)
    else
      var stamped := if s.layout.None? then Some(VERSION) else s.layout;
      (Emit(s.(config := Some(config), layout := stamped, version := Some(s.version.GetOr(0) + 1)), ComplianceConfigChanged(config)), Done)
  }

  function ApplyBind(s: State, token: Address, sac: Option<Address>): State {
    var read := TouchBinding(s, token);
    if IsBound(s, token) && s.bindings[token].sac == sac then read
    else Emit(PutBinding(read, token, sac), TokenBound(token))
  }

  function ApplyUnbind(s: State, token: Address): State {
    if IsBound(s, token) then Emit(DropBinding(s, token), TokenUnbound(token)) else s
  }

  function ApplyFreeze(s: State, token: Address, account: Address): State {
    var read := TouchBinding(s, token);
    if IsFrozen(s, token, account) then TouchFlag(read, token, account)
    else Emit(PutFlag(read, token, account), Event.AccountFrozen(token, account))
  }

  function ApplyUnfreeze(s: State, token: Address, account: Address): State {
    var read := TouchBinding(s, token);
    if IsFrozen(s, token, account) then Emit(DropFlag(read, token, account), AccountUnfrozen(token, account))
    else read
  }

  /** One call in one ledger. A call that is not committed leaves the state as it was. */
  function Apply(s: State, call: Call, signers: set<Address>, oracle: Oracle): (State, Answer) {
    match call
    case Initialize(admin) => ApplyInitialize(s, admin, signers)
    case SetConfig(config) =>
      var gate := AdminGate(s, signers);
      if gate != Done then (s, gate) else ApplySetConfig(s, config)
    case BindToken(token, sac) =>
      var gate := AdminGate(s, signers);
      if gate != Done then (s, gate) else (ApplyBind(s, token, sac), Done)
    case UnbindToken(token) =>
      var gate := AdminGate(s, signers);
      if gate != Done then (s, gate) else (ApplyUnbind(s, token), Done)
    case Freeze(token, account) =>
      var gate := FreezeGates(s, token, signers);
      if gate != Done then (s, gate) else (ApplyFreeze(s, token, account), Done)
    case Unfreeze(token, account) =>
      var gate := FreezeGates(s, token, signers);
      if gate != Done then (s, gate) else (ApplyUnfreeze(s, token, account), Done)
    case Enforce(token, hook) => (
      match Evaluator.Evaluate(s, token, HookOperation(hook), HookParties(hook), oracle, []).0
      case Allow => (TouchBinding(s, token), Done)
      case Deny(reason) => (s, Err(Rejection(reason))))
    case ReadAdmin => (s, AdminIs(s.admin))
    case ReadInitialized => (s, Flag(s.admin.Some?))
    case ReadStateVersion => (s, Number(s.layout.GetOr(0)))
    case ReadConfig => (s, ConfigIs(s.config))
    case ReadConfigVersion => (s, Number(s.version.GetOr(0)))
    case ReadBound(token) => (TouchBinding(s, token), Flag(IsBound(s, token)))
    case ReadFrozen(token, account) => (TouchFlag(s, token, account), Flag(IsFrozen(s, token, account)))
  }

  function FreezeGates(s: State, token: Address, signers: set<Address>): Answer {
    var gate := AdminGate(s, signers);
    if gate != Done then gate else ScopeGate(s, token)
  }

  /******* External calls *******/

  /** The calls to other contracts an invocation makes. Only a hook on a
      configured contract and a bound token asks anything. Allowed, it has asked
      every question of its parties, in order; refused, it has asked those of the
      parties before the refused one and that party's own up to the gate that
      failed. */
  ghost predicate CallsMade(s: State, call: Call, oracle: Oracle, answer: Answer, calls: seq<Query>) {
    if !call.Enforce? || s.config.None? || !IsBound(s, call.token) then calls == []
    else
      var config, sac, roles, parties := s.config.value, SacOf(s, call.token), Parties(HookOperation(call.hook)), HookParties(call.hook);
      if answer == Done then
        && calls == Evaluator.Questions(config, sac, call.token, roles, parties)
        && Evaluator.CountPolicy(calls) == (if config.policy.Some? then |roles| else 0)
        && Evaluator.CountSac(calls) == (if config.sacPassthrough && sac.Some? then Evaluator.FundHolders(roles) else 0)
      else
        && answer.Err? && answer.error.Rejection?
        && exists p: nat :: Evaluator.RefusedAt(s, call.token, config, sac, roles, parties, oracle, answer.error.reason, calls, p)
  }

  lemma HookCallsMade(s: State, token: Address, hook: Hook, signers: set<Address>, oracle: Oracle)
    ensures
      var evaluated := Evaluator.Evaluate(s, token, HookOperation(hook), HookParties(hook), oracle, []);
      CallsMade(s, Enforce(token, hook), oracle, Apply(s, Enforce(token, hook), signers, oracle).1, evaluated.1)
  {
    var op, parties := HookOperation(hook), HookParties(hook);
    if s.config.Some? && IsBound(s, token) {
      var config, sac, roles := s.config.value, SacOf(s, token), Parties(op);
      if Evaluator.Evaluate(s, token, op, parties, oracle, []).0.Allow? {
        Evaluator.AllowedAsks(s, token, config, sac, roles, parties, oracle);
        Evaluator.ScheduleAsks(token, config, sac, roles, parties);
        Evaluator.ScheduleCounts(token, config, sac, roles, parties);
      } else {
        var p := Evaluator.RefusedAsks(s, token, config, sac, roles, parties, oracle);
      }
    }
  }

  /******* Runs *******/

  /** One call, the ledger it happens in, who signed it, and what the external
      contracts answer while it runs. */
  datatype Step = Step(at: nat, call: Call, signers: set<Address>, oracle: Oracle)

  function Exec(s: State, step: Step): (State, Answer) {
    Apply(Advance(s, step.at), step.call, step.signers, step.oracle)
  }

  function Run(s: State, steps: seq<Step>): State {
    if steps == [] then s
    else Exec(Run(s, steps[..|steps| - 1]), steps[|steps| - 1]).0
  }

  function Answers(s: State, steps: seq<Step>): (answers: seq<Answer>)
    ensures |answers| == |steps|
  {
    if steps == [] then []
    else
      var n := |steps| - 1;
      Answers(s, steps[..n]) + [Exec(Run(s, steps[..n]), steps[n]).1]
  }

  /** The ledger sequence only grows along a run. */
  predicate Ordered(now: nat, steps: seq<Step>) {
    && (steps != [] ==> now <= steps[0].at)
    && (forall i :: 0 <= i < |steps| - 1 ==> steps[i].at <= steps[i + 1].at)
  }

  /** Along an ordered run, the ledger of the state is that of the last step. */
  lemma {:induction false} RunClock(s: State, steps: seq<Step>)
    requires Ordered(s.now, steps)
    ensures Run(s, steps).now == if steps == [] then s.now else steps[|steps| - 1].at
    ensures Run(s, steps).grant == s.grant
    ensures s.now <= Run(s, steps).now
  {
    if steps != [] {
      var n := |steps| - 1;
      RunClock(s, steps[..n]);
      ApplyKeepsClock(Advance(Run(s, steps[..n]), steps[n].at), steps[n].call, steps[n].signers, steps[n].oracle);
    }
  }

  lemma ApplyKeepsClock(s: State, call: Call, signers: set<Address>, oracle: Oracle)
    ensures Apply(s, call, signers, oracle).0.now == s.now
    ensures Apply(s, call, signers, oracle).0.grant == s.grant
  {
  }

  /** A call that is not committed changes nothing, not even a lifetime. */
  lemma RejectedCallsChangeNothing(s: State, call: Call, signers: set<Address>, oracle: Oracle)
    ensures !Apply(s, call, signers, oracle).1.Committed() ==> Apply(s, call, signers, oracle).0 == s
  {
  }
}
