/** The operator's two protocols on top of the contract: judging a deployment
    from its read surface, and bringing one up. */
module Operator {
  import opened HookCore
  import opened Ledger
  import opened Machine
  import opened RevertText
  import Audit
  import Contract
  import Evaluator
  import Mirror

  datatype TokenEntry = TokenEntry(alias: string, contractId: Address, sac: Option<Address>)

  /** The deployment record. */
  datatype Config = Config(
    hooksContractId: Address,
    policy: Option<Address>,
    sacPassthrough: bool,
    adminKey: Address,
    tokens: seq<TokenEntry>)

  /** What a simulated call comes back with: a value, a decoded contract revert,
      or a failure to run at all. */
  datatype Reply = Value(answer: Answer) | Reverted(revert: ContractRevert) | Unreachable

  type Runner = Call -> Reply

  datatype Status = Pass | Fail | Skip

  /** The claims a report makes, one per check. */
  datatype Claim =
    | ContractReachable
    | IsInitialized
    | AdminMatches
    | ConfigurationPresent
    | PolicyMatches
    | HasConfigVersion
    | HasStateVersion
    | TokenBindings
    | TokenIsBound(alias: string)
    | FailClosedProbe
    | GateSample
    | GateSampleOn(alias: string)

  datatype Check = Check(claim: Claim, status: Status)

  /******* The report, check by check *******/

  function PassIf(claim: Claim, ok: bool): Check {
    Check(claim, if ok then Pass else Fail)
  }

  /** The policy a `config` reply names; a reply that is no configuration names none. */
  function LivePolicy(answer: Answer): Option<Address> {
    if answer.ConfigIs? && answer.config.Some? then answer.config.value.policy else None
  }

  /** The contract says it has a configuration. */
  predicate Configured(reply: Reply) {
    reply.Value? && reply.answer != ConfigIs(None)
  }

  function ConfigChecks(reply: Reply, config: Config): seq<Check> {
    if !Configured(reply) then [Check(ConfigurationPresent, Fail)]
    else
      var live := LivePolicy(reply.answer);
      [Check(ConfigurationPresent, Pass)]
      + (if live.Some? && config.policy.Some? then [PassIf(PolicyMatches, live == config.policy)] else [])
  }

  predicate AtLeastOne(reply: Reply) {
    reply.Value? && reply.answer.Number? && reply.answer.number >= 1
  }

  function TokenChecks(runner: Runner, tokens: seq<TokenEntry>): seq<Check> {
    if tokens == [] then []
    else
      var last := tokens[|tokens| - 1];
      TokenChecks(runner, tokens[..|tokens| - 1])
      + [PassIf(TokenIsBound(last.alias), runner(ReadBound(last.contractId)) == Value(Flag(true)))]
  }

  /** The admin address is asked about as a token, then probed with a transfer. */
  predicate ProbePasses(runner: Runner, probe: Address) {
    && runner(ReadBound(probe)).Value? && runner(ReadBound(probe)).answer != Flag(true)
    && runner(Enforce(probe, BeforeTransfer(probe, probe))) == Reverted(Rejected(UnboundToken))
  }

  /** A sampled gate is healthy when it reaches a decision. */
  predicate Decides(reply: Reply) {
    reply.Value? || (reply.Reverted? && reply.revert.Rejected? && reply.revert.reason !in {InvalidConfiguration, PolicyUnavailable})
  }

  function SampleChecks(runner: Runner, tokens: seq<TokenEntry>, account: Address): seq<Check> {
    if tokens == [] then []
    else
      var last := tokens[|tokens| - 1];
      SampleChecks(runner, tokens[..|tokens| - 1], account)
      + [PassIf(GateSampleOn(last.alias), Decides(runner(Enforce(last.contractId, BeforeTransfer(account, account)))))]
  }

  /** The claims about the lifecycle. */
  function LifecycleChecks(runner: Runner, config: Config): seq<Check> {
    [Check(ContractReachable, Pass),
     PassIf(IsInitialized, runner(ReadInitialized) == Value(Flag(true))),
     PassIf(AdminMatches, runner(ReadAdmin) == Value(AdminIs(Some(config.adminKey))))]
    + ConfigChecks(runner(ReadConfig), config)
    + [PassIf(HasConfigVersion, AtLeastOne(runner(ReadConfigVersion))),
       PassIf(HasStateVersion, AtLeastOne(runner(ReadStateVersion)))]
  }

  function Report(runner: Runner, config: Config, account: Option<Address>): seq<Check> {
    if !runner(ReadInitialized).Value? then [Check(ContractReachable, Fail)]
    else
      LifecycleChecks(runner, config)
      + (if config.tokens == [] then [Check(TokenBindings, Skip)] else TokenChecks(runner, config.tokens))
      + [PassIf(FailClosedProbe, ProbePasses(runner, config.adminKey))]
      + (if account.None? || !Configured(runner(ReadConfig)) then [Check(GateSample, Skip)]
         else SampleChecks(runner, config.tokens, account.value))
  }

  predicate NoFailure(checks: seq<Check>) {
    forall i :: 0 <= i < |checks| ==> checks[i].status != Fail
  }

  /******* Which claims a report makes, and how each is judged *******/

  /** The status of a check that can pass or fail. */
  predicate Judged(status: Status, ok: bool) {
    status == if ok then Pass else Fail
  }

  /** A configuration was answered and both it and the record name a policy. */
  predicate BothNamePolicy(reply: Reply, config: Config) {
    reply.Value? && reply.answer.ConfigIs? && reply.answer.config.Some? && reply.answer.config.value.policy.Some? && config.policy.Some?
  }

  /** The lifecycle checks of a contract that answers, claim by claim. */
  ghost predicate LifecycleWarrants(runner: Runner, config: Config, check: Check) {
    match check.claim
    case ContractReachable => check.status == Pass
    case IsInitialized => Judged(check.status, runner(ReadInitialized) == Value(Flag(true)))
    case AdminMatches => Judged(check.status, runner(ReadAdmin) == Value(AdminIs(Some(config.adminKey))))
    case ConfigurationPresent => Judged(check.status, runner(ReadConfig).Value? && runner(ReadConfig) != Value(ConfigIs(None)))
    case PolicyMatches =>
      BothNamePolicy(runner(ReadConfig), config) && Judged(check.status, runner(ReadConfig).answer.config.value.policy == config.policy)
    case HasConfigVersion => Judged(check.status, exists n: U32 :: n >= 1 && runner(ReadConfigVersion) == Value(Number(n)))
    case HasStateVersion => Judged(check.status, exists n: U32 :: n >= 1 && runner(ReadStateVersion) == Value(Number(n)))
    case _ => false
  }

  /** The sample of a token's gate: allowed, or refused for a reason that is a decision. */
  predicate SampleDecided(reply: Reply) {
    || reply.Value?
    || reply in {Reverted(Rejected(UnboundToken)), Reverted(Rejected(PolicyDenied)), Reverted(Rejected(RejectionReason.AccountFrozen)),
                 Reverted(Rejected(SpenderNotAuthorized)), Reverted(Rejected(SacAuthorizationFailed))}
  }

  /** The checks a report contains, claim by claim, for any runner. */
  ghost predicate Warrants(runner: Runner, config: Config, account: Option<Address>, check: Check) {
    var configured := runner(ReadConfig).Value? && runner(ReadConfig) != Value(ConfigIs(None));
    if !runner(ReadInitialized).Value? then check == Check(ContractReachable, Fail)
    else
      match check.claim
      case TokenBindings => check.status == Skip && config.tokens == []
      case TokenIsBound(alias) =>
        exists i :: 0 <= i < |config.tokens| && config.tokens[i].alias == alias
          && Judged(check.status, runner(ReadBound(config.tokens[i].contractId)) == Value(Flag(true)))
      case FailClosedProbe =>
        Judged(check.status,
               runner(ReadBound(config.adminKey)).Value? && runner(ReadBound(config.adminKey)) != Value(Flag(true))
               && runner(Enforce(config.adminKey, BeforeTransfer(config.adminKey, config.adminKey))) == Reverted(Rejected(UnboundToken)))
      case GateSample => check.status == Skip && (account.None? || !configured)
      case GateSampleOn(alias) =>
        account.Some? && configured
        && exists i :: 0 <= i < |config.tokens| && config.tokens[i].alias == alias
             && Judged(check.status, SampleDecided(runner(Enforce(config.tokens[i].contractId, BeforeTransfer(account.value, account.value)))))
      case _ => LifecycleWarrants(runner, config, check)
  }

  lemma LifecycleReported(runner: Runner, config: Config, check: Check)
    requires runner(ReadInitialized).Value?
    ensures check in LifecycleChecks(runner, config) <==> LifecycleWarrants(runner, config, check)
  {
    var config' := ConfigChecks(runner(ReadConfig), config);
    assert check in config' <==>
      (check.claim == ConfigurationPresent || check.claim == PolicyMatches) && LifecycleWarrants(runner, config, check);
    VersionReported(runner(ReadConfigVersion));
    VersionReported(runner(ReadStateVersion));
  }

  lemma VersionReported(reply: Reply)
    ensures AtLeastOne(reply) <==> exists n: U32 :: n >= 1 && reply == Value(Number(n))
  {
    if AtLeastOne(reply) {
      assert reply == Value(Number(reply.answer.number));
    }
  }

  /** The check of token `i` stands at place `i`, with its alias and its own verdict. */
  lemma {:induction false} TokenCheckAt(runner: Runner, tokens: seq<TokenEntry>, i: nat)
    requires i < |tokens|
    ensures |TokenChecks(runner, tokens)| == |tokens|
    ensures TokenChecks(runner, tokens)[i].claim == TokenIsBound(tokens[i].alias)
    ensures Judged(TokenChecks(runner, tokens)[i].status, runner(ReadBound(tokens[i].contractId)) == Value(Flag(true)))
  {
    if |tokens| > 1 {
      TokenCheckAt(runner, tokens[..|tokens| - 1], if i < |tokens| - 1 then i else 0);
    }
  }

  lemma DecidesIsDecided(reply: Reply)
    ensures Decides(reply) <==> SampleDecided(reply)
  {
    if reply.Reverted? && reply.revert.Rejected? {
      match reply.revert.reason
      case UnboundToken =>
      case PolicyDenied =>
      case AccountFrozen =>
      case SpenderNotAuthorized =>
      case SacAuthorizationFailed =>
      case InvalidConfiguration =>
      case PolicyUnavailable =>
    }
  }

  lemma {:induction false} SampleCheckAt(runner: Runner, tokens: seq<TokenEntry>, account: Address, i: nat)
    requires i < |tokens|
    ensures |SampleChecks(runner, tokens, account)| == |tokens|
    ensures SampleChecks(runner, tokens, account)[i].claim == GateSampleOn(tokens[i].alias)
    ensures Judged(SampleChecks(runner, tokens, account)[i].status, SampleDecided(runner(Enforce(tokens[i].contractId, BeforeTransfer(account, account)))))
  {
    var last := tokens[|tokens| - 1];
    DecidesIsDecided(runner(Enforce(last.contractId, BeforeTransfer(account, account))));
    if |tokens| > 1 {
      SampleCheckAt(runner, tokens[..|tokens| - 1], account, if i < |tokens| - 1 then i else 0);
    }
  }

  lemma TokensReported(runner: Runner, tokens: seq<TokenEntry>, check: Check)
    ensures check in TokenChecks(runner, tokens) <==>
      exists i :: 0 <= i < |tokens| && check.claim == TokenIsBound(tokens[i].alias)
        && Judged(check.status, runner(ReadBound(tokens[i].contractId)) == Value(Flag(true)))
  {
    var checks := TokenChecks(runner, tokens);
    if tokens != [] {
      TokenCheckAt(runner, tokens, 0);
    }
    forall i: nat | i < |tokens|
      ensures checks[i] == check <==>
        check.claim == TokenIsBound(tokens[i].alias) && Judged(check.status, runner(ReadBound(tokens[i].contractId)) == Value(Flag(true)))
    {
      TokenCheckAt(runner, tokens, i);
    }
  }

  lemma SamplesReported(runner: Runner, tokens: seq<TokenEntry>, account: Address, check: Check)
    ensures check in SampleChecks(runner, tokens, account) <==>
      exists i :: 0 <= i < |tokens| && check.claim == GateSampleOn(tokens[i].alias)
        && Judged(check.status, SampleDecided(runner(Enforce(tokens[i].contractId, BeforeTransfer(account, account)))))
  {
    var checks := SampleChecks(runner, tokens, account);
    if tokens != [] {
      SampleCheckAt(runner, tokens, account, 0);
    }
    forall i: nat | i < |tokens|
      ensures checks[i] == check <==>
        check.claim == GateSampleOn(tokens[i].alias)
        && Judged(check.status, SampleDecided(runner(Enforce(tokens[i].contractId, BeforeTransfer(account, account)))))
    {
      SampleCheckAt(runner, tokens, account, i);
    }
  }

  /** A report is made of its four sections. */
  lemma ReportSections(runner: Runner, config: Config, account: Option<Address>, check: Check)
    requires runner(ReadInitialized).Value?
    ensures
      var sampled := account.Some? && Configured(runner(ReadConfig));
      check in Report(runner, config, account) <==>
        || check in LifecycleChecks(runner, config)
        || (if config.tokens == [] then check == Check(TokenBindings, Skip) else check in TokenChecks(runner, config.tokens))
        || check == PassIf(FailClosedProbe, ProbePasses(runner, config.adminKey))
        || (if sampled then check in SampleChecks(runner, config.tokens, account.value) else check == Check(GateSample, Skip))
  {
  }

  lemma NoSampleElsewhere(runner: Runner, config: Config, account: Option<Address>, check: Check)
    requires !check.claim.GateSampleOn?
    ensures account.Some? ==> check !in SampleChecks(runner, config.tokens, account.value)
  {
    if account.Some? {
      SamplesReported(runner, config.tokens, account.value, check);
    }
  }

  /** Over any runner, a check is in the report if and only if it is warranted:
      each claim is judged by its own reply, and no claim is made twice with
      different verdicts unless two tokens share an alias. */
  lemma {:induction false} ReportedExactly(runner: Runner, config: Config, account: Option<Address>, check: Check)
    ensures check in Report(runner, config, account) <==> Warrants(runner, config, account, check)
  {
    if runner(ReadInitialized).Value? {
      ReportSections(runner, config, account, check);
      LifecycleReported(runner, config, check);
      TokensReported(runner, config.tokens, check);
      match check.claim
      case TokenIsBound(_) => NoSampleElsewhere(runner, config, account, check);
      case GateSampleOn(_) =>
        if account.Some? {
          SamplesReported(runner, config.tokens, account.value, check);
        }
      case _ => NoSampleElsewhere(runner, config, account, check);
    }
  }

  /** The order of a report: the lifecycle claims, one check per token in the
      order of the record, the probe, and one sample per token in that order. */
  lemma {:induction false} ReportInOrder(runner: Runner, config: Config, account: Option<Address>, i: nat)
    requires runner(ReadInitialized).Value? && i < |config.tokens|
    ensures
      var report, first := Report(runner, config, account), if BothNamePolicy(runner(ReadConfig), config) then 7 else 6;
      && first + |config.tokens| < |report|
      && report[first + i].claim == TokenIsBound(config.tokens[i].alias)
      && Judged(report[first + i].status, runner(ReadBound(config.tokens[i].contractId)) == Value(Flag(true)))
      && report[first + |config.tokens|].claim == FailClosedProbe
      && (account.Some? && runner(ReadConfig).Value? && runner(ReadConfig) != Value(ConfigIs(None)) ==>
            && |report| == first + 2 * |config.tokens| + 1
            && report[first + |config.tokens| + 1 + i].claim == GateSampleOn(config.tokens[i].alias)
            && Judged(report[first + |config.tokens| + 1 + i].status,
                      SampleDecided(runner(Enforce(config.tokens[i].contractId, BeforeTransfer(account.value, account.value))))))
  {
    TokenCheckAt(runner, config.tokens, i);
    if account.Some? {
      SampleCheckAt(runner, config.tokens, account.value, i);
    }
    assert |LifecycleChecks(runner, config)| == if BothNamePolicy(runner(ReadConfig), config) then 7 else 6;
  }

  /** Reads a deployment and appends one check per claim. */
  method Verify(runner: Runner, config: Config, account: Option<Address>) returns (checks: seq<Check>)
    ensures checks == Report(runner, config, account)
    ensures forall check :: check in checks <==> Warrants(runner, config, account, check)
  {
    forall check {
      ReportedExactly(runner, config, account, check);
    }
    var initialized := runner(ReadInitialized);
    if !initialized.Value? {
      return [Check(ContractReachable, Fail)];
    }
    var configured;
    checks, configured := VerifyLifecycle(runner, config);
    if config.tokens == [] {
      checks := checks + [Check(TokenBindings, Skip)];
    }
    ghost var before := checks;
    var i := 0;
    while i < |config.tokens|
      invariant 0 <= i <= |config.tokens|
      invariant checks == before + TokenChecks(runner, config.tokens[..i])
    {
      var token := config.tokens[i];
      assert config.tokens[..i + 1][..i] == config.tokens[..i];
      checks := checks + [PassIf(TokenIsBound(token.alias), runner(ReadBound(token.contractId)) == Value(Flag(true)))];
      i := i + 1;
    }
    assert config.tokens[..i] == config.tokens;
    var probed := VerifyProbe(runner, config.adminKey);
    checks := checks + [probed];
    if account.None? || !configured {
      checks := checks + [Check(GateSample, Skip)];
      return;
    }
    var samples := VerifySamples(runner, config.tokens, account.value);
    checks := checks + samples;
  }

  method VerifyLifecycle(runner: Runner, config: Config) returns (checks: seq<Check>, configured: bool)
    requires runner(ReadInitialized).Value?
    ensures checks == LifecycleChecks(runner, config) && configured == Configured(runner(ReadConfig))
    ensures forall check :: check in checks <==> LifecycleWarrants(runner, config, check)
  {
    forall check {
      LifecycleReported(runner, config, check);
    }
    checks := [Check(ContractReachable, Pass)];
    if runner(ReadInitialized).answer == Flag(true) {
      checks := checks + [Check(IsInitialized, Pass)];
    } else {
      checks := checks + [Check(IsInitialized, Fail)];
    }
    checks := checks + [PassIf(AdminMatches, runner(ReadAdmin) == Value(AdminIs(Some(config.adminKey))))];
    configured := false;
    var raw := runner(ReadConfig);
    if !raw.Value? || raw.answer == ConfigIs(None) {
      checks := checks + [Check(ConfigurationPresent, Fail)];
    } else {
      configured := true;
      var policy := LivePolicy(raw.answer);
      checks := checks + [Check(ConfigurationPresent, Pass)];
      if policy.Some? && config.policy.Some? {
        checks := checks + [PassIf(PolicyMatches, policy.value == config.policy.value)];
      }
    }
    checks := checks + [PassIf(HasConfigVersion, AtLeastOne(runner(ReadConfigVersion)))];
    checks := checks + [PassIf(HasStateVersion, AtLeastOne(runner(ReadStateVersion)))];
  }

  /** First the binding of the probe address is read, then an operation on it must be refused. */
  method VerifyProbe(runner: Runner, probe: Address) returns (check: Check)
    ensures check == PassIf(FailClosedProbe, ProbePasses(runner, probe))
  {
    var bound := runner(ReadBound(probe));
    if !bound.Value? || bound.answer == Flag(true) {
      return Check(FailClosedProbe, Fail);
    }
    var refused := runner(Enforce(probe, BeforeTransfer(probe, probe)));
    check := PassIf(FailClosedProbe, refused == Reverted(Rejected(UnboundToken)));
  }

  method VerifySamples(runner: Runner, tokens: seq<TokenEntry>, account: Address) returns (checks: seq<Check>)
    ensures checks == SampleChecks(runner, tokens, account)
  {
    checks := [];
    var i := 0;
    while i < |tokens|
      invariant 0 <= i <= |tokens|
      invariant checks == SampleChecks(runner, tokens[..i], account)
    {
      var token := tokens[i];
      assert tokens[..i + 1][..i] == tokens[..i];
      var sampled := runner(Enforce(token.contractId, BeforeTransfer(account, account)));
      checks := checks + [PassIf(GateSampleOn(token.alias), Decides(sampled))];
      i := i + 1;
    }
    assert tokens[..i] == tokens;
  }

  /******* What a report without failures means *******/

  lemma NoFailureConcat(a: seq<Check>, b: seq<Check>)
    ensures NoFailure(a + b) <==> NoFailure(a) && NoFailure(b)
  {
    assert forall i :: 0 <= i < |a| ==> (a + b)[i] == a[i];
    assert forall i :: 0 <= i < |b| ==> (a + b)[|a| + i] == b[i];
  }

  lemma {:induction false} TokenChecksPass(runner: Runner, tokens: seq<TokenEntry>)
    ensures NoFailure(TokenChecks(runner, tokens)) <==>
      forall i :: 0 <= i < |tokens| ==> runner(ReadBound(tokens[i].contractId)) == Value(Flag(true))
  {
    if tokens != [] {
      var n := |tokens| - 1;
      TokenChecksPass(runner, tokens[..n]);
      var last := [PassIf(TokenIsBound(tokens[n].alias), runner(ReadBound(tokens[n].contractId)) == Value(Flag(true)))];
      NoFailureConcat(TokenChecks(runner, tokens[..n]), last);
      assert NoFailure(last) <==> last[0].status != Fail;
    }
  }

  lemma {:induction false} SampleChecksPass(runner: Runner, tokens: seq<TokenEntry>, account: Address)
    ensures NoFailure(SampleChecks(runner, tokens, account)) <==>
      forall i :: 0 <= i < |tokens| ==> Decides(runner(Enforce(tokens[i].contractId, BeforeTransfer(account, account))))
  {
    if tokens != [] {
      var n := |tokens| - 1;
      SampleChecksPass(runner, tokens[..n], account);
      var last := [PassIf(GateSampleOn(tokens[n].alias), Decides(runner(Enforce(tokens[n].contractId, BeforeTransfer(account, account)))))];
      NoFailureConcat(SampleChecks(runner, tokens[..n], account), last);
      assert NoFailure(last) <==> last[0].status != Fail;
    }
  }

  /** A healthy deployment, as far as a runner lets it be seen. */
  ghost predicate Healthy(runner: Runner, config: Config, account: Option<Address>) {
    && runner(ReadInitialized) == Value(Flag(true))
    && runner(ReadAdmin) == Value(AdminIs(Some(config.adminKey)))
    && Configured(runner(ReadConfig))
    && (LivePolicy(runner(ReadConfig).answer).Some? && config.policy.Some? ==> LivePolicy(runner(ReadConfig).answer) == config.policy)
    && AtLeastOne(runner(ReadConfigVersion)) && AtLeastOne(runner(ReadStateVersion))
    && (forall i :: 0 <= i < |config.tokens| ==> runner(ReadBound(config.tokens[i].contractId)) == Value(Flag(true)))
    && ProbePasses(runner, config.adminKey)
    && (account.Some? ==> forall i :: 0 <= i < |config.tokens| ==>
          Decides(runner(Enforce(config.tokens[i].contractId, BeforeTransfer(account.value, account.value)))))
  }

  lemma LifecycleChecksPass(runner: Runner, config: Config)
    ensures NoFailure(LifecycleChecks(runner, config)) <==>
      && runner(ReadInitialized) == Value(Flag(true))
      && runner(ReadAdmin) == Value(AdminIs(Some(config.adminKey)))
      && Configured(runner(ReadConfig))
      && (LivePolicy(runner(ReadConfig).answer).Some? && config.policy.Some? ==> LivePolicy(runner(ReadConfig).answer) == config.policy)
      && AtLeastOne(runner(ReadConfigVersion)) && AtLeastOne(runner(ReadStateVersion))
  {
    var opening :=
      [Check(ContractReachable, Pass),
       PassIf(IsInitialized, runner(ReadInitialized) == Value(Flag(true))),
       PassIf(AdminMatches, runner(ReadAdmin) == Value(AdminIs(Some(config.adminKey))))];
    var middle := ConfigChecks(runner(ReadConfig), config);
    var closing :=
      [PassIf(HasConfigVersion, AtLeastOne(runner(ReadConfigVersion))),
       PassIf(HasStateVersion, AtLeastOne(runner(ReadStateVersion)))];
    NoFailureConcat(opening + middle, closing);
    NoFailureConcat(opening, middle);
    assert opening[1].claim == IsInitialized && opening[2].claim == AdminMatches;
    assert closing[0].claim == HasConfigVersion && closing[1].claim == HasStateVersion;
    assert middle[0].claim == ConfigurationPresent;
    if Configured(runner(ReadConfig)) && LivePolicy(runner(ReadConfig).answer).Some? && config.policy.Some? {
      assert middle[1].claim == PolicyMatches;
    }
  }

  /** Over any runner at all, a report has no failed check exactly when the deployment is healthy. */
  lemma NoFailureMeansHealthy(runner: Runner, config: Config, account: Option<Address>)
    ensures NoFailure(Report(runner, config, account)) <==> Healthy(runner, config, account)
  {
    if !runner(ReadInitialized).Value? {
      assert Report(runner, config, account)[0].status == Fail;
    } else {
      var lifecycle := LifecycleChecks(runner, config);
      var bindings := if config.tokens == [] then [Check(TokenBindings, Skip)] else TokenChecks(runner, config.tokens);
      var probe := [PassIf(FailClosedProbe, ProbePasses(runner, config.adminKey))];
      var samples := if account.None? || !Configured(runner(ReadConfig)) then [Check(GateSample, Skip)]
                     else SampleChecks(runner, config.tokens, account.value);
      NoFailureConcat(lifecycle + bindings + probe, samples);
      NoFailureConcat(lifecycle + bindings, probe);
      NoFailureConcat(lifecycle, bindings);
      LifecycleChecksPass(runner, config);
      TokenChecksPass(runner, config.tokens);
      if account.Some? {
        SampleChecksPass(runner, config.tokens, account.value);
      }
      assert NoFailure(probe) <==> probe[0].status != Fail;
    }
  }

  /******* Judging the contract itself *******/

  /** A simulated call: it is answered in the current ledger, signed by nobody, and not kept. */
  function ContractRunner(s: State, oracle: Oracle): Runner {
    (call: Call) =>
      var answer := Apply(s, call, {}, oracle).1;
      match answer
      case Err(error) => Reverted(RevertOf(error))
      case Trap => Unreachable
      case _ => Value(answer)
  }

  /** What `verify` checks, said about the contract's state. */
  ghost predicate Deployed(s: State, config: Config) {
    && s.admin == Some(config.adminKey)
    && s.config.Some?
    && (s.config.value.policy.Some? && config.policy.Some? ==> s.config.value.policy == config.policy)
    && (forall i :: 0 <= i < |config.tokens| ==> IsBound(s, config.tokens[i].contractId))
    && !IsBound(s, config.adminKey)
  }

  /** A transfer of the account to itself on every listed token reaches a decision. */
  ghost predicate SamplesDecide(s: State, config: Config, account: Address, oracle: Oracle) {
    forall i :: 0 <= i < |config.tokens| ==>
      TransferDecision(s, config.tokens[i].contractId, account, oracle) !in {Deny(InvalidConfiguration), Deny(PolicyUnavailable)}
  }

  /** A transfer of an account to itself. */
  function TransferDecision(s: State, token: Address, account: Address, oracle: Oracle): Decision {
    Evaluator.Evaluate(s, token, Transfer, [account, account], oracle, []).0
  }

  /** The runner reports what the contract stores and decides. */
  ghost predicate Speaks(runner: Runner, s: State, oracle: Oracle) {
    && runner(ReadInitialized) == Value(Flag(s.admin.Some?))
    && runner(ReadAdmin) == Value(AdminIs(s.admin))
    && runner(ReadConfig) == Value(ConfigIs(s.config))
    && runner(ReadConfigVersion) == Value(Number(s.version.GetOr(0)))
    && runner(ReadStateVersion) == Value(Number(s.layout.GetOr(0)))
    && (forall token :: runner(ReadBound(token)) == Value(Flag(IsBound(s, token))))
    && (forall token, account :: runner(Enforce(token, BeforeTransfer(account, account))) ==
          var decision := TransferDecision(s, token, account, oracle);
          if decision.Allow? then Value(Done) else Reverted(Rejected(decision.reason)))
  }

  lemma ContractSpeaks(s: State, oracle: Oracle)
    ensures Speaks(ContractRunner(s, oracle), s, oracle)
  {
    var runner := ContractRunner(s, oracle);
    forall token, account
      ensures runner(Enforce(token, BeforeTransfer(account, account))) ==
        var decision := TransferDecision(s, token, account, oracle);
        if decision.Allow? then Value(Done) else Reverted(Rejected(decision.reason))
    {
      TransferSpoken(s, oracle, token, account);
    }
  }

  lemma TransferSpoken(s: State, oracle: Oracle, token: Address, account: Address)
    ensures ContractRunner(s, oracle)(Enforce(token, BeforeTransfer(account, account))) ==
      var decision := TransferDecision(s, token, account, oracle);
      if decision.Allow? then Value(Done) else Reverted(Rejected(decision.reason))
  {
    var decision := TransferDecision(s, token, account, oracle);
    assert Apply(s, Enforce(token, BeforeTransfer(account, account)), {}, oracle).1 ==
      if decision.Allow? then Done else Err(Rejection(decision.reason));
  }

  /** The probe is refused as an unbound token exactly when the contract is configured and the probe is not bound. */
  lemma ProbeMeaning(runner: Runner, s: State, oracle: Oracle, probe: Address)
    requires Speaks(runner, s, oracle)
    ensures ProbePasses(runner, probe) <==> s.config.Some? && !IsBound(s, probe)
  {
    assert runner(ReadBound(probe)) == Value(Flag(IsBound(s, probe)));
    var decision := TransferDecision(s, probe, probe, oracle);
    assert runner(Enforce(probe, BeforeTransfer(probe, probe))) ==
      if decision.Allow? then Value(Done) else Reverted(Rejected(decision.reason));
  }

  lemma SampleMeaning(runner: Runner, s: State, config: Config, oracle: Oracle, account: Address)
    requires Speaks(runner, s, oracle)
    ensures SamplesDecide(s, config, account, oracle) <==>
      forall i :: 0 <= i < |config.tokens| ==> Decides(runner(Enforce(config.tokens[i].contractId, BeforeTransfer(account, account))))
  {
    forall i | 0 <= i < |config.tokens|
      ensures Decides(runner(Enforce(config.tokens[i].contractId, BeforeTransfer(account, account)))) <==>
        TransferDecision(s, config.tokens[i].contractId, account, oracle) !in {Deny(InvalidConfiguration), Deny(PolicyUnavailable)}
    {
      var decision := TransferDecision(s, config.tokens[i].contractId, account, oracle);
      assert runner(Enforce(config.tokens[i].contractId, BeforeTransfer(account, account))) ==
        if decision.Allow? then Value(Done) else Reverted(Rejected(decision.reason));
    }
  }

  lemma HealthyMeansDeployed(runner: Runner, s: State, config: Config, account: Option<Address>, oracle: Oracle)
    requires Speaks(runner, s, oracle)
    ensures Healthy(runner, config, account) <==>
      Deployed(s, config) && s.version.GetOr(0) >= 1 && s.layout.GetOr(0) >= 1
      && (account.Some? ==> SamplesDecide(s, config, account.value, oracle))
  {
    ProbeMeaning(runner, s, oracle, config.adminKey);
    if account.Some? {
      SampleMeaning(runner, s, config, oracle, account.value);
    }
    assert forall i :: 0 <= i < |config.tokens| ==>
      runner(ReadBound(config.tokens[i].contractId)) == Value(Flag(IsBound(s, config.tokens[i].contractId)));
  }

  /** On every state of the contract, `verify` reports no failure if and only
      if the deployment is as recorded, its configuration is versioned, its
      layout is stamped and every sampled gate decides. */
  lemma VerifyMeaning(s: State, config: Config, account: Option<Address>, oracle: Oracle)
    ensures NoFailure(Report(ContractRunner(s, oracle), config, account)) <==>
      Deployed(s, config) && s.version.GetOr(0) >= 1 && s.layout.GetOr(0) >= 1
      && (account.Some? ==> SamplesDecide(s, config, account.value, oracle))
  {
    ContractSpeaks(s, oracle);
    NoFailureMeansHealthy(ContractRunner(s, oracle), config, account);
    HealthyMeansDeployed(ContractRunner(s, oracle), s, config, account, oracle);
  }

  /** In every state a deployment reaches, versions and stamps take care of themselves. */
  lemma {:induction false} VerifyMeaningReachable(now: nat, grant: nat, steps: seq<Step>, at: nat, config: Config, account: Option<Address>, oracle: Oracle)
    ensures
      var s := Advance(Run(Fresh(now, grant), steps), at);
      NoFailure(Report(ContractRunner(s, oracle), config, account)) <==>
      Deployed(s, config) && (account.Some? ==> SamplesDecide(s, config, account.value, oracle))
  {
    Audit.VersionCountsConfigEvents(now, grant, steps);
    Audit.StampedAtInitialization(now, grant, steps);
    VerifyMeaning(Advance(Run(Fresh(now, grant), steps), at), config, account, oracle);
  }

  /******* Replies as text *******/

  /** What one command of the operator's tool leaves behind. */
  datatype RunOutcome = RunOutcome(ok: bool, stdout: string, stderr: string)

  /** Success is a value; a failure is the decoded revert of both streams, or no answer at all. */
  function Interpreted(outcome: RunOutcome, answer: Answer): Reply {
    if outcome.ok then Value(answer)
    else
      var revert := Decoded(outcome.stdout + "\n" + outcome.stderr);
      if revert.Some? then Reverted(revert.value) else Unreachable
  }

  /** A successful run is its value, a failed one is a revert if and only if its
      streams hold a decodable error, and otherwise no answer at all. */
  lemma InterpretedByStreams(outcome: RunOutcome, answer: Answer)
    ensures Interpreted(outcome, answer) == Value(answer) <==> outcome.ok
    ensures forall revert :: Interpreted(outcome, answer) == Reverted(revert) <==>
      !outcome.ok && (Decoded(outcome.stdout) == Some(revert)
                      || (FirstDigits(Lines(outcome.stdout)).None? && Decoded(outcome.stderr) == Some(revert)))
    ensures Interpreted(outcome, answer) == Unreachable <==>
      !outcome.ok && Decoded(outcome.stdout).None?
      && (FirstDigits(Lines(outcome.stdout)).None? ==> Decoded(outcome.stderr).None?)
  {
    CombinedDecoding(outcome.stdout, outcome.stderr);
  }

  /** A denial printed on the error stream is seen as that denial, when the
      standard output has no marked line of its own. */
  lemma PrintedDenialIsSeen(outcome: RunOutcome, answer: Answer, k: nat, before: string, error: ContractError, after: string)
    requires !outcome.ok && FirstDigits(Lines(outcome.stdout)).None?
    requires k < |Lines(outcome.stderr)| && (forall i :: 0 <= i < k ==> ScanLine(Lines(outcome.stderr)[i]).None?)
    requires Lines(outcome.stderr)[k] == before + MARKER + Decimal(ErrorCode(error)) + after
    requires Find(Lines(outcome.stderr)[k], MARKER) == Some(|before|)
    requires after == [] || !IsDigit(after[0])
    ensures Interpreted(outcome, answer) == Reverted(RevertOf(error))
  {
    ErrorRoundTrip(outcome.stderr, k, before, error, after);
    CombinedDecoding(outcome.stdout, outcome.stderr);
  }
}
