/** Bringing up a deployment: the lifecycle calls in order on a fresh contract,
    and what `verify` then says of it. */
module Deployment {
  import opened HookCore
  import opened Ledger
  import opened Machine
  import opened Operator
  import Contract
  import Mirror

  /** The lifecycle calls: initialize, configure, bind every listed token. */
  function Lifecycle(config: Config, policy: Option<Address>, sac: bool): (calls: seq<Call>)
    ensures |calls| == |config.tokens| + 2
  {
    [Initialize(config.adminKey), SetConfig(ComplianceConfig(policy, sac))]
    + seq(|config.tokens|, i requires 0 <= i < |config.tokens| => BindToken(config.tokens[i].contractId, config.tokens[i].sac))
  }

  /** The same, each in its ledger and signed by the operator. */
  function LifecycleSteps(calls: seq<Call>, clock: seq<nat>, signers: set<Address>, oracle: Oracle): (steps: seq<Step>)
    requires |clock| == |calls|
    ensures |steps| == |calls|
  {
    seq(|calls|, i requires 0 <= i < |calls| => Step(clock[i], calls[i], signers, oracle))
  }

  /** The SAC of the last entry that lists a token, if any lists it. */
  function LastSac(tokens: seq<TokenEntry>, id: Address): Option<Option<Address>> {
    if tokens == [] then None
    else if tokens[|tokens| - 1].contractId == id then Some(tokens[|tokens| - 1].sac)
    else LastSac(tokens[..|tokens| - 1], id)
  }

  lemma {:induction false} LastSacListed(tokens: seq<TokenEntry>, id: Address)
    ensures LastSac(tokens, id).Some? <==> exists i :: 0 <= i < |tokens| && tokens[i].contractId == id
  {
    if tokens != [] {
      LastSacListed(tokens[..|tokens| - 1], id);
      assert forall i :: 0 <= i < |tokens| - 1 ==> tokens[..|tokens| - 1][i] == tokens[i];
    }
  }

  /** A deployment of the first `m` listed tokens. */
  ghost predicate DeployedSoFar(s: State, config: Config, policy: Option<Address>, sac: bool, m: nat, horizon: nat)
    requires m <= |config.tokens|
  {
    && s.admin == Some(config.adminKey)
    && s.config == Some(ComplianceConfig(policy, sac))
    && s.version == Some(1) && s.layout == Some(VERSION)
    && s.flags == map[]
    && (forall id :: id in s.bindings <==> LastSac(config.tokens[..m], id).Some?)
    && (forall id :: id in s.bindings ==> LastSac(config.tokens[..m], id) == Some(s.bindings[id].sac))
    && Mirror.LivesThrough(s, horizon)
  }

  lemma ConfiguredFresh(now: nat, grant: nat, config: Config, policy: Option<Address>, sac: bool, at0: nat, at1: nat, signers: set<Address>, oracle: Oracle)
    requires config.adminKey in signers
    ensures
      var (s1, a1) := Exec(Fresh(now, grant), Step(at0, Initialize(config.adminKey), signers, oracle));
      var (s2, a2) := Exec(s1, Step(at1, SetConfig(ComplianceConfig(policy, sac)), signers, oracle));
      a1 == Done && a2 == Done && DeployedSoFar(s2, config, policy, sac, 0, now + grant)
  {
    assert config.tokens[..0] == [];
  }

  /** A bind leaves the token bound with its SAC, and every other binding alone. */
  lemma BindWritesOne(s: State, token: Address, sac: Option<Address>)
    ensures
      var after := ApplyBind(s, token, sac);
      && token in after.bindings && after.bindings[token].sac == sac
      && (forall id :: id != token ==> (id in after.bindings <==> id in s.bindings))
      && (forall id :: id != token && id in s.bindings ==> after.bindings[id] == s.bindings[id])
      && after.flags == s.flags && after.config == s.config && after.admin == s.admin
      && after.version == s.version && after.layout == s.layout
  {
  }

  lemma LastSacGrows(tokens: seq<TokenEntry>, m: nat, id: Address)
    requires m < |tokens|
    ensures LastSac(tokens[..m + 1], id) == if tokens[m].contractId == id then Some(tokens[m].sac) else LastSac(tokens[..m], id)
  {
    assert tokens[..m + 1][..m] == tokens[..m];
  }

  /** Binding the next token: the last entry of a token decides its SAC. */
  lemma BindsNext(s: State, config: Config, policy: Option<Address>, sac: bool, m: nat, horizon: nat, step: Step)
    requires m < |config.tokens| && DeployedSoFar(s, config, policy, sac, m, horizon) && horizon <= s.now + s.grant
    requires step.call == BindToken(config.tokens[m].contractId, config.tokens[m].sac) && config.adminKey in step.signers
    ensures Exec(s, step).1 == Done
    ensures DeployedSoFar(Exec(s, step).0, config, policy, sac, m + 1, horizon)
  {
    var during, entry := Advance(s, step.at), config.tokens[m];
    Mirror.CallKeepsHorizon(during, step.call, step.signers, step.oracle, horizon);
    BindWritesOne(during, entry.contractId, entry.sac);
    forall id {
      LastSacGrows(config.tokens, m, id);
    }
    assert Exec(s, step) == (ApplyBind(during, entry.contractId, entry.sac), Done);
  }

  /** The state after the lifecycle calls up to the `m`-th token. */
  function After(start: nat, grant: nat, calls: seq<Call>, clock: seq<nat>, signers: set<Address>, oracle: Oracle, k: nat): State
    requires |clock| == |calls| && k <= |calls|
  {
    Run(Fresh(start, grant), LifecycleSteps(calls, clock, signers, oracle)[..k])
  }

  lemma AfterNext(start: nat, grant: nat, calls: seq<Call>, clock: seq<nat>, signers: set<Address>, oracle: Oracle, k: nat)
    requires |clock| == |calls| && k < |calls|
    ensures After(start, grant, calls, clock, signers, oracle, k + 1) ==
      Exec(After(start, grant, calls, clock, signers, oracle, k), Step(clock[k], calls[k], signers, oracle)).0
  {
    var steps := LifecycleSteps(calls, clock, signers, oracle);
    assert steps[..k + 1][..k] == steps[..k] && steps[..k + 1][k] == steps[k];
  }

  lemma WholeScript(start: nat, grant: nat, calls: seq<Call>, clock: seq<nat>, signers: set<Address>, oracle: Oracle)
    requires |clock| == |calls|
    ensures After(start, grant, calls, clock, signers, oracle, |calls|) == Run(Fresh(start, grant), LifecycleSteps(calls, clock, signers, oracle))
  {
    var steps := LifecycleSteps(calls, clock, signers, oracle);
    assert steps[..|calls|] == steps;
  }

  /** The first `m + 2` lifecycle calls succeeded. */
  ghost predicate DeployedAfter(start: nat, grant: nat, config: Config, policy: Option<Address>, sac: bool, clock: seq<nat>, signers: set<Address>, oracle: Oracle, m: nat)
    requires |clock| == |config.tokens| + 2 && m <= |config.tokens|
  {
    var calls := Lifecycle(config, policy, sac);
    var s := After(start, grant, calls, clock, signers, oracle, m + 2);
    && DeployedSoFar(s, config, policy, sac, m, start + grant)
    && start <= s.now && s.grant == grant
    && Exec(After(start, grant, calls, clock, signers, oracle, m + 1), Step(clock[m + 1], calls[m + 1], signers, oracle)).1 == Done
  }

  lemma LifecycleStarts(start: nat, grant: nat, config: Config, policy: Option<Address>, sac: bool, clock: seq<nat>, signers: set<Address>, oracle: Oracle)
    requires |clock| == |config.tokens| + 2 && config.adminKey in signers
    ensures DeployedAfter(start, grant, config, policy, sac, clock, signers, oracle, 0)
    ensures Exec(Fresh(start, grant), Step(clock[0], Initialize(config.adminKey), signers, oracle)).1 == Done
  {
    var calls := Lifecycle(config, policy, sac);
    AfterNext(start, grant, calls, clock, signers, oracle, 0);
    AfterNext(start, grant, calls, clock, signers, oracle, 1);
    assert After(start, grant, calls, clock, signers, oracle, 0) == Fresh(start, grant);
    ConfiguredFresh(start, grant, config, policy, sac, clock[0], clock[1], signers, oracle);
  }

  lemma LifecycleGrows(start: nat, grant: nat, config: Config, policy: Option<Address>, sac: bool, clock: seq<nat>, signers: set<Address>, oracle: Oracle, m: nat)
    requires |clock| == |config.tokens| + 2 && m < |config.tokens| && config.adminKey in signers
    requires DeployedAfter(start, grant, config, policy, sac, clock, signers, oracle, m)
    ensures DeployedAfter(start, grant, config, policy, sac, clock, signers, oracle, m + 1)
  {
    var calls := Lifecycle(config, policy, sac);
    var before := After(start, grant, calls, clock, signers, oracle, m + 2);
    var step := Step(clock[m + 2], calls[m + 2], signers, oracle);
    AfterNext(start, grant, calls, clock, signers, oracle, m + 2);
    BindsNext(before, config, policy, sac, m, start + grant, step);
    ApplyKeepsClock(Advance(before, step.at), step.call, signers, oracle);
  }

  /** Signed by the admin, every lifecycle call succeeds and the deployment grows token by token. */
  lemma {:induction false} LifecycleDeploys(start: nat, grant: nat, config: Config, policy: Option<Address>, sac: bool, clock: seq<nat>, signers: set<Address>, oracle: Oracle, m: nat)
    requires |clock| == |config.tokens| + 2 && m <= |config.tokens| && config.adminKey in signers
    ensures DeployedAfter(start, grant, config, policy, sac, clock, signers, oracle, m)
  {
    if m == 0 {
      LifecycleStarts(start, grant, config, policy, sac, clock, signers, oracle);
    } else {
      LifecycleDeploys(start, grant, config, policy, sac, clock, signers, oracle, m - 1);
      LifecycleGrows(start, grant, config, policy, sac, clock, signers, oracle, m - 1);
    }
  }

  lemma BindSucceeds(start: nat, grant: nat, config: Config, policy: Option<Address>, sac: bool, clock: seq<nat>, signers: set<Address>, oracle: Oracle, i: nat)
    requires |clock| == |config.tokens| + 2 && i < |config.tokens| && config.adminKey in signers
    ensures
      var calls := Lifecycle(config, policy, sac);
      Exec(After(start, grant, calls, clock, signers, oracle, i + 2),
           Step(clock[i + 2], BindToken(config.tokens[i].contractId, config.tokens[i].sac), signers, oracle)) ==
      (After(start, grant, calls, clock, signers, oracle, i + 3), Done)
  {
    LifecycleDeploys(start, grant, config, policy, sac, clock, signers, oracle, i + 1);
    AfterNext(start, grant, Lifecycle(config, policy, sac), clock, signers, oracle, i + 2);
  }

  /** Sends one signed call to the contract. */
  method Send(hooks: Contract.ComplianceHooks, at: nat, call: Call, signers: set<Address>, oracle: Oracle) returns (answer: Answer)
    requires hooks.Valid()
    modifies hooks
    ensures hooks.Valid() && (hooks.View(), answer) == Exec(old(hooks.View()), Step(at, call, signers, oracle))
  {
    answer := hooks.Invoke(Step(at, call, signers, oracle));
  }

  /** Binds the listed tokens in order, stopping at the first failure. */
  method BindTokens(hooks: Contract.ComplianceHooks, config: Config, ghost policy: Option<Address>, ghost sac: bool,
                    signers: set<Address>, clock: seq<nat>, oracle: Oracle, ghost start: nat)
    returns (answer: Answer)
    requires |clock| == |config.tokens| + 2 && config.adminKey in signers && hooks.Valid()
    requires hooks.View() == After(start, hooks.grant, Lifecycle(config, policy, sac), clock, signers, oracle, 2)
    modifies hooks
    ensures hooks.Valid() && answer == Done
    ensures hooks.View() == After(start, hooks.grant, Lifecycle(config, policy, sac), clock, signers, oracle, |config.tokens| + 2)
  {
    var i := 0;
    while i < |config.tokens|
      invariant 0 <= i <= |config.tokens| && hooks.Valid()
      invariant hooks.View() == After(start, hooks.grant, Lifecycle(config, policy, sac), clock, signers, oracle, i + 2)
    {
      var token := config.tokens[i];
      BindSucceeds(start, hooks.grant, config, policy, sac, clock, signers, oracle, i);
      answer := Send(hooks, clock[i + 2], BindToken(token.contractId, token.sac), signers, oracle);
      if answer != Done {
        return;
      }
      i := i + 1;
    }
    answer := Done;
  }

  /** The first lifecycle call: it fails, and leaves nothing behind, exactly when the admin did not sign. */
  lemma FirstCall(start: nat, grant: nat, config: Config, policy: Option<Address>, sac: bool, clock: seq<nat>, signers: set<Address>, oracle: Oracle)
    requires |clock| == |config.tokens| + 2
    ensures
      var calls := Lifecycle(config, policy, sac);
      var (s, answer) := Exec(Fresh(start, grant), Step(clock[0], Initialize(config.adminKey), signers, oracle));
      && s == After(start, grant, calls, clock, signers, oracle, 1)
      && (answer == Done <==> config.adminKey in signers)
      && (answer != Done ==> s == Advance(Fresh(start, grant), clock[0]))
  {
    var calls := Lifecycle(config, policy, sac);
    AfterNext(start, grant, calls, clock, signers, oracle, 0);
    assert After(start, grant, calls, clock, signers, oracle, 0) == Fresh(start, grant);
  }

  /** The second lifecycle call, signed by the admin, succeeds. */
  lemma SecondCall(start: nat, grant: nat, config: Config, policy: Option<Address>, sac: bool, clock: seq<nat>, signers: set<Address>, oracle: Oracle)
    requires |clock| == |config.tokens| + 2 && config.adminKey in signers
    ensures
      var calls := Lifecycle(config, policy, sac);
      Exec(After(start, grant, calls, clock, signers, oracle, 1), Step(clock[1], SetConfig(ComplianceConfig(policy, sac)), signers, oracle)) ==
      (After(start, grant, calls, clock, signers, oracle, 2), Done)
  {
    AfterNext(start, grant, Lifecycle(config, policy, sac), clock, signers, oracle, 1);
    LifecycleStarts(start, grant, config, policy, sac, clock, signers, oracle);
  }

  /** Runs the lifecycle calls on a fresh contract, stopping at the first one that fails. */
  method RunLifecycle(hooks: Contract.ComplianceHooks, config: Config, policy: Option<Address>, sac: bool,
                      signers: set<Address>, clock: seq<nat>, oracle: Oracle, ghost start: nat)
    returns (answer: Answer)
    requires hooks.Valid() && hooks.View() == Fresh(start, hooks.grant)
    requires |clock| == |config.tokens| + 2
    modifies hooks
    ensures hooks.Valid()
    ensures answer == Done <==> config.adminKey in signers
    ensures answer != Done ==> hooks.View() == Advance(Fresh(start, hooks.grant), clock[0])
    ensures answer == Done ==>
      hooks.View() == Run(Fresh(start, hooks.grant), LifecycleSteps(Lifecycle(config, policy, sac), clock, signers, oracle))
  {
    FirstCall(start, hooks.grant, config, policy, sac, clock, signers, oracle);
    answer := Send(hooks, clock[0], Initialize(config.adminKey), signers, oracle);
    if answer != Done {
      return;
    }
    SecondCall(start, hooks.grant, config, policy, sac, clock, signers, oracle);
    answer := Send(hooks, clock[1], SetConfig(ComplianceConfig(policy, sac)), signers, oracle);
    if answer != Done {
      return;
    }
    answer := BindTokens(hooks, config, policy, sac, signers, clock, oracle, start);
    WholeScript(start, hooks.grant, Lifecycle(config, policy, sac), clock, signers, oracle);
  }

  /** What a bring-up signed by the admin leaves: the recorded admin, the chosen
      configuration at version 1, no freeze flags, and as bindings exactly the
      listed tokens, each with the SAC of its last entry, all living through
      the lifetime granted at the start. */
  lemma {:induction false} LifecycleResult(start: nat, grant: nat, config: Config, policy: Option<Address>, sac: bool, clock: seq<nat>, signers: set<Address>, oracle: Oracle)
    requires |clock| == |config.tokens| + 2 && config.adminKey in signers
    ensures
      var s := Run(Fresh(start, grant), LifecycleSteps(Lifecycle(config, policy, sac), clock, signers, oracle));
      && s.admin == Some(config.adminKey) && s.config == Some(ComplianceConfig(policy, sac))
      && s.version == Some(1) && s.layout == Some(1) && s.flags == map[]
      && (forall id :: id in s.bindings <==> exists i :: 0 <= i < |config.tokens| && config.tokens[i].contractId == id)
      && (forall id :: id in s.bindings ==> LastSac(config.tokens, id) == Some(s.bindings[id].sac))
      && Mirror.LivesThrough(s, start + grant)
  {
    LifecycleDeploys(start, grant, config, policy, sac, clock, signers, oracle, |config.tokens|);
    WholeScript(start, grant, Lifecycle(config, policy, sac), clock, signers, oracle);
    assert config.tokens[..|config.tokens|] == config.tokens;
    forall id
      ensures LastSac(config.tokens, id).Some? <==> exists i :: 0 <= i < |config.tokens| && config.tokens[i].contractId == id
    {
      LastSacListed(config.tokens, id);
    }
  }

  /** Resolves the policy, runs the bring-up on a fresh contract and returns the
      updated record when every call succeeds. No policy is configured when it
      is refused outright; else it is the given one, else a freshly deployed
      sample, else the recorded one. Contract and record then agree. */
  method RunDeploy(hooks: Contract.ComplianceHooks, hooksId: Address, config: Config,
                   noPolicy: bool, policyId: Option<Address>, sample: Option<Address>, sacOverride: Option<bool>,
                   signers: set<Address>, clock: seq<nat>, oracle: Oracle, ghost start: nat)
    returns (updated: Option<Config>)
    requires hooks.Valid() && hooks.View() == Fresh(start, hooks.grant)
    requires |clock| == |config.tokens| + 2
    modifies hooks
    ensures hooks.Valid()
    ensures updated.Some? <==> config.adminKey in signers
    ensures updated.None? ==> hooks.View() == Advance(Fresh(start, hooks.grant), clock[0])
    ensures updated.Some? ==>
      && updated.value.hooksContractId == hooksId
      && updated.value.adminKey == config.adminKey && updated.value.tokens == config.tokens
      && (noPolicy ==> updated.value.policy == None)
      && (!noPolicy && policyId.Some? ==> updated.value.policy == policyId)
      && (!noPolicy && policyId.None? && sample.Some? ==> updated.value.policy == sample)
      && (!noPolicy && policyId.None? && sample.None? ==> updated.value.policy == config.policy)
      && (sacOverride.Some? ==> updated.value.sacPassthrough == sacOverride.value)
      && (sacOverride.None? ==> updated.value.sacPassthrough == config.sacPassthrough)
    ensures updated.Some? ==>
      var policy, sac := updated.value.policy, updated.value.sacPassthrough;
      && hooks.View() == Run(Fresh(start, hooks.grant), LifecycleSteps(Lifecycle(config, policy, sac), clock, signers, oracle))
      && hooks.View().admin == Some(config.adminKey)
      && hooks.View().config == Some(ComplianceConfig(policy, sac))
      && hooks.View().version == Some(1) && hooks.View().layout == Some(1) && hooks.View().flags == map[]
      && (forall id :: id in hooks.View().bindings <==> exists i :: 0 <= i < |config.tokens| && config.tokens[i].contractId == id)
      && (forall id :: id in hooks.View().bindings ==> LastSac(config.tokens, id) == Some(hooks.View().bindings[id].sac))
  {
    var policy := None;
    if !noPolicy {
      if policyId.Some? {
        policy := policyId;
      } else if sample.Some? {
        policy := sample;
      } else {
        policy := config.policy;
      }
    }
    var sac := sacOverride.GetOr(config.sacPassthrough);
    var answer := RunLifecycle(hooks, config, policy, sac, signers, clock, oracle, start);
    if answer != Done {
      return None;
    }
    LifecycleResult(start, hooks.grant, config, policy, sac, clock, signers, oracle);
    updated := Some(config.(hooksContractId := hooksId, policy := policy, sacPassthrough := sac));
  }

  lemma DeployedMeaning(s: State, config: Config)
    requires s.admin == Some(config.adminKey) && s.config.Some? && s.config.value.policy == config.policy && s.flags == map[]
    requires forall id :: id in s.bindings <==> exists i :: 0 <= i < |config.tokens| && config.tokens[i].contractId == id
    ensures Deployed(s, config) <==>
      (!exists i :: 0 <= i < |config.tokens| && config.tokens[i].contractId == config.adminKey) && Mirror.LivesThrough(s, s.now)
  {
    assert forall i :: 0 <= i < |config.tokens| ==> config.tokens[i].contractId in s.bindings;
    if Deployed(s, config) {
      forall id | id in s.bindings
        ensures s.now <= s.bindings[id].liveUntil
      {
        var i :| 0 <= i < |config.tokens| && config.tokens[i].contractId == id;
        assert IsBound(s, config.tokens[i].contractId);
      }
    }
  }

  /** A bring-up signed by the admin, verified against its updated record in any
      later ledger, has no failed check exactly when the admin key is not itself
      listed as a token and no binding has lapsed. */
  lemma {:induction false} DeployThenVerify(start: nat, grant: nat, config: Config, hooksId: Address, policy: Option<Address>, sac: bool,
                         clock: seq<nat>, signers: set<Address>, oracle: Oracle, at: nat)
    requires |clock| == |config.tokens| + 2 && config.adminKey in signers
    ensures
      var s := Advance(Run(Fresh(start, grant), LifecycleSteps(Lifecycle(config, policy, sac), clock, signers, oracle)), at);
      NoFailure(Report(ContractRunner(s, oracle), Config(hooksId, policy, sac, config.adminKey, config.tokens), None)) <==>
      (!exists i :: 0 <= i < |config.tokens| && config.tokens[i].contractId == config.adminKey) && Mirror.LivesThrough(s, s.now)
  {
    var s := Advance(Run(Fresh(start, grant), LifecycleSteps(Lifecycle(config, policy, sac), clock, signers, oracle)), at);
    LifecycleResult(start, grant, config, policy, sac, clock, signers, oracle);
    VerifyMeaning(s, Config(hooksId, policy, sac, config.adminKey, config.tokens), None, oracle);
    DeployedMeaning(s, Config(hooksId, policy, sac, config.adminKey, config.tokens));
  }

  /** Within the lifetime the network grants a new entry, only a listed admin key makes it fail. */
  lemma {:induction false} FreshDeployVerifies(start: nat, grant: nat, config: Config, hooksId: Address, policy: Option<Address>, sac: bool,
                            clock: seq<nat>, signers: set<Address>, oracle: Oracle, at: nat)
    requires |clock| == |config.tokens| + 2 && config.adminKey in signers
    requires Run(Fresh(start, grant), LifecycleSteps(Lifecycle(config, policy, sac), clock, signers, oracle)).now <= at <= start + grant
    ensures
      var s := Run(Fresh(start, grant), LifecycleSteps(Lifecycle(config, policy, sac), clock, signers, oracle));
      NoFailure(Report(ContractRunner(Advance(s, at), oracle), Config(hooksId, policy, sac, config.adminKey, config.tokens), None)) <==>
      !exists i :: 0 <= i < |config.tokens| && config.tokens[i].contractId == config.adminKey
  {
    LifecycleResult(start, grant, config, policy, sac, clock, signers, oracle);
    DeployThenVerify(start, grant, config, hooksId, policy, sac, clock, signers, oracle, at);
  }
}
