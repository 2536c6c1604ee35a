/** Token isolation: what other tokens do cannot be seen from a token. */
module Isolation {
  import opened HookCore
  import opened Ledger
  import opened Machine
  import Evaluator

  /** The token a call concerns; contract-wide calls concern none. */
  function NamedToken(call: Call): Option<Address> {
    match call
    case BindToken(token, _) => Some(token)
    case UnbindToken(token) => Some(token)
    case Freeze(token, _) => Some(token)
    case Unfreeze(token, _) => Some(token)
    case Enforce(token, _) => Some(token)
    case ReadBound(token) => Some(token)
    case ReadFrozen(token, _) => Some(token)
    case _ => None
  }

  predicate Concerns(call: Call, token: Address) {
    NamedToken(call) == None || NamedToken(call) == Some(token)
  }

  /** Two states that agree on the contract-wide entries and on the entries of one token. */
  ghost predicate AgreeOn(s1: State, s2: State, token: Address) {
    && s1.grant == s2.grant
    && s1.admin == s2.admin && s1.config == s2.config && s1.version == s2.version && s1.layout == s2.layout
    && (token in s1.bindings <==> token in s2.bindings)
    && (token in s1.bindings ==> s1.bindings[token] == s2.bindings[token])
    && (forall account :: Holding(token, account) in s1.flags <==> Holding(token, account) in s2.flags)
    && (forall account :: Holding(token, account) in s1.flags ==> s1.flags[Holding(token, account)] == s2.flags[Holding(token, account)])
  }

  /** The run without the calls that name another token. */
  function OnlyFor(steps: seq<Step>, token: Address): seq<Step> {
    if steps == [] then []
    else
      var n := |steps| - 1;
      OnlyFor(steps[..n], token) + (if Concerns(steps[n].call, token) then [steps[n]] else [])
  }

  /** The answers of the calls that `OnlyFor` keeps, in the full run. */
  function AnswersFor(s: State, steps: seq<Step>, token: Address): seq<Answer> {
    if steps == [] then []
    else
      var n := |steps| - 1;
      AnswersFor(s, steps[..n], token)
      + (if Concerns(steps[n].call, token) then [Exec(Run(s, steps[..n]), steps[n]).1] else [])
  }

  /** A hook on the token decides alike in states that agree on it. */
  lemma HooksAgree(s1: State, s2: State, token: Address, hook: Hook, oracle: Oracle)
    requires AgreeOn(s1, s2, token) && s1.now == s2.now
    ensures
      Evaluator.Evaluate(s1, token, HookOperation(hook), HookParties(hook), oracle, []) ==
      Evaluator.Evaluate(s2, token, HookOperation(hook), HookParties(hook), oracle, [])
  {
    if s1.config.Some? && IsBound(s1, token) {
      var gates := Evaluator.ScheduleOf(s1, token, HookOperation(hook), HookParties(hook));
      Evaluator.GatesSeeFlagsOnly(s1, s2, token, gates, oracle, []);
    }
  }

  /** A call answers alike in two states and keeps their agreement on the token. */
  ghost predicate CallAgrees(s1: State, s2: State, token: Address, call: Call, signers: set<Address>, oracle: Oracle) {
    var (t1, a1) := Apply(s1, call, signers, oracle);
    var (t2, a2) := Apply(s2, call, signers, oracle);
    a1 == a2 && AgreeOn(t1, t2, token)
  }

  lemma ReadsAgree(s1: State, s2: State, token: Address, account: Address)
    requires AgreeOn(s1, s2, token) && s1.now == s2.now
    ensures AgreeOn(TouchBinding(s1, token), TouchBinding(s2, token), token)
    ensures AgreeOn(TouchFlag(s1, token, account), TouchFlag(s2, token, account), token)
  {
  }

  lemma FlagWritesAgree(s1: State, s2: State, token: Address, account: Address)
    requires AgreeOn(s1, s2, token) && s1.now == s2.now
    ensures AgreeOn(PutFlag(s1, token, account), PutFlag(s2, token, account), token)
    ensures AgreeOn(DropFlag(s1, token, account), DropFlag(s2, token, account), token)
  {
  }

  lemma BindingWriteAgrees(s1: State, s2: State, token: Address, sac: Option<Address>)
    requires AgreeOn(s1, s2, token) && s1.now == s2.now
    ensures AgreeOn(PutBinding(s1, token, sac), PutBinding(s2, token, sac), token)
  {
  }

  lemma FreezeAgrees(s1: State, s2: State, token: Address, account: Address)
    requires AgreeOn(s1, s2, token) && s1.now == s2.now
    ensures AgreeOn(ApplyFreeze(s1, token, account), ApplyFreeze(s2, token, account), token)
    ensures AgreeOn(ApplyUnfreeze(s1, token, account), ApplyUnfreeze(s2, token, account), token)
  {
    var r1, r2 := TouchBinding(s1, token), TouchBinding(s2, token);
    ReadsAgree(s1, s2, token, account);
    ReadsAgree(r1, r2, token, account);
    FlagWritesAgree(r1, r2, token, account);
  }

  lemma BindAgrees(s1: State, s2: State, token: Address, sac: Option<Address>)
    requires AgreeOn(s1, s2, token) && s1.now == s2.now
    ensures AgreeOn(ApplyBind(s1, token, sac), ApplyBind(s2, token, sac), token)
  {
    var r1, r2 := TouchBinding(s1, token), TouchBinding(s2, token);
    ReadsAgree(s1, s2, token, token);
    if IsBound(s1, token) && s1.bindings[token].sac == sac {
      assert ApplyBind(s1, token, sac) == r1 && ApplyBind(s2, token, sac) == r2;
    } else {
      BindingWriteAgrees(r1, r2, token, sac);
      EmitAgrees(PutBinding(r1, token, sac), PutBinding(r2, token, sac), token, TokenBound(token));
    }
  }

  lemma EmitAgrees(s1: State, s2: State, token: Address, event: Event)
    requires AgreeOn(s1, s2, token)
    ensures AgreeOn(Emit(s1, event), Emit(s2, event), token)
    ensures AgreeOn(Emit(s1, event), s2, token)
  {
  }

  lemma UnbindAgrees(s1: State, s2: State, token: Address)
    requires AgreeOn(s1, s2, token) && s1.now == s2.now
    ensures AgreeOn(ApplyUnbind(s1, token), ApplyUnbind(s2, token), token)
  {
  }

  lemma ConfigAgrees(s1: State, s2: State, token: Address, config: ComplianceConfig)
    requires AgreeOn(s1, s2, token) && s1.now == s2.now
    ensures ApplySetConfig(s1, config).1 == ApplySetConfig(s2, config).1
    ensures AgreeOn(ApplySetConfig(s1, config).0, ApplySetConfig(s2, config).0, token)
  {
  }

  lemma LifecycleAgrees(s1: State, s2: State, token: Address, call: Call, signers: set<Address>, oracle: Oracle)
    requires AgreeOn(s1, s2, token) && s1.now == s2.now && NamedToken(call) == None
    ensures CallAgrees(s1, s2, token, call, signers, oracle)
  {
    if call.SetConfig? {
      ConfigAgrees(s1, s2, token, call.config);
    }
  }

  /** A call that concerns the token answers alike and keeps the agreement. */
  lemma {:induction false} KeptCallsAgree(s1: State, s2: State, token: Address, call: Call, signers: set<Address>, oracle: Oracle)
    requires AgreeOn(s1, s2, token) && s1.now == s2.now && Concerns(call, token)
    ensures CallAgrees(s1, s2, token, call, signers, oracle)
  {
    if NamedToken(call) == None {
      LifecycleAgrees(s1, s2, token, call, signers, oracle);
    } else {
      TokenCallsAgree(s1, s2, token, call, signers, oracle);
    }
  }

  lemma ScopeCallsAgree(s1: State, s2: State, token: Address, call: Call, signers: set<Address>, oracle: Oracle)
    requires AgreeOn(s1, s2, token) && s1.now == s2.now
    requires (call.BindToken? || call.UnbindToken?) && call.token == token
    ensures CallAgrees(s1, s2, token, call, signers, oracle)
  {
    if call.BindToken? {
      BindAgrees(s1, s2, token, call.sac);
    } else {
      UnbindAgrees(s1, s2, token);
    }
  }

  lemma FreezeCallsAgree(s1: State, s2: State, token: Address, call: Call, signers: set<Address>, oracle: Oracle)
    requires AgreeOn(s1, s2, token) && s1.now == s2.now
    requires (call.Freeze? || call.Unfreeze?) && call.token == token
    ensures CallAgrees(s1, s2, token, call, signers, oracle)
  {
    FreezeAgrees(s1, s2, token, call.account);
    assert FreezeGates(s1, token, signers) == FreezeGates(s2, token, signers);
  }

  lemma TokenCallsAgree(s1: State, s2: State, token: Address, call: Call, signers: set<Address>, oracle: Oracle)
    requires AgreeOn(s1, s2, token) && s1.now == s2.now && NamedToken(call) == Some(token)
    ensures CallAgrees(s1, s2, token, call, signers, oracle)
  {
    if call.Enforce? {
      HooksAgree(s1, s2, token, call.hook, oracle);
      ReadsAgree(s1, s2, token, token);
    } else if call.ReadBound? {
      ReadsAgree(s1, s2, token, token);
    } else if call.ReadFrozen? {
      ReadsAgree(s1, s2, token, call.account);
    } else if call.BindToken? || call.UnbindToken? {
      ScopeCallsAgree(s1, s2, token, call, signers, oracle);
    } else {
      FreezeCallsAgree(s1, s2, token, call, signers, oracle);
    }
  }

  lemma OtherReadsInvisible(s: State, token: Address, other: Address, account: Address)
    requires other != token
    ensures AgreeOn(TouchBinding(s, other), s, token) && AgreeOn(TouchFlag(s, other, account), s, token)
  {
  }

  lemma OtherBindsInvisible(s: State, token: Address, other: Address, sac: Option<Address>)
    requires other != token
    ensures AgreeOn(ApplyBind(s, other, sac), s, token) && AgreeOn(ApplyUnbind(s, other), s, token)
  {
  }

  lemma OtherFreezesInvisible(s: State, token: Address, other: Address, account: Address)
    requires other != token
    ensures AgreeOn(ApplyFreeze(s, other, account), s, token) && AgreeOn(ApplyUnfreeze(s, other, account), s, token)
  {
  }

  /** A call that names another token leaves no trace in the entries of this one. */
  lemma OtherTokensInvisible(s: State, token: Address, call: Call, signers: set<Address>, oracle: Oracle)
    requires !Concerns(call, token)
    ensures AgreeOn(Apply(s, call, signers, oracle).0, s, token)
  {
    match call
    case BindToken(other, sac) => OtherBindsInvisible(s, token, other, sac);
    case UnbindToken(other) => OtherBindsInvisible(s, token, other, None);
    case Freeze(other, account) => OtherFreezesInvisible(s, token, other, account);
    case Unfreeze(other, account) => OtherFreezesInvisible(s, token, other, account);
    case Enforce(other, _) => OtherReadsInvisible(s, token, other, token);
    case ReadBound(other) => OtherReadsInvisible(s, token, other, token);
    case ReadFrozen(other, account) => OtherReadsInvisible(s, token, other, account);
    case _ =>
  }

  /** What one more step adds to the run that is kept. */
  lemma OnlyForGrows(s: State, steps: seq<Step>, token: Address)
    requires steps != []
    ensures
      var n := |steps| - 1;
      var kept := Run(s, OnlyFor(steps[..n], token));
      if Concerns(steps[n].call, token) then
        && Run(s, OnlyFor(steps, token)) == Exec(kept, steps[n]).0
        && Answers(s, OnlyFor(steps, token)) == Answers(s, OnlyFor(steps[..n], token)) + [Exec(kept, steps[n]).1]
      else OnlyFor(steps, token) == OnlyFor(steps[..n], token)
  {
    var kept := OnlyFor(steps, token);
    if Concerns(steps[|steps| - 1].call, token) {
      assert kept[..|kept| - 1] == OnlyFor(steps[..|steps| - 1], token);
    }
  }

  /** One step of the full run and of the run that is kept. */
  lemma StepsAgree(full: State, kept: State, token: Address, step: Step)
    requires AgreeOn(full, kept, token) && kept.now <= full.now <= step.at
    ensures Exec(full, step).0.now == step.at
    ensures Concerns(step.call, token) ==>
      && Exec(full, step).1 == Exec(kept, step).1 && AgreeOn(Exec(full, step).0, Exec(kept, step).0, token)
      && Exec(kept, step).0.now == step.at
    ensures !Concerns(step.call, token) ==> AgreeOn(Exec(full, step).0, kept, token)
  {
    var f, k := Advance(full, step.at), Advance(kept, step.at);
    ApplyKeepsClock(f, step.call, step.signers, step.oracle);
    ApplyKeepsClock(k, step.call, step.signers, step.oracle);
    if Concerns(step.call, token) {
      KeptCallsAgree(f, k, token, step.call, step.signers, step.oracle);
    } else {
      OtherTokensInvisible(f, token, step.call, step.signers, step.oracle);
    }
  }

  /** Deleting from any run every call that names another token leaves every
      remaining answer, and everything stored about the token, unchanged. */
  lemma {:induction false} TokensDoNotInterfere(s: State, steps: seq<Step>, token: Address)
    requires Ordered(s.now, steps)
    ensures AgreeOn(Run(s, steps), Run(s, OnlyFor(steps, token)), token)
    ensures AnswersFor(s, steps, token) == Answers(s, OnlyFor(steps, token))
    ensures Run(s, OnlyFor(steps, token)).now <= Run(s, steps).now
  {
    if steps != [] {
      var n := |steps| - 1;
      TokensDoNotInterfere(s, steps[..n], token);
      RunClock(s, steps[..n]);
      OnlyForGrows(s, steps, token);
      StepsAgree(Run(s, steps[..n]), Run(s, OnlyFor(steps[..n], token)), token, steps[n]);
    }
  }

  /** Whatever is asked about the token afterwards is answered alike too. */
  lemma {:induction false} LaterAnswersAgree(s: State, steps: seq<Step>, token: Address, next: Step)
    requires Ordered(s.now, steps + [next]) && Concerns(next.call, token)
    ensures Exec(Run(s, steps), next).1 == Exec(Run(s, OnlyFor(steps, token)), next).1
  {
    var all := steps + [next];
    assert all[..|steps|] == steps;
    assert forall i :: 0 <= i < |steps| ==> steps[i] == all[i];
    assert steps != [] ==> steps[|steps| - 1].at <= all[|steps|].at;
    TokensDoNotInterfere(s, steps, token);
    RunClock(s, steps);
    KeptCallsAgree(Advance(Run(s, steps), next.at), Advance(Run(s, OnlyFor(steps, token)), next.at), token, next.call, next.signers, next.oracle);
  }
}
