/** Which calls of a run can be removed without changing what remains. */
module Erasure {
  import opened HookCore
  import opened Ledger
  import opened Machine
  import Leases
  import Mirror

  /******* Rejected and unsigned calls *******/

  /** The steps of a run whose frames were kept. */
  function CommittedSteps(s: State, steps: seq<Step>): seq<Step> {
    if steps == [] then []
    else
      var n := |steps| - 1;
      CommittedSteps(s, steps[..n])
      + (if Exec(Run(s, steps[..n]), steps[n]).1.Committed() then [steps[n]] else [])
  }

  function CommittedAnswers(s: State, steps: seq<Step>): seq<Answer> {
    if steps == [] then []
    else
      var n := |steps| - 1;
      var answer := Exec(Run(s, steps[..n]), steps[n]).1;
      CommittedAnswers(s, steps[..n]) + (if answer.Committed() then [answer] else [])
  }

  /** Removing every rejected and every unsigned call from a run leaves the
      whole state, lifetimes and event log included, and every remaining
      answer unchanged. */
  lemma {:induction false} RejectedCallsAreErasable(s: State, steps: seq<Step>)
    requires Ordered(s.now, steps)
    ensures Run(s, CommittedSteps(s, steps)).(now := Run(s, steps).now) == Run(s, steps)
    ensures Answers(s, CommittedSteps(s, steps)) == CommittedAnswers(s, steps)
    ensures Run(s, CommittedSteps(s, steps)).now <= Run(s, steps).now
  {
    if steps != [] {
      var n := |steps| - 1;
      RejectedCallsAreErasable(s, steps[..n]);
      RunClock(s, steps[..n]);
      var full, kept := Run(s, steps[..n]), Run(s, CommittedSteps(s, steps[..n]));
      assert Advance(kept, steps[n].at) == Advance(full, steps[n].at);
      ApplyKeepsClock(Advance(full, steps[n].at), steps[n].call, steps[n].signers, steps[n].oracle);
      if Exec(full, steps[n]).1.Committed() {
        var survivors := CommittedSteps(s, steps);
        assert survivors[..|survivors| - 1] == CommittedSteps(s, steps[..n]);
      } else {
        RejectedCallsChangeNothing(Advance(full, steps[n].at), steps[n].call, steps[n].signers, steps[n].oracle);
        assert CommittedSteps(s, steps) == CommittedSteps(s, steps[..n]);
      }
    }
  }

  /******* Hook calls *******/

  /** A step that stays when hooks and uncommitted calls are removed. */
  predicate Survives(s: State, step: Step) {
    !step.call.Enforce? && Exec(s, step).1.Committed()
  }

  function Survivors(s: State, steps: seq<Step>): seq<Step> {
    if steps == [] then []
    else
      var n := |steps| - 1;
      Survivors(s, steps[..n]) + (if Survives(Run(s, steps[..n]), steps[n]) then [steps[n]] else [])
  }

  function SurvivingAnswers(s: State, steps: seq<Step>): seq<Answer> {
    if steps == [] then []
    else
      var n := |steps| - 1;
      SurvivingAnswers(s, steps[..n])
      + (if Survives(Run(s, steps[..n]), steps[n]) then [Exec(Run(s, steps[..n]), steps[n]).1] else [])
  }

  /** Equal but for the clock and the lifetimes of bindings; freeze flags are
      equal with their lifetimes. */
  ghost predicate SameButBindingLifetimes(full: State, kept: State) {
    && full.grant == kept.grant && kept.now <= full.now
    && full.admin == kept.admin && full.config == kept.config && full.version == kept.version && full.layout == kept.layout
    && full.flags == kept.flags && full.log == kept.log
    && full.bindings.Keys == kept.bindings.Keys
    && (forall token :: token in full.bindings ==> full.bindings[token].sac == kept.bindings[token].sac)
  }

  /** A call whose effect depends on whether the binding it reads has lapsed. */
  predicate NeedsLiveBinding(s: State, call: Call) {
    match call
    case BindToken(token, sac) => token in s.bindings && s.bindings[token].sac == sac
    case UnbindToken(_) => true
    case Freeze(_, _) => true
    case Unfreeze(_, _) => true
    case ReadBound(_) => true
    case _ => false
  }

  /** The binding the call reads is live in both states or in neither. */
  predicate SeesAlike(full: State, kept: State, step: Step) {
    NeedsLiveBinding(full, step.call) ==>
      IsBound(Advance(full, step.at), step.call.token) == IsBound(Advance(kept, step.at), step.call.token)
  }

  /** At every surviving step, the binding it reads is live in both runs or in neither. */
  ghost predicate BindingsSeenAlike(s: State, steps: seq<Step>) {
    steps == [] ||
    var n := |steps| - 1;
    && BindingsSeenAlike(s, steps[..n])
    && (Survives(Run(s, steps[..n]), steps[n]) ==> SeesAlike(Run(s, steps[..n]), Run(s, Survivors(s, steps[..n])), steps[n]))
  }

  /** The run and what is left of it give the same answers and the same event log. */
  ghost predicate Unobservable(s: State, steps: seq<Step>) {
    && Answers(s, Survivors(s, steps)) == SurvivingAnswers(s, steps)
    && Run(s, Survivors(s, steps)).log == Run(s, steps).log
  }

  /** The removal is unobservable after every step of the run. */
  ghost predicate AlwaysUnobservable(s: State, steps: seq<Step>) {
    Unobservable(s, steps) && (steps == [] || AlwaysUnobservable(s, steps[..|steps| - 1]))
  }

  /** What one more step adds to the run that is left. */
  lemma SurvivorsGrow(s: State, steps: seq<Step>)
    requires steps != []
    ensures
      var n := |steps| - 1;
      var kept := Run(s, Survivors(s, steps[..n]));
      if Survives(Run(s, steps[..n]), steps[n]) then
        && Run(s, Survivors(s, steps)) == Exec(kept, steps[n]).0
        && Answers(s, Survivors(s, steps)) == Answers(s, Survivors(s, steps[..n])) + [Exec(kept, steps[n]).1]
      else Survivors(s, steps) == Survivors(s, steps[..n])
  {
    var survivors := Survivors(s, steps);
    if Survives(Run(s, steps[..|steps| - 1]), steps[|steps| - 1]) {
      assert survivors[..|survivors| - 1] == Survivors(s, steps[..|steps| - 1]);
    }
  }

  /** One surviving step: seen alike is exactly answered and logged alike, and then the states stay the same. */
  lemma SurvivingStep(full: State, kept: State, step: Step)
    requires SameButBindingLifetimes(full, kept) && full.now <= step.at && Survives(full, step)
    ensures SeesAlike(full, kept, step) <==>
      Exec(full, step).1 == Exec(kept, step).1 && Exec(full, step).0.log == Exec(kept, step).0.log
    ensures SeesAlike(full, kept, step) ==> SameButBindingLifetimes(Exec(full, step).0, Exec(kept, step).0)
  {
    var f, k := Advance(full, step.at), Advance(kept, step.at);
    if step.call.BindToken? || step.call.UnbindToken? {
      SurvivingScopeCall(f, k, step.call, step.signers, step.oracle);
    } else if step.call.Freeze? || step.call.Unfreeze? {
      SurvivingFreezeCall(f, k, step.call, step.signers, step.oracle);
    } else {
      SurvivingOtherCall(f, k, step.call, step.signers, step.oracle);
    }
  }

  lemma SurvivingOtherCall(f: State, k: State, call: Call, signers: set<Address>, oracle: Oracle)
    requires SameButBindingLifetimes(f, k) && f.now == k.now
    requires !call.BindToken? && !call.UnbindToken? && !call.Freeze? && !call.Unfreeze? && !call.Enforce?
    ensures
      var alike := call.ReadBound? ==> IsBound(f, call.token) == IsBound(k, call.token);
      && (alike <==> Apply(f, call, signers, oracle).1 == Apply(k, call, signers, oracle).1)
      && Apply(f, call, signers, oracle).0.log == Apply(k, call, signers, oracle).0.log
      && SameButBindingLifetimes(Apply(f, call, signers, oracle).0, Apply(k, call, signers, oracle).0)
  {
    if call.ReadBound? {
      TouchIgnoresLifetimes(f, k, call.token);
    } else if call.ReadFrozen? {
      FlagWritesAgree(f, k, call.token, call.account);
    } else if call.SetConfig? {
      ConfigIgnoresLifetimes(f, k, call.config);
    }
  }

  lemma ConfigIgnoresLifetimes(f: State, k: State, config: ComplianceConfig)
    requires SameButBindingLifetimes(f, k)
    ensures ApplySetConfig(f, config).1 == ApplySetConfig(k, config).1
    ensures SameButBindingLifetimes(ApplySetConfig(f, config).0, ApplySetConfig(k, config).0)
  {
  }

  lemma SurvivingScopeCall(f: State, k: State, call: Call, signers: set<Address>, oracle: Oracle)
    requires SameButBindingLifetimes(f, k) && f.now == k.now
    requires (call.BindToken? || call.UnbindToken?) && Apply(f, call, signers, oracle).1.Committed()
    ensures
      var alike := NeedsLiveBinding(f, call) ==> IsBound(f, call.token) == IsBound(k, call.token);
      && (alike <==> Apply(f, call, signers, oracle).0.log == Apply(k, call, signers, oracle).0.log)
      && Apply(f, call, signers, oracle).1 == Apply(k, call, signers, oracle).1
      && (alike ==> SameButBindingLifetimes(Apply(f, call, signers, oracle).0, Apply(k, call, signers, oracle).0))
  {
    var token := call.token;
    var event := if call.BindToken? then TokenBound(token) else TokenUnbound(token);
    assert |f.log + [event]| != |f.log|;
  }

  lemma TouchIgnoresLifetimes(f: State, k: State, token: Address)
    requires SameButBindingLifetimes(f, k)
    ensures SameButBindingLifetimes(TouchBinding(f, token), TouchBinding(k, token))
  {
  }

  lemma FreezeIgnoresLifetimes(f: State, k: State, token: Address, account: Address)
    requires SameButBindingLifetimes(f, k) && f.now == k.now
    ensures SameButBindingLifetimes(ApplyFreeze(f, token, account), ApplyFreeze(k, token, account))
    ensures SameButBindingLifetimes(ApplyUnfreeze(f, token, account), ApplyUnfreeze(k, token, account))
  {
    var rf, rk := TouchBinding(f, token), TouchBinding(k, token);
    TouchIgnoresLifetimes(f, k, token);
    FlagWritesAgree(rf, rk, token, account);
    EmitIgnoresLifetimes(PutFlag(rf, token, account), PutFlag(rk, token, account), Event.AccountFrozen(token, account));
    EmitIgnoresLifetimes(DropFlag(rf, token, account), DropFlag(rk, token, account), AccountUnfrozen(token, account));
  }

  lemma EmitIgnoresLifetimes(f: State, k: State, event: Event)
    requires SameButBindingLifetimes(f, k)
    ensures SameButBindingLifetimes(Emit(f, event), Emit(k, event))
  {
  }

  lemma FlagWritesAgree(f: State, k: State, token: Address, account: Address)
    requires SameButBindingLifetimes(f, k) && f.now == k.now
    ensures SameButBindingLifetimes(TouchFlag(f, token, account), TouchFlag(k, token, account))
    ensures SameButBindingLifetimes(PutFlag(f, token, account), PutFlag(k, token, account))
    ensures SameButBindingLifetimes(DropFlag(f, token, account), DropFlag(k, token, account))
  {
  }

  lemma FreezeGatesIgnoreLifetimes(f: State, k: State, token: Address, signers: set<Address>)
    requires SameButBindingLifetimes(f, k) && FreezeGates(f, token, signers) == Done
    ensures FreezeGates(k, token, signers) == if IsBound(k, token) then Done else Err(Rejection(UnboundToken))
    ensures IsBound(f, token)
  {
  }

  lemma SurvivingFreezeCall(f: State, k: State, call: Call, signers: set<Address>, oracle: Oracle)
    requires SameButBindingLifetimes(f, k) && f.now == k.now
    requires (call.Freeze? || call.Unfreeze?) && Apply(f, call, signers, oracle).1.Committed()
    ensures
      var alike := IsBound(f, call.token) == IsBound(k, call.token);
      && (alike <==> Apply(f, call, signers, oracle).1 == Apply(k, call, signers, oracle).1)
      && (alike ==> SameButBindingLifetimes(Apply(f, call, signers, oracle).0, Apply(k, call, signers, oracle).0))
  {
    FreezeGatesIgnoreLifetimes(f, k, call.token, signers);
    FreezeIgnoresLifetimes(f, k, call.token, call.account);
    if call.Freeze? {
      assert Apply(f, call, signers, oracle) == (ApplyFreeze(f, call.token, call.account), Done);
    } else {
      assert Apply(f, call, signers, oracle) == (ApplyUnfreeze(f, call.token, call.account), Done);
    }
  }

  /** One removed step. */
  lemma ErasedStep(full: State, kept: State, step: Step)
    requires SameButBindingLifetimes(full, kept) && full.now <= step.at && !Survives(full, step)
    ensures SameButBindingLifetimes(Exec(full, step).0, kept)
  {
  }

  /** One step, of the run in state `full` and of what is left of it in state `kept`. */
  lemma StepIsErasable(full: State, kept: State, step: Step)
    requires SameButBindingLifetimes(full, kept) && full.now <= step.at
    ensures
      var stays := Survives(full, step);
      var kept' := if stays then Exec(kept, step).0 else kept;
      var alike := stays ==> SeesAlike(full, kept, step);
      && (alike <==> Exec(full, step).0.log == kept'.log && (stays ==> Exec(full, step).1 == Exec(kept, step).1))
      && (alike ==> SameButBindingLifetimes(Exec(full, step).0, kept'))
  {
    if Survives(full, step) {
      SurvivingStep(full, kept, step);
    } else {
      ErasedStep(full, kept, step);
    }
  }

  /** Whether one more step stays unobservable. */
  lemma UnobservableGrows(s: State, steps: seq<Step>)
    requires steps != [] && Unobservable(s, steps[..|steps| - 1])
    ensures
      var n := |steps| - 1;
      var full, kept := Run(s, steps[..n]), Run(s, Survivors(s, steps[..n]));
      var stays := Survives(full, steps[n]);
      var kept' := if stays then Exec(kept, steps[n]).0 else kept;
      && Run(s, Survivors(s, steps)) == kept'
      && (Unobservable(s, steps) <==> Exec(full, steps[n]).0.log == kept'.log && (stays ==> Exec(full, steps[n]).1 == Exec(kept, steps[n]).1))
  {
    var n := |steps| - 1;
    SurvivorsGrow(s, steps);
    LastAnswers(Answers(s, Survivors(s, steps[..n])), Exec(Run(s, Survivors(s, steps[..n])), steps[n]).1,
                SurvivingAnswers(s, steps[..n]), Exec(Run(s, steps[..n]), steps[n]).1);
  }

  /** The same, said of a run and its last step. */
  lemma ErasureStep(s: State, steps: seq<Step>)
    requires steps != [] && Run(s, steps[..|steps| - 1]).now <= steps[|steps| - 1].at
    requires SameButBindingLifetimes(Run(s, steps[..|steps| - 1]), Run(s, Survivors(s, steps[..|steps| - 1])))
    requires Unobservable(s, steps[..|steps| - 1])
    ensures
      var n := |steps| - 1;
      var full, kept := Run(s, steps[..n]), Run(s, Survivors(s, steps[..n]));
      var alike := Survives(full, steps[n]) ==> SeesAlike(full, kept, steps[n]);
      && (alike <==> Unobservable(s, steps))
      && (alike ==> SameButBindingLifetimes(Run(s, steps), Run(s, Survivors(s, steps))))
  {
    var n := |steps| - 1;
    UnobservableGrows(s, steps);
    StepIsErasable(Run(s, steps[..n]), Run(s, Survivors(s, steps[..n])), steps[n]);
  }

  lemma {:induction false} SeenAlikeMeansSame(s: State, steps: seq<Step>)
    requires Ordered(s.now, steps) && BindingsSeenAlike(s, steps)
    ensures AlwaysUnobservable(s, steps)
    ensures SameButBindingLifetimes(Run(s, steps), Run(s, Survivors(s, steps)))
  {
    if steps != [] {
      SeenAlikeMeansSame(s, steps[..|steps| - 1]);
      RunClock(s, steps[..|steps| - 1]);
      ErasureStep(s, steps);
    }
  }

  lemma {:induction false} UnobservableMeansSeenAlike(s: State, steps: seq<Step>)
    requires Ordered(s.now, steps) && AlwaysUnobservable(s, steps)
    ensures BindingsSeenAlike(s, steps)
  {
    if steps != [] {
      UnobservableMeansSeenAlike(s, steps[..|steps| - 1]);
      SeenAlikeMeansSame(s, steps[..|steps| - 1]);
      RunClock(s, steps[..|steps| - 1]);
      ErasureStep(s, steps);
    }
  }

  /** Removing the hooks too is unobservable at every moment of the run if and
      only if, at every surviving step, the binding it reads has lapsed in both
      runs or in neither. The states then differ in binding lifetimes only. */
  lemma {:induction false} HooksAreErasable(s: State, steps: seq<Step>)
    requires Ordered(s.now, steps)
    ensures BindingsSeenAlike(s, steps) <==> AlwaysUnobservable(s, steps)
    ensures BindingsSeenAlike(s, steps) ==> SameButBindingLifetimes(Run(s, steps), Run(s, Survivors(s, steps)))
  {
    if BindingsSeenAlike(s, steps) {
      SeenAlikeMeansSame(s, steps);
    }
    if AlwaysUnobservable(s, steps) {
      UnobservableMeansSeenAlike(s, steps);
    }
  }

  lemma LastAnswers(a: seq<Answer>, x: Answer, b: seq<Answer>, y: Answer)
    requires a == b
    ensures a + [x] == b + [y] <==> x == y
  {
    assert (a + [x])[|a|] == x && (b + [y])[|a|] == y;
  }

  lemma {:induction false} KeptClock(s: State, steps: seq<Step>)
    ensures s.now <= Run(s, Survivors(s, steps)).now
    ensures Run(s, Survivors(s, steps)).grant == s.grant
  {
    if steps != [] {
      var n := |steps| - 1;
      KeptClock(s, steps[..n]);
      SurvivorsGrow(s, steps);
      var kept := Advance(Run(s, Survivors(s, steps[..n])), steps[n].at);
      ApplyKeepsClock(kept, steps[n].call, steps[n].signers, steps[n].oracle);
    }
  }

  /******* When bindings are read in time *******/

  /** A surviving call that reads the binding of a token. */
  predicate ReadsToken(call: Call, token: Address) {
    Leases.ReadsBinding(call, token) && !call.Enforce?
  }

  /** A call that binds, unbinds or reads a token. */
  predicate Uses(call: Call, token: Address) {
    ReadsToken(call, token) || call == UnbindToken(token)
  }

  /** The ledger by which a surviving call must use a token's binding again: the
      lifetime the binding started with, then the threshold after the last
      surviving read, whichever is later. */
  function Due(s: State, steps: seq<Step>, token: Address): nat {
    if steps == [] then (if token in s.bindings then s.bindings[token].liveUntil else 0)
    else
      var n := |steps| - 1;
      var before, due := Run(s, steps[..n]), Due(s, steps[..n], token);
      if !Survives(before, steps[n]) || !ReadsToken(steps[n].call, token) then due
      else if token in before.bindings then Max(due, steps[n].at + TTL_THRESHOLD)
      else steps[n].at + s.grant
  }

  function Max(a: nat, b: nat): nat {
    if a < b then b else a
  }

  /** Every surviving use of a stored binding comes by the ledger it is due. */
  ghost predicate UsedInTime(s: State, steps: seq<Step>) {
    steps == [] ||
    var n := |steps| - 1;
    var before := Run(s, steps[..n]);
    && UsedInTime(s, steps[..n])
    && (Survives(before, steps[n]) ==>
          forall token :: token in before.bindings && Uses(steps[n].call, token) ==> steps[n].at <= Due(s, steps[..n], token))
  }

  /** Every stored binding lives at least until it is due. */
  ghost predicate LivesUntilDue(x: State, s: State, steps: seq<Step>) {
    forall token :: token in x.bindings ==> Due(s, steps, token) <= x.bindings[token].liveUntil
  }

  /** No call shortens the lifetime of a binding, and a new binding gets the granted lifetime. */
  lemma BindingLifetimesGrow(s: State, call: Call, signers: set<Address>, oracle: Oracle, token: Address)
    requires token in Apply(s, call, signers, oracle).0.bindings
    ensures
      var after := Apply(s, call, signers, oracle).0.bindings[token].liveUntil;
      if token in s.bindings then s.bindings[token].liveUntil <= after
      else call.BindToken? && call.token == token && after == s.now + s.grant
  {
    if call.BindToken? {
      BindGrows(s, call.token, call.sac, token);
    } else if call.Freeze? || call.Unfreeze? {
      assert Apply(s, call, signers, oracle).0.bindings == TouchBinding(s, call.token).bindings || Apply(s, call, signers, oracle).0 == s;
    }
  }

  lemma BindGrows(s: State, bound: Address, sac: Option<Address>, token: Address)
    requires token in ApplyBind(s, bound, sac).bindings
    ensures
      var after := ApplyBind(s, bound, sac).bindings[token].liveUntil;
      if token in s.bindings then s.bindings[token].liveUntil <= after else bound == token && after == s.now + s.grant
  {
  }

  /** A surviving step, run in either state, leaves every binding alive until it is next due. */
  lemma SurvivorKeepsDue(x: State, s: State, steps: seq<Step>)
    requires steps != [] && x.now <= steps[|steps| - 1].at && x.grant == s.grant
    requires
      var n := |steps| - 1;
      var before := Run(s, steps[..n]);
      && LivesUntilDue(x, s, steps[..n]) && x.bindings.Keys == before.bindings.Keys
      && Survives(before, steps[n]) && UsedInTime(s, steps) && Exec(x, steps[n]).1.Committed()
    ensures LivesUntilDue(Exec(x, steps[|steps| - 1]).0, s, steps)
  {
    var n := |steps| - 1;
    var step, during := steps[n], Advance(x, steps[n].at);
    var after := Exec(x, step).0;
    forall token | token in after.bindings
      ensures Due(s, steps, token) <= after.bindings[token].liveUntil
    {
      BindingLifetimesGrow(during, step.call, step.signers, step.oracle, token);
      if token in x.bindings && ReadsToken(step.call, token) {
        Leases.CommittedReadRenews(during, step.call, step.signers, step.oracle, token);
      }
    }
  }

  /** Any other step leaves what is due as it was, and the bindings alive until then. */
  lemma ErasedKeepsDue(s: State, steps: seq<Step>)
    requires steps != [] && LivesUntilDue(Run(s, steps[..|steps| - 1]), s, steps[..|steps| - 1])
    requires !Survives(Run(s, steps[..|steps| - 1]), steps[|steps| - 1])
    ensures LivesUntilDue(Run(s, steps), s, steps)
  {
    var n := |steps| - 1;
    var during := Advance(Run(s, steps[..n]), steps[n].at);
    forall token | token in Run(s, steps).bindings
      ensures Due(s, steps, token) <= Run(s, steps).bindings[token].liveUntil
    {
      BindingLifetimesGrow(during, steps[n].call, steps[n].signers, steps[n].oracle, token);
      if !steps[n].call.Enforce? {
        RejectedCallsChangeNothing(during, steps[n].call, steps[n].signers, steps[n].oracle);
      }
    }
  }

  /** A use in time finds the binding live in both states or stored in neither. */
  lemma InTimeIsSeenAlike(full: State, kept: State, s: State, steps: seq<Step>)
    requires steps != [] && full == Run(s, steps[..|steps| - 1]) && full.now <= steps[|steps| - 1].at
    requires SameButBindingLifetimes(full, kept) && UsedInTime(s, steps)
    requires LivesUntilDue(full, s, steps[..|steps| - 1]) && LivesUntilDue(kept, s, steps[..|steps| - 1])
    ensures Survives(full, steps[|steps| - 1]) ==> SeesAlike(full, kept, steps[|steps| - 1])
  {
    var step := steps[|steps| - 1];
    if Survives(full, step) && NeedsLiveBinding(full, step.call) {
      assert Uses(step.call, step.call.token);
    }
  }

  /** For runs of any length: if every surviving call that uses a binding comes
      within the lifetime the binding started with, or within the renewal
      threshold of the last surviving read, then hooks and uncommitted calls can
      be removed unobservably. */
  lemma {:induction false} TimelyUseErasure(s: State, steps: seq<Step>)
    requires Ordered(s.now, steps) && UsedInTime(s, steps)
    ensures AlwaysUnobservable(s, steps)
    ensures SameButBindingLifetimes(Run(s, steps), Run(s, Survivors(s, steps)))
    ensures LivesUntilDue(Run(s, steps), s, steps) && LivesUntilDue(Run(s, Survivors(s, steps)), s, steps)
  {
    if steps != [] {
      var n := |steps| - 1;
      TimelyUseErasure(s, steps[..n]);
      RunClock(s, steps[..n]);
      KeptClock(s, steps[..n]);
      var full, kept := Run(s, steps[..n]), Run(s, Survivors(s, steps[..n]));
      InTimeIsSeenAlike(full, kept, s, steps);
      ErasureStep(s, steps);
      SurvivorsGrow(s, steps);
      TimelyStepKeepsDue(s, steps);
    }
  }

  lemma TimelyStepKeepsDue(s: State, steps: seq<Step>)
    requires steps != [] && UsedInTime(s, steps)
    requires
      var n := |steps| - 1;
      var full, kept := Run(s, steps[..n]), Run(s, Survivors(s, steps[..n]));
      && SameButBindingLifetimes(full, kept) && full.grant == s.grant
      && LivesUntilDue(full, s, steps[..n]) && LivesUntilDue(kept, s, steps[..n])
      && full.now <= steps[n].at && (Survives(full, steps[n]) ==> SeesAlike(full, kept, steps[n]))
    ensures LivesUntilDue(Run(s, steps), s, steps) && LivesUntilDue(Run(s, Survivors(s, steps)), s, steps)
  {
    var n := |steps| - 1;
    var full, kept := Run(s, steps[..n]), Run(s, Survivors(s, steps[..n]));
    SurvivorsGrow(s, steps);
    if Survives(full, steps[n]) {
      SurvivingStep(full, kept, steps[n]);
      SurvivorKeepsDue(full, s, steps);
      SurvivorKeepsDue(kept, s, steps);
    } else {
      ErasedKeepsDue(s, steps);
    }
  }

  /** In a fresh deployment every use within the lifetime of a new entry is in time. */
  lemma {:induction false} FreshUsesAreTimely(now: nat, grant: nat, steps: seq<Step>)
    requires Ordered(now, steps) && (steps != [] ==> steps[|steps| - 1].at <= now + grant)
    ensures UsedInTime(Fresh(now, grant), steps)
    ensures forall token :: token in Run(Fresh(now, grant), steps).bindings ==> now + grant <= Due(Fresh(now, grant), steps, token)
  {
    var s := Fresh(now, grant);
    if steps != [] {
      var n := |steps| - 1;
      FreshUsesAreTimely(now, grant, steps[..n]);
      RunClock(s, steps[..n]);
      var during := Advance(Run(s, steps[..n]), steps[n].at);
      forall token | token in Run(s, steps).bindings
        ensures now + grant <= Due(s, steps, token)
      {
        BindingLifetimesGrow(during, steps[n].call, steps[n].signers, steps[n].oracle, token);
        RejectedCallsChangeNothing(during, steps[n].call, steps[n].signers, steps[n].oracle);
      }
    }
  }

  /** So from a fresh deployment, for as long as the network keeps a new entry,
      hooks and uncommitted calls can be removed unobservably. */
  lemma {:induction false} FreshRunErasure(now: nat, grant: nat, steps: seq<Step>)
    requires Ordered(now, steps) && (steps != [] ==> steps[|steps| - 1].at <= now + grant)
    ensures AlwaysUnobservable(Fresh(now, grant), steps)
    ensures SameButBindingLifetimes(Run(Fresh(now, grant), steps), Run(Fresh(now, grant), Survivors(Fresh(now, grant), steps)))
    ensures Mirror.LivesThrough(Run(Fresh(now, grant), steps), now + grant)
    ensures Mirror.LivesThrough(Run(Fresh(now, grant), Survivors(Fresh(now, grant), steps)), now + grant)
  {
    FreshUsesAreTimely(now, grant, steps);
    TimelyUseErasure(Fresh(now, grant), steps);
    Mirror.FreshRunLives(now, grant, steps);
  }

  /******* What a hook does to a binding *******/

  /** Removing a hook is observable in general: whenever a hook is allowed in
      the last ledger of a binding, the token is still bound in the next ledger
      with the hook, and no longer bound without it. */
  lemma HookRenewalIsObservable(s: State, token: Address, hook: Hook, signers: set<Address>, oracle: Oracle)
    requires IsBound(s, token)
    requires Exec(s, Step(s.bindings[token].liveUntil, Enforce(token, hook), signers, oracle)).1 == Done
    ensures
      var last := s.bindings[token].liveUntil;
      var read := Step(last + 1, ReadBound(token), signers, oracle);
      && Exec(Exec(s, Step(last, Enforce(token, hook), signers, oracle)).0, read).1 == Flag(true)
      && Exec(s, read).1 == Flag(false)
  {
  }

  /** A hook can also end a binding sooner. It renews early, so the read in the
      next ledger finds nothing to renew: the binding then lapses one ledger
      before it would have without the hook. */
  lemma HookRenewalCanShorten(s: State, token: Address, hook: Hook, at: nat, signers: set<Address>, oracle: Oracle)
    requires token in s.bindings && s.now <= at < s.bindings[token].liveUntil <= at + TTL_THRESHOLD
    requires Exec(s, Step(at, Enforce(token, hook), signers, oracle)).1 == Done
    ensures
      var early := Step(at + 1, ReadBound(token), signers, oracle);
      var late := Step(at + 1 + TTL_EXTEND_TO, ReadBound(token), signers, oracle);
      var hooked := Exec(Exec(s, Step(at, Enforce(token, hook), signers, oracle)).0, early);
      var plain := Exec(s, early);
      && hooked.1 == plain.1 == Flag(true)
      && Exec(hooked.0, late).1 == Flag(false)
      && Exec(plain.0, late).1 == Flag(true)
  {
  }
}
