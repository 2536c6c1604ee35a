/** Lifetimes over runs: what keeps a binding in scope and a freeze flag in
    force, and how long a freeze lasts. */
module Leases {
  import opened HookCore
  import opened Ledger
  import opened Machine
  import Evaluator
  import Mirror

  /******* Bindings *******/

  /** A call that reads the binding of a token and does not remove it. */
  predicate ReadsBinding(call: Call, token: Address) {
    match call
    case BindToken(t, _) => t == token
    case Freeze(t, _) => t == token
    case Unfreeze(t, _) => t == token
    case Enforce(t, _) => t == token
    case ReadBound(t) => t == token
    case _ => false
  }

  /** A committed read leaves a live binding with at least the renewal threshold to live. */
  lemma CommittedReadRenews(s: State, call: Call, signers: set<Address>, oracle: Oracle, token: Address)
    requires IsBound(s, token) && ReadsBinding(call, token) && Apply(s, call, signers, oracle).1.Committed()
    ensures
      var s' := Apply(s, call, signers, oracle).0;
      token in s'.bindings && s.now + 501_120 <= s'.bindings[token].liveUntil
  {
  }

  lemma FreezesReadTheirBinding(s: State, token: Address, account: Address)
    ensures ApplyFreeze(s, token, account).bindings == TouchBinding(s, token).bindings
    ensures ApplyUnfreeze(s, token, account).bindings == TouchBinding(s, token).bindings
  {
  }

  lemma OtherBindingUntouched(s: State, other: Address, sac: Option<Address>, token: Address)
    requires token in s.bindings && other != token
    ensures token in TouchBinding(s, other).bindings && TouchBinding(s, other).bindings[token] == s.bindings[token]
    ensures token in ApplyBind(s, other, sac).bindings && ApplyBind(s, other, sac).bindings[token] == s.bindings[token]
    ensures token in ApplyUnbind(s, other).bindings && ApplyUnbind(s, other).bindings[token] == s.bindings[token]
  {
  }

  /** Every other call, except a committed unbind of the token, leaves the binding alone. */
  lemma {:induction false} OtherCallsKeepBinding(s: State, call: Call, signers: set<Address>, oracle: Oracle, token: Address)
    requires token in s.bindings && call != UnbindToken(token)
    requires ReadsBinding(call, token) ==> !Apply(s, call, signers, oracle).1.Committed()
    ensures
      var s' := Apply(s, call, signers, oracle).0;
      token in s'.bindings && s'.bindings[token] == s.bindings[token]
  {
    if !Apply(s, call, signers, oracle).1.Committed() {
      RejectedCallsChangeNothing(s, call, signers, oracle);
    } else if call.BindToken? || call.UnbindToken? || call.Freeze? || call.Unfreeze? || call.Enforce? || call.ReadBound? {
      OtherBindingUntouched(s, call.token, if call.BindToken? then call.sac else None, token);
      if call.Freeze? || call.Unfreeze? {
        FreezesReadTheirBinding(s, call.token, call.account);
      }
    }
  }

  predicate Feeds(s: State, step: Step, token: Address) {
    ReadsBinding(step.call, token) && Exec(s, step).1.Committed()
  }

  /** The ledger by which the binding must be read again: its initial lifetime,
      then the threshold after the last committed read. */
  function Deadline(s: State, steps: seq<Step>, token: Address): nat
    requires token in s.bindings
  {
    if steps == [] then s.bindings[token].liveUntil
    else
      var n := |steps| - 1;
      if Feeds(Run(s, steps[..n]), steps[n], token) then steps[n].at + TTL_THRESHOLD
      else Deadline(s, steps[..n], token)
  }

  /** Every committed read comes by its deadline, and no unbind of the token is committed. */
  ghost predicate FedInTime(s: State, steps: seq<Step>, token: Address)
    requires token in s.bindings
  {
    steps == [] ||
    var n := |steps| - 1;
    && FedInTime(s, steps[..n], token)
    && (Feeds(Run(s, steps[..n]), steps[n], token) ==> steps[n].at <= Deadline(s, steps[..n], token))
    && (steps[n].call == UnbindToken(token) ==> Exec(Run(s, steps[..n]), steps[n]).1 != Done)
  }

  /** A bound token that is read in time stays stored and lives at least to its next deadline. */
  lemma {:induction false} FedBindingLives(s: State, steps: seq<Step>, token: Address)
    requires Ordered(s.now, steps) && token in s.bindings && FedInTime(s, steps, token)
    ensures token in Run(s, steps).bindings
    ensures Deadline(s, steps, token) <= Run(s, steps).bindings[token].liveUntil
  {
    if steps != [] {
      var n := |steps| - 1;
      FedBindingLives(s, steps[..n], token);
      RunClock(s, steps[..n]);
      var during := Advance(Run(s, steps[..n]), steps[n].at);
      if Feeds(Run(s, steps[..n]), steps[n], token) {
        CommittedReadRenews(during, steps[n].call, steps[n].signers, steps[n].oracle, token);
      } else if steps[n].call == UnbindToken(token) {
        RejectedCallsChangeNothing(during, steps[n].call, steps[n].signers, steps[n].oracle);
      } else {
        OtherCallsKeepBinding(during, steps[n].call, steps[n].signers, steps[n].oracle, token);
      }
    }
  }

  /** Only an unbind takes a token out of scope: read in time, a token is still
      bound in every ledger up to the next deadline. */
  lemma {:induction false} ScopeIsKept(s: State, steps: seq<Step>, token: Address, at: nat)
    requires Ordered(s.now, steps) && token in s.bindings && FedInTime(s, steps, token)
    requires Run(s, steps).now <= at <= Deadline(s, steps, token)
    ensures IsBound(Advance(Run(s, steps), at), token)
  {
    FedBindingLives(s, steps, token);
  }

  /** No call on the token reads its binding to the end, and none unbinds it. */
  ghost predicate NeverRead(s: State, steps: seq<Step>, token: Address) {
    steps == [] ||
    var n := |steps| - 1;
    && NeverRead(s, steps[..n], token)
    && !Feeds(Run(s, steps[..n]), steps[n], token)
    && (steps[n].call == UnbindToken(token) ==> Exec(Run(s, steps[..n]), steps[n]).1 != Done)
  }

  /** Idle, a bound token falls out of scope exactly when its lifetime ends. */
  lemma {:induction false} IdleBindingLapses(s: State, steps: seq<Step>, token: Address, at: nat)
    requires token in s.bindings && NeverRead(s, steps, token) && Run(s, steps).now <= at
    ensures token in Run(s, steps).bindings && Run(s, steps).bindings[token] == s.bindings[token]
    ensures IsBound(Advance(Run(s, steps), at), token) <==> at <= s.bindings[token].liveUntil
  {
    if steps != [] {
      var n := |steps| - 1;
      var during := Advance(Run(s, steps[..n]), steps[n].at);
      ApplyKeepsClock(during, steps[n].call, steps[n].signers, steps[n].oracle);
      IdleBindingLapses(s, steps[..n], token, at);
      if steps[n].call == UnbindToken(token) {
        RejectedCallsChangeNothing(during, steps[n].call, steps[n].signers, steps[n].oracle);
      } else {
        OtherCallsKeepBinding(during, steps[n].call, steps[n].signers, steps[n].oracle, token);
      }
    }
  }

  /******* Freeze flags *******/

  /** The calls that renew a flag: a repeated freeze and a read of the flag. */
  predicate RenewsFlag(call: Call, h: Holding) {
    call == Freeze(h.token, h.account) || call == ReadFrozen(h.token, h.account)
  }

  /** A hook call never renews a flag: if it found one on a fund-holder it was
      denied, and the renewal was discarded with it. */
  lemma HooksNeverRenewFlags(s: State, token: Address, hook: Hook, signers: set<Address>, oracle: Oracle)
    ensures
      var (s', answer) := Apply(s, Enforce(token, hook), signers, oracle);
      && s'.flags == s.flags
      && (answer.Committed() ==> forall p :: 0 <= p < |HookParties(hook)| && HoldsFunds(Parties(HookOperation(hook))[p]) ==>
            !IsFrozen(s, token, HookParties(hook)[p]))
  {
    if Apply(s, Enforce(token, hook), signers, oracle).1.Committed() {
      forall p: nat | p < |HookParties(hook)| && HoldsFunds(Parties(HookOperation(hook))[p])
        ensures !IsFrozen(s, token, HookParties(hook)[p])
      {
        Evaluator.AllowedMeansNotFrozen(s, token, HookOperation(hook), HookParties(hook), oracle, [], p);
      }
    }
  }

  /** No call but a freeze, a read or an unfreeze of the holding touches its flag. */
  lemma OtherCallsKeepFlag(s: State, call: Call, signers: set<Address>, oracle: Oracle, h: Holding)
    requires !RenewsFlag(call, h) && call != Unfreeze(h.token, h.account)
    ensures
      var s' := Apply(s, call, signers, oracle).0;
      && (h in s'.flags <==> h in s.flags)
      && (h in s.flags ==> s'.flags[h] == s.flags[h])
  {
  }

  lemma CommittedRenewal(s: State, call: Call, signers: set<Address>, oracle: Oracle, h: Holding)
    requires IsFrozen(s, h.token, h.account) && RenewsFlag(call, h) && Apply(s, call, signers, oracle).1.Committed()
    ensures
      var s' := Apply(s, call, signers, oracle).0;
      h in s'.flags && s.now + 501_120 <= s'.flags[h]
  {
  }

  /** What a committed read does to a live entry, in ledgers: with at most 29
      days left it lives on for exactly 30, with more it is left as it is. */
  predicate RenewedInNumbers(now: nat, before: nat, after: nat) {
    after == if before <= now + 501_120 then now + 518_400 else before
  }

  /** Every live binding and every live flag that the committed call reads is
      renewed, and what it writes anew lives for the granted lifetime. */
  ghost predicate RenewsInNumbers(s: State, call: Call, answer: Answer, s': State) {
    && (forall token :: answer.Committed() && ReadsBinding(call, token) && IsBound(s, token) ==>
          token in s'.bindings && RenewedInNumbers(s.now, s.bindings[token].liveUntil, s'.bindings[token].liveUntil))
    && (forall h :: answer.Committed() && RenewsFlag(call, h) && IsFrozen(s, h.token, h.account) ==>
          h in s'.flags && RenewedInNumbers(s.now, s.flags[h], s'.flags[h]))
    && (answer.Committed() && call.BindToken? && !IsBound(s, call.token) ==>
          call.token in s'.bindings && s'.bindings[call.token] == Binding(call.sac, s.now + s.grant))
    && (answer.Committed() && call.Freeze? && !IsFrozen(s, call.token, call.account) ==>
          Holding(call.token, call.account) in s'.flags && s'.flags[Holding(call.token, call.account)] == s.now + s.grant)
  }

  lemma BindingRenewsInNumbers(s: State, call: Call, signers: set<Address>, oracle: Oracle, token: Address)
    requires IsBound(s, token) && ReadsBinding(call, token) && Apply(s, call, signers, oracle).1.Committed()
    ensures
      var s' := Apply(s, call, signers, oracle).0;
      token in s'.bindings && RenewedInNumbers(s.now, s.bindings[token].liveUntil, s'.bindings[token].liveUntil)
  {
  }

  lemma FlagRenewsInNumbers(s: State, call: Call, signers: set<Address>, oracle: Oracle, h: Holding)
    requires IsFrozen(s, h.token, h.account) && RenewsFlag(call, h) && Apply(s, call, signers, oracle).1.Committed()
    ensures
      var s' := Apply(s, call, signers, oracle).0;
      h in s'.flags && RenewedInNumbers(s.now, s.flags[h], s'.flags[h])
  {
  }

  /** The lifetimes of everything a call reads, in ledgers. */
  lemma ReadsRenewInNumbers(s: State, call: Call, signers: set<Address>, oracle: Oracle)
    ensures RenewsInNumbers(s, call, Apply(s, call, signers, oracle).1, Apply(s, call, signers, oracle).0)
  {
    if Apply(s, call, signers, oracle).1.Committed() {
      forall token | ReadsBinding(call, token) && IsBound(s, token)
        ensures
          var s' := Apply(s, call, signers, oracle).0;
          token in s'.bindings && RenewedInNumbers(s.now, s.bindings[token].liveUntil, s'.bindings[token].liveUntil)
      {
        BindingRenewsInNumbers(s, call, signers, oracle, token);
      }
      forall h | RenewsFlag(call, h) && IsFrozen(s, h.token, h.account)
        ensures
          var s' := Apply(s, call, signers, oracle).0;
          h in s'.flags && RenewedInNumbers(s.now, s.flags[h], s'.flags[h])
      {
        FlagRenewsInNumbers(s, call, signers, oracle, h);
      }
    }
  }

  predicate FeedsFlag(s: State, step: Step, h: Holding) {
    RenewsFlag(step.call, h) && Exec(s, step).1.Committed()
  }

  function FlagDeadline(s: State, steps: seq<Step>, h: Holding): nat
    requires h in s.flags
  {
    if steps == [] then s.flags[h]
    else
      var n := |steps| - 1;
      if FeedsFlag(Run(s, steps[..n]), steps[n], h) then steps[n].at + TTL_THRESHOLD
      else FlagDeadline(s, steps[..n], h)
  }

  ghost predicate FlagFedInTime(s: State, steps: seq<Step>, h: Holding)
    requires h in s.flags
  {
    steps == [] ||
    var n := |steps| - 1;
    && FlagFedInTime(s, steps[..n], h)
    && (FeedsFlag(Run(s, steps[..n]), steps[n], h) ==> steps[n].at <= FlagDeadline(s, steps[..n], h))
    && (steps[n].call == Unfreeze(h.token, h.account) ==> Exec(Run(s, steps[..n]), steps[n]).1 != Done)
  }

  /** A flag that is frozen again or read in time lives at least to its next
      deadline, whatever hooks, unbinds and configuration rewrites happen. */
  lemma {:induction false} FedFlagLives(s: State, steps: seq<Step>, h: Holding)
    requires Ordered(s.now, steps) && h in s.flags && FlagFedInTime(s, steps, h)
    ensures h in Run(s, steps).flags
    ensures FlagDeadline(s, steps, h) <= Run(s, steps).flags[h]
  {
    if steps != [] {
      var n := |steps| - 1;
      FedFlagLives(s, steps[..n], h);
      RunClock(s, steps[..n]);
      var during := Advance(Run(s, steps[..n]), steps[n].at);
      if FeedsFlag(Run(s, steps[..n]), steps[n], h) {
        CommittedRenewal(during, steps[n].call, steps[n].signers, steps[n].oracle, h);
      } else if RenewsFlag(steps[n].call, h) || steps[n].call == Unfreeze(h.token, h.account) {
        RejectedCallsChangeNothing(during, steps[n].call, steps[n].signers, steps[n].oracle);
      } else {
        OtherCallsKeepFlag(during, steps[n].call, steps[n].signers, steps[n].oracle, h);
      }
    }
  }

  /** Fed in time, a frozen account is still frozen in every ledger up to the next deadline. */
  lemma {:induction false} FreezeIsKept(s: State, steps: seq<Step>, h: Holding, at: nat)
    requires Ordered(s.now, steps) && h in s.flags && FlagFedInTime(s, steps, h)
    requires Run(s, steps).now <= at <= FlagDeadline(s, steps, h)
    ensures IsFrozen(Advance(Run(s, steps), at), h.token, h.account)
  {
    FedFlagLives(s, steps, h);
  }

  /******* Frozen until unfrozen *******/

  /** Step `i` froze the holding and no later step unfroze it. */
  ghost predicate StandsSince(steps: seq<Step>, answers: seq<Answer>, i: nat, h: Holding)
    requires |answers| == |steps|
  {
    && i < |steps| && steps[i].call == Freeze(h.token, h.account) && answers[i] == Done
    && (forall j :: i < j < |steps| && steps[j].call == Unfreeze(h.token, h.account) ==> answers[j] != Done)
  }

  /** Some successful freeze of the holding has no later successful unfreeze. */
  ghost predicate FreezeStands(steps: seq<Step>, answers: seq<Answer>, h: Holding)
    requires |answers| == |steps|
  {
    exists i: nat :: StandsSince(steps, answers, i, h)
  }

  /** How one more step changes whether a freeze stands. */
  lemma FreezeStandsStep(steps: seq<Step>, answers: seq<Answer>, step: Step, answer: Answer, h: Holding)
    requires |answers| == |steps|
    ensures FreezeStands(steps + [step], answers + [answer], h) <==>
      (step.call == Freeze(h.token, h.account) && answer == Done)
      || (FreezeStands(steps, answers, h) && !(step.call == Unfreeze(h.token, h.account) && answer == Done))
  {
    var n, steps', answers' := |steps|, steps + [step], answers + [answer];
    if step.call == Freeze(h.token, h.account) && answer == Done {
      assert StandsSince(steps', answers', n, h);
    }
    if i: nat :| StandsSince(steps, answers, i, h) && !(step.call == Unfreeze(h.token, h.account) && answer == Done) {
      assert StandsSince(steps', answers', i, h);
    }
    if i: nat :| i < n && StandsSince(steps', answers', i, h) {
      assert steps'[n] == step && answers'[n] == answer;
      assert forall j :: 0 <= j < n ==> steps'[j] == steps[j] && answers'[j] == answers[j];
      assert StandsSince(steps, answers, i, h);
    }
  }

  /** A freeze that stands has its flag stored, and it is in force until that flag lapses. */
  ghost predicate InForceUntilLapse(s: State, stands: bool, h: Holding) {
    && (stands ==> h in s.flags)
    && (IsFrozen(s, h.token, h.account) <==> stands && s.now <= s.flags[h])
  }

  lemma FreezeStep(s: State, call: Call, signers: set<Address>, oracle: Oracle, stands: bool, h: Holding)
    requires InForceUntilLapse(s, stands, h)
    ensures
      var (s', answer) := Apply(s, call, signers, oracle);
      var froze := call == Freeze(h.token, h.account) && answer == Done;
      var thawed := call == Unfreeze(h.token, h.account) && answer == Done;
      InForceUntilLapse(s', froze || (stands && !thawed), h)
  {
  }

  /** Frozen until unfrozen or lapsed. In every run from a fresh deployment, and
      in every later ledger, an account is frozen if and only if some successful
      freeze of it has no later successful unfreeze and its stored flag has not
      lapsed, whatever unbinds, rebinds and configuration rewrites intervene. */
  lemma {:induction false} FrozenUntilUnfrozen(now: nat, grant: nat, steps: seq<Step>, h: Holding, at: nat)
    ensures
      var s := Advance(Run(Fresh(now, grant), steps), at);
      var stands := FreezeStands(steps, Answers(Fresh(now, grant), steps), h);
      && (stands ==> h in s.flags)
      && (IsFrozen(s, h.token, h.account) <==> stands && s.now <= s.flags[h])
  {
    var s := Fresh(now, grant);
    if steps != [] {
      var n := |steps| - 1;
      FrozenUntilUnfrozen(now, grant, steps[..n], h, steps[n].at);
      assert steps == steps[..n] + [steps[n]];
      FreezeStandsStep(steps[..n], Answers(s, steps[..n]), steps[n], Exec(Run(s, steps[..n]), steps[n]).1, h);
      FreezeStep(Advance(Run(s, steps[..n]), steps[n].at), steps[n].call, steps[n].signers, steps[n].oracle,
                 FreezeStands(steps[..n], Answers(s, steps[..n]), h), h);
    }
  }

  /** While an account is frozen on a token, no hook on the token with the account in a fund-holding role succeeds. */
  lemma {:induction false} FrozenPartyIsRefused(s: State, token: Address, hook: Hook, signers: set<Address>, oracle: Oracle, p: nat)
    requires p < |HookParties(hook)| && HoldsFunds(Parties(HookOperation(hook))[p])
    requires IsFrozen(s, token, HookParties(hook)[p])
    ensures Apply(s, Enforce(token, hook), signers, oracle).0 == s
    ensures Apply(s, Enforce(token, hook), signers, oracle).1.Err?
  {
    HooksNeverRenewFlags(s, token, hook, signers, oracle);
  }

  /******* Frozen until the flag lapses *******/

  /** No call renews the flag of the holding, and none unfreezes it. */
  ghost predicate NeverFed(s: State, steps: seq<Step>, h: Holding) {
    steps == [] ||
    var n := |steps| - 1;
    && NeverFed(s, steps[..n], h)
    && !FeedsFlag(Run(s, steps[..n]), steps[n], h)
    && (steps[n].call == Unfreeze(h.token, h.account) ==> Exec(Run(s, steps[..n]), steps[n]).1 != Done)
  }

  /** A flag that nothing renews lapses when its lifetime ends, whatever else happens. */
  lemma {:induction false} UnfedFlagLapses(s: State, steps: seq<Step>, h: Holding, at: nat)
    requires h in s.flags && NeverFed(s, steps, h) && Run(s, steps).now <= at
    ensures h in Run(s, steps).flags && Run(s, steps).flags[h] == s.flags[h]
    ensures IsFrozen(Advance(Run(s, steps), at), h.token, h.account) <==> at <= s.flags[h]
  {
    if steps != [] {
      var n := |steps| - 1;
      var during := Advance(Run(s, steps[..n]), steps[n].at);
      ApplyKeepsClock(during, steps[n].call, steps[n].signers, steps[n].oracle);
      UnfedFlagLapses(s, steps[..n], h, at);
      if RenewsFlag(steps[n].call, h) || steps[n].call == Unfreeze(h.token, h.account) {
        RejectedCallsChangeNothing(during, steps[n].call, steps[n].signers, steps[n].oracle);
      } else {
        OtherCallsKeepFlag(during, steps[n].call, steps[n].signers, steps[n].oracle, h);
      }
    }
  }

  /** Traffic alone does not keep a freeze in force. However often hooks are
      called on a frozen account, the account thaws exactly when the lifetime
      its flag had at the start ends. */
  lemma {:induction false} TrafficNeverKeepsAFreeze(s: State, steps: seq<Step>, h: Holding, at: nat)
    requires h in s.flags && (forall i :: 0 <= i < |steps| ==> steps[i].call.Enforce?) && Run(s, steps).now <= at
    ensures IsFrozen(Advance(Run(s, steps), at), h.token, h.account) <==> at <= s.flags[h]
  {
    HooksNeverFeed(s, steps, h);
    UnfedFlagLapses(s, steps, h, at);
  }

  lemma {:induction false} HooksNeverFeed(s: State, steps: seq<Step>, h: Holding)
    requires forall i :: 0 <= i < |steps| ==> steps[i].call.Enforce?
    ensures NeverFed(s, steps, h)
  {
    if steps != [] {
      HooksNeverFeed(s, steps[..|steps| - 1], h);
    }
  }

  lemma RunSnoc(s: State, steps: seq<Step>, step: Step)
    ensures Run(s, steps + [step]) == Exec(Run(s, steps), step).0
    ensures Answers(s, steps + [step]) == Answers(s, steps) + [Exec(Run(s, steps), step).1]
  {
    assert (steps + [step])[..|steps|] == steps;
  }

  /** A deployment without a policy whose only frozen account is the only one ever asked about. */
  function FreezeScript(grant: nat, admin: Address, token: Address, account: Address, oracle: Oracle): seq<Step> {
    [Step(0, Initialize(admin), {admin}, oracle)]
    + [Step(0, SetConfig(ComplianceConfig(None, false)), {admin}, oracle)]
    + [Step(0, BindToken(token, None), {admin}, oracle)]
    + [Step(0, Freeze(token, account), {admin}, oracle)]
    + [Step(grant, ReadBound(token), {}, oracle)]
  }

  lemma SetupResult(grant: nat, admin: Address, oracle: Oracle)
    ensures
      var first := Exec(Fresh(0, grant), Step(0, Initialize(admin), {admin}, oracle)).0;
      var s := Exec(first, Step(0, SetConfig(ComplianceConfig(None, false)), {admin}, oracle)).0;
      && s.now == 0 && s.grant == grant && s.admin == Some(admin) && s.config == Some(ComplianceConfig(None, false))
      && s.bindings == map[] && s.flags == map[]
  {
  }

  lemma BindAndFreezeResult(s: State, admin: Address, token: Address, account: Address, oracle: Oracle)
    requires s.now == 0 && s.admin == Some(admin) && s.config.Some? && s.bindings == map[] && s.flags == map[]
    ensures
      var bound := Exec(s, Step(0, BindToken(token, None), {admin}, oracle)).0;
      var frozen := Exec(bound, Step(0, Freeze(token, account), {admin}, oracle)).0;
      && frozen.now == 0 && frozen.config == s.config && frozen.admin == s.admin
      && token in frozen.bindings && s.grant <= frozen.bindings[token].liveUntil
      && Holding(token, account) in frozen.flags && frozen.flags[Holding(token, account)] == s.grant
  {
    var bound := Exec(s, Step(0, BindToken(token, None), {admin}, oracle)).0;
    assert bound == Emit(PutBinding(s, token, None), TokenBound(token));
  }

  lemma RunOfFive(s: State, s1: Step, s2: Step, s3: Step, s4: Step, s5: Step)
    ensures Run(s, [s1] + [s2] + [s3] + [s4] + [s5]) == Exec(Exec(Exec(Exec(Exec(s, s1).0, s2).0, s3).0, s4).0, s5).0
  {
    RunSnoc(s, [], s1);
    RunSnoc(s, [s1], s2);
    RunSnoc(s, [s1] + [s2], s3);
    RunSnoc(s, [s1] + [s2] + [s3], s4);
    RunSnoc(s, [s1] + [s2] + [s3] + [s4], s5);
    assert [] + [s1] == [s1];
  }

  lemma FreezeScriptResult(grant: nat, admin: Address, token: Address, account: Address, oracle: Oracle)
    ensures
      var s := Run(Fresh(0, grant), FreezeScript(grant, admin, token, account, oracle));
      && s.now == grant && s.admin == Some(admin) && s.config == Some(ComplianceConfig(None, false))
      && IsBound(s, token) && s.now + 1 <= s.bindings[token].liveUntil
      && Holding(token, account) in s.flags && s.flags[Holding(token, account)] == grant
  {
    var s1 := Step(0, Initialize(admin), {admin}, oracle);
    var s2 := Step(0, SetConfig(ComplianceConfig(None, false)), {admin}, oracle);
    var s3 := Step(0, BindToken(token, None), {admin}, oracle);
    var s4 := Step(0, Freeze(token, account), {admin}, oracle);
    var s5 := Step(grant, ReadBound(token), {}, oracle);
    RunOfFive(Fresh(0, grant), s1, s2, s3, s4, s5);
    SetupResult(grant, admin, oracle);
    BindAndFreezeResult(Exec(Exec(Fresh(0, grant), s1).0, s2).0, admin, token, account, oracle);
  }

  /** In the last ledger of a flag its account is refused, and in the next it is not. */
  lemma ThawsNextLedger(s: State, token: Address, account: Address, oracle: Oracle)
    requires Stable(oracle) && s.config == Some(ComplianceConfig(None, false))
    requires token in s.bindings && s.now + 1 <= s.bindings[token].liveUntil
    requires Holding(token, account) in s.flags && s.flags[Holding(token, account)] == s.now
    ensures Exec(s, Step(s.now, Enforce(token, BeforeRegister(account)), {}, oracle)) == (s, Err(Rejection(RejectionReason.AccountFrozen)))
    ensures Exec(s, Step(s.now + 1, Enforce(token, BeforeRegister(account)), {}, oracle)).1 == Done
  {
    assert Advance(s, s.now) == s;
    Mirror.HookIsPredicted(s, token, BeforeRegister(account), oracle);
    var next := Advance(s, s.now + 1);
    Mirror.HookIsPredicted(next, token, BeforeRegister(account), oracle);
    assert Mirror.Scan(Mirror.Abs(next), s.config.value, token, [true][1..], [account][1..], oracle) == Done;
  }

  /** An instance: a registration of the frozen account is refused in the last
      ledger of its flag and allowed in the next, and nobody unfroze it. */
  lemma ProbedFreezeThaws(grant: nat, admin: Address, token: Address, account: Address, oracle: Oracle)
    requires Stable(oracle)
    ensures
      var hook := Enforce(token, BeforeRegister(account));
      var s := Run(Fresh(0, grant), FreezeScript(grant, admin, token, account, oracle));
      && Exec(s, Step(grant, hook, {}, oracle)).1 == Err(Rejection(RejectionReason.AccountFrozen))
      && Exec(Exec(s, Step(grant, hook, {}, oracle)).0, Step(grant + 1, hook, {}, oracle)).1 == Done
  {
    FreezeScriptResult(grant, admin, token, account, oracle);
    ThawsNextLedger(Run(Fresh(0, grant), FreezeScript(grant, admin, token, account, oracle)), token, account, oracle);
  }
}
