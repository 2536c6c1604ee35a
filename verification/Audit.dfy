/** What the append-only event log tells about the stored state, over every run. */
module Audit {
  import opened HookCore
  import opened Ledger
  import opened Machine
  import Leases
  import Mirror

  /** The state an auditor reconstructs from the log alone. */
  datatype Record = Record(
    admin: Option<Address>,
    bound: set<Address>,
    frozen: set<Holding>,
    config: Option<ComplianceConfig>,
    rewrites: nat)

  function Observe(r: Record, event: Event): Record {
    match event
    case Initialized(admin) => r.(admin := Some(admin))
    case AccountFrozen(token, account) => r.(frozen := r.frozen + {Holding(token, account)})
    case AccountUnfrozen(token, account) => r.(frozen := r.frozen - {Holding(token, account)})
    case TokenBound(token) => r.(bound := r.bound + {token})
    case TokenUnbound(token) => r.(bound := r.bound - {token})
    case ComplianceConfigChanged(config) => r.(config := Some(config), rewrites := r.rewrites + 1)
  }

  function Replay(log: seq<Event>): Record {
    if log == [] then Record(None, {}, {}, None, 0)
    else Observe(Replay(log[..|log| - 1]), log[|log| - 1])
  }

  /** The record of what a state stores, live or lapsed. */
  function Stored(s: State): Record {
    Record(s.admin, s.bindings.Keys, s.flags.Keys, s.config, s.version.GetOr(0))
  }

  /** `Initialized` is the first event and occurs once. */
  predicate InitializedFirst(log: seq<Event>) {
    forall i :: 0 <= i < |log| ==> (log[i].Initialized? <==> i == 0)
  }

  /** Two configuration events with none between them differ. */
  ghost predicate ConfigEventsDiffer(log: seq<Event>) {
    forall i, j :: 0 <= i < j < |log| && log[i].ComplianceConfigChanged? && log[j].ComplianceConfigChanged?
      && (forall k :: i < k < j ==> !log[k].ComplianceConfigChanged?)
      ==> log[i] != log[j]
  }

  /** Everything the log says about a state. */
  ghost predicate Audited(s: State) {
    && Replay(s.log) == Stored(s)
    && InitializedFirst(s.log)
    && ConfigEventsDiffer(s.log)
    && (s.admin.None? <==> s.log == [])
    && (s.admin.None? ==> s.config.None?)
    && (s.config.None? <==> s.version.GetOr(0) == 0)
  }

  lemma ReplayAppend(log: seq<Event>, event: Event)
    ensures Replay(log + [event]) == Observe(Replay(log), event)
  {
    assert (log + [event])[..|log|] == log;
  }

  /** The last configuration event is the one the record holds. */
  lemma {:induction false} LastConfigEvent(log: seq<Event>, i: nat)
    requires i < |log| && log[i].ComplianceConfigChanged?
    requires forall k :: i < k < |log| ==> !log[k].ComplianceConfigChanged?
    ensures Replay(log).config == Some(log[i].config)
  {
    var n := |log| - 1;
    if i < n {
      LastConfigEvent(log[..n], i);
    }
  }

  lemma {:induction false} ConfigAppendDiffers(log: seq<Event>, config: ComplianceConfig)
    requires ConfigEventsDiffer(log) && Replay(log).config != Some(config)
    ensures ConfigEventsDiffer(log + [ComplianceConfigChanged(config)])
  {
    var log' := log + [ComplianceConfigChanged(config)];
    forall i, j | 0 <= i < j < |log'| && log'[i].ComplianceConfigChanged? && log'[j].ComplianceConfigChanged?
      && (forall k :: i < k < j ==> !log'[k].ComplianceConfigChanged?)
      ensures log'[i] != log'[j]
    {
      if j == |log| {
        assert forall k :: i < k < |log| ==> log[k] == log'[k];
        LastConfigEvent(log, i);
      } else {
        assert forall k :: i < k < j ==> log[k] == log'[k];
      }
    }
  }

  /** Events of other kinds keep the order of configuration events. */
  lemma {:induction false} OtherAppendKeepsConfigs(log: seq<Event>, event: Event)
    requires ConfigEventsDiffer(log) && !event.ComplianceConfigChanged?
    ensures ConfigEventsDiffer(log + [event])
  {
    var log' := log + [event];
    forall i, j | 0 <= i < j < |log'| && log'[i].ComplianceConfigChanged? && log'[j].ComplianceConfigChanged?
      && (forall k :: i < k < j ==> !log'[k].ComplianceConfigChanged?)
      ensures log'[i] != log'[j]
    {
      assert forall k :: i < k < j ==> log[k] == log'[k];
    }
  }

  /** The event a call publishes in a state, if it publishes one. */
  function Published(s: State, call: Call, signers: set<Address>, oracle: Oracle): Option<Event> {
    if !Apply(s, call, signers, oracle).1.Committed() then None
    else
      match call
      case Initialize(admin) => Some(Initialized(admin))
      case SetConfig(config) => if s.config == Some(config) then None else Some(ComplianceConfigChanged(config))
      case BindToken(token, sac) => if IsBound(s, token) && s.bindings[token].sac == sac then None else Some(TokenBound(token))
      case UnbindToken(token) => if IsBound(s, token) then Some(TokenUnbound(token)) else None
      case Freeze(token, account) => if IsFrozen(s, token, account) then None else Some(Event.AccountFrozen(token, account))
      case Unfreeze(token, account) => if IsFrozen(s, token, account) then Some(AccountUnfrozen(token, account)) else None
      case _ => None
  }

  /** Every call appends its one event, or nothing. */
  lemma CallPublishes(s: State, call: Call, signers: set<Address>, oracle: Oracle)
    ensures
      var event := Published(s, call, signers, oracle);
      Apply(s, call, signers, oracle).0.log == s.log + (if event.Some? then [event.value] else [])
  {
  }

  lemma ScopeChanges(s: State, token: Address, sac: Option<Address>)
    ensures Stored(ApplyBind(s, token, sac)) == Stored(s).(bound := Stored(s).bound + {token})
    ensures Stored(ApplyUnbind(s, token)) == if IsBound(s, token) then Stored(s).(bound := Stored(s).bound - {token}) else Stored(s)
  {
    assert ApplyBind(s, token, sac).bindings.Keys == s.bindings.Keys + {token};
    assert IsBound(s, token) ==> ApplyUnbind(s, token).bindings.Keys == s.bindings.Keys - {token};
  }

  lemma FreezeChanges(s: State, token: Address, account: Address)
    ensures Stored(ApplyFreeze(s, token, account)) == Stored(s).(frozen := Stored(s).frozen + {Holding(token, account)})
    ensures Stored(ApplyUnfreeze(s, token, account)) ==
      if IsFrozen(s, token, account) then Stored(s).(frozen := Stored(s).frozen - {Holding(token, account)}) else Stored(s)
  {
    assert ApplyFreeze(s, token, account).bindings.Keys == s.bindings.Keys;
    assert ApplyUnfreeze(s, token, account).bindings.Keys == s.bindings.Keys;
    assert ApplyFreeze(s, token, account).flags.Keys == s.flags.Keys + {Holding(token, account)};
    assert IsFrozen(s, token, account) ==> ApplyUnfreeze(s, token, account).flags.Keys == s.flags.Keys - {Holding(token, account)};
  }

  lemma ReadsChangeNothingStored(s: State, token: Address, account: Address)
    ensures Stored(TouchBinding(s, token)) == Stored(s)
    ensures Stored(TouchFlag(s, token, account)) == Stored(s)
  {
    assert TouchBinding(s, token).bindings.Keys == s.bindings.Keys;
    assert TouchFlag(s, token, account).flags.Keys == s.flags.Keys;
  }

  /** A call changes the stored state as its published event says, and not at all without one. */
  ghost predicate ChangesAsPublished(s: State, call: Call, signers: set<Address>, oracle: Oracle) {
    var event := Published(s, call, signers, oracle);
    Stored(Apply(s, call, signers, oracle).0) == if event.Some? then Observe(Stored(s), event.value) else Stored(s)
  }

  lemma ScopeCallPublishes(s: State, call: Call, signers: set<Address>, oracle: Oracle)
    requires call.BindToken? || call.UnbindToken?
    ensures ChangesAsPublished(s, call, signers, oracle)
  {
    ScopeChanges(s, call.token, if call.BindToken? then call.sac else None);
    if IsBound(s, call.token) {
      assert Stored(s).bound + {call.token} == Stored(s).bound;
    }
  }

  lemma FreezeCallPublishes(s: State, call: Call, signers: set<Address>, oracle: Oracle)
    requires call.Freeze? || call.Unfreeze?
    ensures ChangesAsPublished(s, call, signers, oracle)
  {
    FreezeChanges(s, call.token, call.account);
    if IsFrozen(s, call.token, call.account) {
      assert Stored(s).frozen + {Holding(call.token, call.account)} == Stored(s).frozen;
    }
  }

  lemma OtherCallPublishes(s: State, call: Call, signers: set<Address>, oracle: Oracle)
    requires !call.BindToken? && !call.UnbindToken? && !call.Freeze? && !call.Unfreeze?
    ensures ChangesAsPublished(s, call, signers, oracle)
  {
    if call.Enforce? || call.ReadBound? || call.ReadFrozen? {
      ReadsChangeNothingStored(s, call.token, if call.ReadFrozen? then call.account else call.token);
    }
  }

  /** The stored state changes exactly as the published event says, and not at all without one. */
  lemma {:induction false} CallChangesWhatItPublishes(s: State, call: Call, signers: set<Address>, oracle: Oracle)
    ensures ChangesAsPublished(s, call, signers, oracle)
  {
    if call.BindToken? || call.UnbindToken? {
      ScopeCallPublishes(s, call, signers, oracle);
    } else if call.Freeze? || call.Unfreeze? {
      FreezeCallPublishes(s, call, signers, oracle);
    } else {
      OtherCallPublishes(s, call, signers, oracle);
    }
  }

  /** What the log already says when an event is published. */
  lemma PublishedFacts(s: State, call: Call, signers: set<Address>, oracle: Oracle)
    requires s.admin.None? ==> s.log == [] && s.config.None?
    requires s.admin.Some? ==> s.log != []
    ensures
      var event := Published(s, call, signers, oracle);
      event.Some? ==>
        && (event.value.Initialized? <==> s.log == [])
        && (event.value.ComplianceConfigChanged? ==> s.config != Some(event.value.config))
  {
  }

  lemma AppendKeepsAudited(s: State, s': State, event: Event)
    requires Audited(s) && s'.log == s.log + [event] && Stored(s') == Observe(Stored(s), event)
    requires event.Initialized? <==> s.log == []
    requires event.ComplianceConfigChanged? ==> s.config != Some(event.config)
    ensures Audited(s')
  {
    ReplayAppend(s.log, event);
    if event.ComplianceConfigChanged? {
      ConfigAppendDiffers(s.log, event.config);
    } else {
      OtherAppendKeepsConfigs(s.log, event);
    }
  }

  lemma {:induction false} CallKeepsAudited(s: State, call: Call, signers: set<Address>, oracle: Oracle)
    requires Audited(s)
    ensures Audited(Apply(s, call, signers, oracle).0)
  {
    CallPublishes(s, call, signers, oracle);
    CallChangesWhatItPublishes(s, call, signers, oracle);
    PublishedFacts(s, call, signers, oracle);
    var s', event := Apply(s, call, signers, oracle).0, Published(s, call, signers, oracle);
    if event.Some? {
      AppendKeepsAudited(s, s', event.value);
    } else {
      SilentKeepsAudited(s, s');
    }
  }

  lemma SilentKeepsAudited(s: State, s': State)
    requires Audited(s) && s'.log == s.log + [] && Stored(s') == Stored(s)
    ensures Audited(s')
  {
    assert s.log + [] == s.log;
  }

  /** Over every run from a fresh deployment, folding the log reconstructs the
      admin, the stored bindings, the stored freeze flags, the configuration
      and its version; initialization comes first and once; consecutive
      configuration events differ. */
  lemma {:induction false} ReplayReconstructsState(now: nat, grant: nat, steps: seq<Step>)
    ensures Audited(Run(Fresh(now, grant), steps))
  {
    if steps != [] {
      var n := |steps| - 1;
      ReplayReconstructsState(now, grant, steps[..n]);
      var before := Run(Fresh(now, grant), steps[..n]);
      CallKeepsAudited(Advance(before, steps[n].at), steps[n].call, steps[n].signers, steps[n].oracle);
    }
  }

  /** The log tells who is bound and who is frozen. */
  ghost predicate LogTellsViews(s: State) {
    && (forall token :: token in Replay(s.log).bound <==> IsBound(s, token))
    && (forall token, account :: Holding(token, account) in Replay(s.log).frozen <==> IsFrozen(s, token, account))
  }

  lemma LiveMeansTold(s: State)
    requires Replay(s.log) == Stored(s)
    ensures LogTellsViews(s) <==> Mirror.LivesThrough(s, s.now)
  {
    if LogTellsViews(s) {
      assert forall token :: token in s.bindings ==> IsBound(s, token);
      assert forall h :: h in s.flags ==> IsFrozen(s, Holding(h.token, h.account).token, h.account);
    }
  }

  /** Over every run, and in every later ledger, the log tells who is bound and
      who is frozen now if and only if no stored entry has lapsed. */
  lemma {:induction false} ReplayReconstructsViews(now: nat, grant: nat, steps: seq<Step>, at: nat)
    ensures
      var s := Advance(Run(Fresh(now, grant), steps), at);
      LogTellsViews(s) <==> Mirror.LivesThrough(s, s.now)
  {
    ReplayReconstructsState(now, grant, steps);
    LiveMeansTold(Advance(Run(Fresh(now, grant), steps), at));
  }

  /** So it tells the views of a fresh deployment for at least the lifetime a new entry is granted. */
  lemma {:induction false} FreshLogTellsViews(now: nat, grant: nat, steps: seq<Step>)
    requires Ordered(now, steps) && (steps != [] ==> steps[|steps| - 1].at <= now + grant)
    ensures LogTellsViews(Run(Fresh(now, grant), steps))
  {
    Mirror.FreshRunLives(now, grant, steps);
    RunClock(Fresh(now, grant), steps);
    ReplayReconstructsViews(now, grant, steps, now);
  }

  /******* Freeze events alternate *******/

  /** The freeze event an event is for a holding, if it is one. */
  function FreezeEventOf(event: Event, h: Holding): Option<bool> {
    if event == Event.AccountFrozen(h.token, h.account) then Some(true)
    else if event == AccountUnfrozen(h.token, h.account) then Some(false)
    else None
  }

  /** The freeze events of one holding: true for frozen, false for unfrozen. */
  function FreezeEvents(log: seq<Event>, h: Holding): seq<bool> {
    if log == [] then []
    else
      var init, last := FreezeEvents(log[..|log| - 1], h), log[|log| - 1];
      var frozen := FreezeEventOf(last, h);
      if frozen.Some? then init + [frozen.value] else init
  }

  /** Strict alternation, starting with frozen. */
  predicate Alternates(events: seq<bool>) {
    && (events != [] ==> events[0])
    && (forall i :: 0 < i < |events| ==> events[i] != events[i - 1])
  }

  /** A committed freeze of the holding met a flag that was stored but had lapsed. */
  predicate RefreezesLapsed(s: State, step: Step, h: Holding) {
    && step.call == Freeze(h.token, h.account) && Exec(s, step).1 == Done
    && h in s.flags && s.flags[h] < Advance(s, step.at).now
  }

  lemma {:induction false} LastFreezeEvent(log: seq<Event>, h: Holding)
    ensures
      var events := FreezeEvents(log, h);
      h in Replay(log).frozen <==> events != [] && events[|events| - 1]
  {
    if log != [] {
      LastFreezeEvent(log[..|log| - 1], h);
    }
  }

  lemma AppendAlternates(events: seq<bool>, frozen: bool)
    ensures Alternates(events + [frozen]) <==>
      Alternates(events) && frozen == (events == [] || !events[|events| - 1])
  {
    var longer := events + [frozen];
    if Alternates(longer) {
      assert forall i :: 0 <= i < |events| ==> longer[i] == events[i];
      assert longer[|events|] == frozen;
    }
  }

  /** One more event keeps alternation exactly when it freezes what the log
      leaves unfrozen, unfreezes what it leaves frozen, or concerns another holding. */
  lemma AppendFreezeEvent(log: seq<Event>, event: Event, h: Holding)
    ensures
      var frozen := FreezeEventOf(event, h);
      Alternates(FreezeEvents(log + [event], h)) <==>
      Alternates(FreezeEvents(log, h)) && (frozen.Some? ==> frozen.value != (h in Replay(log).frozen))
  {
    assert (log + [event])[..|log|] == log;
    LastFreezeEvent(log, h);
    AppendAlternates(FreezeEvents(log, h), true);
    AppendAlternates(FreezeEvents(log, h), false);
  }

  /** A step publishes a freeze of a stored flag only if the flag had lapsed,
      and an unfreeze only of a stored flag. */
  lemma PublishedFreezeEvent(s: State, step: Step, h: Holding)
    ensures
      var event := Published(Advance(s, step.at), step.call, step.signers, step.oracle);
      var frozen := if event.Some? then FreezeEventOf(event.value, h) else None;
      && (RefreezesLapsed(s, step, h) <==> frozen == Some(true) && h in s.flags)
      && (frozen == Some(false) ==> h in s.flags)
  {
  }

  /** How one step extends the freeze events of a holding. */
  lemma StepFreezeEvents(s: State, step: Step, h: Holding)
    requires Audited(s)
    ensures
      var before, after := FreezeEvents(s.log, h), FreezeEvents(Exec(s, step).0.log, h);
      Alternates(after) <==> Alternates(before) && !RefreezesLapsed(s, step, h)
  {
    var during := Advance(s, step.at);
    var event := Published(during, step.call, step.signers, step.oracle);
    CallPublishes(during, step.call, step.signers, step.oracle);
    PublishedFreezeEvent(s, step, h);
    if event.Some? {
      AppendFreezeEvent(s.log, event.value, h);
    } else {
      assert s.log + [] == s.log;
    }
  }

  /** No committed freeze of the holding met a lapsed flag. */
  ghost predicate NeverRefreezesLapsed(s: State, steps: seq<Step>, h: Holding) {
    steps == [] ||
    var n := |steps| - 1;
    NeverRefreezesLapsed(s, steps[..n], h) && !RefreezesLapsed(Run(s, steps[..n]), steps[n], h)
  }

  /** In every run, the freeze events of a holding strictly alternate, starting
      with frozen, if and only if no freeze call met a lapsed flag. */
  lemma {:induction false} FreezeEventsAlternate(now: nat, grant: nat, steps: seq<Step>, h: Holding)
    ensures
      Alternates(FreezeEvents(Run(Fresh(now, grant), steps).log, h)) <==>
      NeverRefreezesLapsed(Fresh(now, grant), steps, h)
  {
    if steps != [] {
      var n := |steps| - 1;
      var s := Fresh(now, grant);
      FreezeEventsAlternate(now, grant, steps[..n], h);
      ReplayReconstructsState(now, grant, steps[..n]);
      StepFreezeEvents(Run(s, steps[..n]), steps[n], h);
    }
  }

  /** An instance: the flag lapses unnoticed, the account is frozen again, and
      the log holds two freeze events in a row. */
  lemma {:induction false} LapsedRefreezeRepeatsEvent(grant: nat, admin: Address, token: Address, account: Address, oracle: Oracle)
    ensures
      var refreeze := Step(grant + 1, Freeze(token, account), {admin}, oracle);
      var steps := Leases.FreezeScript(grant, admin, token, account, oracle) + [refreeze];
      var s := Run(Fresh(0, grant), steps);
      && Exec(Run(Fresh(0, grant), steps[..|steps| - 1]), refreeze).1 == Done
      && !NeverRefreezesLapsed(Fresh(0, grant), steps, Holding(token, account))
      && !Alternates(FreezeEvents(s.log, Holding(token, account)))
  {
    var refreeze := Step(grant + 1, Freeze(token, account), {admin}, oracle);
    var script := Leases.FreezeScript(grant, admin, token, account, oracle);
    Leases.FreezeScriptResult(grant, admin, token, account, oracle);
    assert (script + [refreeze])[..|script|] == script;
    assert RefreezesLapsed(Run(Fresh(0, grant), script), refreeze, Holding(token, account));
    FreezeEventsAlternate(0, grant, script + [refreeze], Holding(token, account));
  }

  /******* Version accounting *******/

  function CountConfigEvents(log: seq<Event>): nat {
    if log == [] then 0
    else CountConfigEvents(log[..|log| - 1]) + (if log[|log| - 1].ComplianceConfigChanged? then 1 else 0)
  }

  lemma {:induction false} RewritesAreConfigEvents(log: seq<Event>)
    ensures Replay(log).rewrites == CountConfigEvents(log)
  {
    if log != [] {
      RewritesAreConfigEvents(log[..|log| - 1]);
    }
  }

  /** In every reachable state the version counts the configuration events, and
      it is 0 exactly when there is no configuration. */
  lemma {:induction false} VersionCountsConfigEvents(now: nat, grant: nat, steps: seq<Step>)
    ensures
      var s := Run(Fresh(now, grant), steps);
      && s.version.GetOr(0) == CountConfigEvents(s.log)
      && (s.version.GetOr(0) == 0 <==> s.config.None?)
  {
    ReplayReconstructsState(now, grant, steps);
    RewritesAreConfigEvents(Run(Fresh(now, grant), steps).log);
  }

  lemma CallKeepsLifecycle(s: State, call: Call, signers: set<Address>, oracle: Oracle)
    ensures
      var s' := Apply(s, call, signers, oracle).0;
      && (s.admin.Some? ==> s'.admin == s.admin)
      && (s.config.Some? ==> s'.config.Some?)
      && s.version.GetOr(0) <= s'.version.GetOr(0)
  {
  }

  /** From any state on, an admin once recorded is the admin for ever, and a
      configuration once present never disappears. */
  lemma {:induction false} AdminAndConfigPersist(s: State, steps: seq<Step>)
    ensures s.admin.Some? ==> Run(s, steps).admin == s.admin
    ensures s.config.Some? ==> Run(s, steps).config.Some?
    ensures s.version.GetOr(0) <= Run(s, steps).version.GetOr(0)
  {
    if steps != [] {
      var n := |steps| - 1;
      AdminAndConfigPersist(s, steps[..n]);
      CallKeepsLifecycle(Advance(Run(s, steps[..n]), steps[n].at), steps[n].call, steps[n].signers, steps[n].oracle);
    }
  }

  /** An effective rewrite bumps the version by one and is logged, except at
      the largest u32, where it traps and changes nothing. */
  lemma RewriteBumpsOrTraps(s: State, config: ComplianceConfig, signers: set<Address>, oracle: Oracle)
    requires s.admin.Some? && s.admin.value in signers && s.config != Some(config)
    ensures
      var (s', answer) := Apply(s, SetConfig(config), signers, oracle);
      if s.version.GetOr(0) == 4_294_967_295 then answer == Trap && s' == s
      else answer == Done && s'.config == Some(config) && s'.version == Some(s.version.GetOr(0) + 1)
           && s'.log == s.log + [ComplianceConfigChanged(config)]
           && s'.bindings == s.bindings && s'.flags == s.flags && s'.admin == s.admin
  {
  }

  /******* The layout stamp *******/

  /** A fresh deployment is stamped when it is initialized, and not before. */
  lemma {:induction false} StampedAtInitialization(now: nat, grant: nat, steps: seq<Step>)
    ensures
      var s := Run(Fresh(now, grant), steps);
      && s.layout == (if s.admin.Some? then Some(1) else None)
      && (s.config.Some? ==> s.admin.Some?)
  {
    if steps != [] {
      var n := |steps| - 1;
      StampedAtInitialization(now, grant, steps[..n]);
      CallKeepsStamp(Advance(Run(Fresh(now, grant), steps[..n]), steps[n].at), steps[n].call, steps[n].signers, steps[n].oracle);
    }
  }

  lemma CallKeepsStamp(s: State, call: Call, signers: set<Address>, oracle: Oracle)
    requires s.layout == (if s.admin.Some? then Some(VERSION) else None)
    requires s.config.Some? ==> s.admin.Some?
    ensures
      var s' := Apply(s, call, signers, oracle).0;
      && s'.layout == (if s'.admin.Some? then Some(VERSION) else None)
      && (s'.config.Some? ==> s'.admin.Some?)
  {
  }

  /** A deployment that predates stamping is stamped by its first effective
      configuration rewrite; a rewrite that changes nothing stamps nothing. */
  lemma OnlyEffectiveRewritesStamp(s: State, config: ComplianceConfig, signers: set<Address>, oracle: Oracle)
    requires s.admin.Some? && s.layout.None?
    ensures
      var (s', answer) := Apply(s, SetConfig(config), signers, oracle);
      answer == Done ==> (s'.layout == Some(1) <==> s.config != Some(config))
  {
  }
}
