/** The contract as an object over the host's keyed storage, updated step by
    step, and the host frame that discards a failed call. */
module Contract {
  import opened HookCore
  import opened Ledger
  import opened Leases
  import opened Machine
  import Evaluator

  /** One enum for every storage entry. */
  datatype DataKey =
    | AdminKey
    | ConfigKey
    | ConfigVersionKey
    | VersionKey
    | TokenBindingKey(token: Address)
    | FreezeKey(token: Address, account: Address)

  datatype TokenBinding = TokenBinding(sac: Option<Address>)

  datatype Value =
    | AddressValue(address: Address)
    | ConfigValue(config: ComplianceConfig)
    | U32Value(number: U32)
    | BindingValue(binding: TokenBinding)
    | FlagValue

  /** A persistent entry lives through ledger `liveUntil`. */
  datatype Entry = Entry(value: Value, liveUntil: nat)

  ghost predicate Typed(instance: map<DataKey, Value>, persistent: map<DataKey, Entry>) {
    && (AdminKey in instance ==> instance[AdminKey].AddressValue?)
    && (ConfigKey in instance ==> instance[ConfigKey].ConfigValue?)
    && (ConfigVersionKey in instance ==> instance[ConfigVersionKey].U32Value?)
    && (VersionKey in instance ==> instance[VersionKey].U32Value?)
    && (forall token :: TokenBindingKey(token) in persistent ==> persistent[TokenBindingKey(token)].value.BindingValue?)
  }

  /** `m` holds the bindings among the persistent entries. */
  ghost predicate HoldsBindings(persistent: map<DataKey, Entry>, m: map<Address, Binding>)
    requires Typed(map[], persistent)
  {
    && (forall token {:trigger token in m} {:trigger TokenBindingKey(token)} :: token in m <==> TokenBindingKey(token) in persistent)
    && (forall token {:trigger m[token]} :: token in m ==>
          m[token] == Binding(persistent[TokenBindingKey(token)].value.binding.sac, persistent[TokenBindingKey(token)].liveUntil))
  }

  /** `m` holds the freeze flags among the persistent entries. */
  ghost predicate HoldsFlags(persistent: map<DataKey, Entry>, m: map<Holding, nat>) {
    && (forall token, account {:trigger Holding(token, account)} {:trigger FreezeKey(token, account)} ::
          Holding(token, account) in m <==> FreezeKey(token, account) in persistent)
    && (forall h {:trigger m[h]} :: h in m ==> FreezeKey(h.token, h.account) in persistent && m[h] == persistent[FreezeKey(h.token, h.account)].liveUntil)
  }

  lemma TypedViewExists(persistent: map<DataKey, Entry>)
    requires Typed(map[], persistent)
    ensures exists m :: HoldsBindings(persistent, m)
    ensures exists m :: HoldsFlags(persistent, m)
  {
    var tokens := set key | key in persistent && key.TokenBindingKey? :: key.token;
    assert forall token :: TokenBindingKey(token) in persistent ==> TokenBindingKey(token).token in tokens;
    var bindings := map token | token in tokens ::
      Binding(persistent[TokenBindingKey(token)].value.binding.sac, persistent[TokenBindingKey(token)].liveUntil);
    assert HoldsBindings(persistent, bindings);
    var holdings := set key | key in persistent && key.FreezeKey? :: Holding(key.token, key.account);
    assert forall token, account :: FreezeKey(token, account) in persistent ==>
      var key := FreezeKey(token, account); Holding(key.token, key.account) in holdings;
    var flags := map h | h in holdings :: persistent[FreezeKey(h.token, h.account)].liveUntil;
    assert HoldsFlags(persistent, flags);
  }

  ghost function BindingsOf(persistent: map<DataKey, Entry>): (m: map<Address, Binding>)
    requires Typed(map[], persistent)
    ensures HoldsBindings(persistent, m)
  {
    TypedViewExists(persistent);
    var m :| HoldsBindings(persistent, m); m
  }

  ghost function FlagsOf(persistent: map<DataKey, Entry>): (m: map<Holding, nat>)
    requires Typed(map[], persistent)
    ensures HoldsFlags(persistent, m)
  {
    TypedViewExists(persistent);
    var m :| HoldsFlags(persistent, m); m
  }

  /** A write touches the typed view of its own key and of no other. */
  lemma PutChangesOneKey(persistent: map<DataKey, Entry>, key: DataKey, entry: Entry)
    requires Typed(map[], persistent) && (key.TokenBindingKey? ==> entry.value.BindingValue?)
    ensures BindingsOf(persistent[key := entry]) ==
      if key.TokenBindingKey? then BindingsOf(persistent)[key.token := Binding(entry.value.binding.sac, entry.liveUntil)]
      else BindingsOf(persistent)
    ensures FlagsOf(persistent[key := entry]) ==
      if key.FreezeKey? then FlagsOf(persistent)[Holding(key.token, key.account) := entry.liveUntil]
      else FlagsOf(persistent)
  {
  }

  lemma RemoveChangesOneKey(persistent: map<DataKey, Entry>, key: DataKey)
    requires Typed(map[], persistent)
    ensures BindingsOf(persistent - {key}) ==
      if key.TokenBindingKey? then BindingsOf(persistent) - {key.token} else BindingsOf(persistent)
    ensures FlagsOf(persistent - {key}) ==
      if key.FreezeKey? then FlagsOf(persistent) - {Holding(key.token, key.account)} else FlagsOf(persistent)
  {
  }

  lemma DropAfterTouch(s: State, token: Address, account: Address)
    ensures DropFlag(TouchFlag(s, token, account), token, account) == DropFlag(s, token, account)
  {
    assert DropFlag(TouchFlag(s, token, account), token, account).flags == DropFlag(s, token, account).flags;
  }

  /** An admin's rewrite that changes the configuration when the version can no longer grow. */
  predicate OverflowsVersion(s: State, call: Call, signers: set<Address>) {
    && call.SetConfig? && AdminGate(s, signers) == Done
    && s.config != Some(call.config) && s.version == Some(4_294_967_295)
  }

  class ComplianceHooks {
    const grant: nat
    var now: nat
    var instance: map<DataKey, Value>
    var persistent: map<DataKey, Entry>
    var events: seq<Event>
    /** The external calls of the running invocation. */
    var calls: seq<Query>

    ghost predicate Valid()
      reads this
    {
      Typed(instance, persistent)
    }

    /** The typed state the storage stands for. */
    ghost function View(): State
      reads this
      requires Valid()
    {
      State(
        now, grant,
        if AdminKey in instance then Some(instance[AdminKey].address) else None,
        if ConfigKey in instance then Some(instance[ConfigKey].config) else None,
        if ConfigVersionKey in instance then Some(instance[ConfigVersionKey].number) else None,
        if VersionKey in instance then Some(instance[VersionKey].number) else None,
        BindingsOf(persistent), FlagsOf(persistent), events)
    }

    constructor (now: nat, grant: nat)
      ensures Valid() && View() == Fresh(now, grant)
    {
      this.now, this.grant := now, grant;
      instance, persistent, events, calls := map[], map[], [], [];
      new;
      assert View().bindings == map[] && View().flags == map[];
    }

    /******* The host's persistent storage *******/

    predicate Has(key: DataKey)
      reads this
    {
      key in persistent && now <= persistent[key].liveUntil
    }

    method Touch(key: DataKey)
      requires Valid()
      modifies this`persistent
      ensures Valid()
      ensures View().bindings ==
        if key.TokenBindingKey? then TouchBinding(old(View()), key.token).bindings else old(View()).bindings
      ensures View().flags ==
        if key.FreezeKey? then TouchFlag(old(View()), key.token, key.account).flags else old(View()).flags
    {
      if Has(key) {
        var entry := persistent[key].(liveUntil := Renewed(now, persistent[key].liveUntil));
        PutChangesOneKey(persistent, key, entry);
        persistent := persistent[key := entry];
      }
    }

    method Put(key: DataKey, value: Value)
      requires Valid() && (key.TokenBindingKey? ==> value.BindingValue?)
      modifies this`persistent
      ensures Valid()
      ensures View().bindings ==
        if key.TokenBindingKey? then PutBinding(old(View()), key.token, value.binding.sac).bindings else old(View()).bindings
      ensures View().flags ==
        if key.FreezeKey? then PutFlag(old(View()), key.token, key.account).flags else old(View()).flags
    {
      var entry := Entry(value, if Has(key) then persistent[key].liveUntil else now + grant);
      PutChangesOneKey(persistent, key, entry);
      persistent := persistent[key := entry];
    }

    method Remove(key: DataKey)
      requires Valid()
      modifies this`persistent
      ensures Valid()
      ensures View().bindings ==
        if key.TokenBindingKey? then DropBinding(old(View()), key.token).bindings else old(View()).bindings
      ensures View().flags ==
        if key.FreezeKey? then DropFlag(old(View()), key.token, key.account).flags else old(View()).flags
    {
      if Has(key) {
        RemoveChangesOneKey(persistent, key);
        persistent := persistent - {key};
      }
    }

    /******* Storage helpers *******/

    /** Reading a live binding renews it. */
    method ReadTokenBinding(token: Address) returns (binding: Option<TokenBinding>)
      requires Valid()
      modifies this`persistent
      ensures Valid() && View() == TouchBinding(old(View()), token)
      ensures binding.Some? <==> IsBound(old(View()), token)
      ensures binding.Some? ==> binding.value.sac == SacOf(old(View()), token)
    {
      var key := TokenBindingKey(token);
      if Has(key) {
        binding := Some(persistent[key].value.binding);
        Touch(key);
      } else {
        binding := None;
      }
    }

    method IsTokenBound(token: Address) returns (bound: bool)
      requires Valid()
      modifies this`persistent
      ensures Valid() && View() == TouchBinding(old(View()), token)
      ensures bound == IsBound(old(View()), token)
    {
      var binding := ReadTokenBinding(token);
      bound := binding.Some?;
    }

    method StoreBinding(token: Address, sac: Option<Address>)
      requires Valid()
      modifies this`persistent
      ensures Valid() && View() == PutBinding(old(View()), token, sac)
    {
      Put(TokenBindingKey(token), BindingValue(TokenBinding(sac)));
    }

    method RemoveBinding(token: Address)
      requires Valid()
      modifies this`persistent
      ensures Valid() && View() == DropBinding(old(View()), token)
    {
      Remove(TokenBindingKey(token));
    }

    /** Reading a live freeze flag renews it. */
    method ReadFreezeFlag(token: Address, account: Address) returns (frozen: bool)
      requires Valid()
      modifies this`persistent
      ensures Valid() && View() == TouchFlag(old(View()), token, account)
      ensures frozen == IsFrozen(old(View()), token, account)
    {
      var key := FreezeKey(token, account);
      frozen := Has(key);
      if frozen {
        Touch(key);
      }
    }

    method StoreFlag(token: Address, account: Address)
      requires Valid()
      modifies this`persistent
      ensures Valid() && View() == PutFlag(old(View()), token, account)
    {
      Put(FreezeKey(token, account), FlagValue);
    }

    method RemoveFlag(token: Address, account: Address)
      requires Valid()
      modifies this`persistent
      ensures Valid() && View() == DropFlag(old(View()), token, account)
    {
      Remove(FreezeKey(token, account));
    }

    method StoredAdmin() returns (admin: Option<Address>)
      requires Valid()
      ensures admin == View().admin
    {
      admin := if AdminKey in instance then Some(instance[AdminKey].address) else None;
    }

    method StoredConfig() returns (config: Option<ComplianceConfig>)
      requires Valid()
      ensures config == View().config
    {
      config := if ConfigKey in instance then Some(instance[ConfigKey].config) else None;
    }

    method StoredConfigVersion() returns (version: Option<U32>)
      requires Valid()
      ensures version == View().version
    {
      version := if ConfigVersionKey in instance then Some(instance[ConfigVersionKey].number) else None;
    }

    method StoredVersion() returns (version: Option<U32>)
      requires Valid()
      ensures version == View().layout
    {
      version := if VersionKey in instance then Some(instance[VersionKey].number) else None;
    }

    method SetVersion(version: U32)
      requires Valid()
      modifies this`instance
      ensures Valid() && View() == old(View()).(layout := Some(version))
    {
      instance := instance[VersionKey := U32Value(version)];
    }

    method SetAdmin(admin: Address)
      requires Valid()
      modifies this`instance
      ensures Valid() && View() == old(View()).(admin := Some(admin))
    {
      instance := instance[AdminKey := AddressValue(admin)];
    }

    /** Writes the configuration and stamps a missing layout version. */
    method SetComplianceConfig(config: ComplianceConfig)
      requires Valid()
      modifies this`instance
      ensures Valid()
      ensures View() == old(View()).(config := Some(config), layout := if old(View()).layout.None? then Some(VERSION) else old(View()).layout)
    {
      instance := instance[ConfigKey := ConfigValue(config)];
      var version := StoredVersion();
      if version.None? {
        SetVersion(VERSION);
      }
    }

    /** Checked addition: at the largest value the host traps. */
    method BumpConfigVersion() returns (trapped: bool)
      requires Valid()
      modifies this`instance
      ensures Valid() && trapped == (old(View()).version.GetOr(0) == U32_MAX)
      ensures View() == if trapped then old(View()) else old(View()).(version := Some(old(View()).version.GetOr(0) + 1))
    {
      var version := StoredConfigVersion();
      trapped := version.GetOr(0) == U32_MAX;
      if !trapped {
        instance := instance[ConfigVersionKey := U32Value(version.GetOr(0) + 1)];
      }
    }

    method Publish(event: Event)
      requires Valid()
      modifies this`events
      ensures Valid() && View() == Emit(old(View()), event)
    {
      events := events + [event];
    }

    /******* Gates *******/

    method RequireAdmin(signers: set<Address>) returns (gate: Answer)
      requires Valid()
      ensures gate == AdminGate(View(), signers)
    {
      var admin := StoredAdmin();
      if admin.None? {
        return Err(Rejection(InvalidConfiguration));
      }
      gate := if admin.value in signers then Done else Trap;
    }

    method RequireScope(token: Address) returns (gate: Answer)
      requires Valid()
      modifies this`persistent
      ensures Valid() && gate == ScopeGate(old(View()), token)
      ensures gate == Done ==> View() == TouchBinding(old(View()), token)
    {
      var config := StoredConfig();
      if config.None? {
        return Err(Rejection(InvalidConfiguration));
      }
      var bound := IsTokenBound(token);
      if !bound {
        return Err(Rejection(UnboundToken));
      }
      gate := Done;
    }

    /** Calls another contract; what it answers depends on every call before. */
    method Ask(query: Query, oracle: Oracle) returns (verdict: Verdict)
      modifies this`calls
      ensures verdict == oracle(old(calls), query) && calls == old(calls) + [query]
    {
      verdict := oracle(calls, query);
      calls := calls + [query];
    }

    /** Screens one party: freeze, then policy, then SAC. */
    method ScreenParty(token: Address, role: PartyRole, account: Address, config: ComplianceConfig, sac: Option<Address>, oracle: Oracle) returns (decision: Decision)
      requires Valid()
      modifies this`persistent, this`calls
      ensures Valid()
      ensures (decision, calls) == Evaluator.RunGates(old(View()), token, Evaluator.PartyGates(config, sac, role, account), oracle, old(calls))
      ensures decision.Allow? ==> View() == old(View())
    {
      Evaluator.PartyOutcome(View(), token, config, sac, role, account, oracle, calls);
      assert calls + [] == calls;
      if HoldsFunds(role) {
        var frozen := ReadFreezeFlag(token, account);
        if frozen {
          return Deny(RejectionReason.AccountFrozen);
        }
      }
      if config.policy.Some? {
        var verdict := Ask(PolicyQuery(config.policy.value, account, token), oracle);
        match verdict {
          case Yes =>
          case No => return Deny(if role == Spender then SpenderNotAuthorized else PolicyDenied);
          case Failed => return Deny(PolicyUnavailable);
        }
      }
      if HoldsFunds(role) && config.sacPassthrough {
        if sac.Some? {
          var verdict := Ask(SacQuery(sac.value, account), oracle);
          if verdict != Yes {
            return Deny(SacAuthorizationFailed);
          }
        }
      }
      decision := Allow;
    }

    /** The enforcement pipeline: structural gates, then one screening per party until one denies. */
    method Evaluate(token: Address, op: Operation, parties: seq<Address>, oracle: Oracle) returns (decision: Decision)
      requires Valid()
      modifies this`persistent, this`calls
      ensures Valid()
      ensures (decision, calls) == Evaluator.Evaluate(old(View()), token, op, parties, oracle, old(calls))
      ensures decision.Allow? ==> View() == TouchBinding(old(View()), token)
    {
      ghost var s := View();
      var config := StoredConfig();
      if config.None? {
        return Deny(InvalidConfiguration);
      }
      var bound := IsTokenBound(token);
      if !bound {
        return Deny(UnboundToken);
      }
      var binding := ReadTokenBinding(token);
      TouchIsIdempotent(s, token);
      var sac := binding.value.sac;
      var roles := Parties(op);
      if |roles| != |parties| {
        return Deny(InvalidConfiguration);
      }
      decision := Allow;
      var i := 0;
      while i < |roles|
        invariant 0 <= i <= |roles| && Valid()
        invariant (decision, calls) == Evaluator.RunGates(s, token, Evaluator.Schedule(config.value, sac, roles[..i], parties[..i]), oracle, old(calls))
        invariant decision.Allow? ==> View() == TouchBinding(s, token)
      {
        if decision.Deny? {
          break;
        }
        decision := ScreenParty(token, roles[i], parties[i], config.value, sac, oracle);
        Evaluator.ScheduleStep(TouchBinding(s, token), s, token, config.value, sac, roles, parties, i, oracle, old(calls));
        i := i + 1;
      }
      Evaluator.DeniedPrefixDecides(s, token, config.value, sac, roles, parties, i, oracle, old(calls));
    }

    /******* Entry points *******/

    method Initialize(admin: Address, signers: set<Address>) returns (answer: Answer)
      requires Valid()
      modifies this`instance, this`persistent, this`events
      ensures Valid() && answer == ApplyInitialize(old(View()), admin, signers).1
      ensures answer == Done ==> View() == ApplyInitialize(old(View()), admin, signers).0
    {
      var stored := StoredAdmin();
      if stored.Some? {
        return Err(AlreadyInitialized);
      }
      if admin !in signers {
        return Trap;
      }
      SetAdmin(admin);
      SetVersion(VERSION);
      Publish(Initialized(admin));
      answer := Done;
    }

    method SetConfig(config: ComplianceConfig, signers: set<Address>) returns (answer: Answer)
      requires Valid()
      modifies this`instance, this`persistent, this`events
      ensures Valid()
      ensures answer == if AdminGate(old(View()), signers) != Done then AdminGate(old(View()), signers) else ApplySetConfig(old(View()), config).1
      ensures answer == Done ==> View() == ApplySetConfig(old(View()), config).0
      ensures OverflowsVersion(old(View()), Call.SetConfig(config), signers) ==> answer == Trap && View().config == Some(config)
    {
      var gate := RequireAdmin(signers);
      if gate != Done {
        return gate;
      }
      var current := StoredConfig();
      if current == Some(config) {
        return Done;
      }
      SetComplianceConfig(config);
      var trapped := BumpConfigVersion();
      if trapped {
        return Trap;
      }
      Publish(ComplianceConfigChanged(config));
      answer := Done;
    }

    method BindToken(token: Address, sac: Option<Address>, signers: set<Address>) returns (answer: Answer)
      requires Valid()
      modifies this`instance, this`persistent, this`events
      ensures Valid() && answer == AdminGate(old(View()), signers)
      ensures answer == Done ==> View() == ApplyBind(old(View()), token, sac)
    {
      var gate := RequireAdmin(signers);
      if gate != Done {
        return gate;
      }
      var binding := ReadTokenBinding(token);
      if binding.Some? && binding.value.sac == sac {
        return Done;
      }
      StoreBinding(token, sac);
      Publish(TokenBound(token));
      answer := Done;
    }

    method UnbindToken(token: Address, signers: set<Address>) returns (answer: Answer)
      requires Valid()
      modifies this`instance, this`persistent, this`events
      ensures Valid() && answer == AdminGate(old(View()), signers)
      ensures answer == Done ==> View() == ApplyUnbind(old(View()), token)
    {
      var gate := RequireAdmin(signers);
      if gate != Done {
        return gate;
      }
      var bound := IsTokenBound(token);
      if !bound {
        return Done;
      }
      RemoveBinding(token);
      assert View().bindings == DropBinding(old(View()), token).bindings;
      Publish(TokenUnbound(token));
      answer := Done;
    }

    method Freeze(token: Address, account: Address, signers: set<Address>) returns (answer: Answer)
      requires Valid()
      modifies this`instance, this`persistent, this`events
      ensures Valid() && answer == FreezeGates(old(View()), token, signers)
      ensures answer == Done ==> View() == ApplyFreeze(old(View()), token, account)
    {
      answer := RequireAdmin(signers);
      if answer != Done {
        return;
      }
      answer := RequireScope(token);
      if answer != Done {
        return;
      }
      var frozen := ReadFreezeFlag(token, account);
      if !frozen {
        StoreFlag(token, account);
        Publish(Event.AccountFrozen(token, account));
      }
    }

    method Unfreeze(token: Address, account: Address, signers: set<Address>) returns (answer: Answer)
      requires Valid()
      modifies this`instance, this`persistent, this`events
      ensures Valid() && answer == FreezeGates(old(View()), token, signers)
      ensures answer == Done ==> View() == ApplyUnfreeze(old(View()), token, account)
    {
      answer := RequireAdmin(signers);
      if answer != Done {
        return;
      }
      answer := RequireScope(token);
      if answer != Done {
        return;
      }
      var frozen := ReadFreezeFlag(token, account);
      if frozen {
        ghost var s := TouchBinding(old(View()), token);
        RemoveFlag(token, account);
        assert View() == DropFlag(s, token, account) by {
          DropAfterTouch(s, token, account);
        }
        Publish(AccountUnfrozen(token, account));
      }
    }

    /** The six hooks: a denial is an error the invoking token must treat as a failed call. */
    method EnforceHook(token: Address, hook: Hook, oracle: Oracle) returns (answer: Answer)
      requires Valid()
      modifies this`persistent, this`calls
      ensures Valid()
      ensures
        var evaluated := Evaluator.Evaluate(old(View()), token, HookOperation(hook), HookParties(hook), oracle, old(calls));
        && calls == evaluated.1
        && answer == (if evaluated.0.Allow? then Done else Err(Rejection(evaluated.0.reason)))
      ensures answer == Done ==> View() == TouchBinding(old(View()), token)
    {
      var decision;
      match hook {
        case BeforeRegister(account) => decision := Evaluate(token, Register, [account], oracle);
        case BeforeDeposit(from, to) => decision := Evaluate(token, Deposit, [from, to], oracle);
        case BeforeTransfer(from, to) => decision := Evaluate(token, Transfer, [from, to], oracle);
        case BeforeWithdraw(account) => decision := Evaluate(token, Withdraw, [account, account], oracle);
        case BeforeMerge(account) => decision := Evaluate(token, Merge, [account], oracle);
        case BeforeTransferFrom(spender, from, to) => decision := Evaluate(token, TransferFrom, [spender, from, to], oracle);
      }
      answer := if decision.Allow? then Done else Err(Rejection(decision.reason));
    }

    /******* The host frame *******/

    /** Runs the entry point a call names. */
    method Dispatch(call: Call, signers: set<Address>, oracle: Oracle) returns (answer: Answer)
      requires Valid() && calls == []
      modifies this`instance, this`persistent, this`events, this`calls
      ensures Valid() && answer == Apply(old(View()), call, signers, oracle).1
      ensures answer.Committed() ==> View() == Apply(old(View()), call, signers, oracle).0
      ensures CallsMade(old(View()), call, oracle, answer, calls)
    {
      if call.Enforce? {
        HookCallsMade(View(), call.token, call.hook, signers, oracle);
      }
      match call {
        case Initialize(admin) => answer := Initialize(admin, signers);
        case SetConfig(config) => answer := SetConfig(config, signers);
        case BindToken(token, sac) => answer := BindToken(token, sac, signers);
        case UnbindToken(token) => answer := UnbindToken(token, signers);
        case Freeze(token, account) => answer := Freeze(token, account, signers);
        case Unfreeze(token, account) => answer := Unfreeze(token, account, signers);
        case Enforce(token, hook) => answer := EnforceHook(token, hook, oracle);
        case ReadAdmin => var admin := StoredAdmin(); answer := AdminIs(admin);
        case ReadInitialized => var admin := StoredAdmin(); answer := Flag(admin.Some?);
        case ReadStateVersion => var version := StoredVersion(); answer := Number(version.GetOr(0));
        case ReadConfig => var config := StoredConfig(); answer := ConfigIs(config);
        case ReadConfigVersion => var version := StoredConfigVersion(); answer := Number(version.GetOr(0));
        case ReadBound(token) => var bound := IsTokenBound(token); answer := Flag(bound);
        case ReadFrozen(token, account) => var frozen := ReadFreezeFlag(token, account); answer := Flag(frozen);
      }
    }

    /** One invocation: it runs in its ledger, and a failed one is discarded
        whole, down to the stored entries. A rewrite beyond the largest version
        fails after it has written the configuration. */
    method Invoke(step: Step) returns (answer: Answer)
      requires Valid()
      modifies this
      ensures Valid() && (View(), answer) == Exec(old(View()), step)
      ensures !answer.Committed() ==> instance == old(instance) && persistent == old(persistent) && events == old(events)
      ensures OverflowsVersion(old(View()), step.call, step.signers) ==> answer == Trap
      ensures CallsMade(Advance(old(View()), step.at), step.call, step.oracle, answer, calls)
      ensures RenewsInNumbers(Advance(old(View()), step.at), step.call, answer, View())
    {
      now := if now <= step.at then step.at else now;
      calls := [];
      var savedInstance, savedPersistent, savedEvents := instance, persistent, events;
      ghost var s := View();
      assert s == Advance(old(View()), step.at);
      answer := Dispatch(step.call, step.signers, step.oracle);
      RejectedCallsChangeNothing(s, step.call, step.signers, step.oracle);
      ReadsRenewInNumbers(s, step.call, step.signers, step.oracle);
      if !answer.Committed() {
        instance, persistent, events := savedInstance, savedPersistent, savedEvents;
      }
    }
  }
}
