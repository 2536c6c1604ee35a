/** The contract's ledger state as typed values, and the lifetime rules of its
    persistent entries. */
module Ledger {
  import opened HookCore

  const DAY_IN_LEDGERS: nat := 17_280
  const TTL_EXTEND_TO: nat := 30 * DAY_IN_LEDGERS
  const TTL_THRESHOLD: nat := TTL_EXTEND_TO - DAY_IN_LEDGERS

  /** The state-layout version this code writes. */
  const VERSION: U32 := 1

  datatype ComplianceConfig = ComplianceConfig(policy: Option<Address>, sacPassthrough: bool)

  datatype Event =
    | Initialized(admin: Address)
    | AccountFrozen(token: Address, account: Address)
    | AccountUnfrozen(token: Address, account: Address)
    | TokenBound(token: Address)
    | TokenUnbound(token: Address)
    | ComplianceConfigChanged(config: ComplianceConfig)

  /** A stored token binding and the last ledger it lives in. */
  datatype Binding = Binding(sac: Option<Address>, liveUntil: nat)

  /** The key of a freeze flag. */
  datatype Holding = Holding(token: Address, account: Address)

  /** Everything the contract stores. `grant` is the lifetime the network gives
      a new persistent entry; it is a constant of the network. */
  datatype State = State(
    now: nat,
    grant: nat,
    admin: Option<Address>,
    config: Option<ComplianceConfig>,
    version: Option<U32>,
    layout: Option<U32>,
    bindings: map<Address, Binding>,
    flags: map<Holding, nat>,
    log: seq<Event>)

  function Fresh(now: nat, grant: nat): State {
    State(now, grant, None, None, None, None, map[], map[], [])
  }

  /** Ledger time never runs backwards. */
  function Advance(s: State, at: nat): State {
    s.(now := if s.now <= at then at else s.now)
  }

  /** The host's `extend_ttl(TTL_THRESHOLD, TTL_EXTEND_TO)` on a live entry: it
      never shortens a lifetime, leaves at least the threshold, and moves only
      lifetimes that were down to it. */
  function Renewed(now: nat, liveUntil: nat): (renewed: nat)
    ensures liveUntil <= renewed && now + 501_120 <= renewed
    ensures renewed != liveUntil ==> liveUntil - now <= 501_120 && renewed - now == 518_400
  {
    if liveUntil <= now + TTL_THRESHOLD then now + TTL_EXTEND_TO else liveUntil
  }

  /** A write keeps the lifetime of a live entry and grants a new entry a fresh one. */
  function WrittenLifetime(s: State, live: bool, liveUntil: nat): nat {
    if live then liveUntil else s.now + s.grant
  }

  predicate IsBound(s: State, token: Address) {
    token in s.bindings && s.now <= s.bindings[token].liveUntil
  }

  predicate IsFrozen(s: State, token: Address, account: Address) {
    Holding(token, account) in s.flags && s.now <= s.flags[Holding(token, account)]
  }

  /** The recorded SAC of a bound token. */
  function SacOf(s: State, token: Address): Option<Address> {
    if IsBound(s, token) then s.bindings[token].sac else None
  }

  /** A read of a live entry renews it. */
  function TouchBinding(s: State, token: Address): State {
    if IsBound(s, token) then
      var b := s.bindings[token];
      s.(bindings := s.bindings[token := b.(liveUntil := Renewed(s.now, b.liveUntil))])
    else s
  }

  function TouchFlag(s: State, token: Address, account: Address): State {
    if IsFrozen(s, token, account) then
      var key := Holding(token, account);
      s.(flags := s.flags[key := Renewed(s.now, s.flags[key])])
    else s
  }

  function PutBinding(s: State, token: Address, sac: Option<Address>): State {
    var live := IsBound(s, token);
    var liveUntil := WrittenLifetime(s, live, if live then s.bindings[token].liveUntil else 0);
    s.(bindings := s.bindings[token := Binding(sac, liveUntil)])
  }

  function PutFlag(s: State, token: Address, account: Address): State {
    var live := IsFrozen(s, token, account);
    var key := Holding(token, account);
    s.(flags := s.flags[key := WrittenLifetime(s, live, if live then s.flags[key] else 0)])
  }

  function DropBinding(s: State, token: Address): State {
    if IsBound(s, token) then s.(bindings := s.bindings - {token}) else s
  }

  function DropFlag(s: State, token: Address, account: Address): State {
    if IsFrozen(s, token, account) then s.(flags := s.flags - {Holding(token, account)}) else s
  }

  function Emit(s: State, event: Event): State {
    s.(log := s.log + [event])
  }

  /** Reading twice in one ledger is reading once. */
  lemma TouchIsIdempotent(s: State, token: Address)
    ensures TouchBinding(TouchBinding(s, token), token) == TouchBinding(s, token)
  {
    if IsBound(s, token) {
      var t := TouchBinding(s, token);
      assert TouchBinding(t, token).bindings == t.bindings;
    }
  }
}
