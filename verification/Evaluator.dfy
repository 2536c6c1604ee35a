/** The gate pipeline as a schedule of gates, run until the first one fails. */
module Evaluator {
  import opened HookCore
  import opened Ledger

  /** One check of one party. */
  datatype Gate =
    | FreezeGate(account: Address)
    | PolicyGate(role: PartyRole, policy: Address, account: Address)
    | SacGate(sac: Address, account: Address)

  /** The gates one party passes: freeze, then policy, then SAC. */
  function PartyGates(config: ComplianceConfig, sac: Option<Address>, role: PartyRole, account: Address): seq<Gate> {
    (if HoldsFunds(role) then [FreezeGate(account)] else [])
    + (if config.policy.Some? then [PolicyGate(role, config.policy.value, account)] else [])
    + (if HoldsFunds(role) && config.sacPassthrough && sac.Some? then [SacGate(sac.value, account)] else [])
  }

  /** The full gate schedule of an operation, party by party. */
  function Schedule(config: ComplianceConfig, sac: Option<Address>, roles: seq<PartyRole>, parties: seq<Address>): seq<Gate>
    requires |roles| == |parties|
  {
    if roles == [] then []
    else
      var n := |roles| - 1;
      Schedule(config, sac, roles[..n], parties[..n]) + PartyGates(config, sac, roles[n], parties[n])
  }

  /** The external calls a gate makes when it is reached. */
  function GateQueries(token: Address, gate: Gate): seq<Query> {
    match gate
    case FreezeGate(_) => []
    case PolicyGate(_, policy, account) => [PolicyQuery(policy, account, token)]
    case SacGate(sac, account) => [SacQuery(sac, account)]
  }

  function Queries(token: Address, gates: seq<Gate>): seq<Query> {
    if gates == [] then [] else GateQueries(token, gates[0]) + Queries(token, gates[1..])
  }

  /** What a gate decides, given the external calls made before it. */
  function GateDecision(s: State, token: Address, gate: Gate, oracle: Oracle, history: seq<Query>): Decision {
    match gate
    case FreezeGate(account) =>
      if IsFrozen(s, token, account) then Deny(RejectionReason.AccountFrozen) else Allow
    case PolicyGate(role, policy, account) => (
      match oracle(history, PolicyQuery(policy, account, token))
      case Yes => Allow
      case No => Deny(if role == Spender then SpenderNotAuthorized else PolicyDenied)
      case Failed => Deny(PolicyUnavailable))
    case SacGate(sac, account) =>
      if oracle(history, SacQuery(sac, account)) == Yes then Allow else Deny(SacAuthorizationFailed)
  }

  /** Runs gates in order until one denies; also returns all external calls made so far. */
  function RunGates(s: State, token: Address, gates: seq<Gate>, oracle: Oracle, history: seq<Query>): (Decision, seq<Query>) {
    if gates == [] then (Allow, history)
    else
      var decision := GateDecision(s, token, gates[0], oracle, history);
      var history' := history + GateQueries(token, gates[0]);
      if decision.Deny? then (decision, history')
      else RunGates(s, token, gates[1..], oracle, history')
  }

  /** The decision on one operation, and the external calls made to reach it. */
  function Evaluate(s: State, token: Address, op: Operation, parties: seq<Address>, oracle: Oracle, history: seq<Query>): (Decision, seq<Query>) {
    if s.config.None? then (Deny(InvalidConfiguration), history)
    else if !IsBound(s, token) then (Deny(UnboundToken), history)
    else if |Parties(op)| != |parties| then (Deny(InvalidConfiguration), history)
    else RunGates(s, token, ScheduleOf(s, token, op, parties), oracle, history)
  }

  /** The schedule an operation runs in a state where it is in scope. */
  function ScheduleOf(s: State, token: Address, op: Operation, parties: seq<Address>): seq<Gate>
    requires s.config.Some? && IsBound(s, token) && |Parties(op)| == |parties|
  {
    Schedule(s.config.value, SacOf(s, token), Parties(op), parties)
  }

  /** The structural checks, in order: configuration, scope, arity. They ask nothing. */
  lemma StructuralDenials(s: State, token: Address, op: Operation, parties: seq<Address>, oracle: Oracle, history: seq<Query>)
    ensures s.config.None? ==> Evaluate(s, token, op, parties, oracle, history) == (Deny(InvalidConfiguration), history)
    ensures s.config.Some? && !IsBound(s, token) ==> Evaluate(s, token, op, parties, oracle, history) == (Deny(UnboundToken), history)
    ensures s.config.Some? && IsBound(s, token) && |parties| != (if op == TransferFrom then 3 else if op == Register || op == Merge then 1 else 2) ==>
      Evaluate(s, token, op, parties, oracle, history) == (Deny(InvalidConfiguration), history)
  {
  }

  /******* Order and number of gates *******/

  lemma {:induction false} QueriesConcat(token: Address, a: seq<Gate>, b: seq<Gate>)
    ensures Queries(token, a + b) == Queries(token, a) + Queries(token, b)
  {
    if a == [] {
      assert a + b == b;
    } else {
      QueriesConcat(token, a[1..], b);
      assert (a + b)[0] == a[0] && (a + b)[1..] == a[1..] + b;
      assert Queries(token, a + b) == GateQueries(token, a[0]) + Queries(token, a[1..] + b);
      Associates(GateQueries(token, a[0]), Queries(token, a[1..]), Queries(token, b));
    }
  }

  lemma Associates(a: seq<Query>, b: seq<Query>, c: seq<Query>)
    ensures a + (b + c) == (a + b) + c
  {
  }

  /** Running a concatenation is running its parts, unless the first part denies. */
  lemma {:induction false} RunGatesConcat(s: State, token: Address, a: seq<Gate>, b: seq<Gate>, oracle: Oracle, history: seq<Query>)
    ensures
      var first := RunGates(s, token, a, oracle, history);
      RunGates(s, token, a + b, oracle, history) ==
      if first.0.Deny? then first else RunGates(s, token, b, oracle, first.1)
  {
    if a == [] {
      assert a + b == b;
    } else {
      assert (a + b)[1..] == a[1..] + b;
      RunGatesConcat(s, token, a[1..], b, oracle, history + GateQueries(token, a[0]));
    }
  }

  /** Gates read the freeze flags of their token, nothing else of the state. */
  lemma {:induction false} GatesSeeFlagsOnly(s1: State, s2: State, token: Address, gates: seq<Gate>, oracle: Oracle, history: seq<Query>)
    requires forall account :: IsFrozen(s1, token, account) == IsFrozen(s2, token, account)
    ensures RunGates(s1, token, gates, oracle, history) == RunGates(s2, token, gates, oracle, history)
  {
    if gates != [] {
      GatesSeeFlagsOnly(s1, s2, token, gates[1..], oracle, history + GateQueries(token, gates[0]));
    }
  }

  /** While the parties so far are allowed, the next party decides, seen in any state with the same flags. */
  lemma ScheduleStep(s1: State, s2: State, token: Address, config: ComplianceConfig, sac: Option<Address>, roles: seq<PartyRole>, parties: seq<Address>, i: nat, oracle: Oracle, history: seq<Query>)
    requires |roles| == |parties| && i < |roles|
    requires s1.now == s2.now && s1.flags == s2.flags
    ensures
      var first := RunGates(s2, token, Schedule(config, sac, roles[..i], parties[..i]), oracle, history);
      first.0.Allow? ==>
        RunGates(s2, token, Schedule(config, sac, roles[..i + 1], parties[..i + 1]), oracle, history) ==
        RunGates(s1, token, PartyGates(config, sac, roles[i], parties[i]), oracle, first.1)
  {
    var init, gates := Schedule(config, sac, roles[..i], parties[..i]), PartyGates(config, sac, roles[i], parties[i]);
    assert roles[..i + 1][..i] == roles[..i] && parties[..i + 1][..i] == parties[..i];
    RunGatesConcat(s2, token, init, gates, oracle, history);
    GatesSeeFlagsOnly(s1, s2, token, gates, oracle, RunGates(s2, token, init, oracle, history).1);
  }

  /** Once the parties so far are denied, the whole operation is. */
  lemma {:induction false} DeniedPrefixDecides(s: State, token: Address, config: ComplianceConfig, sac: Option<Address>, roles: seq<PartyRole>, parties: seq<Address>, i: nat, oracle: Oracle, history: seq<Query>)
    requires |roles| == |parties| && i <= |roles|
    ensures
      var first := RunGates(s, token, Schedule(config, sac, roles[..i], parties[..i]), oracle, history);
      first.0.Deny? || i == |roles| ==> RunGates(s, token, Schedule(config, sac, roles, parties), oracle, history) == first
  {
    if i == |roles| {
      assert roles[..i] == roles && parties[..i] == parties;
    } else {
      var n := |roles| - 1;
      var init, last := Schedule(config, sac, roles[..n], parties[..n]), PartyGates(config, sac, roles[n], parties[n]);
      DeniedPrefixDecides(s, token, config, sac, roles[..n], parties[..n], i, oracle, history);
      assert roles[..n][..i] == roles[..i] && parties[..n][..i] == parties[..i];
      RunGatesConcat(s, token, init, last, oracle, history);
      assert Schedule(config, sac, roles, parties) == init + last;
    }
  }

  lemma RunOneGate(s: State, token: Address, gate: Gate, oracle: Oracle, history: seq<Query>)
    ensures RunGates(s, token, [gate], oracle, history) == (GateDecision(s, token, gate, oracle, history), history + GateQueries(token, gate))
  {
    var history' := history + GateQueries(token, gate);
    assert [gate][1..] == [] && RunGates(s, token, [], oracle, history') == (Allow, history');
  }

  /** The three gates of one party, spelled out. */
  lemma PartyOutcome(s: State, token: Address, config: ComplianceConfig, sac: Option<Address>, role: PartyRole, account: Address, oracle: Oracle, history: seq<Query>)
    ensures
      var screened := RunGates(s, token, PartyGates(config, sac, role, account), oracle, history);
      var frozen := HoldsFunds(role) && IsFrozen(s, token, account);
      var question := if config.policy.Some? then [PolicyQuery(config.policy.value, account, token)] else [];
      var verdict := if config.policy.Some? then oracle(history, question[0]) else Yes;
      var asked := history + question;
      && (frozen ==> screened == (Deny(RejectionReason.AccountFrozen), history))
      && (!frozen && verdict == No ==> screened == (Deny(if role == Spender then SpenderNotAuthorized else PolicyDenied), asked))
      && (!frozen && verdict == Failed ==> screened == (Deny(PolicyUnavailable), asked))
      && (!frozen && verdict == Yes && !(HoldsFunds(role) && config.sacPassthrough && sac.Some?) ==> screened == (Allow, asked))
      && (!frozen && verdict == Yes && HoldsFunds(role) && config.sacPassthrough && sac.Some? ==>
            var last := SacQuery(sac.value, account);
            screened == (if oracle(asked, last) == Yes then Allow else Deny(SacAuthorizationFailed), asked + [last]))
  {
    assert history + [] == history;
    var freeze := if HoldsFunds(role) then [FreezeGate(account)] else [];
    var policy := if config.policy.Some? then [PolicyGate(role, config.policy.value, account)] else [];
    var last := if HoldsFunds(role) && config.sacPassthrough && sac.Some? then [SacGate(sac.value, account)] else [];
    RunGatesConcat(s, token, freeze + policy, last, oracle, history);
    RunGatesConcat(s, token, freeze, policy, oracle, history);
    RunOneGate(s, token, FreezeGate(account), oracle, history);
    var asked := history;
    if config.policy.Some? {
      RunOneGate(s, token, PolicyGate(role, config.policy.value, account), oracle, history);
      asked := history + [PolicyQuery(config.policy.value, account, token)];
    }
    if sac.Some? {
      RunOneGate(s, token, SacGate(sac.value, account), oracle, asked);
    }
  }

  /** Gate `i` of a schedule is reached with the calls of the gates before it, and lets the party through. */
  ghost predicate PassesAt(s: State, token: Address, gates: seq<Gate>, oracle: Oracle, history: seq<Query>, i: nat)
    requires i < |gates|
  {
    GateDecision(s, token, gates[i], oracle, history + Queries(token, gates[..i])).Allow?
  }

  /** First-failure semantics: if the gates before `k` pass, then either there
      is no gate `k` and the operation is allowed, or gate `k` fails and the
      verdict is its own. The external calls made are exactly those of the
      gates up to and including `k`. */
  lemma {:induction false} FirstFailure(s: State, token: Address, gates: seq<Gate>, oracle: Oracle, history: seq<Query>, k: nat)
    requires k <= |gates|
    requires forall i: nat :: i < k ==> PassesAt(s, token, gates, oracle, history, i)
    ensures k == |gates| ==> RunGates(s, token, gates, oracle, history) == (Allow, history + Queries(token, gates))
    ensures k < |gates| && !PassesAt(s, token, gates, oracle, history, k) ==>
      RunGates(s, token, gates, oracle, history) ==
      (GateDecision(s, token, gates[k], oracle, history + Queries(token, gates[..k])),
       history + Queries(token, gates[..k + 1]))
  {
    if gates == [] {
      assert history + [] == history;
    } else if k == 0 {
      FailsAtHead(s, token, gates, oracle, history);
    } else {
      var rest, history' := gates[1..], history + GateQueries(token, gates[0]);
      PassesInRest(s, token, gates, oracle, history);
      assert PassesAt(s, token, gates, oracle, history, 0);
      FirstFailure(s, token, rest, oracle, history', k - 1);
      RestQueries(token, gates, history, k - 1);
      if k < |gates| {
        RestQueries(token, gates, history, k);
      } else {
        assert rest[..k - 1] == rest && gates[..k] == gates;
      }
    }
  }

  lemma FailsAtHead(s: State, token: Address, gates: seq<Gate>, oracle: Oracle, history: seq<Query>)
    requires gates != []
    ensures !PassesAt(s, token, gates, oracle, history, 0) ==>
      RunGates(s, token, gates, oracle, history) ==
      (GateDecision(s, token, gates[0], oracle, history + Queries(token, gates[..0])), history + Queries(token, gates[..1]))
  {
    assert gates[..0] == [] && history + [] == history;
    assert gates[..1] == [gates[0]] && [gates[0]][1..] == [];
    assert Queries(token, [gates[0]]) == GateQueries(token, gates[0]) + Queries(token, []);
    assert GateQueries(token, gates[0]) + [] == GateQueries(token, gates[0]);
  }

  /** The calls of a prefix are those of its first gate and of the prefix of the rest. */
  lemma RestQueries(token: Address, gates: seq<Gate>, history: seq<Query>, j: nat)
    requires j < |gates|
    ensures history + GateQueries(token, gates[0]) + Queries(token, gates[1..][..j]) == history + Queries(token, gates[..j + 1])
  {
    assert gates[..j + 1][1..] == gates[1..][..j];
    assert Queries(token, gates[..j + 1]) == GateQueries(token, gates[0]) + Queries(token, gates[1..][..j]);
  }

  /** Passing is unchanged when the first gate and its calls are moved into the history. */
  lemma PassesInRest(s: State, token: Address, gates: seq<Gate>, oracle: Oracle, history: seq<Query>)
    requires gates != []
    ensures PassesAt(s, token, gates, oracle, history, 0) <==> GateDecision(s, token, gates[0], oracle, history).Allow?
    ensures forall i: nat {:trigger PassesAt(s, token, gates[1..], oracle, history + GateQueries(token, gates[0]), i)} :: i < |gates| - 1 ==>
      (PassesAt(s, token, gates[1..], oracle, history + GateQueries(token, gates[0]), i) <==> PassesAt(s, token, gates, oracle, history, i + 1))
  {
    assert gates[..0] == [] && history + [] == history;
    forall i: nat | i < |gates| - 1
      ensures history + GateQueries(token, gates[0]) + Queries(token, gates[1..][..i]) == history + Queries(token, gates[..i + 1])
    {
      RestQueries(token, gates, history, i);
    }
  }

  /** An allowed schedule passed every gate, and only an allowed one did. */
  lemma {:induction false} AllowedMeansAllPass(s: State, token: Address, gates: seq<Gate>, oracle: Oracle, history: seq<Query>)
    ensures RunGates(s, token, gates, oracle, history).0.Allow? <==>
      forall i: nat :: i < |gates| ==> PassesAt(s, token, gates, oracle, history, i)
    ensures RunGates(s, token, gates, oracle, history).0.Allow? ==>
      RunGates(s, token, gates, oracle, history).1 == history + Queries(token, gates)
  {
    if gates == [] {
      assert history + [] == history;
    } else {
      PassesInRest(s, token, gates, oracle, history);
      AllowedMeansAllPass(s, token, gates[1..], oracle, history + GateQueries(token, gates[0]));
      assert forall i: nat :: i < |gates| && i != 0 ==>
        (PassesAt(s, token, gates, oracle, history, i) <==>
         PassesAt(s, token, gates[1..], oracle, history + GateQueries(token, gates[0]), i - 1));
    }
  }

  /** Gate `k` fails and every gate before it passes. */
  ghost predicate FailsFirstAt(s: State, token: Address, gates: seq<Gate>, oracle: Oracle, history: seq<Query>, k: nat) {
    && k < |gates| && !PassesAt(s, token, gates, oracle, history, k)
    && (forall i: nat :: i < k ==> PassesAt(s, token, gates, oracle, history, i))
  }

  /** A schedule that is denied has a first failing gate. */
  lemma {:induction false} DeniedHasFirstFailing(s: State, token: Address, gates: seq<Gate>, oracle: Oracle, history: seq<Query>) returns (k: nat)
    requires RunGates(s, token, gates, oracle, history).0.Deny?
    ensures FailsFirstAt(s, token, gates, oracle, history, k)
  {
    AllowedMeansAllPass(s, token, gates, oracle, history);
    k :| k < |gates| && !PassesAt(s, token, gates, oracle, history, k);
    k := LeastFailing(s, token, gates, oracle, history, k);
  }

  lemma {:induction false} LeastFailing(s: State, token: Address, gates: seq<Gate>, oracle: Oracle, history: seq<Query>, k: nat) returns (least: nat)
    requires k < |gates| && !PassesAt(s, token, gates, oracle, history, k)
    ensures FailsFirstAt(s, token, gates, oracle, history, least)
  {
    if i: nat :| i < k && !PassesAt(s, token, gates, oracle, history, i) {
      least := LeastFailing(s, token, gates, oracle, history, i);
    } else {
      least := k;
    }
  }

  /** Where the gates of party `p` start in the schedule. */
  function Offset(config: ComplianceConfig, sac: Option<Address>, roles: seq<PartyRole>, parties: seq<Address>, p: nat): nat
    requires |roles| == |parties| && p <= |roles|
  {
    |Schedule(config, sac, roles[..p], parties[..p])|
  }

  lemma SliceOfPrefix(a: seq<Gate>, b: seq<Gate>, i: nat, j: nat)
    requires i <= j <= |a|
    ensures (a + b)[i..j] == a[i..j]
  {
  }

  lemma SliceOfSuffix(a: seq<Gate>, b: seq<Gate>)
    ensures (a + b)[|a|..|a| + |b|] == b
  {
  }

  /** The parties before the last keep their offsets. */
  lemma OffsetOfPrefix(config: ComplianceConfig, sac: Option<Address>, roles: seq<PartyRole>, parties: seq<Address>, p: nat)
    requires |roles| == |parties| && p < |roles|
    ensures
      var n := |roles| - 1;
      Offset(config, sac, roles[..n], parties[..n], p) == Offset(config, sac, roles, parties, p)
  {
    var n := |roles| - 1;
    assert roles[..n][..p] == roles[..p] && parties[..n][..p] == parties[..p];
  }

  lemma OffsetGrows(config: ComplianceConfig, sac: Option<Address>, roles: seq<PartyRole>, parties: seq<Address>, p: nat)
    requires |roles| == |parties| && p < |roles|
    ensures Offset(config, sac, roles, parties, p + 1) == Offset(config, sac, roles, parties, p) + |PartyGates(config, sac, roles[p], parties[p])|
  {
    assert roles[..p + 1][..p] == roles[..p] && parties[..p + 1][..p] == parties[..p];
  }

  /** The gates of a party stand at its offset in a schedule. */
  ghost predicate StandAt(config: ComplianceConfig, sac: Option<Address>, roles: seq<PartyRole>, parties: seq<Address>, p: nat, start: nat)
    requires |roles| == |parties| && p < |roles|
  {
    var gates, all := PartyGates(config, sac, roles[p], parties[p]), Schedule(config, sac, roles, parties);
    start + |gates| <= |all| && all[start..start + |gates|] == gates
  }

  lemma LastStandsLast(config: ComplianceConfig, sac: Option<Address>, roles: seq<PartyRole>, parties: seq<Address>)
    requires |roles| == |parties| > 0
    ensures StandAt(config, sac, roles, parties, |roles| - 1, Offset(config, sac, roles, parties, |roles| - 1))
  {
    var n := |roles| - 1;
    SliceOfSuffix(Schedule(config, sac, roles[..n], parties[..n]), PartyGates(config, sac, roles[n], parties[n]));
  }

  lemma PrefixStandsStill(config: ComplianceConfig, sac: Option<Address>, roles: seq<PartyRole>, parties: seq<Address>, p: nat, start: nat)
    requires |roles| == |parties| && p < |roles| - 1
    requires StandAt(config, sac, roles[..|roles| - 1], parties[..|roles| - 1], p, start)
    ensures StandAt(config, sac, roles, parties, p, start)
  {
    var n := |roles| - 1;
    SliceOfPrefix(Schedule(config, sac, roles[..n], parties[..n]), PartyGates(config, sac, roles[n], parties[n]),
                  start, start + |PartyGates(config, sac, roles[p], parties[p])|);
  }

  /** Schedule positions order gates by party first and by gate within the party second. */
  lemma {:induction false} SchedulePosition(config: ComplianceConfig, sac: Option<Address>, roles: seq<PartyRole>, parties: seq<Address>, p: nat)
    requires |roles| == |parties| && p < |roles|
    ensures
      var gates := PartyGates(config, sac, roles[p], parties[p]);
      var start := Offset(config, sac, roles, parties, p);
      && Offset(config, sac, roles, parties, p + 1) == start + |gates|
      && StandAt(config, sac, roles, parties, p, start)
  {
    var n := |roles| - 1;
    OffsetGrows(config, sac, roles, parties, p);
    if p == n {
      LastStandsLast(config, sac, roles, parties);
    } else {
      SchedulePosition(config, sac, roles[..n], parties[..n], p);
      OffsetOfPrefix(config, sac, roles, parties, p);
      PrefixStandsStill(config, sac, roles, parties, p, Offset(config, sac, roles, parties, p));
    }
  }

  /** Every schedule position belongs to one gate of one party. */
  lemma {:induction false} ScheduleOwner(config: ComplianceConfig, sac: Option<Address>, roles: seq<PartyRole>, parties: seq<Address>, k: nat) returns (p: nat, g: nat)
    requires |roles| == |parties| && k < |Schedule(config, sac, roles, parties)|
    ensures p < |roles| && g < |PartyGates(config, sac, roles[p], parties[p])|
    ensures k == Offset(config, sac, roles, parties, p) + g
  {
    var n := |roles| - 1;
    if k < |Schedule(config, sac, roles[..n], parties[..n])| {
      p, g := ScheduleOwner(config, sac, roles[..n], parties[..n], k);
      assert roles[..n][..p] == roles[..p] && parties[..n][..p] == parties[..p];
    } else {
      p, g := n, k - |Schedule(config, sac, roles[..n], parties[..n])|;
    }
  }

  lemma {:induction false} OffsetsGrow(config: ComplianceConfig, sac: Option<Address>, roles: seq<PartyRole>, parties: seq<Address>, p: nat, q: nat)
    requires |roles| == |parties| && p < q <= |roles|
    ensures Offset(config, sac, roles, parties, p) + |PartyGates(config, sac, roles[p], parties[p])| <= Offset(config, sac, roles, parties, q)
  {
    SchedulePosition(config, sac, roles, parties, q - 1);
    if p < q - 1 {
      OffsetsGrow(config, sac, roles, parties, p, q - 1);
    } else {
      SchedulePosition(config, sac, roles, parties, p);
    }
  }

  /** Gate `g` of party `p` exists in the schedule of an operation in scope. */
  ghost predicate IsGate(s: State, token: Address, op: Operation, parties: seq<Address>, p: nat, g: nat)
    requires s.config.Some? && IsBound(s, token) && |Parties(op)| == |parties|
  {
    p < |parties| && g < |PartyGates(s.config.value, SacOf(s, token), Parties(op)[p], parties[p])|
  }

  lemma ElementOfSlice(all: seq<Gate>, start: nat, gates: seq<Gate>, g: nat)
    requires start + |gates| <= |all| && all[start..start + |gates|] == gates && g < |gates|
    ensures all[start + g] == gates[g]
  {
    assert gates[g] == all[start..start + |gates|][g];
  }

  lemma GateStandsFrom(config: ComplianceConfig, sac: Option<Address>, roles: seq<PartyRole>, parties: seq<Address>, p: nat, g: nat, start: nat)
    requires |roles| == |parties| && p < |roles| && g < |PartyGates(config, sac, roles[p], parties[p])|
    requires StandAt(config, sac, roles, parties, p, start)
    ensures start + g < |Schedule(config, sac, roles, parties)|
    ensures Schedule(config, sac, roles, parties)[start + g] == PartyGates(config, sac, roles[p], parties[p])[g]
  {
    ElementOfSlice(Schedule(config, sac, roles, parties), start, PartyGates(config, sac, roles[p], parties[p]), g);
  }

  /** The schedule position of gate `g` of party `p`. */
  ghost function Position(s: State, token: Address, op: Operation, parties: seq<Address>, p: nat, g: nat): (k: nat)
    requires s.config.Some? && IsBound(s, token) && |Parties(op)| == |parties|
    requires IsGate(s, token, op, parties, p, g)
    ensures k < |ScheduleOf(s, token, op, parties)|
    ensures ScheduleOf(s, token, op, parties)[k] == PartyGates(s.config.value, SacOf(s, token), Parties(op)[p], parties[p])[g]
  {
    var config, sac, roles := s.config.value, SacOf(s, token), Parties(op);
    SchedulePosition(config, sac, roles, parties, p);
    var start := Offset(config, sac, roles, parties, p);
    GateStandsFrom(config, sac, roles, parties, p, g, start);
    start + g
  }

  /** Gates of earlier parties, and earlier gates of the same party, stand earlier in the schedule. */
  lemma EarlierComesFirst(s: State, token: Address, op: Operation, parties: seq<Address>, p': nat, g': nat, p: nat, g: nat)
    requires s.config.Some? && IsBound(s, token) && |Parties(op)| == |parties|
    requires IsGate(s, token, op, parties, p', g') && IsGate(s, token, op, parties, p, g)
    requires p' < p || (p' == p && g' < g)
    ensures Position(s, token, op, parties, p', g') < Position(s, token, op, parties, p, g)
  {
    if p' < p {
      OffsetsGrow(s.config.value, SacOf(s, token), Parties(op), parties, p', p);
    }
  }

  /** Every gate of an earlier party, and every earlier gate of party `p`, passes. */
  ghost predicate EarlierGatesPass(s: State, token: Address, op: Operation, parties: seq<Address>, oracle: Oracle, history: seq<Query>, p: nat, g: nat)
    requires s.config.Some? && IsBound(s, token) && |Parties(op)| == |parties|
  {
    forall p': nat, g': nat :: IsGate(s, token, op, parties, p', g') && (p' < p || (p' == p && g' < g)) ==>
      PassesAt(s, token, ScheduleOf(s, token, op, parties), oracle, history, Position(s, token, op, parties, p', g'))
  }

  /** An operation in scope is denied by the lexicographically least failing
      (party, gate) pair, after exactly the external calls up to that gate. */
  lemma DeniedByFirstFailingPartyAndGate(s: State, token: Address, op: Operation, parties: seq<Address>, oracle: Oracle, history: seq<Query>)
    requires s.config.Some? && IsBound(s, token) && |Parties(op)| == |parties|
    requires Evaluate(s, token, op, parties, oracle, history).0.Deny?
    ensures exists p: nat, g: nat ::
      && IsGate(s, token, op, parties, p, g)
      && EarlierGatesPass(s, token, op, parties, oracle, history, p, g)
      && var gates := ScheduleOf(s, token, op, parties);
      && var k := Position(s, token, op, parties, p, g);
      && !PassesAt(s, token, gates, oracle, history, k)
      && Evaluate(s, token, op, parties, oracle, history) ==
         (GateDecision(s, token, gates[k], oracle, history + Queries(token, gates[..k])), history + Queries(token, gates[..k + 1]))
  {
    var config, sac, roles := s.config.value, SacOf(s, token), Parties(op);
    var gates := ScheduleOf(s, token, op, parties);
    var k := DeniedHasFirstFailing(s, token, gates, oracle, history);
    FirstFailure(s, token, gates, oracle, history, k);
    var p, g := ScheduleOwner(config, sac, roles, parties, k);
    assert IsGate(s, token, op, parties, p, g) && Position(s, token, op, parties, p, g) == k;
    forall p': nat, g': nat | IsGate(s, token, op, parties, p', g') && (p' < p || (p' == p && g' < g))
      ensures PassesAt(s, token, gates, oracle, history, Position(s, token, op, parties, p', g'))
    {
      EarlierComesFirst(s, token, op, parties, p', g', p, g);
    }
    assert EarlierGatesPass(s, token, op, parties, oracle, history, p, g);
  }

  /******* How many external calls an allowed operation makes *******/

  function CountPolicy(calls: seq<Query>): nat {
    if calls == [] then 0 else (if calls[0].PolicyQuery? then 1 else 0) + CountPolicy(calls[1..])
  }

  function CountSac(calls: seq<Query>): nat {
    if calls == [] then 0 else (if calls[0].SacQuery? then 1 else 0) + CountSac(calls[1..])
  }

  function FundHolders(roles: seq<PartyRole>): nat {
    if roles == [] then 0
    else FundHolders(roles[..|roles| - 1]) + (if HoldsFunds(roles[|roles| - 1]) then 1 else 0)
  }

  lemma {:induction false} CountsConcat(a: seq<Query>, b: seq<Query>)
    ensures CountPolicy(a + b) == CountPolicy(a) + CountPolicy(b)
    ensures CountSac(a + b) == CountSac(a) + CountSac(b)
  {
    if a == [] {
      assert a + b == b;
    } else {
      assert (a + b)[1..] == a[1..] + b;
      CountsConcat(a[1..], b);
    }
  }

  /** The calls of one party's gates. */
  lemma PartyQueries(token: Address, config: ComplianceConfig, sac: Option<Address>, role: PartyRole, account: Address)
    ensures
      Queries(token, PartyGates(config, sac, role, account)) ==
      (if config.policy.Some? then [PolicyQuery(config.policy.value, account, token)] else [])
      + (if HoldsFunds(role) && config.sacPassthrough && sac.Some? then [SacQuery(sac.value, account)] else [])
  {
    var freeze := if HoldsFunds(role) then [FreezeGate(account)] else [];
    var policy := if config.policy.Some? then [PolicyGate(role, config.policy.value, account)] else [];
    var last := if HoldsFunds(role) && config.sacPassthrough && sac.Some? then [SacGate(sac.value, account)] else [];
    QueriesConcat(token, freeze + policy, last);
    QueriesConcat(token, freeze, policy);
  }

  lemma PartyCounts(token: Address, config: ComplianceConfig, sac: Option<Address>, role: PartyRole, account: Address)
    ensures
      var calls := Queries(token, PartyGates(config, sac, role, account));
      && CountPolicy(calls) == (if config.policy.Some? then 1 else 0)
      && CountSac(calls) == (if HoldsFunds(role) && config.sacPassthrough && sac.Some? then 1 else 0)
  {
    PartyQueries(token, config, sac, role, account);
    var asked := if config.policy.Some? then [PolicyQuery(config.policy.value, account, token)] else [];
    var last := if HoldsFunds(role) && config.sacPassthrough && sac.Some? then [SacQuery(sac.value, account)] else [];
    CountsConcat(asked, last);
  }

  /** A full schedule asks the policy once per role and the SAC once per fund-holding role. */
  lemma {:induction false} ScheduleCounts(token: Address, config: ComplianceConfig, sac: Option<Address>, roles: seq<PartyRole>, parties: seq<Address>)
    requires |roles| == |parties|
    ensures
      var calls := Queries(token, Schedule(config, sac, roles, parties));
      && CountPolicy(calls) == (if config.policy.Some? then |roles| else 0)
      && CountSac(calls) == (if config.sacPassthrough && sac.Some? then FundHolders(roles) else 0)
  {
    if roles != [] {
      var n := |roles| - 1;
      ScheduleCounts(token, config, sac, roles[..n], parties[..n]);
      PartyCounts(token, config, sac, roles[n], parties[n]);
      var init, last := Schedule(config, sac, roles[..n], parties[..n]), PartyGates(config, sac, roles[n], parties[n]);
      QueriesConcat(token, init, last);
      CountsConcat(Queries(token, init), Queries(token, last));
    }
  }

  /** An allowed operation made every external call of its schedule, and no other. */
  lemma AllowedCallCounts(s: State, token: Address, op: Operation, parties: seq<Address>, oracle: Oracle, history: seq<Query>)
    requires Evaluate(s, token, op, parties, oracle, history).0.Allow?
    ensures s.config.Some? && IsBound(s, token) && |Parties(op)| == |parties|
    ensures
      var calls := Queries(token, ScheduleOf(s, token, op, parties));
      && Evaluate(s, token, op, parties, oracle, history).1 == history + calls
      && CountPolicy(calls) == (if s.config.value.policy.Some? then |Parties(op)| else 0)
      && CountSac(calls) == (if s.config.value.sacPassthrough && SacOf(s, token).Some? then FundHolders(Parties(op)) else 0)
  {
    var gates := ScheduleOf(s, token, op, parties);
    AllowedMeansAllPass(s, token, gates, oracle, history);
    ScheduleCounts(token, s.config.value, SacOf(s, token), Parties(op), parties);
  }

  /******* What is asked of other contracts, spelled out *******/

  /** What an operation asks when nothing fails: party by party, the policy about
      the party on the token, then the SAC about a fund-holder. */
  function Questions(config: ComplianceConfig, sac: Option<Address>, token: Address, roles: seq<PartyRole>, parties: seq<Address>): seq<Query>
    requires |roles| == |parties|
  {
    if roles == [] then []
    else
      var n := |roles| - 1;
      Questions(config, sac, token, roles[..n], parties[..n])
      + ((if config.policy.Some? then [PolicyQuery(config.policy.value, parties[n], token)] else [])
         + (if HoldsFunds(roles[n]) && config.sacPassthrough && sac.Some? then [SacQuery(sac.value, parties[n])] else []))
  }

  /** What is asked about the party that an operation is refused for. */
  function LastQuestions(reason: RejectionReason, config: ComplianceConfig, sac: Option<Address>, token: Address, account: Address): seq<Query> {
    var policy := if config.policy.Some? then [PolicyQuery(config.policy.value, account, token)] else [];
    match reason
    case PolicyDenied => policy
    case SpenderNotAuthorized => policy
    case PolicyUnavailable => policy
    case SacAuthorizationFailed => policy + (if sac.Some? then [SacQuery(sac.value, account)] else [])
    case _ => []
  }

  /** Why one party is refused, given what was asked before it. */
  ghost predicate RefusedFor(s: State, token: Address, config: ComplianceConfig, sac: Option<Address>, role: PartyRole, account: Address, oracle: Oracle, asked: seq<Query>, reason: RejectionReason) {
    var frozen := HoldsFunds(role) && IsFrozen(s, token, account);
    var verdict := if config.policy.Some? then oracle(asked, PolicyQuery(config.policy.value, account, token)) else Yes;
    var later := asked + (if config.policy.Some? then [PolicyQuery(config.policy.value, account, token)] else []);
    match reason
    case AccountFrozen => frozen
    case PolicyDenied => !frozen && verdict == No && role != Spender
    case SpenderNotAuthorized => !frozen && verdict == No && role == Spender
    case PolicyUnavailable => !frozen && verdict == Failed
    case SacAuthorizationFailed =>
      !frozen && verdict == Yes && HoldsFunds(role) && config.sacPassthrough && sac.Some? && oracle(later, SacQuery(sac.value, account)) != Yes
    case _ => false
  }

  /** The parties before `p` are allowed, party `p` is refused, and nothing is asked beyond it. */
  ghost predicate RefusedAt(s: State, token: Address, config: ComplianceConfig, sac: Option<Address>, roles: seq<PartyRole>, parties: seq<Address>, oracle: Oracle, reason: RejectionReason, calls: seq<Query>, p: nat)
    requires |roles| == |parties|
  {
    && p < |roles|
    && RunGates(s, token, Schedule(config, sac, roles[..p], parties[..p]), oracle, []).0.Allow?
    && var asked := Questions(config, sac, token, roles[..p], parties[..p]);
    && RefusedFor(s, token, config, sac, roles[p], parties[p], oracle, asked, reason)
    && calls == asked + LastQuestions(reason, config, sac, token, parties[p])
  }

  /** The calls of a full schedule are the questions, spelled out. */
  lemma {:induction false} ScheduleAsks(token: Address, config: ComplianceConfig, sac: Option<Address>, roles: seq<PartyRole>, parties: seq<Address>)
    requires |roles| == |parties|
    ensures Queries(token, Schedule(config, sac, roles, parties)) == Questions(config, sac, token, roles, parties)
  {
    if roles != [] {
      var n := |roles| - 1;
      ScheduleAsks(token, config, sac, roles[..n], parties[..n]);
      PartyQueries(token, config, sac, roles[n], parties[n]);
      QueriesConcat(token, Schedule(config, sac, roles[..n], parties[..n]), PartyGates(config, sac, roles[n], parties[n]));
    }
  }

  /** Allowed parties were asked about in full. */
  lemma AllowedAsks(s: State, token: Address, config: ComplianceConfig, sac: Option<Address>, roles: seq<PartyRole>, parties: seq<Address>, oracle: Oracle)
    requires |roles| == |parties|
    requires RunGates(s, token, Schedule(config, sac, roles, parties), oracle, []).0.Allow?
    ensures RunGates(s, token, Schedule(config, sac, roles, parties), oracle, []).1 == Questions(config, sac, token, roles, parties)
  {
    AllowedMeansAllPass(s, token, Schedule(config, sac, roles, parties), oracle, []);
    ScheduleAsks(token, config, sac, roles, parties);
    assert [] + Questions(config, sac, token, roles, parties) == Questions(config, sac, token, roles, parties);
  }

  lemma PartyRefused(s: State, token: Address, config: ComplianceConfig, sac: Option<Address>, role: PartyRole, account: Address, oracle: Oracle, asked: seq<Query>)
    requires RunGates(s, token, PartyGates(config, sac, role, account), oracle, asked).0.Deny?
    ensures
      var (decision, calls) := RunGates(s, token, PartyGates(config, sac, role, account), oracle, asked);
      && RefusedFor(s, token, config, sac, role, account, oracle, asked, decision.reason)
      && calls == asked + LastQuestions(decision.reason, config, sac, token, account)
  {
    PartyOutcome(s, token, config, sac, role, account, oracle, asked);
    assert asked + [] == asked;
  }

  /** A refused schedule is refused for one party, after exactly the questions
      about the parties before it and its own up to the gate that fails. */
  lemma {:induction false} RefusedAsks(s: State, token: Address, config: ComplianceConfig, sac: Option<Address>, roles: seq<PartyRole>, parties: seq<Address>, oracle: Oracle) returns (p: nat)
    requires |roles| == |parties|
    requires RunGates(s, token, Schedule(config, sac, roles, parties), oracle, []).0.Deny?
    ensures
      var (decision, calls) := RunGates(s, token, Schedule(config, sac, roles, parties), oracle, []);
      RefusedAt(s, token, config, sac, roles, parties, oracle, decision.reason, calls, p)
  {
    var n := |roles| - 1;
    var init, last := Schedule(config, sac, roles[..n], parties[..n]), PartyGates(config, sac, roles[n], parties[n]);
    RunGatesConcat(s, token, init, last, oracle, []);
    var first := RunGates(s, token, init, oracle, []);
    if first.0.Deny? {
      p := RefusedAsks(s, token, config, sac, roles[..n], parties[..n], oracle);
      assert roles[..n][..p] == roles[..p] && parties[..n][..p] == parties[..p];
    } else {
      p := n;
      AllowedAsks(s, token, config, sac, roles[..n], parties[..n], oracle);
      PartyRefused(s, token, config, sac, roles[n], parties[n], oracle, first.1);
    }
  }

  /** No fund-holder of an allowed operation is frozen. */
  lemma {:induction false} AllowedMeansNotFrozen(s: State, token: Address, op: Operation, parties: seq<Address>, oracle: Oracle, history: seq<Query>, p: nat)
    requires Evaluate(s, token, op, parties, oracle, history).0.Allow?
    requires p < |Parties(op)| && HoldsFunds(Parties(op)[p])
    ensures |parties| == |Parties(op)| && !IsFrozen(s, token, parties[p])
  {
    var config, sac, roles := s.config.value, SacOf(s, token), Parties(op);
    var gates := Schedule(config, sac, roles, parties);
    AllowedMeansAllPass(s, token, gates, oracle, history);
    SchedulePosition(config, sac, roles, parties, p);
    var start := Offset(config, sac, roles, parties, p);
    assert PartyGates(config, sac, roles[p], parties[p])[0] == FreezeGate(parties[p]);
    assert gates[start] == gates[start..start + |PartyGates(config, sac, roles[p], parties[p])|][0];
    assert PassesAt(s, token, gates, oracle, history, start);
  }

  /******* The loop equals the algebra of decisions *******/

  /** One party screened on its own. */
  function ScreenParty(s: State, token: Address, config: ComplianceConfig, sac: Option<Address>, role: PartyRole, account: Address, oracle: Oracle): Decision {
    RunGates(s, token, PartyGates(config, sac, role, account), oracle, []).0
  }

  /** Every party screened on its own, whatever the others' decisions are. */
  function ScreenAll(s: State, token: Address, config: ComplianceConfig, sac: Option<Address>, roles: seq<PartyRole>, parties: seq<Address>, oracle: Oracle): seq<Decision>
    requires |roles| == |parties|
  {
    seq(|roles|, i requires 0 <= i < |roles| => ScreenParty(s, token, config, sac, roles[i], parties[i], oracle))
  }

  function FoldAndThen(start: Decision, decisions: seq<Decision>): Decision {
    if decisions == [] then start
    else FoldAndThen(start, decisions[..|decisions| - 1]).AndThen(decisions[|decisions| - 1])
  }

  /** A stable oracle makes the verdict of a schedule independent of earlier calls. */
  lemma {:induction false} StableIgnoresHistory(s: State, token: Address, gates: seq<Gate>, oracle: Oracle, h1: seq<Query>, h2: seq<Query>)
    requires Stable(oracle)
    ensures RunGates(s, token, gates, oracle, h1).0 == RunGates(s, token, gates, oracle, h2).0
  {
    if gates != [] {
      var query := GateQueries(token, gates[0]);
      assert GateDecision(s, token, gates[0], oracle, h1) == GateDecision(s, token, gates[0], oracle, h2) by {
        if query != [] {
          assert oracle(h1, query[0]) == oracle([], query[0]);
          assert oracle(h2, query[0]) == oracle([], query[0]);
        }
      }
      StableIgnoresHistory(s, token, gates[1..], oracle, h1 + query, h2 + query);
    }
  }

  /** The short-circuiting loop is the left fold of `and_then` over independently screened parties. */
  lemma {:induction false} LoopEqualsAlgebra(s: State, token: Address, config: ComplianceConfig, sac: Option<Address>, roles: seq<PartyRole>, parties: seq<Address>, oracle: Oracle, history: seq<Query>)
    requires |roles| == |parties| && Stable(oracle)
    ensures
      RunGates(s, token, Schedule(config, sac, roles, parties), oracle, history).0 ==
      FoldAndThen(Allow, ScreenAll(s, token, config, sac, roles, parties, oracle))
  {
    if roles != [] {
      var n := |roles| - 1;
      var init, last := Schedule(config, sac, roles[..n], parties[..n]), PartyGates(config, sac, roles[n], parties[n]);
      LoopEqualsAlgebra(s, token, config, sac, roles[..n], parties[..n], oracle, history);
      RunGatesConcat(s, token, init, last, oracle, history);
      StableIgnoresHistory(s, token, last, oracle, RunGates(s, token, init, oracle, history).1, []);
      var all := ScreenAll(s, token, config, sac, roles, parties, oracle);
      assert all[..n] == ScreenAll(s, token, config, sac, roles[..n], parties[..n], oracle);
    }
  }

  lemma ScheduleOfOne(config: ComplianceConfig, sac: Option<Address>, role: PartyRole, account: Address)
    ensures Schedule(config, sac, [role], [account]) == PartyGates(config, sac, role, account)
  {
    assert Schedule(config, sac, [role], [account]) == Schedule(config, sac, [], []) + PartyGates(config, sac, role, account);
  }

  lemma ScheduleOfTwo(config: ComplianceConfig, sac: Option<Address>, r1: PartyRole, a1: Address, r2: PartyRole, a2: Address)
    ensures Schedule(config, sac, [r1, r2], [a1, a2]) == PartyGates(config, sac, r1, a1) + PartyGates(config, sac, r2, a2)
  {
    assert [r1, r2][..1] == [r1] && [a1, a2][..1] == [a1];
    ScheduleOfOne(config, sac, r1, a1);
  }

  /** A withdrawal screens its account once per role: the verdict is that of one
      screening, and an allowed withdrawal makes each external call twice. */
  lemma {:induction false} WithdrawScreensTwice(s: State, token: Address, account: Address, oracle: Oracle, history: seq<Query>)
    requires Stable(oracle)
    ensures
      var double := Evaluate(s, token, Withdraw, [account, account], oracle, history);
      var single := Evaluate(s, token, Merge, [account], oracle, history);
      && double.0 == single.0
      && (double.0.Allow? ==> exists calls ::
            single.1 == history + calls && double.1 == history + calls + calls)
  {
    if s.config.Some? && IsBound(s, token) {
      var config, sac := s.config.value, SacOf(s, token);
      var from, to, one := PartyGates(config, sac, From, account), PartyGates(config, sac, To, account), PartyGates(config, sac, Account, account);
      ScheduleOfTwo(config, sac, From, account, To, account);
      ScheduleOfOne(config, sac, Account, account);
      RunGatesConcat(s, token, from, to, oracle, history);
      StableIgnoresHistory(s, token, to, oracle, RunGates(s, token, from, oracle, history).1, history);
      FundHoldersScreenAlike(s, token, config, sac, From, Account, account, oracle, history);
      FundHoldersScreenAlike(s, token, config, sac, To, Account, account, oracle, history);
      if RunGates(s, token, one, oracle, history).0.Allow? {
        AllowedMeansAllPass(s, token, one, oracle, history);
        AllowedMeansAllPass(s, token, from, oracle, history);
        AllowedMeansAllPass(s, token, to, oracle, RunGates(s, token, from, oracle, history).1);
        PartyQueries(token, config, sac, From, account);
        PartyQueries(token, config, sac, To, account);
        PartyQueries(token, config, sac, Account, account);
      }
    }
  }

  /** Two fund-holding roles are screened alike. */
  lemma FundHoldersScreenAlike(s: State, token: Address, config: ComplianceConfig, sac: Option<Address>, r1: PartyRole, r2: PartyRole, account: Address, oracle: Oracle, history: seq<Query>)
    requires HoldsFunds(r1) && HoldsFunds(r2)
    ensures RunGates(s, token, PartyGates(config, sac, r1, account), oracle, history) == RunGates(s, token, PartyGates(config, sac, r2, account), oracle, history)
  {
    AlikeGates(s, token, PartyGates(config, sac, r1, account), PartyGates(config, sac, r2, account), oracle, history);
  }

  lemma {:induction false} AlikeGates(s: State, token: Address, a: seq<Gate>, b: seq<Gate>, oracle: Oracle, history: seq<Query>)
    requires |a| == |b|
    requires forall i :: 0 <= i < |a| ==>
      a[i] == b[i] || (a[i].PolicyGate? && b[i].PolicyGate? && a[i].(role := b[i].role) == b[i] && (a[i].role == Spender <==> b[i].role == Spender))
    ensures RunGates(s, token, a, oracle, history) == RunGates(s, token, b, oracle, history)
  {
    if a != [] {
      assert GateDecision(s, token, a[0], oracle, history) == GateDecision(s, token, b[0], oracle, history);
      AlikeGates(s, token, a[1..], b[1..], oracle, history + GateQueries(token, a[0]));
    }
  }

  /******* Restriction is monotone *******/

  /** `strict` has at least the frozen flags of `loose`, at most its bound tokens
      with the same SACs, and the same configuration. */
  ghost predicate AtLeastAsStrict(strict: State, loose: State) {
    && strict.config == loose.config
    && (forall token, account :: IsFrozen(loose, token, account) ==> IsFrozen(strict, token, account))
    && (forall token :: IsBound(strict, token) ==> IsBound(loose, token) && SacOf(loose, token) == SacOf(strict, token))
  }

  /** `strict` says yes only where `loose` does. */
  ghost predicate AnswersSubset(strict: Oracle, loose: Oracle) {
    forall history, query :: strict(history, query) == Yes ==> loose(history, query) == Yes
  }

  lemma {:induction false} GatesMonotone(strict: State, loose: State, token: Address, gates: seq<Gate>, o1: Oracle, o2: Oracle, history: seq<Query>)
    requires AtLeastAsStrict(strict, loose) && AnswersSubset(o1, o2)
    requires RunGates(strict, token, gates, o1, history).0.Allow?
    ensures RunGates(loose, token, gates, o2, history) == RunGates(strict, token, gates, o1, history)
  {
    if gates != [] {
      assert GateDecision(strict, token, gates[0], o1, history).Allow?;
      var query := GateQueries(token, gates[0]);
      if query != [] {
        assert o1(history, query[0]) == Yes;
        assert o2(history, query[0]) == Yes;
      }
      GatesMonotone(strict, loose, token, gates[1..], o1, o2, history + query);
    }
  }

  /** Whatever a stricter deployment allows, a looser one allows, with the same external calls. */
  lemma RestrictionIsMonotone(strict: State, loose: State, token: Address, op: Operation, parties: seq<Address>, o1: Oracle, o2: Oracle, history: seq<Query>)
    requires AtLeastAsStrict(strict, loose) && AnswersSubset(o1, o2)
    requires Evaluate(strict, token, op, parties, o1, history).0.Allow?
    ensures Evaluate(loose, token, op, parties, o2, history) == Evaluate(strict, token, op, parties, o1, history)
  {
    GatesMonotone(strict, loose, token, ScheduleOf(strict, token, op, parties), o1, o2, history);
  }
}
