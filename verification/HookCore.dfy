/** The vocabulary of the enforcement layer: addresses, roles, operations,
    rejection reasons and decisions. */
module HookCore {

  datatype Option<+T> = None | Some(value: T) {
    function GetOr(default: T): T {
      if Some? then value else default
    }
  }

  /** An unsigned 32-bit integer of the contract; arithmetic on it is checked. */
  const U32_MAX: nat := 0xFFFF_FFFF
  type U32 = n: nat | n <= U32_MAX

  /** A ledger address, known by its printed form. */
  datatype Address = Address(strkey: string)

  /******* Roles and operations *******/

  datatype PartyRole = Account | From | To | Spender

  datatype GateClass = Full | PolicyOnly

  function GateClassOf(role: PartyRole): GateClass {
    match role
    case Account => Full
    case From => Full
    case To => Full
    case Spender => PolicyOnly
  }

  predicate HoldsFunds(role: PartyRole) {
    GateClassOf(role) == Full
  }

  datatype Operation = Register | Deposit | Merge | Transfer | TransferFrom | Withdraw

  /** The roles an operation screens, in canonical order. */
  function Parties(op: Operation): seq<PartyRole> {
    match op
    case Register => [Account]
    case Merge => [Account]
    case Deposit => [From, To]
    case Transfer => [From, To]
    case Withdraw => [From, To]
    case TransferFrom => [Spender, From, To]
  }

  /******* Reasons and errors *******/

  datatype RejectionReason =
    | UnboundToken
    | PolicyDenied
    | AccountFrozen
    | SpenderNotAuthorized
    | SacAuthorizationFailed
    | InvalidConfiguration
    | PolicyUnavailable

  const ALL_REASONS: seq<RejectionReason> :=
    [UnboundToken, PolicyDenied, AccountFrozen, SpenderNotAuthorized,
     SacAuthorizationFailed, InvalidConfiguration, PolicyUnavailable]

  function Code(reason: RejectionReason): U32 {
    match reason
    case UnboundToken => 2
    case PolicyDenied => 3
    case AccountFrozen => 4
    case SpenderNotAuthorized => 5
    case SacAuthorizationFailed => 8
    case InvalidConfiguration => 9
    case PolicyUnavailable => 10
  }

  /** The first reason in a list that carries a code. */
  function FindCode(reasons: seq<RejectionReason>, code: U32): Option<RejectionReason> {
    if reasons == [] then None
    else if Code(reasons[0]) == code then Some(reasons[0])
    else FindCode(reasons[1..], code)
  }

  function FromCode(code: U32): Option<RejectionReason> {
    FindCode(ALL_REASONS, code)
  }

  /** What an entry point of the contract reverts with. */
  datatype ContractError = Rejection(reason: RejectionReason) | AlreadyInitialized

  function ErrorCode(error: ContractError): U32 {
    match error
    case Rejection(reason) => Code(reason)
    case AlreadyInitialized => 12
  }

  /******* Decisions *******/

  datatype Decision = Allow | Deny(reason: RejectionReason) {
    /** Denies with the earlier reason. */
    function AndThen(next: Decision): Decision {
      if Deny? then this else next
    }
  }

  /******* External contracts *******/

  /** A question put to a policy contract or to a Stellar Asset Contract. */
  datatype Query =
    | PolicyQuery(policy: Address, account: Address, token: Address)
    | SacQuery(sac: Address, holder: Address)

  /** What came back: a boolean, or no usable answer at all. */
  datatype Verdict = Yes | No | Failed

  /** External contracts may keep state of their own, so an answer depends on
      every question already put to them. */
  type Oracle = (seq<Query>, Query) -> Verdict

  /** An oracle whose answers do not depend on what was asked before. */
  ghost predicate Stable(oracle: Oracle) {
    forall history, query :: oracle(history, query) == oracle([], query)
  }

  /** FromCode finds exactly the reason that carries the code. */
  lemma {:induction false} FromCodeIsInverse(code: U32)
    ensures FromCode(code).Some? ==> Code(FromCode(code).value) == code
    ensures forall reason :: Code(reason) == code ==> FromCode(code) == Some(reason)
  {
    FindCodeFindsFirst(ALL_REASONS, code);
    forall reason | Code(reason) == code
      ensures FromCode(code) == Some(reason)
    {
      assert ALL_REASONS[0] == UnboundToken && ALL_REASONS[1] == PolicyDenied && ALL_REASONS[2] == AccountFrozen
        && ALL_REASONS[3] == SpenderNotAuthorized && ALL_REASONS[4] == SacAuthorizationFailed
        && ALL_REASONS[5] == InvalidConfiguration && ALL_REASONS[6] == PolicyUnavailable;
      assert reason in ALL_REASONS;
    }
  }

  lemma {:induction false} FindCodeFindsFirst(reasons: seq<RejectionReason>, code: U32)
    ensures FindCode(reasons, code).Some? ==> Code(FindCode(reasons, code).value) == code
    ensures (exists r :: r in reasons && Code(r) == code) ==> FindCode(reasons, code).Some?
  {
    if reasons != [] && Code(reasons[0]) != code {
      FindCodeFindsFirst(reasons[1..], code);
      assert forall r :: r in reasons ==> r == reasons[0] || r in reasons[1..];
    }
  }
}
