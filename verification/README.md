# The compliance hooks contract, modelled and proved in Dafny

The repository enforces compliance on confidential tokens: a Soroban contract
keeps an admin, a configuration, the tokens in scope and the frozen accounts,
and answers six hook calls with "go ahead" or a reason for refusal. This project
models that contract with its ledger lifetimes, its gate pipeline and its event
log, the operator's tool that deploys and judges it, and the two algorithms its
property suites rest on, and proves what they promise over every input and every
run.

`dafny verify dfyconfig.toml` checks everything.

## How the model is built

The contract exists three times, and each form is proved against the next.

* `Contract.ComplianceHooks` is a class over `DataKey`-indexed instance and
  persistent storage. Its methods run the entry points step by step, renew
  lifetimes as they read, and `Invoke` is the host frame that restores storage,
  lifetimes and events of a failed call.
* `Machine.Apply` is the same contract as a transition function over the typed
  state of `Ledger.State`; `Machine.Run` and `Machine.Answers` are runs of it.
  Each `Step` of a run carries its ledger sequence number, the call, the set of
  addresses that signed, and the oracle that answers for policy and SAC
  contracts.
* `Mirror.Mirror` is the small mirror of sets that the randomized suite keeps,
  with its own prediction of every answer: no lifetimes, no log, no gates.

Over runs: `Audit` (the event log), `Isolation` (tokens do not see each other),
`Erasure` (which calls can be removed), `Leases` (lifetimes and freezes).
`Evaluator` holds the gate pipeline as a schedule of gates and the laws of
short-circuiting. `Operator`, `Deployment` and `RevertText` are the tool on top.
`SplitMix`, `Combos` and `PropertySuite` are the suites' own algorithms.

External contracts may keep state: an `Oracle` maps the questions put so far and
the next question to yes, no or no usable answer. Results about order and number
of external calls hold for every oracle; results that compare two ways of asking
require a `Stable` one, whose answers do not depend on what was asked before.

## What is assumed of the network

* The host refuses re-entry into the contract while one of its calls runs.
* A frame that fails restores all storage, lifetimes and events of that frame.
* `extend_ttl(threshold, extend_to)` moves an entry whose remaining lifetime is
  at most the threshold to `extend_to`, and never shortens a lifetime; the
  network's maximum lifetime is at least `TTL_EXTEND_TO`.
* A write to a live entry keeps its lifetime. A new entry, or one whose lifetime
  has ended, gets the lifetime `grant` from the network, which is any constant.
* An entry whose lifetime has ended reads as absent, as
  `crates/storage/src/bindings.rs:34-36` and `crates/storage/src/freeze.rs:8-10`
  take it. Instance storage stays live.
* The ledger sequence does not run backwards.

## Where the prose and the code differ

The model follows the code.

* An unconfigured contract denies (`crates/compliance/src/evaluator.rs:41-43`);
  `crates/storage/src/config.rs:8-12` calls it inert.
* A blocked spender is `SpenderNotAuthorized`
  (`crates/compliance/src/evaluator.rs:99-103`); `docs/delegated-transfers.md:24`
  says `PolicyDenied`.
* A `set_config` that changes nothing stamps no layout version
  (`contracts/compliance-hooks/src/lib.rs:177-179`); `docs/storage.md:28-30`
  says the first `set_config` stamps. `Audit.OnlyEffectiveRewritesStamp` states
  which ones do.
* `crates/storage/src/freeze.rs:8-10` and `docs/storage.md:52-53` promise that a
  flag in active use never expires. A hook that meets the flag is refused, and
  its renewal is discarded with it, so hook traffic never keeps a freeze in
  force: `Leases.TrafficNeverKeepsAFreeze` says exactly when such an account
  thaws, `Leases.ProbedFreezeThaws` is an instance, and `Leases.FreezeIsKept`
  says what does keep a freeze.
* `docs/freezing.md` and the invariants suite say a freeze lasts until it is
  unfrozen. It lasts until it is unfrozen or its flag lapses, and
  `Leases.FrozenUntilUnfrozen` proves exactly that for every run.
* `docs/events.md` has events mark state transitions, so the freeze events of an
  account alternate. A freeze of a flag that lapsed in between publishes a second
  `AccountFrozen`: `Audit.LapsedRefreezeRepeatsEvent` is an instance, and
  `Audit.FreezeEventsAlternate` proves that this is the only exception.
* The invariants suite says hook calls never write enforcement state. They renew
  the binding they read, and that can be seen: a hook can keep a binding in scope
  that would have lapsed (`Erasure.HookRenewalIsObservable`), and, by renewing
  early, make one lapse a ledger sooner (`Erasure.HookRenewalCanShorten`).
  `Erasure.HooksAreErasable` says exactly when removing hooks is unobservable, and
  `Erasure.TimelyUseErasure` gives a rule on the remaining calls that ensures it.
* `cli/src/stellar.rs:249-253` speaks of codes 1 to 11 and of no result for codes
  the tool does not know; only the seven codes that a reason carries decode to a
  reason, 12 to a second initialization, and every other code to an unknown one.

The four points about lapses (freezes under hook traffic, freezes until unfrozen,
alternating freeze events, hooks that leave traces) rest on the assumption that an
entry whose lifetime has ended reads as absent. On a network that archives such an
entry, a call that touches it fails, or restores it first, instead of seeing
nothing there; those points then do not arise in this form.

## Model

| member | source | states |
|---|---|---|
| HookCore.FromCodeIsInverse | crates/hook-core/src/reason.rs:77-105 | the lookup by code finds a reason if and only if that reason carries the code |
| Ledger.Renewed | crates/storage/src/lib.rs:56-71 | renewal never shortens a lifetime, leaves at least 501,120 ledgers, and moves only lifetimes that were down to that, to 30 days |
| Ledger.TouchIsIdempotent | crates/compliance/src/evaluator.rs:46-51 | the second read of a binding in one evaluation renews nothing more than the first |
| Evaluator.PartyOutcome | crates/compliance/src/evaluator.rs:75-123 | verdict and external calls of one party in every case: freeze before policy before SAC, who is exempt, which reason each failure gets |
| Evaluator.FirstFailure | crates/compliance/src/evaluator.rs:58-68 | if the gates before the k-th pass, the verdict is that of gate k and the calls made are exactly those of the gates up to it; with no gate k the operation is allowed |
| Evaluator.AllowedMeansAllPass | crates/compliance/src/evaluator.rs:58-68 | a schedule is allowed if and only if every gate, asked after the calls before it, passes |
| Evaluator.DeniedByFirstFailingPartyAndGate | crates/compliance/src/evaluator.rs:33-123 | a denied operation is denied by the lexicographically least failing (party, gate), with that gate's reason and exactly the external calls up to it, for oracles with any state |
| Evaluator.SchedulePosition | crates/hook-core/src/operation.rs:56-64 | the gates of party p stand together in the schedule after those of every earlier party |
| Evaluator.EarlierComesFirst | crates/compliance/src/evaluator.rs:58-68 | gates of earlier parties, and earlier gates of a party, stand earlier in the schedule |
| Evaluator.ScheduleCounts | crates/compliance/src/evaluator.rs:94-118 | a full schedule asks the policy once per role if one is set, and the SAC once per fund-holding role if passthrough is on and the binding has a SAC |
| Evaluator.AllowedCallCounts | crates/compliance/src/evaluator.rs:33-69 | an allowed operation was configured, bound and of the right arity, and made exactly the external calls of its schedule, in that number |
| Evaluator.StructuralDenials | crates/compliance/src/evaluator.rs:41-56 | the structural checks in order, with their reasons, for every operation and party list; they ask nothing |
| Evaluator.ScheduleAsks | crates/compliance/src/evaluator.rs:94-118 | the calls of a full schedule are, party by party, the policy question if a policy is set and the SAC question for a fund-holder with passthrough and a SAC |
| Evaluator.RefusedAsks | crates/compliance/src/evaluator.rs:58-123 | a refused schedule is refused for one party, for the reason its own gates give, after exactly the questions about earlier parties and its own up to the failing gate |
| Machine.HookCallsMade | contracts/compliance-hooks/src/lib.rs:249-293 | the same for a hook: nothing is asked unless configured and bound, all questions when allowed, the prefix up to the failing gate when refused |
| Evaluator.AllowedMeansNotFrozen | crates/compliance/src/evaluator.rs:87-89 | no party of an allowed operation that holds funds is frozen |
| Evaluator.LoopEqualsAlgebra | crates/hook-core/src/decision.rs:41-46 | with a stable oracle the short-circuiting loop equals the left fold of and_then over all parties screened on their own |
| Evaluator.WithdrawScreensTwice | crates/compliance/src/evaluator.rs:161-164 | a withdrawal has the verdict of one screening, and when allowed makes the calls of that screening twice over |
| Evaluator.RestrictionIsMonotone | crates/compliance/src/evaluator.rs:33-123 | more frozen flags, fewer bound tokens and oracles that say yes less often allow no operation that the looser side refuses, and make the same calls where they allow |
| Evaluator.GatesSeeFlagsOnly | crates/compliance/src/evaluator.rs:75-123 | of the stored state, the gates of a token see only that token's freeze flags |
| Evaluator.DeniedPrefixDecides | crates/compliance/src/evaluator.rs:59-65 | once a party is denied, no later party is screened or asked about |
| Contract.ComplianceHooks.constructor | contracts/compliance-hooks/src/lib.rs:118-120 | a deployed contract stores nothing |
| Contract.ComplianceHooks.Touch | crates/storage/src/lib.rs:65-71 | renews the live entry under the key and no other |
| Contract.ComplianceHooks.ReadTokenBinding | crates/storage/src/bindings.rs:38-46 | returns the binding exactly when it is live, and renews it and nothing else |
| Contract.ComplianceHooks.IsTokenBound | crates/storage/src/bindings.rs:49-51 | answers whether the binding is live, with the renewal of a read |
| Contract.ComplianceHooks.StoreBinding | crates/storage/src/bindings.rs:60-65 | writes the binding of one token, keeping a live entry's lifetime |
| Contract.ComplianceHooks.RemoveBinding | crates/storage/src/bindings.rs:73-78 | removes a live binding and nothing else |
| Contract.ComplianceHooks.ReadFreezeFlag | crates/storage/src/freeze.rs:21-29 | answers whether the flag is live and renews it |
| Contract.ComplianceHooks.StoreFlag | crates/storage/src/freeze.rs:38-42 | writes one flag, keeping a live flag's lifetime |
| Contract.ComplianceHooks.RemoveFlag | crates/storage/src/freeze.rs:50-55 | removes a live flag and nothing else |
| Contract.ComplianceHooks.SetComplianceConfig | crates/storage/src/config.rs:65-78 | writes the configuration and stamps the layout only if no stamp exists |
| Contract.ComplianceHooks.BumpConfigVersion | crates/storage/src/config.rs:102-105 | adds one to the version, or traps at the largest u32 |
| Contract.ComplianceHooks.SetAdmin | crates/storage/src/admin.rs:18-34 | records the admin and changes nothing else |
| Contract.ComplianceHooks.SetVersion | crates/storage/src/versions.rs:16-40 | records the layout version and changes nothing else |
| Contract.ComplianceHooks.Publish | crates/events/src/lib.rs:46-161 | appends one event to the log and changes nothing else |
| Contract.ComplianceHooks.RequireAdmin | crates/authorization/src/admin.rs:45-52 | no admin is an error, an admin who did not sign is a trap |
| Contract.ComplianceHooks.RequireScope | contracts/compliance-hooks/src/lib.rs:349-357 | configured first, then bound, with the renewal of the binding when it passes |
| Contract.ComplianceHooks.Ask | crates/policy-client/src/client.rs:58-75 | one external call: the answer depends on all calls before it, and the call is recorded |
| Contract.ComplianceHooks.ScreenParty | crates/compliance/src/evaluator.rs:75-123 | running the gates of one party gives the verdict and the external calls of its gate schedule, and an allowed party changed no storage |
| Contract.ComplianceHooks.Evaluate | crates/compliance/src/evaluator.rs:33-69 | the loop over parties gives the verdict and the external calls of the whole schedule; when allowed, storage differs by the renewal of the token's binding only |
| Contract.ComplianceHooks.Initialize | contracts/compliance-hooks/src/lib.rs:143-157 | refuses a second initialization before asking for a signature; otherwise records admin, layout stamp and event |
| Contract.ComplianceHooks.SetConfig | contracts/compliance-hooks/src/lib.rs:167-184 | answer and new state of a rewrite: no-op, or configuration, version, stamp and event together; at the largest version it traps with the configuration already written |
| Contract.ComplianceHooks.BindToken | contracts/compliance-hooks/src/lib.rs:190-201 | answer and new state of a bind: only the renewal if the SAC is the same, else the binding and one event |
| Contract.ComplianceHooks.UnbindToken | contracts/compliance-hooks/src/lib.rs:206-214 | answer and new state of an unbind: nothing if unbound, else the removal and one event |
| Contract.ComplianceHooks.Freeze | contracts/compliance-hooks/src/lib.rs:223-232 | answer and new state of a freeze: renewals if frozen, else the flag and one event |
| Contract.ComplianceHooks.Unfreeze | contracts/compliance-hooks/src/lib.rs:236-244 | answer and new state of an unfreeze: the removal and one event if frozen, else the renewal of the read |
| Contract.ComplianceHooks.EnforceHook | contracts/compliance-hooks/src/lib.rs:249-293 | a hook answers Ok exactly when its operation is allowed, and otherwise the error of the denial's reason |
| Contract.ComplianceHooks.Dispatch | contracts/compliance-hooks/src/lib.rs:125-338 | every entry point, reads included, answers as the transition function does, a committed call leaves its state, and the external calls are exactly those the call has to make |
| Contract.ComplianceHooks.Invoke | contracts/compliance-hooks/src/lib.rs:42-48 | one framed call on the keyed storage is one step of the transition function, makes exactly its external calls and renews what it read to the ledger; a failed call leaves every stored entry, lifetimes and log as they were, also a rewrite that trapped after it had written |
| Contract.PutChangesOneKey | crates/storage/src/keys.rs:21-42 | a write under one key changes the typed view of that binding or flag and of nothing else |
| Contract.RemoveChangesOneKey | crates/storage/src/keys.rs:21-42 | the same for a removal |
| Machine.RejectedCallsChangeNothing | contracts/compliance-hooks/src/lib.rs:42-48 | a call that errs or traps leaves the whole state as it was |
| Mirror.HookIsPredicted | contracts/compliance-hooks/tests/common/mod.rs:367-421 | every hook call answers what the prediction says, for any policy, any SAC or none, failing oracles included |
| Mirror.ScheduleIsScan | contracts/compliance-hooks/tests/common/mod.rs:396-420 | running a gate schedule is the prediction's scan over the parties |
| Mirror.CallRefinesMirror | contracts/compliance-hooks/tests/fuzz.rs:140-247 | every call, from every state, is mirrored: same answer, and the new state abstracts to the new mirror |
| Mirror.RunRefinesMirror | contracts/compliance-hooks/tests/fuzz.rs:249-269 | over every run from every state the stored state abstracts to the mirror and every answer is the predicted one; the mirror is told only which entries lapsed between calls |
| Mirror.LapseFreeRunIsPlainMirror | contracts/compliance-hooks/tests/fuzz.rs:249-269 | while nothing lapses the contract is the plain mirror of sets, from any state |
| Mirror.FreshRunNeverLapses | crates/storage/src/lib.rs:56-71 | nothing of a fresh deployment lapses before the lifetime a new entry is granted |
| Mirror.FreshRunIsPlainMirror | contracts/compliance-hooks/tests/fuzz.rs:249-269 | so a fresh deployment is the plain mirror for that long |
| Mirror.AdvanceForgets | crates/storage/src/bindings.rs:34-46 | when only time passes, the mirror loses exactly the entries whose lifetime ended |
| PropertySuite.Model.Record | contracts/compliance-hooks/tests/fuzz.rs:140-247 | the model updated in place becomes what the mirror becomes under a successful call |
| PropertySuite.StepBoth | contracts/compliance-hooks/tests/fuzz.rs:140-247 | prediction and contract agree on any step, and model and contract still match after it |
| PropertySuite.RunSequence | contracts/compliance-hooks/tests/fuzz.rs:249-269 | the comparison never fails, for any sequence of steps between which nothing lapses, over any tokens and accounts |
| Audit.ReplayReconstructsState | crates/events/src/lib.rs:9-27 | in every reachable state folding the log gives back admin, stored bindings, stored flags, configuration and version; Initialized is first and occurs once; consecutive configuration events differ |
| Audit.ReplayReconstructsViews | crates/events/src/lib.rs:9-27 | after any run and in any later ledger the log tells who is bound and who is frozen now if and only if no stored entry has lapsed |
| Audit.FreshLogTellsViews | crates/events/src/lib.rs:9-27 | so it does for the lifetime a new entry is granted after deployment |
| Audit.CallPublishes | contracts/compliance-hooks/src/lib.rs:143-244 | every call appends its one event or nothing |
| Audit.CallChangesWhatItPublishes | contracts/compliance-hooks/src/lib.rs:143-244 | the stored state changes exactly as the published event says, and not at all without one |
| Audit.FreezeEventsAlternate | contracts/compliance-hooks/src/lib.rs:223-244 | per token and account freeze events strictly alternate, starting with frozen, if and only if no freeze met a lapsed flag |
| Audit.LapsedRefreezeRepeatsEvent | contracts/compliance-hooks/src/lib.rs:223-232 | an instance: a run whose log holds two freeze events of an account in a row |
| Audit.VersionCountsConfigEvents | crates/storage/src/config.rs:87-105 | the version is the number of configuration events, and 0 exactly when there is no configuration |
| Audit.AdminAndConfigPersist | contracts/compliance-hooks/src/lib.rs:143-184 | a recorded admin never changes, a configuration never disappears, the version never falls |
| Audit.RewriteBumpsOrTraps | contracts/compliance-hooks/src/lib.rs:177-183 | an effective rewrite writes the configuration, bumps the version and is logged, except at the largest u32, where it traps and changes nothing |
| Audit.StampedAtInitialization | contracts/compliance-hooks/src/lib.rs:143-157 | a deployment is stamped when it is initialized and not before, and configured only after |
| Audit.OnlyEffectiveRewritesStamp | crates/storage/src/config.rs:65-78 | on an unstamped deployment a successful rewrite stamps if and only if it changes the configuration |
| Isolation.TokensDoNotInterfere | docs/multi-token.md:30-39 | deleting from any run every call that names another token leaves all remaining answers and everything stored about the token, lifetimes included, unchanged |
| Isolation.LaterAnswersAgree | docs/multi-token.md:30-39 | whatever is asked about the token after the two runs is answered alike |
| Isolation.OtherTokensInvisible | crates/storage/src/keys.rs:32-41 | a call that names another token leaves every entry of this one alone |
| Isolation.KeptCallsAgree | crates/storage/src/keys.rs:32-41 | a call answers alike in two states that agree on its token, and keeps the agreement |
| Erasure.RejectedCallsAreErasable | contracts/compliance-hooks/src/lib.rs:42-48 | removing every rejected and unsigned call from a run leaves the whole state, lifetimes and log, and all remaining answers unchanged |
| Erasure.HooksAreErasable | contracts/compliance-hooks/tests/invariants.rs:6-9 | removing hooks too is unobservable at every moment if and only if each surviving step finds the binding it reads live in both runs or in neither; the states then differ in binding lifetimes only |
| Erasure.TimelyUseErasure | contracts/compliance-hooks/tests/invariants.rs:6-9 | in runs of any length it suffices that every surviving use of a binding comes within the lifetime it started with or within the threshold of the last surviving read |
| Erasure.BindingLifetimesGrow | crates/storage/src/lib.rs:65-71 | no call shortens a binding's lifetime, and a new binding gets the granted one |
| Erasure.FreshRunErasure | contracts/compliance-hooks/tests/invariants.rs:6-9 | a fresh deployment meets that condition for the lifetime a new entry is granted |
| Erasure.HookRenewalIsObservable | crates/storage/src/bindings.rs:34-46 | any hook allowed in the last ledger of a binding keeps the token bound in the next ledger, where without the hook it is unbound |
| Erasure.HookRenewalCanShorten | crates/storage/src/lib.rs:65-71 | a hook one ledger before a read, with the lifetime down to the threshold, makes the binding lapse one ledger earlier than without it |
| Leases.ReadsRenewInNumbers | crates/storage/src/lib.rs:55-71 | after a committed read at ledger t a live binding or flag with at most 501,120 ledgers left lives exactly through t + 518,400, and one with more is unchanged; a new entry gets the granted lifetime |
| Leases.CommittedReadRenews | crates/storage/src/bindings.rs:38-46 | after a committed read a live binding has at least 501,120 ledgers to live |
| Leases.OtherCallsKeepBinding | crates/storage/src/bindings.rs:60-78 | no call but a committed read, rebind or unbind of the token touches its binding |
| Leases.ScopeIsKept | crates/storage/src/bindings.rs:34-46 | read first within its lifetime and then at gaps of at most the threshold, a token leaves scope only by unbind |
| Leases.IdleBindingLapses | crates/storage/src/bindings.rs:34-46 | unread, a token leaves scope exactly when its binding's lifetime ends |
| Leases.HooksNeverRenewFlags | crates/storage/src/freeze.rs:21-29 | a hook leaves every flag and its lifetime alone, and a committed one found no fund-holder frozen |
| Leases.OtherCallsKeepFlag | crates/storage/src/freeze.rs:38-55 | no call but a freeze, a read or an unfreeze of the holding touches its flag |
| Leases.FreezeIsKept | crates/storage/src/freeze.rs:8-29 | frozen again or read by `is_frozen` in time, an account is frozen in every ledger up to the next deadline |
| Leases.UnfedFlagLapses | crates/storage/src/freeze.rs:8-29 | without a renewal or an unfreeze an account is frozen exactly as long as its flag's lifetime lasts |
| Leases.TrafficNeverKeepsAFreeze | crates/storage/src/freeze.rs:8-10 | under hook calls alone, however many, an account is frozen exactly as long as the lifetime its flag had at the start |
| Leases.ProbedFreezeThaws | docs/storage.md:52-53 | an instance: the frozen account is refused in one ledger and allowed in the next, with no unfreeze in the run |
| Leases.FrozenUntilUnfrozen | contracts/compliance-hooks/src/lib.rs:223-244 | after any run and in any later ledger an account is frozen if and only if some successful freeze has no later successful unfreeze and its stored flag has not lapsed, whatever unbinds, rebinds and rewrites intervene |
| Leases.FrozenPartyIsRefused | crates/compliance/src/evaluator.rs:87-89 | no hook with a frozen fund-holder succeeds, and it leaves no trace |
| SplitMix.Rng.Next | contracts/compliance-hooks/tests/fuzz.rs:32-41 | call k returns the mixed state after k + 1 increments, for the seed it started with |
| SplitMix.Rng.Below | contracts/compliance-hooks/tests/fuzz.rs:43-45 | the next output modulo the bound |
| SplitMix.ShiftIsDivision | contracts/compliance-hooks/tests/fuzz.rs:38-40 | the right shift on bits is division by a power of two |
| SplitMix.UnshiftIsInverse | contracts/compliance-hooks/tests/fuzz.rs:38-40 | a xor-shift by at least a third of the word is undone by shifting once and twice, on both sides |
| SplitMix.MulInverse | contracts/compliance-hooks/tests/fuzz.rs:38-39 | a wrapping multiplication is undone by the modular inverse |
| SplitMix.MixIsBijective | contracts/compliance-hooks/tests/fuzz.rs:35-41 | the output is a bijection of the advanced state, with its inverse given |
| SplitMix.XorShiftIsXor | contracts/compliance-hooks/tests/fuzz.rs:38-40 | a stage is the bitwise exclusive or of the word and its quotient by the power of two |
| SplitMix.OutputInNumbers | contracts/compliance-hooks/tests/fuzz.rs:35-41 | what every call returns for every seed, in plain arithmetic with the three constants and the three shifts written out |
| SplitMix.OutputsArePermutation | contracts/compliance-hooks/tests/fuzz.rs:35-41 | from any seed each 64-bit word is returned by exactly one of the first 2^64 calls |
| SplitMix.SeedsNeverCollide | contracts/compliance-hooks/tests/fuzz.rs:32-41 | two seeds give the same output at the same call only if they are equal |
| Combos.Enumerator.Build | contracts/compliance-hooks/tests/invariants.rs:144-159 | the recursion appends the completions of its buffer and gives the buffer back as it was |
| Combos.Combos | contracts/compliance-hooks/tests/invariants.rs:144-159 | exactly pool-size to the arity tuples; the one an index tuple picks stands at that tuple's rank, and nothing else is in the list |
| Combos.RankIsLexicographic | contracts/compliance-hooks/tests/invariants.rs:144-159 | ranks order index tuples lexicographically and tell them apart |
| Combos.UnrankIsInverse | contracts/compliance-hooks/tests/invariants.rs:144-159 | every position is the rank of one index tuple |
| Combos.ExtensionsAtRank | contracts/compliance-hooks/tests/invariants.rs:144-159 | the recursion's output at a rank is the buffer followed by what that tuple picks |
| RevertText.DecodeContractError | cli/src/stellar.rs:254-268 | the loop over lines decodes the digits of the first line that has a marker with digits |
| RevertText.DecimalRoundTrip | cli/src/stellar.rs:262-265 | a printed number parses back to itself |
| RevertText.PrintedCodeDecodes | cli/src/stellar.rs:254-268 | for every u32 code, a text whose first marked line prints that code after its first marker decodes to it, whatever stands around it |
| RevertText.CodesStandFor | cli/src/stellar.rs:279-288 | 2, 3, 4, 5, 8, 9, 10 and 12 stand for the eight documented errors, every other u32 for an unknown code |
| RevertText.NumberDecodes | cli/src/stellar.rs:254-268 | a first marked line with the literal marker decodes to what its number stands for |
| RevertText.BareErrorDecodes | cli/src/stellar.rs:254-268 | the bare printed error of every u32 code decodes to what the number stands for |
| RevertText.PrintedErrorsDecode | cli/src/stellar.rs:254-280 | the eight printed errors, letter by letter, with the error each decodes to |
| RevertText.LinesOfJoined | cli/src/stellar.rs:255-255 | a text is split into exactly the lines it was joined from, with newline or return-newline endings in any mix |
| RevertText.ErrorRoundTrip | cli/src/stellar.rs:272-288 | every error of the contract survives printing and decoding |
| RevertText.OverlongCodeDecodesToNothing | cli/src/stellar.rs:265-265 | a number beyond u32 on the first marked line decodes to nothing, even if later lines would decode |
| RevertText.UnmarkedTextDecodesToNothing | cli/src/stellar.rs:254-268 | a text without a marked line decodes to nothing |
| RevertText.CombinedDecoding | cli/src/stellar.rs:32-36 | decoding both streams as one document is decoding the output if it has a marked line, and the error stream otherwise |
| Operator.Verify | cli/src/main.rs:587-886 | the checks appended in sequence and in loops are the report, and a check is among them if and only if its own claim and reply warrant it |
| Operator.ReportedExactly | cli/src/main.rs:587-886 | over any runner, for every claim and status: when the check is in the report, judged by which reply |
| Operator.ReportInOrder | cli/src/main.rs:719-885 | the i-th token check and the i-th sample carry the alias and the verdict of the i-th token, around the probe |
| Operator.VerifyLifecycle | cli/src/main.rs:602-717 | each lifecycle claim passes or fails by its own reply, and whether the contract is configured |
| Operator.VerifyProbe | cli/src/main.rs:753-821 | the probe passes exactly when the admin address is answered unbound and a transfer on it is refused as an unbound token |
| Operator.VerifySamples | cli/src/main.rs:823-886 | one claim per token: the sampled gate reaches a decision |
| Operator.NoFailureMeansHealthy | cli/src/main.rs:587-886 | over any runner a report has no failed check if and only if every single reply is the healthy one |
| Operator.VerifyMeaning | cli/src/main.rs:587-886 | on every contract state no check fails if and only if the recorded admin is in place, the contract is configured, versioned and stamped, live and recorded policies do not differ, every listed token is bound, the admin address is not, and every sampled gate decides |
| Operator.VerifyMeaningReachable | cli/src/main.rs:587-886 | in reachable states version and stamp need not be required |
| Operator.PrintedDenialIsSeen | cli/src/main.rs:552-573 | a denial printed on the error stream is seen as that denial when the output has no marked line |
| Operator.InterpretedByStreams | cli/src/main.rs:552-573 | a successful run is a value, a failed one a revert if and only if its output, or an unmarked output's error stream, decodes to it, and otherwise no answer |
| Deployment.RunLifecycle | cli/src/main.rs:1000-1032 | the lifecycle calls succeed if and only if the admin signs; then they all ran in order, and otherwise the contract stores nothing |
| Deployment.RunDeploy | cli/src/main.rs:938-1047 | policy by precedence (none if refused, the given one, the sample, the recorded one) and the passthrough override, in the contract and in the record alike; the record names the new contract and keeps admin key and tokens; the contract is at version 1 with exactly the listed tokens bound |
| Deployment.BindTokens | cli/src/main.rs:1023-1032 | the loop binds the listed tokens in order |
| Deployment.LifecycleResult | cli/src/main.rs:1000-1032 | a bring-up leaves config version 1, the chosen configuration and exactly the listed tokens bound, each with the SAC of its last entry |
| Deployment.DeployThenVerify | cli/src/main.rs:938-1047 | verified against its updated record in any later ledger, a bring-up has no failed check if and only if the admin key is not itself a listed token and no binding has lapsed |
| Deployment.FreshDeployVerifies | cli/src/main.rs:938-1047 | within the lifetime a new entry is granted, only a listed admin key makes a check fail |

## Left out

- Process spawning, files, argument vectors, printing and JSON replies: a runner is a typed function from calls to replies, backed by the contract model.
- The contract ids printed by deployments (`parse_deployed_id`), the network registration and the wasm paths: ids are parameters.
- Check detail texts, error descriptions, name tables: only codes, claims and statuses.
- Signatures: the set of addresses that signed is part of each step.
- Contract.ComplianceHooks.Invoke: ledger sequence numbers and lifetimes are unbounded naturals, not u32; the configuration version is bounded, and its overflow traps.
- Audit.ReplayReconstructsState: events do not carry the SAC of a binding, so the log gives back which tokens are bound, not to which SAC.
- PropertySuite.RunSequence: takes any sequence of steps where the suite draws them from the generator, does not stop at a mismatch, since there is none, and its model, like the suite's, knows no lapses; runs with lapses are `Mirror.RunRefinesMirror`.
- PropertySuite.StepBoth: the random roll that picks a step is not modelled; the step is a parameter, and the result holds for every step.
- Contract.ComplianceHooks.Ask: which raw replies of a policy or SAC count as no usable answer (a revert, a wrong type, a missing contract) is left to the oracle, which answers yes, no or failed.
- Operator.Verify: replies are typed values; parsing what the tool prints and the detail texts of checks are not modelled.
- Deployment.RunDeploy: deploying the wasm files, their failures and the optional save of the record are not modelled; it starts from the deployed contract and always returns the record it would save.
- The generator's percentage draw `chance`: it is the same computation compared with a bound and is not repeated.
- Restoring archived entries: an entry whose lifetime has ended is absent until it is written again.
- The sample policy, the mock policies and SACs, benchmarks, schemas and scripts: instances of the oracle, data and tooling.
