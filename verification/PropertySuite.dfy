/** The randomized property suite: it drives the contract and a mirror side by
    side and compares them after every step. Here the comparison never fails. */
module PropertySuite {
  import opened HookCore
  import opened Ledger
  import opened Machine
  import opened Mirror
  import Contract

  /** What the suite believes the contract holds, updated in place. */
  class Model {
    var admin: Option<Address>
    var config: Option<ComplianceConfig>
    var version: Option<U32>
    var layout: Option<U32>
    var bound: map<Address, Option<Address>>
    var frozen: set<Holding>

    function Value(): Mirror
      reads this
    {
      Mirror(admin, config, version, layout, bound, frozen)
    }

    constructor ()
      ensures Value() == Mirror(None, None, None, None, map[], {})
    {
      admin, config, version, layout := None, None, None, None;
      bound, frozen := map[], {};
    }

    /** Takes over the effect of a call that succeeded. */
    method Record(call: Call, ghost signers: set<Address>, ghost oracle: Oracle)
      requires MirrorApply(Value(), call, signers, oracle).1.Committed()
      modifies this
      ensures Value() == MirrorApply(old(Value()), call, signers, oracle).0
    {
      match call {
        case Initialize(next) =>
          admin, layout := Some(next), Some(VERSION);
        case SetConfig(next) =>
          if config != Some(next) {
            config, version := Some(next), Some(version.GetOr(0) + 1);
            layout := Some(layout.GetOr(VERSION));
          }
        case BindToken(token, sac) =>
          bound := bound[token := sac];
        case UnbindToken(token) =>
          bound := bound - {token};
        case Freeze(token, account) =>
          frozen := frozen + {Holding(token, account)};
        case Unfreeze(token, account) =>
          frozen := frozen - {Holding(token, account)};
        case _ =>
      }
    }
  }

  /** One step on both sides: the prediction is taken first, then the contract
      runs, and the model follows only a call that succeeded. */
  method StepBoth(hooks: Contract.ComplianceHooks, model: Model, step: Step) returns (parity: bool)
    requires hooks.Valid() && Stable(step.oracle)
    requires model.Value() == Abs(Advance(hooks.View(), step.at))
    modifies hooks, model
    ensures hooks.Valid() && parity
    ensures hooks.View() == Exec(old(hooks.View()), step).0
    ensures model.Value() == Abs(hooks.View())
  {
    ghost var s := Advance(hooks.View(), step.at);
    CallRefinesMirror(s, step.call, step.signers, step.oracle);
    RejectedCallsChangeNothing(s, step.call, step.signers, step.oracle);
    var expected := MirrorApply(model.Value(), step.call, step.signers, step.oracle).1;
    var answer := hooks.Invoke(step);
    parity := answer == expected;
    if answer.Committed() {
      model.Record(step.call, step.signers, step.oracle);
    }
  }

  /** Runs a sequence of steps on a contract and a model that mirrors it. Every
      answer is the predicted one and the views match at the end, for any steps
      between which no entry lapses. */
  method RunSequence(hooks: Contract.ComplianceHooks, model: Model, steps: seq<Step>) returns (parity: bool)
    requires hooks.Valid() && model.Value() == Abs(hooks.View())
    requires StableRun(steps) && NothingLapses(hooks.View(), steps)
    modifies hooks, model
    ensures hooks.Valid() && parity
    ensures hooks.View() == Run(old(hooks.View()), steps)
    ensures model.Value() == Abs(hooks.View())
  {
    parity := true;
    ghost var s := hooks.View();
    var i := 0;
    while i < |steps|
      invariant 0 <= i <= |steps| && hooks.Valid() && parity
      invariant hooks.View() == Run(s, steps[..i])
      invariant model.Value() == Abs(hooks.View())
    {
      NextStep(s, steps, i);
      var matched := StepBoth(hooks, model, steps[i]);
      parity := parity && matched;
      i := i + 1;
    }
    assert steps[..i] == steps;
  }

  /** While nothing lapses, time passing between two steps is not seen by the model. */
  lemma NextStep(s: State, steps: seq<Step>, i: nat)
    requires NothingLapses(s, steps) && i < |steps|
    ensures Run(s, steps[..i + 1]) == Exec(Run(s, steps[..i]), steps[i]).0
    ensures Abs(Advance(Run(s, steps[..i]), steps[i].at)) == Abs(Run(s, steps[..i]))
  {
    var init := steps[..i + 1];
    PrefixNeverLapses(s, steps, i + 1);
    assert init[..i] == steps[..i] && init[i] == steps[i];
    assert LostBy(Run(s, init[..|init| - 1]), init[|init| - 1].at) == Loss({}, {});
    QuietTimeUnseen(Run(s, steps[..i]), steps[i].at);
  }
}
