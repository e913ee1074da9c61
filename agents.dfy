/**
 * The executor agents (the four modules of cognition_lattice/agents): what `execute` returns or
 * raises for an intent, whether the agent has a `rollback`, and the `rolled_back`
 * flag that rollback sets. A `Scripted` agent stands for any other BaseAgent
 * subclass, described by what its `execute` and `rollback` do.
 */
module Agents {
  import opened Values

  /** What `execute` does: return a result dictionary, or raise an Exception whose
      `str` is `message`. */
  datatype Outcome = Returned(result: Dict) | Raised(message: string)

  /** What calling `rollback` does, when the agent has one. */
  datatype RollbackKind =
    | NoRollback          // no callable `rollback` attribute
    | Compensates         // sets `rolled_back`
    | FailsOnRollback     // raises an Exception

  datatype Kind =
    | PlanAgent
    | ActAgent
    | VerifyAgent
    | EchoAgent
    | Scripted(outcome: Outcome, rollback: RollbackKind)

  /** `execute(intent)` of each agent. */
  function Execute(kind: Kind, intent: Dict): (o: Outcome)
    ensures !kind.Scripted? && o.Returned? ==> "status" in o.result && o.result["status"] != Str("error")
  {
    match kind
    case PlanAgent => Returned(map["status" := Str("planned"), "id" := Get(intent, "intent_id")])
    case ActAgent =>
      if Truthy(Get(intent, "simulate_failure")) then Raised("Action failed")
      else Returned(map["status" := Str("acted"), "id" := Get(intent, "intent_id")])
    case VerifyAgent => Raised("Verification failed")
    case EchoAgent => Returned(map["status" := Str("ok"), "echo" := Get(intent, "args")])
    case Scripted(outcome, _) => outcome
  }

  /** The plan agent always returns status "planned" with the intent's id. */
  lemma PlanAlwaysPlans(intent: Dict)
    ensures var o := Execute(PlanAgent, intent);
            o.Returned? && o.result.Keys == {"status", "id"}
            && o.result["status"] == Str("planned") && o.result["id"] == Get(intent, "intent_id")
  {
  }

  /** The act agent raises "Action failed" exactly when the intent asks it to fail,
      and otherwise returns status "acted" with the intent's id. */
  lemma ActFailsOnRequest(intent: Dict)
    ensures var o := Execute(ActAgent, intent);
            (o.Raised? <==> Truthy(Get(intent, "simulate_failure")))
            && (o.Raised? ==> o.message == "Action failed")
            && (o.Returned? ==>
                  o.result.Keys == {"status", "id"} && o.result["status"] == Str("acted")
                  && o.result["id"] == Get(intent, "intent_id"))
  {
  }

  /** The verify agent never returns. */
  lemma VerifyAlwaysRaises(intent: Dict)
    ensures Execute(VerifyAgent, intent) == Raised("Verification failed")
  {
  }

  /** The echo agent returns status "ok" and the intent's args, None when absent. */
  lemma EchoEchoesArgs(intent: Dict)
    ensures var o := Execute(EchoAgent, intent);
            o.Returned? && o.result.Keys == {"status", "echo"}
            && o.result["status"] == Str("ok") && o.result["echo"] == Get(intent, "args")
            && ("args" !in intent ==> o.result["echo"] == Null)
  {
  }

  /** The intent types a class lists in `intent_types`. */
  function IntentTypes(kind: Kind): seq<string> {
    match kind
    case PlanAgent => ["plan"]
    case ActAgent => ["act"]
    case VerifyAgent => ["verify"]
    case EchoAgent => ["echo"]
    case Scripted(_, _) => []
  }

  /** `callable(getattr(agent, "rollback", None))`. */
  predicate HasRollback(kind: Kind) {
    kind.PlanAgent? || kind.ActAgent? || (kind.Scripted? && !kind.rollback.NoRollback?)
  }

  /** Calling `rollback` returns normally and sets `rolled_back`. */
  predicate RollbackCompensates(kind: Kind) {
    kind.PlanAgent? || kind.ActAgent? || (kind.Scripted? && kind.rollback.Compensates?)
  }

  /** Only the plan and act agents among the shipped ones can be compensated; the
      verify and echo agents have no rollback. */
  lemma ShippedRollbacks()
    ensures HasRollback(PlanAgent) && HasRollback(ActAgent)
    ensures !HasRollback(VerifyAgent) && !HasRollback(EchoAgent)
    ensures forall k: Kind :: RollbackCompensates(k) ==> HasRollback(k)
  {
  }

  /** An agent instance: its behaviour and its `rolled_back` flag. */
  class Agent {
    const kind: Kind
    var rolledBack: bool

    constructor (k: Kind)
      ensures kind == k && !rolledBack
    {
      kind := k;
      rolledBack := false;
    }

    /** `rollback(intent)`: sets the flag, or raises without changing anything;
        `raised` tells which. */
    method Rollback(intent: Dict) returns (raised: bool)
      requires HasRollback(kind)
      modifies this
      ensures raised <==> !RollbackCompensates(kind)
      ensures rolledBack == (old(rolledBack) || RollbackCompensates(kind))
    {
      if RollbackCompensates(kind) {
        rolledBack := true;
        return false;
      }
      return true;
    }
  }
}
