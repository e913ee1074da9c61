/**
 * `MultiAgentHarmonizer.run_all` (multi_agent_harmonizer.py): agents run in list
 * order on one intent until the first error status or exception; then the agents
 * that returned are compensated in reverse order, best effort, and an error result
 * is appended.
 */
module Harmonizer {
  import opened Wrappers
  import opened Values
  import opened Agents

  /** The forward pass of `run_all`: the results appended, the message of the
      exception that ended it (if any), and how many `execute` calls were made. */
  datatype Run = Run(results: seq<Dict>, failure: Option<string>, calls: nat)

  /** `result.get("status") == "error"`. */
  predicate IsErrorStatus(r: Dict) {
    Get(r, "status") == Str("error")
  }

  /** The result appended once the pass has failed. */
  function ErrorResult(message: string): Dict {
    map["status" := Str("error"), "message" := Str(message)]
  }

  /**
   * The forward pass. An agent that returns has its result appended and counts as
   * executed, even when the result has status "error", which then raises
   * `Exception(result.get("message"))`; an agent that raises is not appended.
   */
  function Forward(kinds: seq<Kind>, intent: Dict): (run: Run)
    ensures |run.results| <= run.calls <= |kinds|
    decreases |kinds|
  {
    if kinds == [] then Run([], None, 0)
    else
      match Execute(kinds[0], intent)
      case Raised(m) => Run([], Some(m), 1)
      case Returned(r) =>
        if IsErrorStatus(r) then Run([r], Some(Display(Get(r, "message"))), 1)
        else
          var rest := Forward(kinds[1..], intent);
          Run([r] + rest.results, rest.failure, rest.calls + 1)
  }

  /** The results of the forward pass: every appended result is what its agent
      returned, and no result but the last has status "error". */
  lemma {:induction false} ForwardResults(kinds: seq<Kind>, intent: Dict)
    ensures var run := Forward(kinds, intent);
      (forall k :: 0 <= k < |run.results| ==> Execute(kinds[k], intent) == Returned(run.results[k]))
      && (forall k :: 0 <= k < |run.results| - 1 ==> !IsErrorStatus(run.results[k]))
    decreases |kinds|
  {
    if kinds != [] {
      ForwardResults(kinds[1..], intent);
      var rest := Forward(kinds[1..], intent);
      var run := Forward(kinds, intent);
      if Execute(kinds[0], intent).Returned? && !IsErrorStatus(Execute(kinds[0], intent).result) {
        forall k | 0 < k < |run.results| ensures run.results[k] == rest.results[k - 1] {
        }
        assert forall k :: 0 < k < |kinds| ==> kinds[k] == kinds[1..][k - 1];
      }
    }
  }

  /** A pass that ends without failure ran every agent and saw no error status. */
  lemma {:induction false} ForwardCompletes(kinds: seq<Kind>, intent: Dict)
    ensures var run := Forward(kinds, intent);
      run.failure.None? ==>
        run.calls == |run.results| == |kinds|
        && forall k :: 0 <= k < |run.results| ==> !IsErrorStatus(run.results[k])
    decreases |kinds|
  {
    if kinds != [] {
      ForwardCompletes(kinds[1..], intent);
      var rest := Forward(kinds[1..], intent);
      var run := Forward(kinds, intent);
      if Execute(kinds[0], intent).Returned? && !IsErrorStatus(Execute(kinds[0], intent).result) {
        forall k | 0 < k < |run.results| ensures run.results[k] == rest.results[k - 1] {
        }
      }
    }
  }

  /** A failed pass ended either at an agent that raised (not appended), after
      results free of error status, or at the last appended result, whose status
      is "error" and whose message became the exception's. */
  lemma {:induction false} ForwardFails(kinds: seq<Kind>, intent: Dict)
    ensures var run := Forward(kinds, intent);
      run.failure.Some? && run.calls > |run.results| ==>
        run.calls == |run.results| + 1
        && Execute(kinds[|run.results|], intent) == Raised(run.failure.value)
        && forall k :: 0 <= k < |run.results| ==> !IsErrorStatus(run.results[k])
    ensures var run := Forward(kinds, intent);
      run.failure.Some? && run.calls == |run.results| ==>
        run.calls > 0 && IsErrorStatus(run.results[run.calls - 1])
        && run.failure.value == Display(Get(run.results[run.calls - 1], "message"))
    decreases |kinds|
  {
    if kinds != [] {
      ForwardFails(kinds[1..], intent);
      var rest := Forward(kinds[1..], intent);
      var run := Forward(kinds, intent);
      if Execute(kinds[0], intent).Returned? && !IsErrorStatus(Execute(kinds[0], intent).result) {
        forall k | 0 < k < |run.results| ensures run.results[k] == rest.results[k - 1] {
        }
        assert forall k :: 0 < k < |kinds| ==> kinds[k] == kinds[1..][k - 1];
      }
    }
  }

  /** One step of the forward pass, from position `i`. */
  lemma ForwardAt(kinds: seq<Kind>, i: nat, intent: Dict)
    requires i < |kinds|
    ensures Forward(kinds[i..], intent) ==
      match Execute(kinds[i], intent)
      case Raised(m) => Run([], Some(m), 1)
      case Returned(r) =>
        if IsErrorStatus(r) then Run([r], Some(Display(Get(r, "message"))), 1)
        else
          var rest := Forward(kinds[i + 1..], intent);
          Run([r] + rest.results, rest.failure, rest.calls + 1)
  {
    assert kinds[i..][1..] == kinds[i + 1..];
  }

  /** The loop of the forward pass, advanced over an agent that raises: the pass
      `whole`, made of the results so far and the pass from position `i`, ends
      there. */
  lemma ForwardStopsAtRaise(kinds: seq<Kind>, i: nat, intent: Dict, results: seq<Dict>, whole: Run)
    requires i < |kinds| && Execute(kinds[i], intent).Raised?
    requires var rest := Forward(kinds[i..], intent);
             whole == Run(results + rest.results, rest.failure, i + rest.calls)
    ensures whole == Run(results, Some(Execute(kinds[i], intent).message), i + 1)
  {
    ForwardAt(kinds, i, intent);
  }

  /** The same over an agent returning an error status: its result is the last. */
  lemma ForwardStopsAtErrorStatus(kinds: seq<Kind>, i: nat, intent: Dict, results: seq<Dict>, whole: Run)
    requires i < |kinds| && Execute(kinds[i], intent).Returned? && IsErrorStatus(Execute(kinds[i], intent).result)
    requires var rest := Forward(kinds[i..], intent);
             whole == Run(results + rest.results, rest.failure, i + rest.calls)
    ensures var r := Execute(kinds[i], intent).result;
            whole == Run(results + [r], Some(Display(Get(r, "message"))), i + 1)
  {
    ForwardAt(kinds, i, intent);
  }

  /** The same over an agent returning any other result: the pass goes on. */
  lemma ForwardContinues(kinds: seq<Kind>, i: nat, intent: Dict, results: seq<Dict>, whole: Run)
    requires i < |kinds| && Execute(kinds[i], intent).Returned? && !IsErrorStatus(Execute(kinds[i], intent).result)
    requires var rest := Forward(kinds[i..], intent);
             whole == Run(results + rest.results, rest.failure, i + rest.calls)
    ensures var r := Execute(kinds[i], intent).result;
            var rest := Forward(kinds[i + 1..], intent);
            whole == Run(results + [r] + rest.results, rest.failure, i + 1 + rest.calls)
  {
    ForwardAt(kinds, i, intent);
    var r := Execute(kinds[i], intent).result;
    var rest := Forward(kinds[i + 1..], intent);
    assert results + ([r] + rest.results) == results + [r] + rest.results;
  }

  /** What `run_all` returns: it ends with an error result exactly when the forward
      pass failed. */
  function RunAllResult(kinds: seq<Kind>, intent: Dict): (r: seq<Dict>)
    ensures Forward(kinds, intent).failure.Some? <==> (|r| > 0 && IsErrorStatus(r[|r| - 1]))
  {
    ForwardCompletes(kinds, intent);
    var run := Forward(kinds, intent);
    if run.failure.None? then run.results else run.results + [ErrorResult(run.failure.value)]
  }

  /** The rollback calls of the compensation sweep: the executed agents (the first
      `n`) that have a rollback, latest first. */
  function Compensations(kinds: seq<Kind>, n: nat): (order: seq<nat>)
    requires n <= |kinds|
    ensures forall a :: 0 <= a < |order| ==> order[a] < n && HasRollback(kinds[order[a]])
  {
    if n == 0 then []
    else (if HasRollback(kinds[n - 1]) then [n - 1] else []) + Compensations(kinds, n - 1)
  }

  /** The sweep calls the rollback of exactly the executed agents that have one,
      each once, in strictly decreasing position order. */
  lemma {:induction false} CompensationOrder(kinds: seq<Kind>, n: nat)
    requires n <= |kinds|
    ensures var order := Compensations(kinds, n);
      (forall a :: 0 <= a < |order| ==> order[a] < n && HasRollback(kinds[order[a]]))
      && (forall k :: 0 <= k < n && HasRollback(kinds[k]) ==> k in order)
      && (forall a, b :: 0 <= a < b < |order| ==> order[a] > order[b])
  {
    if n > 0 {
      CompensationOrder(kinds, n - 1);
      var rest := Compensations(kinds, n - 1);
      var order := Compensations(kinds, n);
      if HasRollback(kinds[n - 1]) {
        assert order == [n - 1] + rest;
        forall a | 0 < a < |order| ensures order[a] == rest[a - 1] {
        }
      }
    }
  }

  /** When no agent fails, `run_all` returns exactly the agents' results in order
      and nothing is compensated. */
  lemma {:induction false} AllSucceed(kinds: seq<Kind>, intent: Dict)
    requires forall k :: 0 <= k < |kinds| ==>
               Execute(kinds[k], intent).Returned? && !IsErrorStatus(Execute(kinds[k], intent).result)
    ensures Forward(kinds, intent).failure.None?
    ensures |RunAllResult(kinds, intent)| == |kinds|
    ensures forall k :: 0 <= k < |kinds| ==> Returned(RunAllResult(kinds, intent)[k]) == Execute(kinds[k], intent)
    decreases |kinds|
  {
    if kinds != [] {
      AllSucceed(kinds[1..], intent);
    }
  }

  /** A failed run ends with an error result carrying the exception's message. */
  lemma FailureEndsWithError(kinds: seq<Kind>, intent: Dict)
    requires Forward(kinds, intent).failure.Some?
    ensures var out := RunAllResult(kinds, intent);
            |out| == |Forward(kinds, intent).results| + 1
            && out[|out| - 1] == ErrorResult(Forward(kinds, intent).failure.value)
            && IsErrorStatus(out[|out| - 1])
  {
  }

  /** An agent only runs when every agent before it returned a non-error result. */
  lemma {:induction false} RunsOnlyAfterSuccess(kinds: seq<Kind>, intent: Dict, k: nat)
    requires k < Forward(kinds, intent).calls
    ensures forall j :: 0 <= j < k ==>
              Execute(kinds[j], intent).Returned? && !IsErrorStatus(Execute(kinds[j], intent).result)
    decreases |kinds|
  {
    if k > 0 {
      var rest := Forward(kinds[1..], intent);
      RunsOnlyAfterSuccess(kinds[1..], intent, k - 1);
      forall j | 0 <= j < k
        ensures Execute(kinds[j], intent).Returned? && !IsErrorStatus(Execute(kinds[j], intent).result)
      {
        if j > 0 {
          assert kinds[1..][j - 1] == kinds[j];
        }
      }
    }
  }

  /** The saga of plan, act and verify on an intent that does not ask the act agent
      to fail: verify raises, and act and then plan are rolled back. */
  lemma PlanActVerifySaga(intent: Dict)
    requires !Truthy(Get(intent, "simulate_failure"))
    ensures var kinds := [PlanAgent, ActAgent, VerifyAgent];
            var run := Forward(kinds, intent);
            run.failure == Some("Verification failed") && run.calls == 3 && |run.results| == 2
            && Compensations(kinds, 2) == [1, 0]
            && IsErrorStatus(RunAllResult(kinds, intent)[2])
  {
    var kinds := [PlanAgent, ActAgent, VerifyAgent];
    assert kinds[1..][1..] == [VerifyAgent];
    assert kinds[1..][1..][1..] == [];
  }

  /** Two compensating agents around one that returns an error status: the first is
      rolled back, the failing one has no rollback, and the third never runs. */
  lemma ErrorStatusSaga(intent: Dict)
    ensures var ok := Scripted(Returned(map["status" := Str("ok")]), Compensates);
            var fail := Scripted(Returned(map["status" := Str("error"), "message" := Str("fail")]), NoRollback);
            var kinds := [ok, fail, ok];
            var run := Forward(kinds, intent);
            run.failure == Some("fail") && run.calls == 2 && |run.results| == 2
            && Compensations(kinds, 2) == [0]
            && IsErrorStatus(RunAllResult(kinds, intent)[2])
  {
    var ok := Scripted(Returned(map["status" := Str("ok")]), Compensates);
    var fail := Scripted(Returned(map["status" := Str("error"), "message" := Str("fail")]), NoRollback);
    var kinds := [ok, fail, ok];
    assert kinds[1..] == [fail, ok];
    assert Get(map["status" := Str("ok")], "status") == Str("ok");
    assert !HasRollback(kinds[1]) && HasRollback(kinds[0]);
    assert Compensations(kinds, 1) == [0];
  }

  class MultiAgentHarmonizer {
    const agents: seq<Agent>

    constructor (agents: seq<Agent>)
      ensures this.agents == agents
    {
      this.agents := agents;
    }

    /** The agents' behaviours, in list order. */
    function Kinds(): (ks: seq<Kind>)
      ensures |ks| == |agents| && forall k :: 0 <= k < |agents| ==> ks[k] == agents[k].kind
    {
      seq(|agents|, k requires 0 <= k < |agents| => agents[k].kind)
    }

    /** The agents of positions `j` up to `n` whose rollback sets `rolled_back`. */
    ghost function CompensatedFrom(j: nat, n: nat): set<Agent>
      requires j <= n <= |agents|
      decreases n - j
    {
      if j == n then {}
      else (if RollbackCompensates(agents[j].kind) then {agents[j]} else {}) + CompensatedFrom(j + 1, n)
    }

    lemma CompensatedFromStep(j: nat, n: nat)
      requires j < n <= |agents|
      ensures CompensatedFrom(j, n)
              == (if RollbackCompensates(agents[j].kind) then {agents[j]} else {}) + CompensatedFrom(j + 1, n)
    {
    }

    /** An agent is compensated exactly when it occurs among the positions and its
        rollback completes. */
    lemma {:induction false} CompensatedFromMembers(j: nat, n: nat, a: Agent)
      requires j <= n <= |agents|
      ensures a in CompensatedFrom(j, n) <==> a in agents[j..n] && RollbackCompensates(a.kind)
      decreases n - j
    {
      if j < n {
        CompensatedFromMembers(j + 1, n, a);
        assert agents[j..n] == [agents[j]] + agents[j + 1..n];
      }
    }

    /**
     * `run_all(intent)`. `rollbacks` records the agents whose rollback was called,
     * in call order. No exception escapes.
     */
    method RunAll(intent: Dict) returns (results: seq<Dict>, ghost rollbacks: seq<nat>)
      modifies set a: Agent | a in agents
      ensures results == RunAllResult(Kinds(), intent)
      ensures var run := Forward(Kinds(), intent);
              rollbacks == (if run.failure.None? then [] else Compensations(Kinds(), |run.results|))
      ensures var run := Forward(Kinds(), intent);
              forall a :: a in agents ==>
                a.rolledBack == (old(a.rolledBack) || (run.failure.Some? && a in agents[..|run.results|]
                                                       && RollbackCompensates(a.kind)))
    {
      var failure;
      results, failure := ForwardPass(intent);
      if failure.None? {
        rollbacks := [];
        return;
      }
      rollbacks := Compensate(intent, |results|);
      forall a | a in agents
        ensures a.rolledBack == (old(a.rolledBack) || (a in agents[..|results|] && RollbackCompensates(a.kind)))
      {
        CompensatedFromMembers(0, |results|, a);
        assert agents[..|results|] == agents[0..|results|];
      }
      results := results + [ErrorResult(failure.value)];
    }

    /** The `try` block of `run_all`: execute each agent in turn, append what it
        returns, and stop at the first exception or error status. */
    method ForwardPass(intent: Dict) returns (results: seq<Dict>, failure: Option<string>)
      ensures Forward(Kinds(), intent) == Run(results, failure, Forward(Kinds(), intent).calls)
    {
      ghost var ks := Kinds();
      results := [];
      failure := None;
      var i := 0;
      while i < |agents| && failure.None?
        invariant 0 <= i <= |agents|
        invariant failure.None? ==>
          var rest := Forward(ks[i..], intent);
          Forward(ks, intent) == Run(results + rest.results, rest.failure, i + rest.calls)
        invariant failure.Some? ==> Forward(ks, intent) == Run(results, failure, i)
      {
        var outcome := Execute(agents[i].kind, intent);
        if outcome.Raised? {
          ForwardStopsAtRaise(ks, i, intent, results, Forward(ks, intent));
          failure := Some(outcome.message);
        } else if Get(outcome.result, "status") == Str("error") {
          ForwardStopsAtErrorStatus(ks, i, intent, results, Forward(ks, intent));
          results := results + [outcome.result];
          failure := Some(Display(Get(outcome.result, "message")));
        } else {
          ForwardContinues(ks, i, intent, results, Forward(ks, intent));
          results := results + [outcome.result];
        }
        i := i + 1;
      }
      if failure.None? {
        assert ks[i..] == [];
      }
    }

    /** The `except` branch: the first `n` agents, latest first, have their rollback
        called when they have one; an exception from a rollback is swallowed. */
    method Compensate(intent: Dict, n: nat) returns (ghost order: seq<nat>)
      requires n <= |agents|
      modifies set a: Agent | a in agents
      ensures order == Compensations(Kinds(), n)
      ensures forall a :: a in agents ==> a.rolledBack == (old(a.rolledBack) || a in CompensatedFrom(0, n))
    {
      ghost var ks := Kinds();
      order := [];
      var j := n;
      while j > 0
        invariant 0 <= j <= n
        invariant order + Compensations(ks, j) == Compensations(ks, n)
        invariant forall a :: a in agents ==> a.rolledBack == (old(a.rolledBack) || a in CompensatedFrom(j, n))
      {
        var agent := agents[j - 1];
        CompensatedFromStep(j - 1, n);
        if HasRollback(agent.kind) {
          var _ := agent.Rollback(intent);
          order := order + [j - 1];
        }
        j := j - 1;
      }
    }
  }
}
