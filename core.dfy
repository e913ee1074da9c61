/**
 * `AgentCore` (agent_core.py): the registry from intent type to agent class, built
 * by `_load_agents` from the agent modules' objects, and `dispatch`, which looks an
 * intent's handler up and turns a missing handler or an exception into an error
 * result. Module discovery and import are replaced by the list of modules given.
 */
module Core {
  import opened Wrappers
  import opened Values
  import opened Agents

  /** What calling the class does: build an instance, or raise (an abstract class
      that lacks `execute`, or an `__init__` that needs arguments or raises). */
  datatype Instantiation = Instantiates | InitRaises(message: string)

  /** An agent class: its name, the behaviour of its instances and what calling it
      does. */
  datatype AgentClass = AgentClass(name: string, kind: Kind, init: Instantiation)

  /** A value in an agent module's namespace, as `_load_agents` sees it. */
  datatype ModuleObject =
    | NotAClass
    | ClassObject(cls: AgentClass, subclassOfBase: bool, isBaseAgent: bool, intentTypes: seq<string>)

  /** An agent module: its file name and its namespace's values, in order. */
  datatype AgentModule = AgentModule(fileName: string, objects: seq<ModuleObject>)

  type Registry = map<string, AgentClass>

  /** A BaseAgent subclass other than BaseAgent itself. */
  predicate Registers(obj: ModuleObject) {
    obj.ClassObject? && obj.subclassOfBase && !obj.isBaseAgent
  }

  /** The assignments one object makes, in order: one per listed intent type. */
  function ObjectRegistrations(obj: ModuleObject): seq<(string, AgentClass)> {
    if Registers(obj) then Under(obj.intentTypes, obj.cls) else []
  }

  /** One class under each of the given intent types, in order. */
  function Under(intentTypes: seq<string>, cls: AgentClass): (r: seq<(string, AgentClass)>)
    ensures |r| == |intentTypes|
  {
    if intentTypes == [] then []
    else Under(intentTypes[..|intentTypes| - 1], cls) + [(intentTypes[|intentTypes| - 1], cls)]
  }

  function ModuleRegistrations(objects: seq<ModuleObject>): seq<(string, AgentClass)> {
    if objects == [] then []
    else ModuleRegistrations(objects[..|objects| - 1]) + ObjectRegistrations(objects[|objects| - 1])
  }

  /** Every assignment `_load_agents` makes, in order; "__init__.py" is skipped. */
  function Registrations(modules: seq<AgentModule>): seq<(string, AgentClass)> {
    if modules == [] then []
    else
      var last := modules[|modules| - 1];
      Registrations(modules[..|modules| - 1])
        + (if last.fileName == "__init__.py" then [] else ModuleRegistrations(last.objects))
  }

  /** The registry after a sequence of `registry[intent_type] = obj` assignments. */
  function Apply(registry: Registry, pairs: seq<(string, AgentClass)>): Registry {
    if pairs == [] then registry
    else
      var last := pairs[|pairs| - 1];
      Apply(registry, pairs[..|pairs| - 1])[last.0 := last.1]
  }

  lemma ApplySnoc(registry: Registry, pairs: seq<(string, AgentClass)>, k: nat)
    requires k < |pairs|
    ensures Apply(registry, pairs[..k + 1]) == Apply(registry, pairs[..k])[pairs[k].0 := pairs[k].1]
  {
    assert pairs[..k + 1][..k] == pairs[..k];
  }

  /** Assignments in two batches are the assignments in one. */
  lemma {:induction false} ApplyAppend(registry: Registry, p: seq<(string, AgentClass)>,
                                       q: seq<(string, AgentClass)>)
    ensures Apply(registry, p + q) == Apply(Apply(registry, p), q)
    decreases |q|
  {
    if q != [] {
      assert (p + q)[..|p + q| - 1] == p + q[..|q| - 1];
      ApplyAppend(registry, p, q[..|q| - 1]);
    } else {
      assert p + q == p;
    }
  }

  /** Loading only adds keys: the registry's keys grow by exactly the registered
      intent types, and none is removed. */
  lemma {:induction false} ApplyKeys(registry: Registry, pairs: seq<(string, AgentClass)>)
    ensures Apply(registry, pairs).Keys == registry.Keys + set k | 0 <= k < |pairs| :: pairs[k].0
    decreases |pairs|
  {
    if pairs != [] {
      var init := pairs[..|pairs| - 1];
      ApplyKeys(registry, init);
      assert (set k | 0 <= k < |pairs| :: pairs[k].0)
             == (set k | 0 <= k < |init| :: init[k].0) + {pairs[|pairs| - 1].0};
    }
  }

  /** The last assignment to an intent type wins. */
  lemma {:induction false} LastRegistrationWins(registry: Registry, pairs: seq<(string, AgentClass)>, k: nat)
    requires k < |pairs|
    requires forall l :: k < l < |pairs| ==> pairs[l].0 != pairs[k].0
    ensures pairs[k].0 in Apply(registry, pairs) && Apply(registry, pairs)[pairs[k].0] == pairs[k].1
    decreases |pairs|
  {
    if k < |pairs| - 1 {
      LastRegistrationWins(registry, pairs[..|pairs| - 1], k);
    }
  }

  /** An intent type that no assignment names keeps its earlier class. */
  lemma {:induction false} UntouchedKeepsClass(registry: Registry, pairs: seq<(string, AgentClass)>, t: string)
    requires t in registry
    requires forall l :: 0 <= l < |pairs| ==> pairs[l].0 != t
    ensures t in Apply(registry, pairs) && Apply(registry, pairs)[t] == registry[t]
    decreases |pairs|
  {
    if pairs != [] {
      UntouchedKeepsClass(registry, pairs[..|pairs| - 1], t);
    }
  }

  /** Non-classes, BaseAgent itself and classes of other hierarchies register
      nothing, and neither does anything in "__init__.py". */
  lemma NothingFromNonAgents(obj: ModuleObject, objects: seq<ModuleObject>)
    requires !Registers(obj)
    ensures ObjectRegistrations(obj) == []
    ensures Registrations([AgentModule("__init__.py", objects)]) == []
  {
    assert [AgentModule("__init__.py", objects)][..0] == [];
  }

  /** The error result for an intent without a handler. */
  function NoAgent(intentType: Value): Dict {
    map["status" := Str("error"), "message" := Str("No agent for intent " + Display(intentType))]
  }

  /** What `dispatch` raises: the TypeError of `registry.get` for an intent type that
      cannot be a dictionary key, or the exception of `agent_cls()`, which is called
      before the `try`. */
  datatype DispatchError =
    | Unhashable(intentType: Value)
    | InstantiationFailed(className: string, message: string)

  /** A hashable intent type with an entry in the registry. */
  predicate Handled(registry: Registry, t: Value) {
    t.Str? && t.s in registry
  }

  class AgentCore {
    var registry: Registry

    /** `__init__`: an empty registry, then `_load_agents`. */
    constructor (modules: seq<AgentModule>)
      ensures registry == Apply(map[], Registrations(modules))
    {
      registry := map[];
      new;
      LoadAgents(modules);
    }

    /** `_load_agents`: every module except "__init__.py", every object in it,
        every intent type it lists. */
    method LoadAgents(modules: seq<AgentModule>)
      modifies this
      ensures registry == Apply(old(registry), Registrations(modules))
    {
      var i := 0;
      while i < |modules|
        invariant 0 <= i <= |modules|
        invariant registry == Apply(old(registry), Registrations(modules[..i]))
      {
        assert modules[..i + 1][..i] == modules[..i];
        var m := modules[i];
        if m.fileName != "__init__.py" {
          assert Registrations(modules[..i + 1]) == Registrations(modules[..i]) + ModuleRegistrations(m.objects);
          ApplyAppend(old(registry), Registrations(modules[..i]), ModuleRegistrations(m.objects));
          LoadModule(m.objects);
        } else {
          assert Registrations(modules[..i + 1]) == Registrations(modules[..i]) + [] == Registrations(modules[..i]);
        }
        i := i + 1;
      }
      assert modules[..i] == modules;
    }

    /** The loop over one module's namespace. */
    method LoadModule(objects: seq<ModuleObject>)
      modifies this
      ensures registry == Apply(old(registry), ModuleRegistrations(objects))
    {
      var j := 0;
      while j < |objects|
        invariant 0 <= j <= |objects|
        invariant registry == Apply(old(registry), ModuleRegistrations(objects[..j]))
      {
        assert objects[..j + 1][..j] == objects[..j];
        ApplyAppend(old(registry), ModuleRegistrations(objects[..j]), ObjectRegistrations(objects[j]));
        Register(objects[j]);
        j := j + 1;
      }
      assert objects[..j] == objects;
    }

    /** The innermost loop: the class under each intent type it lists. */
    method Register(obj: ModuleObject)
      modifies this
      ensures registry == Apply(old(registry), ObjectRegistrations(obj))
    {
      if !(obj.ClassObject? && obj.subclassOfBase && !obj.isBaseAgent) {
        return;
      }
      var k := 0;
      while k < |obj.intentTypes|
        invariant 0 <= k <= |obj.intentTypes|
        invariant registry == Apply(old(registry), Under(obj.intentTypes[..k], obj.cls))
      {
        var done := Under(obj.intentTypes[..k], obj.cls);
        assert obj.intentTypes[..k + 1][..k] == obj.intentTypes[..k];
        assert Under(obj.intentTypes[..k + 1], obj.cls) == done + [(obj.intentTypes[k], obj.cls)];
        assert (done + [(obj.intentTypes[k], obj.cls)])[..k] == done;
        registry := registry[obj.intentTypes[k] := obj.cls];
        k := k + 1;
      }
      assert obj.intentTypes[..k] == obj.intentTypes;
    }

    /** `dispatch(intent)`: a fresh instance of the registered class executes the
        intent; an exception from `execute` becomes an error result. It raises for
        intent types Python cannot hash, with the TypeError of `registry.get`, and
        for a registered class that cannot be instantiated, since `agent_cls()` runs
        outside the `try`. */
    function Dispatch(intent: Dict): (r: Result<Dict, DispatchError>)
      reads this
      ensures var t := Get(intent, "intent");
              r.Err? <==> !Hashable(t) || (Handled(registry, t) && registry[t.s].init.InitRaises?)
      ensures var t := Get(intent, "intent");
              !Hashable(t) ==> r == Err(Unhashable(t))
      ensures var t := Get(intent, "intent");
              Handled(registry, t) && registry[t.s].init.InitRaises? ==>
                r == Err(InstantiationFailed(registry[t.s].name, registry[t.s].init.message))
    {
      var t := Get(intent, "intent");
      if !Hashable(t) then Err(Unhashable(t))
      else if !t.Str? || t.s !in registry then Ok(NoAgent(t))
      else if registry[t.s].init.InitRaises? then
        Err(InstantiationFailed(registry[t.s].name, registry[t.s].init.message))
      else
        match Execute(registry[t.s].kind, intent)
        case Returned(result) => Ok(result)
        case Raised(message) => Ok(map["status" := Str("error"), "message" := Str(message)])
    }
  }

  /** An intent whose type is absent or unregistered gets the "No agent" error. */
  lemma DispatchWithoutHandler(core: AgentCore, intent: Dict)
    requires var t := Get(intent, "intent"); Hashable(t) && !Handled(core.registry, t)
    ensures core.Dispatch(intent) == Ok(NoAgent(Get(intent, "intent")))
    ensures "intent" !in intent ==>
      core.Dispatch(intent).value["message"] == Str("No agent for intent None")
  {
  }

  /** With a registered handler, `dispatch` returns exactly when the class can be
      instantiated; then the handler's result is returned unchanged, and its
      exception is turned into an error result carrying the exception's text. */
  lemma DispatchToHandler(core: AgentCore, intent: Dict)
    requires Handled(core.registry, Get(intent, "intent"))
    ensures var cls := core.registry[Get(intent, "intent").s];
            core.Dispatch(intent).Ok? <==> cls.init.Instantiates?
    ensures var cls := core.registry[Get(intent, "intent").s];
            var o := Execute(cls.kind, intent);
            cls.init.Instantiates? ==>
              core.Dispatch(intent).value
                == (if o.Returned? then o.result else map["status" := Str("error"), "message" := Str(o.message)])
  {
  }

  /** BaseAgent as the agent modules import it. The kind it carries is never used:
      BaseAgent itself never registers, since `_load_agents` skips it. */
  const BaseAgentObject := ClassObject(AgentClass("BaseAgent", EchoAgent, InitRaises("Can't instantiate abstract class BaseAgent")), true, true, [])

  /** An agent module holding BaseAgent and one class for one intent type. */
  function SingleAgentModule(fileName: string, cls: AgentClass, intentType: string): AgentModule {
    AgentModule(fileName, [BaseAgentObject, ClassObject(cls, true, false, [intentType])])
  }

  /** Such a module registers its class under its intent type only. */
  lemma SingleAgentModuleRegisters(fileName: string, cls: AgentClass, intentType: string)
    ensures ModuleRegistrations(SingleAgentModule(fileName, cls, intentType).objects) == [(intentType, cls)]
  {
    var objs := SingleAgentModule(fileName, cls, intentType).objects;
    assert objs[..1][..0] == [];
    assert objs[..1] == [BaseAgentObject];
    assert [intentType][..0] == [];
    assert ObjectRegistrations(objs[1]) == [(intentType, cls)];
    assert ModuleRegistrations(objs[..1]) == [];
  }

  /** The four shipped agent classes; each defines `execute` and takes no
      arguments, so each can be instantiated. */
  const ActClass := AgentClass("ActAgent", ActAgent, Instantiates)
  const EchoClass := AgentClass("EchoAgent", EchoAgent, Instantiates)
  const PlanClass := AgentClass("PlanAgent", PlanAgent, Instantiates)
  const VerifyClass := AgentClass("VerifyAgent", VerifyAgent, Instantiates)

  /** The four shipped agent modules. */
  function ShippedModules(): seq<AgentModule> {
    [SingleAgentModule("act_agent.py", ActClass, "act"),
     SingleAgentModule("echo_agent.py", EchoClass, "echo"),
     SingleAgentModule("plan_agent.py", PlanClass, "plan"),
     SingleAgentModule("verify_agent.py", VerifyClass, "verify")]
  }

  /** The assignments the shipped modules make: one per agent, in file order. */
  const ShippedPairs := [("act", ActClass), ("echo", EchoClass),
                         ("plan", PlanClass), ("verify", VerifyClass)]

  /** Loading one more module that is not "__init__.py" appends its assignments. */
  lemma RegistrationsSnoc(ms: seq<AgentModule>, k: nat)
    requires k < |ms| && ms[k].fileName != "__init__.py"
    ensures Registrations(ms[..k + 1]) == Registrations(ms[..k]) + ModuleRegistrations(ms[k].objects)
  {
    assert ms[..k + 1][..k] == ms[..k];
  }

  /** Loading one more single-agent module appends its one assignment. */
  lemma RegistrationsStep(ms: seq<AgentModule>, k: nat, before: seq<(string, AgentClass)>,
                          fileName: string, cls: AgentClass, intentType: string)
    requires k < |ms| && ms[k] == SingleAgentModule(fileName, cls, intentType)
    requires fileName != "__init__.py" && Registrations(ms[..k]) == before
    ensures Registrations(ms[..k + 1]) == before + [(intentType, cls)]
  {
    RegistrationsSnoc(ms, k);
    SingleAgentModuleRegisters(fileName, cls, intentType);
  }

  lemma ShippedRegistrations()
    ensures Registrations(ShippedModules()) == ShippedPairs
  {
    var ms := ShippedModules();
    var p := ShippedPairs;
    assert ms[..0] == [];
    assert "act_agent.py"[0] != "__init__.py"[0];
    RegistrationsStep(ms, 0, [], "act_agent.py", p[0].1, "act");
    assert "echo_agent.py"[0] != "__init__.py"[0];
    RegistrationsStep(ms, 1, p[..1], "echo_agent.py", p[1].1, "echo");
    assert "plan_agent.py"[0] != "__init__.py"[0];
    RegistrationsStep(ms, 2, p[..2], "plan_agent.py", p[2].1, "plan");
    assert "verify_agent.py"[0] != "__init__.py"[0];
    RegistrationsStep(ms, 3, p[..3], "verify_agent.py", p[3].1, "verify");
    assert ms[..4] == ms && p[..3] + [p[3]] == p;
  }

  /** The registry the shipped modules build, written out. */
  const ShippedRegistryMap: Registry :=
    map["act" := ActClass, "echo" := EchoClass,
        "plan" := PlanClass, "verify" := VerifyClass]

  /** Loading the shipped modules registers exactly "act", "echo", "plan" and
      "verify", each with its own agent. */
  lemma ShippedRegistry()
    ensures Apply(map[], Registrations(ShippedModules())) == ShippedRegistryMap
    ensures ShippedRegistryMap.Keys == {"act", "echo", "plan", "verify"}
  {
    ShippedRegistrations();
    var pairs := ShippedPairs;
    assert pairs[..0] == [];
    ApplySnoc(map[], pairs, 0);
    ApplySnoc(map[], pairs, 1);
    ApplySnoc(map[], pairs, 2);
    ApplySnoc(map[], pairs, 3);
    assert pairs[..4] == pairs;
  }

  /** Dispatching a "verify" intent through a registry holding the verify agent
      yields {"status": "error", "message": "Verification failed"}. */
  lemma DispatchVerify(core: AgentCore, intent: Dict)
    requires Get(intent, "intent") == Str("verify")
    requires "verify" in core.registry && core.registry["verify"] == VerifyClass
    ensures core.Dispatch(intent) == Ok(map["status" := Str("error"), "message" := Str("Verification failed")])
  {
  }

  /** With the registry the shipped modules build, `dispatch` raises only for an
      unhashable intent type: every shipped class can be instantiated. */
  lemma ShippedDispatchRaisesOnlyUnhashable(core: AgentCore, intent: Dict)
    requires core.registry == ShippedRegistryMap
    ensures core.Dispatch(intent).Err? <==> !Hashable(Get(intent, "intent"))
  {
  }
}
