/** The DubboBootstrap class: an immutable record of its fields, and each of
    its public operations as a function from the state before the call to the
    state after it.

    The state a call can change is a `Sys`: the bootstrap's own fields, the
    JVM's table of registered shutdown hooks, and the trace of calls made into
    collaborators. Every call is atomic here; the class's `synchronized`
    modifiers only serialise these same steps. */
module DubboBootstrap {
  import opened Calls
  import opened Execution

  /** The fields of a DubboBootstrap. The ReferenceConfigCache field (by
      default the process-wide cache) is left implicit: only the calls made
      on it are recorded. */
  datatype Bootstrap = Bootstrap(
    hookOnStart: bool,                         // registerShutdownHookOnStart
    hook: HookRef,                             // shutdownHook
    services: seq<Service>,                    // serviceConfigList
    references: seq<Reference>,                // referenceConfigList
    application: Option<ApplicationConfig>,
    registries: Option<seq<RegistryConfig>>,
    consumer: Option<ConsumerConfig>,
    provider: Option<ProviderConfig>,
    protocols: Option<seq<ProtocolConfig>>,
    monitor: Option<MonitorConfig>,
    moduleConfig: Option<ModuleConfig>)        // module

  /** The fields of a bootstrap, one per setter. */
  datatype Slot =
    | HookFlag | Services | References | Application | Registries
    | Consumer | Provider | Protocols | Monitor | Module

  /** `a` and `b` agree on every field except possibly the one named by `slot`. */
  predicate AgreeExcept(a: Bootstrap, b: Bootstrap, slot: Slot)
  {
    && a.hook == b.hook
    && (slot != HookFlag ==> a.hookOnStart == b.hookOnStart)
    && (slot != Services ==> a.services == b.services)
    && (slot != References ==> a.references == b.references)
    && (slot != Application ==> a.application == b.application)
    && (slot != Registries ==> a.registries == b.registries)
    && (slot != Consumer ==> a.consumer == b.consumer)
    && (slot != Provider ==> a.provider == b.provider)
    && (slot != Protocols ==> a.protocols == b.protocols)
    && (slot != Monitor ==> a.monitor == b.monitor)
    && (slot != Module ==> a.moduleConfig == b.moduleConfig)
  }

  /** No unit registered and no configuration object set. */
  predicate Empty(b: Bootstrap)
  {
    && b.services == [] && b.references == []
    && b.application.None? && b.registries.None? && b.consumer.None?
    && b.provider.None? && b.protocols.None? && b.monitor.None? && b.moduleConfig.None?
  }

  // ---------------------------------------------------------------------
  // Construction

  /** `new DubboBootstrap(registerShutdownHookOnStart, shutdownHook)`. */
  function BootstrapOf(hookOnStart: bool, hook: HookRef): (b: Bootstrap)
    ensures Empty(b)
    ensures b.hookOnStart == hookOnStart && b.hook == hook
  {
    Bootstrap(hookOnStart, hook, [], [], None, None, None, None, None, None, None)
  }

  /** `new DubboBootstrap(registerShutdownHookOnStart)`: the process-wide hook. */
  function BootstrapWithFlag(hookOnStart: bool): (b: Bootstrap)
    ensures Empty(b)
    ensures b.hookOnStart == hookOnStart && b.hook == DubboHook
  {
    BootstrapOf(hookOnStart, DubboHook)
  }

  /** `new DubboBootstrap()`: registers the hook on start. */
  function DefaultBootstrap(): (b: Bootstrap)
    ensures Empty(b)
    ensures b.hookOnStart && b.hook == DubboHook
  {
    BootstrapOf(true, DubboHook)
  }

  /** The state of the singleton `INSTANCE` returned by `getInstance()` when it
      is created. */
  function Instance(): (b: Bootstrap)
    ensures Empty(b)
    ensures b.hookOnStart && b.hook == DubboHook
  {
    BootstrapWithFlag(true)
  }

  /** `newBootStrap()`: unlike the no-argument constructor and `INSTANCE`, does NOT
      register the hook on start. */
  function NewBootStrap(): (b: Bootstrap)
    ensures Empty(b)
    ensures !b.hookOnStart && b.hook == DubboHook
  {
    BootstrapWithFlag(false)
  }

  /** `newBootStrap(registerShutdownHookOnStart)`. */
  function NewBootStrapWith(hookOnStart: bool): (b: Bootstrap)
    ensures Empty(b)
    ensures b.hookOnStart == hookOnStart && b.hook == DubboHook
  {
    BootstrapWithFlag(hookOnStart)
  }

  // ---------------------------------------------------------------------
  // Fluent setters: each overwrites one field and returns the bootstrap.

  function WithApplication(b: Bootstrap, c: Option<ApplicationConfig>): (r: Bootstrap)
    ensures r.application == c && AgreeExcept(b, r, Application)
  {
    b.(application := c)
  }

  function WithConsumer(b: Bootstrap, c: Option<ConsumerConfig>): (r: Bootstrap)
    ensures r.consumer == c && AgreeExcept(b, r, Consumer)
  {
    b.(consumer := c)
  }

  function WithProvider(b: Bootstrap, c: Option<ProviderConfig>): (r: Bootstrap)
    ensures r.provider == c && AgreeExcept(b, r, Provider)
  {
    b.(provider := c)
  }

  function WithModule(b: Bootstrap, c: Option<ModuleConfig>): (r: Bootstrap)
    ensures r.moduleConfig == c && AgreeExcept(b, r, Module)
  {
    b.(moduleConfig := c)
  }

  function WithMonitor(b: Bootstrap, c: Option<MonitorConfig>): (r: Bootstrap)
    ensures r.monitor == c && AgreeExcept(b, r, Monitor)
  {
    b.(monitor := c)
  }

  /** `setRegisterShutdownHookOnStart(register)`. */
  function WithHookOnStart(b: Bootstrap, register: bool): (r: Bootstrap)
    ensures r.hookOnStart == register && AgreeExcept(b, r, HookFlag)
  {
    b.(hookOnStart := register)
  }

  /** `registryConfigs(list)`: replaces the whole list (null included). */
  function WithRegistries(b: Bootstrap, cs: Option<seq<RegistryConfig>>): (r: Bootstrap)
    ensures r.registries == cs && AgreeExcept(b, r, Registries)
  {
    b.(registries := cs)
  }

  /** `protocolConfigs(list)`: replaces the whole list (null included). */
  function WithProtocols(b: Bootstrap, ps: Option<seq<ProtocolConfig>>): (r: Bootstrap)
    ensures r.protocols == ps && AgreeExcept(b, r, Protocols)
  {
    b.(protocols := ps)
  }

  /** The elements of an optional list; an absent list has none. */
  function ElementsOf<T>(l: Option<seq<T>>): seq<T>
  {
    match l
    case None => []
    case Some(xs) => xs
  }

  /** `registryConfig(c)`: creates the list when it is absent, then appends. */
  function AddRegistry(b: Bootstrap, c: RegistryConfig): (r: Bootstrap)
    ensures r.registries.Some?
    ensures |r.registries.value| == |ElementsOf(b.registries)| + 1
    ensures r.registries.value[..|ElementsOf(b.registries)|] == ElementsOf(b.registries)
    ensures r.registries.value[|ElementsOf(b.registries)|] == c
    ensures AgreeExcept(b, r, Registries)
  {
    var current := if b.registries.None? then [] else b.registries.value;
    b.(registries := Some(current + [c]))
  }

  /** `protocolConfig(c)`: creates the list when it is absent, then appends. */
  function AddProtocol(b: Bootstrap, c: ProtocolConfig): (r: Bootstrap)
    ensures r.protocols.Some?
    ensures |r.protocols.value| == |ElementsOf(b.protocols)| + 1
    ensures r.protocols.value[..|ElementsOf(b.protocols)|] == ElementsOf(b.protocols)
    ensures r.protocols.value[|ElementsOf(b.protocols)|] == c
    ensures AgreeExcept(b, r, Protocols)
  {
    var current := if b.protocols.None? then [] else b.protocols.value;
    b.(protocols := Some(current + [c]))
  }

  // ---------------------------------------------------------------------
  // The state a call changes, and what it returns

  /** The bootstrap, the JVM's registered shutdown hooks, and the calls made
      into collaborators so far. */
  datatype Sys = Sys(boot: Bootstrap, hooks: set<HookRef>, trace: seq<Event>)

  /** The state after a call, and how the call ended. A call that throws still
      leaves behind whatever it did before the exception. */
  datatype Outcome<T> = Outcome(sys: Sys, result: Result<T>)

  /** Records the calls of an attempt and turns its exception into the result. */
  function Perform(sys: Sys, a: Attempt): (o: Outcome<()>)
  {
    Outcome(sys.(trace := sys.trace + a.made),
            if a.failure.Some? then Err(a.failure.value) else Ok(()))
  }

  /** `o` is what running `steps` from `sys` leaves: the bootstrap and hooks
      untouched, the calls of the steps begun appended to the trace, and the
      exception of the first step whose call throws as the result. */
  predicate Ran(env: Env, sys: Sys, steps: seq<Step>, o: Outcome<()>)
  {
    && o.sys == sys.(trace := sys.trace + Flatten(steps[..Reached(env, steps)]))
    && o.result == (match FailureOf(env, steps) case None => Ok(()) case Some(f) => Err(f))
  }

  /** Runs `steps` whose setups cannot throw. */
  function RunAll(env: Env, sys: Sys, steps: seq<Step>): (o: Outcome<()>)
    requires forall i | 0 <= i < |steps| :: forall e | e in steps[i].setup :: e.IsBind()
    ensures Ran(env, sys, steps, o)
  {
    RunSteps(env, steps);
    Perform(sys, Run(env, Flatten(steps)))
  }

  // ---------------------------------------------------------------------
  // Registration

  /** `serviceConfig(u)`: binds the unit to this bootstrap, then appends it. */
  function AddService(sys: Sys, u: Service): (r: Sys)
    ensures r.boot.services == sys.boot.services + [u]
    ensures AgreeExcept(sys.boot, r.boot, Services)
    ensures r.hooks == sys.hooks && r.trace == sys.trace + [BindService(u)]
  {
    Sys(sys.boot.(services := sys.boot.services + [u]), sys.hooks, sys.trace + [BindService(u)])
  }

  /** `referenceConfig(r)`: binds the unit to this bootstrap, then appends it. */
  function AddReference(sys: Sys, u: Reference): (r: Sys)
    ensures r.boot.references == sys.boot.references + [u]
    ensures AgreeExcept(sys.boot, r.boot, References)
    ensures r.hooks == sys.hooks && r.trace == sys.trace + [BindReference(u)]
  {
    Sys(sys.boot.(references := sys.boot.references + [u]), sys.hooks, sys.trace + [BindReference(u)])
  }

  // ---------------------------------------------------------------------
  // The shutdown hook

  /** `registerShutdownHook()`: `Runtime.addShutdownHook(shutdownHook)`, which
      throws IllegalStateException once the JVM is shutting down and
      IllegalArgumentException when the hook is already registered; neither
      is caught. */
  function RegisterShutdownHook(env: Env, sys: Sys): (o: Outcome<()>)
    ensures o.sys.boot == sys.boot
    ensures o.sys.trace == sys.trace + [HookRegister(sys.boot.hook)]
    ensures o.result.Ok? <==> !env.shuttingDown && sys.boot.hook !in sys.hooks
    ensures o.result.Ok? ==> o.sys.hooks == sys.hooks + {sys.boot.hook}
    ensures o.result.Err? ==> o.sys.hooks == sys.hooks
    ensures env.shuttingDown ==> o.result == Err(ShutdownInProgress)
    ensures !env.shuttingDown && sys.boot.hook in sys.hooks ==> o.result == Err(HookPreviouslyRegistered)
  {
    var h := sys.boot.hook;
    var called := sys.(trace := sys.trace + [HookRegister(h)]);
    if env.shuttingDown then Outcome(called, Err(ShutdownInProgress))
    else if h in sys.hooks then Outcome(called, Err(HookPreviouslyRegistered))
    else Outcome(called.(hooks := sys.hooks + {h}), Ok(()))
  }

  /** `removeShutdownHook()`: `Runtime.removeShutdownHook(shutdownHook)`. The
      IllegalStateException thrown once the JVM is shutting down is caught and
      ignored, so this never fails. */
  function RemoveShutdownHook(env: Env, sys: Sys): (o: Outcome<()>)
    ensures o.result == Ok(())
    ensures o.sys.boot == sys.boot
    ensures o.sys.trace == sys.trace + [HookRemove(sys.boot.hook)]
    ensures sys.boot.hook !in o.sys.hooks || env.shuttingDown
    ensures env.shuttingDown ==> o.sys.hooks == sys.hooks
    ensures o.sys.hooks - {sys.boot.hook} == sys.hooks - {sys.boot.hook}
  {
    var h := sys.boot.hook;
    var called := sys.(trace := sys.trace + [HookRemove(h)]);
    if env.shuttingDown then Outcome(called, Ok(()))
    else Outcome(called.(hooks := sys.hooks - {h}), Ok(()))
  }

  // ---------------------------------------------------------------------
  // Bulk and single export / unexport / refer / unrefer

  /** `export()`: for each service in list order, bind it, then export it. */
  function ExportSteps(us: seq<Service>): seq<Step>
  {
    seq(|us|, i requires 0 <= i < |us| => Step([BindService(us[i])], Export(us[i])))
  }

  /** `unexport()`: for each service in list order, unexport it (no binding). */
  function UnexportSteps(us: seq<Service>): seq<Step>
  {
    seq(|us|, i requires 0 <= i < |us| => Step([], Unexport(us[i])))
  }

  /** The call `refer(r, isCache)` makes: the cache's `get`, or the unit's own `refer()`. */
  function ReferCall(r: Reference, isCache: bool): (e: Event)
    ensures e.IsReferCall() && e.reference == r
    ensures e.CacheGet? <==> isCache
  {
    if isCache then CacheGet(r) else DirectRefer(r)
  }

  /** `refer(isCache)`: for each reference in list order, bind it, then resolve it. */
  function ReferSteps(rs: seq<Reference>, isCache: bool): seq<Step>
  {
    seq(|rs|, i requires 0 <= i < |rs| => Step([BindReference(rs[i])], ReferCall(rs[i], isCache)))
  }

  function ExportAll(env: Env, sys: Sys): (o: Outcome<()>)
    ensures Ran(env, sys, ExportSteps(sys.boot.services), o)
  {
    RunAll(env, sys, ExportSteps(sys.boot.services))
  }

  function UnexportAll(env: Env, sys: Sys): (o: Outcome<()>)
    ensures Ran(env, sys, UnexportSteps(sys.boot.services), o)
  {
    RunAll(env, sys, UnexportSteps(sys.boot.services))
  }

  function ReferAll(env: Env, sys: Sys, isCache: bool): (o: Outcome<()>)
    ensures Ran(env, sys, ReferSteps(sys.boot.references, isCache), o)
  {
    RunAll(env, sys, ReferSteps(sys.boot.references, isCache))
  }

  /** `refer()`: the bulk refer through the cache. */
  function ReferAllCached(env: Env, sys: Sys): (o: Outcome<()>)
    ensures Ran(env, sys, ReferSteps(sys.boot.references, true), o)
  {
    ReferAll(env, sys, true)
  }

  /** `unrefer()`: drains the cache; the reference list is not consulted. */
  function UnreferAll(env: Env, sys: Sys): (o: Outcome<()>)
    ensures o.sys == sys.(trace := sys.trace + [CacheDestroyAll])
    ensures o.result == if Throws(env, CacheDestroyAll) then Err(Raised(CacheDestroyAll)) else Ok(())
  {
    RunOne(env, CacheDestroyAll);
    Perform(sys, Run(env, [CacheDestroyAll]))
  }

  /** `export(u)`: bind the unit, then export it, whether or not it is registered. */
  function ExportService(env: Env, sys: Sys, u: Service): (o: Outcome<()>)
    ensures o.sys == sys.(trace := sys.trace + [BindService(u), Export(u)])
    ensures o.result == if Throws(env, Export(u)) then Err(Raised(Export(u))) else Ok(())
  {
    RunBindThen(env, BindService(u), Export(u));
    Perform(sys, Run(env, [BindService(u), Export(u)]))
  }

  /** `unexport(u)`: delegates to the unit alone. */
  function UnexportService(env: Env, sys: Sys, u: Service): (o: Outcome<()>)
    ensures o.sys == sys.(trace := sys.trace + [Unexport(u)])
    ensures o.result == if Throws(env, Unexport(u)) then Err(Raised(Unexport(u))) else Ok(())
  {
    RunOne(env, Unexport(u));
    Perform(sys, Run(env, [Unexport(u)]))
  }

  /** `unrefer(r)`: delegates to `cache.destroy(r)` alone. */
  function UnreferReference(env: Env, sys: Sys, r: Reference): (o: Outcome<()>)
    ensures o.sys == sys.(trace := sys.trace + [CacheDestroy(r)])
    ensures o.result == if Throws(env, CacheDestroy(r)) then Err(Raised(CacheDestroy(r))) else Ok(())
  {
    RunOne(env, CacheDestroy(r));
    Perform(sys, Run(env, [CacheDestroy(r)]))
  }

  /** `refer(r, isCache)`: bind the unit, then return what `cache.get(r)`
      returns when `isCache` holds and what `r.refer()` returns otherwise. */
  function ReferReference(env: Env, sys: Sys, r: Reference, isCache: bool): (o: Outcome<Handle>)
    ensures o.sys.boot == sys.boot && o.sys.hooks == sys.hooks
    ensures isCache ==> o.sys.trace == sys.trace + [BindReference(r), CacheGet(r)]
    ensures !isCache ==> o.sys.trace == sys.trace + [BindReference(r), DirectRefer(r)]
    ensures isCache && !Throws(env, CacheGet(r)) ==> o.result == Ok(ReturnOf(CacheGet(r)))
    ensures !isCache && !Throws(env, DirectRefer(r)) ==> o.result == Ok(ReturnOf(DirectRefer(r)))
    ensures o.result.Err? <==> Throws(env, ReferCall(r, isCache))
    ensures o.result.Err? ==> o.result.failure == Raised(ReferCall(r, isCache))
  {
    var call := ReferCall(r, isCache);
    var a := Run(env, [BindReference(r), call]);
    RunBindThen(env, BindReference(r), call);
    Outcome(sys.(trace := sys.trace + a.made),
            if a.failure.Some? then Err(a.failure.value) else Ok(ReturnOf(call)))
  }

  /** `refer(r)`: the single refer through the cache. */
  function ReferCached(env: Env, sys: Sys, r: Reference): (o: Outcome<Handle>)
    ensures o.sys.trace == sys.trace + [BindReference(r), CacheGet(r)]
    ensures o.result.Ok? ==> o.result.value == ReturnOf(CacheGet(r))
    ensures o.result.Err? <==> Throws(env, CacheGet(r))
    ensures o.result.Err? ==> o.result.failure == Raised(CacheGet(r))
    ensures o.sys.boot == sys.boot && o.sys.hooks == sys.hooks
  {
    ReferReference(env, sys, r, true)
  }

  // ---------------------------------------------------------------------
  // Start, stop, external configuration

  /** The Runtime call `start()` makes first. */
  function StartHookCall(b: Bootstrap): (e: Event)
    ensures e.IsRuntime() && e.hook == b.hook
    ensures e.HookRegister? <==> b.hookOnStart
  {
    if b.hookOnStart then HookRegister(b.hook) else HookRemove(b.hook)
  }

  /** `start()`: register the hook (or remove it when the bootstrap does not
      manage it), then `export()`, then `refer()`; an exception at any point
      ends the call. */
  function Start(env: Env, sys: Sys): (o: Outcome<()>)
    ensures o.sys.boot == sys.boot
    ensures |o.sys.trace| > |sys.trace|
    ensures o.sys.trace[..|sys.trace|] == sys.trace
    ensures o.sys.trace[|sys.trace|] == StartHookCall(sys.boot)
  {
    var hooked := if sys.boot.hookOnStart then RegisterShutdownHook(env, sys)
                  else RemoveShutdownHook(env, sys);
    if hooked.result.Err? then hooked
    else ExportThenRefer(env, hooked.sys)
  }

  /** The rest of `start()`: `export()`, then `refer()` unless the export threw. */
  function ExportThenRefer(env: Env, sys: Sys): (o: Outcome<()>)
    ensures Ran(env, sys, StartSteps(sys.boot), o)
  {
    var exported := ExportAll(env, sys);
    var o := if exported.result.Err? then exported else ReferAllCached(env, exported.sys);
    RanThen(env, sys, ExportSteps(sys.boot.services), ReferSteps(sys.boot.references, true), exported, o);
    o
  }

  /** The steps `start()` runs once the hook call has succeeded. */
  function StartSteps(b: Bootstrap): seq<Step>
  {
    ExportSteps(b.services) + ReferSteps(b.references, true)
  }

  /** Running `a` and then, only if it completed, `b`, is running `a + b`. */
  lemma RanThen(env: Env, sys: Sys, a: seq<Step>, b: seq<Step>, o1: Outcome<()>, o2: Outcome<()>)
    requires Ran(env, sys, a, o1)
    requires o1.result.Ok? ==> Ran(env, o1.sys, b, o2)
    requires o1.result.Err? ==> o2 == o1
    ensures Ran(env, sys, a + b, o2)
  {
    if FailureOf(env, a).None? {
      RanThenCompleted(env, sys, a, b, o1, o2);
    } else {
      ReachedAppend(env, a, b);
      BegunAppend(env, a, b);
    }
  }

  /** `RanThen` when `a` completed. */
  lemma RanThenCompleted(env: Env, sys: Sys, a: seq<Step>, b: seq<Step>, o1: Outcome<()>, o2: Outcome<()>)
    requires FailureOf(env, a).None?
    requires Ran(env, sys, a, o1)
    requires Ran(env, o1.sys, b, o2)
    ensures Ran(env, sys, a + b, o2)
  {
    ReachedAll(env, a);
    BegunAfterCompleted(env, a, b);
    var d1 := Flatten(a);
    var d2 := Flatten(b[..Reached(env, b)]);
    assert o2.sys == sys.(trace := sys.trace + d1 + d2);
    assert sys.trace + d1 + d2 == sys.trace + (d1 + d2);
  }

  /** After a completed `a`, running `a + b` begins all of `a` and what `b` begins. */
  lemma BegunAfterCompleted(env: Env, a: seq<Step>, b: seq<Step>)
    requires FailureOf(env, a).None?
    ensures Flatten((a + b)[..Reached(env, a + b)]) == Flatten(a) + Flatten(b[..Reached(env, b)])
    ensures FailureOf(env, a + b) == FailureOf(env, b)
  {
    ReachedAppend(env, a, b);
    BegunAppend(env, a, b);
  }

  /** `stop()`: `unexport()`, `unrefer()`, `shutdownHook.destroyAll()`, then
      remove the hook when the bootstrap manages it; an exception at any
      point ends the call. */
  function Stop(env: Env, sys: Sys): (o: Outcome<()>)
    ensures o.sys.boot == sys.boot
    ensures |o.sys.trace| > |sys.trace|
    ensures o.sys.trace[..|sys.trace|] == sys.trace
  {
    var unexported := UnexportAll(env, sys);
    if unexported.result.Err? then unexported
    else
      var unreferred := UnreferAll(env, unexported.sys);
      if unreferred.result.Err? then unreferred
      else
        RunOne(env, HookDestroyAll(sys.boot.hook));
        var destroyed := Perform(unreferred.sys, Run(env, [HookDestroyAll(sys.boot.hook)]));
        if destroyed.result.Err? || !sys.boot.hookOnStart then destroyed
        else RemoveShutdownHook(env, destroyed.sys)
  }

  /** `setExternalConfiguration(properties)`: a null map is ignored. */
  function SetExternalConfiguration(env: Env, sys: Sys, properties: Option<map<string, string>>): (o: Outcome<()>)
    ensures properties.None? ==> o == Outcome(sys, Ok(()))
    ensures properties.Some? ==>
              o.sys == sys.(trace := sys.trace + [ExternalConfiguration(properties.value)])
    ensures o.result.Err? <==> properties.Some? && Throws(env, ExternalConfiguration(properties.value))
    ensures o.result.Err? ==> o.result.failure == Raised(ExternalConfiguration(properties.value))
  {
    match properties
    case None => Outcome(sys, Ok(()))
    case Some(p) =>
      RunOne(env, ExternalConfiguration(p));
      Perform(sys, Run(env, [ExternalConfiguration(p)]))
  }
}
