/** What the bootstrap promises, stated over the trace of calls it makes into
    its collaborators: registration order is iteration order, a bulk operation
    stops at the first unit that throws, `start()` touches the shutdown hook
    before anything else and exports before it refers, and `stop()` unexports,
    drains the cache, runs the hook's teardown and then removes the hook. */
module BootstrapProperties {
  import opened Calls
  import opened Execution
  import opened DubboBootstrap

  // ---------------------------------------------------------------------
  // Shapes of the calls a bulk operation makes

  /** `d` binds then exports each service of `us`, in list order. */
  predicate ExportsInOrder(d: seq<Event>, us: seq<Service>)
  {
    && |d| == 2 * |us|
    && forall i | 0 <= i < |us| :: d[2 * i] == BindService(us[i]) && d[2 * i + 1] == Export(us[i])
  }

  /** `d` binds then resolves each reference of `rs`, in list order, through
      the cache exactly when `isCache` holds. */
  predicate RefersInOrder(d: seq<Event>, rs: seq<Reference>, isCache: bool)
  {
    && |d| == 2 * |rs|
    && forall i | 0 <= i < |rs| ::
         d[2 * i] == BindReference(rs[i]) && d[2 * i + 1] == ReferCall(rs[i], isCache)
  }

  /** `d` unexports each service of `us`, in list order. */
  predicate UnexportsInOrder(d: seq<Event>, us: seq<Service>)
  {
    |d| == |us| && forall i | 0 <= i < |us| :: d[i] == Unexport(us[i])
  }

  lemma ExportStepsShape(us: seq<Service>)
    ensures ExportsInOrder(Flatten(ExportSteps(us)), us)
  {
    FlattenPairs(ExportSteps(us));
  }

  lemma ReferStepsShape(rs: seq<Reference>, isCache: bool)
    ensures RefersInOrder(Flatten(ReferSteps(rs, isCache)), rs, isCache)
  {
    FlattenPairs(ReferSteps(rs, isCache));
  }

  lemma UnexportStepsShape(us: seq<Service>)
    ensures UnexportsInOrder(Flatten(UnexportSteps(us)), us)
  {
    FlattenCalls(UnexportSteps(us));
    CallsOfSpec(UnexportSteps(us));
  }

  // ---------------------------------------------------------------------
  // A bulk operation completes, or stops at the first unit that throws

  /** When no step's call throws, every step is run. */
  lemma RanCompletes(env: Env, sys: Sys, steps: seq<Step>, o: Outcome<()>)
    requires Ran(env, sys, steps, o)
    requires forall i | 0 <= i < |steps| :: !Throws(env, steps[i].call)
    ensures o == Outcome(sys.(trace := sys.trace + Flatten(steps)), Ok(()))
  {
    FailureOfNone(env, steps);
    ReachedAll(env, steps);
  }

  /** When step `k` is the first whose call throws, steps 0..k are run, the
      later ones are not, and step k's exception is the result. */
  lemma RanAbortsAt(env: Env, sys: Sys, steps: seq<Step>, o: Outcome<()>, k: nat)
    requires Ran(env, sys, steps, o)
    requires k < |steps| && Throws(env, steps[k].call)
    requires forall i | 0 <= i < k :: !Throws(env, steps[i].call)
    ensures o == Outcome(sys.(trace := sys.trace + Flatten(steps[..k + 1])), Err(Raised(steps[k].call)))
  {
    CallsOfSpec(steps);
    FirstThrowIs(env, CallsOf(steps), k);
  }

  /** `export()` with no throwing unit exports every registered service, each
      bound first, in registration order. */
  lemma ExportCompletes(env: Env, sys: Sys)
    requires forall i | 0 <= i < |sys.boot.services| :: !Throws(env, Export(sys.boot.services[i]))
    ensures var o := ExportAll(env, sys);
            && o.result == Ok(())
            && o.sys.boot == sys.boot && o.sys.hooks == sys.hooks
            && |o.sys.trace| >= |sys.trace| && o.sys.trace[..|sys.trace|] == sys.trace
            && ExportsInOrder(o.sys.trace[|sys.trace|..], sys.boot.services)
  {
    var steps := ExportSteps(sys.boot.services);
    RanCompletes(env, sys, steps, ExportAll(env, sys));
    ExportStepsShape(sys.boot.services);
  }

  /** `export()` where service `k` is the first whose export throws: services
      0..k have been bound and exported in order, the later ones are untouched,
      nothing is undone, and the exception propagates. */
  lemma ExportAbortsAtFirstFailure(env: Env, sys: Sys, k: nat)
    requires k < |sys.boot.services| && Throws(env, Export(sys.boot.services[k]))
    requires forall i | 0 <= i < k :: !Throws(env, Export(sys.boot.services[i]))
    ensures var o := ExportAll(env, sys);
            && o.result == Err(Raised(Export(sys.boot.services[k])))
            && o.sys.boot == sys.boot && o.sys.hooks == sys.hooks
            && |o.sys.trace| >= |sys.trace| && o.sys.trace[..|sys.trace|] == sys.trace
            && ExportsInOrder(o.sys.trace[|sys.trace|..], sys.boot.services[..k + 1])
  {
    var us := sys.boot.services;
    RanAbortsAt(env, sys, ExportSteps(us), ExportAll(env, sys), k);
    assert ExportSteps(us)[..k + 1] == ExportSteps(us[..k + 1]);
    ExportStepsShape(us[..k + 1]);
  }

  /** `unexport()` with no throwing unit unexports every registered service in
      registration order. */
  lemma UnexportCompletes(env: Env, sys: Sys)
    requires forall i | 0 <= i < |sys.boot.services| :: !Throws(env, Unexport(sys.boot.services[i]))
    ensures var o := UnexportAll(env, sys);
            && o.result == Ok(())
            && o.sys.boot == sys.boot && o.sys.hooks == sys.hooks
            && |o.sys.trace| >= |sys.trace| && o.sys.trace[..|sys.trace|] == sys.trace
            && UnexportsInOrder(o.sys.trace[|sys.trace|..], sys.boot.services)
  {
    RanCompletes(env, sys, UnexportSteps(sys.boot.services), UnexportAll(env, sys));
    UnexportStepsShape(sys.boot.services);
  }

  /** `unexport()` where service `k` is the first whose unexport throws. */
  lemma UnexportAbortsAtFirstFailure(env: Env, sys: Sys, k: nat)
    requires k < |sys.boot.services| && Throws(env, Unexport(sys.boot.services[k]))
    requires forall i | 0 <= i < k :: !Throws(env, Unexport(sys.boot.services[i]))
    ensures var o := UnexportAll(env, sys);
            && o.result == Err(Raised(Unexport(sys.boot.services[k])))
            && o.sys.boot == sys.boot && o.sys.hooks == sys.hooks
            && |o.sys.trace| >= |sys.trace| && o.sys.trace[..|sys.trace|] == sys.trace
            && UnexportsInOrder(o.sys.trace[|sys.trace|..], sys.boot.services[..k + 1])
  {
    var us := sys.boot.services;
    RanAbortsAt(env, sys, UnexportSteps(us), UnexportAll(env, sys), k);
    assert UnexportSteps(us)[..k + 1] == UnexportSteps(us[..k + 1]);
    UnexportStepsShape(us[..k + 1]);
  }

  /** `refer(isCache)` with no throwing resolution resolves every registered
      reference, each bound first, in registration order, through the cache
      exactly when `isCache` holds. */
  lemma ReferCompletes(env: Env, sys: Sys, isCache: bool)
    requires forall i | 0 <= i < |sys.boot.references| ::
               !Throws(env, ReferCall(sys.boot.references[i], isCache))
    ensures var o := ReferAll(env, sys, isCache);
            && o.result == Ok(())
            && o.sys.boot == sys.boot && o.sys.hooks == sys.hooks
            && |o.sys.trace| >= |sys.trace| && o.sys.trace[..|sys.trace|] == sys.trace
            && RefersInOrder(o.sys.trace[|sys.trace|..], sys.boot.references, isCache)
  {
    RanCompletes(env, sys, ReferSteps(sys.boot.references, isCache), ReferAll(env, sys, isCache));
    ReferStepsShape(sys.boot.references, isCache);
  }

  /** `refer(isCache)` where reference `k` is the first whose resolution throws. */
  lemma ReferAbortsAtFirstFailure(env: Env, sys: Sys, isCache: bool, k: nat)
    requires k < |sys.boot.references| && Throws(env, ReferCall(sys.boot.references[k], isCache))
    requires forall i | 0 <= i < k :: !Throws(env, ReferCall(sys.boot.references[i], isCache))
    ensures var o := ReferAll(env, sys, isCache);
            && o.result == Err(Raised(ReferCall(sys.boot.references[k], isCache)))
            && o.sys.boot == sys.boot && o.sys.hooks == sys.hooks
            && |o.sys.trace| >= |sys.trace| && o.sys.trace[..|sys.trace|] == sys.trace
            && RefersInOrder(o.sys.trace[|sys.trace|..], sys.boot.references[..k + 1], isCache)
  {
    var rs := sys.boot.references;
    RanAbortsAt(env, sys, ReferSteps(rs, isCache), ReferAll(env, sys, isCache), k);
    assert ReferSteps(rs, isCache)[..k + 1] == ReferSteps(rs[..k + 1], isCache);
    ReferStepsShape(rs[..k + 1], isCache);
  }

  // ---------------------------------------------------------------------
  // Registration

  /** Registers `us` one after another with `serviceConfig`. */
  function AddServices(sys: Sys, us: seq<Service>): Sys
    decreases |us|
  {
    if us == [] then sys else AddServices(AddService(sys, us[0]), us[1..])
  }

  /** Registers `rs` one after another with `referenceConfig`. */
  function AddReferences(sys: Sys, rs: seq<Reference>): Sys
    decreases |rs|
  {
    if rs == [] then sys else AddReferences(AddReference(sys, rs[0]), rs[1..])
  }

  /** The setBootstrap calls registering `us` makes. */
  function BindServiceCalls(us: seq<Service>): (d: seq<Event>)
  {
    seq(|us|, i requires 0 <= i < |us| => BindService(us[i]))
  }

  lemma BindServiceCallsCons(us: seq<Service>)
    requires us != []
    ensures BindServiceCalls(us) == [BindService(us[0])] + BindServiceCalls(us[1..])
  {
  }

  /** The setBootstrap calls registering `rs` makes. */
  function BindReferenceCalls(rs: seq<Reference>): (d: seq<Event>)
  {
    seq(|rs|, i requires 0 <= i < |rs| => BindReference(rs[i]))
  }

  lemma BindReferenceCallsCons(rs: seq<Reference>)
    requires rs != []
    ensures BindReferenceCalls(rs) == [BindReference(rs[0])] + BindReferenceCalls(rs[1..])
  {
  }

  /** Registering services appends them in call order, binding each, and
      touches no other field. */
  lemma {:induction false} ServiceRegistrationOrder(sys: Sys, us: seq<Service>)
    ensures AddServices(sys, us) == Sys(sys.boot.(services := sys.boot.services + us), sys.hooks, sys.trace + BindServiceCalls(us))
    decreases |us|
  {
    if us == [] {
      assert sys.boot.services + us == sys.boot.services;
      assert sys.trace + BindServiceCalls(us) == sys.trace;
    } else {
      var next := AddService(sys, us[0]);
      assert next == Sys(sys.boot.(services := sys.boot.services + [us[0]]), sys.hooks, sys.trace + [BindService(us[0])]);
      assert AddServices(sys, us) == AddServices(next, us[1..]);
      ServiceRegistrationOrder(next, us[1..]);
      assert next.boot.services + us[1..] == sys.boot.services + us by {
        assert [us[0]] + us[1..] == us;
      }
      BindServiceCallsCons(us);
      assert next.trace + BindServiceCalls(us[1..]) == sys.trace + BindServiceCalls(us);
    }
  }

  /** Registering references appends them in call order, binding each, and
      touches no other field. */
  lemma {:induction false} ReferenceRegistrationOrder(sys: Sys, rs: seq<Reference>)
    ensures AddReferences(sys, rs) == Sys(sys.boot.(references := sys.boot.references + rs), sys.hooks, sys.trace + BindReferenceCalls(rs))
    decreases |rs|
  {
    if rs == [] {
      assert sys.boot.references + rs == sys.boot.references;
      assert sys.trace + BindReferenceCalls(rs) == sys.trace;
    } else {
      var next := AddReference(sys, rs[0]);
      assert next == Sys(sys.boot.(references := sys.boot.references + [rs[0]]), sys.hooks, sys.trace + [BindReference(rs[0])]);
      assert AddReferences(sys, rs) == AddReferences(next, rs[1..]);
      ReferenceRegistrationOrder(next, rs[1..]);
      assert next.boot.references + rs[1..] == sys.boot.references + rs by {
        assert [rs[0]] + rs[1..] == rs;
      }
      BindReferenceCallsCons(rs);
      assert next.trace + BindReferenceCalls(rs[1..]) == sys.trace + BindReferenceCalls(rs);
    }
  }

  /** Services registered on a fresh bootstrap are exported in the order they
      were registered. */
  lemma RegistrationOrderIsExportOrder(env: Env, b: Bootstrap, hooks: set<HookRef>, us: seq<Service>)
    requires Empty(b)
    requires forall i | 0 <= i < |us| :: !Throws(env, Export(us[i]))
    ensures var registered := AddServices(Sys(b, hooks, []), us);
            var o := ExportAll(env, registered);
            && o.result == Ok(())
            && |o.sys.trace| == |us| + 2 * |us|
            && ExportsInOrder(o.sys.trace[|us|..], us)
  {
    var registered := AddServices(Sys(b, hooks, []), us);
    ServiceRegistrationOrder(Sys(b, hooks, []), us);
    assert registered.boot.services == us;
    ExportCompletes(env, registered);
  }

  /** Adds `cs` one after another with `registryConfig`. */
  function AddRegistries(b: Bootstrap, cs: seq<RegistryConfig>): Bootstrap
    decreases |cs|
  {
    if cs == [] then b else AddRegistries(AddRegistry(b, cs[0]), cs[1..])
  }

  /** Adds `ps` one after another with `protocolConfig`. */
  function AddProtocols(b: Bootstrap, ps: seq<ProtocolConfig>): Bootstrap
    decreases |ps|
  {
    if ps == [] then b else AddProtocols(AddProtocol(b, ps[0]), ps[1..])
  }

  /** `registryConfig` creates the list on first use and then appends; the
      existing elements stay, in order, and nothing else changes. */
  lemma {:induction false} RegistriesAccumulate(b: Bootstrap, cs: seq<RegistryConfig>)
    ensures AddRegistries(b, cs) == if cs == [] then b else b.(registries := Some(ElementsOf(b.registries) + cs))
    decreases |cs|
  {
    if cs != [] {
      var e := ElementsOf(b.registries);
      var next := AddRegistry(b, cs[0]);
      assert next == b.(registries := Some(e + [cs[0]]));
      assert AddRegistries(b, cs) == AddRegistries(next, cs[1..]);
      RegistriesAccumulate(next, cs[1..]);
      assert e + [cs[0]] + cs[1..] == e + cs by {
        assert cs == [cs[0]] + cs[1..];
      }
      if cs[1..] == [] {
        assert e + [cs[0]] == e + cs;
      } else {
        assert ElementsOf(next.registries) + cs[1..] == e + cs;
      }
    }
  }

  /** `protocolConfig` creates the list on first use and then appends; the
      existing elements stay, in order, and nothing else changes. */
  lemma {:induction false} ProtocolsAccumulate(b: Bootstrap, ps: seq<ProtocolConfig>)
    ensures AddProtocols(b, ps) == if ps == [] then b else b.(protocols := Some(ElementsOf(b.protocols) + ps))
    decreases |ps|
  {
    if ps != [] {
      var e := ElementsOf(b.protocols);
      var next := AddProtocol(b, ps[0]);
      assert next == b.(protocols := Some(e + [ps[0]]));
      assert AddProtocols(b, ps) == AddProtocols(next, ps[1..]);
      ProtocolsAccumulate(next, ps[1..]);
      assert e + [ps[0]] + ps[1..] == e + ps by {
        assert ps == [ps[0]] + ps[1..];
      }
      if ps[1..] == [] {
        assert e + [ps[0]] == e + ps;
      } else {
        assert ElementsOf(next.protocols) + ps[1..] == e + ps;
      }
    }
  }

  /** `registryConfigs(l)` replaces the list wholesale: what was added before
      is gone, and later additions extend `l` (a null `l` starts afresh). */
  lemma RegistriesReplaced(b: Bootstrap, before: seq<RegistryConfig>, l: Option<seq<RegistryConfig>>, after: seq<RegistryConfig>)
    requires after != []
    ensures AddRegistries(WithRegistries(AddRegistries(b, before), l), after).registries
            == Some(ElementsOf(l) + after)
  {
    RegistriesAccumulate(WithRegistries(AddRegistries(b, before), l), after);
  }

  /** `protocolConfigs(l)` replaces the list wholesale. */
  lemma ProtocolsReplaced(b: Bootstrap, before: seq<ProtocolConfig>, l: Option<seq<ProtocolConfig>>, after: seq<ProtocolConfig>)
    requires after != []
    ensures AddProtocols(WithProtocols(AddProtocols(b, before), l), after).protocols
            == Some(ElementsOf(l) + after)
  {
    ProtocolsAccumulate(WithProtocols(AddProtocols(b, before), l), after);
  }

  // ---------------------------------------------------------------------
  // The shutdown hook

  /** Registering the hook and then removing it leaves the JVM's hook table as
      it was, when the JVM is not shutting down and the hook was absent. */
  lemma HookRoundTrip(env: Env, sys: Sys)
    requires !env.shuttingDown && sys.boot.hook !in sys.hooks
    ensures var registered := RegisterShutdownHook(env, sys);
            && registered.result.Ok?
            && sys.boot.hook in registered.sys.hooks
            && RemoveShutdownHook(env, registered.sys).sys.hooks == sys.hooks
  {
  }

  // ---------------------------------------------------------------------
  // start()

  /** Whether the hook call at the beginning of `start()` succeeds. */
  predicate StartHookSucceeds(env: Env, sys: Sys)
  {
    !sys.boot.hookOnStart || (!env.shuttingDown && sys.boot.hook !in sys.hooks)
  }

  /** The hook table after the hook call at the beginning of `start()`. */
  function HooksAfterStartHook(env: Env, sys: Sys): set<HookRef>
  {
    if sys.boot.hookOnStart then sys.hooks + {sys.boot.hook}
    else if env.shuttingDown then sys.hooks
    else sys.hooks - {sys.boot.hook}
  }

  /** What `start()` does: one call to the Runtime's hook table; if that
      throws, nothing else; otherwise exactly what running the exports and
      then the cached refers does. */
  lemma StartRuns(env: Env, sys: Sys)
    ensures var o := Start(env, sys);
            if StartHookSucceeds(env, sys) then
              Ran(env, Sys(sys.boot, HooksAfterStartHook(env, sys), sys.trace + [StartHookCall(sys.boot)]),
                  StartSteps(sys.boot), o)
            else
              o == Outcome(sys.(trace := sys.trace + [HookRegister(sys.boot.hook)]),
                           Err(if env.shuttingDown then ShutdownInProgress else HookPreviouslyRegistered))
  {
    var hooked := if sys.boot.hookOnStart then RegisterShutdownHook(env, sys)
                  else RemoveShutdownHook(env, sys);
    if hooked.result.Ok? {
      assert hooked.sys == Sys(sys.boot, HooksAfterStartHook(env, sys), sys.trace + [StartHookCall(sys.boot)]);
    }
  }

  /** Every call of a bulk export is a call on a service. */
  lemma ExportCallsAreServiceCalls(us: seq<Service>)
    ensures forall x | 0 <= x < |Flatten(ExportSteps(us))| :: Flatten(ExportSteps(us))[x].IsServiceCall()
  {
    var f := Flatten(ExportSteps(us));
    ExportStepsShape(us);
    forall x | 0 <= x < |f| ensures f[x].IsServiceCall() {
      var i := x / 2;
      assert 0 <= i < |us|;
      if x == 2 * i {
        assert f[2 * i] == BindService(us[i]);
      } else {
        assert x == 2 * i + 1;
        assert f[2 * i + 1] == Export(us[i]);
      }
    }
  }

  /** Every call of a bulk refer is a refer call. */
  lemma ReferCallsAreReferCalls(rs: seq<Reference>, isCache: bool)
    ensures forall x | 0 <= x < |Flatten(ReferSteps(rs, isCache))| ::
              Flatten(ReferSteps(rs, isCache))[x].IsReferCall()
  {
    var f := Flatten(ReferSteps(rs, isCache));
    ReferStepsShape(rs, isCache);
    forall x | 0 <= x < |f| ensures f[x].IsReferCall() {
      var i := x / 2;
      assert 0 <= i < |rs|;
      if x == 2 * i {
        assert f[2 * i] == BindReference(rs[i]);
      } else {
        assert x == 2 * i + 1;
        assert f[2 * i + 1] == ReferCall(rs[i], isCache);
      }
    }
  }

  /** A hook call followed by a prefix of service calls then refer calls has
      no other hook call and puts every service call before every refer call. */
  lemma OrderedPrefix(h: Event, fe: seq<Event>, fr: seq<Event>, n: nat)
    requires h.IsRuntime() && n <= |fe| + |fr|
    requires forall x | 0 <= x < |fe| :: fe[x].IsServiceCall()
    requires forall x | 0 <= x < |fr| :: fr[x].IsReferCall()
    ensures var d := [h] + (fe + fr)[..n];
            && (forall i | 0 < i < |d| :: !d[i].IsRuntime())
            && (forall i, j | 0 <= i < |d| && 0 <= j < |d| && d[i].IsServiceCall() && d[j].IsReferCall() :: i < j)
  {
    var d := [h] + (fe + fr)[..n];
    assert forall x | 0 < x < |d| :: x - 1 < |fe| ==> d[x] == fe[x - 1];
    assert forall x | 0 < x < |d| :: x - 1 >= |fe| ==> d[x] == fr[x - 1 - |fe|];
  }

  /** The calls `start()` makes: first the hook call (registration when the
      bootstrap manages the hook, removal otherwise), no other hook call, no
      export or refer at all when the registration throws, and every call on
      a service before every refer call. */
  lemma StartOrdering(env: Env, sys: Sys)
    ensures var o := Start(env, sys);
            var d := o.sys.trace[|sys.trace|..];
            && |d| > 0
            && d[0] == (if sys.boot.hookOnStart then HookRegister(sys.boot.hook) else HookRemove(sys.boot.hook))
            && (forall i | 0 < i < |d| :: !d[i].IsRuntime())
            && (!StartHookSucceeds(env, sys) ==> |d| == 1)
            && (forall i, j | 0 <= i < |d| && 0 <= j < |d| && d[i].IsServiceCall() && d[j].IsReferCall() :: i < j)
  {
    var o := Start(env, sys);
    var d := o.sys.trace[|sys.trace|..];
    if StartHookSucceeds(env, sys) {
      StartClosedForm(env, sys);
      assert d == StartCalls(env, sys.boot);
      StartCallsOrdered(env, sys.boot);
    } else {
      StartRuns(env, sys);
      assert d == [HookRegister(sys.boot.hook)];
    }
  }

  /** The calls of a `start()` whose hook call succeeded: one hook call, then
      calls on services, then refer calls. */
  lemma StartCallsOrdered(env: Env, b: Bootstrap)
    ensures var d := StartCalls(env, b);
            && (forall i | 0 < i < |d| :: !d[i].IsRuntime())
            && (forall i, j | 0 <= i < |d| && 0 <= j < |d| && d[i].IsServiceCall() && d[j].IsReferCall() :: i < j)
  {
    var steps := StartSteps(b);
    var begun := Flatten(steps[..Reached(env, steps)]);
    var fe := Flatten(ExportSteps(b.services));
    var fr := Flatten(ReferSteps(b.references, true));
    BegunIsPrefix(steps, Reached(env, steps));
    FlattenAppend(ExportSteps(b.services), ReferSteps(b.references, true));
    assert begun == (fe + fr)[..|begun|];
    ExportCallsAreServiceCalls(b.services);
    ReferCallsAreReferCalls(b.references, true);
    OrderedPrefix(StartHookCall(b), fe, fr, |begun|);
  }

  /** Calling `start()` again on a bootstrap that manages the hook throws at
      the hook registration, before exporting or referring anything again,
      whatever the first `start()` did after its own registration. Outside a
      JVM shutdown the hook is registered by then, so the exception is the
      `IllegalArgumentException` for a hook registered twice. */
  lemma RestartWithHookRejected(env: Env, sys: Sys)
    requires sys.boot.hookOnStart
    ensures var first := Start(env, sys).sys;
            var second := Start(env, first);
            && second.result == (if env.shuttingDown then Err(ShutdownInProgress) else Err(HookPreviouslyRegistered))
            && second.sys.trace == first.trace + [HookRegister(sys.boot.hook)]
            && second.sys.hooks == first.hooks
  {
    StartRuns(env, sys);
    var first := Start(env, sys).sys;
    StartRuns(env, first);
    if !env.shuttingDown {
      assert sys.boot.hook in first.hooks;
    }
  }

  /** The calls `start()` makes when its hook call succeeds: the hook call,
      then the steps begun before the first throw. They depend on the
      bootstrap and the environment only. */
  function StartCalls(env: Env, b: Bootstrap): seq<Event>
  {
    [StartHookCall(b)] + Flatten(StartSteps(b)[..Reached(env, StartSteps(b))])
  }

  /** The result of `start()` when its hook call succeeds. */
  function StartResult(env: Env, b: Bootstrap): Result<()>
  {
    match FailureOf(env, StartSteps(b)) case None => Ok(()) case Some(f) => Err(f)
  }

  /** `start()` after a successful hook call, in closed form. */
  lemma StartClosedForm(env: Env, sys: Sys)
    requires StartHookSucceeds(env, sys)
    ensures Start(env, sys) == Outcome(Sys(sys.boot, HooksAfterStartHook(env, sys), sys.trace + StartCalls(env, sys.boot)),
                                       StartResult(env, sys.boot))
  {
    var o := Start(env, sys);
    StartRuns(env, sys);
    var begun := Flatten(StartSteps(sys.boot)[..Reached(env, StartSteps(sys.boot))]);
    assert o.sys == Sys(sys.boot, HooksAfterStartHook(env, sys), sys.trace + [StartHookCall(sys.boot)] + begun);
    assert o.result == StartResult(env, sys.boot);
    assert sys.trace + [StartHookCall(sys.boot)] + begun == sys.trace + StartCalls(env, sys.boot);
  }

  /** Calling `start()` again on a bootstrap that does not manage the hook
      repeats exactly the calls of the first start: the hook removal, then
      the same exports and refers up to the same first throwing call. */
  lemma RestartWithoutHookRepeats(env: Env, sys: Sys)
    requires !sys.boot.hookOnStart
    ensures var first := Start(env, sys);
            var second := Start(env, first.sys);
            && second.result == first.result
            && second.sys.hooks == first.sys.hooks
            && second.sys.trace == first.sys.trace + first.sys.trace[|sys.trace|..]
  {
    StartClosedForm(env, sys);
    var first := Start(env, sys).sys;
    StartClosedForm(env, first);
    assert HooksAfterStartHook(env, first) == first.hooks;
    assert first.trace[|sys.trace|..] == StartCalls(env, sys.boot);
  }

  // ---------------------------------------------------------------------
  // stop()

  /** The steps `stop()` runs before it removes the hook. */
  function StopSteps(b: Bootstrap): seq<Step>
  {
    UnexportSteps(b.services) + [Step([], CacheDestroyAll), Step([], HookDestroyAll(b.hook))]
  }

  /** A single collaborator call, as a one-step run. */
  lemma RanSingle(env: Env, sys: Sys, e: Event)
    requires !e.IsBind()
    ensures Ran(env, sys, [Step([], e)], Perform(sys, Run(env, [e])))
  {
    RunSteps(env, [Step([], e)]);
    assert Flatten([Step([], e)]) == [e];
  }

  /** What `stop()` does: unexport every service, drain the cache, run the
      hook's teardown, stopping at the first of these calls that throws; when
      none throws and the bootstrap manages the hook, remove the hook, which
      never throws. */
  lemma StopRuns(env: Env, sys: Sys)
    ensures var o := Stop(env, sys);
            var steps := StopSteps(sys.boot);
            var ran := sys.(trace := sys.trace + Flatten(steps[..Reached(env, steps)]));
            if FailureOf(env, steps).None? && sys.boot.hookOnStart then
              && o.result == Ok(())
              && o.sys.trace == ran.trace + [HookRemove(sys.boot.hook)]
              && o.sys.hooks == (if env.shuttingDown then sys.hooks else sys.hooks - {sys.boot.hook})
            else Ran(env, sys, steps, o)
  {
    var b := sys.boot;
    var unexported := UnexportAll(env, sys);
    var unreferred := UnreferAll(env, unexported.sys);
    var destroyed := Perform(unreferred.sys, Run(env, [HookDestroyAll(b.hook)]));
    RanSingle(env, unexported.sys, CacheDestroyAll);
    RanSingle(env, unreferred.sys, HookDestroyAll(b.hook));
    var tailSteps := [Step([], CacheDestroyAll), Step([], HookDestroyAll(b.hook))];
    assert tailSteps == [Step([], CacheDestroyAll)] + [Step([], HookDestroyAll(b.hook))];
    var after := if unreferred.result.Err? then unreferred else destroyed;
    if unexported.result.Ok? {
      RanThen(env, unexported.sys, [Step([], CacheDestroyAll)], [Step([], HookDestroyAll(b.hook))], unreferred, after);
    }
    var upToTeardown := if unexported.result.Err? then unexported else after;
    RanThen(env, sys, UnexportSteps(b.services), tailSteps, unexported, upToTeardown);
  }

  /** The calls of `unexport()` for `us`. */
  function UnexportCalls(us: seq<Service>): seq<Event>
  {
    seq(|us|, i requires 0 <= i < |us| => Unexport(us[i]))
  }

  /** `stop()` when nothing throws: every service unexported in order, then
      the cache drained, then the hook's teardown, then the hook removed if
      and only if the bootstrap manages it. */
  lemma StopOrdering(env: Env, sys: Sys)
    requires forall i | 0 <= i < |sys.boot.services| :: !Throws(env, Unexport(sys.boot.services[i]))
    requires !Throws(env, CacheDestroyAll) && !Throws(env, HookDestroyAll(sys.boot.hook))
    ensures var o := Stop(env, sys);
            && o.result == Ok(())
            && o.sys.trace == sys.trace + UnexportCalls(sys.boot.services)
                              + [CacheDestroyAll, HookDestroyAll(sys.boot.hook)]
                              + (if sys.boot.hookOnStart then [HookRemove(sys.boot.hook)] else [])
            && (sys.boot.hookOnStart && !env.shuttingDown ==> sys.boot.hook !in o.sys.hooks)
            && (!sys.boot.hookOnStart ==> o.sys.hooks == sys.hooks)
  {
    StopStepsSucceed(env, sys.boot);
    StopStepsCalls(sys.boot);
    StopRuns(env, sys);
  }

  /** The calls of `stop()`'s steps, all of them begun. */
  lemma StopStepsCalls(b: Bootstrap)
    ensures Flatten(StopSteps(b)) == UnexportCalls(b.services) + [CacheDestroyAll, HookDestroyAll(b.hook)]
  {
    var tailSteps := [Step([], CacheDestroyAll), Step([], HookDestroyAll(b.hook))];
    FlattenAppend(UnexportSteps(b.services), tailSteps);
    UnexportStepsShape(b.services);
    assert Flatten(UnexportSteps(b.services)) == UnexportCalls(b.services);
    FlattenCons(tailSteps[0], tailSteps[1..]);
    FlattenCons(tailSteps[1], []);
  }

  /** When none of `stop()`'s calls throws, its steps run to the end. */
  lemma StopStepsSucceed(env: Env, b: Bootstrap)
    requires forall i | 0 <= i < |b.services| :: !Throws(env, Unexport(b.services[i]))
    requires !Throws(env, CacheDestroyAll) && !Throws(env, HookDestroyAll(b.hook))
    ensures FailureOf(env, StopSteps(b)).None?
    ensures StopSteps(b)[..Reached(env, StopSteps(b))] == StopSteps(b)
  {
    var steps := StopSteps(b);
    forall i | 0 <= i < |steps| ensures !Throws(env, steps[i].call) {
      if i < |b.services| {
        assert steps[i].call == Unexport(b.services[i]);
      }
    }
    FailureOfNone(env, steps);
    ReachedAll(env, steps);
  }

  /** `start()` followed by a successful `stop()` on a bootstrap that manages
      the hook leaves the JVM's hook table as it was, also when `start()`
      registered the hook and then threw in an export or a refer. */
  lemma StartStopRestoresHooks(env: Env, sys: Sys)
    requires sys.boot.hookOnStart && !env.shuttingDown && sys.boot.hook !in sys.hooks
    requires Stop(env, Start(env, sys).sys).result.Ok?
    ensures Stop(env, Start(env, sys).sys).sys.hooks == sys.hooks
  {
    var started := Start(env, sys).sys;
    StartRuns(env, sys);
    assert started.hooks == sys.hooks + {sys.boot.hook};
    StopRuns(env, started);
  }
}
