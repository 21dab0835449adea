# DubboBootstrap lifecycle model

This project is a Dafny model of `DubboBootstrap`, the class that starts and stops Apache Dubbo from code. A bootstrap holds two ordered lists of units:

- service builders, which it exports and unexports;
- reference builders, which it refers.

It also holds a set of optional global configuration slots, a flag saying whether it manages the JVM shutdown hook itself, and the shutdown hook it owns. `start()` does three things, stopping at the first that throws:

1. it registers the hook, or removes it when the bootstrap does not manage the hook;
2. it exports every service;
3. it refers every reference through the reference cache.

`stop()` unexports every service, drains the cache, runs the hook's teardown, and removes the hook when the bootstrap manages it.

The bootstrap does almost no work itself. Every real action is a call into a collaborator whose code is not part of this model:

- `ServiceConfigBuilder`
- `ReferenceConfigBuilder`
- `ReferenceConfigCache`
- `DubboShutdownHook`
- `java.lang.Runtime`
- `Environment`

Each such call is an `Event` appended to a trace. The bootstrap's promises are then statements about that trace. They cover:

- which calls are made;
- in what order;
- which branch is taken;
- where a run stops when a call throws.

Layout:

- `calls.dfy` (module `Calls`): units, configuration objects, collaborator calls (`Event`), failures. `Env` says which collaborator calls throw and whether the JVM is shutting down.
- `execution.dfy` (module `Execution`): running a sequence of calls with no `catch`, which is what a `forEach` loop with a non-catching lambda and a straight-line method body both do. `Run` stops at the first call that throws, keeps every call already made (no rollback), and propagates the exception. `Reached` and `FailureOf` describe the same run independently, in terms of the first throwing step.
- `dubbo_bootstrap.dfy` (module `DubboBootstrap`): the bootstrap's fields as an immutable record, plus every public operation as a pure function from the state before the call (`Sys`: fields, the JVM's registered hooks, the trace) to an `Outcome` (state after, result or exception).
- `properties.dfy` (module `BootstrapProperties`): lemmas relating the operations, covering:
  - registration order;
  - abort-at-first-failure;
  - the ordering of `start()` and `stop()`;
  - what a second `start()` does;
  - hook round trips.

Calls to `Runtime` follow the JDK's documented behaviour:

- `addShutdownHook` throws `IllegalStateException` once the JVM is shutting down.
- `addShutdownHook` throws `IllegalArgumentException` when the hook is already registered.
- `removeShutdownHook` throws `IllegalStateException` once the JVM is shutting down, and the bootstrap catches it.

One consequence is proved below (`RestartWithHookRejected`). A bootstrap that manages the hook cannot usefully be started twice without an intervening `stop()`, which removes the hook. The second `start()` throws at the hook registration, before exporting or referring anything, whether or not the first `start()` failed after its registration. Outside a JVM shutdown the exception is the `IllegalArgumentException` for a hook registered twice. With the flag clear, a second `start()` repeats the first one's calls (`RestartWithoutHookRepeats`): the hook removal, then the same exports and refers, up to the same first throwing call. It repeats them exactly because the model fixes, through `Env`, which calls throw.

Two simplifications apply throughout:

- Whether a collaborator call throws depends only on the call itself, i.e. on the unit and the kind of call. `setBootstrap` never throws.
- Every operation is atomic.

## Model

| member | source | states |
|---|---|---|
| DubboBootstrap.BootstrapOf | dubbo-bootstrap/src/main/java/org/apache/dubbo/bootstrap/DubboBootstrap.java:83-88 | a new bootstrap has empty service and reference lists and no configuration, and stores the given flag and hook |
| DubboBootstrap.BootstrapWithFlag | dubbo-bootstrap/src/main/java/org/apache/dubbo/bootstrap/DubboBootstrap.java:79-81 | empty, the given flag, the process-wide `DubboShutdownHook` |
| DubboBootstrap.DefaultBootstrap | dubbo-bootstrap/src/main/java/org/apache/dubbo/bootstrap/DubboBootstrap.java:75-77 | the no-argument constructor yields an empty bootstrap that registers the process-wide hook on start |
| DubboBootstrap.Instance | dubbo-bootstrap/src/main/java/org/apache/dubbo/bootstrap/DubboBootstrap.java:37 | the singleton `INSTANCE` is created empty with the flag set |
| DubboBootstrap.NewBootStrap | dubbo-bootstrap/src/main/java/org/apache/dubbo/bootstrap/DubboBootstrap.java:67-69 | `newBootStrap()` yields an empty bootstrap with the flag clear, unlike the no-argument constructor and `INSTANCE` |
| DubboBootstrap.NewBootStrapWith | dubbo-bootstrap/src/main/java/org/apache/dubbo/bootstrap/DubboBootstrap.java:71-73 | `newBootStrap(flag)` yields an empty bootstrap with that flag |
| DubboBootstrap.WithApplication | dubbo-bootstrap/src/main/java/org/apache/dubbo/bootstrap/DubboBootstrap.java:90-93 | the application slot holds the argument (null included) and no other field changes |
| DubboBootstrap.WithConsumer | dubbo-bootstrap/src/main/java/org/apache/dubbo/bootstrap/DubboBootstrap.java:95-98 | the consumer slot holds the argument and no other field changes |
| DubboBootstrap.WithProvider | dubbo-bootstrap/src/main/java/org/apache/dubbo/bootstrap/DubboBootstrap.java:100-103 | the provider slot holds the argument and no other field changes |
| DubboBootstrap.WithRegistries | dubbo-bootstrap/src/main/java/org/apache/dubbo/bootstrap/DubboBootstrap.java:105-108 | the registry list is replaced by the argument (null included) and no other field changes |
| DubboBootstrap.AddRegistry | dubbo-bootstrap/src/main/java/org/apache/dubbo/bootstrap/DubboBootstrap.java:110-116 | afterwards the registry list is present and one element longer than before (an absent list counts as empty), with the earlier elements kept in order and `c` last; no other field changes |
| DubboBootstrap.WithProtocols | dubbo-bootstrap/src/main/java/org/apache/dubbo/bootstrap/DubboBootstrap.java:118-121 | the protocol list is replaced by the argument and no other field changes |
| DubboBootstrap.AddProtocol | dubbo-bootstrap/src/main/java/org/apache/dubbo/bootstrap/DubboBootstrap.java:123-129 | the protocol list is created when absent and `c` is appended, keeping the earlier elements; no other field changes |
| DubboBootstrap.WithModule | dubbo-bootstrap/src/main/java/org/apache/dubbo/bootstrap/DubboBootstrap.java:131-134 | the module slot holds the argument and no other field changes |
| DubboBootstrap.WithMonitor | dubbo-bootstrap/src/main/java/org/apache/dubbo/bootstrap/DubboBootstrap.java:136-139 | the monitor slot holds the argument and no other field changes |
| DubboBootstrap.WithHookOnStart | dubbo-bootstrap/src/main/java/org/apache/dubbo/bootstrap/DubboBootstrap.java:300-302 | the flag holds the argument and no other field changes |
| DubboBootstrap.AddService | dubbo-bootstrap/src/main/java/org/apache/dubbo/bootstrap/DubboBootstrap.java:157-161 | `serviceConfig(u)` binds `u` to the bootstrap and appends it to the service list; the reference list, the configuration and the hooks are unchanged |
| DubboBootstrap.AddReference | dubbo-bootstrap/src/main/java/org/apache/dubbo/bootstrap/DubboBootstrap.java:163-167 | `referenceConfig(r)` binds `r` and appends it to the reference list; nothing else changes |
| DubboBootstrap.RegisterShutdownHook | dubbo-bootstrap/src/main/java/org/apache/dubbo/bootstrap/DubboBootstrap.java:193-196 | one `addShutdownHook` call. It succeeds, adding the hook, exactly when the JVM is not shutting down and the hook is not yet registered. Otherwise the exception (shutdown in progress, or already registered) propagates and the hook table is unchanged |
| DubboBootstrap.RemoveShutdownHook | dubbo-bootstrap/src/main/java/org/apache/dubbo/bootstrap/DubboBootstrap.java:201-208 | one `removeShutdownHook` call that never fails. Afterwards the hook is gone unless the JVM is shutting down, in which case the exception is swallowed and the table is untouched. No other hook is affected |
| DubboBootstrap.ReferCall | dubbo-bootstrap/src/main/java/org/apache/dubbo/bootstrap/DubboBootstrap.java:232-235 | the resolving call is the cache's `get` exactly when `isCache` holds, and the unit's own `refer()` otherwise |
| DubboBootstrap.ExportAll | dubbo-bootstrap/src/main/java/org/apache/dubbo/bootstrap/DubboBootstrap.java:210-215 | `export()` makes the bind-then-export calls of the services up to and including the first whose export throws, and ends with that exception; the bootstrap and hooks are untouched |
| DubboBootstrap.ExportService | dubbo-bootstrap/src/main/java/org/apache/dubbo/bootstrap/DubboBootstrap.java:217-220 | `export(u)` binds then exports `u`, registered or not, and fails exactly when the export throws |
| DubboBootstrap.ReferAllCached | dubbo-bootstrap/src/main/java/org/apache/dubbo/bootstrap/DubboBootstrap.java:222-224 | `refer()` is the bulk refer through the cache |
| DubboBootstrap.ReferCached | dubbo-bootstrap/src/main/java/org/apache/dubbo/bootstrap/DubboBootstrap.java:226-228 | `refer(r)` binds `r`, calls the cache's `get`, returns its result, and fails exactly when `get` throws, propagating that exception unchanged; the bootstrap and the hook table are unchanged |
| DubboBootstrap.ReferReference | dubbo-bootstrap/src/main/java/org/apache/dubbo/bootstrap/DubboBootstrap.java:230-236 | `refer(r, isCache)` binds `r`, then returns the cache's result when `isCache` holds and `r.refer()`'s otherwise. It fails exactly when that call throws, with that call's exception |
| DubboBootstrap.ReferAll | dubbo-bootstrap/src/main/java/org/apache/dubbo/bootstrap/DubboBootstrap.java:238-247 | `refer(isCache)` makes the bind-then-resolve calls of the references up to and including the first that throws, with the same `isCache` choice for each |
| DubboBootstrap.SetExternalConfiguration | dubbo-bootstrap/src/main/java/org/apache/dubbo/bootstrap/DubboBootstrap.java:249-254 | a null map leaves everything unchanged and succeeds; otherwise exactly one `Environment` call is made, and it fails exactly when that call throws, with that call's exception |
| DubboBootstrap.UnexportAll | dubbo-bootstrap/src/main/java/org/apache/dubbo/bootstrap/DubboBootstrap.java:256-258 | `unexport()` unexports the services up to and including the first that throws, with no binding |
| DubboBootstrap.UnexportService | dubbo-bootstrap/src/main/java/org/apache/dubbo/bootstrap/DubboBootstrap.java:260-262 | `unexport(u)` makes the one call `u.unexport()` and nothing else |
| DubboBootstrap.UnreferAll | dubbo-bootstrap/src/main/java/org/apache/dubbo/bootstrap/DubboBootstrap.java:264-266 | `unrefer()` makes the one call `cache.destroyAll()` and does not consult the reference list; it throws exactly `destroyAll`'s exception when that call throws |
| DubboBootstrap.UnreferReference | dubbo-bootstrap/src/main/java/org/apache/dubbo/bootstrap/DubboBootstrap.java:268-270 | `unrefer(r)` makes the one call `cache.destroy(r)` and nothing else |
| DubboBootstrap.Start | dubbo-bootstrap/src/main/java/org/apache/dubbo/bootstrap/DubboBootstrap.java:169-179 | `start()` keeps the bootstrap's fields. It always makes at least one call, and its first call is the hook registration when the flag is set and the hook removal otherwise |
| DubboBootstrap.ExportThenRefer | dubbo-bootstrap/src/main/java/org/apache/dubbo/bootstrap/DubboBootstrap.java:177-178 | `export()` then `refer()` behaves as one run of the export steps followed by the cached refer steps. The refers are skipped when an export throws |
| DubboBootstrap.RanThen | dubbo-bootstrap/src/main/java/org/apache/dubbo/bootstrap/DubboBootstrap.java:177-178 | two statements in sequence without a `catch`, the second reached only when the first completes, behave as one run of their concatenated steps |
| DubboBootstrap.Stop | dubbo-bootstrap/src/main/java/org/apache/dubbo/bootstrap/DubboBootstrap.java:181-188 | `stop()` keeps the bootstrap's fields, only appends to the trace, and always makes at least one call: the first unexport, even when it throws, or `cache.destroyAll()` when no service is registered |
| Execution.RunSpec | dubbo-bootstrap/src/main/java/org/apache/dubbo/bootstrap/DubboBootstrap.java:210-215 | a loop with no `catch` makes the calls up to and including the first that throws and ends with its exception; when none throws it makes them all |
| Execution.RunAppend | dubbo-bootstrap/src/main/java/org/apache/dubbo/bootstrap/DubboBootstrap.java:169-179 | running two call sequences back to back equals running their concatenation: if the first throws, the second never starts |
| Execution.RunSteps | dubbo-bootstrap/src/main/java/org/apache/dubbo/bootstrap/DubboBootstrap.java:210-215 | a loop of units, each a non-throwing bind then one call, makes the calls of exactly the units begun and ends with the exception of the first unit whose call throws |
| Execution.FirstThrowSpec | dubbo-bootstrap/src/main/java/org/apache/dubbo/bootstrap/DubboBootstrap.java:210-215 | the index where a loop stops is that of the first throwing call: no call before it throws |
| Execution.FailureOfNone | dubbo-bootstrap/src/main/java/org/apache/dubbo/bootstrap/DubboBootstrap.java:210-215 | a loop ends without exception if and only if no unit's call throws |
| BootstrapProperties.ExportCompletes | dubbo-bootstrap/src/main/java/org/apache/dubbo/bootstrap/DubboBootstrap.java:210-215 | when no export throws, `export()` binds then exports every registered service in list order and succeeds |
| BootstrapProperties.ExportAbortsAtFirstFailure | dubbo-bootstrap/src/main/java/org/apache/dubbo/bootstrap/DubboBootstrap.java:210-215 | when service `k`'s export is the first to throw, services 0..k are bound and exported in order, later ones are untouched, nothing is undone, and `k`'s exception propagates |
| BootstrapProperties.UnexportCompletes | dubbo-bootstrap/src/main/java/org/apache/dubbo/bootstrap/DubboBootstrap.java:256-258 | when no unexport throws, `unexport()` unexports every service in list order |
| BootstrapProperties.UnexportAbortsAtFirstFailure | dubbo-bootstrap/src/main/java/org/apache/dubbo/bootstrap/DubboBootstrap.java:256-258 | when service `k`'s unexport is the first to throw, exactly services 0..k are unexported, in order, and the exception propagates |
| BootstrapProperties.ReferCompletes | dubbo-bootstrap/src/main/java/org/apache/dubbo/bootstrap/DubboBootstrap.java:238-247 | when no resolution throws, `refer(isCache)` binds and resolves every reference in list order, through the cache exactly when `isCache` holds |
| BootstrapProperties.ReferAbortsAtFirstFailure | dubbo-bootstrap/src/main/java/org/apache/dubbo/bootstrap/DubboBootstrap.java:238-247 | when reference `k` is the first whose resolution throws, exactly references 0..k are bound and resolved, and the exception propagates |
| BootstrapProperties.ServiceRegistrationOrder | dubbo-bootstrap/src/main/java/org/apache/dubbo/bootstrap/DubboBootstrap.java:157-161 | registering a sequence of services appends exactly that sequence to the service list and binds each in order; no other field, hook or call is touched |
| BootstrapProperties.ReferenceRegistrationOrder | dubbo-bootstrap/src/main/java/org/apache/dubbo/bootstrap/DubboBootstrap.java:163-167 | the same for references |
| BootstrapProperties.RegistrationOrderIsExportOrder | dubbo-bootstrap/src/main/java/org/apache/dubbo/bootstrap/DubboBootstrap.java:210-215 | services registered on a fresh bootstrap are exported in the order they were registered |
| BootstrapProperties.RegistriesAccumulate | dubbo-bootstrap/src/main/java/org/apache/dubbo/bootstrap/DubboBootstrap.java:110-116 | repeated `registryConfig` calls leave the earlier list (absent counts as empty) followed by the added configurations in call order; nothing else changes |
| BootstrapProperties.ProtocolsAccumulate | dubbo-bootstrap/src/main/java/org/apache/dubbo/bootstrap/DubboBootstrap.java:123-129 | the same for `protocolConfig` |
| BootstrapProperties.RegistriesReplaced | dubbo-bootstrap/src/main/java/org/apache/dubbo/bootstrap/DubboBootstrap.java:105-116 | `registryConfigs(l)` discards everything added before. Later additions extend `l`, and a null `l` starts a new list. This assumes `l` can grow; see "Aliasing" under Left out for a fixed-size `l` |
| BootstrapProperties.ProtocolsReplaced | dubbo-bootstrap/src/main/java/org/apache/dubbo/bootstrap/DubboBootstrap.java:118-129 | `protocolConfigs(l)` discards everything added before |
| BootstrapProperties.HookRoundTrip | dubbo-bootstrap/src/main/java/org/apache/dubbo/bootstrap/DubboBootstrap.java:193-208 | registering then removing the hook restores the JVM's hook table when the JVM is not shutting down and the hook was absent |
| BootstrapProperties.StartRuns | dubbo-bootstrap/src/main/java/org/apache/dubbo/bootstrap/DubboBootstrap.java:169-179 | `start()` makes one hook call. When that call throws (flag set, and the JVM shutting down or the hook already registered), nothing else happens and its exception propagates. Otherwise the rest is exactly one run of the exports and then the cached refers |
| BootstrapProperties.StartClosedForm | dubbo-bootstrap/src/main/java/org/apache/dubbo/bootstrap/DubboBootstrap.java:169-179 | after a successful hook call, the calls made and the result of `start()` depend only on the bootstrap and on which calls throw |
| BootstrapProperties.StartOrdering | dubbo-bootstrap/src/main/java/org/apache/dubbo/bootstrap/DubboBootstrap.java:169-179 | the first call of `start()` is `HookRegister` when the flag is set and `HookRemove` otherwise, and no other hook call is made. A failed registration is the only call. Every call on a service precedes every refer call |
| BootstrapProperties.StartCallsOrdered | dubbo-bootstrap/src/main/java/org/apache/dubbo/bootstrap/DubboBootstrap.java:177-178 | after the hook call, `start()` makes no Runtime call, and its service calls all come before its refer calls |
| BootstrapProperties.RestartWithHookRejected | dubbo-bootstrap/src/main/java/org/apache/dubbo/bootstrap/DubboBootstrap.java:169-171 | a second `start()` on a bootstrap that manages the hook, after any outcome of the first one, makes only the registration call, which throws `IllegalStateException` during a JVM shutdown and `IllegalArgumentException` (hook already registered) otherwise; the hooks are unchanged |
| BootstrapProperties.RestartWithoutHookRepeats | dubbo-bootstrap/src/main/java/org/apache/dubbo/bootstrap/DubboBootstrap.java:172-178 | a second `start()` on a bootstrap that does not manage the hook repeats the first one's calls: the hook removal, then the same exports and refers up to the same first throwing call, with the same result. Whether a call throws is fixed by `Env`, so the repetition is exact |
| BootstrapProperties.StopRuns | dubbo-bootstrap/src/main/java/org/apache/dubbo/bootstrap/DubboBootstrap.java:181-188 | `stop()` is one run of the unexports, `destroyAll` on the cache and `destroyAll` on the hook, stopping at the first call that throws. The hook is removed, which cannot fail, only when none threw and the flag is set |
| BootstrapProperties.StopOrdering | dubbo-bootstrap/src/main/java/org/apache/dubbo/bootstrap/DubboBootstrap.java:181-188 | when nothing throws, `stop()` unexports every service in order, then drains the cache, then tears down the hook, then calls `HookRemove` if and only if the flag is set |
| BootstrapProperties.StartStopRestoresHooks | dubbo-bootstrap/src/main/java/org/apache/dubbo/bootstrap/DubboBootstrap.java:169-188 | any `start()` followed by a successful `stop()` on a bootstrap that manages the hook leaves the JVM's hook table as it was, provided the JVM is not shutting down and the hook was not registered before. This includes a `start()` that registered the hook and then threw in `export()` or `refer()` |

## Left out

- `referenceCache(cache)`, `cache(cache)` and `getCache()` (lines 141-149, 304-306): the reference cache is a collaborator. The model records the calls made on it, not which cache object the bootstrap holds.
- The getters (lines 272-298): they read a field, which the model exposes directly.
- Null units: `serviceConfig(null)`, `export(null)` and similar calls throw `NullPointerException` in the source. The model's units are never null.
- Null configuration elements: `registryConfig(null)` and `protocolConfig(null)` append a null element (lines 114 and 127), and a list passed to `registryConfigs` or `protocolConfigs` may hold nulls. The model's `RegistryConfig` and `ProtocolConfig` elements are never null; a null slot or a null list is modelled, a null element is not.
- Null hook: the constructor at lines 83-88 accepts a null `DubboShutdownHook`. It fails later with `NullPointerException`: at the hook registration (line 194), at `shutdownHook.destroyAll()` (line 184), or, with the flag clear, at the removal `start()` makes (lines 175 and 203), because line 204 catches only `IllegalStateException`. The model's `HookRef` has no null.
- Hooks registered by collaborators: the comment at lines 173-174 says that `AbstractConfig` registers the same `DubboShutdownHook`. Whether an `export()`, `refer()` or any other collaborator call does so is not visible here. The model assumes that only `registerShutdownHook()` and `removeShutdownHook()` change the JVM's hook table. The hook-table conclusions of `StartRuns`, `StopRuns`, `RestartWithoutHookRepeats` and `StartStopRestoresHooks` rest on this assumption.
- Aliasing: `registryConfigs(list)` and `protocolConfigs(list)` store the caller's list object, so a later `registryConfig(c)` also changes the caller's list. When that list cannot grow (for example one made by `Arrays.asList` or `List.of`), the later `registryConfig(c)` or `protocolConfig(c)` throws `UnsupportedOperationException` at the `add` (lines 114 and 127). The model stores values, so it always appends and does not have this exception path.
- Concurrency: `synchronized` serialises the bulk operations and `volatile` makes the flag visible across threads; neither is modelled, nor are races with the JVM's shutdown thread. Each operation is atomic.
- Collaborator internals (how the cache keys its entries, what `destroyAll` tears down, whether `export()` is idempotent): their code is not part of this model. Each call is an event, and whether it throws is a parameter.
- `Environment.getInstance()`: it is represented only by the `ExternalConfiguration` event.
- `AbstractConfigTest` and `AbstractInterfaceConfigTest`: they test classes that are not part of this model.
- DubboBootstrap.Start: its own contract states only the first call and that the fields are kept. The full behaviour is in `BootstrapProperties.StartRuns`, `StartClosedForm` and `StartOrdering`.
- DubboBootstrap.Stop: its own contract states only that the fields are kept and that the trace is extended by at least one call. The full behaviour is in `BootstrapProperties.StopRuns` and `StopOrdering`.
