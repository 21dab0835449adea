/** The vocabulary of the Dubbo bootstrap model: the units and configuration
    objects a bootstrap holds, the calls it makes into collaborators whose code
    is not part of this model, and the failures those calls can raise.

    Collaborators (ServiceConfigBuilder, ReferenceConfigBuilder,
    ReferenceConfigCache, DubboShutdownHook, java.lang.Runtime, Environment)
    are not modelled by their internals: every call the bootstrap makes into
    one of them is recorded as an `Event` in a trace. */
module Calls {

  /** A value that may be absent: Java's nullable field or argument. */
  datatype Option<+T> = None | Some(value: T)

  /** A ServiceConfigBuilder, known only by its identity. */
  datatype Service = Service(id: nat)

  /** A ReferenceConfigBuilder, known only by its identity. */
  datatype Reference = Reference(id: nat)

  /** The DubboShutdownHook a bootstrap owns: the process-wide one returned by
      `DubboShutdownHook.getDubboShutdownHook()`, or one injected by the caller. */
  datatype HookRef = DubboHook | InjectedHook(id: nat)

  // Global configuration objects; the bootstrap only stores them.
  datatype ApplicationConfig = ApplicationConfig(id: nat)
  datatype RegistryConfig = RegistryConfig(id: nat)
  datatype ConsumerConfig = ConsumerConfig(id: nat)
  datatype ProviderConfig = ProviderConfig(id: nat)
  datatype ProtocolConfig = ProtocolConfig(id: nat)
  datatype MonitorConfig = MonitorConfig(id: nat)
  datatype ModuleConfig = ModuleConfig(id: nat)

  /** One call from the bootstrap into a collaborator. */
  datatype Event =
    | BindService(service: Service)             // ServiceConfigBuilder.setBootstrap(this)
    | BindReference(reference: Reference)       // ReferenceConfigBuilder.setBootstrap(this)
    | Export(service: Service)                  // ServiceConfigBuilder.export()
    | Unexport(service: Service)                // ServiceConfigBuilder.unexport()
    | CacheGet(reference: Reference)            // ReferenceConfigCache.get(reference)
    | DirectRefer(reference: Reference)         // ReferenceConfigBuilder.refer()
    | CacheDestroy(reference: Reference)        // ReferenceConfigCache.destroy(reference)
    | CacheDestroyAll                           // ReferenceConfigCache.destroyAll()
    | HookDestroyAll(hook: HookRef)             // DubboShutdownHook.destroyAll()
    | HookRegister(hook: HookRef)               // Runtime.addShutdownHook(hook)
    | HookRemove(hook: HookRef)                 // Runtime.removeShutdownHook(hook)
    | ExternalConfiguration(properties: map<string, string>)  // Environment.setExternalConfiguration
  {
    /** setBootstrap is a plain setter on the unit. */
    predicate IsBind() { BindService? || BindReference? }

    /** Calls into the JVM's table of shutdown hooks. */
    predicate IsRuntime() { HookRegister? || HookRemove? }

    /** Calls that act on an exportable unit. */
    predicate IsServiceCall() { BindService? || Export? || Unexport? }

    /** Calls that acquire a client-side reference. */
    predicate IsReferCall() { BindReference? || CacheGet? || DirectRefer? }
  }

  /** What the world outside the bootstrap decides: which collaborator calls
      throw, and whether the JVM has already begun shutting down. */
  datatype Env = Env(throwing: set<Event>, shuttingDown: bool)

  /** Whether a call throws. setBootstrap never throws, and the Runtime calls
      follow their own rules (see `DubboBootstrap.RegisterShutdownHook`). */
  predicate Throws(env: Env, e: Event) {
    e in env.throwing && !e.IsBind() && !e.IsRuntime()
  }

  /** The exceptions that can leave a bootstrap operation. */
  datatype Failure =
    | Raised(call: Event)         // propagated unchanged from a collaborator call
    | ShutdownInProgress          // IllegalStateException from Runtime.addShutdownHook
    | HookPreviouslyRegistered    // IllegalArgumentException from Runtime.addShutdownHook

  /** The object a collaborator call returned, known only by the call that produced it. */
  datatype Handle = ReturnOf(call: Event)

  /** Normal completion with a value, or an exception. */
  datatype Result<+T> = Ok(value: T) | Err(failure: Failure)
}
