/**
 * The entities the core-extension manager works with: extensions, the optional
 * interfaces they may implement, the host-service handles, and the calls and
 * listener registrations the manager makes (recorded as trace events).
 */
module Extensions {
  import opened Outcomes

  /** The optional interfaces an extension may implement, each tested with `instanceof`. */
  datatype Capability =
    | DeploymentServiceAware
    | RepositoryServiceAware
    | ToolingServiceAware
    | ArtifactDeploymentListener
    | DeploymentListener
    | CoreExtensionsAware
    | ArtifactClassLoaderManagerAware

  /** The methods the manager invokes on an extension. */
  datatype Call =
    | SetDeploymentService
    | SetRepositoryService
    | SetToolingService
    | SetCoreExtensions
    | SetArtifactClassLoaderManager
    | Initialise
    | Start
    | Stop
    | Dispose

  /**
   * A core extension: its name, the optional interfaces it implements, and the
   * calls on which its own code throws.
   */
  datatype Extension = Extension(name: string, capabilities: set<Capability>, failing: set<Call>)

  /** An opaque reference to a host service (deployment, repository, tooling, class-loader manager). */
  datatype Handle = Handle(id: nat)

  /** The artifact category a listener adapter filters on. */
  datatype ArtifactType = App | Domain

  /** What is registered with the deployment service. */
  datatype Listener =
    | Adapter(adapted: Extension, artifactType: ArtifactType)  // a DeploymentListenerAdapter
    | Direct(listener: Extension)                              // the extension itself

  /** The deployment-service method used for a registration. */
  datatype Registration = AddDeploymentListener | AddDomainDeploymentListener

  /** The argument passed with a call on an extension. */
  datatype Argument =
    | NoArgument
    | HandleArgument(handle: Option<Handle>)
    | ExtensionsArgument(extensions: seq<Extension>)

  /**
   * One step the manager takes: a call on an extension, or a registration with the
   * deployment service (`service` is the handle the call went to). `ok` says
   * whether the step returned normally.
   */
  datatype Event =
    | Called(target: Extension, call: Call, argument: Argument, ok: bool)
    | Registered(service: Option<Handle>, registration: Registration, listener: Listener, ok: bool)

  /** Why a phase stopped. */
  datatype Failure =
    | DiscoveryFailed(reason: string)
    | ResolutionFailed(reason: string)
    | CallFailed(extension: Extension, call: Call)    // the extension's own method threw
    | DeploymentServiceUnset(extension: Extension)    // a registration dereferenced an unset service

  /** The single exception kind `initialise` raises, wrapping its cause. */
  datatype InitialisationException = InitialisationException(cause: Failure)

  /** The extension an event concerns. */
  function Subject(ev: Event): Extension
  {
    match ev
    case Called(e, _, _, _) => e
    case Registered(_, _, l, _) => if l.Adapter? then l.adapted else l.listener
  }

  /** The failure a failing step raises. */
  function FailureOf(ev: Event): Failure
  {
    if ev.Called? then CallFailed(ev.target, ev.call) else DeploymentServiceUnset(Subject(ev))
  }

  /** A call on `e`; it returns normally exactly when `e`'s code for `call` does not throw. */
  function Invocation(e: Extension, call: Call, arg: Argument): Event
  {
    Called(e, call, arg, call !in e.failing)
  }

  /** A registration with `service`; it throws (a null dereference) exactly when the service is unset. */
  function Registering(service: Option<Handle>, reg: Registration, l: Listener): Event
  {
    Registered(service, reg, l, service.Some?)
  }

  /** The extensions an event sequence concerns, in order. */
  function Subjects(evs: seq<Event>): (r: seq<Extension>)
    ensures |r| == |evs|
    ensures forall k :: 0 <= k < |evs| ==> r[k] == Subject(evs[k])
  {
    seq(|evs|, k requires 0 <= k < |evs| => Subject(evs[k]))
  }
}
