/**
 * Capability injection for one extension during initialisation: which setters are
 * invoked with which handle, which listeners are registered with the deployment
 * service, and the extension's own `initialise` call that follows them.
 */
module Wiring {
  import opened Outcomes
  import opened Extensions
  import opened Traces

  /** The four host-service handles the manager holds; each may be unset. */
  datatype Services = Services(
    deployment: Option<Handle>,
    repository: Option<Handle>,
    tooling: Option<Handle>,
    classLoaderManager: Option<Handle>)

  /** The capability checks, in the order the manager makes them. */
  const InjectionOrder: seq<Capability> := [
    DeploymentServiceAware, RepositoryServiceAware, ToolingServiceAware,
    ArtifactDeploymentListener, DeploymentListener, CoreExtensionsAware,
    ArtifactClassLoaderManagerAware]

  /** The calls by which the manager hands something to an extension. */
  const Setters: set<Call> := {SetDeploymentService, SetRepositoryService, SetToolingService,
                               SetCoreExtensions, SetArtifactClassLoaderManager}

  /** Where the check for `c` stands in the fixed order; every capability is checked exactly once. */
  function Position(c: Capability): (k: nat)
    ensures k < |InjectionOrder| && InjectionOrder[k] == c
  {
    match c
    case DeploymentServiceAware => 0
    case RepositoryServiceAware => 1
    case ToolingServiceAware => 2
    case ArtifactDeploymentListener => 3
    case DeploymentListener => 4
    case CoreExtensionsAware => 5
    case ArtifactClassLoaderManagerAware => 6
  }

  /** No capability is checked twice: the check at position `k` is the one for the capability at `k`. */
  lemma PositionOfCheck(k: nat)
    requires k < |InjectionOrder|
    ensures Position(InjectionOrder[k]) == k
  {
  }

  /** The listener that forwards to `e` only the events of artifacts of type `t`. */
  function CreateDeploymentListenerAdapter(e: Extension, t: ArtifactType): (l: Listener)
    ensures l.Adapter? && l.adapted == e && l.artifactType == t
  {
    Adapter(e, t)
  }

  /** The steps the check for capability `c` causes on `e`; none when `e` lacks `c`. */
  function CapabilityEvents(e: Extension, s: Services, ordered: seq<Extension>, c: Capability): seq<Event>
  {
    if c !in e.capabilities then []
    else match c
      case DeploymentServiceAware =>
        [Invocation(e, SetDeploymentService, HandleArgument(s.deployment))]
      case RepositoryServiceAware =>
        [Invocation(e, SetRepositoryService, HandleArgument(s.repository))]
      case ToolingServiceAware =>
        [Invocation(e, SetToolingService, HandleArgument(s.tooling))]
      case ArtifactDeploymentListener =>
        [Registering(s.deployment, AddDeploymentListener, CreateDeploymentListenerAdapter(e, App)),
         Registering(s.deployment, AddDomainDeploymentListener, CreateDeploymentListenerAdapter(e, Domain))]
      case DeploymentListener =>
        [Registering(s.deployment, AddDeploymentListener, Direct(e))]
      case CoreExtensionsAware =>
        [Invocation(e, SetCoreExtensions, ExtensionsArgument(ordered))]
      case ArtifactClassLoaderManagerAware =>
        [Invocation(e, SetArtifactClassLoaderManager, HandleArgument(s.classLoaderManager))]
  }

  /** The steps the capability checks `checks` cause on `e`, in order, then `e`'s own `initialise`. */
  function PlanFrom(e: Extension, s: Services, ordered: seq<Extension>, checks: seq<Capability>): seq<Event>
  {
    if checks == [] then [Invocation(e, Initialise, NoArgument)]
    else CapabilityEvents(e, s, ordered, checks[0]) + PlanFrom(e, s, ordered, checks[1..])
  }

  /**
   * Everything the manager attempts on `e` while initialising it, when nothing
   * throws; with fail-fast execution, the prefix through the first failure runs.
   */
  function Plan(e: Extension, s: Services, ordered: seq<Extension>): seq<Event>
  {
    PlanFrom(e, s, ordered, InjectionOrder)
  }

  /** Running the remaining checks fail-fast: the first check's steps, then the rest only if those succeeded. */
  lemma PlanFromStep(e: Extension, s: Services, o: seq<Extension>, checks: seq<Capability>)
    requires checks != []
    ensures var head := CapabilityEvents(e, s, o, checks[0]);
      TakeThroughFailure(PlanFrom(e, s, o, checks)) ==
        if AllOk(head) then head + TakeThroughFailure(PlanFrom(e, s, o, checks[1..]))
        else TakeThroughFailure(head)
  {
    TakeThroughFailureAppend(CapabilityEvents(e, s, o, checks[0]), PlanFrom(e, s, o, checks[1..]));
  }

  /**
   * Bookkeeping for running a plan one capability check at a time: if the run so far
   * accounts for the plan up to `checks`, then after the steps of `checks[0]` it
   * accounts for the plan up to `checks[1..]`, or for all of it when a step threw.
   */
  lemma PlanAdvance(e: Extension, s: Services, o: seq<Extension>, start: seq<Event>, plan: seq<Event>,
                    checks: seq<Capability>, before: seq<Event>, after: seq<Event>)
    requires checks != []
    requires start + TakeThroughFailure(plan) == before + TakeThroughFailure(PlanFrom(e, s, o, checks))
    requires after == before + TakeThroughFailure(CapabilityEvents(e, s, o, checks[0]))
    ensures AllOk(CapabilityEvents(e, s, o, checks[0])) ==>
      start + TakeThroughFailure(plan) == after + TakeThroughFailure(PlanFrom(e, s, o, checks[1..]))
    ensures !AllOk(CapabilityEvents(e, s, o, checks[0])) ==> start + TakeThroughFailure(plan) == after
  {
    PlanFromStep(e, s, o, checks);
    TakeThroughFailureAllOk(CapabilityEvents(e, s, o, checks[0]));
  }

  /** The capability whose interface entitles an extension to the setter `call`. */
  function AwareOf(call: Call): Capability
    requires call in Setters
  {
    match call
    case SetDeploymentService => DeploymentServiceAware
    case SetRepositoryService => RepositoryServiceAware
    case SetToolingService => ToolingServiceAware
    case SetCoreExtensions => CoreExtensionsAware
    case SetArtifactClassLoaderManager => ArtifactClassLoaderManagerAware
  }

  /** What the setter `call` hands over: the matching stored handle, or the resolved list. */
  function InjectedArgument(call: Call, s: Services, ordered: seq<Extension>): Argument
    requires call in Setters
  {
    match call
    case SetDeploymentService => HandleArgument(s.deployment)
    case SetRepositoryService => HandleArgument(s.repository)
    case SetToolingService => HandleArgument(s.tooling)
    case SetCoreExtensions => ExtensionsArgument(ordered)
    case SetArtifactClassLoaderManager => HandleArgument(s.classLoaderManager)
  }

  /** The registrations among `evs`, in order. */
  function Registrations(evs: seq<Event>): seq<Event>
  {
    if evs == [] then []
    else (if evs[0].Registered? then [evs[0]] else []) + Registrations(evs[1..])
  }

  /** The arguments of the calls of `call` among `evs`, in order. */
  function Injections(evs: seq<Event>, call: Call): seq<Argument>
  {
    if evs == [] then []
    else (if evs[0].Called? && evs[0].call == call then [evs[0].argument] else [])
         + Injections(evs[1..], call)
  }

  lemma {:induction false} RegistrationsAppend(a: seq<Event>, b: seq<Event>)
    ensures Registrations(a + b) == Registrations(a) + Registrations(b)
  {
    if a == [] {
      assert a + b == b;
    } else {
      assert (a + b)[0] == a[0];
      assert (a + b)[1..] == a[1..] + b;
      RegistrationsAppend(a[1..], b);
    }
  }

  lemma {:induction false} InjectionsAppend(a: seq<Event>, b: seq<Event>, call: Call)
    ensures Injections(a + b, call) == Injections(a, call) + Injections(b, call)
  {
    if a == [] {
      assert a + b == b;
    } else {
      assert (a + b)[0] == a[0];
      assert (a + b)[1..] == a[1..] + b;
      InjectionsAppend(a[1..], b, call);
    }
  }

  /** Every argument `Injections` collects comes from a call of that setter in `evs`. */
  lemma {:induction false} InjectionsWitness(evs: seq<Event>, call: Call, a: Argument)
    requires a in Injections(evs, call)
    ensures exists k :: 0 <= k < |evs| && evs[k].Called? && evs[k].call == call && evs[k].argument == a
  {
    var head := if evs[0].Called? && evs[0].call == call then [evs[0].argument] else [];
    if a !in head {
      InjectionsWitness(evs[1..], call, a);
      var k :| 0 <= k < |evs[1..]| && evs[1..][k].Called? && evs[1..][k].call == call && evs[1..][k].argument == a;
      assert evs[k + 1] == evs[1..][k];
    }
  }

  /** The registrations one capability check makes. */
  lemma CapabilityRegistrations(e: Extension, s: Services, o: seq<Extension>, c: Capability)
    ensures Registrations(CapabilityEvents(e, s, o, c)) ==
      if c !in e.capabilities || c !in {ArtifactDeploymentListener, DeploymentListener} then []
      else CapabilityEvents(e, s, o, c)
  {
    var p := CapabilityEvents(e, s, o, c);
    if c == ArtifactDeploymentListener && c in e.capabilities {
      assert p == [p[0]] + [p[1]];
      RegistrationsAppend([p[0]], [p[1]]);
    }
  }

  /** The registrations of the checks from position `k` on: those of check `k`, then those of the rest. */
  lemma RegistrationsShift(e: Extension, s: Services, o: seq<Extension>, k: nat)
    requires k < |InjectionOrder|
    ensures Registrations(PlanFrom(e, s, o, InjectionOrder[k..])) ==
      Registrations(CapabilityEvents(e, s, o, InjectionOrder[k])) + Registrations(PlanFrom(e, s, o, InjectionOrder[k + 1..]))
  {
    var checks := InjectionOrder[k..];
    assert checks[1..] == InjectionOrder[k + 1..];
    RegistrationsAppend(CapabilityEvents(e, s, o, checks[0]), PlanFrom(e, s, o, checks[1..]));
  }

  /** A run of checks none of which is for a listener interface registers nothing. */
  lemma {:induction false} QuietChecks(e: Extension, s: Services, o: seq<Extension>, checks: seq<Capability>)
    requires forall c :: c in checks ==> c != ArtifactDeploymentListener && c != DeploymentListener
    ensures Registrations(PlanFrom(e, s, o, checks)) == []
  {
    if checks == [] {
      assert Registrations([Invocation(e, Initialise, NoArgument)]) == [];
    } else {
      assert checks[0] in checks && forall c :: c in checks[1..] ==> c in checks;
      QuietChecks(e, s, o, checks[1..]);
      CapabilityRegistrations(e, s, o, checks[0]);
      RegistrationsAppend(CapabilityEvents(e, s, o, checks[0]), PlanFrom(e, s, o, checks[1..]));
    }
  }

  /** The first three checks (the service setters) register nothing. */
  lemma RegistrationsSkipSetters(e: Extension, s: Services, o: seq<Extension>)
    ensures Registrations(Plan(e, s, o)) == Registrations(PlanFrom(e, s, o, InjectionOrder[3..]))
  {
    assert InjectionOrder[0..] == InjectionOrder;
    RegistrationsShift(e, s, o, 0);
    CapabilityRegistrations(e, s, o, DeploymentServiceAware);
    RegistrationsShift(e, s, o, 1);
    CapabilityRegistrations(e, s, o, RepositoryServiceAware);
    RegistrationsShift(e, s, o, 2);
    CapabilityRegistrations(e, s, o, ToolingServiceAware);
  }

  /** From the fourth check on, only the two listener checks register anything. */
  lemma RegistrationsOfListeners(e: Extension, s: Services, o: seq<Extension>)
    ensures Registrations(PlanFrom(e, s, o, InjectionOrder[3..])) ==
      CapabilityEvents(e, s, o, ArtifactDeploymentListener) + CapabilityEvents(e, s, o, DeploymentListener)
  {
    RegistrationsShift(e, s, o, 3);
    RegistrationsOfDirectListener(e, s, o);
    CapabilityRegistrations(e, s, o, ArtifactDeploymentListener);
  }

  /** From the fifth check on, only the deployment-listener check registers anything. */
  lemma RegistrationsOfDirectListener(e: Extension, s: Services, o: seq<Extension>)
    ensures Registrations(PlanFrom(e, s, o, InjectionOrder[4..])) == CapabilityEvents(e, s, o, DeploymentListener)
  {
    RegistrationsShift(e, s, o, 4);
    QuietChecks(e, s, o, InjectionOrder[5..]);
    CapabilityRegistrations(e, s, o, DeploymentListener);
  }

  /**
   * Each extension that listens to artifact deployments yields exactly two adapter
   * registrations, the application one through `addDeploymentListener` and then the
   * domain one through `addDomainDeploymentListener`; a deployment listener is
   * registered itself, once, through `addDeploymentListener`. Nothing else is
   * registered, and every registration goes to the stored deployment service.
   */
  lemma PlanRegistrations(e: Extension, s: Services, o: seq<Extension>)
    ensures Registrations(Plan(e, s, o)) ==
      (if ArtifactDeploymentListener in e.capabilities
       then [Registered(s.deployment, AddDeploymentListener, Adapter(e, App), s.deployment.Some?),
             Registered(s.deployment, AddDomainDeploymentListener, Adapter(e, Domain), s.deployment.Some?)]
       else [])
      + (if DeploymentListener in e.capabilities
         then [Registered(s.deployment, AddDeploymentListener, Direct(e), s.deployment.Some?)]
         else [])
  {
    RegistrationsSkipSetters(e, s, o);
    RegistrationsOfListeners(e, s, o);
  }

  /** The setter calls one capability check makes. */
  lemma CapabilityInjections(e: Extension, s: Services, o: seq<Extension>, c: Capability, call: Call)
    requires call in Setters
    ensures Injections(CapabilityEvents(e, s, o, c), call) ==
      if c == AwareOf(call) && c in e.capabilities then [InjectedArgument(call, s, o)] else []
  {
    var p := CapabilityEvents(e, s, o, c);
    if c == ArtifactDeploymentListener && c in e.capabilities {
      assert p == [p[0]] + [p[1]];
      InjectionsAppend([p[0]], [p[1]], call);
    }
  }

  /** The setter calls made by the capability checks from position `k` of the fixed order on. */
  lemma {:induction false} InjectionsFrom(e: Extension, s: Services, o: seq<Extension>, k: nat, call: Call)
    requires k <= |InjectionOrder|
    decreases |InjectionOrder| - k
    requires call in Setters
    ensures Injections(PlanFrom(e, s, o, InjectionOrder[k..]), call) ==
      if k <= Position(AwareOf(call)) && AwareOf(call) in e.capabilities
      then [InjectedArgument(call, s, o)] else []
  {
    var checks := InjectionOrder[k..];
    if k == |InjectionOrder| {
      assert checks == [];
    } else {
      InjectionsFrom(e, s, o, k + 1, call);
      assert checks[1..] == InjectionOrder[k + 1..];
      PositionOfCheck(k);
      CapabilityInjections(e, s, o, checks[0], call);
      InjectionsAppend(CapabilityEvents(e, s, o, checks[0]), PlanFrom(e, s, o, checks[1..]), call);
    }
  }

  /**
   * In the plan of `e`, each setter appears exactly once when `e` implements the
   * matching interface and never otherwise, with exactly the handle the manager holds
   * (possibly unset), or for `setCoreExtensions` the whole resolved list. Every step of
   * every plan succeeds exactly when initialisation passes; once an extension's turn is
   * reached, its plan runs in full without a failure exactly when none of its own steps
   * throws (see `InitialiseShape`).
   */
  lemma PlanInjections(e: Extension, s: Services, o: seq<Extension>, call: Call)
    requires call in Setters
    ensures Injections(Plan(e, s, o), call) ==
      if AwareOf(call) in e.capabilities then [InjectedArgument(call, s, o)] else []
  {
    InjectionsFrom(e, s, o, 0, call);
    assert InjectionOrder[0..] == InjectionOrder;
  }

  /**
   * Once `e`'s turn comes (every earlier plan passed), and when wiring and initialising
   * `e` throws nowhere, the steps actually run hand each setter to `e` exactly once if it
   * implements the matching interface, and never otherwise. An extension after a failing
   * one gets no setter call at all.
   */
  lemma RunInjections(e: Extension, s: Services, o: seq<Extension>, call: Call)
    requires call in Setters
    requires AllOk(Plan(e, s, o))
    ensures Injections(TakeThroughFailure(Plan(e, s, o)), call) ==
      if AwareOf(call) in e.capabilities then [InjectedArgument(call, s, o)] else []
  {
    TakeThroughFailureAllOk(Plan(e, s, o));
    PlanInjections(e, s, o, call);
  }

  /**
   * Every step of `e`'s plan concerns `e` and is wiring (a setter or a registration),
   * except the last, which is `e`'s own `initialise`: the wiring of an extension
   * always comes before its initialisation.
   */
  lemma {:induction false} PlanFromShape(e: Extension, s: Services, o: seq<Extension>, checks: seq<Capability>)
    ensures var p := PlanFrom(e, s, o, checks);
      && p != [] && p[|p| - 1] == Invocation(e, Initialise, NoArgument)
      && (forall k :: 0 <= k < |p| ==> Subject(p[k]) == e)
      && (forall k :: 0 <= k < |p| - 1 ==>
            (p[k].Registered? || p[k].call in Setters))
  {
    if checks != [] {
      PlanFromShape(e, s, o, checks[1..]);
      var head := CapabilityEvents(e, s, o, checks[0]);
      var tail := PlanFrom(e, s, o, checks[1..]);
      assert PlanFrom(e, s, o, checks) == head + tail;
      forall k | 0 <= k < |head|
        ensures Subject(head[k]) == e
        ensures head[k].Registered? || head[k].call in Setters
      {
      }
    }
  }

  lemma PlanShape(e: Extension, s: Services, o: seq<Extension>)
    ensures var p := Plan(e, s, o);
      && p != [] && p[|p| - 1] == Invocation(e, Initialise, NoArgument)
      && (forall k :: 0 <= k < |p| ==> Subject(p[k]) == e)
      && (forall k :: 0 <= k < |p| - 1 ==>
            (p[k].Registered? || p[k].call in Setters))
  {
    PlanFromShape(e, s, o, InjectionOrder);
  }
}
