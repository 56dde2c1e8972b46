/**
 * The core-extension manager: it holds the discovered and the resolved extension
 * lists and the host-service handles, and drives every extension through
 * initialise, start, stop and dispose. `trace` records, in order, every call it
 * makes on an extension and every listener it registers with the deployment service.
 */
module Manager {
  import opened Outcomes
  import opened Extensions
  import opened Traces
  import opened Wiring
  import opened Phases

  class CoreExtensionManagerServer {
    /** Finds the core extensions; returns them in discovery order or throws. */
    const discoverer: () -> Result<seq<Extension>, string>
    /** Orders the discovered extensions by their dependencies, or throws. */
    const dependencyResolver: seq<Extension> -> Result<seq<Extension>, string>

    var coreExtensions: seq<Extension>
    /** `None` until a dependency resolution has succeeded. */
    var orderedCoreExtensions: Option<seq<Extension>>
    var deploymentService: Option<Handle>
    var repositoryService: Option<Handle>
    var toolingService: Option<Handle>
    var artifactClassLoaderManager: Option<Handle>
    var trace: seq<Event>

    /** The handles currently stored by the four setters. */
    function HostServices(): Services
      reads this`deploymentService, this`repositoryService, this`toolingService, this`artifactClassLoaderManager
    {
      Services(deploymentService, repositoryService, toolingService, artifactClassLoaderManager)
    }

    constructor (discoverer: () -> Result<seq<Extension>, string>,
                 dependencyResolver: seq<Extension> -> Result<seq<Extension>, string>)
      ensures this.discoverer == discoverer && this.dependencyResolver == dependencyResolver
      ensures coreExtensions == [] && orderedCoreExtensions == None
      ensures HostServices() == Services(None, None, None, None)
      ensures trace == []
    {
      this.discoverer := discoverer;
      this.dependencyResolver := dependencyResolver;
      coreExtensions := [];
      orderedCoreExtensions := None;
      deploymentService, repositoryService := None, None;
      toolingService, artifactClassLoaderManager := None, None;
      trace := [];
    }

    method SetDeploymentService(service: Option<Handle>)
      modifies this`deploymentService
      ensures deploymentService == service
    {
      deploymentService := service;
    }

    method SetRepositoryService(service: Option<Handle>)
      modifies this`repositoryService
      ensures repositoryService == service
    {
      repositoryService := service;
    }

    method SetToolingService(service: Option<Handle>)
      modifies this`toolingService
      ensures toolingService == service
    {
      toolingService := service;
    }

    method SetArtifactClassLoaderManager(manager: Option<Handle>)
      modifies this`artifactClassLoaderManager
      ensures artifactClassLoaderManager == manager
    {
      artifactClassLoaderManager := manager;
    }

    /**
     * Disposes every discovered extension, in discovery order; a failing `dispose`
     * is caught, so every extension gets its call and nothing is raised (naming the
     * extension in the log is taken to succeed).
     */
    method Dispose()
      modifies this`trace
      ensures trace == old(trace) + DisposeTrace(coreExtensions)
    {
      for i := 0 to |coreExtensions|
        invariant trace == old(trace) + DisposeTrace(coreExtensions[..i])
      {
        CallsSnoc(coreExtensions, i, Call.Dispose);
        trace := trace + [Invocation(coreExtensions[i], Call.Dispose, NoArgument)];
      }
      assert coreExtensions[..|coreExtensions|] == coreExtensions;
    }

    /**
     * Discovers the extensions, resolves their order and initialises them. A
     * failure of any of the three is raised as one `InitialisationException`.
     */
    method Initialise() returns (r: Outcome<InitialisationException>)
      modifies this`coreExtensions, this`orderedCoreExtensions, this`trace
      ensures discoverer().Failure? ==>
        && coreExtensions == old(coreExtensions)
        && orderedCoreExtensions == old(orderedCoreExtensions)
        && trace == old(trace)
        && r == Fail(InitialisationException(DiscoveryFailed(discoverer().error)))
      ensures discoverer().Success? ==> coreExtensions == discoverer().value
      ensures discoverer().Success? && dependencyResolver(discoverer().value).Failure? ==>
        && orderedCoreExtensions == old(orderedCoreExtensions)
        && trace == old(trace)
        && r == Fail(InitialisationException(ResolutionFailed(dependencyResolver(discoverer().value).error)))
      ensures discoverer().Success? && dependencyResolver(discoverer().value).Success? ==>
        var ordered := dependencyResolver(discoverer().value).value;
        && orderedCoreExtensions == Some(ordered)
        && trace == old(trace) + InitialiseTrace(ordered, HostServices())
        && (r.Pass? <==> AllOk(Plans(ordered, HostServices(), ordered)))
        && (r.Fail? ==> |trace| > |old(trace)| && !trace[|trace| - 1].ok
                        && r == Fail(InitialisationException(FailureOf(trace[|trace| - 1]))))
    {
      var discovered := discoverer();
      if discovered.Failure? {
        return Fail(InitialisationException(DiscoveryFailed(discovered.error)));
      }
      coreExtensions := discovered.value;
      var resolved := dependencyResolver(coreExtensions);
      if resolved.Failure? {
        return Fail(InitialisationException(ResolutionFailed(resolved.error)));
      }
      orderedCoreExtensions := Some(resolved.value);
      var outcome := InitializeCoreExtensions();
      if outcome.Fail? {
        return Fail(InitialisationException(outcome.error));
      }
      return Pass;
    }

    /** Starts the resolved extensions in order; the first failure is raised as is. */
    method Start() returns (r: Outcome<Failure>)
      requires orderedCoreExtensions.Some?
      modifies this`trace
      ensures var ordered := orderedCoreExtensions.value;
        && trace == old(trace) + StartTrace(ordered)
        && (r.Pass? <==> FirstFailing(ordered, Call.Start) == |ordered|)
        && (r.Fail? ==> r.error == CallFailed(ordered[FirstFailing(ordered, Call.Start)], Call.Start))
    {
      var ordered := orderedCoreExtensions.value;
      StartTraceShape(ordered);
      for i := 0 to |ordered|
        invariant trace == old(trace) + Calls(ordered[..i], Call.Start)
        invariant forall k :: 0 <= k < i ==> Call.Start !in ordered[k].failing
      {
        var ev := Invocation(ordered[i], Call.Start, NoArgument);
        CallsSnoc(ordered, i, Call.Start);
        trace := trace + [ev];
        if !ev.ok {
          assert FirstFailing(ordered, Call.Start) == i;
          assert StartTrace(ordered) == Calls(ordered[..i + 1], Call.Start);
          return Fail(FailureOf(ev));
        }
      }
      assert ordered[..|ordered|] == ordered;
      assert StartTrace(ordered) == Calls(ordered, Call.Start);
      return Pass;
    }

    /**
     * Stops the resolved extensions in reverse order; a failing `stop` is caught,
     * so every extension gets its call and nothing is raised (naming the extension
     * in the log is taken to succeed). Without a resolved list it does nothing.
     */
    method Stop()
      modifies this`trace
      ensures orderedCoreExtensions.None? ==> trace == old(trace)
      ensures orderedCoreExtensions.Some? ==> trace == old(trace) + StopTrace(orderedCoreExtensions.value)
    {
      if orderedCoreExtensions.None? {
        return;
      }
      var ordered := orderedCoreExtensions.value;
      var i := |ordered|;
      while i > 0
        invariant 0 <= i <= |ordered|
        invariant trace == old(trace) + StopTrace(ordered[i..])
      {
        i := i - 1;
        var extension := ordered[i];
        StopTraceStep(ordered, i);
        trace := trace + [Invocation(extension, Call.Stop, NoArgument)];
      }
      assert ordered[0..] == ordered;
    }

    /** Wires and initialises every resolved extension in order, stopping at the first failure. */
    method InitializeCoreExtensions() returns (r: Outcome<Failure>)
      requires orderedCoreExtensions.Some?
      modifies this`trace
      ensures var ordered := orderedCoreExtensions.value;
        var plans := Plans(ordered, HostServices(), ordered);
        && trace == old(trace) + TakeThroughFailure(plans)
        && (r.Pass? <==> AllOk(plans))
        && (r.Fail? ==> |trace| > |old(trace)| && !trace[|trace| - 1].ok
                        && r.error == FailureOf(trace[|trace| - 1]))
    {
      var ordered := orderedCoreExtensions.value;
      ghost var s := HostServices();
      for i := 0 to |ordered|
        invariant trace == old(trace) + Plans(ordered[..i], s, ordered)
        invariant AllOk(Plans(ordered[..i], s, ordered))
      {
        ghost var before := trace;
        r := InitialiseExtension(ordered[i], ordered);
        if r.Fail? {
          InitialiseLoopStops(ordered, s, ordered, i, old(trace), before, trace);
          return;
        }
        InitialiseLoopStep(ordered, s, ordered, i, old(trace), before, trace);
      }
      InitialiseLoopDone(ordered, s, ordered, old(trace), trace);
      return Pass;
    }

    /**
     * Makes the capability tests on `extension` in their fixed order, handing it each
     * host service it is aware of and registering it with the deployment service as
     * the listener interfaces it implements ask, then calls its `initialise`; the
     * first step that throws ends the sequence.
     */
    method InitialiseExtension(extension: Extension, ordered: seq<Extension>) returns (r: Outcome<Failure>)
      modifies this`trace
      ensures var plan := Plan(extension, HostServices(), ordered);
        && trace == old(trace) + TakeThroughFailure(plan)
        && (r.Pass? <==> AllOk(plan))
        && (r.Fail? ==> |trace| > |old(trace)| && !trace[|trace| - 1].ok
                        && r.error == FailureOf(trace[|trace| - 1]))
    {
      var e := extension;
      ghost var s := HostServices();
      ghost var plan := Plan(e, s, ordered);
      PlanShape(e, s, ordered);
      for i := 0 to |InjectionOrder|
        invariant old(trace) + TakeThroughFailure(plan) ==
                  trace + TakeThroughFailure(PlanFrom(e, s, ordered, InjectionOrder[i..]))
      {
        ghost var before := trace;
        var failure := CheckCapability(e, ordered, InjectionOrder[i]);
        PlanAdvance(e, s, ordered, old(trace), plan, InjectionOrder[i..], before, trace);
        assert InjectionOrder[i..][1..] == InjectionOrder[i + 1..];
        if failure.Some? {
          FailFastOutcome(old(trace), plan, trace);
          return Fail(failure.value);
        }
      }
      var ev := Invocation(e, Call.Initialise, NoArgument);
      TakeThroughFailureSingle(ev);
      trace := trace + [ev];
      FailFastOutcome(old(trace), plan, trace);
      if !ev.ok { return Fail(FailureOf(ev)); }
      return Pass;
    }

    /**
     * The test for one optional interface of `extension` and, when it holds, the
     * setter call or deployment-service registrations it leads to.
     */
    method CheckCapability(extension: Extension, ordered: seq<Extension>, c: Capability)
      returns (failure: Option<Failure>)
      modifies this`trace
      ensures var steps := CapabilityEvents(extension, HostServices(), ordered, c);
        && trace == old(trace) + TakeThroughFailure(steps)
        && (failure.None? <==> AllOk(steps))
        && (failure.Some? ==> |trace| > |old(trace)| && !trace[|trace| - 1].ok
                              && failure.value == FailureOf(trace[|trace| - 1]))
    {
      var e := extension;
      if c !in e.capabilities {
        return None;
      }
      var ev: Event;
      match c {
      case DeploymentServiceAware =>
        ev := Invocation(e, Call.SetDeploymentService, HandleArgument(deploymentService));
      case RepositoryServiceAware =>
        ev := Invocation(e, Call.SetRepositoryService, HandleArgument(repositoryService));
      case ToolingServiceAware =>
        ev := Invocation(e, Call.SetToolingService, HandleArgument(toolingService));
      case ArtifactDeploymentListener =>
        ev := Registering(deploymentService, AddDeploymentListener, CreateDeploymentListenerAdapter(e, App));
        if ev.ok {
          var app := ev;
          trace := trace + [app];
          ev := Registering(deploymentService, AddDomainDeploymentListener, CreateDeploymentListenerAdapter(e, Domain));
          assert TakeThroughFailure([app, ev]) == [app] + TakeThroughFailure([ev]) by {
            assert [app, ev][1..] == [ev];
          }
        }
      case DeploymentListener =>
        ev := Registering(deploymentService, AddDeploymentListener, Direct(e));
      case CoreExtensionsAware =>
        ev := Invocation(e, Call.SetCoreExtensions, ExtensionsArgument(ordered));
      case ArtifactClassLoaderManagerAware =>
        ev := Invocation(e, Call.SetArtifactClassLoaderManager, HandleArgument(artifactClassLoaderManager));
      }
      trace := trace + [ev];
      TakeThroughFailureSingle(ev);
      failure := if ev.ok then None else Some(FailureOf(ev));
    }
  }
}
