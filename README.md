# Core-extension lifecycle manager, modelled in Dafny

This project models `DefaultMuleCoreExtensionManagerServer`, the Mule runtime launcher class that
drives the core extensions through their lifecycle. It holds two lists of extensions: `coreExtensions`,
the discovered list, and `orderedCoreExtensions`, the list in dependency order. It also holds four
host-service handles, each stored by its own setter. Its four phases each walk a list in a fixed
direction with a fixed failure policy:

- `initialise` discovers the extensions, resolves their order, then wires and initialises each one in
  resolved order. It stops at the first exception and wraps it in one `InitialisationException`.
- `start` runs forward over the resolved list and lets the first exception propagate.
- `stop` runs backward over the resolved list and catches every exception. Without a resolved list it
  does nothing.
- `dispose` runs forward over the *discovered* list and catches every exception.

Wiring one extension means testing it, in a fixed order, against seven optional interfaces:

- the three service-aware interfaces, which get a handle;
- `ArtifactDeploymentListener`, which gets two `DeploymentListenerAdapter`s registered, one for
  applications and one for domains;
- `DeploymentListener`, which is registered itself;
- `CoreExtensionsAware`, which gets the whole resolved list;
- `ArtifactClassLoaderManagerAware`, which gets the class-loader manager.

After that the extension's own `initialise` is called.

Layout:

- `outcomes.dfy` (`Outcomes`): `Option`, `Result` and `Outcome` (pass or fail).
- `extensions.dfy` (`Extensions`): the data model. An extension is a value: a name, the set of optional
  interfaces it implements, and the set of calls on which its own code throws. The module also defines
  handles, listeners, and the events the manager produces. An event is a call on an extension or a
  registration with the deployment service, and it records whether the step returned normally.
- `traces.dfy` (`Traces`): fail-fast execution. A planned step sequence runs up to and including its
  first failing step (`TakeThroughFailure`).
- `wiring.dfy` (`Wiring`): the steps that wiring and initialising one extension attempts (`Plan`), plus
  what they inject and register.
- `phases.dfy` (`Phases`): the step sequence of each phase over a whole list, as specification
  functions (`InitialiseTrace`, `StartTrace`, `StopTrace`, `DisposeTrace`), with the properties of each.
- `manager.dfy` (`Manager`): the class `CoreExtensionManagerServer`. Its fields are those of the
  source, plus `trace`, the sequence of every call and registration made so far. Its methods are the
  source's loops, each proved to append exactly its phase's specification trace to `trace`.

The discoverer and the dependency resolver are collaborators whose code is not part of this model. They
are constructor parameters: total functions that return a list or fail with a reason. An unset handle
(Java `null`) is `None`.

The model follows the code as written in these points:

- Injection happens in the source's fixed order.
- A failing `start` propagates the extension's own exception, unwrapped; only `initialise` wraps.
- `stop` makes no calls when no resolved list was ever stored, that is, when `initialise` never got
  past resolution (it also makes none for an empty resolved list). It does not depend on whether
  `start` ran.
- `dispose` walks the discovered list, not the resolved one.
- The domain adapter is registered through `addDomainDeploymentListener`.
- An unset handle is handed to an aware extension as is. Registering a listener with an unset
  deployment service dereferences `null`. The resulting exception becomes the cause of the
  `InitialisationException` (`DeploymentServiceUnset`). No explicit missing-service error exists.

## Model

All source cells refer to `modules/launcher/src/main/java/org/mule/runtime/module/launcher/coreextension/DefaultMuleCoreExtensionManagerServer.java`.

| member | source | states |
|---|---|---|
| Manager.CoreExtensionManagerServer.constructor | modules/launcher/src/main/java/org/mule/runtime/module/launcher/coreextension/DefaultMuleCoreExtensionManagerServer.java:39-52 | the collaborators are stored; the discovered list starts empty; there is no resolved list; every handle is unset; nothing has been called |
| Manager.CoreExtensionManagerServer.SetDeploymentService | modules/launcher/src/main/java/org/mule/runtime/module/launcher/coreextension/DefaultMuleCoreExtensionManagerServer.java:148-151 | stores the handle; no other field may change |
| Manager.CoreExtensionManagerServer.SetRepositoryService | modules/launcher/src/main/java/org/mule/runtime/module/launcher/coreextension/DefaultMuleCoreExtensionManagerServer.java:153-156 | stores the handle; no other field may change |
| Manager.CoreExtensionManagerServer.SetToolingService | modules/launcher/src/main/java/org/mule/runtime/module/launcher/coreextension/DefaultMuleCoreExtensionManagerServer.java:158-161 | stores the handle; no other field may change |
| Manager.CoreExtensionManagerServer.SetArtifactClassLoaderManager | modules/launcher/src/main/java/org/mule/runtime/module/launcher/coreextension/DefaultMuleCoreExtensionManagerServer.java:163-166 | stores the handle; no other field may change |
| Manager.CoreExtensionManagerServer.Dispose | modules/launcher/src/main/java/org/mule/runtime/module/launcher/coreextension/DefaultMuleCoreExtensionManagerServer.java:54-65 | appends exactly `DisposeTrace` of the discovered list, one `dispose` per extension in discovery order, and raises nothing (assuming `getName` returns normally) |
| Manager.CoreExtensionManagerServer.Initialise | modules/launcher/src/main/java/org/mule/runtime/module/launcher/coreextension/DefaultMuleCoreExtensionManagerServer.java:67-79 | discovery failure: nothing changes and the cause is wrapped; resolution failure: only the discovered list is stored and the cause is wrapped; otherwise both lists are stored, `InitialiseTrace` is appended, the call passes exactly when every planned step succeeds, and a failure wraps the failure of the last step taken |
| Manager.CoreExtensionManagerServer.Start | modules/launcher/src/main/java/org/mule/runtime/module/launcher/coreextension/DefaultMuleCoreExtensionManagerServer.java:81-88 | appends `StartTrace`; passes exactly when no `start` throws; otherwise propagates, unwrapped, the failure of the first extension whose `start` throws |
| Manager.CoreExtensionManagerServer.Stop | modules/launcher/src/main/java/org/mule/runtime/module/launcher/coreextension/DefaultMuleCoreExtensionManagerServer.java:90-107 | without a resolved list the trace is unchanged; otherwise appends exactly `StopTrace` of the resolved list; raises nothing (assuming `getName` returns normally) |
| Manager.CoreExtensionManagerServer.InitializeCoreExtensions | modules/launcher/src/main/java/org/mule/runtime/module/launcher/coreextension/DefaultMuleCoreExtensionManagerServer.java:109-146 | appends the fail-fast run of all plans in resolved order; passes exactly when every step of every plan succeeds; on failure the last step taken failed and its failure is returned |
| Manager.CoreExtensionManagerServer.InitialiseExtension | modules/launcher/src/main/java/org/mule/runtime/module/launcher/coreextension/DefaultMuleCoreExtensionManagerServer.java:112-145 | appends the fail-fast run of one extension's plan (its capability steps, then its `initialise`); passes exactly when the whole plan succeeds; a failure is that of the last step taken |
| Manager.CoreExtensionManagerServer.CheckCapability | modules/launcher/src/main/java/org/mule/runtime/module/launcher/coreextension/DefaultMuleCoreExtensionManagerServer.java:113-141 | appends the fail-fast run of the steps one interface test causes (none when the interface is absent, and the domain registration only after the application one succeeded); reports a failure exactly when a step failed, with the failure of the step that failed |
| Traces.FirstFailure | modules/launcher/src/main/java/org/mule/runtime/module/launcher/coreextension/DefaultMuleCoreExtensionManagerServer.java:84-87 | the position of the first failing step: every earlier step succeeded and the step at that position failed, or no step failed |
| Traces.TakeThroughFailurePrefix | modules/launcher/src/main/java/org/mule/runtime/module/launcher/coreextension/DefaultMuleCoreExtensionManagerServer.java:84-87 | a fail-fast run is exactly the prefix of the plan that ends at its first failing step, or the whole plan when no step fails |
| Traces.FirstFailureUnique | modules/launcher/src/main/java/org/mule/runtime/module/launcher/coreextension/DefaultMuleCoreExtensionManagerServer.java:84-87 | any position preceded only by successes and holding a failure, or the end of a plan without failures, is the first failure |
| Traces.TakeThroughFailureAllOk | modules/launcher/src/main/java/org/mule/runtime/module/launcher/coreextension/DefaultMuleCoreExtensionManagerServer.java:84-87 | a fail-fast run is free of failures exactly when the plan is, and then it is the whole plan |
| Traces.TakeThroughFailureLast | modules/launcher/src/main/java/org/mule/runtime/module/launcher/coreextension/DefaultMuleCoreExtensionManagerServer.java:84-87 | when a step fails, the run ends with the first failing step and everything before it succeeded |
| Traces.TakeThroughFailureAppend | modules/launcher/src/main/java/org/mule/runtime/module/launcher/coreextension/DefaultMuleCoreExtensionManagerServer.java:112-145 | running `a` then `b` fail-fast runs `b` only when all of `a` succeeded; otherwise it stops inside `a` |
| Traces.FailFastOutcome | modules/launcher/src/main/java/org/mule/runtime/module/launcher/coreextension/DefaultMuleCoreExtensionManagerServer.java:112-145 | after a fail-fast run of a non-empty plan, the plan succeeded exactly when the last step taken succeeded |
| Wiring.CreateDeploymentListenerAdapter | modules/launcher/src/main/java/org/mule/runtime/module/launcher/coreextension/DefaultMuleCoreExtensionManagerServer.java:175-177 | builds the adapter that wraps exactly the given artifact deployment listener and filters on exactly the given artifact type |
| Wiring.Position | modules/launcher/src/main/java/org/mule/runtime/module/launcher/coreextension/DefaultMuleCoreExtensionManagerServer.java:113-141 | every optional interface is tested, at one position of the fixed order |
| Wiring.PlanInjections | modules/launcher/src/main/java/org/mule/runtime/module/launcher/coreextension/DefaultMuleCoreExtensionManagerServer.java:113-141 | in the plan of an extension (every step of every plan succeeds exactly when initialisation passes; once an extension's turn is reached, its plan runs in full without a failure exactly when none of its own steps throws, see `Phases.InitialiseShape`), each setter appears exactly once if the extension implements the matching interface and never otherwise, with exactly the stored handle, possibly unset, or for `setCoreExtensions` the resolved list |
| Wiring.RunInjections | modules/launcher/src/main/java/org/mule/runtime/module/launcher/coreextension/DefaultMuleCoreExtensionManagerServer.java:113-141 | once an extension's turn comes (every earlier plan passed) and no step of its own wiring or `initialise` throws, the steps actually run call each setter on it exactly once if it implements the matching interface and never otherwise, with exactly the stored handle or the resolved list |
| Wiring.CapabilityInjections | modules/launcher/src/main/java/org/mule/runtime/module/launcher/coreextension/DefaultMuleCoreExtensionManagerServer.java:113-141 | one interface test calls a setter only when the interface is the one that setter belongs to and the extension implements it |
| Wiring.InjectionsFrom | modules/launcher/src/main/java/org/mule/runtime/module/launcher/coreextension/DefaultMuleCoreExtensionManagerServer.java:113-141 | the tests from a given position on call a setter once exactly when its interface is tested there and implemented |
| Wiring.InjectionsWitness | modules/launcher/src/main/java/org/mule/runtime/module/launcher/coreextension/DefaultMuleCoreExtensionManagerServer.java:113-141 | every argument collected for a setter comes from an actual call of that setter in the steps |
| Wiring.PlanRegistrations | modules/launcher/src/main/java/org/mule/runtime/module/launcher/coreextension/DefaultMuleCoreExtensionManagerServer.java:125-133 | the registrations in one extension's plan are exactly two adapters for an artifact listener (application through `addDeploymentListener`, then domain through `addDomainDeploymentListener`), and then the extension itself for a deployment listener; all go to the stored deployment service and fail exactly when it is unset |
| Wiring.CapabilityRegistrations | modules/launcher/src/main/java/org/mule/runtime/module/launcher/coreextension/DefaultMuleCoreExtensionManagerServer.java:125-133 | only the two listener tests register anything, and only when the extension implements that interface |
| Wiring.QuietChecks | modules/launcher/src/main/java/org/mule/runtime/module/launcher/coreextension/DefaultMuleCoreExtensionManagerServer.java:113-141 | tests for interfaces other than the two listener ones register nothing |
| Wiring.RegistrationsSkipSetters | modules/launcher/src/main/java/org/mule/runtime/module/launcher/coreextension/DefaultMuleCoreExtensionManagerServer.java:113-123 | the three service tests before the listener tests register nothing |
| Wiring.RegistrationsOfListeners | modules/launcher/src/main/java/org/mule/runtime/module/launcher/coreextension/DefaultMuleCoreExtensionManagerServer.java:125-141 | from the artifact-listener test on, exactly that test's and the deployment-listener test's events are registered |
| Wiring.RegistrationsOfDirectListener | modules/launcher/src/main/java/org/mule/runtime/module/launcher/coreextension/DefaultMuleCoreExtensionManagerServer.java:131-141 | from the deployment-listener test on, only that test registers anything |
| Wiring.PlanShape | modules/launcher/src/main/java/org/mule/runtime/module/launcher/coreextension/DefaultMuleCoreExtensionManagerServer.java:112-143 | every step of an extension's plan concerns that extension; every step but the last is a setter call or a registration; the last is its own `initialise` |
| Wiring.PlanFromShape | modules/launcher/src/main/java/org/mule/runtime/module/launcher/coreextension/DefaultMuleCoreExtensionManagerServer.java:112-143 | the same, for the plan of any remaining run of interface tests |
| Wiring.PlanAdvance | modules/launcher/src/main/java/org/mule/runtime/module/launcher/coreextension/DefaultMuleCoreExtensionManagerServer.java:112-145 | after one interface test the run accounts either for the rest of the plan or, when a step failed, for all of it |
| Phases.FirstFailing | modules/launcher/src/main/java/org/mule/runtime/module/launcher/coreextension/DefaultMuleCoreExtensionManagerServer.java:84-87 | the position of the first extension whose call throws, or the list's length |
| Phases.StartTraceShape | modules/launcher/src/main/java/org/mule/runtime/module/launcher/coreextension/DefaultMuleCoreExtensionManagerServer.java:84-87 | `start` is called forward; when position `i` throws, the extensions before `i` were started, `i` is the last called, and none after it is called; when none throws, all are started |
| Phases.StopTraceReversed | modules/launcher/src/main/java/org/mule/runtime/module/launcher/coreextension/DefaultMuleCoreExtensionManagerServer.java:97-106 | `stop` is called once on every resolved extension, in exactly reverse order, whatever each returns; the stopped extensions are a permutation of the resolved list |
| Phases.StopTraceStep | modules/launcher/src/main/java/org/mule/runtime/module/launcher/coreextension/DefaultMuleCoreExtensionManagerServer.java:97-106 | the backward loop's step: stopping from position `i` is stopping from `i + 1`, then `i` |
| Phases.StopReversesStart | modules/launcher/src/main/java/org/mule/runtime/module/launcher/coreextension/DefaultMuleCoreExtensionManagerServer.java:84-106 | the stop order is the reverse of the resolved order even after a failed start; after a complete start it is the reverse of the start order |
| Phases.StartFailsOnSecondOfThree | modules/launcher/src/main/java/org/mule/runtime/module/launcher/coreextension/DefaultMuleCoreExtensionManagerServer.java:84-106 | a start that fails on the middle of three extensions calls the first two and leaves the third unstarted, yet all three are stopped, last first |
| Phases.DisposeTraceAll | modules/launcher/src/main/java/org/mule/runtime/module/launcher/coreextension/DefaultMuleCoreExtensionManagerServer.java:57-64 | `dispose` is called once on every discovered extension, in discovery order; for an empty list nothing is called |
| Phases.FirstFailingPlan | modules/launcher/src/main/java/org/mule/runtime/module/launcher/coreextension/DefaultMuleCoreExtensionManagerServer.java:112-145 | the position of the first extension whose wiring or `initialise` throws: every earlier plan succeeded |
| Phases.FirstFailingPlanUnique | modules/launcher/src/main/java/org/mule/runtime/module/launcher/coreextension/DefaultMuleCoreExtensionManagerServer.java:112-145 | that position is determined by its defining properties |
| Phases.InitialiseShape | modules/launcher/src/main/java/org/mule/runtime/module/launcher/coreextension/DefaultMuleCoreExtensionManagerServer.java:112-145 | with no failure, every extension is wired and initialised; otherwise the extensions before the first failing one are wired and initialised in full, that one runs through its failure, and the phase fails |
| Phases.InitialiseStopsAt | modules/launcher/src/main/java/org/mule/runtime/module/launcher/coreextension/DefaultMuleCoreExtensionManagerServer.java:112-145 | once the plan at position `i` fails, after the earlier plans succeeded, nothing after it runs and the phase fails |
| Phases.InitialiseCompletes | modules/launcher/src/main/java/org/mule/runtime/module/launcher/coreextension/DefaultMuleCoreExtensionManagerServer.java:112-145 | when every step succeeds, the whole plan of every extension runs |
| Phases.InitialiseLoopStep | modules/launcher/src/main/java/org/mule/runtime/module/launcher/coreextension/DefaultMuleCoreExtensionManagerServer.java:112-145 | after the turn of an extension whose plan succeeds, the loop has run all plans through that extension, all successfully |
| Phases.InitialiseLoopStops | modules/launcher/src/main/java/org/mule/runtime/module/launcher/coreextension/DefaultMuleCoreExtensionManagerServer.java:112-145 | after the turn of the first extension whose plan fails, the loop has produced the fail-fast run of the whole list |
| Phases.InitialiseLoopDone | modules/launcher/src/main/java/org/mule/runtime/module/launcher/coreextension/DefaultMuleCoreExtensionManagerServer.java:112-145 | after every turn succeeded, the loop has produced the full run of all plans |
| Phases.PlansSubjects | modules/launcher/src/main/java/org/mule/runtime/module/launcher/coreextension/DefaultMuleCoreExtensionManagerServer.java:112-145 | every step of initialising a list concerns an extension of that list |
| Phases.InitialiseSubjects | modules/launcher/src/main/java/org/mule/runtime/module/launcher/coreextension/DefaultMuleCoreExtensionManagerServer.java:112-145 | when initialisation fails at position `i`, no extension after `i` is wired or initialised |
| Phases.PlanAdapterCount | modules/launcher/src/main/java/org/mule/runtime/module/launcher/coreextension/DefaultMuleCoreExtensionManagerServer.java:125-129 | one extension's plan registers exactly two adapters when it is an artifact deployment listener, and none otherwise |
| Phases.PlansAdapterCount | modules/launcher/src/main/java/org/mule/runtime/module/launcher/coreextension/DefaultMuleCoreExtensionManagerServer.java:112-145 | the plans of a list (every step of which succeeds exactly when initialisation passes) hold exactly twice as many adapter registrations as the list has artifact deployment listeners |
| Phases.InitialiseAdapterCount | modules/launcher/src/main/java/org/mule/runtime/module/launcher/coreextension/DefaultMuleCoreExtensionManagerServer.java:112-145 | an initialisation that passes registers exactly two adapters per artifact deployment listener in the resolved list |
| Phases.CoreExtensionsAwareSeesItself | modules/launcher/src/main/java/org/mule/runtime/module/launcher/coreextension/DefaultMuleCoreExtensionManagerServer.java:112-145 | an initialisation that passes calls `setCoreExtensions` successfully on every `CoreExtensionsAware` extension of the resolved list, with that very list, which therefore contains the extension |

## Left out

- Discovery and dependency resolution: only their interfaces appear in this class. They are given
  functions, so no ordering, cycle or completeness property is claimed for the resolved list.
- `DeploymentListenerAdapter` and the deployment service are not part of this model. A registration is
  recorded as a trace event naming the service handle, the method used and the listener (the adapted
  extension and its artifact type). Event filtering by artifact type is not modelled.
- `createDeploymentListenerAdapter`: the adapter's own filtering of deployment events by artifact type
  is not modelled; the model keeps only the wrapped listener and the type it filters on.
- The deployment service's `addDeploymentListener` and `addDomainDeploymentListener` are taken to
  return normally when the service is set. When it is unset they fail as a `null` dereference.
- Logging is left out. The model assumes that an extension's `getName` and `toString` return normally.
  The source calls `getName` inside the catch handlers of `dispose` and `stop` (lines 62 and 104),
  where a throw would escape and end the loop, so the extensions not yet reached would get no call;
  `Dispose` and `Stop` raise nothing only under this assumption. It calls `toString` after a
  successful `start` (line 86) and a successful `initialise` (line 144), where a throw would fail
  `start`, or `initialise` wrapped, although the extension's own call returned normally.
- Manager.CoreExtensionManagerServer.Dispose: the promise that nothing is raised rests on the `getName`
  assumption above.
- Manager.CoreExtensionManagerServer.Stop: the promise that nothing is raised rests on the `getName`
  assumption above.
- `stop` catches `Throwable` while `dispose` catches `Exception`. The two are one failure kind here.
  An extension's failure is a property of the extension and the call.
- Calling `start` before a successful resolution dereferences a `null` list in the source. In the model
  it is a precondition of `Start`.
- Object identity and aliasing are not modelled. Extensions are values, and the list handed to
  `setCoreExtensions` is the resolved list's value, not a shared reference.
- The source executes calls and registrations. The model records each as an event in `trace` and
  models each effect only as the event's success or failure.
- The source writes the seven interface tests in-line. `InitialiseExtension` runs them as a loop over
  the constant table `Wiring.InjectionOrder`, in the same order.
