/**
 * What each lifecycle phase of the manager does to a list of extensions, as the
 * sequence of steps it takes: `initialise` and `start` run forward and stop at the
 * first failure; `stop` runs backward and `dispose` forward, both past failures.
 */
module Phases {
  import opened Extensions
  import opened Traces
  import opened Wiring

  /** One no-argument call of `call` on each extension of `xs`, in order, whatever each returns. */
  function Calls(xs: seq<Extension>, call: Call): seq<Event>
  {
    seq(|xs|, k requires 0 <= k < |xs| => Invocation(xs[k], call, NoArgument))
  }

  function Reverse<T>(s: seq<T>): seq<T>
  {
    if s == [] then [] else Reverse(s[1..]) + [s[0]]
  }

  /** The position of the first extension whose `call` throws, or `|xs|` when none does. */
  function FirstFailing(xs: seq<Extension>, call: Call): (i: nat)
    ensures i <= |xs|
    ensures forall k :: 0 <= k < i ==> call !in xs[k].failing
    ensures i < |xs| ==> call in xs[i].failing
  {
    if xs == [] then 0
    else if call in xs[0].failing then 0
    else 1 + FirstFailing(xs[1..], call)
  }

  /** The steps of `start` over the resolved list `xs`: forward, fail-fast. */
  function StartTrace(xs: seq<Extension>): seq<Event>
  {
    TakeThroughFailure(Calls(xs, Start))
  }

  /** The steps of `stop` over the resolved list `xs`: backward, every failure caught. */
  function StopTrace(xs: seq<Extension>): seq<Event>
  {
    Calls(Reverse(xs), Stop)
  }

  /** The steps of `dispose` over the discovered list `xs`: forward, every failure caught. */
  function DisposeTrace(xs: seq<Extension>): seq<Event>
  {
    Calls(xs, Dispose)
  }

  /** The initialisation plans of the extensions of `xs`, one after the other. */
  function Plans(xs: seq<Extension>, s: Services, ordered: seq<Extension>): seq<Event>
  {
    if xs == [] then [] else Plan(xs[0], s, ordered) + Plans(xs[1..], s, ordered)
  }

  /**
   * The steps of initialising the resolved list `ordered` with the handles `s`:
   * every extension is wired and initialised in resolved order, fail-fast, and each
   * core-extensions-aware extension is handed `ordered` itself.
   */
  function InitialiseTrace(ordered: seq<Extension>, s: Services): seq<Event>
  {
    TakeThroughFailure(Plans(ordered, s, ordered))
  }

  /** The position of the first extension whose wiring or initialisation throws, or `|xs|`. */
  function FirstFailingPlan(xs: seq<Extension>, s: Services, ordered: seq<Extension>): (i: nat)
    ensures i <= |xs|
    ensures forall k :: 0 <= k < i ==> AllOk(Plan(xs[k], s, ordered))
    ensures i < |xs| ==> !AllOk(Plan(xs[i], s, ordered))
  {
    if xs == [] then 0
    else if !AllOk(Plan(xs[0], s, ordered)) then 0
    else 1 + FirstFailingPlan(xs[1..], s, ordered)
  }

  lemma {:induction false} ReverseAt<T>(s: seq<T>)
    ensures |Reverse(s)| == |s|
    ensures forall k :: 0 <= k < |s| ==> Reverse(s)[k] == s[|s| - 1 - k]
  {
    if s != [] {
      ReverseAt(s[1..]);
    }
  }

  lemma {:induction false} ReverseMultiset<T>(s: seq<T>)
    ensures multiset(Reverse(s)) == multiset(s)
  {
    if s != [] {
      ReverseMultiset(s[1..]);
      assert s == [s[0]] + s[1..];
    }
  }

  lemma {:induction false} FirstFailingPlanUnique(xs: seq<Extension>, s: Services, o: seq<Extension>, i: nat)
    requires i <= |xs|
    requires forall k :: 0 <= k < i ==> AllOk(Plan(xs[k], s, o))
    requires i < |xs| ==> !AllOk(Plan(xs[i], s, o))
    ensures FirstFailingPlan(xs, s, o) == i
  {
    if i > 0 {
      FirstFailingPlanUnique(xs[1..], s, o, i - 1);
    }
  }

  /** One more step of the backward `stop` loop. */
  lemma StopTraceStep(xs: seq<Extension>, i: nat)
    requires i < |xs|
    ensures StopTrace(xs[i..]) == StopTrace(xs[i + 1..]) + [Invocation(xs[i], Stop, NoArgument)]
  {
    assert xs[i..][1..] == xs[i + 1..];
    assert xs[i..][0] == xs[i];
    assert Reverse(xs[i..]) == Reverse(xs[i + 1..]) + [xs[i]];
  }

  lemma CallsSnoc(xs: seq<Extension>, i: nat, call: Call)
    requires i < |xs|
    ensures Calls(xs[..i + 1], call) == Calls(xs[..i], call) + [Invocation(xs[i], call, NoArgument)]
  {
  }

  /**
   * `stop` calls `stop` exactly once on every resolved extension, in exactly the
   * reverse of the resolved order, whatever any of them returns.
   */
  lemma StopTraceReversed(xs: seq<Extension>)
    ensures |StopTrace(xs)| == |xs|
    ensures forall k :: 0 <= k < |xs| ==>
      StopTrace(xs)[k] == Invocation(xs[|xs| - 1 - k], Stop, NoArgument)
    ensures multiset(Subjects(StopTrace(xs))) == multiset(xs)
  {
    ReverseAt(xs);
    ReverseMultiset(xs);
    assert Subjects(StopTrace(xs)) == Reverse(xs);
  }

  /**
   * `start` calls `start` forward until the extension at position `i` throws: every
   * extension before `i` has been started, the one at `i` is the last to receive a
   * call, and none after it is called. When none throws, every extension is started.
   */
  lemma StartTraceShape(xs: seq<Extension>)
    ensures var i, t := FirstFailing(xs, Start), StartTrace(xs);
      && |t| == (if i < |xs| then i + 1 else |xs|)
      && Subjects(t) == xs[..|t|]
      && (forall k :: 0 <= k < |t| ==> t[k] == Invocation(xs[k], Start, NoArgument))
      && (forall k :: 0 <= k < i ==> t[k].ok)
      && (i < |xs| ==> !t[i].ok)
  {
    FirstFailureUnique(Calls(xs, Start), FirstFailing(xs, Start));
    TakeThroughFailurePrefix(Calls(xs, Start));
  }

  /**
   * The stop order is the exact reverse of the resolved order, so every extension
   * receives `stop` even after a failed `start`; when `start` ran to completion, the
   * stop order is the reverse of the start order.
   */
  lemma StopReversesStart(xs: seq<Extension>)
    ensures Subjects(StopTrace(xs)) == Reverse(xs)
    ensures FirstFailing(xs, Start) == |xs| ==>
      Subjects(StopTrace(xs)) == Reverse(Subjects(StartTrace(xs)))
  {
    StartTraceShape(xs);
    ReverseAt(xs);
    assert Subjects(StopTrace(xs)) == Reverse(xs);
    assert xs[..|xs|] == xs;
  }

  /** Start fails on the middle one of three extensions: the last is not started, all three are stopped. */
  lemma StartFailsOnSecondOfThree(a: Extension, b: Extension, c: Extension)
    requires Start !in a.failing && Start in b.failing
    ensures Subjects(StartTrace([a, b, c])) == [a, b]
    ensures !StartTrace([a, b, c])[1].ok
    ensures Subjects(StopTrace([a, b, c])) == [c, b, a]
    ensures StopTrace([a, b, c])[1].ok <==> Stop !in b.failing
  {
    var xs := [a, b, c];
    assert FirstFailing(xs, Start) == 1 by {
      assert FirstFailing(xs[1..], Start) == 0;
    }
    StartTraceShape(xs);
    assert xs[..2] == [a, b];
    StopReversesStart(xs);
    assert Reverse(xs) == [c, b, a] by {
      assert xs[1..][1..][1..] == [];
      assert Reverse(xs[1..][1..]) == [c];
      assert Reverse(xs[1..]) == [c, b];
    }
    StopTraceReversed(xs);
  }

  lemma {:induction false} PlansAppend(a: seq<Extension>, b: seq<Extension>, s: Services, o: seq<Extension>)
    ensures Plans(a + b, s, o) == Plans(a, s, o) + Plans(b, s, o)
  {
    if a == [] {
      assert a + b == b;
    } else {
      assert (a + b)[0] == a[0];
      assert (a + b)[1..] == a[1..] + b;
      PlansAppend(a[1..], b, s, o);
    }
  }

  lemma PlansSnoc(xs: seq<Extension>, i: nat, s: Services, o: seq<Extension>)
    requires i < |xs|
    ensures Plans(xs[..i + 1], s, o) == Plans(xs[..i], s, o) + Plan(xs[i], s, o)
  {
    assert xs[..i + 1] == xs[..i] + [xs[i]];
    PlansAppend(xs[..i], [xs[i]], s, o);
    assert Plans([xs[i]], s, o) == Plan(xs[i], s, o) + Plans([], s, o);
  }

  lemma {:induction false} PlansPrefixOk(xs: seq<Extension>, i: nat, s: Services, o: seq<Extension>)
    requires i <= |xs|
    requires forall k :: 0 <= k < i ==> AllOk(Plan(xs[k], s, o))
    ensures AllOk(Plans(xs[..i], s, o))
  {
    if i > 0 {
      PlansPrefixOk(xs, i - 1, s, o);
      PlansSnoc(xs, i - 1, s, o);
      AllOkAppend(Plans(xs[..i - 1], s, o), Plan(xs[i - 1], s, o));
    }
  }

  /**
   * Initialisation processes the extensions in order: the first extension whose
   * wiring or `initialise` throws, at position `i`, has run up to and including
   * that failure, every extension before it was fully wired and initialised, and no
   * extension after it is touched. When none throws, every plan runs completely.
   */
  lemma InitialiseShape(xs: seq<Extension>, s: Services, o: seq<Extension>)
    ensures var i := FirstFailingPlan(xs, s, o);
      && (i == |xs| ==> AllOk(Plans(xs, s, o)) && TakeThroughFailure(Plans(xs, s, o)) == Plans(xs, s, o))
      && (i < |xs| ==> (!AllOk(Plans(xs, s, o)) &&
            TakeThroughFailure(Plans(xs, s, o)) == Plans(xs[..i], s, o) + TakeThroughFailure(Plan(xs[i], s, o))))
  {
    var i := FirstFailingPlan(xs, s, o);
    PlansPrefixOk(xs, i, s, o);
    if i == |xs| {
      assert xs[..|xs|] == xs;
      InitialiseCompletes(xs, s, o);
    } else {
      InitialiseStopsAt(xs, s, o, i);
    }
  }

  /** When every step of initialising `xs` succeeds, initialisation runs all of them, unabridged. */
  lemma InitialiseCompletes(xs: seq<Extension>, s: Services, o: seq<Extension>)
    requires AllOk(Plans(xs, s, o))
    ensures TakeThroughFailure(Plans(xs, s, o)) == Plans(xs, s, o)
  {
    TakeThroughFailureAllOk(Plans(xs, s, o));
  }

  /** The initialisation loop's state after its last turn, when every plan succeeded. */
  lemma InitialiseLoopDone(xs: seq<Extension>, s: Services, o: seq<Extension>, start: seq<Event>, now: seq<Event>)
    requires AllOk(Plans(xs[..|xs|], s, o))
    requires now == start + Plans(xs[..|xs|], s, o)
    ensures AllOk(Plans(xs, s, o)) && now == start + TakeThroughFailure(Plans(xs, s, o))
  {
    assert xs[..|xs|] == xs;
    InitialiseCompletes(xs, s, o);
  }

  /** The initialisation loop's state after the turn of the first extension whose plan fails. */
  lemma InitialiseLoopStops(xs: seq<Extension>, s: Services, o: seq<Extension>, i: nat,
                            start: seq<Event>, before: seq<Event>, now: seq<Event>)
    requires i < |xs|
    requires AllOk(Plans(xs[..i], s, o))
    requires !AllOk(Plan(xs[i], s, o))
    requires before == start + Plans(xs[..i], s, o)
    requires now == before + TakeThroughFailure(Plan(xs[i], s, o))
    ensures !AllOk(Plans(xs, s, o)) && now == start + TakeThroughFailure(Plans(xs, s, o))
  {
    InitialiseStopsAt(xs, s, o, i);
  }

  /** The initialisation loop's state after the turn of an extension whose plan succeeds. */
  lemma InitialiseLoopStep(xs: seq<Extension>, s: Services, o: seq<Extension>, i: nat,
                           start: seq<Event>, before: seq<Event>, now: seq<Event>)
    requires i < |xs|
    requires AllOk(Plans(xs[..i], s, o))
    requires AllOk(Plan(xs[i], s, o))
    requires before == start + Plans(xs[..i], s, o)
    requires now == before + TakeThroughFailure(Plan(xs[i], s, o))
    ensures AllOk(Plans(xs[..i + 1], s, o)) && now == start + Plans(xs[..i + 1], s, o)
  {
    var done, p := Plans(xs[..i], s, o), Plan(xs[i], s, o);
    PlansSnoc(xs, i, s, o);
    assert TakeThroughFailure(p) == p by {
      TakeThroughFailureAllOk(p);
    }
    assert now == start + (done + p);
    AllOkAppend(done, p);
  }

  /**
   * When the plan of the extension at position `i` is the first that fails,
   * initialisation runs the earlier plans in full and that one through its failure.
   */
  lemma InitialiseStopsAt(xs: seq<Extension>, s: Services, o: seq<Extension>, i: nat)
    requires i < |xs|
    requires AllOk(Plans(xs[..i], s, o))
    requires !AllOk(Plan(xs[i], s, o))
    ensures !AllOk(Plans(xs, s, o))
    ensures TakeThroughFailure(Plans(xs, s, o)) == Plans(xs[..i], s, o) + TakeThroughFailure(Plan(xs[i], s, o))
  {
    var done := Plans(xs[..i], s, o);
    var p := Plan(xs[i], s, o);
    var later := Plans(xs[i + 1..], s, o);
    assert Plans(xs, s, o) == done + (p + later) by {
      assert xs == xs[..i] + ([xs[i]] + xs[i + 1..]);
      PlansAppend(xs[..i], [xs[i]] + xs[i + 1..], s, o);
      assert ([xs[i]] + xs[i + 1..])[1..] == xs[i + 1..];
    }
    TakeThroughFailureAppend(done, p + later);
    TakeThroughFailureAppend(p, later);
    AllOkAppend(done, p + later);
    AllOkAppend(p, later);
  }

  /**
   * `dispose` calls `dispose` exactly once on every discovered extension, in
   * discovery order, whatever any of them returns; with nothing discovered it calls nothing.
   */
  lemma DisposeTraceAll(xs: seq<Extension>)
    ensures |DisposeTrace(xs)| == |xs|
    ensures Subjects(DisposeTrace(xs)) == xs
    ensures forall k :: 0 <= k < |xs| ==> DisposeTrace(xs)[k].Called? && DisposeTrace(xs)[k].call == Dispose
    ensures xs == [] ==> DisposeTrace(xs) == []
  {
    assert Subjects(DisposeTrace(xs)) == xs;
  }

  /** Every step of initialising `xs` concerns an extension of `xs`. */
  lemma {:induction false} PlansSubjects(xs: seq<Extension>, s: Services, o: seq<Extension>)
    ensures forall k :: 0 <= k < |Plans(xs, s, o)| ==> Subject(Plans(xs, s, o)[k]) in xs
  {
    if xs != [] {
      PlansSubjects(xs[1..], s, o);
      PlanShape(xs[0], s, o);
      var p, rest := Plan(xs[0], s, o), Plans(xs[1..], s, o);
      forall k | 0 <= k < |p + rest| ensures Subject((p + rest)[k]) in xs {
        if k < |p| {
          assert (p + rest)[k] == p[k];
        } else {
          assert (p + rest)[k] == rest[k - |p|];
          assert Subject(rest[k - |p|]) in xs[1..];
        }
      }
    }
  }

  /**
   * An initialisation that fails on the extension at position `i` makes no call and
   * no registration for any extension after `i`: every step concerns one of `xs[..i + 1]`.
   */
  lemma InitialiseSubjects(xs: seq<Extension>, s: Services)
    ensures var i, t := FirstFailingPlan(xs, s, xs), InitialiseTrace(xs, s);
      forall k :: 0 <= k < |t| ==> Subject(t[k]) in xs[..if i < |xs| then i + 1 else |xs|]
  {
    var i, t := FirstFailingPlan(xs, s, xs), InitialiseTrace(xs, s);
    InitialiseShape(xs, s, xs);
    if i == |xs| {
      PlansSubjects(xs, s, xs);
      assert xs[..|xs|] == xs;
    } else {
      var done, p := Plans(xs[..i], s, xs), Plan(xs[i], s, xs);
      PlansSubjects(xs[..i], s, xs);
      PlanShape(xs[i], s, xs);
      TakeThroughFailurePrefix(p);
      var r := TakeThroughFailure(p);
      forall k | 0 <= k < |t| ensures Subject(t[k]) in xs[..i + 1] {
        if k < |done| {
          assert t[k] == done[k];
          assert Subject(done[k]) in xs[..i];
        } else {
          assert t[k] == r[k - |done|] == p[k - |done|];
          assert xs[..i + 1][i] == xs[i];
        }
      }
    }
  }

  /** The number of registrations of listener adapters among `evs`. */
  function AdapterCount(evs: seq<Event>): nat
  {
    if evs == [] then 0
    else (if evs[0].Registered? && evs[0].listener.Adapter? then 1 else 0) + AdapterCount(evs[1..])
  }

  /** The number of extensions of `xs` that implement `c`. */
  function CountCapable(xs: seq<Extension>, c: Capability): nat
  {
    if xs == [] then 0 else (if c in xs[0].capabilities then 1 else 0) + CountCapable(xs[1..], c)
  }

  lemma {:induction false} AdapterCountAppend(a: seq<Event>, b: seq<Event>)
    ensures AdapterCount(a + b) == AdapterCount(a) + AdapterCount(b)
  {
    if a == [] {
      assert a + b == b;
    } else {
      assert (a + b)[0] == a[0];
      assert (a + b)[1..] == a[1..] + b;
      AdapterCountAppend(a[1..], b);
    }
  }

  lemma {:induction false} AdapterCountOfRegistrations(evs: seq<Event>)
    ensures AdapterCount(Registrations(evs)) == AdapterCount(evs)
  {
    if evs != [] {
      AdapterCountOfRegistrations(evs[1..]);
      var head := if evs[0].Registered? then [evs[0]] else [];
      AdapterCountAppend(head, Registrations(evs[1..]));
    }
  }

  /** Initialising one extension registers two adapters when it listens to artifact deployments, none otherwise. */
  lemma PlanAdapterCount(e: Extension, s: Services, o: seq<Extension>)
    ensures AdapterCount(Plan(e, s, o)) == if ArtifactDeploymentListener in e.capabilities then 2 else 0
  {
    PlanRegistrations(e, s, o);
    AdapterCountOfRegistrations(Plan(e, s, o));
    var d := s.deployment;
    var adapters := if ArtifactDeploymentListener in e.capabilities
      then [Registered(d, AddDeploymentListener, Adapter(e, App), d.Some?),
            Registered(d, AddDomainDeploymentListener, Adapter(e, Domain), d.Some?)]
      else [];
    var direct := if DeploymentListener in e.capabilities
      then [Registered(d, AddDeploymentListener, Direct(e), d.Some?)] else [];
    AdapterCountAppend(adapters, direct);
    if adapters != [] {
      assert adapters[1..][1..] == [];
    }
  }

  /**
   * The plans of a list of extensions hold exactly two listener adapters per extension
   * that listens to artifact deployments; every step of them
   * succeeds exactly when initialisation passes (see `InitialiseAdapterCount`).
   */
  lemma {:induction false} PlansAdapterCount(xs: seq<Extension>, s: Services, o: seq<Extension>)
    ensures AdapterCount(Plans(xs, s, o)) == 2 * CountCapable(xs, ArtifactDeploymentListener)
  {
    if xs != [] {
      PlansAdapterCount(xs[1..], s, o);
      PlanAdapterCount(xs[0], s, o);
      AdapterCountAppend(Plan(xs[0], s, o), Plans(xs[1..], s, o));
    }
  }

  /**
   * An initialisation of the resolved list `xs` that passes registers exactly two
   * listener adapters per extension that listens to artifact deployments.
   */
  lemma InitialiseAdapterCount(xs: seq<Extension>, s: Services)
    requires AllOk(Plans(xs, s, xs))
    ensures AdapterCount(InitialiseTrace(xs, s)) == 2 * CountCapable(xs, ArtifactDeploymentListener)
  {
    InitialiseCompletes(xs, s, xs);
    PlansAdapterCount(xs, s, xs);
  }

  /** The plans of `xs` are the plans before position `i`, then `xs[i]`'s, then the rest. */
  lemma PlanInPlans(xs: seq<Extension>, i: nat, s: Services, o: seq<Extension>)
    requires i < |xs|
    ensures Plans(xs, s, o) == Plans(xs[..i], s, o) + Plan(xs[i], s, o) + Plans(xs[i + 1..], s, o)
  {
    assert xs == xs[..i + 1] + xs[i + 1..];
    PlansAppend(xs[..i + 1], xs[i + 1..], s, o);
    PlansSnoc(xs, i, s, o);
  }

  /**
   * In an initialisation that passes, every core-extensions-aware extension of the
   * resolved list is handed that very list, which therefore contains the extension itself.
   */
  lemma CoreExtensionsAwareSeesItself(xs: seq<Extension>, s: Services, e: Extension)
    requires AllOk(Plans(xs, s, xs))
    requires e in xs && CoreExtensionsAware in e.capabilities
    ensures Called(e, SetCoreExtensions, ExtensionsArgument(xs), true) in InitialiseTrace(xs, s)
  {
    var i :| 0 <= i < |xs| && xs[i] == e;
    InitialiseCompletes(xs, s, xs);
    PlanInPlans(xs, i, s, xs);
    var pre, p, t := Plans(xs[..i], s, xs), Plan(e, s, xs), Plans(xs, s, xs);
    PlanInjections(e, s, xs, SetCoreExtensions);
    assert Injections(p, SetCoreExtensions) == [ExtensionsArgument(xs)];
    InjectionsWitness(p, SetCoreExtensions, ExtensionsArgument(xs));
    var k :| 0 <= k < |p| && p[k].Called? && p[k].call == SetCoreExtensions
             && p[k].argument == ExtensionsArgument(xs);
    PlanShape(e, s, xs);
    assert Subject(p[k]) == e;
    assert t[|pre| + k] == p[k];
  }
}
