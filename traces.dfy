/**
 * Fail-fast execution of a planned sequence of steps: the steps run in order and
 * the first one that throws is the last one that runs.
 */
module Traces {
  import opened Extensions

  /** Every step in `evs` returned normally. */
  predicate AllOk(evs: seq<Event>)
  {
    forall k :: 0 <= k < |evs| ==> evs[k].ok
  }

  /** The position of the first step that throws, or `|evs|` when none does. */
  function FirstFailure(evs: seq<Event>): (i: nat)
    ensures i <= |evs|
    ensures forall k :: 0 <= k < i ==> evs[k].ok
    ensures i < |evs| ==> !evs[i].ok
  {
    if evs == [] then 0
    else if !evs[0].ok then 0
    else 1 + FirstFailure(evs[1..])
  }

  /**
   * The steps that actually run when `evs` is executed fail-fast: everything up
   * to and including the first step that throws.
   */
  function TakeThroughFailure(evs: seq<Event>): seq<Event>
  {
    if evs == [] then []
    else if !evs[0].ok then [evs[0]]
    else [evs[0]] + TakeThroughFailure(evs[1..])
  }

  /** Fail-fast execution runs exactly the prefix of the plan that ends at its first failure. */
  lemma {:induction false} TakeThroughFailurePrefix(evs: seq<Event>)
    ensures var r := TakeThroughFailure(evs);
      && |r| == (if FirstFailure(evs) < |evs| then FirstFailure(evs) + 1 else |evs|)
      && r == evs[..|r|]
  {
    if evs != [] && evs[0].ok {
      TakeThroughFailurePrefix(evs[1..]);
      assert evs == [evs[0]] + evs[1..];
    }
  }

  /** The position of the first failure is determined by its two defining properties. */
  lemma {:induction false} FirstFailureUnique(evs: seq<Event>, i: nat)
    requires i <= |evs|
    requires forall k :: 0 <= k < i ==> evs[k].ok
    requires i < |evs| ==> !evs[i].ok
    ensures FirstFailure(evs) == i
  {
    if i > 0 {
      FirstFailureUnique(evs[1..], i - 1);
    }
  }

  lemma TakeThroughFailureSingle(ev: Event)
    ensures TakeThroughFailure([ev]) == [ev]
  {
    assert [ev][1..] == [];
  }

  /** Fail-fast execution runs the whole plan exactly when no step of it throws. */
  lemma TakeThroughFailureAllOk(evs: seq<Event>)
    ensures AllOk(TakeThroughFailure(evs)) <==> AllOk(evs)
    ensures AllOk(evs) ==> TakeThroughFailure(evs) == evs
  {
    TakeThroughFailurePrefix(evs);
    var r := TakeThroughFailure(evs);
    var i := FirstFailure(evs);
    if i < |evs| {
      assert r[i] == evs[i];
    }
  }

  /** When a step throws, the last step that runs is the first failing one. */
  lemma TakeThroughFailureLast(evs: seq<Event>)
    requires !AllOk(evs)
    ensures FirstFailure(evs) < |evs|
    ensures var r := TakeThroughFailure(evs);
      r != [] && r[|r| - 1] == evs[FirstFailure(evs)] && !r[|r| - 1].ok
      && AllOk(r[..|r| - 1])
  {
    TakeThroughFailurePrefix(evs);
  }

  lemma AllOkAppend(a: seq<Event>, b: seq<Event>)
    ensures AllOk(a + b) <==> AllOk(a) && AllOk(b)
  {
    if AllOk(a + b) {
      forall k | 0 <= k < |a| ensures a[k].ok {
        assert (a + b)[k] == a[k];
      }
      forall k | 0 <= k < |b| ensures b[k].ok {
        assert (a + b)[|a| + k] == b[k];
      }
    }
  }

  /** A non-empty plan ran without failure exactly when the last step that ran returned normally. */
  lemma TakeThroughFailureEndsOk(evs: seq<Event>)
    requires evs != []
    ensures var r := TakeThroughFailure(evs); r != [] && (AllOk(evs) <==> r[|r| - 1].ok)
  {
    TakeThroughFailureAllOk(evs);
    if !AllOk(evs) {
      TakeThroughFailureLast(evs);
    }
  }

  /** A run that appended the fail-fast execution of a non-empty plan ended well exactly when its last step did. */
  lemma FailFastOutcome(start: seq<Event>, plan: seq<Event>, after: seq<Event>)
    requires plan != [] && after == start + TakeThroughFailure(plan)
    ensures |after| > |start| && (AllOk(plan) <==> after[|after| - 1].ok)
  {
    TakeThroughFailureEndsOk(plan);
    var r := TakeThroughFailure(plan);
    assert after[|after| - 1] == r[|r| - 1];
  }

  /** Running `a + b` fail-fast runs `b` only when all of `a` returned normally. */
  lemma {:induction false} TakeThroughFailureAppend(a: seq<Event>, b: seq<Event>)
    ensures TakeThroughFailure(a + b) ==
      if AllOk(a) then a + TakeThroughFailure(b) else TakeThroughFailure(a)
  {
    if a == [] {
      assert a + b == b;
    } else {
      assert (a + b)[0] == a[0];
      assert (a + b)[1..] == a[1..] + b;
      if a[0].ok {
        TakeThroughFailureAppend(a[1..], b);
        assert AllOk(a) <==> AllOk(a[1..]) by {
          if AllOk(a[1..]) {
            forall k | 0 <= k < |a| ensures a[k].ok {
              if k > 0 { assert a[k] == a[1..][k - 1]; }
            }
          }
        }
        assert a == [a[0]] + a[1..];
      } else {
        assert !AllOk(a);
      }
    }
  }
}
