/** How the bootstrap runs a sequence of collaborator calls: one after another,
    with no `catch`. The first call that throws ends the sequence, its exception
    reaches the caller, and the calls already made stay made (no rollback).
    This is the behaviour of `List.forEach` with a lambda that does not catch,
    and of the straight-line bodies of `start()` and `stop()`. */
module Execution {
  import opened Calls

  /** The calls actually made, and the exception that ended the run, if any. */
  datatype Attempt = Attempt(made: seq<Event>, failure: Option<Failure>)

  /** Index of the first call of `plan` that throws; |plan| when none does. */
  function FirstThrow(env: Env, plan: seq<Event>): (k: nat)
    ensures k <= |plan|
  {
    if plan == [] then 0
    else if Throws(env, plan[0]) then 0
    else 1 + FirstThrow(env, plan[1..])
  }

  /** No call before `FirstThrow` throws, and the call at it does. */
  lemma {:induction false} FirstThrowSpec(env: Env, plan: seq<Event>)
    ensures forall i | 0 <= i < FirstThrow(env, plan) :: !Throws(env, plan[i])
    ensures FirstThrow(env, plan) < |plan| ==> Throws(env, plan[FirstThrow(env, plan)])
  {
    if plan != [] && !Throws(env, plan[0]) {
      FirstThrowSpec(env, plan[1..]);
      assert forall i | 1 <= i < |plan| :: plan[i] == plan[1..][i - 1];
    }
  }

  /** Makes the calls of `plan` in order until one throws. */
  function Run(env: Env, plan: seq<Event>): (a: Attempt)
    ensures |a.made| <= |plan| && a.made == plan[..|a.made|]
  {
    if plan == [] then Attempt([], None)
    else if Throws(env, plan[0]) then Attempt([plan[0]], Some(Raised(plan[0])))
    else
      var rest := Run(env, plan[1..]);
      Attempt([plan[0]] + rest.made, rest.failure)
  }

  /** A run makes the calls up to and including the first that throws, and
      ends with that call's exception; with no throwing call it makes them all. */
  lemma {:induction false} RunSpec(env: Env, plan: seq<Event>)
    ensures var k := FirstThrow(env, plan);
            if k < |plan| then Run(env, plan) == Attempt(plan[..k + 1], Some(Raised(plan[k])))
            else Run(env, plan) == Attempt(plan, None)
  {
    if plan != [] && !Throws(env, plan[0]) {
      RunSpec(env, plan[1..]);
      assert [plan[0]] + plan[1..] == plan;
      var k := FirstThrow(env, plan[1..]);
      if k < |plan| - 1 {
        assert [plan[0]] + plan[1..][..k + 1] == plan[..k + 2];
      }
    }
  }

  /** Running two plans back to back, the second only if the first completed,
      is running their concatenation. */
  lemma {:induction false} RunAppend(env: Env, p: seq<Event>, q: seq<Event>)
    ensures Run(env, p).failure.Some? ==> Run(env, p + q) == Run(env, p)
    ensures Run(env, p).failure.None? ==>
              Run(env, p + q) == Attempt(p + Run(env, q).made, Run(env, q).failure)
  {
    if p == [] {
      assert p + q == q;
    } else {
      var rest := p[1..];
      assert p == [p[0]] + rest;
      assert p + q == [p[0]] + (rest + q);
      RunCons(env, p[0], rest);
      RunCons(env, p[0], rest + q);
      if !Throws(env, p[0]) {
        RunAppend(env, rest, q);
        if Run(env, rest).failure.None? {
          assert [p[0]] + (rest + Run(env, q).made) == p + Run(env, q).made;
        }
      }
    }
  }

  /** How `Run` unfolds on a plan with a first call. */
  lemma RunCons(env: Env, e: Event, rest: seq<Event>)
    ensures Throws(env, e) ==> Run(env, [e] + rest) == Attempt([e], Some(Raised(e)))
    ensures !Throws(env, e) ==>
              Run(env, [e] + rest) == Attempt([e] + Run(env, rest).made, Run(env, rest).failure)
  {
    assert ([e] + rest)[0] == e;
    assert ([e] + rest)[1..] == rest;
  }

  /** One unit's share of a bulk operation: calls that cannot throw (binding
      the unit to the bootstrap), then the one call that can. */
  datatype Step = Step(setup: seq<Event>, call: Event)

  /** The calls of `steps`, in order. */
  function Flatten(steps: seq<Step>): seq<Event>
  {
    if steps == [] then [] else steps[0].setup + [steps[0].call] + Flatten(steps[1..])
  }

  /** The one call of each step that can throw. */
  function CallsOf(steps: seq<Step>): (calls: seq<Event>)
    ensures |calls| == |steps|
  {
    if steps == [] then [] else [steps[0].call] + CallsOf(steps[1..])
  }

  /** The i-th call of `CallsOf(steps)` is the call of step i. */
  lemma {:induction false} CallsOfSpec(steps: seq<Step>)
    ensures forall i | 0 <= i < |steps| :: CallsOf(steps)[i] == steps[i].call
  {
    if steps != [] {
      CallsOfSpec(steps[1..]);
      assert forall i | 1 <= i < |steps| :: steps[i] == steps[1..][i - 1];
    }
  }

  /** No setup call of any step throws. */
  predicate SafeSetups(env: Env, steps: seq<Step>)
  {
    forall i, j | 0 <= i < |steps| && 0 <= j < |steps[i].setup| :: !Throws(env, steps[i].setup[j])
  }

  /** The number of steps a run of `steps` begins: all of them, or up to and
      including the one whose call throws. */
  function Reached(env: Env, steps: seq<Step>): (n: nat)
    ensures n <= |steps|
  {
    var k := FirstThrow(env, CallsOf(steps));
    if k < |steps| then k + 1 else |steps|
  }

  /** The exception a run of `steps` ends with: that of the first step whose
      call throws, or none. */
  function FailureOf(env: Env, steps: seq<Step>): (f: Option<Failure>)
  {
    var k := FirstThrow(env, CallsOf(steps));
    if k < |steps| then Some(Raised(steps[k].call)) else None
  }

  /** A plan none of whose calls throws runs to completion. */
  lemma RunSafe(env: Env, plan: seq<Event>)
    requires forall i | 0 <= i < |plan| :: !Throws(env, plan[i])
    ensures Run(env, plan) == Attempt(plan, None)
  {
    RunSpec(env, plan);
    FirstThrowIs(env, plan, |plan|);
  }

  /** A single call: made, and its exception if it throws. */
  lemma RunOne(env: Env, e: Event)
    ensures Run(env, [e]) == Attempt([e], if Throws(env, e) then Some(Raised(e)) else None)
  {
    RunCons(env, e, []);
  }

  /** A call that cannot throw, then one that can: both made, and the second
      one's exception if it throws. */
  lemma RunBindThen(env: Env, b: Event, e: Event)
    requires b.IsBind()
    ensures Run(env, [b, e]) == Attempt([b, e], if Throws(env, e) then Some(Raised(e)) else None)
  {
    assert [b, e] == [b] + [e];
    RunCons(env, b, [e]);
    RunOne(env, e);
  }

  lemma FlattenCons(s: Step, steps: seq<Step>)
    ensures Flatten([s] + steps) == s.setup + ([s.call] + Flatten(steps))
  {
    assert ([s] + steps)[1..] == steps;
  }

  /** How `Reached` and `FailureOf` unfold on a non-empty list of steps. */
  lemma ReachedCons(env: Env, s: Step, tail: seq<Step>)
    ensures Throws(env, s.call) ==>
              Reached(env, [s] + tail) == 1 && FailureOf(env, [s] + tail) == Some(Raised(s.call))
    ensures !Throws(env, s.call) ==>
              Reached(env, [s] + tail) == 1 + Reached(env, tail) &&
              FailureOf(env, [s] + tail) == FailureOf(env, tail)
  {
    var steps := [s] + tail;
    assert steps[1..] == tail;
    assert CallsOf(steps) == [s.call] + CallsOf(tail);
    assert CallsOf(steps)[1..] == CallsOf(tail);
  }

  /** A step whose setup cannot throw contributes its setup and its call, and
      then the run continues only if the call did not throw. */
  lemma RunStep(env: Env, s: Step, rest: seq<Event>)
    requires forall j | 0 <= j < |s.setup| :: !Throws(env, s.setup[j])
    ensures Throws(env, s.call) ==>
              Run(env, s.setup + ([s.call] + rest)) == Attempt(s.setup + [s.call], Some(Raised(s.call)))
    ensures !Throws(env, s.call) ==>
              Run(env, s.setup + ([s.call] + rest)) ==
              Attempt(s.setup + ([s.call] + Run(env, rest).made), Run(env, rest).failure)
  {
    RunSafe(env, s.setup);
    RunAppend(env, s.setup, [s.call] + rest);
    RunAppend(env, [s.call], rest);
  }

  /** A run of a bulk operation makes the calls of exactly its first
      `Reached` steps, in order, and ends with the exception of the first
      step whose call throws. */
  lemma {:induction false} RunSteps(env: Env, steps: seq<Step>)
    requires SafeSetups(env, steps)
    ensures Run(env, Flatten(steps)) ==
            Attempt(Flatten(steps[..Reached(env, steps)]), FailureOf(env, steps))
  {
    if steps == [] {
      assert Flatten(steps) == [];
    } else {
      var s := steps[0];
      var tail := steps[1..];
      assert steps == [s] + tail;
      assert forall j | 0 <= j < |s.setup| :: !Throws(env, s.setup[j]) by {
        assert s == steps[0];
      }
      if Throws(env, s.call) {
        RunStepsThrowing(env, s, tail);
      } else {
        assert SafeSetups(env, tail) by {
          forall i, j | 0 <= i < |tail| && 0 <= j < |tail[i].setup|
            ensures !Throws(env, tail[i].setup[j])
          {
            assert tail[i] == steps[i + 1];
          }
        }
        RunSteps(env, tail);
        RunStepsContinuing(env, s, tail);
      }
    }
  }

  lemma RunStepsThrowing(env: Env, s: Step, tail: seq<Step>)
    requires forall j | 0 <= j < |s.setup| :: !Throws(env, s.setup[j])
    requires Throws(env, s.call)
    ensures Run(env, Flatten([s] + tail)) ==
            Attempt(Flatten(([s] + tail)[..Reached(env, [s] + tail)]), FailureOf(env, [s] + tail))
  {
    ReachedCons(env, s, tail);
    FlattenCons(s, tail);
    RunStep(env, s, Flatten(tail));
    assert ([s] + tail)[..1] == [s] + [];
    FlattenCons(s, []);
  }

  lemma RunStepsContinuing(env: Env, s: Step, tail: seq<Step>)
    requires forall j | 0 <= j < |s.setup| :: !Throws(env, s.setup[j])
    requires !Throws(env, s.call)
    requires Run(env, Flatten(tail)) ==
             Attempt(Flatten(tail[..Reached(env, tail)]), FailureOf(env, tail))
    ensures Run(env, Flatten([s] + tail)) ==
            Attempt(Flatten(([s] + tail)[..Reached(env, [s] + tail)]), FailureOf(env, [s] + tail))
  {
    FlattenCons(s, tail);
    RunStep(env, s, Flatten(tail));
    BegunCons(env, s, tail);
  }

  /** A first step whose call does not throw is begun, and then what the
      rest begins. */
  lemma BegunCons(env: Env, s: Step, tail: seq<Step>)
    requires !Throws(env, s.call)
    ensures Flatten(([s] + tail)[..Reached(env, [s] + tail)]) == s.setup + ([s.call] + Flatten(tail[..Reached(env, tail)]))
    ensures FailureOf(env, [s] + tail) == FailureOf(env, tail)
  {
    var n := Reached(env, tail);
    ReachedCons(env, s, tail);
    assert ([s] + tail)[..n + 1] == [s] + tail[..n];
    FlattenCons(s, tail[..n]);
  }

  /** Where the first throwing call of a concatenation is. */
  lemma {:induction false} FirstThrowAppend(env: Env, p: seq<Event>, q: seq<Event>)
    ensures FirstThrow(env, p + q) ==
            if FirstThrow(env, p) < |p| then FirstThrow(env, p) else |p| + FirstThrow(env, q)
  {
    if p != [] {
      assert (p + q)[0] == p[0];
      assert (p + q)[1..] == p[1..] + q;
      FirstThrowAppend(env, p[1..], q);
    } else {
      assert p + q == q;
    }
  }

  lemma {:induction false} FlattenAppend(a: seq<Step>, b: seq<Step>)
    ensures Flatten(a + b) == Flatten(a) + Flatten(b)
  {
    if a == [] {
      assert a + b == b;
    } else {
      assert (a + b)[0] == a[0];
      assert (a + b)[1..] == a[1..] + b;
      FlattenAppend(a[1..], b);
    }
  }

  /** The first step of `a + b` whose call throws. */
  lemma FirstFailingAppend(env: Env, a: seq<Step>, b: seq<Step>)
    ensures var k := FirstThrow(env, CallsOf(a));
            FirstThrow(env, CallsOf(a + b)) == if k < |a| then k else |a| + FirstThrow(env, CallsOf(b))
  {
    CallsOfAppend(a, b);
    FirstThrowAppend(env, CallsOf(a), CallsOf(b));
  }

  /** A run of `a + b` begins the steps of `a` and, only if none of their
      calls throws, the steps of `b`. */
  lemma ReachedAppend(env: Env, a: seq<Step>, b: seq<Step>)
    ensures FailureOf(env, a).Some? ==>
              Reached(env, a + b) == Reached(env, a) && FailureOf(env, a + b) == FailureOf(env, a)
    ensures FailureOf(env, a).None? ==>
              Reached(env, a + b) == |a| + Reached(env, b) && FailureOf(env, a + b) == FailureOf(env, b)
  {
    FirstFailingAppend(env, a, b);
    var k := FirstThrow(env, CallsOf(a));
    if k < |a| {
      FailureAppendFailed(env, a, b, k);
    } else {
      FailureAppendCompleted(env, a, b);
    }
  }

  lemma FailureAppendFailed(env: Env, a: seq<Step>, b: seq<Step>, k: nat)
    requires k < |a| && FirstThrow(env, CallsOf(a)) == k
    requires FirstThrow(env, CallsOf(a + b)) == k
    ensures Reached(env, a + b) == Reached(env, a) && FailureOf(env, a + b) == FailureOf(env, a)
  {
    assert (a + b)[k] == a[k];
  }

  lemma FailureAppendCompleted(env: Env, a: seq<Step>, b: seq<Step>)
    requires FirstThrow(env, CallsOf(a)) == |a|
    requires FirstThrow(env, CallsOf(a + b)) == |a| + FirstThrow(env, CallsOf(b))
    ensures Reached(env, a + b) == |a| + Reached(env, b) && FailureOf(env, a + b) == FailureOf(env, b)
  {
    var kb := FirstThrow(env, CallsOf(b));
    if kb < |b| {
      assert (a + b)[|a| + kb] == b[kb];
    }
  }

  lemma CallsOfAppend(a: seq<Step>, b: seq<Step>)
    ensures CallsOf(a + b) == CallsOf(a) + CallsOf(b)
  {
    CallsOfSpec(a);
    CallsOfSpec(b);
    CallsOfSpec(a + b);
    var c := CallsOf(a) + CallsOf(b);
    assert forall i | 0 <= i < |a| + |b| :: c[i] == (a + b)[i].call;
  }

  /** The steps begun by a run of `a + b`, split at the boundary. */
  lemma BegunAppend(env: Env, a: seq<Step>, b: seq<Step>)
    ensures FailureOf(env, a).Some? ==>
              Flatten((a + b)[..Reached(env, a + b)]) == Flatten(a[..Reached(env, a)])
    ensures FailureOf(env, a).None? ==>
              Flatten((a + b)[..Reached(env, a + b)]) == Flatten(a) + Flatten(b[..Reached(env, b)])
  {
    ReachedAppend(env, a, b);
    if FailureOf(env, a).Some? {
      assert (a + b)[..Reached(env, a)] == a[..Reached(env, a)];
    } else {
      assert (a + b)[..|a| + Reached(env, b)] == a + b[..Reached(env, b)];
      FlattenAppend(a, b[..Reached(env, b)]);
    }
  }

  /** When each step has exactly one setup call, the flattened plan
      alternates setup and call, step by step. */
  lemma {:induction false} FlattenPairs(steps: seq<Step>)
    requires forall i | 0 <= i < |steps| :: |steps[i].setup| == 1
    ensures |Flatten(steps)| == 2 * |steps|
    ensures forall i | 0 <= i < |steps| ::
              Flatten(steps)[2 * i] == steps[i].setup[0] && Flatten(steps)[2 * i + 1] == steps[i].call
  {
    if steps != [] {
      var tail := steps[1..];
      assert forall i | 0 <= i < |tail| :: tail[i] == steps[i + 1];
      FlattenPairs(tail);
      var f := Flatten(steps);
      assert f == [steps[0].setup[0], steps[0].call] + Flatten(tail);
      forall i | 0 <= i < |steps|
        ensures f[2 * i] == steps[i].setup[0] && f[2 * i + 1] == steps[i].call
      {
        if i > 0 {
          assert f[2 * i] == Flatten(tail)[2 * (i - 1)];
          assert f[2 * i + 1] == Flatten(tail)[2 * (i - 1) + 1];
        }
      }
    }
  }

  /** When no step has setup calls, the flattened plan is just the calls. */
  lemma {:induction false} FlattenCalls(steps: seq<Step>)
    requires forall i | 0 <= i < |steps| :: steps[i].setup == []
    ensures Flatten(steps) == CallsOf(steps)
  {
    if steps != [] {
      var tail := steps[1..];
      assert forall i | 0 <= i < |tail| :: tail[i] == steps[i + 1];
      FlattenCalls(tail);
      assert steps == [steps[0]] + tail;
      FlattenCons(steps[0], tail);
      assert CallsOf(steps) == [steps[0].call] + CallsOf(tail);
    }
  }

  /** `FirstThrow` is the only index with its two properties. */
  lemma FirstThrowIs(env: Env, plan: seq<Event>, k: nat)
    requires k <= |plan|
    requires forall i | 0 <= i < k :: !Throws(env, plan[i])
    requires k < |plan| ==> Throws(env, plan[k])
    ensures FirstThrow(env, plan) == k
  {
    FirstThrowSpec(env, plan);
  }

  /** A run with no throwing call begins every step. */
  lemma ReachedAll(env: Env, steps: seq<Step>)
    requires FailureOf(env, steps).None?
    ensures Reached(env, steps) == |steps|
    ensures steps[..Reached(env, steps)] == steps
  {
    FailureOfNone(env, steps);
  }

  /** A run ends without exception exactly when no step's call throws. */
  lemma FailureOfNone(env: Env, steps: seq<Step>)
    ensures FailureOf(env, steps).None? <==> forall i | 0 <= i < |steps| :: !Throws(env, steps[i].call)
  {
    FirstThrowSpec(env, CallsOf(steps));
    CallsOfSpec(steps);
  }

  /** The calls of the first `n` steps are a prefix of the calls of all steps. */
  lemma BegunIsPrefix(steps: seq<Step>, n: nat)
    requires n <= |steps|
    ensures |Flatten(steps[..n])| <= |Flatten(steps)|
    ensures Flatten(steps[..n]) == Flatten(steps)[..|Flatten(steps[..n])|]
  {
    assert steps == steps[..n] + steps[n..];
    FlattenAppend(steps[..n], steps[n..]);
  }
}
