/**
 * Steps and middleware, and the meaning of running a chain of steps.
 *
 * A step takes a value and returns a value together with an optional
 * error (Go's `(T, error)`, with `nil` as `None`). A middleware turns a
 * step into another step. `Run` is the reference meaning of executing a
 * list of steps: thread the value left to right and stop at the first
 * step that reports an error, returning that step's own output.
 */
module Steps {

  /** An optional error: `None` stands for Go's `nil`. */
  datatype Option<E> = None | Some(value: E)

  /** What a step returns: its output value and its error, if any. */
  datatype Out<T, E> = Out(value: T, err: Option<E>)

  /** A unit of work (StepFunc). Steps are pure and total. */
  type Step<!T, E> = T -> Out<T, E>

  /** A decorator of steps (Middleware). */
  type Middleware<!T, !E> = Step<T, E> -> Step<T, E>

  /**
   * `step` wrapped in every middleware of `mws`: `mws[0]` is the outermost
   * layer and the last of `mws` sits next to `step`, i.e.
   * mws[0](mws[1](... mws[n-1](step))).
   */
  function ComposeMw<T, E>(mws: seq<Middleware<T, E>>, step: Step<T, E>): Step<T, E>
    decreases |mws|
  {
    if mws == [] then step else mws[0](ComposeMw(mws[1..], step))
  }

  /** Peeling the outermost layer off the suffix of `mws` that starts at `i`. */
  lemma ComposeMwUnfold<T, E>(mws: seq<Middleware<T, E>>, i: nat, step: Step<T, E>)
    requires i < |mws|
    ensures ComposeMw(mws[i..], step) == mws[i](ComposeMw(mws[i + 1..], step))
  {
    assert mws[i..][1..] == mws[i + 1..];
  }

  /** A middleware registered after all of `mws` ends up innermost, right around the step. */
  lemma {:induction false} ComposeMwAppend<T, E>(mws: seq<Middleware<T, E>>, mw: Middleware<T, E>, step: Step<T, E>)
    ensures ComposeMw(mws + [mw], step) == ComposeMw(mws, mw(step))
    decreases |mws|
  {
    if mws == [] {
      assert mws + [mw] == [mw];
      assert [mw][1..] == [];
    } else {
      assert (mws + [mw])[1..] == mws[1..] + [mw];
      ComposeMwAppend(mws[1..], mw, step);
    }
  }

  /** Wrapping in `outer + inner` is wrapping in `inner` first and then in `outer` around it. */
  lemma {:induction false} ComposeMwConcat<T, E>(outer: seq<Middleware<T, E>>, inner: seq<Middleware<T, E>>, step: Step<T, E>)
    ensures ComposeMw(outer + inner, step) == ComposeMw(outer, ComposeMw(inner, step))
    decreases |outer|
  {
    if outer == [] {
      assert outer + inner == inner;
    } else {
      assert (outer + inner)[1..] == outer[1..] + inner;
      ComposeMwConcat(outer[1..], inner, step);
    }
  }

  /** Two middleware: the first registered is outside, the second inside. */
  lemma TwoMiddlewareNest<T, E>(a: Middleware<T, E>, b: Middleware<T, E>, step: Step<T, E>)
    ensures ComposeMw([a, b], step) == a(b(step))
  {
    ComposeMwAppend([a], b, step);
    assert [a] + [b] == [a, b];
    assert [a][1..] == [];
  }

  /**
   * Running `steps` on `x`: the value is threaded through the steps in
   * order; the first step that reports an error ends the run with that
   * step's own output and error. An empty list returns `x` with no error.
   */
  function Run<T, E>(steps: seq<Step<T, E>>, x: T): Out<T, E>
    decreases |steps|
  {
    if steps == [] then Out(x, None)
    else
      var o := steps[0](x);
      if o.err.Some? then o else Run(steps[1..], o.value)
  }

  /** Running a concatenation runs the first part and, unless it failed, the second on its result. */
  lemma {:induction false} RunAppend<T, E>(s1: seq<Step<T, E>>, s2: seq<Step<T, E>>, x: T)
    ensures Run(s1 + s2, x) == (var r := Run(s1, x); if r.err.Some? then r else Run(s2, r.value))
    decreases |s1|
  {
    if s1 == [] {
      assert s1 + s2 == s2;
    } else {
      assert (s1 + s2)[0] == s1[0];
      assert (s1 + s2)[1..] == s1[1..] + s2;
      var o := s1[0](x);
      if o.err.None? {
        RunAppend(s1[1..], s2, o.value);
      }
    }
  }

  /**
   * The value reaching the end of `steps` when every step's output is
   * passed on, errors or not: the left-to-right composition
   * steps[n-1](... steps[0](x)).
   */
  function Thread<T, E>(steps: seq<Step<T, E>>, x: T): T
    decreases |steps|
  {
    if steps == [] then x
    else steps[|steps| - 1](Thread(steps[..|steps| - 1], x)).value
  }

  /** What step `j` returns when it is handed the value the steps before it produce. */
  function StepAt<T, E>(steps: seq<Step<T, E>>, x: T, j: nat): Out<T, E>
    requires j < |steps|
  {
    steps[j](Thread(steps[..j], x))
  }

  /** Every step of `steps` reports no error on the value it receives. */
  ghost predicate AllSucceed<T, E>(steps: seq<Step<T, E>>, x: T)
  {
    forall j :: 0 <= j < |steps| ==> StepAt(steps, x, j).err.None?
  }

  /** Step `k` is the first to report an error. */
  ghost predicate FirstFailureAt<T, E>(steps: seq<Step<T, E>>, x: T, k: nat)
  {
    k < |steps| &&
    (forall j :: 0 <= j < k ==> StepAt(steps, x, j).err.None?) &&
    StepAt(steps, x, k).err.Some?
  }

  /** The first `k` steps behave inside `steps` as they do on their own. */
  lemma PrefixStepAt<T, E>(steps: seq<Step<T, E>>, x: T, k: nat, j: nat)
    requires j < k <= |steps|
    ensures StepAt(steps[..k], x, j) == StepAt(steps, x, j)
  {
    assert steps[..k][..j] == steps[..j];
  }

  /** When no step fails, running the steps is the left-to-right composition, without error. */
  lemma {:induction false} RunAllSucceed<T, E>(steps: seq<Step<T, E>>, x: T)
    requires AllSucceed(steps, x)
    ensures Run(steps, x) == Out(Thread(steps, x), None)
    decreases |steps|
  {
    if steps != [] {
      var n := |steps|;
      var p := steps[..n - 1];
      forall j | 0 <= j < |p|
        ensures StepAt(p, x, j).err.None?
      {
        PrefixStepAt(steps, x, n - 1, j);
      }
      RunAllSucceed(p, x);
      assert steps == p + [steps[n - 1]];
      RunAppend(p, [steps[n - 1]], x);
      assert StepAt(steps, x, n - 1).err.None?;
    }
  }

  /**
   * When step `k` is the first to fail, the run returns exactly step `k`'s
   * own output and error (not the value it was given).
   */
  lemma RunFirstFailure<T, E>(steps: seq<Step<T, E>>, x: T, k: nat)
    requires FirstFailureAt(steps, x, k)
    ensures Run(steps, x) == StepAt(steps, x, k)
  {
    var p := steps[..k];
    forall j | 0 <= j < |p|
      ensures StepAt(p, x, j).err.None?
    {
      PrefixStepAt(steps, x, k, j);
    }
    RunAllSucceed(p, x);
    assert steps == p + steps[k..];
    RunAppend(p, steps[k..], x);
    assert steps[k..][0] == steps[k];
  }

  /**
   * Steps after the first failing one are never invoked: whatever follows
   * step `k`, the run returns the same.
   */
  lemma LaterStepsIgnored<T, E>(steps: seq<Step<T, E>>, x: T, k: nat, later: seq<Step<T, E>>)
    requires FirstFailureAt(steps, x, k)
    ensures Run(steps[..k + 1] + later, x) == Run(steps, x)
  {
    var q := steps[..k + 1] + later;
    assert q[..k + 1] == steps[..k + 1];
    forall j | 0 <= j <= k
      ensures StepAt(q, x, j) == StepAt(steps, x, j)
    {
      PrefixStepAt(q, x, k + 1, j);
      PrefixStepAt(steps, x, k + 1, j);
    }
    RunFirstFailure(q, x, k);
    RunFirstFailure(steps, x, k);
  }

  /** A run ends without error exactly when no step reports one. */
  lemma {:induction false} RunSucceedsIff<T, E>(steps: seq<Step<T, E>>, x: T)
    ensures Run(steps, x).err.None? <==> AllSucceed(steps, x)
    decreases |steps|
  {
    if steps != [] {
      var n := |steps|;
      var p := steps[..n - 1];
      forall j | 0 <= j < |p|
        ensures StepAt(p, x, j) == StepAt(steps, x, j)
      {
        PrefixStepAt(steps, x, n - 1, j);
      }
      RunSucceedsIff(p, x);
      assert steps == p + [steps[n - 1]];
      RunAppend(p, [steps[n - 1]], x);
      if AllSucceed(p, x) {
        RunAllSucceed(p, x);
        assert StepAt(steps, x, n - 1) == steps[n - 1](Thread(p, x));
        assert AllSucceed(steps, x) <==> StepAt(steps, x, n - 1).err.None?;
      } else {
        assert !AllSucceed(steps, x);
      }
    }
  }
}
