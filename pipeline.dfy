/**
 * The Pipeline builder and executor: an append-only list of steps, each
 * wrapped at registration time in the middleware registered so far, and
 * an execution that threads one value through the steps.
 */
module Pipelines {
  import opened Steps

  /**
   * `steps[i]` is `raw[i]` wrapped in `applied[i]`, and every `applied[i]`
   * is a prefix of the middleware list `mws`.
   */
  ghost predicate WrappedBy<T, E>(steps: seq<Step<T, E>>, raw: seq<Step<T, E>>,
                                  applied: seq<seq<Middleware<T, E>>>, mws: seq<Middleware<T, E>>)
  {
    |raw| == |steps| && |applied| == |steps| &&
    forall i :: 0 <= i < |steps| ==>
      applied[i] <= mws && steps[i] == ComposeMw(applied[i], raw[i])
  }

  /** Registering a middleware keeps every earlier step's middleware list a prefix of the new list. */
  lemma WrappedByUse<T, E>(steps: seq<Step<T, E>>, raw: seq<Step<T, E>>,
                           applied: seq<seq<Middleware<T, E>>>, mws: seq<Middleware<T, E>>, mw: Middleware<T, E>)
    requires WrappedBy(steps, raw, applied, mws)
    ensures WrappedBy(steps, raw, applied, mws + [mw])
  {
    forall i | 0 <= i < |steps|
      ensures applied[i] <= mws + [mw]
    {
      assert (mws + [mw])[..|applied[i]|] == mws[..|applied[i]|];
    }
  }

  /** Registering a step wrapped in the whole current middleware list keeps the relation. */
  lemma WrappedByThen<T, E>(steps: seq<Step<T, E>>, raw: seq<Step<T, E>>,
                            applied: seq<seq<Middleware<T, E>>>, mws: seq<Middleware<T, E>>, step: Step<T, E>)
    requires WrappedBy(steps, raw, applied, mws)
    ensures WrappedBy(steps + [ComposeMw(mws, step)], raw + [step], applied + [mws], mws)
  {
    var steps', raw', applied' := steps + [ComposeMw(mws, step)], raw + [step], applied + [mws];
    forall i | 0 <= i < |steps'|
      ensures applied'[i] <= mws && steps'[i] == ComposeMw(applied'[i], raw'[i])
    {
      if i < |steps| {
        assert steps'[i] == steps[i] && raw'[i] == raw[i] && applied'[i] == applied[i];
      }
    }
  }

  class Pipeline<T, E> {
    /** The registered steps, each already wrapped in its middleware. */
    var steps: seq<Step<T, E>>
    /** The registered middleware, in registration order. */
    var middlewares: seq<Middleware<T, E>>

    /** Each stored step as it was handed to Then, before wrapping. */
    ghost var raw: seq<Step<T, E>>
    /** The middleware list as it stood when each step was registered. */
    ghost var applied: seq<seq<Middleware<T, E>>>

    /**
     * Every stored step is its raw step wrapped in the middleware that was
     * registered before it, and that middleware list is still a prefix of
     * the current one: later registrations never reach earlier steps.
     */
    ghost predicate Valid()
      reads this
    {
      WrappedBy(steps, raw, applied, middlewares)
    }

    /** New: an empty pipeline. */
    constructor ()
      ensures Valid()
      ensures steps == [] && middlewares == []
    {
      steps := [];
      middlewares := [];
      raw := [];
      applied := [];
    }

    /** Registers `mw` for every step registered from now on; returns this pipeline. */
    method Use(mw: Middleware<T, E>) returns (p: Pipeline<T, E>)
      requires Valid()
      modifies this
      ensures p == this && Valid()
      ensures middlewares == old(middlewares) + [mw]
      ensures steps == old(steps)
      ensures raw == old(raw) && applied == old(applied)
    {
      WrappedByUse(steps, raw, applied, middlewares, mw);
      middlewares := middlewares + [mw];
      p := this;
    }

    /**
     * Wraps `step` in the current middleware, from the last registered to
     * the first, so the first registered ends up outermost, and appends it;
     * returns this pipeline.
     */
    method Then(step: Step<T, E>) returns (p: Pipeline<T, E>)
      requires Valid()
      modifies this
      ensures p == this && Valid()
      ensures middlewares == old(middlewares)
      ensures steps == old(steps) + [ComposeMw(middlewares, step)]
      ensures raw == old(raw) + [step] && applied == old(applied) + [middlewares]
    {
      var mws := middlewares;
      var s := step;
      var i := |mws| - 1;
      while i >= 0
        invariant -1 <= i < |mws|
        invariant s == ComposeMw(mws[i + 1..], step)
        invariant unchanged(this)
      {
        ComposeMwUnfold(mws, i, step);
        s := mws[i](s);
        i := i - 1;
      }
      assert mws[0..] == mws;
      WrappedByThen(steps, raw, applied, mws, step);
      steps := steps + [s];
      raw := raw + [step];
      applied := applied + [middlewares];
      p := this;
    }

    /**
     * Runs the steps in order on `input`; stops at the first step that
     * reports an error and returns that step's output with the error.
     */
    method Execute(input: T) returns (out: T, err: Option<E>)
      ensures Out(out, err) == Run(steps, input)
      ensures steps == [] ==> out == input && err == None
    {
      var curr := input;
      for i := 0 to |steps|
        invariant Run(steps[i..], curr) == Run(steps, input)
      {
        assert steps[i..][1..] == steps[i + 1..];
        var o := steps[i](curr);
        curr, err := o.value, o.err;
        if err.Some? {
          return curr, err;
        }
      }
      return curr, None;
    }
  }
}
