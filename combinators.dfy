/**
 * Step constructors that need no pipeline: Wrap (lift a pure transform),
 * Conditional (route by a predicate) and Parallel (fan out to several
 * steps on the same input, then combine).
 */
module Combinators {
  import opened Steps

  /** Wrap: a step that applies `f` and never reports an error. */
  function Wrap<T, E>(f: T -> T): Step<T, E>
  {
    x => Out(f(x), None)
  }

  /** A wrapped transform returns `f(x)` and never an error. */
  lemma WrapNeverFails<T, E>(f: T -> T, x: T)
    ensures Wrap<T, E>(f)(x).value == f(x) && Wrap<T, E>(f)(x).err.None?
  {
  }

  /** Every transform of `fs`, lifted with Wrap, in order. */
  function WrapAll<T, E>(fs: seq<T -> T>): seq<Step<T, E>>
    decreases |fs|
  {
    if fs == [] then [] else [Wrap(fs[0])] + WrapAll(fs[1..])
  }

  /** The transforms of `fs` applied one after another to `x`, the first of them first. */
  function Fold<T>(fs: seq<T -> T>, x: T): T
    decreases |fs|
  {
    if fs == [] then x else Fold(fs[1..], fs[0](x))
  }

  /** A run of wrapped transforms never fails and yields their composition in registration order. */
  lemma {:induction false} RunWrapped<T, E>(fs: seq<T -> T>, x: T)
    ensures Run(WrapAll<T, E>(fs), x) == Out(Fold(fs, x), None)
    decreases |fs|
  {
    if fs != [] {
      var steps := WrapAll<T, E>(fs);
      assert steps[0] == Wrap(fs[0]);
      assert steps[1..] == WrapAll<T, E>(fs[1..]);
      RunWrapped<T, E>(fs[1..], fs[0](x));
    }
  }

  /** Conditional: a step that asks `p` and then behaves exactly as `thenStep` or as `elseStep`. */
  function Conditional<T, E>(p: T -> bool, thenStep: Step<T, E>, elseStep: Step<T, E>): Step<T, E>
  {
    x => if p(x) then thenStep(x) else elseStep(x)
  }

  /** Conditional adds nothing of its own: output and error are those of the chosen branch. */
  lemma ConditionalRoutes<T, E>(p: T -> bool, thenStep: Step<T, E>, elseStep: Step<T, E>, x: T)
    ensures p(x) ==> Conditional(p, thenStep, elseStep)(x) == thenStep(x)
    ensures !p(x) ==> Conditional(p, thenStep, elseStep)(x) == elseStep(x)
  {
  }

  /**
   * Inside a pipeline, a Conditional step is interchangeable with the
   * branch its predicate picks on the value that reaches it.
   */
  lemma ConditionalInRun<T, E>(pre: seq<Step<T, E>>, p: T -> bool, thenStep: Step<T, E>, elseStep: Step<T, E>,
                               post: seq<Step<T, E>>, x: T)
    requires Run(pre, x).err.None?
    ensures var v := Run(pre, x).value;
            Run(pre + [Conditional(p, thenStep, elseStep)] + post, x) ==
            (if p(v) then Run(pre + [thenStep] + post, x) else Run(pre + [elseStep] + post, x))
  {
    var v := Run(pre, x).value;
    var c := Conditional(p, thenStep, elseStep);
    forall s: Step<T, E> | s == c || s == thenStep || s == elseStep
      ensures Run(pre + [s] + post, x) == Run([s] + post, v)
    {
      assert pre + [s] + post == pre + ([s] + post);
      RunAppend(pre, [s] + post, x);
    }
    assert ([c] + post)[1..] == post;
    assert ([thenStep] + post)[1..] == post;
    assert ([elseStep] + post)[1..] == post;
  }

  /** The outputs of `steps`, each run on the same input `x`, slot `i` for step `i`. */
  function Branches<T, E>(steps: seq<Step<T, E>>, x: T): seq<Out<T, E>>
  {
    seq(|steps|, i requires 0 <= i < |steps| => steps[i](x))
  }

  /** The result values of the branches, in step order. */
  function Results<T, E>(steps: seq<Step<T, E>>, x: T): seq<T>
  {
    seq(|steps|, i requires 0 <= i < |steps| => steps[i](x).value)
  }

  /** The error recorded in the first slot that holds one, scanning in index order. */
  function FirstError<E>(errs: seq<Option<E>>): Option<E>
    decreases |errs|
  {
    if errs == [] then None
    else if errs[0].Some? then errs[0]
    else FirstError(errs[1..])
  }

  /** The scan finds the error of the lowest failing slot. */
  lemma {:induction false} FirstErrorIsFirst<E>(errs: seq<Option<E>>, k: nat)
    requires k < |errs| && errs[k].Some?
    requires forall j :: 0 <= j < k ==> errs[j].None?
    ensures FirstError(errs) == errs[k]
    decreases k
  {
    if k > 0 {
      FirstErrorIsFirst(errs[1..], k - 1);
    }
  }

  /** The scan finds nothing exactly when no slot holds an error. */
  lemma {:induction false} FirstErrorNoneIff<E>(errs: seq<Option<E>>)
    ensures FirstError(errs).None? <==> forall j :: 0 <= j < |errs| ==> errs[j].None?
    decreases |errs|
  {
    if errs != [] {
      FirstErrorNoneIff(errs[1..]);
      assert forall j :: 1 <= j < |errs| ==> errs[j] == errs[1..][j - 1];
    }
  }

  /**
   * What a Parallel step returns on `x`: if any branch reports an error,
   * the first such error (in index order) paired with the result of
   * branch 0, whichever branch failed; otherwise what `combiner` makes of
   * all the results.
   */
  function ParallelOutcome<T, E>(combiner: seq<T> -> Out<T, E>, steps: seq<Step<T, E>>, x: T): Out<T, E>
  {
    var outs := Branches(steps, x);
    var err := FirstError(seq(|outs|, i requires 0 <= i < |outs| => outs[i].err));
    if err.Some? then Out(outs[0].value, err) else combiner(Results(steps, x))
  }

  /** Parallel: a step that fans out to `steps` on its input and joins them as ParallelOutcome says. */
  function Parallel<T, E>(combiner: seq<T> -> Out<T, E>, steps: seq<Step<T, E>>): Step<T, E>
  {
    x => ParallelOutcome(combiner, steps, x)
  }

  /** With no failing branch, Parallel hands every result, in step order, to the combiner. */
  lemma ParallelAllSucceed<T, E>(combiner: seq<T> -> Out<T, E>, steps: seq<Step<T, E>>, x: T)
    requires forall i :: 0 <= i < |steps| ==> steps[i](x).err.None?
    ensures Parallel(combiner, steps)(x) == combiner(Results(steps, x))
  {
    var outs := Branches(steps, x);
    FirstErrorNoneIff(seq(|outs|, i requires 0 <= i < |outs| => outs[i].err));
  }

  /**
   * When branch `k` is the lowest failing one, Parallel returns branch
   * `k`'s error paired with branch 0's result value, not branch `k`'s.
   */
  lemma ParallelFirstFailure<T, E>(combiner: seq<T> -> Out<T, E>, steps: seq<Step<T, E>>, x: T, k: nat)
    requires k < |steps| && steps[k](x).err.Some?
    requires forall j :: 0 <= j < k ==> steps[j](x).err.None?
    ensures Parallel(combiner, steps)(x) == Out(steps[0](x).value, steps[k](x).err)
  {
    var outs := Branches(steps, x);
    FirstErrorIsFirst(seq(|outs|, i requires 0 <= i < |outs| => outs[i].err), k);
  }

  /**
   * The body of the step Parallel returns: run every branch on `input`,
   * each writing only its own slot, then scan the error slots in order.
   */
  method RunParallel<T(0), E>(combiner: seq<T> -> Out<T, E>, steps: seq<Step<T, E>>, input: T)
    returns (out: T, err: Option<E>)
    ensures Out(out, err) == Parallel(combiner, steps)(input)
  {
    var n := |steps|;
    var results := new T[n];
    var errs := new Option<E>[n];
    for i := 0 to n
      invariant forall j :: 0 <= j < i ==> results[j] == steps[j](input).value && errs[j] == steps[j](input).err
    {
      var o := steps[i](input);
      results[i], errs[i] := o.value, o.err;
    }
    ghost var outs := Branches(steps, input);
    assert errs[..] == seq(|outs|, i requires 0 <= i < |outs| => outs[i].err);
    assert results[..] == Results(steps, input);
    for i := 0 to n
      invariant FirstError(errs[i..]) == FirstError(errs[..])
    {
      assert errs[i..][1..] == errs[i + 1..];
      if errs[i].Some? {
        return results[0], errs[i];
      }
    }
    var o := combiner(results[..]);
    out, err := o.value, o.err;
  }
}
