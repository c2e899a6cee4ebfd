/**
 * Client programs that build pipelines through the public operations and
 * show, from the contracts alone, the behaviour the repository's tests
 * check: composition, short-circuit, middleware nesting and scope,
 * conditional routing and parallel fan-out.
 */
module Scenarios {
  import opened Steps
  import opened Pipelines
  import opened Combinators

  /** One entry of an ordered log: a middleware's before-hook or after-hook, with the value it saw. */
  datatype Event = Before(tag: string, n: int) | After(tag: string, n: int)

  /** A number carrying the log of the hooks that have run; makes call order observable without side effects. */
  datatype Traced = Traced(n: int, log: seq<Event>)

  /** A middleware that logs `Before(tag, input)` on the way in and `After(tag, output)` on the way out. */
  function Logging(tag: string): Middleware<Traced, string>
  {
    (next: Step<Traced, string>) => (v: Traced) =>
      var o := next(v.(log := v.log + [Before(tag, v.n)]));
      Out(o.value.(log := o.value.log + [After(tag, o.value.n)]), o.err)
  }

  function AddTwo(v: Traced): Traced
  {
    v.(n := v.n + 2)
  }

  function Sum(s: seq<int>): int
    decreases |s|
  {
    if s == [] then 0 else s[0] + Sum(s[1..])
  }

  /** Two wrapped transforms, +1 then *2, run on 3 give 8 without error. */
  method SuccessScenario() returns (out: int, err: Option<string>)
    ensures out == 8 && err == None
  {
    var inc: int -> int := x => x + 1;
    var double: int -> int := x => x * 2;
    var p := new Pipeline<int, string>();
    p := p.Then(Wrap(inc));
    p := p.Then(Wrap(double));
    assert [inc, double][1..] == [double] && [double][1..] == [];
    assert WrapAll<int, string>([double]) == [Wrap(double)];
    assert p.steps == WrapAll([inc, double]);
    RunWrapped<int, string>([inc, double], 3);
    assert Fold([inc, double], 3) == Fold([double], 4) == 8;
    out, err := p.Execute(3);
  }

  /** +1, a failing step, *2 on 3: the run stops at the failing step and returns its own output 4. */
  method ErrorScenario() returns (out: int, err: Option<string>)
    ensures out == 4 && err == Some("failure")
  {
    var inc: Step<int, string> := x => Out(x + 1, None);
    var fail: Step<int, string> := x => Out(x, Some("failure"));
    var double: Step<int, string> := x => Out(x * 2, None);
    var p := new Pipeline<int, string>();
    p := p.Then(inc);
    p := p.Then(fail);
    p := p.Then(double);
    assert p.steps == [inc, fail, double];
    out, err := p.Execute(3);
  }

  /** An empty pipeline hands its input back without error. */
  method EmptyScenario(x: int) returns (out: int, err: Option<string>)
    ensures out == x && err == None
  {
    var p := new Pipeline<int, string>();
    out, err := p.Execute(x);
  }

  /** One logging middleware around +2, run on 1: result 3, logged before 1 and after 3. */
  method MiddlewareScenario() returns (out: Traced, err: Option<string>)
    ensures out == Traced(3, [Before("mw", 1), After("mw", 3)]) && err == None
  {
    var p := new Pipeline<Traced, string>();
    p := p.Use(Logging("mw"));
    p := p.Then(Wrap(AddTwo));
    assert p.steps == [Logging("mw")(Wrap(AddTwo))];
    out, err := p.Execute(Traced(1, []));
  }

  /** Middleware A registered before B: A's before-hook runs first and its after-hook last. */
  method OnionScenario() returns (out: Traced, err: Option<string>)
    ensures out.log == [Before("A", 1), Before("B", 1), After("B", 3), After("A", 3)]
    ensures out.n == 3 && err == None
  {
    var p := new Pipeline<Traced, string>();
    p := p.Use(Logging("A"));
    p := p.Use(Logging("B"));
    p := p.Then(Wrap(AddTwo));
    TwoMiddlewareNest(Logging("A"), Logging("B"), Wrap(AddTwo));
    assert p.steps == [Logging("A")(Logging("B")(Wrap(AddTwo)))];
    out, err := p.Execute(Traced(1, []));
  }

  /** A middleware registered after a step leaves that step unwrapped: only the second +2 is logged. */
  method ScopeScenario() returns (out: Traced, err: Option<string>)
    ensures out == Traced(5, [Before("A", 3), After("A", 5)]) && err == None
  {
    var p := new Pipeline<Traced, string>();
    p := p.Then(Wrap(AddTwo));
    p := p.Use(Logging("A"));
    p := p.Then(Wrap(AddTwo));
    assert p.steps == [Wrap(AddTwo), Logging("A")(Wrap(AddTwo))];
    assert p.steps[1..] == [Logging("A")(Wrap(AddTwo))];
    assert Run(p.steps, Traced(1, [])) == Run([Logging("A")(Wrap(AddTwo))], Traced(3, []));
    assert Traced(3, []).(log := [] + [Before("A", 3)]) == Traced(3, [Before("A", 3)]);
    assert Wrap<Traced, string>(AddTwo)(Traced(3, [Before("A", 3)])) == Out(Traced(5, [Before("A", 3)]), None);
    assert [Before("A", 3)] + [After("A", 5)] == [Before("A", 3), After("A", 5)];
    assert Logging("A")(Wrap(AddTwo))(Traced(3, [])) == Out(Traced(5, [Before("A", 3), After("A", 5)]), None);
    out, err := p.Execute(Traced(1, []));
  }

  /** Even inputs take +1 and odd inputs take -1: 4 gives 5 and 3 gives 2. */
  method ConditionalScenario() returns (even: int, odd: int)
    ensures even == 5 && odd == 2
  {
    var cond := Conditional(x => x % 2 == 0, Wrap<int, string>(x => x + 1), Wrap<int, string>(x => x - 1));
    var p := new Pipeline<int, string>();
    p := p.Then(cond);
    var err4, err3;
    even, err4 := p.Execute(4);
    odd, err3 := p.Execute(3);
  }

  /** Branches +1 and *2 on 3 joined by a sum: 4 + 6 gives 10. */
  method ParallelScenario() returns (out: int, err: Option<string>)
    ensures out == 10 && err == None
  {
    var branches := [Wrap<int, string>(x => x + 1), Wrap<int, string>(x => x * 2)];
    var combiner := (rs: seq<int>) => Out(Sum(rs), None);
    ParallelAllSucceed(combiner, branches, 3);
    assert Results(branches, 3) == [4, 6];
    var p := new Pipeline<int, string>();
    p := p.Then(Parallel(combiner, branches));
    out, err := p.Execute(3);
  }

  /**
   * Branch 1 fails on 3 with output 300, branch 0 returns 4: the failure
   * comes back paired with 4, branch 0's result, neither the failing
   * branch's output nor the input.
   */
  method ParallelFailureScenario() returns (out: int, err: Option<string>)
    ensures out == 4 && err == Some("failure")
  {
    var inc: Step<int, string> := x => Out(x + 1, None);
    var failing: Step<int, string> := x => Out(x * 100, Some("failure"));
    var combiner := (rs: seq<int>) => Out(Sum(rs), None);
    ParallelFirstFailure(combiner, [inc, failing], 3, 1);
    out, err := RunParallel(combiner, [inc, failing], 3);
  }

  /** Executing the same pipeline twice on the same input gives the same outcome: steps are pure. */
  method RepeatScenario<T, E>(p: Pipeline<T, E>, x: T) returns (first: Out<T, E>, second: Out<T, E>)
    ensures first == second
  {
    var v1, e1 := p.Execute(x);
    var v2, e2 := p.Execute(x);
    first, second := Out(v1, e1), Out(v2, e2);
  }
}
