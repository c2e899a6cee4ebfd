# pipeline: a verified model

A model in Dafny of the Go package `pipeline`, a generic library for
composing functions. A *step* takes a value of type `T` and returns a
value of type `T` with an optional error. A *middleware* turns a step into
another step. A *pipeline* holds two lists, both only ever appended to:
steps and middleware. `Then` wraps a step in the middleware registered so
far and stores it. `Execute` threads one value through the stored steps
and stops at the first error. The combinators `Wrap`, `Conditional` and
`Parallel` build steps without a pipeline.

Files:

- `steps.dfy` (module `Steps`): the `Out` and `Option` datatypes, the
  `Step` and `Middleware` function types, and two reference definitions.
  `ComposeMw` is the nesting of middleware around a step. `Run` is the
  meaning of executing a list of steps. It also holds the lemmas about both.
- `pipeline.dfy` (module `Pipelines`): the class `Pipeline` with fields
  `steps` and `middlewares`, the constructor (`New`), and the methods
  `Use`, `Then` and `Execute`. `Then` keeps the source's descending loop.
  `Execute` keeps its loop with the early return. Two ghost fields record,
  for every stored step, the step as it was passed in and the middleware
  list at that moment. `Valid()` ties them to the stored steps.
- `combinators.dfy` (module `Combinators`): `Wrap`, `Conditional` and
  `Parallel` as functions that return steps. `RunParallel` is the body of
  the closure that `Parallel` returns. It fills a results array and an
  errors array slot by slot, then scans the errors in index order.
- `scenarios.dfy` (module `Scenarios`): client methods that build
  pipelines through the public operations. Each one proves, from the
  contracts alone, what a repository test checks or what the design
  promises.

Steps and middleware are pure total Dafny functions. An error is an opaque
value of a type parameter `E`. Go's `nil` is `None`.

`Parallel` keeps the source's behaviour when a branch fails. The result it
returns is branch 0's output, not the failing branch's output and not the
input. `ParallelFirstFailure` states this exactly, and
`Scenarios.ParallelFailureScenario` gives a concrete case: branch 1 fails
with output 300, and the call returns 4, branch 0's result. With zero
branches no error can occur, so `combiner([])` is called
(`ParallelAllSucceed` holds vacuously).

## Model

| member | source | states |
|---|---|---|
| `Pipelines.Pipeline.constructor` | pipeline.go:20-25 | New: both lists empty; the object invariant holds |
| `Pipelines.Pipeline.Use` | pipeline.go:28-31 | appends `mw` to the end of `middlewares`; `steps` unchanged; returns the same pipeline |
| `Pipelines.Pipeline.Then` | pipeline.go:34-41 | `middlewares` unchanged; exactly one step appended and earlier steps untouched; the new step is `middlewares[0](middlewares[1](…middlewares[n-1](step)))`, first registered outermost; the invariant that each stored step carries only the middleware registered before it is kept |
| `Pipelines.Pipeline.Execute` | pipeline.go:45-55 | the returned value and error are `Run(steps, input)`; with no steps, returns the input and no error |
| `Steps.ComposeMwAppend` | pipeline.go:34-41 | a middleware registered after the others wraps the raw step directly, inside all of them |
| `Steps.ComposeMwConcat` | pipeline.go:34-41 | wrapping in `outer + inner` means wrapping in `inner` and then in `outer` around that: earlier registrations are outer layers |
| `Steps.TwoMiddlewareNest` | pipeline.go:35-38 | with A registered before B, the stored step is `A(B(step))` |
| `Steps.RunAppend` | pipeline.go:45-55 | running `s1 + s2` runs `s1`; if that failed, its failing output is the answer; otherwise `s2` runs on its result |
| `Steps.RunAllSucceed` | pipeline.go:45-55 | when every step succeeds on the value it receives, the run is the left-to-right composition of the steps, with no error |
| `Steps.RunFirstFailure` | pipeline.go:48-52 | when step k is the first to fail, the run returns step k's own output and error, not the value step k received |
| `Steps.LaterStepsIgnored` | pipeline.go:48-52 | when step k is the first to fail, any steps after it can be replaced by any others without changing the result: they are never invoked |
| `Steps.RunSucceedsIff` | pipeline.go:45-55 | a run ends without error if and only if every step succeeds on the value it receives |
| `Combinators.WrapNeverFails` | pipeline.go:58-62 | `Wrap(f)(x)` returns `f(x)` and never an error |
| `Combinators.RunWrapped` | pipeline.go:58-62 | a pipeline of wrapped transforms never fails; it returns the transforms applied in registration order |
| `Combinators.ConditionalRoutes` | pipeline.go:65-72 | `Conditional(p, a, b)(x)` is exactly `a(x)` when `p(x)` holds, and exactly `b(x)` otherwise |
| `Combinators.ConditionalInRun` | pipeline.go:65-72 | inside a pipeline, a Conditional step can be replaced by the branch its predicate picks on the value that reaches it |
| `Combinators.FirstErrorIsFirst` | pipeline.go:91-95 | the scan of the error slots returns the error of the lowest failing slot |
| `Combinators.FirstErrorNoneIff` | pipeline.go:91-95 | the scan finds no error if and only if no slot holds one |
| `Combinators.ParallelAllSucceed` | pipeline.go:75-98 | with no failing branch, Parallel returns `combiner` applied to every branch's result on the same input, in step order |
| `Combinators.ParallelFirstFailure` | pipeline.go:90-95 | when branch k is the lowest failing branch, Parallel returns branch k's error paired with branch 0's result |
| `Combinators.RunParallel` | pipeline.go:76-98 | filling slot i with branch i's outcome and then scanning the error slots in order gives exactly the outcome of the `Parallel` step |
| `Scenarios.SuccessScenario` | pipeline_test/pipeline_test.go:14-26 | `+1` then `*2` on 3 gives 8 and no error |
| `Scenarios.ErrorScenario` | pipeline_test/pipeline_test.go:28-42 | `+1`, a failing step, then `*2` on 3 gives 4 with the failing step's error |
| `Scenarios.EmptyScenario` | pipeline.go:45-55 | a new pipeline returns its input with no error |
| `Scenarios.MiddlewareScenario` | pipeline_test/pipeline_test.go:44-67 | one logging middleware around `+2` on 1 gives 3, and the log reads "before 1", then "after 3" |
| `Scenarios.OnionScenario` | pipeline.go:34-41 | with A used before B, the log is A-before, B-before, B-after, A-after |
| `Scenarios.ScopeScenario` | pipeline.go:27-31 | a middleware used after a step is registered does not wrap that step |
| `Scenarios.ConditionalScenario` | pipeline_test/pipeline_test.go:69-80 | even goes to `+1` and odd to `-1`: 4 gives 5 and 3 gives 2 |
| `Scenarios.ParallelScenario` | pipeline_test/pipeline_test.go:82-101 | branches `+1` and `*2` on 3, joined by a sum, give 10 |
| `Scenarios.ParallelFailureScenario` | pipeline.go:91-94 | when branch 1 fails, the error is paired with branch 0's result 4; it is not the failing branch's 300 and not the input 3 |
| `Scenarios.RepeatScenario` | pipeline.go:45-55 | executing the same pipeline twice on the same input gives the same outcome |

## Left out

- Goroutines and the `sync.WaitGroup` in `Parallel` (pipeline.go:77-89). Each branch writes only its own slot and the scan runs after the join, so filling the slots in index order gives the same outcome.
- Side effects inside steps and middleware, such as appending to a shared log. Steps and middleware are pure functions here. In the scenarios, call order is made visible by a log carried in the value itself.
- Non-termination and panics. A step that never returns would hang `Execute` and `Parallel`; modelled steps are total.
- Go error identity and contents. The error is an opaque value of a type parameter.
- `Pipelines.Pipeline.Use` and `Pipelines.Pipeline.Then`: these require the object invariant `Valid()`, which the constructor sets up and both methods keep. Go has no such precondition, but every pipeline built by `New` satisfies it.
- The arrays in `RunParallel` need a default value for `T`. This matches Go's zero-filled `make`.
- Wrap and Conditional: their contracts are stated pointwise, as lemmas about the step applied to one input. For a generic `T`, Dafny does not allow a quantified `ensures` over the returned function.
