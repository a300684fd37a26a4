# mqueue delivery composer, in Dafny

A model of the core of `mqueue`, a Go event-publishing library. A caller
publishes a payload through a `Client`. The client builds one normalized
`Record` and hands it to the single `Handler` it is bound to. A handler is
either a transport adapter (SQS, EventBridge, Kinesis, or a JSON writer) or
a composer (`multiHandler`) over an ordered list of child handlers. The
composer runs its children in one of two modes:

- sequence mode calls every child in order and joins the collected errors;
- fan-out mode runs every child in an errgroup and returns the group's
  single error.

Composers nest, because a composer is itself a handler. A process-wide
default client serves the package-level `Publish` functions.

Files:

- `wrappers.dfy`: `Option`, the model of Go's `nil`.
- `errors.dfy`: error values. Covers `errors.Join` (an aggregate that keeps
  every constituent), its newline-joined text, and `errgroup.Group.Wait`
  (exactly one of the failures).
- `values.dfy`: the `any` payload, `time.Time` with `UTC`, `context.Context`
  (a deadline and an optional tracing span), and the decimal rendering of a
  64-bit trace id.
- `record.dfy`: `Record`, plus the pure field mapping that `newRecord` ends
  with.
- `multi_handler.dfy`: the handler tree and `Run`, the specification of one
  `Handle` call. `Run` gives the transport invocations, in order, and the
  returned error. Also holds the imperative `Handle`, `HandleLinear` and
  `HandleConcurrency`, which are proved equal to `Run`, and the lemmas
  about both modes and about nested compositions.
- `client.dfy`: the `Client` class, with lazy defaulting of its clock and key
  generator and with `Publish`. The `Registry` class stands for the
  `defaultClient` cell.

The model works with two oracles, held in `Env`. `Env.deliver` gives the
result of each transport invocation; that result is decided by the network
or the writer. `Env.pick` plays the goroutine scheduler. Given a fan-out
composer's children and the failures of its goroutines, it decides which
failing child's error reaches that composer's errgroup first. The clock reading
(`time.Now`) and the random UUID (`uuid.NewString`) are parameters of the
methods that use them.

Fan-out mode returns `g.Wait()`. That keeps only the first error to arrive,
unlike sequence mode's aggregate. `FanOutReportsOneFailure` and
`FanOutScenario` show that exactly one child error comes back. `newRecord`
is not side-effect free: it installs the default clock and key generator
into the client when they are nil (`Clients.Client.NewRecord`).

## Model

| member | source | states |
|---|---|---|
| `Errors.Join` | multi_handler.go:46 | `errors.Join` over the collected errors is nil exactly when none was collected; otherwise its constituents are exactly the collected list, in order |
| `Errors.Message` | multi_handler.go:46 | the text of a leaf error is its own text, and an aggregate with a single constituent reads as that constituent |
| `Errors.JoinMentionsEach` | multi_handler.go:46 | the text of the joined error contains the text of every constituent |
| `Errors.GroupWait` | multi_handler.go:57 | `g.Wait()` is nil exactly when no goroutine failed; otherwise it is one of the goroutines' errors |
| `Errors.AnyFailureMayBeReported` | multi_handler.go:50-57 | for every failing goroutine there is a schedule under which its error is the one `Wait` returns |
| `Values.UTC` | record.go:39 | `.UTC()` keeps the instant and sets the offset to zero |
| `Values.Decimal` | record.go:28 | `%d` rendering is non-empty, all digits, with no leading zero |
| `Values.ParseDecimalOfDecimal` | record.go:28 | the decimal rendering reads back as the same number |
| `Records.ReadClock` | record.go:39 | calling `timeNow` gives the system reading for `time.Now` and the fixed time for an injected clock |
| `Records.DrawKey` | record.go:41 | calling `newUUID` gives the fresh UUID for `uuid.NewString` and the fixed key for an injected generator |
| `Records.TraceIdOf` | record.go:26-29 | the trace id is empty iff the context carries no span; otherwise it is the canonical `%d` rendering of the span's trace id: decimal digits only, no leading zero, reading back as that trace id |
| `Records.BuildRecord` | record.go:36-42 | Source and Data are the arguments, unchanged; Time is the clock reading in UTC; IdempotencyKey is the drawn key; TraceID is `TraceIdOf` of the context (canonical decimal of the span's trace id, empty without a span); Destination, SequenceID, TenantID and DataClassification are empty |
| `Handlers.NewSequenceHandlers` | multi_handler.go:11-15 | keeps the handlers exactly as given and leaves `concurrency` false |
| `Handlers.NewFanOutHandlers` | multi_handler.go:18-23 | keeps the handlers exactly as given and sets `concurrency` true |
| `Handlers.ConstructorsSelectMode` | multi_handler.go:31-36 | a composer built by `NewFanOutHandlers` takes the fan-out path; one built by `NewSequenceHandlers` takes the sequence path |
| `Handlers.Handle` | multi_handler.go:31-36 | dispatches on `concurrency`; its invocations and its error are those `Run` specifies |
| `Handlers.HandleLinear` | multi_handler.go:38-47 | the loop calls each child once, in order. It appends each non-nil error and returns `errors.Join` of them. Proved equal to sequence mode over the children's outcomes |
| `Handlers.HandleConcurrency` | multi_handler.go:49-58 | the loop starts each child once and returns the group's error. Proved equal to fan-out mode over the children's outcomes |
| `Handlers.FailuresPlacement` | multi_handler.go:39-44 | the collected list holds exactly the failing children's errors, in child order. Its length is the number of failing children. It is empty iff no child failed |
| `Handlers.EmptyComposerSucceeds` | multi_handler.go:38-58 | with zero handlers, either mode makes no call and returns nil |
| `Handlers.SequenceInvokesInOrder` | multi_handler.go:40-45 | child `i`'s invocations come after those of every earlier child and before those of every later one, whatever any child returned (no short-circuit) |
| `Handlers.SequenceReportsEveryFailure` | multi_handler.go:39-46 | sequence mode returns nil iff no child failed. Otherwise the aggregate unwraps to exactly the children's errors: one per failing child, at its position among the failures |
| `Handlers.SequenceMessageMentionsFailure` | multi_handler.go:42-46 | the text of the sequence result contains the text of every failing child's error |
| `Handlers.FanOutReportsOneFailure` | multi_handler.go:50-57 | fan-out mode returns nil iff every child succeeded; otherwise it returns the error of one of the children |
| `Handlers.FanOutMayReportAnyFailure` | multi_handler.go:50-57 | any failing child's error may be the one fan-out mode returns |
| `Handlers.SameContextAndRecord` | multi_handler.go:42 | every transport invocation, at any nesting depth and in either mode, receives the same context and the same record, unmodified |
| `Handlers.NilIffEveryDeliverySucceeds` | multi_handler.go:31-58 | a composition of any depth and any modes returns nil iff every transport invocation it made succeeded |
| `Handlers.InvokesEveryLeafOnce` | multi_handler.go:40-56 | one `Handle` call invokes each leaf of the composition exactly once, counted with multiplicity |
| `Errors.JoinLinesAppend` | multi_handler.go:46 | the text of a join of two non-empty lists is the two texts separated by a newline |
| `Handlers.InlineNestedSequence` | multi_handler.go:38-47 | a sequence composer nested in another behaves like its children listed in place: same invocations in the same order, nil in the same cases, same error text |
| `Handlers.FanOutsScheduleIndependently` | multi_handler.go:49-58 | two fan-out composers in one sequence are scheduled independently. The first may report "a" while the second reports "b", giving the text "a\nb" |
| `Handlers.SequenceScenario` | multi_handler.go:38-47 | [ok, fails "x", ok] calls all three once, in order, and returns one aggregate whose text is "x" |
| `Handlers.FanOutScenario` | multi_handler.go:49-58 | [fails "a", fails "b"] calls both, listed in the model's child order (one possible schedule), and returns exactly one of the two errors |
| `Clients.ContextOrBackground` | client.go:21-23 | a nil context is replaced by the background context; any other is kept |
| `Clients.Client.New` | client.go:42-52 | a nil handler is a precondition failure; otherwise Name and handler are the arguments, and the clock and key generator are the system ones |
| `Clients.Client.Literal` | client.go:13-18 | a `Client` struct literal holds exactly the given fields, nil clock or key generator included |
| `Clients.Client.NewRecord` | record.go:25-43 | a nil clock or key generator is set to the default and stays set, and a non-nil one is left alone. The record is `BuildRecord` over one reading of the (defaulted) clock and one drawn key |
| `Clients.Client.Publish` | client.go:20-31 | builds one record with Source = Name, in the defaulted context. Hands it to the bound handler in exactly one `Handle` call and returns that call's error unchanged |
| `Clients.Registry.Init` | client.go:37-39 | the initial default is a "no-name" client writing JSON to `io.Discard` |
| `Clients.Registry.Default` | client.go:54-55 | `Default()` returns the client currently held in the cell, nil once nil has been stored |
| `Clients.Registry.SetDefault` | client.go:54-60 | after `SetDefault(c)`, `Default()` returns `c`; a nil `c` is accepted |
| `Clients.Registry.Publish` | client.go:63-65 | requires a non-nil default, the precondition standing for the panic of `publish` on a nil receiver (client.go:24); reads the current default and publishes through it with the background context, leaving the cell unchanged |
| `Clients.Registry.PublishContext` | client.go:68-70 | requires a non-nil default, standing for the same panic; reads the current default and publishes through it with the given context, a nil one replaced by the background context, leaving the cell unchanged |
| `Clients.DefaultSwapScenario` | mqueue_test.go:44-65 | after `SetDefault` with a "test-service" JSON client, `Publish` and `PublishContext` each make exactly one call to that client's writer. Each call carries a record with Source "test-service" and the payload given |

## Left out

- Transport adapters (`sqs_handler.go`, `eventbridge_handler.go`, `kinesis_handler.go`, `json_handler.go`) are JSON encoding plus one foreign call each. Each is a `Leaf` whose result comes from `Env.deliver`. A transport occurring twice in one composition therefore gets the same result both times.
- Goroutine scheduling inside `errgroup`: `Env.pick` chooses which failure arrives first. The choice depends on the composer's children and their failures. So two occurrences of the same fan-out composer, with equal failures, make the same choice within one `Handle` call. Go schedules each occurrence's errgroup on its own and may choose differently. In fan-out mode the model lists the invocations in child order as one admissible schedule. The general fan-out lemmas claim only which invocations happen (`InvokesEveryLeafOnce`), not their order. The call list `FanOutScenario` states is the model's child-order listing, one possible schedule among those Go allows; its claim about the error holds for every schedule.
- Concurrent `Publish` calls and the atomicity of `atomic.Pointer`: the default client is a plain field of `Registry`. A swap during a publish that has already read the default cannot be expressed in this sequential model.
- Context cancellation: a context carries its deadline as a value and is passed on unchanged. Nothing in the core acts on it.
- `tracer.SpanFromContext`, `time.Now` and `uuid.NewString` come from external libraries. The span's trace id is a field of `Context`; the clock reading and the UUID are parameters.
- `time.Time` has no monotonic clock reading and no location name; only the instant and the offset are kept.
- A nil child of a composer (`NewSequenceHandlers(nil)` is accepted by Go's variadic constructors) panics at `fn.Handle` (multi_handler.go:42, :54). In sequence mode the panic comes after the earlier children have run; in fan-out mode it happens inside the goroutine. `Handler` has no nil value, so this panic path is not modelled.
- A `Client` literal with a nil handler panics in `publish`. The model's client always has a handler, and the nil check is modelled only in `New`.
- `lib.go` (an older `Publisher` API), `fsmk_config.go` and `events.go` (constants), and the test helpers are not part of this model.
