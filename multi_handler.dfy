/**
 * Delivery handlers and the multi-destination composer.
 *
 * A handler is either a transport (a leaf whose outcome is decided outside
 * the model) or a composer holding an ordered list of child handlers and a
 * `concurrency` flag. `Run` is the specification of one `Handle` call: the
 * leaf invocations it makes and the error it returns. `Handle`,
 * `HandleLinear` and `HandleConcurrency` are the loops of the source,
 * proved against `Run`.
 */
module Handlers {
  import opened Wrappers
  import opened Errors
  import opened Values
  import opened Records

  /** Where a `JSONHandler` writes. */
  datatype Sink = Discard | Writer(name: string)

  /** The transport adapters: each is a single foreign call. */
  datatype Transport =
    | Sqs(queueUrl: string)
    | EventBridge(busName: string)
    | Kinesis(streamName: string)
    | Json(sink: Sink)

  /** A `Handler`: a transport, or a `multiHandler` over `handlers`. */
  datatype Handler =
    | Leaf(transport: Transport)
    | Multi(handlers: seq<Handler>, concurrency: bool)

  /** One invocation of a transport's `Handle`, with what it was given. */
  datatype Call = Call(target: Transport, ctx: Context, record: Record)

  /** What one `Handle` call does: the transport invocations it makes and
      the error it returns (`None` is `nil`). */
  datatype Outcome = Outcome(calls: seq<Call>, err: Option<Error>)

  /** What the model leaves to the outside world: `deliver` gives each
      transport invocation's result (the network, the writer), `pick` plays
      the goroutine scheduler: given a fan-out composer's children and the
      failures of its goroutines, it decides whose error reaches that
      composer's errgroup first. */
  datatype Env = Env(
    deliver: (Transport, Context, Record) -> Option<Error>,
    pick: (seq<Handler>, seq<Error>) -> nat)

  /** The scheduler's choices for the errgroup of the fan-out composer over
      `hs`. */
  function Scheduler(env: Env, hs: seq<Handler>): seq<Error> -> nat
  {
    (failures: seq<Error>) => env.pick(hs, failures)
  }

  /** `NewSequenceHandlers(handlers...)`. */
  function NewSequenceHandlers(handlers: seq<Handler>): (h: Handler)
    ensures h.Multi? && h.handlers == handlers && !h.concurrency
  {
    Multi(handlers, false)
  }

  /** `NewFanOutHandlers(handlers...)`. */
  function NewFanOutHandlers(handlers: seq<Handler>): (h: Handler)
    ensures h.Multi? && h.handlers == handlers && h.concurrency
  {
    Multi(handlers, true)
  }

  // ---------------------------------------------------------------------
  // Specification of one Handle call

  /** The outcome of `h.Handle(ctx, record)`. */
  function Run(h: Handler, ctx: Context, rec: Record, env: Env): Outcome
    decreases h
  {
    match h
    case Leaf(t) => Outcome([Call(t, ctx, rec)], env.deliver(t, ctx, rec))
    case Multi(hs, concurrency) =>
      var rs := ChildOutcomes(hs, ctx, rec, env);
      if concurrency then FanOut(rs, Scheduler(env, hs)) else Sequence(rs)
  }

  /** Each child's outcome when given the same context and record. */
  function ChildOutcomes(hs: seq<Handler>, ctx: Context, rec: Record, env: Env): seq<Outcome>
    decreases hs
  {
    seq(|hs|, i requires 0 <= i < |hs| => Run(hs[i], ctx, rec, env))
  }

  /** All invocations of the children, child after child. */
  function Flatten(rs: seq<Outcome>): seq<Call>
  {
    if rs == [] then [] else Flatten(rs[..|rs| - 1]) + rs[|rs| - 1].calls
  }

  /** The non-nil child errors, in child order: the `errs` slice that
      `handleLinear` builds. */
  function Failures(rs: seq<Outcome>): seq<Error>
  {
    if rs == [] then []
    else
      var last := rs[|rs| - 1];
      Failures(rs[..|rs| - 1]) + (if last.err.Some? then [last.err.value] else [])
  }

  /** How many children failed. */
  function FailureCount(rs: seq<Outcome>): nat
  {
    if rs == [] then 0
    else FailureCount(rs[..|rs| - 1]) + (if rs[|rs| - 1].err.Some? then 1 else 0)
  }

  /** Sequence mode on the children's outcomes: every child, then
      `errors.Join` of the collected errors. */
  function Sequence(rs: seq<Outcome>): Outcome
  {
    Outcome(Flatten(rs), Join(Failures(rs)))
  }

  /** Fan-out mode on the children's outcomes: every child, then the one
      error the group keeps. The calls are listed in child order as one
      admissible schedule; the goroutines may run in any order. */
  function FanOut(rs: seq<Outcome>, pick: seq<Error> -> nat): Outcome
  {
    Outcome(Flatten(rs), GroupWait(Failures(rs), pick))
  }

  /** One more child outcome adds its calls and, if it failed, its error. */
  lemma AppendOutcome(rs: seq<Outcome>, o: Outcome)
    ensures Flatten(rs + [o]) == Flatten(rs) + o.calls
    ensures Failures(rs + [o]) == Failures(rs) + (if o.err.Some? then [o.err.value] else [])
  {
    assert (rs + [o])[..|rs|] == rs;
  }

  // ---------------------------------------------------------------------
  // The source's loops

  /** `Handle`: dispatch to the transport, or to the fan-out path when
      `concurrency` is set and to the sequence path otherwise. */
  method Handle(h: Handler, ctx: Context, rec: Record, env: Env) returns (calls: seq<Call>, err: Option<Error>)
    ensures Outcome(calls, err) == Run(h, ctx, rec, env)
    decreases h, 1
  {
    match h
    case Leaf(t) =>
      calls := [Call(t, ctx, rec)];
      err := env.deliver(t, ctx, rec);
    case Multi(_, concurrency) =>
      if concurrency {
        calls, err := HandleConcurrency(h, ctx, rec, env);
      } else {
        calls, err := HandleLinear(h, ctx, rec, env);
      }
  }

  /** `handleLinear`: call every child in order, never stopping early, and
      append each non-nil error to `errs`; return `errors.Join(errs...)`. */
  method HandleLinear(h: Handler, ctx: Context, rec: Record, env: Env) returns (calls: seq<Call>, err: Option<Error>)
    requires h.Multi?
    ensures Outcome(calls, err) == Sequence(ChildOutcomes(h.handlers, ctx, rec, env))
    decreases h, 0
  {
    var hs := h.handlers;
    var errs: seq<Error> := [];
    calls := [];
    ghost var rs: seq<Outcome> := [];
    for i := 0 to |hs|
      invariant |rs| == i
      invariant forall j :: 0 <= j < i ==> rs[j] == Run(hs[j], ctx, rec, env)
      invariant calls == Flatten(rs)
      invariant errs == Failures(rs)
    {
      assert hs[i] in hs;
      var c, e := Handle(hs[i], ctx, rec, env);
      calls := calls + c;
      if e.Some? {
        errs := errs + [e.value];
      }
      AppendOutcome(rs, Outcome(c, e));
      rs := rs + [Outcome(c, e)];
    }
    assert rs == ChildOutcomes(hs, ctx, rec, env);
    err := Join(errs);
  }

  /** `handleConcurrency`: start every child in an errgroup, then return
      `g.Wait()`, the first error to arrive or nil. */
  method HandleConcurrency(h: Handler, ctx: Context, rec: Record, env: Env) returns (calls: seq<Call>, err: Option<Error>)
    requires h.Multi?
    ensures Outcome(calls, err) == FanOut(ChildOutcomes(h.handlers, ctx, rec, env), Scheduler(env, h.handlers))
    decreases h, 0
  {
    var hs := h.handlers;
    var failures: seq<Error> := [];
    calls := [];
    ghost var rs: seq<Outcome> := [];
    for i := 0 to |hs|
      invariant |rs| == i
      invariant forall j :: 0 <= j < i ==> rs[j] == Run(hs[j], ctx, rec, env)
      invariant calls == Flatten(rs)
      invariant failures == Failures(rs)
    {
      assert hs[i] in hs;
      var c, e := Handle(hs[i], ctx, rec, env);
      calls := calls + c;
      if e.Some? {
        failures := failures + [e.value];
      }
      AppendOutcome(rs, Outcome(c, e));
      rs := rs + [Outcome(c, e)];
    }
    assert rs == ChildOutcomes(hs, ctx, rec, env);
    err := GroupWait(failures, Scheduler(env, hs));
  }

  // ---------------------------------------------------------------------
  // Properties of the two modes

  /** The error list holds exactly the children's non-nil errors in child
      order: the error of a failing child `i` sits at the position given by
      the number of failing children before it, and nothing else is there. */
  lemma {:induction false} FailuresPlacement(rs: seq<Outcome>)
    ensures |Failures(rs)| == FailureCount(rs)
    ensures Failures(rs) == [] <==> forall i :: 0 <= i < |rs| ==> rs[i].err.None?
    ensures forall i :: 0 <= i < |rs| && rs[i].err.Some? ==>
      FailureCount(rs[..i]) < |Failures(rs)| && Failures(rs)[FailureCount(rs[..i])] == rs[i].err.value
    decreases |rs|
  {
    if rs != [] {
      var n := |rs|;
      var p := rs[..n - 1];
      FailuresPlacement(p);
      assert rs[..n - 1] == p;
      forall i | 0 <= i < n && rs[i].err.Some?
        ensures FailureCount(rs[..i]) < |Failures(rs)| && Failures(rs)[FailureCount(rs[..i])] == rs[i].err.value
      {
        if i < n - 1 {
          assert rs[..i] == p[..i];
          assert rs[i] == p[i];
        } else {
          assert rs[..i] == p;
        }
      }
      if Failures(rs) == [] {
        forall i | 0 <= i < n ensures rs[i].err.None? {
          if i < n - 1 { assert rs[i] == p[i]; }
        }
      }
    }
  }

  lemma {:induction false} FlattenAppend(a: seq<Outcome>, b: seq<Outcome>)
    ensures Flatten(a + b) == Flatten(a) + Flatten(b)
    decreases |b|
  {
    if b != [] {
      var n := |b|;
      FlattenAppend(a, b[..n - 1]);
      assert (a + b)[..|a + b| - 1] == a + b[..n - 1];
      assert (a + b)[|a + b| - 1] == b[n - 1];
      assert Flatten(b) == Flatten(b[..n - 1]) + b[n - 1].calls;
    } else {
      assert a + b == a;
    }
  }

  lemma {:induction false} FailuresAppend(a: seq<Outcome>, b: seq<Outcome>)
    ensures Failures(a + b) == Failures(a) + Failures(b)
    decreases |b|
  {
    if b != [] {
      var n := |b|;
      FailuresAppend(a, b[..n - 1]);
      assert (a + b)[..|a + b| - 1] == a + b[..n - 1];
      assert (a + b)[|a + b| - 1] == b[n - 1];
    } else {
      assert a + b == a;
    }
  }

  lemma {:induction false} FlattenMember(rs: seq<Outcome>, c: Call)
    ensures c in Flatten(rs) <==> exists i :: 0 <= i < |rs| && c in rs[i].calls
    decreases |rs|
  {
    if rs != [] {
      var n := |rs|;
      var p := rs[..n - 1];
      var last := rs[n - 1];
      assert Flatten(rs) == Flatten(p) + last.calls;
      FlattenMember(p, c);
      if c in Flatten(rs) {
        if c in last.calls {
          assert c in rs[n - 1].calls;
        } else {
          assert c in Flatten(p);
          var i :| 0 <= i < |p| && c in p[i].calls;
          assert c in rs[i].calls;
        }
      }
      if exists i :: 0 <= i < n && c in rs[i].calls {
        var i :| 0 <= i < n && c in rs[i].calls;
        if i < n - 1 {
          assert c in p[i].calls;
          assert c in Flatten(p);
        }
      }
    }
  }

  lemma ChildOutcomesAppend(a: seq<Handler>, b: seq<Handler>, ctx: Context, rec: Record, env: Env)
    ensures ChildOutcomes(a + b, ctx, rec, env) == ChildOutcomes(a, ctx, rec, env) + ChildOutcomes(b, ctx, rec, env)
  {
  }

  /** Both constructors yield a composer whose `Handle` takes the path its
      flag names: fan-out for `NewFanOutHandlers`, sequence otherwise. */
  lemma ConstructorsSelectMode(hs: seq<Handler>, ctx: Context, rec: Record, env: Env)
    ensures var rs := ChildOutcomes(hs, ctx, rec, env);
      Run(NewSequenceHandlers(hs), ctx, rec, env) == Sequence(rs)
      && Run(NewFanOutHandlers(hs), ctx, rec, env) == FanOut(rs, Scheduler(env, hs))
  {
  }

  /** A composer over no handlers makes no call and returns nil, in either
      mode. */
  lemma EmptyComposerSucceeds(concurrency: bool, ctx: Context, rec: Record, env: Env)
    ensures Run(Multi([], concurrency), ctx, rec, env) == Outcome([], None)
  {
  }

  /** Sequence mode calls child `i` after every earlier child and before
      every later one, whatever any of them returned: no short-circuit. */
  lemma SequenceInvokesInOrder(hs: seq<Handler>, i: nat, ctx: Context, rec: Record, env: Env)
    requires i < |hs|
    ensures Run(Multi(hs, false), ctx, rec, env).calls ==
      Run(Multi(hs[..i], false), ctx, rec, env).calls
      + Run(hs[i], ctx, rec, env).calls
      + Run(Multi(hs[i + 1..], false), ctx, rec, env).calls
  {
    assert hs == hs[..i] + [hs[i]] + hs[i + 1..];
    ChildOutcomesAppend(hs[..i] + [hs[i]], hs[i + 1..], ctx, rec, env);
    ChildOutcomesAppend(hs[..i], [hs[i]], ctx, rec, env);
    var a := ChildOutcomes(hs[..i], ctx, rec, env);
    var m := ChildOutcomes([hs[i]], ctx, rec, env);
    var b := ChildOutcomes(hs[i + 1..], ctx, rec, env);
    FlattenAppend(a + m, b);
    FlattenAppend(a, m);
    assert Flatten(m) == Run(hs[i], ctx, rec, env).calls by {
      assert m == [Run(hs[i], ctx, rec, env)];
      assert m[..0] == [];
    }
  }

  /** Sequence mode returns nil iff no child failed; otherwise its aggregate
      unwraps to exactly the failing children's errors, each at the position
      given by how many children failed before it, and its text mentions
      each of them. */
  lemma SequenceReportsEveryFailure(hs: seq<Handler>, ctx: Context, rec: Record, env: Env)
    ensures var o := Run(Multi(hs, false), ctx, rec, env);
      o.err.None? <==> forall i :: 0 <= i < |hs| ==> Run(hs[i], ctx, rec, env).err.None?
    ensures var o := Run(Multi(hs, false), ctx, rec, env);
      var rs := ChildOutcomes(hs, ctx, rec, env);
      o.err.Some? ==>
        |Unwrap(o.err.value)| == FailureCount(rs)
        && forall i :: 0 <= i < |hs| && Run(hs[i], ctx, rec, env).err.Some? ==>
             FailureCount(rs[..i]) < |Unwrap(o.err.value)|
             && Unwrap(o.err.value)[FailureCount(rs[..i])] == Run(hs[i], ctx, rec, env).err.value
  {
    var rs := ChildOutcomes(hs, ctx, rec, env);
    assert forall i :: 0 <= i < |hs| ==> rs[i] == Run(hs[i], ctx, rec, env);
    FailuresPlacement(rs);
  }

  /** The text of a sequence composer's error contains the text of every
      failing child's error. */
  lemma SequenceMessageMentionsFailure(hs: seq<Handler>, i: nat, ctx: Context, rec: Record, env: Env)
    requires i < |hs| && Run(hs[i], ctx, rec, env).err.Some?
    ensures var o := Run(Multi(hs, false), ctx, rec, env);
      o.err.Some? && exists pre: string, post: string ::
        Message(o.err.value) == pre + Message(Run(hs[i], ctx, rec, env).err.value) + post
  {
    var rs := ChildOutcomes(hs, ctx, rec, env);
    FailuresPlacement(rs);
    JoinMentionsEach(Failures(rs), FailureCount(rs[..i]));
  }

  /** Fan-out mode returns nil iff every child succeeded; otherwise it returns
      the error of one failing child, and no more than one. */
  lemma FanOutReportsOneFailure(hs: seq<Handler>, ctx: Context, rec: Record, env: Env)
    ensures var o := Run(Multi(hs, true), ctx, rec, env);
      o.err.None? <==> forall i :: 0 <= i < |hs| ==> Run(hs[i], ctx, rec, env).err.None?
    ensures var o := Run(Multi(hs, true), ctx, rec, env);
      o.err.Some? ==> exists i :: 0 <= i < |hs| && Run(hs[i], ctx, rec, env).err == o.err
  {
    var rs := ChildOutcomes(hs, ctx, rec, env);
    assert forall i :: 0 <= i < |hs| ==> rs[i] == Run(hs[i], ctx, rec, env);
    FailuresPlacement(rs);
    var o := Run(Multi(hs, true), ctx, rec, env);
    if o.err.Some? {
      var e := o.err.value;
      assert e in Failures(rs);
      var k :| 0 <= k < |Failures(rs)| && Failures(rs)[k] == e;
      FailureOrigin(rs, k);
    }
  }

  lemma {:induction false} FailureOrigin(rs: seq<Outcome>, k: nat)
    requires k < |Failures(rs)|
    ensures exists i :: 0 <= i < |rs| && rs[i].err == Some(Failures(rs)[k])
    decreases |rs|
  {
    var n := |rs|;
    var p := rs[..n - 1];
    if k < |Failures(p)| {
      FailureOrigin(p, k);
      var i :| 0 <= i < |p| && p[i].err == Some(Failures(p)[k]);
      assert rs[i] == p[i];
    } else {
      assert rs[n - 1].err == Some(Failures(rs)[k]);
    }
  }

  /** Which failing child the fan-out reports is the scheduler's choice, and
      every failing child is a possible answer. */
  lemma FanOutMayReportAnyFailure(rs: seq<Outcome>, i: nat)
    requires i < |rs| && rs[i].err.Some?
    ensures exists pick: seq<Error> -> nat :: FanOut(rs, pick).err == rs[i].err
  {
    FailuresPlacement(rs);
    var e := rs[i].err.value;
    assert Failures(rs)[FailureCount(rs[..i])] == e;
    AnyFailureMayBeReported(Failures(rs), e);
    var pick :| GroupWait(Failures(rs), pick) == Some(e);
    assert FanOut(rs, pick).err == rs[i].err;
  }

  // ---------------------------------------------------------------------
  // Properties of whole compositions

  /** Every transport invocation receives the context and the record the
      composition was given, unmodified, however deep it is nested. */
  lemma {:induction false} SameContextAndRecord(h: Handler, ctx: Context, rec: Record, env: Env)
    ensures forall c :: c in Run(h, ctx, rec, env).calls ==> c.ctx == ctx && c.record == rec
    decreases h
  {
    match h
    case Leaf(_) =>
    case Multi(hs, _) =>
      var rs := ChildOutcomes(hs, ctx, rec, env);
      forall i | 0 <= i < |hs| ensures forall c :: c in rs[i].calls ==> c.ctx == ctx && c.record == rec {
        assert hs[i] in hs;
        SameContextAndRecord(hs[i], ctx, rec, env);
      }
      forall c | c in Run(h, ctx, rec, env).calls ensures c.ctx == ctx && c.record == rec {
        FlattenMember(rs, c);
      }
  }

  /** Every invocation in `calls` succeeded. */
  ghost predicate AllDelivered(calls: seq<Call>, env: Env)
  {
    forall c :: c in calls ==> env.deliver(c.target, c.ctx, c.record).None?
  }

  /** A composition of either mode, nested to any depth, returns nil iff
      every transport invocation it made succeeded. */
  lemma {:induction false} NilIffEveryDeliverySucceeds(h: Handler, ctx: Context, rec: Record, env: Env)
    ensures Run(h, ctx, rec, env).err.None? <==> AllDelivered(Run(h, ctx, rec, env).calls, env)
    decreases h
  {
    match h
    case Leaf(_) =>
    case Multi(hs, _) =>
      var rs := ChildOutcomes(hs, ctx, rec, env);
      FailuresPlacement(rs);
      forall i | 0 <= i < |hs| ensures rs[i].err.None? <==> AllDelivered(rs[i].calls, env) {
        assert hs[i] in hs;
        NilIffEveryDeliverySucceeds(hs[i], ctx, rec, env);
      }
      forall c ensures c in Flatten(rs) <==> exists i :: 0 <= i < |rs| && c in rs[i].calls {
        FlattenMember(rs, c);
      }
  }

  /** The transports of a composition's leaves, left to right. */
  function LeafList(h: Handler): seq<Transport>
    decreases h, 1
  {
    match h
    case Leaf(t) => [t]
    case Multi(hs, _) => LeafLists(hs)
  }

  function LeafLists(hs: seq<Handler>): seq<Transport>
    decreases hs, 0
  {
    if hs == [] then [] else LeafLists(hs[..|hs| - 1]) + LeafList(hs[|hs| - 1])
  }

  /** The transports invoked, in the order listed. */
  function Targets(calls: seq<Call>): seq<Transport>
  {
    seq(|calls|, i requires 0 <= i < |calls| => calls[i].target)
  }

  lemma {:induction false} TargetsOfRun(h: Handler, ctx: Context, rec: Record, env: Env)
    ensures Targets(Run(h, ctx, rec, env).calls) == LeafList(h)
    decreases h, 1
  {
    match h
    case Leaf(_) =>
    case Multi(hs, _) => TargetsOfChildren(hs, ctx, rec, env);
  }

  lemma {:induction false} TargetsOfChildren(hs: seq<Handler>, ctx: Context, rec: Record, env: Env)
    ensures Targets(Flatten(ChildOutcomes(hs, ctx, rec, env))) == LeafLists(hs)
    decreases hs, 0
  {
    if hs != [] {
      var n := |hs|;
      var p := hs[..n - 1];
      var x := hs[n - 1];
      assert hs == p + [x];
      ChildOutcomesAppend(p, [x], ctx, rec, env);
      var a := ChildOutcomes(p, ctx, rec, env);
      var m := ChildOutcomes([x], ctx, rec, env);
      assert m == [Run(x, ctx, rec, env)];
      FlattenAppend(a, m);
      assert Flatten(m) == Run(x, ctx, rec, env).calls by { assert m[..0] == []; }
      TargetsOfChildren(p, ctx, rec, env);
      TargetsOfRun(x, ctx, rec, env);
      var fa := Flatten(a);
      var fx := Run(x, ctx, rec, env).calls;
      assert Targets(fa + fx) == Targets(fa) + Targets(fx);
    }
  }

  /** Every leaf of a composition, however nested and in either mode, is
      invoked exactly once per `Handle` call: the invoked transports are the
      leaves, counted with multiplicity. */
  lemma InvokesEveryLeafOnce(h: Handler, ctx: Context, rec: Record, env: Env)
    ensures |Run(h, ctx, rec, env).calls| == |LeafList(h)|
    ensures multiset(Targets(Run(h, ctx, rec, env).calls)) == multiset(LeafList(h))
  {
    TargetsOfRun(h, ctx, rec, env);
  }

  /** A sequence composer nested inside another behaves as if its children
      were listed in place: the same invocations in the same order, nil in
      the same cases, and the same error text. */
  lemma InlineNestedSequence(pre: seq<Handler>, mid: seq<Handler>, post: seq<Handler>, ctx: Context, rec: Record, env: Env)
    ensures var nested := Run(Multi(pre + [Multi(mid, false)] + post, false), ctx, rec, env);
      var flat := Run(Multi(pre + mid + post, false), ctx, rec, env);
      nested.calls == flat.calls
      && (nested.err.None? <==> flat.err.None?)
      && (nested.err.Some? ==> Message(nested.err.value) == Message(flat.err.value))
  {
    var a := ChildOutcomes(pre, ctx, rec, env);
    var m := ChildOutcomes(mid, ctx, rec, env);
    var b := ChildOutcomes(post, ctx, rec, env);
    var inner := Run(Multi(mid, false), ctx, rec, env);
    var one := ChildOutcomes([Multi(mid, false)], ctx, rec, env);
    assert one == [inner];
    ChildOutcomesAppend(pre + [Multi(mid, false)], post, ctx, rec, env);
    ChildOutcomesAppend(pre, [Multi(mid, false)], ctx, rec, env);
    ChildOutcomesAppend(pre + mid, post, ctx, rec, env);
    ChildOutcomesAppend(pre, mid, ctx, rec, env);
    var nestedRs := a + one + b;
    var flatRs := a + m + b;
    assert ChildOutcomes(pre + [Multi(mid, false)] + post, ctx, rec, env) == nestedRs;
    assert ChildOutcomes(pre + mid + post, ctx, rec, env) == flatRs;
    FlattenAppend(a + one, b);
    FlattenAppend(a, one);
    FlattenAppend(a + m, b);
    FlattenAppend(a, m);
    assert Flatten(one) == inner.calls by { assert one[..0] == []; }
    FailuresAppend(a + one, b);
    FailuresAppend(a, one);
    FailuresAppend(a + m, b);
    FailuresAppend(a, m);
    assert Failures(one) == (if inner.err.Some? then [inner.err.value] else []) by { assert one[..0] == []; }
    var fa, fm, fb := Failures(a), Failures(m), Failures(b);
    if fm == [] {
      assert Failures(nestedRs) == Failures(flatRs);
    } else {
      assert Failures(nestedRs) == fa + [Joined(fm)] + fb;
      assert Failures(flatRs) == fa + fm + fb;
      JoinLinesInline(fa, fm, fb);
    }
  }

  // ---------------------------------------------------------------------
  // Worked scenarios

  /** A transport environment in which only the named Kinesis streams fail,
      each with its own name as the error text. */
  function FailingStreams(names: set<string>, pick: (seq<Handler>, seq<Error>) -> nat): Env
  {
    Env((t: Transport, _: Context, _: Record) =>
          if t.Kinesis? && t.streamName in names then Some(Failure(t.streamName)) else None,
        pick)
  }

  /** Sequence of [succeeds, fails with "x", succeeds]: all three are called
      once, in order, and the result is one aggregate holding "x". */
  lemma SequenceScenario(ctx: Context, rec: Record, pick: (seq<Handler>, seq<Error>) -> nat)
    ensures var env := FailingStreams({"x"}, pick);
      var o := Run(NewSequenceHandlers([Leaf(Sqs("a")), Leaf(Kinesis("x")), Leaf(Sqs("b"))]), ctx, rec, env);
      o.calls == [Call(Sqs("a"), ctx, rec), Call(Kinesis("x"), ctx, rec), Call(Sqs("b"), ctx, rec)]
      && o.err == Some(Joined([Failure("x")]))
      && Message(o.err.value) == "x"
  {
    var env := FailingStreams({"x"}, pick);
    var hs := [Leaf(Sqs("a")), Leaf(Kinesis("x")), Leaf(Sqs("b"))];
    var rs := ChildOutcomes(hs, ctx, rec, env);
    assert rs[0] == Outcome([Call(Sqs("a"), ctx, rec)], None);
    assert rs[1] == Outcome([Call(Kinesis("x"), ctx, rec)], Some(Failure("x")));
    assert rs[2] == Outcome([Call(Sqs("b"), ctx, rec)], None);
    assert |rs| == 3;
    assert rs[..2][..1] == rs[..1] && rs[..1][..0] == [];
    assert rs[..2][1] == rs[1] && rs[..1][0] == rs[0];
    assert Flatten(rs[..1]) == rs[0].calls;
    assert Flatten(rs[..2]) == rs[0].calls + rs[1].calls;
    assert Flatten(rs) == rs[0].calls + rs[1].calls + rs[2].calls;
    assert Failures(rs[..1]) == [];
    assert Failures(rs[..2]) == [Failure("x")];
    assert Failures(rs) == [Failure("x")];
  }

  /** Fan-out of [fails with "a", fails with "b"]: both are called, and the
      result is the error of exactly one of them. */
  lemma FanOutScenario(ctx: Context, rec: Record, pick: (seq<Handler>, seq<Error>) -> nat)
    ensures var env := FailingStreams({"a", "b"}, pick);
      var o := Run(NewFanOutHandlers([Leaf(Kinesis("a")), Leaf(Kinesis("b"))]), ctx, rec, env);
      o.calls == [Call(Kinesis("a"), ctx, rec), Call(Kinesis("b"), ctx, rec)]
      && (o.err == Some(Failure("a")) || o.err == Some(Failure("b")))
  {
    var env := FailingStreams({"a", "b"}, pick);
    var hs := [Leaf(Kinesis("a")), Leaf(Kinesis("b"))];
    var rs := ChildOutcomes(hs, ctx, rec, env);
    assert rs[0] == Outcome([Call(Kinesis("a"), ctx, rec)], Some(Failure("a")));
    assert rs[1] == Outcome([Call(Kinesis("b"), ctx, rec)], Some(Failure("b")));
    assert |rs| == 2;
    assert rs[..1][..0] == [] && rs[..1][0] == rs[0];
    assert Flatten(rs[..1]) == rs[0].calls;
    assert Flatten(rs) == rs[0].calls + rs[1].calls;
    assert Failures(rs[..1]) == [Failure("a")];
    assert Failures(rs) == [Failure("a"), Failure("b")];
  }

  /** Two fan-out composers in sequence, each over a transport failing with
      "a" and one failing with "b": each errgroup is scheduled on its own,
      so the first may report "a" while the second reports "b". */
  lemma FanOutsScheduleIndependently(ctx: Context, rec: Record)
    ensures var streams := [Leaf(Kinesis("a")), Leaf(Kinesis("b"))];
      var queues := [Leaf(Sqs("a")), Leaf(Sqs("b"))];
      var h := NewSequenceHandlers([NewFanOutHandlers(streams), NewFanOutHandlers(queues)]);
      exists pick: (seq<Handler>, seq<Error>) -> nat ::
        Run(h, ctx, rec, NamedFailures(pick)).err.Some?
        && Message(Run(h, ctx, rec, NamedFailures(pick)).err.value) == "a\nb"
  {
    var streams := [Leaf(Kinesis("a")), Leaf(Kinesis("b"))];
    var queues := [Leaf(Sqs("a")), Leaf(Sqs("b"))];
    var failed := [Failure("a"), Failure("b")];
    var pick := (hs: seq<Handler>, _: seq<Error>) => if hs == streams then 0 else 1;
    assert pick(streams, failed) == 0 && pick(queues, failed) == 1;
    SequenceOfNamedFanOuts(ctx, rec, pick);
    assert JoinLines(failed[..1]) == "a" by { assert failed[..1] == [Failure("a")]; }
    assert Message(Joined(failed)) == "a" + "\n" + "b";
  }

  /** The sequence of the two fan-outs above joins, in order, the error each
      fan-out's scheduler picked. */
  lemma SequenceOfNamedFanOuts(ctx: Context, rec: Record, pick: (seq<Handler>, seq<Error>) -> nat)
    requires pick([Leaf(Kinesis("a")), Leaf(Kinesis("b"))], [Failure("a"), Failure("b")]) % 2 == 0
    requires pick([Leaf(Sqs("a")), Leaf(Sqs("b"))], [Failure("a"), Failure("b")]) % 2 == 1
    ensures var h := NewSequenceHandlers([NewFanOutHandlers([Leaf(Kinesis("a")), Leaf(Kinesis("b"))]),
                                          NewFanOutHandlers([Leaf(Sqs("a")), Leaf(Sqs("b"))])]);
      Run(h, ctx, rec, NamedFailures(pick)).err == Some(Joined([Failure("a"), Failure("b")]))
  {
    var streams := [Leaf(Kinesis("a")), Leaf(Kinesis("b"))];
    var queues := [Leaf(Sqs("a")), Leaf(Sqs("b"))];
    var env := NamedFailures(pick);
    FanOutOfNamedPair(streams, ctx, rec, pick);
    FanOutOfNamedPair(queues, ctx, rec, pick);
    var h := NewSequenceHandlers([NewFanOutHandlers(streams), NewFanOutHandlers(queues)]);
    var rs := ChildOutcomes(h.handlers, ctx, rec, env);
    assert rs[0].err == Some(Failure("a")) && rs[1].err == Some(Failure("b"));
    assert |rs| == 2;
    assert rs[..1][..0] == [] && rs[..1][0] == rs[0];
    assert Failures(rs[..1]) == [Failure("a")];
    assert Failures(rs) == [Failure("a"), Failure("b")];
  }

  /** A fan-out over the transports named "a" and "b", both failing, reports
      the error its scheduler picks. */
  lemma FanOutOfNamedPair(hs: seq<Handler>, ctx: Context, rec: Record, pick: (seq<Handler>, seq<Error>) -> nat)
    requires hs == [Leaf(Kinesis("a")), Leaf(Kinesis("b"))] || hs == [Leaf(Sqs("a")), Leaf(Sqs("b"))]
    ensures var failed := [Failure("a"), Failure("b")];
      Run(NewFanOutHandlers(hs), ctx, rec, NamedFailures(pick)).err == Some(failed[pick(hs, failed) % 2])
  {
    var env := NamedFailures(pick);
    var rs := ChildOutcomes(hs, ctx, rec, env);
    assert rs[0] == Run(hs[0], ctx, rec, env) && rs[1] == Run(hs[1], ctx, rec, env);
    if hs[0].transport.Kinesis? {
      assert hs[0].transport == Kinesis("a") && hs[1].transport == Kinesis("b");
    } else {
      assert hs[0].transport == Sqs("a") && hs[1].transport == Sqs("b");
    }
    assert rs[0].err == Some(Failure("a")) && rs[1].err == Some(Failure("b"));
    assert |rs| == 2;
    assert rs[..1][..0] == [] && rs[..1][0] == rs[0];
    assert Failures(rs[..1]) == [Failure("a")];
    assert Failures(rs) == [Failure("a"), Failure("b")];
  }

  /** An environment in which every SQS and Kinesis transport fails, with
      its queue URL or stream name as the error text. */
  function NamedFailures(pick: (seq<Handler>, seq<Error>) -> nat): Env
  {
    Env((t: Transport, _: Context, _: Record) =>
          match t
          case Sqs(url) => Some(Failure(url))
          case Kinesis(name) => Some(Failure(name))
          case _ => None,
        pick)
  }
}
