/**
 * The publishing client: a name and one bound handler (which may be a
 * composer), the lazily defaulted clock and key generator used to build
 * records, and the process-wide default client.
 */
module Clients {
  import opened Wrappers
  import opened Errors
  import opened Values
  import opened Records
  import opened Handlers

  /** The name of the client installed at start-up. */
  const NoName := "no-name"

  /** `nil` contexts are replaced by `context.Background()`. */
  function ContextOrBackground(ctx: Option<Context>): (c: Context)
    ensures ctx.None? ==> c == Background
    ensures ctx.Some? ==> c == ctx.value
  {
    if ctx.None? then Background else ctx.value
  }

  /** `Client`. `None` in `timeNow` or `newUUID` is a nil function field. */
  class Client {
    var name: string
    var handler: Handler
    var timeNow: Option<Clock>
    var newUUID: Option<KeySource>

    /** `New(name, p)`: a nil handler is a panic, hence a precondition. */
    constructor New(name: string, p: Option<Handler>)
      requires p.Some?
      ensures this.name == name && handler == p.value
      ensures timeNow == Some(SystemClock) && newUUID == Some(RandomUuid)
    {
      this.name := name;
      handler := p.value;
      timeNow := Some(SystemClock);
      newUUID := Some(RandomUuid);
    }

    /** A struct literal `&Client{...}`, which may leave the clock and the
        key generator nil. */
    constructor Literal(name: string, handler: Handler, timeNow: Option<Clock>, newUUID: Option<KeySource>)
      ensures this.name == name && this.handler == handler
      ensures this.timeNow == timeNow && this.newUUID == newUUID
    {
      this.name := name;
      this.handler := handler;
      this.timeNow := timeNow;
      this.newUUID := newUUID;
    }

    /** `newRecord`: install the default clock and key generator where
        they are nil (and keep them), then build the record from one clock
        reading and one key. `reading` and `drawn` are what `time.Now` and
        `uuid.NewString` would return. */
    method NewRecord(ctx: Context, source: string, data: Value, reading: Time, drawn: string) returns (r: Record)
      modifies this
      ensures name == old(name) && handler == old(handler)
      ensures timeNow == (if old(timeNow).None? then Some(SystemClock) else old(timeNow))
      ensures newUUID == (if old(newUUID).None? then Some(RandomUuid) else old(newUUID))
      ensures r == BuildRecord(ctx, source, data, ReadClock(timeNow.value, reading), DrawKey(newUUID.value, drawn))
    {
      if timeNow.None? {
        timeNow := Some(SystemClock);
      }
      if newUUID.None? {
        newUUID := Some(RandomUuid);
      }
      var now := ReadClock(timeNow.value, reading);
      var key := DrawKey(newUUID.value, drawn);
      r := BuildRecord(ctx, source, data, now, key);
    }

    /** `publish` / `Publish`: build exactly one record whose source is the
        client's name and hand it, with the (defaulted) context, to the bound
        handler in exactly one `Handle` call; its error is returned as is.
        `calls` are the transport invocations that call made. */
    method Publish(ctx: Option<Context>, input: Value, reading: Time, drawn: string, env: Env)
      returns (calls: seq<Call>, err: Option<Error>)
      modifies this
      ensures name == old(name) && handler == old(handler)
      ensures timeNow == (if old(timeNow).None? then Some(SystemClock) else old(timeNow))
      ensures newUUID == (if old(newUUID).None? then Some(RandomUuid) else old(newUUID))
      ensures var c := ContextOrBackground(ctx);
        var rec := BuildRecord(c, name, input, ReadClock(timeNow.value, reading), DrawKey(newUUID.value, drawn));
        Outcome(calls, err) == Run(handler, c, rec, env)
      ensures forall call :: call in calls ==>
        call.ctx == ContextOrBackground(ctx) && call.record.source == name && call.record.data == input
    {
      var c := ContextOrBackground(ctx);
      var rec := NewRecord(c, name, input, reading, drawn);
      calls, err := Handle(handler, c, rec, env);
      SameContextAndRecord(handler, c, rec, env);
    }
  }

  /** The process-wide default client, `defaultClient`: one cell read by
      `Default` and written by `init` and `SetDefault`. Like the Go pointer,
      it may be set to nil. */
  class Registry {
    var current: Client?

    /** `init`: the default is a client named "no-name" that writes JSON to
        `io.Discard`. */
    constructor Init()
      ensures current != null && fresh(current)
      ensures Default().name == NoName && Default().handler == Leaf(Json(Discard))
      ensures Default().timeNow == Some(SystemClock) && Default().newUUID == Some(RandomUuid)
    {
      current := new Client.New(NoName, Some(Leaf(Json(Discard))));
    }

    /** `Default()`: the client stored last, possibly nil. */
    function Default(): (c: Client?)
      reads this
      ensures c == current
    {
      current
    }

    /** `SetDefault(c)`: later reads see `c`, nil included. */
    method SetDefault(c: Client?)
      modifies this
      ensures Default() == c
    {
      current := c;
    }

    /** Package-level `Publish(input)`: read the default now and publish
        through it with a background context. Publishing through a nil
        default panics when `publish` reads its name, hence the
        precondition. */
    method Publish(input: Value, reading: Time, drawn: string, env: Env)
      returns (calls: seq<Call>, err: Option<Error>)
      requires Default() != null
      modifies current
      ensures Default() == old(Default())
      ensures Default().name == old(Default().name) && Default().handler == old(Default().handler)
      ensures Default().timeNow == (if old(Default().timeNow).None? then Some(SystemClock) else old(Default().timeNow))
      ensures Default().newUUID == (if old(Default().newUUID).None? then Some(RandomUuid) else old(Default().newUUID))
      ensures var d := Default();
        var rec := BuildRecord(Background, d.name, input, ReadClock(d.timeNow.value, reading), DrawKey(d.newUUID.value, drawn));
        Outcome(calls, err) == Run(d.handler, Background, rec, env)
    {
      var d := Default();
      calls, err := d.Publish(Some(Background), input, reading, drawn, env);
    }

    /** Package-level `PublishContext(ctx, input)`: read the default now and
        publish through it with `ctx`. A nil default panics, as for
        `Publish`. */
    method PublishContext(ctx: Option<Context>, input: Value, reading: Time, drawn: string, env: Env)
      returns (calls: seq<Call>, err: Option<Error>)
      requires Default() != null
      modifies current
      ensures Default() == old(Default())
      ensures Default().name == old(Default().name) && Default().handler == old(Default().handler)
      ensures Default().timeNow == (if old(Default().timeNow).None? then Some(SystemClock) else old(Default().timeNow))
      ensures Default().newUUID == (if old(Default().newUUID).None? then Some(RandomUuid) else old(Default().newUUID))
      ensures var d := Default();
        var c := ContextOrBackground(ctx);
        var rec := BuildRecord(c, d.name, input, ReadClock(d.timeNow.value, reading), DrawKey(d.newUUID.value, drawn));
        Outcome(calls, err) == Run(d.handler, c, rec, env)
    {
      var d := Default();
      calls, err := d.Publish(ctx, input, reading, drawn, env);
    }
  }

  /** Swapping the default: before any `SetDefault` the "no-name" client
      answers; afterwards both package-level publish functions reach the new
      client's handler exactly once each, with a record whose source is the
      new client's name and whose data is the payload given. */
  method DefaultSwapScenario(reading: Time, drawn: string, env: Env)
    returns (first: seq<Call>, second: seq<Call>)
    ensures first == [Call(Json(Writer("buf")), Background,
      BuildRecord(Background, "test-service", Object(map["a" := Str("1")]), reading, drawn))]
    ensures second == [Call(Json(Writer("buf")), Background,
      BuildRecord(Background, "test-service", Object(map["b" := Str("2")]), reading, drawn))]
  {
    var registry := new Registry.Init();
    assert registry.Default().name == NoName;
    var client := new Client.New("test-service", Some(Leaf(Json(Writer("buf")))));
    registry.SetDefault(client);
    assert registry.Default() == client;
    var err;
    first, err := registry.Publish(Object(map["a" := Str("1")]), reading, drawn, env);
    second, err := registry.PublishContext(Some(Background), Object(map["b" := Str("2")]), reading, drawn, env);
  }
}
