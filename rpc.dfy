/**
 * The call path of ai_grpc_utils/generators.py: the client-side `wrapper` that `grpc_runner` builds,
 * the server-side dispatch step `template`, the servicer that routes a procedure name to it, and how
 * the two ends compose.
 */
module Rpc {
  import opened Outcomes
  import opened Values
  import opened Routing
  import Discovery
  import Utf8

  /** `func(self, *args, **kwargs)` for a fixed `self`: returns a value or raises. */
  type Method = (seq<Value>, Kwargs) -> Outcome<Value>

  /** A stub procedure: the `data` of a `DataSendRequest` to the `data` of a `DataResponse`. */
  type Procedure = string -> Outcome<string>

  /** `self.grpc_client`: the stub's procedures by name. */
  type Stub = map<string, Procedure>

  /** `json.dumps(_, cls=encoder)`. */
  type Dumps = Value -> Outcome<string>

  /** `json.loads`. */
  type Loads = string -> Outcome<Value>

  /** `decoder()(result)`: the post-decode hook, instantiated and applied. */
  type Hook = Value -> Outcome<Value>

  /** What `@grpc_runner(encoder=..., decoder=...)` captures about the function it decorates. */
  datatype Runner = Runner(name: string, func: Method, encoder: Dumps, decoder: Option<Hook>)

  /** `if decoder: result = decoder()(result)`. */
  function ApplyDecoder(decoder: Option<Hook>, result: Value): Outcome<Value>
  {
    match decoder
    case None => Ok(result)
    case Some(d) => d(result)
  }

  /**
   * The guarded part of the remote path: encode the envelope `{"args", "kwargs"}`, call the
   * procedure, decode the reply, then apply the decoder.
   */
  function RemoteCall(proc: Procedure, encoder: Dumps, loads: Loads, decoder: Option<Hook>,
                      args: seq<Value>, kwargs: Kwargs): Outcome<Value>
  {
    match encoder(Envelope(args, kwargs))
    case Fail(e) => Fail(e)
    case Ok(request) =>
      match proc(request)
      case Fail(e) => Fail(e)
      case Ok(response) =>
        match loads(response)
        case Fail(e) => Fail(e)
        case Ok(result) => ApplyDecoder(decoder, result)
  }

  /** `except Exception as e: return {"error": e}`. */
  function Captured(o: Outcome<Value>): (r: Outcome<Value>)
    ensures r.Ok?
    ensures o.Ok? ==> r == o
    ensures o.Fail? ==> r == Ok(ErrorValue(o.error))
  {
    match o
    case Ok(v) => Ok(v)
    case Fail(e) => Ok(ErrorValue(e))
  }

  /**
   * The attribute `self.grpc_client` as `wrapper` reads it: never assigned on the instance, or
   * assigned a value that is either a stub or falsy (`None`).
   */
  datatype ClientSlot = Unassigned | Assigned(client: Option<Stub>)

  /**
   * `wrapper(self, *args, **kwargs)`, with `slot` as `self.grpc_client`.  Reading the attribute comes
   * first, so an instance that never assigned it raises on every call; looking up the stub procedure
   * happens outside the `try`, so a stub without it raises too.
   */
  function Wrapper(r: Runner, slot: ClientSlot, loads: Loads, args: seq<Value>, kwargs: Kwargs): (res: Outcome<Value>)
    ensures slot.Unassigned? ==> res == Fail(AttributeError("grpc_client"))
    ensures slot == Assigned(None) ==> res == r.func(args, kwargs)
    ensures slot.Assigned? && slot.client.Some? && r.name !in slot.client.value ==> res == Fail(AttributeError(r.name))
    ensures slot.Assigned? && slot.client.Some? && r.name in slot.client.value ==> res.Ok?
  {
    match slot
    case Unassigned => Fail(AttributeError("grpc_client"))
    case Assigned(None) => r.func(args, kwargs)
    case Assigned(Some(stub)) =>
      if r.name !in stub then Fail(AttributeError(r.name))
      else Captured(RemoteCall(stub[r.name], r.encoder, loads, r.decoder, args, kwargs))
  }

  /**
   * On the remote path the wrapper calls the procedure named like the function with the encoded
   * envelope, and returns the decoded reply after the decoder, if any; a failure at any of these
   * steps comes back as `{"error": e}`.
   */
  lemma RemotePath(r: Runner, stub: Stub, loads: Loads, args: seq<Value>, kwargs: Kwargs)
    requires r.name in stub
    ensures var res := Wrapper(r, Assigned(Some(stub)), loads, args, kwargs);
            match r.encoder(Envelope(args, kwargs))
            case Fail(e) => res == Ok(ErrorValue(e))
            case Ok(request) =>
              match stub[r.name](request)
              case Fail(e) => res == Ok(ErrorValue(e))
              case Ok(response) =>
                match loads(response)
                case Fail(e) => res == Ok(ErrorValue(e))
                case Ok(result) => res == Captured(ApplyDecoder(r.decoder, result))
  {
  }

  /** The decoder is applied exactly once, to the whole decoded reply. */
  lemma DecoderAppliedOnce(proc: Procedure, encoder: Dumps, loads: Loads, d: Hook, args: seq<Value>, kwargs: Kwargs)
    ensures RemoteCall(proc, encoder, loads, Some(d), args, kwargs) ==
            match RemoteCall(proc, encoder, loads, None, args, kwargs)
            case Fail(e) => Fail(e)
            case Ok(result) => d(result)
  {
  }

  // ---------------------------------------------------------------------------------------------
  // Server side.

  /**
   * `*v` in a call: a list spreads its items, a `str` its characters, `bytes` its octets as ints and a
   * dict its keys; anything else is not iterable.
   */
  function Spread(v: Value): (r: Outcome<seq<Value>>)
    ensures r.Ok? <==> v.List? || v.Str? || v.Bytes? || v.Dict?
    ensures r.Fail? ==> r == Fail(TypeError)
    ensures v.List? ==> r == Ok(v.items)
    ensures v.Str? ==> |r.value| == |v.text| && forall i :: 0 <= i < |v.text| ==> r.value[i] == Str([v.text[i]])
    ensures v.Bytes? ==> |r.value| == |v.bytes| && forall i :: 0 <= i < |v.bytes| ==> r.value[i] == Int(v.bytes[i])
    ensures v.Dict? ==> |r.value| == |v.entries| && forall i :: 0 <= i < |v.entries| ==> r.value[i] == KeyText(v.entries[i].0)
  {
    match v
    case List(items) => Ok(items)
    case Str(t) => Ok(seq(|t|, i requires 0 <= i < |t| => Str([t[i]])))
    case Bytes(bs) => Ok(seq(|bs|, i requires 0 <= i < |bs| => Int(bs[i])))
    case Dict(entries) => Ok(seq(|entries|, i requires 0 <= i < |entries| => KeyText(entries[i].0)))
    case _ => Fail(TypeError)
  }

  /** `**v` in a call: only a mapping can be spread into keyword arguments. */
  function Keywords(v: Value): (r: Outcome<Kwargs>)
    ensures r.Ok? <==> v.Dict?
    ensures v.Dict? ==> r == Ok(v.entries)
  {
    if v.Dict? then Ok(v.entries) else Fail(TypeError)
  }

  /**
   * `template(self, request, context, cls_func)`: decode the envelope, call the routed function with
   * `args` spread positionally and `kwargs` by keyword, and encode what it returns.  The call
   * evaluates both subscripts first, then merges the `**` operand, and only then turns the `*`
   * operand into a tuple.  Nothing is caught: every failure propagates to the transport.
   */
  function Template(clsFunc: Method, loads: Loads, dumps: Dumps, data: string): Outcome<string>
  {
    match loads(data)
    case Fail(e) => Fail(e)
    case Ok(req) =>
      match GetItem(req, "args")
      case Fail(e) => Fail(e)
      case Ok(a) =>
        match GetItem(req, "kwargs")
        case Fail(e) => Fail(e)
        case Ok(k) =>
          match Keywords(k)
          case Fail(e) => Fail(e)
          case Ok(kwargs) =>
            match Spread(a)
            case Fail(e) => Fail(e)
            case Ok(args) =>
              match clsFunc(args, kwargs)
              case Fail(e) => Fail(e)
              case Ok(result) => dumps(result)
  }

  /**
   * On any request whose `args` and `kwargs` can be read and spread, whatever the order of its keys or
   * what else it holds, the routed function receives the spread arguments; its result is encoded, and
   * its failure is not caught.
   */
  lemma TemplateCalls(clsFunc: Method, loads: Loads, dumps: Dumps, data: string,
                      req: Value, a: Value, k: Value, args: seq<Value>, kwargs: Kwargs)
    requires loads(data) == Ok(req)
    requires GetItem(req, "args") == Ok(a) && GetItem(req, "kwargs") == Ok(k)
    requires Keywords(k) == Ok(kwargs) && Spread(a) == Ok(args)
    ensures Template(clsFunc, loads, dumps, data) ==
            match clsFunc(args, kwargs)
            case Fail(e) => Fail(e)
            case Ok(result) => dumps(result)
  {
  }

  /** On the client's own envelope the routed function receives exactly its arguments. */
  lemma TemplateOnEnvelope(clsFunc: Method, loads: Loads, dumps: Dumps, data: string,
                           args: seq<Value>, kwargs: Kwargs)
    requires loads(data) == Ok(Envelope(args, kwargs))
    ensures Template(clsFunc, loads, dumps, data) ==
            match clsFunc(args, kwargs)
            case Fail(e) => Fail(e)
            case Ok(result) => dumps(result)
  {
    TemplateCalls(clsFunc, loads, dumps, data, Envelope(args, kwargs), List(args), Dict(kwargs), args, kwargs);
  }

  /** The order of the keys does not matter: `{"kwargs": {}, "args": [x]}` calls the function with `x`. */
  lemma ReorderedEnvelope(clsFunc: Method, loads: Loads, dumps: Dumps, data: string, x: Value)
    requires loads(data) == Ok(Dict([("kwargs", Dict([])), ("args", List([x]))]))
    ensures Template(clsFunc, loads, dumps, data) ==
            match clsFunc([x], [])
            case Fail(e) => Fail(e)
            case Ok(result) => dumps(result)
  {
    var req := Dict([("kwargs", Dict([])), ("args", List([x]))]);
    assert GetItem(Dict(req.entries[1..]), "args") == Ok(List([x]));
    TemplateCalls(clsFunc, loads, dumps, data, req, List([x]), Dict([]), [x], []);
  }

  /**
   * A request whose payload is not an envelope fails before anything is called, with the first
   * failure in evaluation order: a non-dict, then a missing `args`, then a missing `kwargs`, then a
   * `kwargs` that is not a mapping, then an `args` that is not iterable.
   */
  lemma TemplateRejectsMalformed(clsFunc: Method, loads: Loads, dumps: Dumps, data: string)
    requires loads(data).Ok?
    ensures var req := loads(data).value;
            var a, k := GetItem(req, "args"), GetItem(req, "kwargs");
            var r := Template(clsFunc, loads, dumps, data);
            (!req.Dict? ==> r == Fail(TypeError))
            && (req.Dict? && a.Fail? ==> r == Fail(KeyError("args")))
            && (a.Ok? && k.Fail? ==> r == Fail(KeyError("kwargs")))
            && (a.Ok? && k.Ok? && !k.value.Dict? ==> r == Fail(TypeError))
            && (a.Ok? && k.Ok? && k.value.Dict? && Spread(a.value).Fail? ==> r == Fail(TypeError))
  {
  }

  /** `{"args": 5}` without `kwargs` raises `KeyError('kwargs')`: the `*` operand is checked last. */
  lemma MissingKwargsBeforeBadArgs(clsFunc: Method, loads: Loads, dumps: Dumps, data: string)
    requires loads(data) == Ok(Dict([("args", Int(5))]))
    ensures Template(clsFunc, loads, dumps, data) == Fail(KeyError("kwargs"))
  {
    assert GetItem(Dict([("args", Int(5))]), "args") == Ok(Int(5));
    assert GetItem(Dict([("args", Int(5))][1..]), "kwargs") == Fail(KeyError("kwargs"));
  }

  /** The first route of the table with that name. */
  function Lookup(t: seq<Route>, name: string): (r: Option<Route>)
    ensures r.Some? <==> Routed(t, name)
    ensures r.Some? ==> r.value.name == name && exists i :: 0 <= i < |t| && t[i] == r.value
    decreases |t|
  {
    if t == [] then None
    else if t[0].name == name then Some(t[0])
    else
      var r := Lookup(t[1..], name);
      assert Routed(t[1..], name) ==> Routed(t, name) by {
        if Routed(t[1..], name) {
          var i :| 0 <= i < |t[1..]| && t[1..][i].name == name;
          assert t[i + 1].name == name;
        }
      }
      assert Routed(t, name) ==> Routed(t[1..], name) by {
        if Routed(t, name) {
          var i :| 0 <= i < |t| && t[i].name == name;
          assert i > 0 && t[1..][i - 1].name == name;
        }
      }
      assert r.Some? ==> exists i :: 0 <= i < |t| && t[i] == r.value by {
        if r.Some? {
          var i :| 0 <= i < |t[1..]| && t[1..][i] == r.value;
          assert t[i + 1] == r.value;
        }
      }
      r
  }

  /**
   * The servicer's handling of a call to `procedure`: the routing table's field of that name runs
   * `template` over the bound attribute of its instance.  `impl(k, n)` is `getattr(ref_cls[k], n)`.
   * A name without a field is answered by the transport as unimplemented.
   */
  function Handle(t: seq<Route>, impl: (nat, string) -> Method, loads: Loads, dumps: Dumps,
                  procedure: string, data: string): (r: Outcome<string>)
    ensures !Routed(t, procedure) ==> r == Fail(External("UNIMPLEMENTED"))
    ensures Routed(t, procedure) ==>
              exists i :: 0 <= i < |t| && t[i].name == procedure && r == Template(impl(t[i].ref, procedure), loads, dumps, data)
  {
    match Lookup(t, procedure)
    case None => Fail(External("UNIMPLEMENTED"))
    case Some(route) => Template(impl(route.ref, procedure), loads, dumps, data)
  }

  /**
   * Every call to a discovered capability runs on the first instance, in list order, that has it as a
   * capability: a later instance with the same name is never reached.
   */
  lemma ServedByFirstInstance(hs: seq<Discovery.Handler>, t: seq<Route>, impl: (nat, string) -> Method,
                              loads: Loads, dumps: Dumps, n: string, data: string)
    requires IsTaggedRoutingTable(hs, Discovery.DecoratedMethods(Discovery.Many(hs), Discovery.DefaultTag), t)
    requires n in Discovery.DecoratedMethods(Discovery.Many(hs), Discovery.DefaultTag)
    ensures exists k :: 0 <= k < |hs| && Discovery.HasCapability(hs[k], n, Discovery.DefaultTag)
                        && !CapabilityBefore(hs, k, n)
                        && Handle(t, impl, loads, dumps, n, data) == Template(impl(k, n), loads, dumps, data)
  {
    assert Routed(t, n);
    var route := Lookup(t, n).value;
    var i :| 0 <= i < |t| && t[i] == route;
    assert Discovery.HasCapability(hs[route.ref], n, Discovery.DefaultTag) && !CapabilityBefore(hs, route.ref, n);
  }

  // ---------------------------------------------------------------------------------------------
  // Both ends together.

  /** How the transport hands a server-side outcome to the client stub: a raised failure becomes an RpcError. */
  function Transport(o: Outcome<string>): (r: Outcome<string>)
    ensures o.Ok? <==> r.Ok?
    ensures o.Ok? ==> r == o
    ensures o.Fail? ==> r == Fail(RpcError(o.error))
  {
    match o
    case Ok(s) => Ok(s)
    case Fail(e) => Fail(RpcError(e))
  }

  /**
   * The wiring the end-to-end lemmas assume: the stub has a procedure named like the function, and
   * that procedure hands its request to the server's `template` over the routed attribute, which is
   * the same decorated method on an instance whose `grpc_client` is `None` (so it runs locally); what
   * `template` returns or raises comes back through the transport.
   */
  ghost predicate ConnectedTo(r: Runner, stub: Stub, loads: Loads, serverDumps: Dumps)
  {
    r.name in stub
    && forall p :: stub[r.name](p) ==
         Transport(Template((a, kw) => Wrapper(r, Assigned(None), loads, a, kw), loads, serverDumps, p))
  }

  /**
   * End to end: when the request and the result survive JSON encoding and decoding, the connected
   * call returns what the local call returns, after the decoder (its failure captured).
   */
  lemma RemoteAgreesWithLocal(r: Runner, stub: Stub, loads: Loads, serverDumps: Dumps,
                              args: seq<Value>, kwargs: Kwargs, result: Value, request: string, reply: string)
    requires ConnectedTo(r, stub, loads, serverDumps)
    requires r.func(args, kwargs) == Ok(result)
    requires r.encoder(Envelope(args, kwargs)) == Ok(request) && loads(request) == Ok(Envelope(args, kwargs))
    requires serverDumps(result) == Ok(reply) && loads(reply) == Ok(result)
    ensures Wrapper(r, Assigned(Some(stub)), loads, args, kwargs) == Captured(ApplyDecoder(r.decoder, result))
    ensures r.decoder.None? ==> Wrapper(r, Assigned(Some(stub)), loads, args, kwargs) == Wrapper(r, Assigned(None), loads, args, kwargs)
  {
    var serverFunc := (a, kw) => Wrapper(r, Assigned(None), loads, a, kw);
    TemplateOnEnvelope(serverFunc, loads, serverDumps, request, args, kwargs);
    assert stub[r.name](request) == Ok(reply);
  }

  /**
   * A server instance that never assigned `grpc_client` raises inside `template`, so every connected
   * call returns `{"error": RpcError(AttributeError("grpc_client"))}`, whatever the function does.
   */
  lemma UnassignedServerFails(r: Runner, stub: Stub, loads: Loads, serverDumps: Dumps,
                              args: seq<Value>, kwargs: Kwargs, request: string)
    requires r.name in stub
    requires forall p :: stub[r.name](p) ==
               Transport(Template((a, kw) => Wrapper(r, Unassigned, loads, a, kw), loads, serverDumps, p))
    requires r.encoder(Envelope(args, kwargs)) == Ok(request) && loads(request) == Ok(Envelope(args, kwargs))
    ensures Wrapper(r, Assigned(Some(stub)), loads, args, kwargs) == Ok(ErrorValue(RpcError(AttributeError("grpc_client"))))
  {
    var serverFunc := (a, kw) => Wrapper(r, Unassigned, loads, a, kw);
    TemplateOnEnvelope(serverFunc, loads, serverDumps, request, args, kwargs);
    assert stub[r.name](request) == Fail(RpcError(AttributeError("grpc_client")));
  }

  /**
   * The asymmetry of the two paths: a function that raises makes the connected call return
   * `{"error": RpcError(e)}`, while the same call without a client raises `e`.
   */
  lemma RemoteFailureIsCaptured(r: Runner, stub: Stub, loads: Loads, serverDumps: Dumps,
                                args: seq<Value>, kwargs: Kwargs, e: Failure, request: string)
    requires ConnectedTo(r, stub, loads, serverDumps)
    requires r.func(args, kwargs) == Fail(e)
    requires r.encoder(Envelope(args, kwargs)) == Ok(request) && loads(request) == Ok(Envelope(args, kwargs))
    ensures Wrapper(r, Assigned(Some(stub)), loads, args, kwargs) == Ok(ErrorValue(RpcError(e)))
    ensures Wrapper(r, Assigned(None), loads, args, kwargs) == Fail(e)
  {
    var serverFunc := (a, kw) => Wrapper(r, Assigned(None), loads, a, kw);
    TemplateOnEnvelope(serverFunc, loads, serverDumps, request, args, kwargs);
    assert stub[r.name](request) == Fail(RpcError(e));
  }

  // ---------------------------------------------------------------------------------------------
  // The scenario of the test suite: `process(arg)` returns f"Processed! ({arg=})".

  /** The tests' `process` for a `str` argument without quotes: `repr` adds single quotes. */
  function Process(args: seq<Value>, kwargs: Kwargs): Outcome<Value>
  {
    if |args| == 1 && kwargs == [] && args[0].Str? then
      Ok(Str(Text("Processed! (arg='") + args[0].text + Text("')")))
    else Fail(TypeError)
  }

  /** The client of tests/test_simple.py gets the string the handler built. */
  lemma SimpleScenario(stub: Stub, encoder: Dumps, loads: Loads, serverDumps: Dumps, request: string, reply: string)
    requires ConnectedTo(Runner("process", Process, encoder, None), stub, loads, serverDumps)
    requires encoder(Envelope([Str(Text("Some text"))], [])) == Ok(request)
    requires loads(request) == Ok(Envelope([Str(Text("Some text"))], []))
    requires serverDumps(Str(Text("Processed! (arg='Some text')"))) == Ok(reply)
    requires loads(reply) == Ok(Str(Text("Processed! (arg='Some text')")))
    ensures Wrapper(Runner("process", Process, encoder, None), Assigned(Some(stub)), loads, [Str(Text("Some text"))], [])
            == Ok(Str(Text("Processed! (arg='Some text')")))
  {
    var result := Str(Text("Processed! (arg='Some text')"));
    assert Text("Processed! (arg='") + Text("Some text") + Text("')") == Text("Processed! (arg='Some text')");
    RemoteAgreesWithLocal(Runner("process", Process, encoder, None), stub, loads, serverDumps,
                          [Str(Text("Some text"))], [], result, request, reply);
  }

  /**
   * With `decoder=StrToBytesDecoder` a connected call whose function returns a `str` gets its UTF-8
   * encoding; a function returning anything else makes the decoder raise, and the call returns
   * `{"error": AttributeError("encode")}`.
   */
  lemma RemoteBytes(r: Runner, stub: Stub, loads: Loads, serverDumps: Dumps,
                    args: seq<Value>, kwargs: Kwargs, result: Value, request: string, reply: string)
    requires r.decoder == Some(v => Utf8.StrToBytesDecoder(v, [], []))
    requires ConnectedTo(r, stub, loads, serverDumps)
    requires r.func(args, kwargs) == Ok(result)
    requires r.encoder(Envelope(args, kwargs)) == Ok(request) && loads(request) == Ok(Envelope(args, kwargs))
    requires serverDumps(result) == Ok(reply) && loads(reply) == Ok(result)
    ensures var res := Wrapper(r, Assigned(Some(stub)), loads, args, kwargs);
            (result.Str? && Utf8.AllScalars(result.text) ==>
               res.Ok? && res.value.Bytes? && Utf8.Decode(res.value.bytes) == Some(result.text))
            && (!result.Str? ==> res == Ok(ErrorValue(AttributeError("encode"))))
  {
    RemoteAgreesWithLocal(r, stub, loads, serverDumps, args, kwargs, result, request, reply);
  }

  /** The client of tests/test_decoder.py gets bytes that decode back to the string the handler built. */
  lemma DecoderScenario(stub: Stub, encoder: Dumps, loads: Loads, serverDumps: Dumps, request: string, reply: string)
    requires ConnectedTo(Runner("process", Process, encoder, Some(v => Utf8.StrToBytesDecoder(v, [], []))),
                         stub, loads, serverDumps)
    requires encoder(Envelope([Str(Text("Some text"))], [])) == Ok(request)
    requires loads(request) == Ok(Envelope([Str(Text("Some text"))], []))
    requires serverDumps(Str(Text("Processed! (arg='Some text')"))) == Ok(reply)
    requires loads(reply) == Ok(Str(Text("Processed! (arg='Some text')")))
    ensures var res := Wrapper(Runner("process", Process, encoder, Some(v => Utf8.StrToBytesDecoder(v, [], []))),
                               Assigned(Some(stub)), loads, [Str(Text("Some text"))], []);
            res.Ok? && res.value.Bytes? && Utf8.Decode(res.value.bytes) == Some(Text("Processed! (arg='Some text')"))
  {
    var t := Text("Processed! (arg='Some text')");
    assert Text("Processed! (arg='") + Text("Some text") + Text("')") == t;
    Utf8.TextIsScalar("Processed! (arg='Some text')");
    RemoteBytes(Runner("process", Process, encoder, Some(v => Utf8.StrToBytesDecoder(v, [], []))),
                stub, loads, serverDumps, [Str(Text("Some text"))], [], Str(t), request, reply);
  }
}
