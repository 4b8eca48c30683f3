# ai-grpc-utils, modelled in Dafny

ai-grpc-utils turns the methods a Python class marks with `@grpc_runner` into a gRPC service. This
project models the core of that library and proves properties about the model.

- **Discovery.** `get_decorated_methods` collects the tagged, callable, non-dunder attribute names of
  one or more handler instances.
- **Contract text.** `get_protos_and_services` writes a `.proto` text with a one-field request message, a
  one-field response message, an empty message, and a service `<package>gRPC` holding one `rpc` line per
  discovered name.
- **Routing.** `create_service` builds the servicer's routing table. It walks the instances and their
  names, and the first name seen wins.
- **Client side.** The `wrapper` that `grpc_runner` builds either runs the function locally or sends the
  envelope `{"args", "kwargs"}` to the stub procedure of the same name. On that remote path it turns any
  failure into the value `{"error": e}`.
- **Server side.** `template` decodes the envelope, calls the routed function and encodes the result. It
  catches nothing.
- **Resolution.** `connect_to_grpc_server` and `serve` resolve host, port and channel options.
- **Decoder.** `StrToBytesDecoder` is UTF-8 encoding, in the strict form of section 3 of RFC 3629.
- **Version.** `read_version_string` in setup.py reads the version from a sequence of lines.

## Modules

| file | module | models |
|---|---|---|
| outcomes.dfy | `Outcomes` | Python exceptions, as `Failure`, and `Outcome<T>` (`Ok` or `Fail`): "returns or raises" |
| values.dfy | `Values` | JSON-like Python values; `str` as a sequence of code points; subscripting a dict |
| utf8.dfy | `Utf8` | ai_grpc_utils/decoders.py |
| strings.dfy | `Strings` | `str.split` / `str.join` on one character, `startswith` |
| discovery.dfy | `Discovery` | `get_decorated_methods`, and the tag `grpc_runner` sets |
| contract.dfy | `Contract` | the `PROTO` text of `get_protos_and_services` |
| routing.dfy | `Routing` | `create_service`, as written and corrected |
| rpc.dfy | `Rpc` | `wrapper`, `template`, `func`, and the two ends composed |
| config.dfy | `Config` | addresses and channel options of `connect_to_grpc_server` and `serve` |
| setup.dfy | `Setup` | `read_version_string` |

External operations are parameters of the model, each returning `Ok(v)` or `Fail(e)`:

- reflection (`dir`, `getattr`, `callable`, `hasattr`) is the attribute records `Discovery.Attr`, listed in
  `dir` order;
- `json.dumps`, with or without an encoder class, and `json.loads`;
- the stub procedures;
- the instantiated decoder;
- the transport between the two ends;
- the environment, which is a map.

Returning or raising is modelled by `Outcome`.

Three points about how the model reads the code:

- Python sets are unordered. The order in which `get_protos_and_services` iterates the discovered names is
  therefore left open: `Contract.EnumerateNames` returns some duplicate-free enumeration.
- A Python `str` can hold lone surrogates, which a Dafny `char` cannot. So values are sequences of integer
  code points, and the decoder's failure on surrogates can be modelled. Attribute, package and version
  strings stay Dafny strings.
- `serve` extends the caller's `options` list in place. The list is therefore a class, `Config.OptionList`,
  and the caller sees the extension.

## Model

| member | source | states |
|---|---|---|
| Discovery.Instances | ai_grpc_utils/generators.py:18-21 | a non-list argument becomes a one-element list; a list is used as given |
| Discovery.IsDunder | ai_grpc_utils/generators.py:31 | `name.startswith("__")` |
| Discovery.IsCapability | ai_grpc_utils/generators.py:29-33 | the filter of the comprehension: callable, not a dunder, and carrying the tag |
| Discovery.DiscoveredIff | ai_grpc_utils/generators.py:23-34 | a name is discovered iff some instance has an attribute of that name that is callable, does not start with `__`, and carries the tag |
| Discovery.OneIsSingletonList | ai_grpc_utils/generators.py:18-21 | discovery on one instance equals discovery on the one-element list holding it |
| Discovery.DiscoveryIsUnion | ai_grpc_utils/generators.py:23-27 | discovery over a list of instances is the union of discovery over each instance |
| Discovery.DecoratedMethods | ai_grpc_utils/generators.py:17-34 | the set comprehension of lines 23-34 over the instances of lines 18-21; what it holds is stated by `DiscoveredIff` |
| Discovery.GrpcRunner | ai_grpc_utils/generators.py:94-97 | the attribute left by `@grpc_runner` has the function's name and carries the tag `grpc_runner`; it is a capability iff its name is not a dunder |
| Discovery.DecoratedAlwaysDiscovered | ai_grpc_utils/generators.py:17 | a decorated method with an ordinary name is always discovered under the default tag |
| Contract.HeaderLines | ai_grpc_utils/generators.py:45-61 | the template has seventeen lines before the procedure declarations |
| Contract.RpcLine | ai_grpc_utils/generators.py:41 | the declaration `rpc N(DataSendRequest) returns (DataResponse);` of one name, without its newline |
| Contract.ServiceName | ai_grpc_utils/generators.py:61 | the service name `{package_name}gRPC` |
| Contract.RpcLines | ai_grpc_utils/generators.py:40-42 | one declaration line `rpc N(DataSendRequest) returns (DataResponse);` per name, in order |
| Contract.RpcFuncs | ai_grpc_utils/generators.py:40-43 | `proto_funcs`: the declaration of each name followed by a newline, concatenated in order; its lines are stated by `BodyRpcDecls` |
| Contract.ProtoText | ai_grpc_utils/generators.py:45-64 | the `PROTO` f-string over the package name and `proto_funcs`; its lines are stated by `ContractLines` |
| Contract.ContractLines | ai_grpc_utils/generators.py:40-64 | when no name holds a newline, the `PROTO` text splits into exactly the header lines, the body lines and the two closing lines |
| Contract.ContractDeclarations | ai_grpc_utils/generators.py:40-63 | the `rpc` lines of the text, with indentation removed, are `rpc N(DataSendRequest) returns (DataResponse);` for the names, in order; no other line declares a procedure |
| Contract.ProtoLinesDecls | ai_grpc_utils/generators.py:45-64 | among the template's lines only the declarations built from `proto_funcs` are `rpc` lines |
| Contract.HeaderHasNoRpcDecl | ai_grpc_utils/generators.py:45-61 | no line of the fixed header starts with `rpc` after its indentation |
| Contract.BodyRpcDecls | ai_grpc_utils/generators.py:40-62 | the service body declares exactly one procedure per name, in order; the first shares the template's indentation |
| Contract.ProtoTextIsJoin | ai_grpc_utils/generators.py:40-64 | the text is its lines joined by newlines |
| Contract.BodyTerminated | ai_grpc_utils/generators.py:40-62 | the indentation before `{proto_funcs}`, the declarations each ending in a newline, and the template's newline make up the body lines |
| Contract.ContractLayout | ai_grpc_utils/generators.py:45-61 | line 1 declares the package; lines 4-6 and 8-10 are `DataSendRequest` and `DataResponse` with the single field `string data = 1`; lines 12-14 are the empty message `Empty`; line 16 opens the service `<package>gRPC` |
| Contract.RpcLineInjective | ai_grpc_utils/generators.py:41 | different names give different declaration lines |
| Contract.EnumerateNames | ai_grpc_utils/generators.py:40-43 | iterating the set yields each member exactly once and nothing else |
| Contract.ContractText | ai_grpc_utils/generators.py:37-64 | the names are the discovered set, each once; the text is the template over them; with newline-free names its declarations are distinct, as many as the discovered names, and `rpc N…` is declared iff N is discovered |
| Contract.DeclaredNames | ai_grpc_utils/generators.py:40-63 | for distinct, newline-free names the declarations are distinct, one per name, and declare exactly those names |
| Contract.RpcLinesDistinct | ai_grpc_utils/generators.py:41-42 | distinct names give distinct declaration lines, and a name's line is among them iff the name is |
| Routing.ScanInstance | ai_grpc_utils/generators.py:199-210 | one instance's names, each kept if discovered and not yet in `existed_fields`; the earlier table is kept as a prefix and every new route goes to this instance; the seen set and the table stay in step, and every route points to the first instance whose `dir` holds the name |
| Routing.CreateService | ai_grpc_utils/generators.py:193-213 | as written: each discovered name appears exactly once, bound to the first instance in list order whose `dir` holds that name; routes are grouped by instance in list order |
| Routing.CreateServiceTagged | ai_grpc_utils/generators.py:193-213 | corrected: each discovered name appears exactly once, bound to the first instance that has it as a tagged capability; later instances with that name are never used |
| Routing.TableSize | ai_grpc_utils/generators.py:199-210 | a routing table has exactly as many fields as there are discovered names |
| Routing.RoutingAgreesWithoutShadowing | ai_grpc_utils/generators.py:201-210 | when no instance has an untagged attribute named like a capability, the table as written is the intended one |
| Routing.UntaggedNamesakeIsRouted | ai_grpc_utils/generators.py:201-210 | as written, `process` is routed to an earlier instance whose `process` was never decorated |
| Routing.TaggedRouteReachesDecoratedMethod | ai_grpc_utils/generators.py:193-210 | corrected, `process` is routed to the instance that decorated it |
| Rpc.Wrapper | ai_grpc_utils/generators.py:97-119 | on an instance that never assigned `grpc_client` it raises `AttributeError` on every call; with `grpc_client` falsy it returns exactly `func(self, *args, **kwargs)` and failures propagate; with a stub missing the procedure it raises `AttributeError`; with a stub holding it, it never raises |
| Rpc.RemotePath | ai_grpc_utils/generators.py:100-117 | the remote path encodes the envelope `{"args", "kwargs"}` and calls the stub procedure named like the function; it then decodes the reply and applies the decoder; a failure at any step is returned as `{"error": e}` |
| Rpc.RemoteCall | ai_grpc_utils/generators.py:105-114 | the guarded steps: encode the envelope, call the procedure, decode the reply, apply the decoder; the first failure is the outcome, as `RemotePath` states |
| Rpc.ApplyDecoder | ai_grpc_utils/generators.py:111-113 | `decoder()(result)` when a decoder is given, else the result unchanged |
| Rpc.DecoderAppliedOnce | ai_grpc_utils/generators.py:110-114 | with a decoder the result is the decoder applied once to the decoded reply |
| Rpc.Captured | ai_grpc_utils/generators.py:105-117 | a value passes unchanged; a failure `e` becomes `{"error": e}`; the result is never a failure |
| Rpc.Spread | ai_grpc_utils/generators.py:184 | `*v` succeeds iff `v` is a list, a `str`, `bytes` or a dict, and yields the items, the characters, the octets as ints or the keys; anything else raises `TypeError` |
| Rpc.Keywords | ai_grpc_utils/generators.py:184 | `**v` succeeds iff `v` is a mapping, and yields its entries |
| Rpc.Template | ai_grpc_utils/generators.py:181-185 | decode, subscript `args` and `kwargs`, merge `**`, spread `*`, call, encode with nothing caught; stated by `TemplateCalls` and `TemplateRejectsMalformed` |
| Rpc.TemplateCalls | ai_grpc_utils/generators.py:181-185 | on any request whose `args` and `kwargs` can be read, merged and spread, whatever the key order or extra keys, the routed function gets the spread arguments; its result is encoded; its failure propagates uncaught |
| Rpc.TemplateOnEnvelope | ai_grpc_utils/generators.py:181-185 | corollary for the client's own envelope: the routed function gets exactly its `args` and `kwargs` |
| Rpc.ReorderedEnvelope | ai_grpc_utils/generators.py:184 | a request decoding to `{"kwargs": {}, "args": [x]}` calls the function with `x` alone |
| Rpc.TemplateRejectsMalformed | ai_grpc_utils/generators.py:183-184 | a request that is not an envelope fails before anything is called, with the first failure in CPython's evaluation order: not a dict (`TypeError`), no `args` (`KeyError`), no `kwargs` (`KeyError`), `kwargs` not a mapping (`TypeError`), `args` not iterable (`TypeError`) |
| Rpc.MissingKwargsBeforeBadArgs | ai_grpc_utils/generators.py:184 | a request decoding to `{"args": 5}` raises `KeyError('kwargs')`, not the `TypeError` of spreading `5` |
| Rpc.Lookup | ai_grpc_utils/generators.py:201-212 | finds a route iff the name is routed, and the route found carries that name |
| Rpc.Handle | ai_grpc_utils/generators.py:188-190 | a routed name runs `template` over the bound attribute of a route of that name; an unrouted name is answered as unimplemented |
| Rpc.ServedByFirstInstance | ai_grpc_utils/generators.py:188-210 | with the corrected table, every call to a discovered name runs `template` over the attribute of the first instance that has it as a capability |
| Rpc.Transport | ai_grpc_utils/generators.py:109 | a value returned by the server reaches the client unchanged; a raised failure arrives as an RPC error |
| Rpc.ConnectedTo | ai_grpc_utils/generators.py:181-190 | the wiring the end-to-end lemmas assume: the stub has a procedure named like the function, and every request it gets goes to `template` over the same decorated method on a server instance whose `grpc_client` is `None`; what that returns or raises comes back through the transport (line 109) |
| Rpc.RemoteAgreesWithLocal | ai_grpc_utils/generators.py:98-119 | with the server's `template` (lines 181-185) behind the stub: when request and result survive JSON encoding, the remote call returns the local result after the decoder; without a decoder it equals the local call |
| Rpc.UnassignedServerFails | ai_grpc_utils/generators.py:97-104 | when the server's instance never assigned `grpc_client`, `template` raises at line 98, and every connected call returns `{"error": RpcError(AttributeError("grpc_client"))}` |
| Rpc.RemoteFailureIsCaptured | ai_grpc_utils/generators.py:105-119 | with the server's `template` (lines 181-185) behind the stub: a function that raises `e` makes the remote call return `{"error": RpcError(e)}`, while the local call raises `e` |
| Rpc.RemoteBytes | ai_grpc_utils/generators.py:111-113 | with `StrToBytesDecoder`, a `str` result reaches the client as its UTF-8 bytes; a non-`str` result makes the call return `{"error": AttributeError}` |
| Rpc.SimpleScenario | tests/test_simple.py:82 | the connected client's `process("Some text")` returns `"Processed! (arg='Some text')"` |
| Rpc.DecoderScenario | tests/test_decoder.py:84 | with `decoder=StrToBytesDecoder` the client gets bytes that decode to `"Processed! (arg='Some text')"` |
| Values.Envelope | ai_grpc_utils/generators.py:100-103 | a two-entry dict whose `args` is the positional arguments as a list and whose `kwargs` is the keyword arguments |
| Values.ErrorValue | ai_grpc_utils/generators.py:117 | a one-entry dict whose `error` is the exception object |
| Rpc.Process | tests/test_simple.py:32-33 | for one positional `str` argument and no keywords, `"Processed! (arg='…')"` with the argument in single quotes; any other call is outside the model and gives `TypeError` by the model's choice |
| Config.EnvOr | ai_grpc_utils/generators.py:159-160 | the environment value if present, else the default |
| Config.Address | ai_grpc_utils/generators.py:162 | `f"{host}:{port}"`, also used at line 262: the host, one colon, then the port |
| Config.ConnectAddress | ai_grpc_utils/generators.py:159-162 | the client's `GRPC_HOST:GRPC_PORT`, each from the environment if set, else the argument, whose defaults are `localhost` and `50051` |
| Config.ServeAddress | ai_grpc_utils/generators.py:238-239 | the server's host and port, resolved in the same way with defaults `localhost` and `50052`, formatted at line 262 |
| Config.LastIndex | ai_grpc_utils/generators.py:162 | helper of the reference inverse of the `host:port` format (nothing in the source parses an address): finds the last occurrence of a character iff there is one, with none after it |
| Config.SplitAddress | ai_grpc_utils/generators.py:162 | reference inverse of the `host:port` format (nothing in the source parses an address): splits at the last colon, and the two parts rebuild the address |
| Config.AddressRoundTrip | ai_grpc_utils/generators.py:162 | `host:port` reads back as `(host, port)` when the port has no colon |
| Config.EnvironmentOverrides | ai_grpc_utils/generators.py:159-162 | as in `serve` (lines 238-239, 262): with `GRPC_HOST` and `GRPC_PORT` set, client and server resolve to the same address whatever their arguments |
| Config.DefaultPortsDiffer | ai_grpc_utils/generators.py:127-128 | without `GRPC_PORT`, the default client port `50051` and the default server port `50052` of `serve` (lines 219-220) differ |
| Config.ChannelLimits | ai_grpc_utils/generators.py:164-167 | the two channel options, the same list as lines 245-248; their values are stated by `LimitsSet` |
| Config.LimitsSet | ai_grpc_utils/generators.py:164-167 | both message-size limits are set, under distinct keys, to 1 GiB |
| Config.ServerOptions | ai_grpc_utils/generators.py:249-252 | absent options become a fresh list of the two limits; a given list is the one passed on, extended in place: the caller's entries first and unchanged, the two limits last; a value without `extend` (`None`, a tuple) raises `AttributeError` |
| Config.OptionList.Extend | ai_grpc_utils/generators.py:252 | `list.extend` appends in place |
| Utf8.Width | ai_grpc_utils/decoders.py:6 | every code point takes 1 to 4 bytes |
| Utf8.EncodeScalar | ai_grpc_utils/decoders.py:6 | a scalar value takes `Width` bytes per the ranges of section 3 of RFC 3629; U+0000..U+007F is the byte itself; every byte after the first is a continuation byte |
| Utf8.EncodeAll | ai_grpc_utils/decoders.py:6 | the encoding is between `len(s)` and `4·len(s)` bytes long |
| Utf8.Encode | ai_grpc_utils/decoders.py:6 | strict encoding succeeds iff there is no surrogate, and its bytes are the UTF-8 of the string; otherwise it fails at a surrogate's position |
| Utf8.FirstSurrogate | ai_grpc_utils/decoders.py:6 | the first surrogate of a string, if any: none iff every code point is a scalar value |
| Utf8.DecodeFirst | ai_grpc_utils/decoders.py:6 | the reference inverse of the encoding (the source decodes nothing): the strict reader of section 4 of RFC 3629 consumes 1 to 4 bytes, no more than it is given, and never yields a surrogate |
| Utf8.DecodeFirstEncodeScalar | ai_grpc_utils/decoders.py:6 | the strict decoder reads back exactly the character the encoder wrote, whatever follows it |
| Utf8.DecodeEncode | ai_grpc_utils/decoders.py:6 | strict UTF-8 decoding of the encoding restores the string |
| Utf8.EncodeInjective | ai_grpc_utils/decoders.py:6 | two strings with the same encoding are equal |
| Utf8.EncodeAppend | ai_grpc_utils/decoders.py:6 | encode(a + b) == encode(a) + encode(b) |
| Utf8.EncodeAscii | ai_grpc_utils/decoders.py:6 | an ASCII string encodes byte for byte |
| Utf8.SurrogateRejected | ai_grpc_utils/decoders.py:6 | a string holding a surrogate cannot be encoded |
| Utf8.StrToBytesDecoder | ai_grpc_utils/decoders.py:4-6 | succeeds iff the result is a `str` without surrogates, and then gives bytes that decode back to it; on a non-`str` it raises `AttributeError` |
| Utf8.DecoderIgnoresExtraArguments | ai_grpc_utils/decoders.py:5 | extra positional and keyword arguments do not change the output |
| Utf8.DecoderOnAscii | ai_grpc_utils/decoders.py:6 | an ASCII string comes back as the bytes of its characters |
| Values.GetItem | ai_grpc_utils/generators.py:184 | `d[key]` on a dict finds the first entry with that key and raises `KeyError` iff none exists; on a non-dict it raises `TypeError` |
| Setup.Delimiter | setup.py:25 | the delimiter is `"` if the line holds one anywhere, else `'` |
| Setup.VersionOf | setup.py:25-26 | `line.split(delim)[1]` succeeds iff the line holds a quote of either kind, and never contains the delimiter; otherwise it raises `IndexError` |
| Setup.VersionBetweenDelimiters | setup.py:26 | the version is the text after the first delimiter, up to the next delimiter or the end of the line |
| Setup.QuotedVersion | setup.py:25-26 | a version written between double quotes is read back as written |
| Setup.SingleQuotedVersion | setup.py:25-26 | on a line without double quotes, a version between single quotes is read back as written |
| Setup.ReadVersionString | setup.py:22-28 | the version of the first line starting with `__version__`, later ones ignored; `RuntimeError("Unable to find version string.")` iff there is no such line |
| Strings.StartsWith | setup.py:24 | `str.startswith`, also used at ai_grpc_utils/generators.py:31: the prefix is as long as the string at most and equals its start |
| Strings.Split | setup.py:26 | `str.split(d)` gives at least one piece, no piece holds `d`, and a string without `d` is its own single piece |
| Strings.JoinSplit | setup.py:26 | joining the pieces of a split with the delimiter restores the string |
| Strings.SplitJoin | ai_grpc_utils/generators.py:40-43 | helper behind `Contract.ContractLines` (the source joins and never splits here): splitting a join of delimiter-free pieces restores the pieces |

## Left out

- Writing the `.proto` file, finding the caller's directory and running protoc
  (ai_grpc_utils/generators.py:66-77) are file system work and a foreign compiler. The model stops at the
  text those lines write.
- What protoc generates is not part of this model: message classes, the `…gRPCStub` class and the
  `add_…gRPCServicer_to_server` adder. `Rpc.Handle` stands for the registered servicer. It answers a name
  without a field as "unimplemented", the way the transport would.
- The gRPC transport is a parameter. This covers `insecure_channel`, `grpc.server`, the thread pool
  (ai_grpc_utils/generators.py:168-170, 254) and `start` / `wait_for_termination`. The pool's only role is
  concurrency.
- JSON is abstract. `json.dumps` (with or without an encoder class) and `json.loads` are parameters, and
  no round-trip law is assumed. `Rpc.RemoteAgreesWithLocal` takes the round trip of one request and one
  result as hypotheses.
- ai_grpc_utils/encoders.py is left out. It depends on numpy and on a library that is not part of this
  model.
- Reflection and class synthesis are replaced by explicit attribute records and an ordered routing table.
  This covers `dir`, `getattr`, `callable`, `hasattr` and `dataclasses.make_dataclass`. Evaluating
  `getattr` on a property that raises is not modelled.
- The module-level slots `GRPC_PROTOS`, `GRPC_SERVICES` and `DataResponse` are not modelled. Their
  contents are passed explicitly. A remote call made before any `connect_to_grpc_server`, when
  `GRPC_PROTOS` is still `None`, is therefore not modelled.
- Logging is left out.
- Rpc.Wrapper: "never raises" holds only for exceptions derived from `Exception`. The model has no `BaseException` (such as `KeyboardInterrupt`), which line 115 does not catch. The `str(e)` of the log message at line 116 is taken not to raise, though an exception whose `__str__` raises would make the handler raise.
- Rpc.Transport: a server failure reaches the client as `RpcError(e)` holding the server's failure, so the model can say which failure it was. A real gRPC client receives only status UNKNOWN and a text.
- `grpc_runner(encoder=…, decoder=…)` used as a decorator factory (ai_grpc_utils/generators.py:90-91)
  is modelled only by its effect: `Rpc.Runner` records the function, the encoder and the decoder.
- Rpc.Process: follows the tests' `f"Processed! ({arg=})"` only for one positional `str` argument. The
  `TypeError` it gives otherwise is the model's choice. Python also accepts `arg` by keyword, and formats
  any other value with `repr` (`process(5)` gives `"Processed! (arg=5)"`). The model writes `repr` of a
  `str` as the text in single quotes, which is exact only for the quote-free printable strings the tests
  use.
- In setup.py, `read_text`, `splitlines`, the requirements files and `setup()` are file I/O and
  packaging. `Setup.ReadVersionString` takes the lines as given.
- Values hold Python objects only as far as JSON can carry them: no floats, no tuples (JSON sends
  `args` as a list) and no arbitrary objects. An exception object inside `{"error": e}` is the `Failure`
  it stands for.

## Findings

| source | as written | input that shows it | evidently intended | confidence | as-written member | corrected member |
|---|---|---|---|---|---|---|
| ai_grpc_utils/generators.py:201-210 | `create_service` keeps `name` for instance `ref` when `name in cls_methods`. That set holds the capabilities of all instances, so an earlier instance with an untagged attribute of the same name takes the field. | handlers `[A, B]`: `A` has a plain method `process` and `B` the decorated `process`; the servicer then calls `A.process` | each name is served by the first instance whose attribute of that name is itself a tagged capability | medium, not executed | Routing.CreateService, Routing.UntaggedNamesakeIsRouted | Routing.CreateServiceTagged, Routing.TaggedRouteReachesDecoratedMethod |
