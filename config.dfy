/**
 * Where `connect_to_grpc_server` and `serve` point the channel and the server, and the channel
 * options `serve` hands to `grpc.server` (ai_grpc_utils/generators.py).
 */
module Config {
  import opened Outcomes

  /** `os.environ`. */
  type Environment = map<string, string>

  const DefaultHost := "localhost"
  /** The default port of `connect_to_grpc_server`. */
  const ClientDefaultPort := "50051"
  /** The default port of `serve`. */
  const ServerDefaultPort := "50052"
  /** The send and receive limit both ends set: 1 GiB. */
  const MaxMessageLength := 1024 * 1024 * 1024

  /** `os.environ.get(key, default)`. */
  function EnvOr(env: Environment, key: string, default: string): (r: string)
    ensures key in env ==> r == env[key]
    ensures key !in env ==> r == default
  {
    if key in env then env[key] else default
  }

  /** `f"{host}:{port}"`. */
  function Address(host: string, port: string): (r: string)
    ensures |r| == |host| + 1 + |port| && r[|host|] == ':'
    ensures r[..|host|] == host && r[|host| + 1..] == port
  {
    host + ":" + port
  }

  /** The address of the channel `connect_to_grpc_server` opens. */
  function ConnectAddress(env: Environment, host: string := DefaultHost, port: string := ClientDefaultPort): string
  {
    Address(EnvOr(env, "GRPC_HOST", host), EnvOr(env, "GRPC_PORT", port))
  }

  /** The address `serve` binds with `add_insecure_port`. */
  function ServeAddress(env: Environment, host: string := DefaultHost, port: string := ServerDefaultPort): string
  {
    Address(EnvOr(env, "GRPC_HOST", host), EnvOr(env, "GRPC_PORT", port))
  }

  /** The index of the last `c` in `s`. */
  function LastIndex(s: string, c: char): (r: Option<nat>)
    ensures r.None? <==> c !in s
    ensures r.Some? ==> r.value < |s| && s[r.value] == c && c !in s[r.value + 1..]
    decreases |s|
  {
    if s == [] then None
    else if s[|s| - 1] == c then Some(|s| - 1)
    else
      var r := LastIndex(s[..|s| - 1], c);
      assert s == s[..|s| - 1] + [s[|s| - 1]];
      assert r.Some? ==> s[r.value + 1..] == s[..|s| - 1][r.value + 1..] + [s[|s| - 1]];
      r
  }

  /** How a `host:port` target is read back: the port is what follows the last colon. */
  function SplitAddress(a: string): (r: Option<(string, string)>)
    ensures r.None? <==> ':' !in a
    ensures r.Some? ==> a == Address(r.value.0, r.value.1) && ':' !in r.value.1
  {
    match LastIndex(a, ':')
    case None => None
    case Some(i) =>
      assert a == a[..i] + ":" + a[i + 1..];
      Some((a[..i], a[i + 1..]))
  }

  /** A port without a colon is read back as it was given, whatever the host. */
  lemma AddressRoundTrip(host: string, port: string)
    requires ':' !in port
    ensures SplitAddress(Address(host, port)) == Some((host, port))
  {
    var a := Address(host, port);
    assert a[..|host|] == host;
    assert a[|host| + 1..] == port;
    LastIndexAt(a, ':', |host|);
  }

  /** The last occurrence is the one with no occurrence after it. */
  lemma LastIndexAt(s: string, c: char, i: nat)
    requires i < |s| && s[i] == c && c !in s[i + 1..]
    ensures LastIndex(s, c) == Some(i)
  {
    var j := LastIndex(s, c).value;
    assert j >= i by {
      assert s[i] in s[j + 1..] || j >= i;
    }
    assert j <= i by {
      assert s[j] in s[i + 1..] || j <= i;
    }
  }

  /**
   * `GRPC_HOST` and `GRPC_PORT`, when set, override the arguments of both functions: a client and a
   * server started under the same environment meet at the same address.
   */
  lemma EnvironmentOverrides(env: Environment, h1: string, p1: string, h2: string, p2: string)
    requires "GRPC_HOST" in env && "GRPC_PORT" in env
    ensures ConnectAddress(env, h1, p1) == ServeAddress(env, h2, p2) == Address(env["GRPC_HOST"], env["GRPC_PORT"])
  {
  }

  /** Without `GRPC_PORT` the two defaults disagree: a default client does not reach a default server. */
  lemma DefaultPortsDiffer(env: Environment)
    requires "GRPC_PORT" !in env
    ensures ConnectAddress(env) != ServeAddress(env)
    ensures SplitAddress(ConnectAddress(env)) == Some((EnvOr(env, "GRPC_HOST", DefaultHost), ClientDefaultPort))
    ensures SplitAddress(ServeAddress(env)) == Some((EnvOr(env, "GRPC_HOST", DefaultHost), ServerDefaultPort))
  {
    var h := EnvOr(env, "GRPC_HOST", DefaultHost);
    AddressRoundTrip(h, ClientDefaultPort);
    AddressRoundTrip(h, ServerDefaultPort);
  }

  /** The value of a channel argument: gRPC accepts integers and strings. */
  datatype ArgValue = IntArg(n: int) | StrArg(s: string)

  /** A channel argument `(key, value)`. */
  datatype ChannelArg = ChannelArg(key: string, value: ArgValue)

  /** `channel_opt`: both message-size limits at 1 GiB. */
  function ChannelLimits(): seq<ChannelArg>
  {
    [ChannelArg("grpc.max_send_message_length", IntArg(MaxMessageLength)),
     ChannelArg("grpc.max_receive_message_length", IntArg(MaxMessageLength))]
  }

  /** Both limits are set, to the same value, under distinct keys. */
  lemma LimitsSet()
    ensures |ChannelLimits()| == 2 && ChannelLimits()[0].key != ChannelLimits()[1].key
    ensures forall o :: o in ChannelLimits() ==> o.value == IntArg(0x4000_0000)
  {
  }

  /** A Python list of channel arguments, which `serve` may extend in place. */
  class OptionList {
    var items: seq<ChannelArg>

    constructor(items: seq<ChannelArg>)
      ensures this.items == items
    {
      this.items := items;
    }

    /** `list.extend`. */
    method Extend(more: seq<ChannelArg>)
      modifies this
      ensures items == old(items) + more
    {
      items := items + more;
    }
  }

  /**
   * What the `options` keyword of `serve` was: absent, or given.  `Given(null)` stands for any value
   * without an `extend` method (`None`, a tuple, ...).
   */
  datatype OptionsArg = Absent | Given(list: OptionList?)

  /**
   * `kwargs["options"]` after `serve` adjusts it: a fresh list of the limits when absent, otherwise the
   * caller's own list, extended in place (so the caller sees the change); `None` has no `extend`.
   */
  method ServerOptions(options: OptionsArg) returns (r: Outcome<OptionList>)
    modifies if options.Given? && options.list != null then {options.list} else {}
    ensures options.Absent? ==> r.Ok? && fresh(r.value) && r.value.items == ChannelLimits()
    ensures options.Given? && options.list == null ==> r == Fail(AttributeError("extend"))
    ensures options.Given? && options.list != null ==>
              r == Ok(options.list) && options.list.items == old(options.list.items) + ChannelLimits()
    ensures options.Given? && options.list != null ==>
              var all := options.list.items;
              |all| == |old(options.list.items)| + 2
              && all[..|old(options.list.items)|] == old(options.list.items) && all[|all| - 2..] == ChannelLimits()
  {
    match options
    case Absent =>
      var l := new OptionList(ChannelLimits());
      r := Ok(l);
    case Given(l) =>
      if l == null {
        r := Fail(AttributeError("extend"));
      } else {
        l.Extend(ChannelLimits());
        r := Ok(l);
      }
  }
}
