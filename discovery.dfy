/**
 * Capability discovery: `get_decorated_methods` (ai_grpc_utils/generators.py) and the tag that
 * `grpc_runner` puts on the functions it decorates.
 */
module Discovery {
  import opened Strings

  /**
   * One name of `dir(instance)` with what reflection reports about it: whether `getattr` gives a
   * callable, and the attribute names that value carries (`hasattr` on it succeeds for these).
   */
  datatype Attr = Attr(name: string, isCallable: bool, tags: set<string>)

  /** A handler instance: its attributes in `dir` order. */
  type Handler = seq<Attr>

  /** The argument of the discovery functions: one instance, or a list of them. */
  datatype HandlerArg = One(handler: Handler) | Many(handlers: seq<Handler>)

  /** The tag `grpc_runner` sets on the functions it decorates, and the tag discovery looks for. */
  const DefaultTag := "grpc_runner"

  /** A non-list argument is promoted to a one-element list. */
  function Instances(arg: HandlerArg): (hs: seq<Handler>)
    ensures arg.One? ==> hs == [arg.handler]
    ensures arg.Many? ==> hs == arg.handlers
  {
    match arg
    case One(h) => [h]
    case Many(hs) => hs
  }

  predicate IsDunder(name: string) { StartsWith(name, "__") }

  /** The attribute is a remote-callable capability under `tag`. */
  predicate IsCapability(a: Attr, tag: string)
  {
    a.isCallable && !IsDunder(a.name) && tag in a.tags
  }

  /** Instance `h` has a capability named `n` under `tag`. */
  predicate HasCapability(h: Handler, n: string, tag: string)
  {
    exists j :: 0 <= j < |h| && h[j].name == n && IsCapability(h[j], tag)
  }

  /** `get_decorated_methods(cls, decorator_tag)`: the set comprehension over instances and their `dir`. */
  function DecoratedMethods(arg: HandlerArg, tag: string): (names: set<string>)
  {
    var hs := Instances(arg);
    set k, j | 0 <= k < |hs| && 0 <= j < |hs[k]| && IsCapability(hs[k][j], tag) :: hs[k][j].name
  }

  /** A name is discovered iff some instance has a callable, non-dunder attribute of that name with the tag. */
  lemma DiscoveredIff(arg: HandlerArg, tag: string, n: string)
    ensures n in DecoratedMethods(arg, tag) <==>
            exists k :: 0 <= k < |Instances(arg)| && HasCapability(Instances(arg)[k], n, tag)
  {
    var hs := Instances(arg);
    if n in DecoratedMethods(arg, tag) {
      var k, j :| 0 <= k < |hs| && 0 <= j < |hs[k]| && IsCapability(hs[k][j], tag) && hs[k][j].name == n;
      assert HasCapability(hs[k], n, tag);
    }
    if exists k :: 0 <= k < |hs| && HasCapability(hs[k], n, tag) {
      var k :| 0 <= k < |hs| && HasCapability(hs[k], n, tag);
      var j :| 0 <= j < |hs[k]| && hs[k][j].name == n && IsCapability(hs[k][j], tag);
      assert hs[k][j].name in DecoratedMethods(arg, tag);
    }
  }

  /** Passing one instance is the same as passing a one-element list. */
  lemma OneIsSingletonList(h: Handler, tag: string)
    ensures DecoratedMethods(One(h), tag) == DecoratedMethods(Many([h]), tag)
  {
  }

  /** Discovery over a list is the union of discovery over each instance. */
  lemma {:induction false} DiscoveryIsUnion(hs: seq<Handler>, h: Handler, tag: string)
    ensures DecoratedMethods(Many(hs + [h]), tag) == DecoratedMethods(Many(hs), tag) + DecoratedMethods(One(h), tag)
  {
    forall n
      ensures n in DecoratedMethods(Many(hs + [h]), tag) <==>
              n in DecoratedMethods(Many(hs), tag) || n in DecoratedMethods(One(h), tag)
    {
      DiscoveredIff(Many(hs + [h]), tag, n);
      DiscoveredIff(Many(hs), tag, n);
      DiscoveredIff(One(h), tag, n);
      assert forall k :: 0 <= k < |hs| ==> (hs + [h])[k] == hs[k];
      assert (hs + [h])[|hs|] == h;
    }
  }

  /**
   * The attribute `@grpc_runner` leaves on the class for `def name`: the wrapper, which is callable and,
   * through `functools.wraps`, carries the function's attributes, among them `grpc_runner`.
   */
  function GrpcRunner(name: string, funcTags: set<string>): (a: Attr)
    ensures a.name == name && DefaultTag in a.tags
    ensures IsCapability(a, DefaultTag) <==> !IsDunder(name)
  {
    Attr(name, true, funcTags + {DefaultTag})
  }

  /** Every decorated method with an ordinary name is discovered under the default tag. */
  lemma DecoratedAlwaysDiscovered(hs: seq<Handler>, k: nat, j: nat, name: string, funcTags: set<string>)
    requires k < |hs| && j < |hs[k]| && hs[k][j] == GrpcRunner(name, funcTags)
    requires !IsDunder(name)
    ensures name in DecoratedMethods(Many(hs), DefaultTag)
  {
    assert hs[k][j].name in DecoratedMethods(Many(hs), DefaultTag);
  }
}
