/**
 * The routing table of the aggregate servicer, `create_service` (ai_grpc_utils/generators.py): one
 * field per capability name, bound to an attribute of one handler instance, first seen wins.
 */
module Routing {
  import opened Strings
  import opened Discovery

  /** A field of the synthesized servicer: the capability name and the index of the instance serving it. */
  datatype Route = Route(name: string, ref: nat)

  predicate HasName(h: Handler, n: string) { exists j :: 0 <= j < |h| && h[j].name == n }

  predicate Routed(t: seq<Route>, n: string) { exists i :: 0 <= i < |t| && t[i].name == n }

  lemma RoutedSnoc(t: seq<Route>, r: Route)
    ensures forall n :: Routed(t + [r], n) <==> Routed(t, n) || n == r.name
  {
    forall n ensures Routed(t + [r], n) <==> Routed(t, n) || n == r.name {
      if Routed(t, n) {
        var i :| 0 <= i < |t| && t[i].name == n;
        assert (t + [r])[i].name == n;
      }
      assert (t + [r])[|t|] == r;
    }
  }

  /** Some instance before `k` has an attribute named `n`. */
  predicate NamedBefore(hs: seq<Handler>, k: nat, n: string)
    requires k <= |hs|
  {
    exists k' :: 0 <= k' < k && HasName(hs[k'], n)
  }

  /** Some instance before `k` has a capability named `n`. */
  predicate CapabilityBefore(hs: seq<Handler>, k: nat, n: string)
    requires k <= |hs|
  {
    exists k' :: 0 <= k' < k && HasCapability(hs[k'], n, DefaultTag)
  }

  /** The shape both tables share: each capability exactly once, routes grouped by instance in list order. */
  predicate WellShaped(t: seq<Route>, methods: set<string>)
  {
    (forall i, j :: 0 <= i < j < |t| ==> t[i].name != t[j].name)
    && (forall i :: 0 <= i < |t| ==> t[i].name in methods)
    && (forall n :: n in methods ==> Routed(t, n))
    && (forall i, j :: 0 <= i < j < |t| ==> t[i].ref <= t[j].ref)
  }

  function NameSet(t: seq<Route>): set<string>
  {
    set i | 0 <= i < |t| :: t[i].name
  }

  lemma {:induction false} NameSetSize(t: seq<Route>)
    requires forall i, j :: 0 <= i < j < |t| ==> t[i].name != t[j].name
    ensures |NameSet(t)| == |t|
    decreases |t|
  {
    if t != [] {
      var init := t[..|t| - 1];
      NameSetSize(init);
      assert NameSet(t) == NameSet(init) + {t[|t| - 1].name};
    }
  }

  /** A table of either kind has exactly one route per discovered capability. */
  lemma TableSize(t: seq<Route>, methods: set<string>)
    requires WellShaped(t, methods)
    ensures |t| == |methods|
  {
    NameSetSize(t);
    assert NameSet(t) == methods;
  }

  /** As written: a name goes to the first instance, in list order, whose `dir` holds that name at all. */
  predicate IsRoutingTable(hs: seq<Handler>, methods: set<string>, t: seq<Route>)
  {
    WellShaped(t, methods)
    && forall i :: 0 <= i < |t| ==>
         (t[i].ref < |hs| && HasName(hs[t[i].ref], t[i].name) && !NamedBefore(hs, t[i].ref, t[i].name))
  }

  /** As intended: a name goes to the first instance, in list order, that has it as a tagged capability. */
  predicate IsTaggedRoutingTable(hs: seq<Handler>, methods: set<string>, t: seq<Route>)
  {
    WellShaped(t, methods)
    && forall i :: 0 <= i < |t| ==>
         (t[i].ref < |hs| && HasCapability(hs[t[i].ref], t[i].name, DefaultTag)
          && !CapabilityBefore(hs, t[i].ref, t[i].name))
  }

  /** Routes without repeated names, grouped by instance in list order. */
  predicate Orderly(t: seq<Route>)
  {
    (forall i, j :: 0 <= i < j < |t| ==> t[i].name != t[j].name)
    && (forall i, j :: 0 <= i < j < |t| ==> t[i].ref <= t[j].ref)
  }

  /** Every route goes to the first instance, in list order, whose `dir` holds its name. */
  predicate FirstNamed(hs: seq<Handler>, t: seq<Route>, bound: nat)
  {
    forall i :: 0 <= i < |t| ==>
      (t[i].ref < bound && t[i].ref < |hs| && HasName(hs[t[i].ref], t[i].name)
       && !NamedBefore(hs, t[i].ref, t[i].name))
  }

  /**
   * The inner loop of the comprehension for instance `k`: its names in `dir` order, each kept when it
   * is a discovered capability and not in `existed_fields` yet.
   */
  method ScanInstance(hs: seq<Handler>, k: nat, methods: set<string>, existed0: set<string>, table0: seq<Route>)
    returns (existed: set<string>, table: seq<Route>)
    requires k < |hs|
    requires forall n :: n in existed0 <==> Routed(table0, n)
    requires forall n :: Routed(table0, n) <==> n in methods && NamedBefore(hs, k, n)
    requires Orderly(table0) && FirstNamed(hs, table0, k)
    ensures forall n :: n in existed <==> Routed(table, n)
    ensures forall n :: Routed(table, n) <==> n in methods && NamedBefore(hs, k + 1, n)
    ensures Orderly(table) && FirstNamed(hs, table, k + 1)
    ensures |table0| <= |table| && table[..|table0|] == table0
    ensures forall i :: |table0| <= i < |table| ==> table[i].ref == k
  {
    existed, table := existed0, table0;
    for j := 0 to |hs[k]|
      invariant forall n :: n in existed <==> Routed(table, n)
      invariant forall n :: Routed(table, n) <==>
                  n in methods && (NamedBefore(hs, k, n) || exists j' :: 0 <= j' < j && hs[k][j'].name == n)
      invariant Orderly(table) && FirstNamed(hs, table, k + 1)
      invariant |table0| <= |table| && table[..|table0|] == table0
      invariant forall i :: |table0| <= i < |table| ==> table[i].ref == k
    {
      var name := hs[k][j].name;
      if name in methods && name !in existed {
        RoutedSnoc(table, Route(name, k));
        existed := existed + {name};
        table := table + [Route(name, k)];
      }
    }
    forall n ensures NamedBefore(hs, k + 1, n) <==> NamedBefore(hs, k, n) || HasName(hs[k], n) {
      if NamedBefore(hs, k + 1, n) {
        var k' :| 0 <= k' < k + 1 && HasName(hs[k'], n);
      }
    }
  }

  /**
   * `create_service(service_name, ref_cls)` as written: walks the instances in list order and each
   * one's names in `dir` order, keeping a name that is a discovered capability (of ANY instance) the
   * first time it is seen.
   */
  method CreateService(arg: HandlerArg) returns (table: seq<Route>)
    ensures IsRoutingTable(Instances(arg), DecoratedMethods(arg, DefaultTag), table)
  {
    var hs := Instances(arg);
    var methods := DecoratedMethods(arg, DefaultTag);
    var existed: set<string> := {};
    table := [];
    for k := 0 to |hs|
      invariant forall n :: n in existed <==> Routed(table, n)
      invariant forall n :: Routed(table, n) <==> n in methods && NamedBefore(hs, k, n)
      invariant Orderly(table) && FirstNamed(hs, table, k)
    {
      existed, table := ScanInstance(hs, k, methods, existed, table);
    }
    forall n | n in methods ensures NamedBefore(hs, |hs|, n) {
      DiscoveredIff(arg, DefaultTag, n);
    }
  }

  /**
   * The corrected construction: a name is kept only at an attribute that is itself a tagged
   * capability, so the servicer never exposes an undecorated or non-callable namesake.
   */
  method CreateServiceTagged(arg: HandlerArg) returns (table: seq<Route>)
    ensures IsTaggedRoutingTable(Instances(arg), DecoratedMethods(arg, DefaultTag), table)
  {
    var hs := Instances(arg);
    var methods := DecoratedMethods(arg, DefaultTag);
    var existed: set<string> := {};
    table := [];
    for k := 0 to |hs|
      invariant forall n :: n in existed <==> Routed(table, n)
      invariant forall n :: Routed(table, n) <==> CapabilityBefore(hs, k, n)
      invariant forall i, j :: 0 <= i < j < |table| ==> table[i].name != table[j].name
      invariant forall i, j :: 0 <= i < j < |table| ==> table[i].ref <= table[j].ref
      invariant forall i :: 0 <= i < |table| ==>
                  table[i].ref < k && HasCapability(hs[table[i].ref], table[i].name, DefaultTag)
                  && !CapabilityBefore(hs, table[i].ref, table[i].name)
    {
      for j := 0 to |hs[k]|
        invariant forall n :: n in existed <==> Routed(table, n)
        invariant forall n :: Routed(table, n) <==>
                    CapabilityBefore(hs, k, n)
                    || exists j' :: 0 <= j' < j && hs[k][j'].name == n && IsCapability(hs[k][j'], DefaultTag)
        invariant forall i, j :: 0 <= i < j < |table| ==> table[i].name != table[j].name
        invariant forall i, j :: 0 <= i < j < |table| ==> table[i].ref <= table[j].ref
        invariant forall i :: 0 <= i < |table| ==>
                    table[i].ref <= k && HasCapability(hs[table[i].ref], table[i].name, DefaultTag)
                    && !CapabilityBefore(hs, table[i].ref, table[i].name)
      {
        var name := hs[k][j].name;
        if IsCapability(hs[k][j], DefaultTag) && name !in existed {
          RoutedSnoc(table, Route(name, k));
          existed := existed + {name};
          table := table + [Route(name, k)];
        }
      }
      forall n ensures CapabilityBefore(hs, k + 1, n) <==> CapabilityBefore(hs, k, n) || HasCapability(hs[k], n, DefaultTag) {
        if CapabilityBefore(hs, k + 1, n) {
          var k' :| 0 <= k' < k + 1 && HasCapability(hs[k'], n, DefaultTag);
        }
      }
    }
    forall n ensures n in methods <==> CapabilityBefore(hs, |hs|, n) {
      DiscoveredIff(arg, DefaultTag, n);
    }
  }

  /** Where no instance has an untagged namesake of a capability, the table as written is the intended one. */
  lemma RoutingAgreesWithoutShadowing(hs: seq<Handler>, t: seq<Route>)
    requires forall k, j :: 0 <= k < |hs| && 0 <= j < |hs[k]| && hs[k][j].name in DecoratedMethods(Many(hs), DefaultTag)
               ==> IsCapability(hs[k][j], DefaultTag)
    requires IsRoutingTable(hs, DecoratedMethods(Many(hs), DefaultTag), t)
    ensures IsTaggedRoutingTable(hs, DecoratedMethods(Many(hs), DefaultTag), t)
  {
    var methods := DecoratedMethods(Many(hs), DefaultTag);
    forall i | 0 <= i < |t|
      ensures HasCapability(hs[t[i].ref], t[i].name, DefaultTag) && !CapabilityBefore(hs, t[i].ref, t[i].name)
    {
      var n, k := t[i].name, t[i].ref;
      assert Routed(t, n);
      var j :| 0 <= j < |hs[k]| && hs[k][j].name == n;
      assert IsCapability(hs[k][j], DefaultTag);
    }
  }

  /**
   * Two handlers: the first has an ordinary, undecorated method `process`; the second has the
   * decorated `process`.
   */
  function ShadowExample(): seq<Handler>
  {
    [[Attr("process", true, {})], [GrpcRunner("process", {})]]
  }

  /** As written, `process` is routed to the first handler, whose `process` was never tagged. */
  lemma UntaggedNamesakeIsRouted(t: seq<Route>)
    requires IsRoutingTable(ShadowExample(), DecoratedMethods(Many(ShadowExample()), DefaultTag), t)
    ensures t == [Route("process", 0)]
    ensures !IsCapability(ShadowExample()[t[0].ref][0], DefaultTag)
  {
    var hs := ShadowExample();
    var methods := DecoratedMethods(Many(hs), DefaultTag);
    assert "process"[..2] == "pr";
    assert hs[1][0].name == "process" && IsCapability(hs[1][0], DefaultTag);
    DiscoveredIff(Many(hs), DefaultTag, "process");
    forall n | n in methods ensures n == "process" {
      DiscoveredIff(Many(hs), DefaultTag, n);
    }
    assert methods == {"process"};
    TableSize(t, methods);
    assert hs[0][0].name == "process";
    assert t[0].ref == 0;
  }

  /** With the corrected construction, `process` goes to the handler that decorated it. */
  lemma TaggedRouteReachesDecoratedMethod(t: seq<Route>)
    requires IsTaggedRoutingTable(ShadowExample(), DecoratedMethods(Many(ShadowExample()), DefaultTag), t)
    ensures t == [Route("process", 1)]
  {
    var hs := ShadowExample();
    var methods := DecoratedMethods(Many(hs), DefaultTag);
    assert "process"[..2] == "pr";
    assert hs[1][0].name == "process" && IsCapability(hs[1][0], DefaultTag);
    DiscoveredIff(Many(hs), DefaultTag, "process");
    forall n | n in methods ensures n == "process" {
      DiscoveredIff(Many(hs), DefaultTag, n);
    }
    assert methods == {"process"};
    TableSize(t, methods);
    assert !HasCapability(hs[0], "process", DefaultTag);
    assert t[0].ref == 1;
  }
}
