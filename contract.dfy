/**
 * Contract text synthesis: the string half of `get_protos_and_services`
 * (ai_grpc_utils/generators.py), up to the text that would be written to the `.proto` file.
 */
module Contract {
  import opened Strings
  import opened Discovery

  /** The procedure declaration emitted for one capability. */
  function RpcLine(n: string): string
  {
    "rpc " + n + "(DataSendRequest) returns (DataResponse);"
  }

  /** The service every contract declares: the package name followed by `gRPC`. */
  function ServiceName(packageName: string): string { packageName + "gRPC" }

  /** `"".join(f"rpc {n}(...);\n" for n in names)`. */
  function RpcFuncs(names: seq<string>): string
    decreases |names|
  {
    if names == [] then "" else RpcLine(names[0]) + "\n" + RpcFuncs(names[1..])
  }

  // ---------------------------------------------------------------------------------------------
  // The text seen as lines.

  /** The seventeen lines before the procedure declarations. */
  function HeaderLines(packageName: string): (ls: seq<string>)
    ensures |ls| == 17
  {
    [ "syntax = \"proto3\";", "    package " + packageName + ";", "", "",
      "    message DataSendRequest{", "        string data = 1;", "    }", "",
      "    message DataResponse{", "        string data = 1;", "    }", "",
      "    message Empty {", "", "    }", "",
      "    service " + ServiceName(packageName) + "{" ]
  }

  function RpcLines(names: seq<string>): (ls: seq<string>)
    ensures |ls| == |names| && forall i :: 0 <= i < |names| ==> ls[i] == RpcLine(names[i])
  {
    seq(|names|, i requires 0 <= i < |names| => RpcLine(names[i]))
  }

  /** The lines of the service body: the first declaration shares the template's indentation. */
  function BodyLines(names: seq<string>): seq<string>
  {
    if names == [] then ["    "] else ["    " + RpcLine(names[0])] + RpcLines(names[1..]) + [""]
  }

  /**
   * The `PROTO` f-string: its seventeen header lines, each ending in a newline, then the
   * indentation in front of `{proto_funcs}`, the declarations, and the closing brace on its own line.
   */
  function ProtoText(packageName: string, names: seq<string>): string
  {
    Terminated(HeaderLines(packageName)) + "    " + RpcFuncs(names) + "\n" + "    }" + "\n" + "    "
  }

  function ProtoLines(packageName: string, names: seq<string>): seq<string>
  {
    HeaderLines(packageName) + BodyLines(names) + ["    }", "    "]
  }

  /** Each line followed by a newline. */
  function Terminated(ls: seq<string>): string
    decreases |ls|
  {
    if ls == [] then "" else ls[0] + "\n" + Terminated(ls[1..])
  }

  lemma {:induction false} TerminatedJoin(ls: seq<string>, last: string)
    ensures Join(ls + [last], '\n') == Terminated(ls) + last
    decreases |ls|
  {
    if ls != [] {
      assert (ls + [last])[1..] == ls[1..] + [last];
      TerminatedJoin(ls[1..], last);
    }
  }

  lemma {:induction false} TerminatedAppend(a: seq<string>, b: seq<string>)
    ensures Terminated(a + b) == Terminated(a) + Terminated(b)
    decreases |a|
  {
    if a == [] {
      assert a + b == b;
    } else {
      assert (a + b)[1..] == a[1..] + b;
      TerminatedAppend(a[1..], b);
    }
  }

  lemma {:induction false} RpcFuncsTerminated(names: seq<string>)
    ensures RpcFuncs(names) == Terminated(RpcLines(names))
    decreases |names|
  {
    if names != [] {
      RpcFuncsTerminated(names[1..]);
      assert RpcLines(names)[1..] == RpcLines(names[1..]);
    }
  }

  /** Regrouping a concatenation; stated over arbitrary strings so that no literal content is involved. */
  lemma Regroup(t: string, i: string, f: string, n: string, c: string)
    ensures t + i + f + n + c + n + i == t + (i + f + n) + (c + n) + i
  {
  }

  lemma RegroupFirst(i: string, l: string, n: string, r: string)
    ensures i + (l + n + r) + n == (i + l) + n + r + ("" + n)
  {
  }

  lemma JoinClosing(h: seq<string>, b: seq<string>)
    ensures Join(h + b + ["    }", "    "], '\n') == Terminated(h) + Terminated(b) + ("    }" + "\n") + "    "
  {
    var ls := h + b + ["    }"];
    assert h + b + ["    }", "    "] == ls + ["    "];
    TerminatedJoin(ls, "    ");
    TerminatedAppend(h + b, ["    }"]);
    TerminatedAppend(h, b);
  }

  /** The indentation, the declarations and the newline before the closing brace are the body lines. */
  lemma BodyTerminated(names: seq<string>)
    ensures "    " + RpcFuncs(names) + "\n" == Terminated(BodyLines(names))
  {
    var b, f, nl := BodyLines(names), RpcFuncs(names), "\n";
    if names == [] {
      assert f == [];
    } else {
      var first, rest := "    " + RpcLine(names[0]), RpcLines(names[1..]);
      RpcFuncsTerminated(names[1..]);
      var r := Terminated(rest);
      assert f == RpcLine(names[0]) + nl + r;
      assert b == ([first] + rest) + [""];
      TerminatedAppend([first] + rest, [""]);
      TerminatedAppend([first], rest);
      assert Terminated(b) == first + nl + r + ("" + nl);
      RegroupFirst("    ", RpcLine(names[0]), nl, r);
    }
  }

  /** Whatever the header, the text after it joins the body lines and the closing lines. */
  lemma BodyJoin(h: seq<string>, names: seq<string>)
    ensures Terminated(h) + "    " + RpcFuncs(names) + "\n" + "    }" + "\n" + "    "
            == Join(h + BodyLines(names) + ["    }", "    "], '\n')
  {
    JoinClosing(h, BodyLines(names));
    BodyTerminated(names);
    Regroup(Terminated(h), "    ", RpcFuncs(names), "\n", "    }");
  }

  /** The template text is exactly its lines joined by newlines. */
  lemma ProtoTextIsJoin(packageName: string, names: seq<string>)
    ensures ProtoText(packageName, names) == Join(ProtoLines(packageName, names), '\n')
  {
    BodyJoin(HeaderLines(packageName), names);
  }

  // ---------------------------------------------------------------------------------------------
  // Procedure declarations among the lines.

  /** The line with its leading blanks removed. */
  function TrimLeft(s: string): (r: string)
    ensures |r| <= |s|
    decreases |s|
  {
    if s != [] && s[0] == ' ' then TrimLeft(s[1..]) else s
  }

  /** A line declares a procedure when its first word, after the indentation, is `rpc`. */
  predicate IsRpcDecl(line: string) { StartsWith(TrimLeft(line), "rpc ") }

  /** The procedure declarations of a sequence of lines, without their indentation, in order. */
  function RpcDecls(lines: seq<string>): seq<string>
    decreases |lines|
  {
    if lines == [] then [] else DeclOf(lines[0]) + RpcDecls(lines[1..])
  }

  /** The declaration a single line contributes, if any. */
  function DeclOf(line: string): (r: seq<string>)
    ensures |r| <= 1
    ensures r != [] <==> IsRpcDecl(line)
  {
    if IsRpcDecl(line) then [TrimLeft(line)] else []
  }

  lemma {:induction false} RpcDeclsAppend(a: seq<string>, b: seq<string>)
    ensures RpcDecls(a + b) == RpcDecls(a) + RpcDecls(b)
    decreases |a|
  {
    if a == [] {
      assert a + b == b;
    } else {
      var x := DeclOf(a[0]);
      assert (a + b)[0] == a[0] && (a + b)[1..] == a[1..] + b;
      assert RpcDecls(a + b) == x + RpcDecls(a[1..] + b);
      RpcDeclsAppend(a[1..], b);
      assert RpcDecls(a) == x + RpcDecls(a[1..]);
      assert x + (RpcDecls(a[1..]) + RpcDecls(b)) == (x + RpcDecls(a[1..])) + RpcDecls(b);
    }
  }

  lemma {:induction false} TrimLeftIndent(s: string, k: nat)
    requires k <= |s| && forall i :: 0 <= i < k ==> s[i] == ' '
    requires k == |s| || s[k] != ' '
    ensures TrimLeft(s) == s[k..]
    decreases k
  {
    if k > 0 {
      TrimLeftIndent(s[1..], k - 1);
      assert s[1..][k - 1..] == s[k..];
    }
  }

  /** A line that is blank, or whose first word does not start with `r`, declares nothing. */
  lemma NotRpcDecl(s: string, k: nat)
    requires k <= |s| && forall i :: 0 <= i < k ==> s[i] == ' '
    requires k == |s| || (s[k] != ' ' && s[k] != 'r')
    ensures !IsRpcDecl(s)
  {
    TrimLeftIndent(s, k);
  }

  lemma {:induction false} RpcDeclsOfRpcLines(names: seq<string>)
    ensures RpcDecls(RpcLines(names)) == RpcLines(names)
    decreases |names|
  {
    if names != [] {
      RpcLineIsDecl(names[0]);
      assert RpcLines(names)[1..] == RpcLines(names[1..]);
      RpcDeclsOfRpcLines(names[1..]);
    }
  }

  lemma HeaderHasNoRpcDecl(packageName: string)
    ensures RpcDecls(HeaderLines(packageName)) == []
  {
    var h := HeaderLines(packageName);
    forall i | 0 <= i < |h| ensures !IsRpcDecl(h[i]) {
      if i == 0 || h[i] == "" {
        NotRpcDecl(h[i], 0);
      } else if i == 5 || i == 9 {
        NotRpcDecl(h[i], 8);
      } else {
        NotRpcDecl(h[i], 4);
      }
    }
    NoRpcDecls(h);
  }

  lemma {:induction false} NoRpcDecls(ls: seq<string>)
    requires forall i :: 0 <= i < |ls| ==> !IsRpcDecl(ls[i])
    ensures RpcDecls(ls) == []
    decreases |ls|
  {
    if ls != [] {
      NoRpcDecls(ls[1..]);
    }
  }

  /** A declaration line, indented or not, is recognised as one and trims to itself. */
  lemma RpcLineIsDecl(n: string)
    ensures IsRpcDecl(RpcLine(n)) && TrimLeft(RpcLine(n)) == RpcLine(n)
    ensures IsRpcDecl("    " + RpcLine(n)) && TrimLeft("    " + RpcLine(n)) == RpcLine(n)
  {
    var l := RpcLine(n);
    assert l[0] == 'r' && l[..4] == "rpc ";
    TrimLeftIndent(l, 0);
    var first := "    " + l;
    assert first[4..] == l;
    TrimLeftIndent(first, 4);
  }

  lemma BodyRpcDecls(names: seq<string>)
    ensures RpcDecls(BodyLines(names)) == RpcLines(names)
  {
    if names == [] {
      EmptyBodyRpcDecls();
    } else {
      NonEmptyBodyRpcDecls(names);
    }
  }

  lemma EmptyBodyRpcDecls()
    ensures RpcDecls(BodyLines([])) == []
  {
    NotRpcDecl("    ", 4);
    RpcDeclsSingle("    ");
  }

  lemma NonEmptyBodyRpcDecls(names: seq<string>)
    requires names != []
    ensures RpcDecls(BodyLines(names)) == RpcLines(names)
  {
    var first, rest := "    " + RpcLine(names[0]), RpcLines(names[1..]);
    RpcLineIsDecl(names[0]);
    RpcDeclsOfRpcLines(names[1..]);
    assert BodyLines(names) == [first] + rest + [""];
    BodyShape(first, RpcLine(names[0]), rest);
    assert RpcLines(names) == [RpcLine(names[0])] + rest;
  }

  lemma BodyShape(first: string, decl: string, rest: seq<string>)
    requires DeclOf(first) == [decl] && RpcDecls(rest) == rest
    ensures RpcDecls([first] + rest + [""]) == [decl] + rest
  {
    RpcDeclsSingle(first);
    NotRpcDecl("", 0);
    RpcDeclsSingle("");
    RpcDeclsAppend([first] + rest, [""]);
    RpcDeclsAppend([first], rest);
  }

  lemma RpcDeclsSingle(line: string)
    ensures RpcDecls([line]) == DeclOf(line)
  {
    assert [line][1..] == [];
  }

  predicate NoNewline(s: string) { '\n' !in s }

  /** The template's lines hold one declaration per name, in order, and nothing else that declares. */
  lemma ProtoLinesDecls(packageName: string, names: seq<string>)
    ensures RpcDecls(ProtoLines(packageName, names)) == RpcLines(names)
  {
    HeaderHasNoRpcDecl(packageName);
    BodyRpcDecls(names);
    ClosingLinesFacts();
    RpcDeclsThree(HeaderLines(packageName), BodyLines(names), ["    }", "    "]);
  }

  lemma RpcDeclsThree(h: seq<string>, b: seq<string>, c: seq<string>)
    requires RpcDecls(h) == [] && RpcDecls(c) == []
    ensures RpcDecls(h + b + c) == RpcDecls(b)
  {
    RpcDeclsAppend(h + b, c);
    RpcDeclsAppend(h, b);
  }

  /** The two closing lines declare nothing and hold no newline. */
  lemma ClosingLinesFacts()
    ensures RpcDecls(["    }", "    "]) == []
    ensures forall i :: 0 <= i < 2 ==> NoNewline(["    }", "    "][i])
  {
    NotRpcDecl("    }", 4);
    NotRpcDecl("    ", 4);
    assert RpcDecls(["    }", "    "]) == [];
  }

  /**
   * With newline-free names, splitting the contract text into lines gives exactly one procedure
   * declaration per name, `rpc N(DataSendRequest) returns (DataResponse);`, in the order given.
   */
  lemma ContractDeclarations(packageName: string, names: seq<string>)
    requires NoNewline(packageName) && forall i :: 0 <= i < |names| ==> NoNewline(names[i])
    ensures RpcDecls(Split(ProtoText(packageName, names), '\n')) == RpcLines(names)
  {
    ContractLines(packageName, names);
    ProtoLinesDecls(packageName, names);
  }

  lemma HeaderLinesNoNewline(packageName: string)
    requires NoNewline(packageName)
    ensures forall i :: 0 <= i < 17 ==> NoNewline(HeaderLines(packageName)[i])
  {
    var h := HeaderLines(packageName);
    forall i | 0 <= i < 17 ensures NoNewline(h[i]) {
      if i == 1 {
        assert h[i] == "    package " + packageName + ";";
      } else if i == 16 {
        assert h[i] == "    service " + packageName + "gRPC" + "{";
      } else {
        FixedHeaderLineNoNewline(packageName, i);
      }
    }
  }

  lemma FixedHeaderLineNoNewline(packageName: string, i: nat)
    requires i < 16 && i != 1
    ensures NoNewline(HeaderLines(packageName)[i])
  {
    var h := HeaderLines(packageName);
    if i == 0 {
      assert NoNewline("syntax = \"proto3\";");
    } else if i == 4 {
      assert NoNewline("    message DataSendRequest{");
    } else if i == 5 || i == 9 {
      assert NoNewline("        string data = 1;");
    } else if i == 8 {
      assert NoNewline("    message DataResponse{");
    } else if i == 12 {
      assert NoNewline("    message Empty {");
    } else if i == 6 || i == 10 || i == 14 {
      assert NoNewline("    }");
    } else {
      assert h[i] == "";
    }
  }


  lemma RpcLineNoNewline(n: string)
    requires NoNewline(n)
    ensures NoNewline(RpcLine(n)) && NoNewline("    " + RpcLine(n))
  {
    var tail := "(DataSendRequest) returns (DataResponse);";
    assert RpcLine(n) == "rpc " + n + tail;
    assert NoNewline(tail);
  }

  lemma BodyLinesNoNewline(names: seq<string>)
    requires forall i :: 0 <= i < |names| ==> NoNewline(names[i])
    ensures forall i :: 0 <= i < |BodyLines(names)| ==> NoNewline(BodyLines(names)[i])
  {
    var b := BodyLines(names);
    if names != [] {
      var rest := RpcLines(names[1..]);
      assert b == ["    " + RpcLine(names[0])] + rest + [""];
      RpcLineNoNewline(names[0]);
      forall i | 0 <= i < |rest| ensures NoNewline(rest[i]) {
        RpcLineNoNewline(names[1..][i]);
      }
      forall i | 0 <= i < |b| ensures NoNewline(b[i]) {
        if 0 < i < |b| - 1 {
          assert b[i] == rest[i - 1];
        }
      }
    }
  }

  /** The text splits back into exactly the template's lines. */
  lemma ContractLines(packageName: string, names: seq<string>)
    requires NoNewline(packageName) && forall i :: 0 <= i < |names| ==> NoNewline(names[i])
    ensures Split(ProtoText(packageName, names), '\n') == ProtoLines(packageName, names)
  {
    ProtoTextIsJoin(packageName, names);
    HeaderLinesNoNewline(packageName);
    BodyLinesNoNewline(names);
    ClosingLinesFacts();
    SplitJoinThree(HeaderLines(packageName), BodyLines(names), ["    }", "    "]);
  }

  lemma SplitJoinThree(h: seq<string>, b: seq<string>, c: seq<string>)
    requires forall i :: 0 <= i < |h| ==> NoNewline(h[i])
    requires forall i :: 0 <= i < |b| ==> NoNewline(b[i])
    requires forall i :: 0 <= i < |c| ==> NoNewline(c[i])
    requires |c| >= 1
    ensures Split(Join(h + b + c, '\n'), '\n') == h + b + c
  {
    var ls := h + b + c;
    NoNewlineConcat(h, b, c);
    SplitJoin(ls, '\n');
  }

  lemma NoNewlineConcat(h: seq<string>, b: seq<string>, c: seq<string>)
    requires forall i :: 0 <= i < |h| ==> NoNewline(h[i])
    requires forall i :: 0 <= i < |b| ==> NoNewline(b[i])
    requires forall i :: 0 <= i < |c| ==> NoNewline(c[i])
    ensures forall i :: 0 <= i < |h + b + c| ==> '\n' !in (h + b + c)[i]
  {
    var ls := h + b + c;
    forall i | 0 <= i < |ls| ensures '\n' !in ls[i] {
      if i < |h| {
        assert ls[i] == h[i];
      } else if i < |h| + |b| {
        assert ls[i] == b[i - |h|];
      } else {
        assert ls[i] == c[i - |h| - |b|];
      }
    }
  }

  /**
   * The request and response messages each have the single field `string data = 1`, an empty
   * message follows, and the service is named after the package.
   */
  lemma ContractLayout(packageName: string, names: seq<string>)
    requires NoNewline(packageName) && forall i :: 0 <= i < |names| ==> NoNewline(names[i])
    ensures var ls := Split(ProtoText(packageName, names), '\n');
            |ls| >= 19
            && ls[1] == "    package " + packageName + ";"
            && ls[4..7] == ["    message DataSendRequest{", "        string data = 1;", "    }"]
            && ls[8..11] == ["    message DataResponse{", "        string data = 1;", "    }"]
            && ls[12..15] == ["    message Empty {", "", "    }"]
            && ls[16] == "    service " + packageName + "gRPC{"
  {
    ContractLines(packageName, names);
    HeaderFirst(packageName, names);
    HeaderLayout(packageName);
  }

  lemma HeaderFirst(packageName: string, names: seq<string>)
    ensures |ProtoLines(packageName, names)| >= 19
    ensures ProtoLines(packageName, names)[..17] == HeaderLines(packageName)
  {
  }

  lemma HeaderLayout(packageName: string)
    ensures var h := HeaderLines(packageName);
            h[1] == "    package " + packageName + ";"
            && h[4..7] == ["    message DataSendRequest{", "        string data = 1;", "    }"]
            && h[8..11] == ["    message DataResponse{", "        string data = 1;", "    }"]
            && h[12..15] == ["    message Empty {", "", "    }"]
            && h[16] == "    service " + packageName + "gRPC{"
  {
  }

  /** Different names give different declarations. */
  lemma RpcLineInjective(a: string, b: string)
    requires RpcLine(a) == RpcLine(b)
    ensures a == b
  {
    assert a == RpcLine(a)[4..4 + |a|];
    assert b == RpcLine(b)[4..4 + |b|];
  }

  /** Any order of the discovered set: Python iterates a `set` in an order it does not specify. */
  method EnumerateNames(s: set<string>) returns (names: seq<string>)
    ensures Distinct(names) && |names| == |s|
    ensures forall n :: n in names <==> n in s
  {
    names := [];
    var rest := s;
    while rest != {}
      invariant rest <= s
      invariant forall n :: n in names <==> n in s && n !in rest
      invariant Distinct(names)
      invariant |names| + |rest| == |s|
      decreases |rest|
    {
      var n :| n in rest;
      names := names + [n];
      rest := rest - {n};
    }
  }

  /**
   * The text `get_protos_and_services(cls, package_name)` writes: one declaration per discovered
   * capability, in the set's iteration order, which is returned alongside.
   */
  method ContractText(arg: HandlerArg, packageName: string) returns (names: seq<string>, text: string)
    ensures Distinct(names) && forall n :: n in names <==> n in DecoratedMethods(arg, DefaultTag)
    ensures text == ProtoText(packageName, names)
    ensures NoNewline(packageName) && (forall n :: n in DecoratedMethods(arg, DefaultTag) ==> NoNewline(n)) ==>
            var decls := RpcDecls(Split(text, '\n'));
            Distinct(decls) && |decls| == |DecoratedMethods(arg, DefaultTag)|
            && forall n :: RpcLine(n) in decls <==> n in DecoratedMethods(arg, DefaultTag)
  {
    var discovered := DecoratedMethods(arg, DefaultTag);
    names := EnumerateNames(discovered);
    text := ProtoText(packageName, names);
    if NoNewline(packageName) && forall n :: n in discovered ==> NoNewline(n) {
      DeclaredNames(packageName, names);
    }
  }

  /** The declarations of the contract text name each of `names` once, and nothing else. */
  lemma DeclaredNames(packageName: string, names: seq<string>)
    requires Distinct(names)
    requires NoNewline(packageName) && forall i :: 0 <= i < |names| ==> NoNewline(names[i])
    ensures var decls := RpcDecls(Split(ProtoText(packageName, names), '\n'));
            Distinct(decls) && |decls| == |names| && forall n :: RpcLine(n) in decls <==> n in names
  {
    ContractDeclarations(packageName, names);
    RpcLinesDistinct(names);
  }

  /** One declaration per name: distinct names give distinct declarations. */
  lemma RpcLinesDistinct(names: seq<string>)
    requires Distinct(names)
    ensures Distinct(RpcLines(names))
    ensures forall n :: RpcLine(n) in RpcLines(names) <==> n in names
  {
    var decls := RpcLines(names);
    forall i, j | 0 <= i < j < |decls| ensures decls[i] != decls[j] {
      if decls[i] == decls[j] {
        RpcLineInjective(names[i], names[j]);
      }
    }
    forall n ensures RpcLine(n) in decls <==> n in names {
      if RpcLine(n) in decls {
        var i :| 0 <= i < |decls| && decls[i] == RpcLine(n);
        RpcLineInjective(n, names[i]);
      }
      if n in names {
        var i :| 0 <= i < |names| && names[i] == n;
        assert decls[i] == RpcLine(n);
      }
    }
  }
}
