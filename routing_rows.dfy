/**
 * Rows of the router's unit-test tables, stated on the model: templates
 * the compiler rejects, templates it compiles, and requests for the test
 * tenant `foo.asyncyapp.com` under the platform domain with what the
 * host-and-path matcher hands on for them.
 */
module RoutingRows {
  import opened PathTemplate
  import opened PathMatch
  import opened Matchers
  import TemplateLaws

  // The tenant of the test rows and the platform suffix its requests
  // carry: a dot and the primary domain `storyscriptapp.com`.
  const TestTenant := "foo.asyncyapp.com"
  const PlatformSuffix := ".storyscriptapp.com"
  const TestPrimaryDomainLen: nat := 18

  // The malformed templates of the test table whose first character is
  // not `/`; the table of matching templates also lists `****/` and
  // `*/:b/50/`, which the code rejects in the same way.
  lemma RejectedWithoutSlash()
    ensures Compile("") == Err(MissingLeadingSlash)
    ensures Compile("*/*") == Err(MissingLeadingSlash)
    ensures Compile("path_wild_no_forward_slash") == Err(MissingLeadingSlash)
    ensures Compile(":path_var_with_no_forward_slash") == Err(MissingLeadingSlash)
    ensures Compile("****/") == Err(MissingLeadingSlash)
    ensures Compile("*/:b/50/") == Err(MissingLeadingSlash)
  {
  }

  // `/:wildcard`: the reserved name.
  lemma RejectedReserved(p: string)
    requires p == "/:wildcard"
    ensures Compile(p) == Err(ReservedName("wildcard"))
  {
    TemplateLaws.NameRunExact(p, 2, 8);
    assert StarRun(p, 0) == 0;
    assert p[2..10] == "wildcard";
    assert TokenAt(p, 0) == Some((Var("wildcard"), 10));
    assert IsReserved("wildcard");
    assert ScanStep(p, 0, []) == Err(ReservedName("wildcard"));
  }

  // `/:a/:b/:a`: a name used twice.
  lemma RejectedDuplicate(p: string)
    requires p == "/:a/:b/:a"
    ensures Compile(p) == Err(DuplicateName("a"))
  {
    TemplateLaws.NameRunExact(p, 2, 1);
    TemplateLaws.NameRunExact(p, 5, 1);
    TemplateLaws.NameRunExact(p, 8, 1);
    assert StarRun(p, 0) == 0 && StarRun(p, 3) == 0 && StarRun(p, 6) == 0;
    assert p[2..3] == "a" && p[5..6] == "b" && p[8..9] == "a";
    assert !IsReserved("a") && !IsReserved("b");
    assert VarNames([Var("a"), Var("b")]) == ["a", "b"] by {
      assert [Var("a"), Var("b")][1..] == [Var("b")];
    }
    assert TokenAt(p, 6) == Some((Var("a"), 9));
    assert ScanStep(p, 6, [Var("a"), Var("b")]) == Err(DuplicateName("a"));
    assert TokenAt(p, 3) == Some((Var("b"), 6));
    assert VarNames([Var("a")]) == ["a"];
    assert [Var("a")] + [Var("b")] == [Var("a"), Var("b")];
    assert ScanStep(p, 3, [Var("a")]) == Err(DuplicateName("a"));
    assert TokenAt(p, 0) == Some((Var("a"), 3));
    assert [] + [Var("a")] == [Var("a")];
    assert ScanStep(p, 0, []) == Err(DuplicateName("a"));
  }

  // `/:from*/`: a wildcard right after a variable.
  lemma RejectedWildAfterVar(p: string)
    requires p == "/:from*/"
    ensures Compile(p) == Err(WildcardAfterVariable)
  {
    TemplateLaws.NameRunExact(p, 2, 4);
    assert StarRun(p, 0) == 0 && StarRun(p, 6) == 1;
    assert p[2..6] == "from";
    assert TokenAt(p, 6) == Some((Wild, 7));
    assert ScanStep(p, 6, [Var("from")]) == Err(WildcardAfterVariable);
    assert TokenAt(p, 0) == Some((Var("from"), 6));
    assert !IsReserved("from");
    assert [] + [Var("from")] == [Var("from")];
    assert ScanStep(p, 0, []) == Err(WildcardAfterVariable);
  }

  // `/:from/*/:id/*/:var`: a second wildcard.
  lemma RejectedSecondWild(p: string)
    requires p == "/:from/*/:id/*/:var"
    ensures Compile(p) == Err(WildcardTwice)
  {
    var t1, t2, t3, t4, t5 := Var("from"), Lit('/'), Wild, Var("id"), Lit('/');
    TemplateLaws.NameRunExact(p, 2, 4);
    TemplateLaws.NameRunExact(p, 10, 2);
    assert StarRun(p, 0) == 0 && StarRun(p, 6) == 0 && StarRun(p, 7) == 1 && StarRun(p, 8) == 0;
    assert StarRun(p, 12) == 0 && StarRun(p, 14) == 0 && StarRun(p, 13) == 1;
    assert p[2..6] == "from" && p[10..12] == "id";
    assert !IsReserved("id") && !IsReserved("from");
    var five := [t1, t2, t3, t4, t5];
    assert five[|five| - 1].Lit? && five[2] == Wild;
    assert TokenAt(p, 13) == Some((Wild, 14));
    assert ScanStep(p, 13, five) == Err(WildcardTwice);
    assert TokenAt(p, 12) == None;
    assert [t1, t2, t3, t4] + [t5] == five;
    assert ScanStep(p, 12, [t1, t2, t3, t4]) == Err(WildcardTwice);
    assert VarNames([t1, t2, t3]) == ["from"] by {
      assert [t3][1..] == [];
      assert VarNames([t3]) == [];
      assert [t2, t3][1..] == [t3];
      assert VarNames([t2, t3]) == [];
      assert [t1, t2, t3][1..] == [t2, t3];
    }
    assert TokenAt(p, 8) == Some((t4, 12));
    assert [t1, t2, t3] + [t4] == [t1, t2, t3, t4];
    assert ScanStep(p, 8, [t1, t2, t3]) == Err(WildcardTwice);
    assert TokenAt(p, 7) == Some((t3, 8));
    assert [t1, t2] + [t3] == [t1, t2, t3];
    assert ScanStep(p, 7, [t1, t2]) == Err(WildcardTwice);
    assert TokenAt(p, 6) == None;
    assert [t1] + [t2] == [t1, t2];
    assert ScanStep(p, 6, [t1]) == Err(WildcardTwice);
    assert TokenAt(p, 0) == Some((t1, 6));
    assert [] + [t1] == [t1];
    assert ScanStep(p, 0, []) == Err(WildcardTwice);
  }

  // `/:1`: the scan takes `1` as a name, and compiling the expression then
  // refuses a group name that starts with a digit.
  lemma RejectedDigitName(p: string)
    requires p == "/:1"
    ensures Scan(p) == Ok([Var("1")])
    ensures Compile(p) == Err(BadGroupName("1"))
  {
    TemplateLaws.NameRunExact(p, 2, 1);
    assert StarRun(p, 0) == 0;
    assert p[2..3] == "1";
    assert !IsReserved("1");
    assert TokenAt(p, 0) == Some((Var("1"), 3));
    assert [] + [Var("1")] == [Var("1")];
    assert ScanStep(p, 0, []) == Ok([Var("1")]);
    assert VarNames([Var("1")]) == ["1"];
  }

  // `/:1/:1`: the scan stops at the second `1` before any group name is
  // looked at.
  lemma RejectedDigitTwice(p: string)
    requires p == "/:1/:1"
    ensures Compile(p) == Err(DuplicateName("1"))
  {
    TemplateLaws.NameRunExact(p, 2, 1);
    TemplateLaws.NameRunExact(p, 5, 1);
    assert StarRun(p, 0) == 0 && StarRun(p, 3) == 0;
    assert p[2..3] == "1" && p[5..6] == "1";
    assert !IsReserved("1");
    assert VarNames([Var("1")]) == ["1"];
    assert TokenAt(p, 3) == Some((Var("1"), 6));
    assert ScanStep(p, 3, [Var("1")]) == Err(DuplicateName("1"));
    assert TokenAt(p, 0) == Some((Var("1"), 3));
    assert [] + [Var("1")] == [Var("1")];
    assert ScanStep(p, 0, []) == Err(DuplicateName("1"));
  }

  // `/:a-*` compiles to a variable, a literal `-` and the wildcard.
  lemma CompiledDashTemplate(p: string)
    requires p == "/:a-*"
    ensures Compile(p) == Ok([Var("a"), Lit('-'), Wild])
  {
    var t1, t2, t3 := Var("a"), Lit('-'), Wild;
    TemplateLaws.NameRunExact(p, 2, 1);
    assert StarRun(p, 0) == 0 && StarRun(p, 3) == 0 && StarRun(p, 4) == 1;
    assert p[2..3] == "a";
    assert !IsReserved("a");
    assert TokenAt(p, 4) == Some((t3, 5));
    assert [t1, t2] + [t3] == [t1, t2, t3];
    assert ScanStep(p, 4, [t1, t2]) == Ok([t1, t2, t3]);
    assert TokenAt(p, 3) == None;
    assert [t1] + [t2] == [t1, t2];
    assert ScanStep(p, 3, [t1]) == Ok([t1, t2, t3]);
    assert TokenAt(p, 0) == Some((t1, 3));
    assert [] + [t1] == [t1];
    assert ScanStep(p, 0, []) == Ok([t1, t2, t3]);
    assert VarNames([t1, t2, t3]) == ["a"] by {
      assert [t3][1..] == [];
      assert VarNames([t3]) == [];
      assert [t2, t3][1..] == [t3];
      assert VarNames([t2, t3]) == [];
      assert [t1, t2, t3][1..] == [t2, t3];
    }
  }

  // `/*/:c` compiles to a slash, the wildcard and a variable.
  lemma CompiledWildC(p: string)
    requires p == "/*/:c"
    ensures Compile(p) == Ok([Lit('/'), Wild, Var("c")])
  {
    var t1, t2, t3 := Lit('/'), Wild, Var("c");
    TemplateLaws.NameRunExact(p, 4, 1);
    assert StarRun(p, 0) == 0 && StarRun(p, 1) == 1 && StarRun(p, 2) == 0;
    assert p[4..5] == "c";
    assert !IsReserved("c");
    assert TokenAt(p, 2) == Some((t3, 5));
    assert VarNames([t1, t2]) == [] by {
      assert [t2][1..] == [];
      assert VarNames([t2]) == [];
      assert [t1, t2][1..] == [t2];
    }
    assert [t1, t2] + [t3] == [t1, t2, t3];
    assert ScanStep(p, 2, [t1, t2]) == Ok([t1, t2, t3]);
    assert TokenAt(p, 1) == Some((t2, 2));
    assert [t1] + [t2] == [t1, t2];
    assert ScanStep(p, 1, [t1]) == Ok([t1, t2, t3]);
    assert TokenAt(p, 0) == None;
    assert [] + [t1] == [t1];
    assert ScanStep(p, 0, []) == Ok([t1, t2, t3]);
    assert VarNames([t1, t2, t3]) == ["c"] by {
      VarNamesAppend([t1, t2], t3);
    }
  }

  // The literal tokens of a piece of text, one per character.
  function Lits(u: string): seq<Tok>
  {
    if u == [] then [] else [Lit(u[0])] + Lits(u[1..])
  }

  lemma {:induction false} VarNamesLits(u: string)
    ensures VarNames(Lits(u)) == []
    decreases |u|
  {
    if u != [] {
      assert Lits(u)[1..] == Lits(u[1..]);
      VarNamesLits(u[1..]);
    }
  }

  // Text with no space, `:` or `*`.
  predicate Plain(u: string)
  {
    forall i :: 0 <= i < |u| ==> !IsForbiddenLiteral(u[i])
  }

  // The scan passes over plain text not ending in `/` and emits one
  // literal per character.
  lemma {:induction false} ScanLits(path: string, pos: nat, u: string, parts: seq<Tok>)
    requires pos + |u| < |path| && path[pos .. pos + |u|] == u
    requires Plain(u) && (u != [] ==> u[|u| - 1] != '/')
    ensures CompileFrom(path, pos, parts) == CompileFrom(path, pos + |u|, parts + Lits(u))
    decreases |u|
  {
    if u == [] {
      assert parts + Lits(u) == parts;
    } else {
      var v := u[1..];
      assert path[pos] == u[0];
      assert |u| > 1 ==> path[pos + 1] == u[1];
      LitTurnAt(path, pos, parts);
      assert path[pos + 1 .. pos + 1 + |v|] == v;
      assert Plain(v) by {
        forall i | 0 <= i < |v| ensures !IsForbiddenLiteral(v[i]) {
          assert v[i] == u[i + 1];
        }
      }
      ScanLits(path, pos + 1, v, parts + [Lit(u[0])]);
      assert Lits(u) == [Lit(u[0])] + Lits(v);
      assert parts + [Lit(u[0])] + Lits(v) == parts + ([Lit(u[0])] + Lits(v));
      assert pos + 1 + |v| == pos + |u|;
    }
  }

  // A character of plain text, not the last one, is emitted as a literal.
  lemma LitTurnAt(path: string, pos: nat, parts: seq<Tok>)
    requires pos + 1 < |path| && !IsForbiddenLiteral(path[pos])
    requires path[pos] == '/' ==> path[pos + 1] != ':'
    ensures CompileFrom(path, pos, parts) == CompileFrom(path, pos + 1, parts + [Lit(path[pos])])
  {
    assert StarRun(path, pos) == 0;
    assert TokenAt(path, pos) == None;
  }

  // The search passes over the text of literal tokens.
  lemma {:induction false} SearchLits(u: string, rest: seq<Tok>, s: string, b: Bindings)
    requires |u| <= |s| && s[..|u|] == u && Search(rest, s[|u|..]) == Some(b)
    ensures Search(Lits(u) + rest, s) == Some(b)
    decreases |u|
  {
    if u == [] {
      assert Lits(u) + rest == rest && s[|u|..] == s;
    } else {
      assert s[0] == s[..|u|][0];
      assert s[1..][..|u[1..]|] == u[1..] && s[1..][|u[1..]|..] == s[|u|..];
      SearchLits(u[1..], rest, s[1..], b);
      LitStep(u[0], Lits(u[1..]) + rest, s, b);
      assert [Lit(u[0])] + (Lits(u[1..]) + rest) == Lits(u) + rest;
    }
  }

  // After `/source/page`, the scan of `/source/page/:c/` adds the variable
  // `c` and drops the final `/`.
  lemma SourcePageTail(p: string, parts: seq<Tok>)
    requires p == "/source/page/:c/" && "c" !in VarNames(parts)
    ensures CompileFrom(p, 12, parts) == Ok(parts + [Var("c")])
  {
    TemplateLaws.NameRunExact(p, 14, 1);
    assert StarRun(p, 12) == 0 && StarRun(p, 15) == 0;
    assert p[14..15] == "c";
    assert !IsReserved("c");
    assert TokenAt(p, 12) == Some((Var("c"), 15));
    assert TokenAt(p, 15) == None;
    assert |p| == 16 && p[15] == '/';
    assert CompileFrom(p, 16, parts + [Var("c")]) == Ok(parts + [Var("c")]);
    assert ScanStep(p, 15, parts + [Var("c")]) == Ok(parts + [Var("c")]);
    assert CompileFrom(p, 15, parts + [Var("c")]) == Ok(parts + [Var("c")]);
    assert ScanStep(p, 12, parts) == CompileFrom(p, 15, parts + [Var("c")]);
  }

  // `/source/page/:c/` compiles to the literals of `/source/page` and the
  // variable `c`; the final `/` is the optional one.
  lemma CompiledSourcePageC(p: string)
    requires p == "/source/page/:c/"
    ensures Compile(p) == Ok(Lits("/source/page") + [Var("c")])
  {
    var toks := Lits("/source/page") + [Var("c")];
    SourcePageScan(p);
    VarNamesLits("/source/page");
    VarNamesAppend(Lits("/source/page"), Var("c"));
    assert VarNames(toks) == ["c"];
    assert FirstBadName(["c"]) == None;
  }

  lemma SourcePageScan(p: string)
    requires p == "/source/page/:c/"
    ensures Scan(p) == Ok(Lits("/source/page") + [Var("c")])
  {
    SourcePageHead(p);
    VarNamesLits("/source/page");
    SourcePageTail(p, Lits("/source/page"));
  }

  // The scan of `/source/page/:c/` passes over `/source/page`.
  lemma SourcePageHead(p: string)
    requires p == "/source/page/:c/"
    ensures CompileFrom(p, 0, []) == CompileFrom(p, 12, Lits("/source/page"))
  {
    var u := "/source/page";
    assert p[0 .. 12] == u;
    assert Plain(u);
    ScanLits(p, 0, u, []);
    assert [] + Lits(u) == Lits(u);
  }

  // `/source/page/:c/` on `/source/page/50`.
  lemma SourcePageCMatch(s: string)
    requires s == "/source/page/50"
    ensures Search(Lits("/source/page") + [Var("c")], s) == Some([("c", Some("50"))])
  {
    assert s[..12] == "/source/page" && s[12..] == "/50";
    IdMatch("c", s[12..]);
    SearchLits("/source/page", [Var("c")], s, [("c", Some("50"))]);
  }

  // `/:from/*/:id` compiles to a variable, a slash, the wildcard and a
  // variable.
  lemma CompiledFromWildId(p: string)
    requires p == "/:from/*/:id"
    ensures Compile(p) == Ok([Var("from"), Lit('/'), Wild, Var("id")])
  {
    var t1, t2, t3, t4 := Var("from"), Lit('/'), Wild, Var("id");
    TemplateLaws.NameRunExact(p, 2, 4);
    assert StarRun(p, 0) == 0 && StarRun(p, 6) == 0;
    assert p[2..6] == "from";
    assert !IsReserved("from");
    FromWildIdTail(p);
    assert TokenAt(p, 6) == None;
    assert [t1] + [t2] == [t1, t2];
    assert ScanStep(p, 6, [t1]) == Ok([t1, t2, t3, t4]);
    assert TokenAt(p, 0) == Some((t1, 6));
    assert [] + [t1] == [t1];
    assert ScanStep(p, 0, []) == Ok([t1, t2, t3, t4]);
    VarNamesAppend([t1, t2, t3], t4);
  }

  // The scan of `/:from/*/:id` after `/:from/`.
  lemma FromWildIdTail(p: string)
    requires p == "/:from/*/:id"
    ensures CompileFrom(p, 7, [Var("from"), Lit('/')]) == Ok([Var("from"), Lit('/'), Wild, Var("id")])
    ensures VarNames([Var("from"), Lit('/'), Wild]) == ["from"]
  {
    var t1, t2, t3, t4 := Var("from"), Lit('/'), Wild, Var("id");
    TemplateLaws.NameRunExact(p, 10, 2);
    assert StarRun(p, 7) == 1 && StarRun(p, 8) == 0;
    assert p[10..12] == "id";
    assert !IsReserved("id");
    assert VarNames([t1, t2, t3]) == ["from"] by {
      assert [t3][1..] == [];
      assert VarNames([t3]) == [];
      assert [t2, t3][1..] == [t3];
      assert VarNames([t2, t3]) == [];
      assert [t1, t2, t3][1..] == [t2, t3];
    }
    assert TokenAt(p, 8) == Some((t4, 12));
    assert [t1, t2, t3] + [t4] == [t1, t2, t3, t4];
    assert ScanStep(p, 8, [t1, t2, t3]) == Ok([t1, t2, t3, t4]);
    assert TokenAt(p, 7) == Some((t3, 8));
    assert [t1, t2] + [t3] == [t1, t2, t3];
    assert ScanStep(p, 7, [t1, t2]) == Ok([t1, t2, t3, t4]);
  }

  // `/*` compiles to a slash and the wildcard.
  lemma CompiledWild(p: string)
    requires p == "/*"
    ensures Compile(p) == Ok([Lit('/'), Wild])
  {
    assert StarRun(p, 0) == 0 && StarRun(p, 1) == 1;
    assert TokenAt(p, 1) == Some((Wild, 2));
    assert [Lit('/')] + [Wild] == [Lit('/'), Wild];
    assert ScanStep(p, 1, [Lit('/')]) == Ok([Lit('/'), Wild]);
    assert TokenAt(p, 0) == None;
    assert [] + [Lit('/')] == [Lit('/')];
    assert ScanStep(p, 0, []) == Ok([Lit('/'), Wild]);
  }

  // `/:from/*` compiles to a variable, a slash and the wildcard.
  lemma CompiledFromWild(p: string)
    requires p == "/:from/*"
    ensures Compile(p) == Ok([Var("from"), Lit('/'), Wild])
  {
    var t1, t2, t3 := Var("from"), Lit('/'), Wild;
    TemplateLaws.NameRunExact(p, 2, 4);
    assert StarRun(p, 0) == 0 && StarRun(p, 6) == 0 && StarRun(p, 7) == 1;
    assert p[2..6] == "from";
    assert !IsReserved("from");
    assert TokenAt(p, 7) == Some((t3, 8));
    assert [t1, t2] + [t3] == [t1, t2, t3];
    assert ScanStep(p, 7, [t1, t2]) == Ok([t1, t2, t3]);
    assert TokenAt(p, 6) == None;
    assert [t1] + [t2] == [t1, t2];
    assert ScanStep(p, 6, [t1]) == Ok([t1, t2, t3]);
    assert TokenAt(p, 0) == Some((t1, 6));
    assert [] + [t1] == [t1];
    assert ScanStep(p, 0, []) == Ok([t1, t2, t3]);
  }

  // A last variable takes `50`.
  lemma IdMatch(n: string, s: string)
    requires s == "/50"
    ensures Search([Var(n)], s) == Some([(n, Some("50"))])
  {
    RunIs(s, 1, 2, false);
    assert Search([], s[3..]) == Some([]);
    VarStep(n, [], s, 2, []);
    assert [Var(n)] + [] == [Var(n)] && s[1..3] == "50";
    assert [(n, Some("50"))] + [] == [(n, Some("50"))];
  }

  // The wildcard gives back `/50` so that `:id` matches.
  lemma WildIdMatch(w: string)
    requires w == "page/50"
    ensures Search([Wild, Var("id")], w) == Some([("wildcard", Some("page")), ("id", Some("50"))])
  {
    IdMatch("id", w[4..]);
    assert w[5..] == "50" && w[6..] == "0" && w[7..] == "";
    assert forall i :: 4 < i <= 7 ==> Search([Var("id")], w[i..]).None?;
    RunIs(w, 0, 7, true);
    WildStep([Var("id")], w, 7, 4, [("id", Some("50"))]);
    assert [Wild] + [Var("id")] == [Wild, Var("id")];
    assert w[..4] == "page";
    assert [("wildcard", Some("page"))] + [("id", Some("50"))] == [("wildcard", Some("page")), ("id", Some("50"))];
  }

  lemma SlashWildIdMatch(s: string)
    requires s == "/page/50"
    ensures Search([Lit('/'), Wild, Var("id")], s) == Some([("wildcard", Some("page")), ("id", Some("50"))])
  {
    WildIdMatch(s[1..]);
    LitStep('/', [Wild, Var("id")], s, [("wildcard", Some("page")), ("id", Some("50"))]);
    assert [Lit('/')] + [Wild, Var("id")] == [Lit('/'), Wild, Var("id")];
  }

  lemma FromStep(s: string)
    requires s == "/source/page/50"
    ensures Search([Var("from")] + [Lit('/'), Wild, Var("id")], s) ==
              Some([("from", Some(s[1..7]))] + [("wildcard", Some("page")), ("id", Some("50"))])
  {
    RunIs(s, 1, 6, false);
    SlashWildIdMatch(s[7..]);
    VarStep("from", [Lit('/'), Wild, Var("id")], s, 6, [("wildcard", Some("page")), ("id", Some("50"))]);
  }

  lemma FromWildIdMatch(s: string)
    requires s == "/source/page/50"
    ensures Search([Var("from"), Lit('/'), Wild, Var("id")], s) ==
              Some([("from", Some("source")), ("wildcard", Some("page")), ("id", Some("50"))])
  {
    FromStep(s);
    assert [Var("from")] + [Lit('/'), Wild, Var("id")] == [Var("from"), Lit('/'), Wild, Var("id")];
    assert s[1..7] == "source";
    assert [("from", Some("source"))] + [("wildcard", Some("page")), ("id", Some("50"))] ==
           [("from", Some("source")), ("wildcard", Some("page")), ("id", Some("50"))];
  }

  // The wildcard matches nothing at the end of the path.
  lemma EmptyWild(s: string)
    requires s == "/"
    ensures Search([Lit('/'), Wild], s) == Some([("wildcard", None)])
  {
    var e := s[1..];
    RunIs(e, 0, 0, true);
    assert Search([], e[0..]) == Some([]);
    WildStep([], e, 0, 0, []);
    assert [Wild] + [] == [Wild];
    var nb: Bindings := [("wildcard", None)];
    assert nb + [] == nb;
    LitStep('/', [Wild], s, nb);
    assert [Lit('/')] + [Wild] == [Lit('/'), Wild];
  }

  lemma FromEmptyWild(s: string)
    requires s == "/random/"
    ensures Search([Var("from"), Lit('/'), Wild], s) == Some([("from", Some("random")), ("wildcard", None)])
  {
    RunIs(s, 1, 6, false);
    EmptyWild(s[7..]);
    VarStep("from", [Lit('/'), Wild], s, 6, [("wildcard", None)]);
    assert [Var("from")] + [Lit('/'), Wild] == [Var("from"), Lit('/'), Wild];
    assert s[1..7] == "random";
    assert [("from", Some("random"))] + [("wildcard", None)] == [("from", Some("random")), ("wildcard", None)];
  }

  // The test requests' host has the test tenant.
  lemma TestHost()
    ensures TenantOf(TestTenant + PlatformSuffix, TestPrimaryDomainLen) == TestTenant
  {
    TenantOfHost(TestTenant, PlatformSuffix, TestPrimaryDomainLen);
  }

  // `/:from/*/:id` on `/source/page/50`: the wildcard takes `page`.
  lemma RowFromWildId()
    ensures Compile("/:from/*/:id") == Ok([Var("from"), Lit('/'), Wild, Var("id")])
    ensures HostPathMatch(HostPathMatcher(TestTenant, [Var("from"), Lit('/'), Wild, Var("id")]),
                          TestPrimaryDomainLen, TestTenant + PlatformSuffix, "/source/page/50") ==
            Some([("from", Some("source")), ("wildcard", Some("page")), ("id", Some("50"))])
  {
    var path := "/source/page/50";
    CompiledFromWildId("/:from/*/:id");
    TestHost();
    FromWildIdMatch(path);
  }

  // `/*` on `/`: the wildcard is bound to nothing.
  lemma RowWildOnRoot()
    ensures Compile("/*") == Ok([Lit('/'), Wild])
    ensures HostPathMatch(HostPathMatcher(TestTenant, [Lit('/'), Wild]),
                          TestPrimaryDomainLen, TestTenant + PlatformSuffix, "/") ==
            Some([("wildcard", None)])
  {
    CompiledWild("/*");
    TestHost();
    EmptyWild("/");
  }

  // `/:from/*` on `/random/`: the trailing slash is the optional one and
  // the wildcard is bound to nothing.
  lemma RowFromWildOnRandom()
    ensures Compile("/:from/*") == Ok([Var("from"), Lit('/'), Wild])
    ensures HostPathMatch(HostPathMatcher(TestTenant, [Var("from"), Lit('/'), Wild]),
                          TestPrimaryDomainLen, TestTenant + PlatformSuffix, "/random/") ==
            Some([("from", Some("random")), ("wildcard", None)])
  {
    var path := "/random/";
    CompiledFromWild("/:from/*");
    TestHost();
    FromEmptyWild(path);
  }

  // The wildcard gives back `/50` so that `:c` matches.
  lemma WildCMatch(w: string)
    requires w == "source/page/50"
    ensures Search([Wild, Var("c")], w) == Some([("wildcard", Some("source/page")), ("c", Some("50"))])
  {
    IdMatch("c", w[11..]);
    assert w[12..] == "50" && w[13..] == "0" && w[14..] == "";
    assert forall i :: 11 < i <= 14 ==> Search([Var("c")], w[i..]).None?;
    RunIs(w, 0, 14, true);
    WildStep([Var("c")], w, 14, 11, [("c", Some("50"))]);
    assert [Wild] + [Var("c")] == [Wild, Var("c")];
    assert w[..11] == "source/page";
    assert [("wildcard", Some("source/page"))] + [("c", Some("50"))] == [("wildcard", Some("source/page")), ("c", Some("50"))];
  }

  // `/*/:c` on `/source/page/50`: the wildcard takes `source/page`.
  lemma RowWildC()
    ensures Compile("/*/:c") == Ok([Lit('/'), Wild, Var("c")])
    ensures HostPathMatch(HostPathMatcher(TestTenant, [Lit('/'), Wild, Var("c")]),
                          TestPrimaryDomainLen, TestTenant + PlatformSuffix, "/source/page/50") ==
            Some([("wildcard", Some("source/page")), ("c", Some("50"))])
  {
    var path := "/source/page/50";
    CompiledWildC("/*/:c");
    TestHost();
    WildCMatch(path[1..]);
    LitStep('/', [Wild, Var("c")], path, [("wildcard", Some("source/page")), ("c", Some("50"))]);
    assert [Lit('/')] + [Wild, Var("c")] == [Lit('/'), Wild, Var("c")];
  }

  // `/source/page/:c/` on `/source/page/50`: the literals pass over
  // `/source/page` and `c` takes `50`.
  lemma RowSourcePageC()
    ensures Compile("/source/page/:c/") == Ok(Lits("/source/page") + [Var("c")])
    ensures HostPathMatch(HostPathMatcher(TestTenant, Lits("/source/page") + [Var("c")]),
                          TestPrimaryDomainLen, TestTenant + PlatformSuffix, "/source/page/50") ==
            Some([("c", Some("50"))])
  {
    var path := "/source/page/50";
    CompiledSourcePageC("/source/page/:c/");
    TestHost();
    SourcePageCMatch(path);
  }

  // A template that does not come out of Python's regular-expression
  // compiler: `/:a-*` on `/x-y-z`, which is what putting `x` for `a` and
  // `y-z` for the wildcard into the template gives, binds `a` to `x-y`.
  lemma RowGreedyValues()
    ensures Compile("/:a-*") == Ok([Var("a"), Lit('-'), Wild])
    ensures HostPathMatch(HostPathMatcher(TestTenant, [Var("a"), Lit('-'), Wild]),
                          TestPrimaryDomainLen, TestTenant + PlatformSuffix, "/x-y-z") ==
            Some([("a", Some("x-y")), ("wildcard", Some("z"))])
  {
    CompiledDashTemplate("/:a-*");
    TestHost();
    GreedyNotInverse();
  }

  // Another tenant's request never reaches the test tenant's route.
  lemma RowOtherTenant()
    ensures HostPathMatch(HostPathMatcher(TestTenant, [Var("from"), Lit('/'), Wild, Var("id")]),
                          TestPrimaryDomainLen, "bar" + PlatformSuffix, "/source/page/50").None?
  {
    HostIsolation("bar", TestTenant, PlatformSuffix, [Var("from"), Lit('/'), Wild, Var("id")],
                  TestPrimaryDomainLen, "/source/page/50");
  }
}
