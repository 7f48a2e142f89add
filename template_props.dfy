/**
 * Further properties of the path-template compiler: the names a compiled
 * template binds, the characters an accepted template may contain, the
 * optional final `/`, and how the compiled tokens spell the template back.
 */
module TemplateProps {
  import opened PathTemplate
  import TemplateLaws

  /** No name occurs twice. */
  predicate Distinct(xs: seq<string>)
  {
    forall i, j :: 0 <= i < j < |xs| ==> xs[i] != xs[j]
  }

  /** Appending one token extends the bound names by the names it binds. */
  lemma {:induction false} CapturesAppend(toks: seq<Tok>, t: Tok)
    ensures Captures(toks + [t]) == Captures(toks) + Captures([t])
  {
    if toks != [] {
      assert (toks + [t])[1..] == toks[1..] + [t];
      CapturesAppend(toks[1..], t);
    } else {
      assert [t][1..] == [];
    }
  }

  /** A name is bound by a variable of that name or, for `wildcard`, by the
      wildcard. */
  lemma {:induction false} CapturesMember(toks: seq<Tok>, n: string)
    ensures n in Captures(toks) <==> n in VarNames(toks) || (n == "wildcard" && Wild in toks)
  {
    if toks != [] {
      CapturesMember(toks[1..], n);
      assert toks == [toks[0]] + toks[1..];
    }
  }

  lemma WildcardReserved()
    ensures IsReserved("wildcard")
  {
  }

  /** A literal binds nothing. */
  lemma LitDistinct(pre: seq<Tok>, c: char)
    requires Distinct(Captures(pre)) && "wildcard" !in VarNames(pre)
    ensures Distinct(Captures(pre + [Lit(c)])) && "wildcard" !in VarNames(pre + [Lit(c)])
  {
    CapturesAppend(pre, Lit(c));
    VarNamesAppend(pre, Lit(c));
    assert Captures([Lit(c)]) == [];
    assert Captures(pre + [Lit(c)]) == Captures(pre);
  }

  /** A variable that may follow binds a new name other than `wildcard`. */
  lemma VarDistinct(pre: seq<Tok>, n: string)
    requires !IsReserved(n) && n !in VarNames(pre)
    requires Distinct(Captures(pre)) && "wildcard" !in VarNames(pre)
    ensures Distinct(Captures(pre + [Var(n)])) && "wildcard" !in VarNames(pre + [Var(n)])
  {
    CapturesAppend(pre, Var(n));
    VarNamesAppend(pre, Var(n));
    WildcardReserved();
    CapturesMember(pre, n);
    assert Captures([Var(n)]) == [n];
  }

  /** A wildcard that may follow binds `wildcard`, which nothing bound yet. */
  lemma WildDistinct(pre: seq<Tok>)
    requires Wild !in pre
    requires Distinct(Captures(pre)) && "wildcard" !in VarNames(pre)
    ensures Distinct(Captures(pre + [Wild])) && "wildcard" !in VarNames(pre + [Wild])
  {
    CapturesAppend(pre, Wild);
    VarNamesAppend(pre, Wild);
    CapturesMember(pre, "wildcard");
    assert Captures([Wild]) == ["wildcard"];
  }

  /** One token that may follow `pre` binds no name `pre` already binds, and
      never binds `wildcard` as a variable. */
  lemma StepDistinct(pre: seq<Tok>, t: Tok)
    requires CanFollow(pre, t)
    requires Distinct(Captures(pre)) && "wildcard" !in VarNames(pre)
    ensures Distinct(Captures(pre + [t])) && "wildcard" !in VarNames(pre + [t])
  {
    match t
    case Lit(c) => LitDistinct(pre, c);
    case Var(n) => VarDistinct(pre, n);
    case Wild => WildDistinct(pre);
  }

  /** Names bound along tokens that follow one another stay distinct. */
  lemma {:induction false} FollowsDistinct(pre: seq<Tok>, toks: seq<Tok>)
    requires Follows(pre, toks)
    requires Distinct(Captures(pre)) && "wildcard" !in VarNames(pre)
    ensures Distinct(Captures(pre + toks)) && "wildcard" !in VarNames(pre + toks)
    decreases |toks|
  {
    if toks == [] {
      assert pre + toks == pre;
    } else {
      StepDistinct(pre, toks[0]);
      FollowsDistinct(pre + [toks[0]], toks[1..]);
      TemplateLaws.ConsSplit(pre, toks);
    }
  }

  /** The names a compiled template binds are all different, and `wildcard`
      is among them exactly when the template has a wildcard. */
  lemma CapturesDistinct(toks: seq<Tok>)
    requires WellFormed(toks)
    ensures Distinct(Captures(toks))
    ensures "wildcard" in Captures(toks) <==> Wild in toks
  {
    assert [] + toks == toks;
    FollowsDistinct([], toks);
    CapturesMember(toks, "wildcard");
  }

  /** On success the bound names are distinct and `wildcard` is bound
      exactly when the template has a run of `*`. */
  lemma CompileCaptures(path: string, toks: seq<Tok>)
    requires Compile(path) == Ok(toks)
    ensures Distinct(Captures(toks))
    ensures "wildcard" in Captures(toks) <==> Wild in toks
  {
    CapturesDistinct(toks);
  }

  /** A character of an accepted template is never a space, and a `:` sits
      between a `/` and a name character. */
  predicate CharOk(path: string, i: nat)
    requires i < |path|
  {
    && path[i] != ' '
    && (path[i] == ':' ==> 0 < i && path[i - 1] == '/' && i + 1 < |path| && IsNameChar(path[i + 1]))
  }

  /** The characters of one variable token are acceptable. */
  lemma VarCharsOk(path: string, pos: nat)
    requires pos < |path| && TokenAt(path, pos).Some? && TokenAt(path, pos).value.0.Var?
    ensures forall i :: pos <= i < TokenAt(path, pos).value.1 ==> CharOk(path, i)
  {
    TokenAtSpan(path, pos);
  }

  /** The characters of one wildcard token are acceptable. */
  lemma WildCharsOk(path: string, pos: nat)
    requires pos < |path| && TokenAt(path, pos).Some? && TokenAt(path, pos).value.0.Wild?
    ensures forall i :: pos <= i < TokenAt(path, pos).value.1 ==> CharOk(path, i)
  {
    TokenAtSpan(path, pos);
  }

  /** Every character the scan passes over on its way to success is
      acceptable. */
  lemma {:induction false} CompileFromChars(path: string, pos: nat, parts: seq<Tok>)
    requires pos <= |path|
    requires CompileFrom(path, pos, parts).Ok?
    ensures forall i :: pos <= i < |path| ==> CharOk(path, i)
    decreases |path| - pos
  {
    if pos < |path| {
      match TokenAt(path, pos)
      case None =>
        var c := path[pos];
        if pos == |path| - 1 && c == '/' {
          CompileFromChars(path, pos + 1, parts);
        } else {
          CompileFromChars(path, pos + 1, parts + [Lit(c)]);
        }
      case Some((t, next)) =>
        if t.Wild? {
          WildCharsOk(path, pos);
        } else {
          VarCharsOk(path, pos);
        }
        CompileFromChars(path, next, parts + [t]);
    }
  }

  /** An accepted template has no space, and each of its `:` opens a
      variable name right after a `/`. */
  lemma CompileChars(path: string)
    requires Compile(path).Ok?
    ensures ' ' !in path
    ensures forall i :: 0 <= i < |path| && path[i] == ':' ==>
              0 < i && path[i - 1] == '/' && i + 1 < |path| && IsNameChar(path[i + 1])
  {
    CompileFromChars(path, 0, []);
    forall i | 0 <= i < |path|
      ensures path[i] != ' '
    {
      assert CharOk(path, i);
    }
    forall i | 0 <= i < |path| && path[i] == ':'
      ensures 0 < i && path[i - 1] == '/' && i + 1 < |path| && IsNameChar(path[i + 1])
    {
      assert CharOk(path, i);
    }
  }

  /** A final `/` does not change the runs of `*` before it. */
  lemma {:induction false} StarRunSlash(p: string, pos: nat)
    requires pos <= |p|
    ensures StarRun(p + "/", pos) == StarRun(p, pos)
    decreases |p| - pos
  {
    if pos < |p| {
      assert (p + "/")[pos] == p[pos];
      StarRunSlash(p, pos + 1);
    } else {
      assert (p + "/")[pos] == '/';
    }
  }

  /** A final `/` does not change the runs of name characters before it. */
  lemma {:induction false} NameRunSlash(p: string, pos: nat)
    requires pos <= |p|
    ensures NameRun(p + "/", pos) == NameRun(p, pos)
    decreases |p| - pos
  {
    if pos < |p| {
      assert (p + "/")[pos] == p[pos];
      NameRunSlash(p, pos + 1);
    } else {
      assert (p + "/")[pos] == '/';
    }
  }

  /** A final `/` does not change the tokens found before it. */
  lemma TokenAtSlash(p: string, pos: nat)
    requires pos < |p|
    ensures TokenAt(p + "/", pos) == TokenAt(p, pos)
  {
    var s := p + "/";
    StarRunSlash(p, pos);
    assert s[pos] == p[pos];
    if pos + 1 < |p| {
      assert s[pos + 1] == p[pos + 1];
      NameRunSlash(p, pos + 2);
      var n := NameRun(p, pos + 2);
      assert s[pos + 2 .. pos + 2 + n] == p[pos + 2 .. pos + 2 + n];
    } else {
      assert s[pos + 1] == '/';
    }
  }

  /** At the end of a template, an added `/` is dropped. */
  lemma FinalSlash(p: string, parts: seq<Tok>)
    ensures CompileFrom(p + "/", |p|, parts) == Ok(parts)
  {
    var s := p + "/";
    assert s[|p|] == '/';
    assert StarRun(s, |p|) == 0;
    assert TokenAt(s, |p|) == None;
    assert CompileFrom(s, |p| + 1, parts) == Ok(parts);
  }

  /** The scan of `p + "/"` agrees with the scan of `p` from any position,
      when `p` does not itself end in `/`. */
  lemma {:induction false} CompileFromSlash(p: string, pos: nat, parts: seq<Tok>)
    requires pos <= |p|
    requires p != [] ==> p[|p| - 1] != '/'
    ensures CompileFrom(p + "/", pos, parts) == CompileFrom(p, pos, parts)
    decreases |p| - pos
  {
    if pos == |p| {
      FinalSlash(p, parts);
    } else {
      TokenAtSlash(p, pos);
      assert (p + "/")[pos] == p[pos];
      match TokenAt(p, pos)
      case None =>
        CompileFromSlash(p, pos + 1, parts);
        CompileFromSlash(p, pos + 1, parts + [Lit(p[pos])]);
      case Some((t, next)) =>
        CompileFromSlash(p, next, parts + [t]);
    }
  }

  /** A template and the same template with a `/` added compile alike, so
      they accept the same paths. */
  lemma TrailingSlash(p: string)
    requires p != [] && p[|p| - 1] != '/'
    ensures Compile(p + "/") == Compile(p)
  {
    assert (p + "/")[0] == p[0];
    CompileFromSlash(p, 0, []);
  }

  /** The template text with every run of `*` written as one `*`: the
      spelling a run of `*` and a single `*` share. */
  function Collapse(s: string): (r: string)
    ensures |r| <= |s|
  {
    if s == [] then []
    else if |s| >= 2 && s[0] == '*' && s[1] == '*' then Collapse(s[1..])
    else [s[0]] + Collapse(s[1..])
  }

  /** Text without `*` is kept as it is. */
  lemma {:induction false} CollapseNoStar(u: string, v: string)
    requires '*' !in u
    ensures Collapse(u + v) == u + Collapse(v)
  {
    if u != [] {
      assert (u + v)[0] == u[0] && (u + v)[1..] == u[1..] + v;
      CollapseNoStar(u[1..], v);
      assert u == [u[0]] + u[1..];
    } else {
      assert u + v == v;
    }
  }

  /** A maximal run of `n` stars is written as one. */
  lemma {:induction false} CollapseStars(s: string, n: nat)
    requires 1 <= n <= |s|
    requires forall i :: 0 <= i < n ==> s[i] == '*'
    requires n == |s| || s[n] != '*'
    ensures Collapse(s) == "*" + Collapse(s[n..])
    decreases n
  {
    if n > 1 {
      CollapseStars(s[1..], n - 1);
      assert s[1..][n - 1..] == s[n..];
    }
  }

  /** A turn of a scan that succeeds: the rest of the scan succeeds with
      the same tokens. */
  lemma ScanOkTurn(path: string, pos: nat, parts: seq<Tok>, toks: seq<Tok>)
    requires pos < |path| && CompileFrom(path, pos, parts) == Ok(toks)
    ensures TokenAt(path, pos).None? ==>
              && !IsForbiddenLiteral(path[pos])
              && (pos == |path| - 1 && path[pos] == '/' ==> toks == parts)
              && (!(pos == |path| - 1 && path[pos] == '/') ==>
                    CompileFrom(path, pos + 1, parts + [Lit(path[pos])]) == Ok(toks))
    ensures TokenAt(path, pos).Some? ==>
              var (t, next) := TokenAt(path, pos).value;
              CompileFrom(path, next, parts + [t]) == Ok(toks)
  {
    if pos == |path| - 1 && path[pos] == '/' && TokenAt(path, pos).None? {
      assert CompileFrom(path, pos + 1, parts) == Ok(parts);
    }
  }

  /** The text of a literal or a variable found by the scan. */
  lemma PlainText(path: string, pos: nat)
    requires pos < |path|
    ensures TokenAt(path, pos).None? ==>
              path[pos..pos + 1] == TokText(Lit(path[pos])) && (!IsForbiddenLiteral(path[pos]) ==> '*' !in TokText(Lit(path[pos])))
    ensures TokenAt(path, pos).Some? && TokenAt(path, pos).value.0.Var? ==>
              var (t, next) := TokenAt(path, pos).value;
              path[pos..next] == TokText(t) && '*' !in TokText(t)
  {
    TokenAtSpan(path, pos);
    var m := TokenAt(path, pos);
    if m.Some? && m.value.0.Var? {
      var (t, next) := m.value;
      assert path[pos..next] == [path[pos], path[pos + 1]] + path[pos + 2..next];
      assert '*' !in t.name by {
        forall k | 0 <= k < |t.name| ensures t.name[k] != '*' {
          assert t.name[k] == path[pos + 2 + k];
        }
      }
    }
  }

  /** The text of a wildcard found by the scan collapses to one `*`. */
  lemma WildText(path: string, pos: nat)
    requires pos < |path| && TokenAt(path, pos).Some? && TokenAt(path, pos).value.0.Wild?
    ensures Collapse(path[pos..]) == "*" + Collapse(path[TokenAt(path, pos).value.1..])
  {
    TokenAtSpan(path, pos);
    var next := TokenAt(path, pos).value.1;
    CollapseStars(path[pos..], next - pos);
    assert path[pos..][next - pos..] == path[next..];
  }

  /** What the scan emits from `pos` on spells the rest of the template, with
      runs of `*` collapsed, up to a dropped final `/`. */
  lemma {:induction false} CompileFromSpelling(path: string, pos: nat, parts: seq<Tok>, toks: seq<Tok>)
    requires pos <= |path|
    requires CompileFrom(path, pos, parts) == Ok(toks)
    ensures |parts| <= |toks| && toks[..|parts|] == parts
    ensures var rest := Render(toks[|parts|..]);
            Collapse(path[pos..]) == rest || Collapse(path[pos..]) == rest + "/"
    decreases |path| - pos
  {
    if pos == |path| {
      assert toks[|parts|..] == [];
    } else {
      ScanOkTurn(path, pos, parts, toks);
      PlainText(path, pos);
      match TokenAt(path, pos)
      case None =>
        var c := path[pos];
        if pos == |path| - 1 && c == '/' {
          assert toks[|parts|..] == [];
          assert path[pos..] == "/";
          assert Collapse("/") == "/";
        } else {
          CompileFromSpelling(path, pos + 1, parts + [Lit(c)], toks);
          Step(path, pos, pos + 1, parts, Lit(c), toks);
        }
      case Some((t, next)) =>
        CompileFromSpelling(path, next, parts + [t], toks);
        if t.Wild? {
          WildText(path, pos);
        }
        Step(path, pos, next, parts, t, toks);
    }
  }

  /** One token of the scan: its text, collapsed, opens the rest. */
  lemma Step(path: string, pos: nat, next: nat, parts: seq<Tok>, t: Tok, toks: seq<Tok>)
    requires pos < next <= |path|
    requires |parts + [t]| <= |toks| && toks[..|parts + [t]|] == parts + [t]
    requires t.Wild? ==> Collapse(path[pos..]) == "*" + Collapse(path[next..])
    requires !t.Wild? ==> path[pos..next] == TokText(t) && '*' !in TokText(t)
    ensures |parts| <= |toks| && toks[..|parts|] == parts
    ensures Collapse(path[pos..]) == TokText(t) + Collapse(path[next..])
    ensures Render(toks[|parts|..]) == TokText(t) + Render(toks[|parts| + 1..])
    ensures Render(toks[|parts|..]) + "/" == TokText(t) + (Render(toks[|parts| + 1..]) + "/")
  {
    assert toks[..|parts|] == (parts + [t])[..|parts|];
    assert toks[|parts|] == t;
    var r := toks[|parts|..];
    assert r[0] == t && r[1..] == toks[|parts| + 1..];
    if !t.Wild? {
      assert path[pos..] == path[pos..next] + path[next..];
      CollapseNoStar(TokText(t), path[next..]);
    }
  }

  /** Parse, then print: a template that compiles is spelled by its tokens,
      each run of `*` standing for the wildcard, with at most a final `/`
      more. */
  lemma CompileSpelling(path: string, toks: seq<Tok>)
    requires Compile(path) == Ok(toks)
    ensures Collapse(path) == Render(toks) || Collapse(path) == Render(toks) + "/"
  {
    CompileFromSpelling(path, 0, [], toks);
    assert path[0..] == path && toks[0..] == toks;
  }

  /** Collapsing keeps whether the text has a `*`. */
  lemma {:induction false} StarInCollapse(s: string)
    ensures '*' in Collapse(s) <==> '*' in s
  {
    if s != [] {
      StarInCollapse(s[1..]);
      assert s == [s[0]] + s[1..];
    }
  }

  /** Tokens that follow one another spell a `*` exactly where they hold the
      wildcard. */
  lemma {:induction false} StarInRender(pre: seq<Tok>, toks: seq<Tok>)
    requires Follows(pre, toks)
    ensures '*' in Render(toks) <==> Wild in toks
    decreases |toks|
  {
    if toks != [] {
      StarInRender(pre + [toks[0]], toks[1..]);
      assert toks == [toks[0]] + toks[1..];
      if toks[0].Var? {
        var n := toks[0].name;
        assert "/:" + n == ['/', ':'] + n;
        assert '*' !in n by {
          forall k | 0 <= k < |n| ensures n[k] != '*' {
            assert IsNameChar(n[k]);
          }
        }
      }
    }
  }

  /** A template that compiles has a `*` exactly when its tokens have the
      wildcard, so the wildcard is bound exactly when the template text has
      a `*`. */
  lemma CompileWildcard(path: string, toks: seq<Tok>)
    requires Compile(path) == Ok(toks)
    ensures '*' in path <==> Wild in toks
    ensures '*' in path <==> "wildcard" in Captures(toks)
  {
    CompileSpelling(path, toks);
    StarInCollapse(path);
    StarInRender([], toks);
    CompileCaptures(path, toks);
  }
}
