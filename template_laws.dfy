/**
 * Properties of the template compiler: what it accepts is exactly the set of
 * well-formed token sequences (each one re-spelled as a template compiles
 * back to itself), a final `/` of a template is irrelevant, and the
 * rejection rules of the scanner.
 */
module TemplateLaws {
  import opened PathTemplate

  /** The first character of a token's text. */
  function Head(t: Tok): char
  {
    match t
    case Lit(c) => c
    case Var(_) => '/'
    case Wild => '*'
  }

  lemma {:induction false} RenderAppend(a: seq<Tok>, b: seq<Tok>)
    ensures Render(a + b) == Render(a) + Render(b)
  {
    if a != [] {
      assert (a + b)[1..] == a[1..] + b;
      RenderAppend(a[1..], b);
    } else {
      assert a + b == b;
    }
  }

  lemma RenderFirst(toks: seq<Tok>)
    requires toks != []
    ensures |Render(toks)| > 0 && Render(toks)[0] == Head(toks[0])
  {
  }

  lemma {:induction false} StarRunExact(s: string, pos: nat, n: nat)
    requires pos + n <= |s|
    requires forall i :: pos <= i < pos + n ==> s[i] == '*'
    requires pos + n == |s| || s[pos + n] != '*'
    ensures StarRun(s, pos) == n
    decreases n
  {
    if n > 0 {
      StarRunExact(s, pos + 1, n - 1);
    }
  }

  lemma {:induction false} NameRunExact(s: string, pos: nat, n: nat)
    requires pos + n <= |s|
    requires forall i :: pos <= i < pos + n ==> IsNameChar(s[i])
    requires pos + n == |s| || !IsNameChar(s[pos + n])
    ensures NameRun(s, pos) == n
    decreases n
  {
    if n > 0 {
      NameRunExact(s, pos + 1, n - 1);
    }
  }

  /** What may follow the text of the last token: the template either ends
      there or has one more `/`, which the compiler drops; a template that
      ends at a literal `/` loses it. */
  predicate TailOk(toks: seq<Tok>, tail: string)
  {
    tail == "/" || (tail == "" && (toks == [] || toks[|toks| - 1] != Lit('/')))
  }

  /** The token the scanner finds at a literal that is not `*` and does not
      start `/:`. */
  lemma LitToken(s: string, p: nat)
    requires p < |s| && s[p] != '*'
    requires p + 1 < |s| ==> s[p + 1] != ':'
    ensures TokenAt(s, p) == None
  {
    StarRunExact(s, p, 0);
  }

  /** The token the scanner finds at `/:n` followed by a character that
      cannot extend the name. */
  lemma VarToken(s: string, p: nat, n: string)
    requires p + 2 + |n| <= |s| && s[p] == '/' && s[p + 1] == ':' && s[p + 2 .. p + 2 + |n|] == n
    requires n != [] && forall k :: 0 <= k < |n| ==> IsNameChar(n[k])
    requires p + 2 + |n| == |s| || !IsNameChar(s[p + 2 + |n|])
    ensures TokenAt(s, p) == Some((Var(n), p + 2 + |n|))
  {
    forall i | p + 2 <= i < p + 2 + |n| ensures IsNameChar(s[i]) {
      assert s[i] == n[i - (p + 2)];
    }
    NameRunExact(s, p + 2, |n|);
    StarRunExact(s, p, 0);
  }

  /** The token the scanner finds at a single `*`. */
  lemma WildToken(s: string, p: nat)
    requires p < |s| && s[p] == '*' && (p + 1 == |s| || s[p + 1] != '*')
    ensures TokenAt(s, p) == Some((Wild, p + 1))
  {
    StarRunExact(s, p, 1);
  }

  /** A literal that is neither forbidden nor a final `/` is emitted. */
  lemma LitTurn(s: string, p: nat, pre: seq<Tok>, c: char)
    requires p < |s| && TokenAt(s, p) == None && s[p] == c
    requires !IsForbiddenLiteral(c) && !(p == |s| - 1 && c == '/')
    ensures CompileFrom(s, p, pre) == CompileFrom(s, p + 1, pre + [Lit(c)])
  {
  }

  /** A variable that is allowed and new is emitted. */
  lemma VarTurn(s: string, p: nat, pre: seq<Tok>, n: string, next: nat)
    requires p < |s| && TokenAt(s, p) == Some((Var(n), next))
    requires !IsReserved(n) && n !in VarNames(pre)
    ensures next <= |s| && CompileFrom(s, p, pre) == CompileFrom(s, next, pre + [Var(n)])
  {
  }

  /** A wildcard that may appear is emitted. */
  lemma WildTurn(s: string, p: nat, pre: seq<Tok>, next: nat)
    requires p < |s| && TokenAt(s, p) == Some((Wild, next))
    requires pre == [] || pre[|pre| - 1].Lit?
    requires Wild !in pre
    ensures next <= |s| && CompileFrom(s, p, pre) == CompileFrom(s, next, pre + [Wild])
  {
  }

  /** What the scanner needs to know about the text `after` that follows
      the text of token `t`, to read `t` back as itself. */
  predicate AfterOk(t: Tok, after: string)
  {
    && (after != [] ==> after[0] != ':' && after[0] != ' ')
    && (after != [] && t.Var? ==> !IsNameChar(after[0]))
    && (after != [] && t.Wild? ==> after[0] != '*')
    && (after == [] ==> t != Lit('/'))
  }

  /** The characters of `s` from `p` on are `w`, character by character. */
  predicate Spelled(s: string, p: nat, w: string)
    decreases |w|
  {
    if w == [] then p == |s| else p < |s| && s[p] == w[0] && Spelled(s, p + 1, w[1..])
  }

  lemma {:induction false} SpelledSuffix(s: string, p: nat)
    requires p <= |s|
    ensures Spelled(s, p, s[p..])
    decreases |s| - p
  {
    if p < |s| {
      SpelledSuffix(s, p + 1);
      assert s[p..][1..] == s[p + 1..];
    }
  }

  /** A spelling of `u + v` spells `u` and then `v`. */
  lemma {:induction false} SpelledSplit(s: string, p: nat, u: string, v: string)
    requires Spelled(s, p, u + v)
    ensures p + |u| <= |s| && Spelled(s, p + |u|, v)
    ensures forall i :: 0 <= i < |u| ==> s[p + i] == u[i]
    decreases |u|
  {
    if u != [] {
      assert (u + v)[1..] == u[1..] + v;
      SpelledSplit(s, p + 1, u[1..], v);
      forall i | 0 <= i < |u| ensures s[p + i] == u[i] {
        if i > 0 {
          assert s[(p + 1) + (i - 1)] == u[1..][i - 1];
        }
      }
    } else {
      assert u + v == v;
    }
  }

  /** What a spelling says about the character after `v` starts. */
  lemma SpelledNext(s: string, p: nat, v: string)
    requires Spelled(s, p, v)
    ensures v == [] ==> p == |s|
    ensures v != [] ==> p < |s| && s[p] == v[0]
  {
  }

  /** Characters given one by one make a slice. */
  lemma SliceOfChars(s: string, p: nat, n: string)
    requires p + |n| <= |s|
    requires forall i :: 0 <= i < |n| ==> s[p + i] == n[i]
    ensures s[p .. p + |n|] == n
  {
  }

  /** One literal is scanned back as itself. */
  lemma LitScan(s: string, p: nat, pre: seq<Tok>, c: char, after: string)
    requires Spelled(s, p, [c] + after)
    requires !IsForbiddenLiteral(c)
    requires after != [] ==> after[0] != ':'
    requires after == [] ==> c != '/'
    ensures p + 1 <= |s| && Spelled(s, p + 1, after)
    ensures CompileFrom(s, p, pre) == CompileFrom(s, p + |TokText(Lit(c))|, pre + [Lit(c)])
  {
    SpelledSplit(s, p, [c], after);
    assert s[p + 0] == c;
    SpelledNext(s, p + 1, after);
    LitToken(s, p);
    LitTurn(s, p, pre, c);
  }

  /** One variable is scanned back as itself. */
  lemma VarScan(s: string, p: nat, pre: seq<Tok>, n: string, after: string)
    requires Spelled(s, p, "/:" + n + after)
    requires n != [] && forall k :: 0 <= k < |n| ==> IsNameChar(n[k])
    requires !IsReserved(n) && n !in VarNames(pre)
    requires after != [] ==> !IsNameChar(after[0])
    ensures p + 2 + |n| <= |s| && Spelled(s, p + 2 + |n|, after)
    ensures CompileFrom(s, p, pre) == CompileFrom(s, p + |TokText(Var(n))|, pre + [Var(n)])
  {
    assert |TokText(Var(n))| == 2 + |n|;
    VarChars(s, p, n, after);
    VarToken(s, p, n);
    VarTurn(s, p, pre, n, p + 2 + |n|);
  }

  /** The characters of a spelled variable token. */
  lemma VarChars(s: string, p: nat, n: string, after: string)
    requires Spelled(s, p, "/:" + n + after)
    ensures p + 2 + |n| <= |s| && Spelled(s, p + 2 + |n|, after)
    ensures s[p] == '/' && s[p + 1] == ':' && s[p + 2 .. p + 2 + |n|] == n
    ensures after != [] ==> p + 2 + |n| < |s| && s[p + 2 + |n|] == after[0]
    ensures after == [] ==> p + 2 + |n| == |s|
  {
    var u := "/:" + n;
    SpelledSplit(s, p, u, after);
    assert s[p + 0] == u[0] && s[p + 1] == u[1];
    forall i | 0 <= i < |n| ensures s[p + 2 + i] == n[i] {
      assert s[p + (2 + i)] == u[2 + i];
    }
    SliceOfChars(s, p + 2, n);
    SpelledNext(s, p + 2 + |n|, after);
  }

  /** One wildcard is scanned back as itself. */
  lemma WildScan(s: string, p: nat, pre: seq<Tok>, after: string)
    requires Spelled(s, p, "*" + after)
    requires pre == [] || pre[|pre| - 1].Lit?
    requires Wild !in pre
    requires after != [] ==> after[0] != '*'
    ensures p + 1 <= |s| && Spelled(s, p + 1, after)
    ensures CompileFrom(s, p, pre) == CompileFrom(s, p + |TokText(Wild)|, pre + [Wild])
  {
    SpelledSplit(s, p, "*", after);
    assert s[p + 0] == '*';
    SpelledNext(s, p + 1, after);
    WildToken(s, p);
    WildTurn(s, p, pre, p + 1);
  }

  /** One token is scanned back as itself, and the scan goes on after its
      text. */
  lemma TokenScan(s: string, p: nat, pre: seq<Tok>, t: Tok, after: string)
    requires Spelled(s, p, TokText(t) + after)
    requires CanFollow(pre, t)
    requires AfterOk(t, after)
    ensures p + |TokText(t)| <= |s| && Spelled(s, p + |TokText(t)|, after)
    ensures CompileFrom(s, p, pre) == CompileFrom(s, p + |TokText(t)|, pre + [t])
  {
    match t {
      case Lit(c) =>
        LitScan(s, p, pre, c, after);
      case Var(n) =>
        VarScan(s, p, pre, n, after);
      case Wild =>
        WildScan(s, p, pre, after);
    }
  }

  lemma ConsSplit(pre: seq<Tok>, toks: seq<Tok>)
    requires toks != []
    ensures pre + [toks[0]] + toks[1..] == pre + toks
  {
  }

  lemma RenderCons(toks: seq<Tok>, tail: string)
    requires toks != []
    ensures Render(toks) + tail == TokText(toks[0]) + (Render(toks[1..]) + tail)
  {
  }

  /** A token that may follow `parts` starts with a character the scanner
      cannot take as part of the last token of `parts`. */
  lemma HeadAfter(parts: seq<Tok>, u: Tok)
    requires parts != [] && CanFollow(parts, u)
    ensures Head(u) != ':' && Head(u) != ' '
    ensures parts[|parts| - 1].Var? ==> !IsNameChar(Head(u))
    ensures parts[|parts| - 1].Wild? ==> Head(u) != '*'
  {
  }

  /** The text after the first token of `toks` is acceptable to the scanner. */
  lemma AfterFirst(pre: seq<Tok>, toks: seq<Tok>, tail: string)
    requires toks != []
    requires Follows(pre, toks)
    requires TailOk(toks, tail)
    ensures TailOk(toks[1..], tail)
    ensures AfterOk(toks[0], Render(toks[1..]) + tail)
  {
    var t, rest := toks[0], toks[1..];
    if rest != [] {
      RenderFirst(rest);
      HeadAfter(pre + [t], rest[0]);
      assert toks[|toks| - 1] == rest[|rest| - 1];
    }
  }

  /** At the end of a template, or before its final `/`, the scan is done. */
  lemma EndOfTemplate(s: string, p: nat, pre: seq<Tok>, tail: string)
    requires Spelled(s, p, tail) && (tail == "" || tail == "/")
    ensures CompileFrom(s, p, pre) == Ok(pre)
  {
    if tail == "/" {
      assert Spelled(s, p + 1, "");
      assert TokenAt(s, p) == None;
      assert CompileFrom(s, p + 1, pre) == Ok(pre);
    }
  }

  /** The scan of `s`, extended to every position so that the chaining
      argument below can treat it as an arbitrary function. */
  function ScanOf(s: string): (nat, seq<Tok>) -> Result<seq<Tok>>
  {
    (q: nat, pre: seq<Tok>) => if q <= |s| then CompileFrom(s, q, pre) else Ok(pre)
  }

  /** The scan `f` from `p` takes the tokens `toks` one turn each. */
  predicate Runs(f: (nat, seq<Tok>) -> Result<seq<Tok>>, p: nat, pre: seq<Tok>, toks: seq<Tok>)
    decreases |toks|
  {
    toks == [] ||
    (f(p, pre) == f(p + |TokText(toks[0])|, pre + [toks[0]]) &&
     Runs(f, p + |TokText(toks[0])|, pre + [toks[0]], toks[1..]))
  }

  /** One turn followed by a run is a run. */
  lemma RunsCons(f: (nat, seq<Tok>) -> Result<seq<Tok>>, p: nat, pre: seq<Tok>, toks: seq<Tok>)
    requires toks != []
    requires f(p, pre) == f(p + |TokText(toks[0])|, pre + [toks[0]])
    requires Runs(f, p + |TokText(toks[0])|, pre + [toks[0]], toks[1..])
    ensures Runs(f, p, pre, toks)
  {
  }

  /** A token spelled at `p` is one turn of the scan of `s`. */
  lemma TokenTurn(s: string, p: nat, pre: seq<Tok>, t: Tok, after: string)
    requires Spelled(s, p, TokText(t) + after)
    requires CanFollow(pre, t)
    requires AfterOk(t, after)
    ensures p + |TokText(t)| <= |s| && Spelled(s, p + |TokText(t)|, after)
    ensures ScanOf(s)(p, pre) == ScanOf(s)(p + |TokText(t)|, pre + [t])
  {
    TokenScan(s, p, pre, t, after);
  }

  /** The first token of a rendered template is one turn of the scan, after
      which the rest of the template is again rendered text. */
  lemma FirstTurn(s: string, p: nat, pre: seq<Tok>, toks: seq<Tok>, tail: string)
    requires toks != []
    requires Spelled(s, p, Render(toks) + tail)
    requires Follows(pre, toks)
    requires TailOk(toks, tail)
    ensures Spelled(s, p + |TokText(toks[0])|, Render(toks[1..]) + tail)
    ensures Follows(pre + [toks[0]], toks[1..]) && TailOk(toks[1..], tail)
    ensures ScanOf(s)(p, pre) == ScanOf(s)(p + |TokText(toks[0])|, pre + [toks[0]])
  {
    RenderCons(toks, tail);
    AfterFirst(pre, toks, tail);
    TokenTurn(s, p, pre, toks[0], Render(toks[1..]) + tail);
  }

  /** Taking tokens one turn each, the scan reaches the end of their text
      with all of them emitted. */
  lemma {:induction false} RunsCompile(f: (nat, seq<Tok>) -> Result<seq<Tok>>, p: nat, pre: seq<Tok>, toks: seq<Tok>)
    requires Runs(f, p, pre, toks)
    ensures f(p, pre) == f(p + |Render(toks)|, pre + toks)
    decreases |toks|
  {
    if toks == [] {
      assert pre + toks == pre;
    } else {
      var t, rest := toks[0], toks[1..];
      var q := p + |TokText(t)|;
      RunsCompile(f, q, pre + [t], rest);
      assert |Render(toks)| == |TokText(t)| + |Render(rest)|;
      ConsSplit(pre, toks);
    }
  }

  /** Each token whose text fills the rest of the template is taken by the
      scan in one turn. */
  lemma {:induction false} RenderRuns(s: string, p: nat, pre: seq<Tok>, toks: seq<Tok>, tail: string)
    requires Spelled(s, p, Render(toks) + tail)
    requires Follows(pre, toks)
    requires TailOk(toks, tail)
    ensures Runs(ScanOf(s), p, pre, toks)
    decreases |toks|
  {
    if toks != [] {
      FirstTurn(s, p, pre, toks, tail);
      RenderRuns(s, p + |TokText(toks[0])|, pre + [toks[0]], toks[1..], tail);
      RunsCons(ScanOf(s), p, pre, toks);
    }
  }

  /** The scan of a whole rendered template, from its first position. */
  lemma CompileFromRendered(toks: seq<Tok>, tail: string)
    requires WellFormed(toks)
    requires TailOk(toks, tail)
    ensures CompileFrom(Render(toks) + tail, 0, []) == Ok(toks)
  {
    assert [] + toks == toks;
    var s := Render(toks) + tail;
    SpelledSuffix(s, 0);
    assert s[0..] == s;
    RenderRuns(s, 0, [], toks, tail);
    RunsCompile(ScanOf(s), 0, [], toks);
    SpelledSplit(s, 0, Render(toks), tail);
    EndOfTemplate(s, |Render(toks)|, toks, tail);
  }

  /** Completeness of the compiler: every well-formed token sequence is what
      its own spelling compiles to, once a final `/` is appended. */
  lemma CompileRender(toks: seq<Tok>)
    requires WellFormed(toks)
    ensures Compile(Render(toks) + "/") == Ok(toks)
  {
    CompileFromRendered(toks, "/");
    GroupNamesOf(toks);
  }

  /** Without the final `/`, the same holds unless the last token is the
      literal `/` (which the compiler would drop as the optional one). */
  lemma CompileRenderBare(toks: seq<Tok>)
    requires WellFormed(toks) && toks != [] && toks[|toks| - 1] != Lit('/')
    ensures Compile(Render(toks)) == Ok(toks)
  {
    RenderFirst(toks);
    CompileFromRendered(toks, "");
    GroupNamesOf(toks);
    assert Render(toks) + "" == Render(toks);
  }
}
