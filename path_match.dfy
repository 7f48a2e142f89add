/**
 * What a compiled template matches.  The router turns a template into the
 * regular expression `^` + parts + `/?$`, where a literal part is the
 * character itself, a variable is `/(?P<name>[A-Za-z0-9-._~()'!*:@,;]+)`
 * and the wildcard is `(?P<wildcard>[A-Za-z0-9-._~()'!*:@,;/]+)?`.
 *
 * Two definitions of the same language are given over the token sequence:
 * `Spells`, a relation saying how a request path may be cut into the
 * template's pieces, and `Search`, the depth-first, greedy-first search a
 * backtracking regular-expression engine performs, which also fixes the
 * values that are captured.  They are proved to accept the same paths, and
 * `Search` is proved to give the first variable or wildcard the longest
 * capture any cut allows.
 */
module PathMatch {
  import opened PathTemplate

  /** The values bound by a match, in the order of the template: each
      variable's name with its value, and `wildcard` with its value or
      `None` when the wildcard matched nothing. */
  type Bindings = seq<(string, Option<string>)>

  /** The characters a variable may capture; with `slash`, the characters
      a wildcard may capture, which adds `/`. */
  predicate Allowed(c: char, slash: bool)
  {
    || 'a' <= c <= 'z' || 'A' <= c <= 'Z' || '0' <= c <= '9'
    || c == '-' || c == '.' || c == '_' || c == '~' || c == '(' || c == ')'
    || c == '\'' || c == '!' || c == '*' || c == ':' || c == '@' || c == ','
    || c == ';'
    || (slash && c == '/')
  }

  /** Every character of `v` is allowed. */
  predicate AllAllowed(v: string, slash: bool)
  {
    forall i :: 0 <= i < |v| ==> Allowed(v[i], slash)
  }

  /** Length of the longest run of allowed characters from `pos`. */
  function Run(s: string, pos: nat, slash: bool): (n: nat)
    requires pos <= |s|
    ensures pos + n <= |s|
    decreases |s| - pos
  {
    if pos < |s| && Allowed(s[pos], slash) then 1 + Run(s, pos + 1, slash) else 0
  }

  /** The names of the bindings, in order. */
  function Names(b: Bindings): seq<string>
  {
    if b == [] then [] else [b[0].0] + Names(b[1..])
  }

  /**
   * `b` is one way to cut the request path `s` along `toks`: a literal
   * is its character, a variable is `/` and a non-empty value without `/`,
   * the wildcard is a non-empty value or nothing (bound to `None`), and
   * what is left after the last token is empty or a single `/`.
   */
  predicate Spells(toks: seq<Tok>, b: Bindings, s: string)
    decreases |toks|
  {
    if toks == [] then b == [] && (s == "" || s == "/")
    else match toks[0]
      case Lit(c) =>
        s != [] && s[0] == c && Spells(toks[1..], b, s[1..])
      case Var(n) =>
        && b != [] && b[0].0 == n && b[0].1.Some?
        && var v := b[0].1.value;
           && v != [] && AllAllowed(v, false)
           && 1 + |v| <= |s| && s[0] == '/' && s[1 .. 1 + |v|] == v
           && Spells(toks[1..], b[1..], s[1 + |v|..])
      case Wild =>
        && b != [] && b[0].0 == "wildcard"
        && match b[0].1
           case None => Spells(toks[1..], b[1..], s)
           case Some(v) =>
             && v != [] && AllAllowed(v, true)
             && |v| <= |s| && s[..|v|] == v
             && Spells(toks[1..], b[1..], s[|v|..])
  }

  /** Some cut of `s` along `toks` exists: the path is accepted. */
  ghost predicate Accepts(toks: seq<Tok>, s: string)
  {
    exists b :: Spells(toks, b, s)
  }

  /**
   * The match the regular-expression engine finds: the tokens are tried
   * left to right; a variable first takes the longest run it may and gives
   * back one character at a time; the wildcard does the same and, after
   * its shortest non-empty try, matches nothing; the end accepts an empty
   * rest or a single `/`.
   */
  function Search(toks: seq<Tok>, s: string): (r: Option<Bindings>)
    ensures r.Some? ==> Names(r.value) == Captures(toks)
    decreases |toks|, 1, 0
  {
    if toks == [] then
      if s == "" || s == "/" then Some([]) else None
    else match toks[0]
      case Lit(c) =>
        if s != [] && s[0] == c then Search(toks[1..], s[1..]) else None
      case Var(n) =>
        if s != [] && s[0] == '/' then TryVar(n, toks[1..], s, Run(s, 1, false)) else None
      case Wild =>
        TryWild(toks[1..], s, Run(s, 0, true))
  }

  /** The variable `n` tries the values `s[1..1+k]`, `s[1..k]`, ... down to
      one character, and the rest of the template after each. */
  function TryVar(n: string, rest: seq<Tok>, s: string, k: nat): (r: Option<Bindings>)
    requires 1 + k <= |s|
    ensures r.Some? ==> r.value != [] && r.value[0].0 == n && r.value[0].1.Some?
    ensures r.Some? ==> Names(r.value) == [n] + Captures(rest)
    decreases |rest| + 1, 0, k
  {
    if k == 0 then None
    else match Search(rest, s[1 + k..])
      case Some(b) => Some([(n, Some(s[1 .. 1 + k]))] + b)
      case None => TryVar(n, rest, s, k - 1)
  }

  /** The wildcard tries the values `s[..k]`, `s[..k-1]`, ... down to one
      character and finally matches nothing. */
  function TryWild(rest: seq<Tok>, s: string, k: nat): (r: Option<Bindings>)
    requires k <= |s|
    ensures r.Some? ==> r.value != [] && r.value[0].0 == "wildcard"
    ensures r.Some? ==> Names(r.value) == ["wildcard"] + Captures(rest)
    decreases |rest| + 1, 0, k
  {
    match Search(rest, s[k..])
    case Some(b) => Some([("wildcard", if k == 0 then None else Some(s[..k]))] + b)
    case None => if k == 0 then None else TryWild(rest, s, k - 1)
  }

  /** The run found by Run is all allowed characters and cannot be extended. */
  lemma {:induction false} RunMaximal(s: string, pos: nat, slash: bool)
    requires pos <= |s|
    ensures forall i :: pos <= i < pos + Run(s, pos, slash) ==> Allowed(s[i], slash)
    ensures pos + Run(s, pos, slash) == |s| || !Allowed(s[pos + Run(s, pos, slash)], slash)
    decreases |s| - pos
  {
    if pos < |s| && Allowed(s[pos], slash) {
      RunMaximal(s, pos + 1, slash);
    }
  }

  /** A stretch of allowed characters from `pos` lies within the run. */
  lemma {:induction false} RunCovers(s: string, pos: nat, m: nat, slash: bool)
    requires pos + m <= |s|
    requires forall i :: pos <= i < pos + m ==> Allowed(s[i], slash)
    ensures m <= Run(s, pos, slash)
    decreases m
  {
    if m > 0 {
      RunCovers(s, pos + 1, m - 1, slash);
    }
  }

  /** A value inside the run is made of allowed characters. */
  lemma RunSlice(s: string, pos: nat, k: nat, slash: bool)
    requires pos <= |s| && k <= Run(s, pos, slash)
    ensures AllAllowed(s[pos .. pos + k], slash)
  {
    RunMaximal(s, pos, slash);
    var v := s[pos .. pos + k];
    forall i | 0 <= i < k ensures Allowed(v[i], slash) {
      assert v[i] == s[pos + i];
    }
  }

  /** Unfolding `Spells` at a variable in front of `rest`. */
  lemma SpellsVar(n: string, rest: seq<Tok>, b: Bindings, s: string)
    ensures Spells([Var(n)] + rest, b, s) <==>
      && b != [] && b[0].0 == n && b[0].1.Some?
      && var v := b[0].1.value;
         && v != [] && AllAllowed(v, false)
         && 1 + |v| <= |s| && s[0] == '/' && s[1 .. 1 + |v|] == v
         && Spells(rest, b[1..], s[1 + |v|..])
  {
    assert ([Var(n)] + rest)[0] == Var(n) && ([Var(n)] + rest)[1..] == rest;
  }

  /** Unfolding `Spells` at a wildcard in front of `rest`. */
  lemma SpellsWild(rest: seq<Tok>, b: Bindings, s: string)
    ensures Spells([Wild] + rest, b, s) <==>
      && b != [] && b[0].0 == "wildcard"
      && match b[0].1
         case None => Spells(rest, b[1..], s)
         case Some(v) =>
           && v != [] && AllAllowed(v, true)
           && |v| <= |s| && s[..|v|] == v
           && Spells(rest, b[1..], s[|v|..])
  {
    assert ([Wild] + rest)[0] == Wild && ([Wild] + rest)[1..] == rest;
  }

  /** Soundness of the search: the bindings it returns are a cut of the
      path along the template. */
  lemma {:induction false} SearchSound(toks: seq<Tok>, s: string)
    ensures Search(toks, s).Some? ==> Spells(toks, Search(toks, s).value, s)
    decreases |toks|, 1, 0
  {
    if toks != [] {
      match toks[0]
      case Lit(c) =>
        if s != [] && s[0] == c {
          SearchSound(toks[1..], s[1..]);
        }
      case Var(n) =>
        if s != [] && s[0] == '/' {
          assert toks == [Var(n)] + toks[1..];
          TryVarSound(n, toks[1..], s, Run(s, 1, false));
        }
      case Wild =>
        assert toks == [Wild] + toks[1..];
        TryWildSound(toks[1..], s, Run(s, 0, true));
    }
  }

  lemma {:induction false} TryVarSound(n: string, rest: seq<Tok>, s: string, k: nat)
    requires 1 + k <= |s| && s[0] == '/' && k <= Run(s, 1, false)
    ensures TryVar(n, rest, s, k).Some? ==> Spells([Var(n)] + rest, TryVar(n, rest, s, k).value, s)
    decreases |rest| + 1, 0, k
  {
    if k > 0 {
      SearchSound(rest, s[1 + k..]);
      match Search(rest, s[1 + k..])
      case Some(b) =>
        var r := [(n, Some(s[1 .. 1 + k]))] + b;
        RunSlice(s, 1, k, false);
        assert r[1..] == b;
        SpellsVar(n, rest, r, s);
      case None =>
        TryVarSound(n, rest, s, k - 1);
    }
  }

  lemma {:induction false} TryWildSound(rest: seq<Tok>, s: string, k: nat)
    requires k <= |s| && k <= Run(s, 0, true)
    ensures TryWild(rest, s, k).Some? ==> Spells([Wild] + rest, TryWild(rest, s, k).value, s)
    decreases |rest| + 1, 0, k
  {
    SearchSound(rest, s[k..]);
    match Search(rest, s[k..])
    case Some(b) =>
      var r := [("wildcard", if k == 0 then None else Some(s[..k]))] + b;
      assert r[1..] == b;
      if k > 0 {
        RunSlice(s, 0, k, true);
        assert s[0 .. k] == s[..k];
      } else {
        assert s[k..] == s;
      }
      SpellsWild(rest, r, s);
    case None =>
      if k > 0 {
        TryWildSound(rest, s, k - 1);
      }
  }

  /** The variable's tries reach every length from `k` down to 1. */
  lemma {:induction false} TryVarFinds(n: string, rest: seq<Tok>, s: string, k: nat, j: nat)
    requires 1 <= j <= k && 1 + k <= |s|
    requires Search(rest, s[1 + j..]).Some?
    ensures TryVar(n, rest, s, k).Some?
    decreases k
  {
    if j < k && Search(rest, s[1 + k..]).None? {
      TryVarFinds(n, rest, s, k - 1, j);
    }
  }

  /** The wildcard's tries reach every length from `k` down to 0. */
  lemma {:induction false} TryWildFinds(rest: seq<Tok>, s: string, k: nat, j: nat)
    requires j <= k <= |s|
    requires Search(rest, s[j..]).Some?
    ensures TryWild(rest, s, k).Some?
    decreases k
  {
    if j < k && Search(rest, s[k..]).None? {
      TryWildFinds(rest, s, k - 1, j);
    }
  }

  /** Completeness of the search: whenever some cut of the path exists,
      the search finds a match. */
  lemma {:induction false} SearchComplete(toks: seq<Tok>, b: Bindings, s: string)
    requires Spells(toks, b, s)
    ensures Search(toks, s).Some?
    decreases |toks|
  {
    if toks != [] {
      match toks[0]
      case Lit(c) =>
        SearchComplete(toks[1..], b, s[1..]);
      case Var(n) =>
        var v := b[0].1.value;
        SearchComplete(toks[1..], b[1..], s[1 + |v|..]);
        forall i | 1 <= i < 1 + |v| ensures Allowed(s[i], false) {
          assert s[i] == v[i - 1];
        }
        RunCovers(s, 1, |v|, false);
        TryVarFinds(n, toks[1..], s, Run(s, 1, false), |v|);
      case Wild =>
        match b[0].1
        case None =>
          SearchComplete(toks[1..], b[1..], s);
          assert s[0..] == s;
          TryWildFinds(toks[1..], s, Run(s, 0, true), 0);
        case Some(v) =>
          SearchComplete(toks[1..], b[1..], s[|v|..]);
          forall i | 0 <= i < |v| ensures Allowed(s[i], true) {
            assert s[i] == v[i];
          }
          RunCovers(s, 0, |v|, true);
          TryWildFinds(toks[1..], s, Run(s, 0, true), |v|);
    }
  }

  /** The search accepts exactly the paths that can be cut along the
      template. */
  lemma SearchAccepts(toks: seq<Tok>, s: string)
    ensures Search(toks, s).Some? <==> Accepts(toks, s)
  {
    SearchSound(toks, s);
    if Accepts(toks, s) {
      var b :| Spells(toks, b, s);
      SearchComplete(toks, b, s);
    }
  }

  /** A cut binds exactly the names the template binds, in order. */
  lemma {:induction false} SpellsNames(toks: seq<Tok>, b: Bindings, s: string)
    requires Spells(toks, b, s)
    ensures Names(b) == Captures(toks)
    decreases |toks|
  {
    if toks != [] {
      match toks[0]
      case Lit(c) =>
        SpellsNames(toks[1..], b, s[1..]);
      case Var(n) =>
        SpellsNames(toks[1..], b[1..], s[1 + |b[0].1.value|..]);
      case Wild =>
        match b[0].1
        case None => SpellsNames(toks[1..], b[1..], s);
        case Some(v) => SpellsNames(toks[1..], b[1..], s[|v|..]);
    }
  }

  /** A match binds every name of the template, in order, and nothing
      else; a variable gets a non-empty value without `/`, the wildcard a
      non-empty value or `None`. */
  lemma MatchBindings(toks: seq<Tok>, s: string)
    requires Search(toks, s).Some?
    ensures Names(Search(toks, s).value) == Captures(toks)
    ensures Spells(toks, Search(toks, s).value, s)
  {
    SearchSound(toks, s);
  }

  /** The variable keeps the longest value after which the rest matches. */
  lemma {:induction false} TryVarLongest(n: string, rest: seq<Tok>, s: string, k: nat, j: nat)
    requires 1 + k <= |s| && TryVar(n, rest, s, k).Some?
    requires |TryVar(n, rest, s, k).value[0].1.value| < j <= k
    ensures Search(rest, s[1 + j..]).None?
    decreases k
  {
    if Search(rest, s[1 + k..]).None? && j < k {
      TryVarLongest(n, rest, s, k - 1, j);
    }
  }

  /** The wildcard keeps the longest value after which the rest matches. */
  lemma {:induction false} TryWildLongest(rest: seq<Tok>, s: string, k: nat, j: nat)
    requires k <= |s| && TryWild(rest, s, k).Some?
    requires var w := TryWild(rest, s, k).value[0].1; (if w.None? then 0 else |w.value|) < j <= k
    ensures Search(rest, s[j..]).None?
    decreases k
  {
    if Search(rest, s[k..]).None? && j < k {
      TryWildLongest(rest, s, k - 1, j);
    }
  }

  /** Greedy capture: when the template opens with a variable, no cut of
      the path gives that variable a longer value than the match does. */
  lemma GreedyVar(n: string, rest: seq<Tok>, s: string, b: Bindings)
    requires Search([Var(n)] + rest, s).Some?
    requires Spells([Var(n)] + rest, b, s)
    ensures var r := Search([Var(n)] + rest, s).value;
            r != [] && r[0].1.Some? && |b[0].1.value| <= |r[0].1.value|
  {
    var toks := [Var(n)] + rest;
    assert toks[0] == Var(n) && toks[1..] == rest;
    SpellsVar(n, rest, b, s);
    var v := b[0].1.value;
    var k := Run(s, 1, false);
    forall i | 1 <= i < 1 + |v| ensures Allowed(s[i], false) {
      assert s[i] == v[i - 1];
    }
    RunCovers(s, 1, |v|, false);
    SearchComplete(rest, b[1..], s[1 + |v|..]);
    assert Search(toks, s) == TryVar(n, rest, s, k);
    if |v| > |Search(toks, s).value[0].1.value| {
      TryVarLongest(n, rest, s, k, |v|);
    }
  }

  /** Greedy capture: when the template opens with the wildcard, no cut
      of the path gives it a longer value than the match does. */
  lemma GreedyWild(rest: seq<Tok>, s: string, b: Bindings)
    requires Search([Wild] + rest, s).Some?
    requires Spells([Wild] + rest, b, s)
    ensures var r := Search([Wild] + rest, s).value;
            r != [] && r[0].0 == "wildcard" &&
            var u, w := b[0].1, r[0].1;
            (if u.None? then 0 else |u.value|) <= (if w.None? then 0 else |w.value|)
  {
    var toks := [Wild] + rest;
    assert toks[0] == Wild && toks[1..] == rest;
    SpellsWild(rest, b, s);
    var k := Run(s, 0, true);
    assert Search(toks, s) == TryWild(rest, s, k);
    match b[0].1
    case None =>
    case Some(v) =>
      forall i | 0 <= i < |v| ensures Allowed(s[i], true) {
        assert s[i] == v[i];
      }
      RunCovers(s, 0, |v|, true);
      SearchComplete(rest, b[1..], s[|v|..]);
      var w := TryWild(rest, s, k).value[0].1;
      if |v| > (if w.None? then 0 else |w.value|) {
        TryWildLongest(rest, s, k, |v|);
      }
  }

  /** A run of allowed characters ended by the end or by another
      character has exactly that length. */
  lemma {:induction false} RunIs(s: string, pos: nat, n: nat, slash: bool)
    requires pos + n <= |s|
    requires forall i :: pos <= i < pos + n ==> Allowed(s[i], slash)
    requires pos + n == |s| || !Allowed(s[pos + n], slash)
    ensures Run(s, pos, slash) == n
    decreases n
  {
    if n > 0 {
      RunIs(s, pos + 1, n - 1, slash);
    }
  }

  /** A literal that matches the first character passes the rest of the
      path to the rest of the template. */
  lemma LitStep(c: char, rest: seq<Tok>, s: string, b: Bindings)
    requires s != [] && s[0] == c && Search(rest, s[1..]) == Some(b)
    ensures Search([Lit(c)] + rest, s) == Some(b)
  {
    assert ([Lit(c)] + rest)[0] == Lit(c) && ([Lit(c)] + rest)[1..] == rest;
  }

  /** A variable keeps its whole run of allowed characters when the rest of
      the template matches after it. */
  lemma VarStep(n: string, rest: seq<Tok>, s: string, k: nat, b: Bindings)
    requires 1 + k <= |s| && s[0] == '/' && Run(s, 1, false) == k && k > 0
    requires Search(rest, s[1 + k..]) == Some(b)
    ensures Search([Var(n)] + rest, s) == Some([(n, Some(s[1 .. 1 + k]))] + b)
  {
    assert ([Var(n)] + rest)[0] == Var(n) && ([Var(n)] + rest)[1..] == rest;
  }

  /** The wildcard gives back characters until the rest of the template
      matches: it keeps the longest value `s[..j]` after which it does. */
  lemma WildStep(rest: seq<Tok>, s: string, k: nat, j: nat, b: Bindings)
    requires j <= k <= |s| && Run(s, 0, true) == k
    requires forall i :: j < i <= k ==> Search(rest, s[i..]).None?
    requires Search(rest, s[j..]) == Some(b)
    ensures Search([Wild] + rest, s) == Some([("wildcard", if j == 0 then None else Some(s[..j]))] + b)
  {
    assert ([Wild] + rest)[0] == Wild && ([Wild] + rest)[1..] == rest;
    TryWildDown(rest, s, k, j);
  }

  /** Tries that fail are skipped. */
  lemma {:induction false} TryWildDown(rest: seq<Tok>, s: string, k: nat, j: nat)
    requires j <= k <= |s|
    requires forall i :: j < i <= k ==> Search(rest, s[i..]).None?
    ensures TryWild(rest, s, k) == TryWild(rest, s, j)
    decreases k
  {
    if j < k {
      TryWildDown(rest, s, k - 1, j);
    }
  }

  /** A variable gives back characters until the rest of the template
      matches: it keeps the longest value `s[1..1+j]` after which it does. */
  lemma VarBackStep(n: string, rest: seq<Tok>, s: string, k: nat, j: nat, b: Bindings)
    requires 0 < j <= k && 1 + k <= |s| && s[0] == '/' && Run(s, 1, false) == k
    requires forall i :: 1 + j < i <= 1 + k ==> Search(rest, s[i..]).None?
    requires Search(rest, s[1 + j..]) == Some(b)
    ensures Search([Var(n)] + rest, s) == Some([(n, Some(s[1 .. 1 + j]))] + b)
  {
    assert ([Var(n)] + rest)[0] == Var(n) && ([Var(n)] + rest)[1..] == rest;
    TryVarDown(n, rest, s, k, j);
  }

  /** Variable tries that fail are skipped. */
  lemma {:induction false} TryVarDown(n: string, rest: seq<Tok>, s: string, k: nat, j: nat)
    requires j <= k && 1 + k <= |s|
    requires forall i :: 1 + j < i <= 1 + k ==> Search(rest, s[i..]).None?
    ensures TryVar(n, rest, s, k) == TryVar(n, rest, s, j)
    decreases k
  {
    if j < k {
      TryVarDown(n, rest, s, k - 1, j);
    }
  }

  /**
   * Matching does not give back the values a path was made from.  Putting
   * `x` for `a` and `y-z` for the wildcard into `/:a-*` gives `/x-y-z`,
   * which is a cut of that path; the search of that path binds `a` to `x-y`
   * and the wildcard to `z`, since the variable is tried longest first.
   */
  lemma GreedyNotInverse()
    ensures Spells([Var("a"), Lit('-'), Wild], [("a", Some("x")), ("wildcard", Some("y-z"))], "/x-y-z")
    ensures Search([Var("a"), Lit('-'), Wild], "/x-y-z") == Some([("a", Some("x-y")), ("wildcard", Some("z"))])
  {
    DashCut("/x-y-z");
    DashSearch("/x-y-z");
  }

  lemma DashCut(s: string)
    requires s == "/x-y-z"
    ensures Spells([Var("a"), Lit('-'), Wild], [("a", Some("x")), ("wildcard", Some("y-z"))], s)
  {
    var toks := [Var("a"), Lit('-'), Wild];
    var b: Bindings := [("a", Some("x")), ("wildcard", Some("y-z"))];
    assert toks[1..] == [Lit('-'), Wild] && toks[1..][1..] == [Wild] && [Wild][1..] == [];
    assert b[1..] == [("wildcard", Some("y-z"))] && b[1..][1..] == [];
    assert s[1..2] == "x" && s[2..] == "-y-z" && s[2..][1..] == "y-z";
    assert "y-z"[3..] == [];
    assert Spells([], [], "y-z"[3..]);
    assert Spells([Wild], b[1..], "y-z");
    assert Spells([Lit('-'), Wild], b[1..], s[2..]);
  }

  lemma DashSearch(s: string)
    requires s == "/x-y-z"
    ensures Search([Var("a"), Lit('-'), Wild], s) == Some([("a", Some("x-y")), ("wildcard", Some("z"))])
  {
    var rest := [Lit('-'), Wild];
    var z := s[5..];
    assert z == "z";
    RunIs(z, 0, 1, true);
    assert Search([], z[1..]) == Some([]);
    WildStep([], z, 1, 1, []);
    assert [Wild] + [] == [Wild] && z[..1] == "z";
    var b: Bindings := [("wildcard", Some("z"))];
    assert b + [] == b;
    LitStep('-', [Wild], s[4..], b);
    assert [Lit('-')] + [Wild] == rest;
    assert s[4..][1..] == z;
    assert s[5..] == z && s[6..] == [];
    assert Search(rest, s[5..]).None? && Search(rest, s[6..]).None?;
    RunIs(s, 1, 5, false);
    VarBackStep("a", rest, s, 5, 3, b);
    assert [Var("a")] + rest == [Var("a"), Lit('-'), Wild];
    assert s[1..4] == "x-y";
    assert [("a", Some(s[1..4]))] + b == [("a", Some("x-y")), ("wildcard", Some("z"))];
  }
}
