/**
 * The path-template compiler of the gateway's router (`build_match_regex`).
 *
 * A template such as `/user/:id` is scanned left to right.  At every
 * position the scanner first tries the token expression of the router
 * (a maximal run of `*`, or `/:` followed by a maximal run of name
 * characters); when neither applies, the character is a literal.  Instead of
 * the regular-expression text the source assembles, the model produces the
 * sequence of tokens that text is made of; the language the regular
 * expression accepts is defined over tokens in module PathMatch.
 */
module PathTemplate {

  /** One piece of a compiled template: a literal character, a named
      variable (`/:name`, the `/` belongs to the token) or the wildcard. */
  datatype Tok = Lit(c: char) | Var(name: string) | Wild

  /** Why a template is rejected.  The scan raises a ValueError for each of
      the first six; `BadGroupName` is the `re.error` the regular-expression
      compiler raises once the scan is done, for a variable name that is
      not a Python identifier. */
  datatype PathError =
    | MissingLeadingSlash
    | UnexpectedChar(c: char)
    | WildcardAfterVariable
    | WildcardTwice
    | ReservedName(name: string)
    | DuplicateName(name: string)
    | BadGroupName(name: string)

  datatype Result<T> = Ok(value: T) | Err(error: PathError)

  datatype Option<T> = None | Some(value: T)

  /** The characters of a variable name: `[a-zA-Z0-9_]`. */
  predicate IsNameChar(c: char)
  {
    'a' <= c <= 'z' || 'A' <= c <= 'Z' || '0' <= c <= '9' || c == '_'
  }

  predicate IsDigit(c: char)
  {
    '0' <= c <= '9'
  }

  /** A name the regular-expression compiler accepts for a named group: a
      Python identifier, which for a run of name characters means one that
      does not start with a digit. */
  predicate IsGroupName(name: string)
  {
    name != [] && !IsDigit(name[0])
  }

  /** The first of `names` that is not a group name, if any: the one the
      regular-expression compiler complains about, since it reads the groups
      in order. */
  function FirstBadName(names: seq<string>): (r: Option<string>)
    ensures r.None? <==> forall i :: 0 <= i < |names| ==> IsGroupName(names[i])
    ensures r.Some? ==> r.value in names && !IsGroupName(r.value)
  {
    if names == [] then None
    else if !IsGroupName(names[0]) then Some(names[0])
    else FirstBadName(names[1..])
  }

  /** A character the scanner refuses outside a token: space, `:` or `*`. */
  predicate IsForbiddenLiteral(c: char)
  {
    c == ' ' || c == ':' || c == '*'
  }

  /** ASCII lower-casing, which is what `str.lower` does on name characters. */
  function LowerChar(c: char): char
  {
    if 'A' <= c <= 'Z' then (c as int - 'A' as int + 'a' as int) as char else c
  }

  /** `str.lower` on a name. */
  function Lower(s: string): (r: string)
    ensures |r| == |s|
  {
    if s == [] then [] else [LowerChar(s[0])] + Lower(s[1..])
  }

  /** The name `wildcard` is reserved in every letter case, spelled out
      letter by letter. */
  predicate IsReserved(name: string)
  {
    && |name| == 8
    && LowerChar(name[0]) == 'w' && LowerChar(name[1]) == 'i'
    && LowerChar(name[2]) == 'l' && LowerChar(name[3]) == 'd'
    && LowerChar(name[4]) == 'c' && LowerChar(name[5]) == 'a'
    && LowerChar(name[6]) == 'r' && LowerChar(name[7]) == 'd'
  }

  lemma {:induction false} LowerAt(s: string, i: nat)
    requires i < |s|
    ensures Lower(s)[i] == LowerChar(s[i])
  {
    if i > 0 {
      LowerAt(s[1..], i - 1);
    }
  }

  /** The reserved names are exactly those whose lower-cased form is
      `wildcard`, which is how the source tests them. */
  lemma ReservedIffLower(name: string)
    ensures IsReserved(name) <==> Lower(name) == "wildcard"
  {
    if |name| == 8 {
      forall i | 0 <= i < 8 ensures Lower(name)[i] == LowerChar(name[i]) {
        LowerAt(name, i);
      }
    }
  }

  /** Length of the maximal run of `*` that starts at `pos`. */
  function StarRun(path: string, pos: nat): (n: nat)
    requires pos <= |path|
    ensures pos + n <= |path|
    decreases |path| - pos
  {
    if pos < |path| && path[pos] == '*' then 1 + StarRun(path, pos + 1) else 0
  }

  /** The run found by StarRun is all `*` and cannot be extended. */
  lemma {:induction false} StarRunMaximal(path: string, pos: nat)
    requires pos <= |path|
    ensures var n := StarRun(path, pos);
            (forall i :: pos <= i < pos + n ==> path[i] == '*') &&
            (pos + n == |path| || path[pos + n] != '*')
    decreases |path| - pos
  {
    if pos < |path| && path[pos] == '*' {
      StarRunMaximal(path, pos + 1);
    }
  }

  /** Length of the maximal run of name characters that starts at `pos`. */
  function NameRun(path: string, pos: nat): (n: nat)
    requires pos <= |path|
    ensures pos + n <= |path|
    decreases |path| - pos
  {
    if pos < |path| && IsNameChar(path[pos]) then 1 + NameRun(path, pos + 1) else 0
  }

  /** The run found by NameRun is all name characters and cannot be extended. */
  lemma {:induction false} NameRunMaximal(path: string, pos: nat)
    requires pos <= |path|
    ensures var n := NameRun(path, pos);
            (forall i :: pos <= i < pos + n ==> IsNameChar(path[i])) &&
            (pos + n == |path| || !IsNameChar(path[pos + n]))
    decreases |path| - pos
  {
    if pos < |path| && IsNameChar(path[pos]) {
      NameRunMaximal(path, pos + 1);
    }
  }

  /** What the router's token expression matches at `pos`, if anything: the
      token and the position just after it.  The wildcard alternative is
      tried first. */
  function TokenAt(path: string, pos: nat): (m: Option<(Tok, nat)>)
    requires pos < |path|
    ensures m.Some? ==> pos < m.value.1 <= |path| && !m.value.0.Lit?
  {
    var stars := StarRun(path, pos);
    if stars > 0 then
      Some((Wild, pos + stars))
    else if path[pos] == '/' && pos + 1 < |path| && path[pos + 1] == ':' && NameRun(path, pos + 2) > 0 then
      var n := NameRun(path, pos + 2);
      Some((Var(path[pos + 2 .. pos + 2 + n]), pos + 2 + n))
    else
      None
  }

  /** The token found at `pos` spans a maximal run of `*`, or `/:` and a
      maximal run of name characters; when there is none, `pos` holds no `*`. */
  lemma TokenAtSpan(path: string, pos: nat)
    requires pos < |path|
    ensures var m := TokenAt(path, pos);
            && (m.Some? && m.value.0.Wild? ==>
                  (forall i :: pos <= i < m.value.1 ==> path[i] == '*') &&
                  (m.value.1 == |path| || path[m.value.1] != '*'))
            && (m.Some? && m.value.0.Var? ==>
                  path[pos] == '/' && pos + 1 < |path| && path[pos + 1] == ':' &&
                  pos + 2 < m.value.1 && m.value.0.name == path[pos + 2 .. m.value.1] &&
                  (forall i :: pos + 2 <= i < m.value.1 ==> IsNameChar(path[i])) &&
                  (m.value.1 == |path| || !IsNameChar(path[m.value.1])))
            && (m.None? ==> path[pos] != '*')
  {
    StarRunMaximal(path, pos);
    if pos + 2 <= |path| {
      NameRunMaximal(path, pos + 2);
    }
  }

  /** The variable names among `toks`, in order. */
  function VarNames(toks: seq<Tok>): seq<string>
  {
    if toks == [] then []
    else (if toks[0].Var? then [toks[0].name] else []) + VarNames(toks[1..])
  }

  /** The names a compiled template binds, in order: each variable's name,
      and `wildcard` for the wildcard. */
  function Captures(toks: seq<Tok>): seq<string>
  {
    if toks == [] then []
    else
      (match toks[0]
       case Lit(_) => []
       case Var(n) => [n]
       case Wild => ["wildcard"]) + Captures(toks[1..])
  }

  /** The loop of `build_match_regex` from position `pos`, with `parts` the
      tokens emitted so far: it ends when the template is used up. */
  function CompileFrom(path: string, pos: nat, parts: seq<Tok>): Result<seq<Tok>>
    requires pos <= |path|
    decreases |path| - pos, 1
  {
    if pos == |path| then Ok(parts) else ScanStep(path, pos, parts)
  }

  /** One turn of the loop at position `pos`, and the rest of the loop after
      it.  The set of used names and the wildcard flag of the source are
      functions of `parts` (`VarNames(parts)` and `Wild in parts`).  The
      check that rejects a wildcard looks at the last emitted part: any part
      that opens a named group (a variable or the wildcard) makes it fail. */
  function ScanStep(path: string, pos: nat, parts: seq<Tok>): Result<seq<Tok>>
    requires pos < |path|
    decreases |path| - pos, 0
  {
    match TokenAt(path, pos)
    case None =>
      var c := path[pos];
      if IsForbiddenLiteral(c) then Err(UnexpectedChar(c))
      else if pos == |path| - 1 && c == '/' then CompileFrom(path, pos + 1, parts)
      else CompileFrom(path, pos + 1, parts + [Lit(c)])
    case Some((t, next)) =>
      if t.Wild? then
        if parts != [] && !parts[|parts| - 1].Lit? then Err(WildcardAfterVariable)
        else if Wild in parts then Err(WildcardTwice)
        else CompileFrom(path, next, parts + [Wild])
      else if IsReserved(t.name) then Err(ReservedName(t.name))
      else if t.name in VarNames(parts) then Err(DuplicateName(t.name))
      else CompileFrom(path, next, parts + [t])
  }

  /** What the loop of `build_match_regex` ends with: the tokens of the
      template, or the ValueError it raises. */
  function Scan(path: string): Result<seq<Tok>>
  {
    if |path| == 0 || path[0] != '/' then Err(MissingLeadingSlash)
    else CompileFrom(path, 0, [])
  }

  /** The compiled form of a template, or why it is rejected: the scan, and
      then the regular-expression compiler, which refuses a group name that
      is not an identifier.  Every compiled template is well formed. */
  function Compile(path: string): (r: Result<seq<Tok>>)
    ensures |path| == 0 || path[0] != '/' ==> r == Err(MissingLeadingSlash)
    ensures r.Ok? ==> WellFormed(r.value)
  {
    match Scan(path)
    case Err(e) => Err(e)
    case Ok(toks) =>
      match FirstBadName(VarNames(toks))
      case Some(n) => Err(BadGroupName(n))
      case None =>
        CompileFromScanned(path, 0, [], toks);
        GroupNamesOf(toks);
        Ok(toks)
  }

  /** The template text of one token (one `*` for the wildcard). */
  function TokText(t: Tok): string
  {
    match t
    case Lit(c) => [c]
    case Var(n) => "/:" + n
    case Wild => "*"
  }

  /** The template text a token sequence is spelled with. */
  function Render(toks: seq<Tok>): string
  {
    if toks == [] then "" else TokText(toks[0]) + Render(toks[1..])
  }

  /** Whether token `t` may follow the tokens `parts` in a compiled template:
      the first token comes from the leading `/`; literals are never a space,
      `:` or `*`; a name is a non-empty run of name characters, not reserved
      and not bound before; there is one wildcard at most and it never
      follows a variable; and no name character follows a variable (its name
      would have taken it). */
  predicate CanFollow(parts: seq<Tok>, t: Tok)
  {
    && (parts == [] ==> t == Lit('/') || t.Var?)
    && (t.Lit? ==> !IsForbiddenLiteral(t.c))
    && (t.Var? ==> t.name != [] && !IsReserved(t.name) && t.name !in VarNames(parts) &&
                   forall k :: 0 <= k < |t.name| ==> IsNameChar(t.name[k]))
    && (t.Wild? ==> Wild !in parts && (parts != [] ==> parts[|parts| - 1].Lit?))
    && (parts != [] && parts[|parts| - 1].Var? ==> !(t.Lit? && IsNameChar(t.c)))
  }

  /** Every token of `toks` may follow `pre` and the tokens of `toks`
      before it. */
  predicate Follows(pre: seq<Tok>, toks: seq<Tok>)
    decreases |toks|
  {
    toks == [] || (CanFollow(pre, toks[0]) && Follows(pre + [toks[0]], toks[1..]))
  }

  /** The token sequences the scan can produce: each token may follow the
      ones before it. */
  predicate Scanned(toks: seq<Tok>)
  {
    Follows([], toks)
  }

  /** Every variable's name is a group name. */
  predicate GroupNames(toks: seq<Tok>)
  {
    forall i :: 0 <= i < |toks| && toks[i].Var? ==> IsGroupName(toks[i].name)
  }

  /** The token sequences the compiler can produce: the scan's, with group
      names only. */
  predicate WellFormed(toks: seq<Tok>)
  {
    Scanned(toks) && GroupNames(toks)
  }

  /**
   * `build_match_regex` as the source writes it: a loop over the template
   * that keeps the emitted parts, the set of used names and a wildcard flag.
   */
  method BuildMatchRegex(path: string) returns (r: Result<seq<Tok>>)
    ensures r == Compile(path)
    ensures |path| == 0 || path[0] != '/' ==> r == Err(MissingLeadingSlash)
    ensures r.Ok? ==> WellFormed(r.value)
  {
    if |path| == 0 || path[0] != '/' {
      return Err(MissingLeadingSlash);
    }
    var pos := 0;
    var end := |path|;
    var parts: seq<Tok> := [];
    var usedNames: set<string> := {};
    var wildcardUsed := false;
    while pos < end
      invariant pos <= end == |path|
      invariant forall n :: n in usedNames <==> n in VarNames(parts)
      invariant wildcardUsed <==> Wild in parts
      invariant CompileFrom(path, pos, parts) == Scan(path)
    {
      var m := TokenAt(path, pos);
      if m.None? {
        var c := path[pos];
        if c in " :*" {
          return Err(UnexpectedChar(c));
        }
        if !(pos == end - 1 && c == '/') {
          VarNamesAppend(parts, Lit(c));
          parts := parts + [Lit(c)];
        }
        pos := pos + 1;
        continue;
      }
      var (t, next) := m.value;
      if t.Wild? {
        if parts != [] && !parts[|parts| - 1].Lit? {
          return Err(WildcardAfterVariable);
        }
        if wildcardUsed {
          return Err(WildcardTwice);
        }
        VarNamesAppend(parts, Wild);
        parts := parts + [Wild];
        wildcardUsed := true;
      } else {
        ReservedIffLower(t.name);
        if Lower(t.name) == "wildcard" {
          return Err(ReservedName(t.name));
        }
        if t.name in usedNames {
          return Err(DuplicateName(t.name));
        }
        VarNamesAppend(parts, t);
        parts := parts + [t];
        usedNames := usedNames + {t.name};
      }
      pos := next;
    }
    // `re.compile` of the assembled expression
    var bad := FirstBadName(VarNames(parts));
    if bad.Some? {
      return Err(BadGroupName(bad.value));
    }
    r := Ok(parts);
  }

  /** Appending one token extends the list of variable names by its name. */
  lemma {:induction false} VarNamesAppend(toks: seq<Tok>, t: Tok)
    ensures VarNames(toks + [t]) == VarNames(toks) + (if t.Var? then [t.name] else [])
  {
    if toks != [] {
      assert (toks + [t])[1..] == toks[1..] + [t];
      VarNamesAppend(toks[1..], t);
    } else {
      assert [t][1..] == [];
    }
  }

  /** A name is among the variable names exactly when a variable token has it. */
  lemma {:induction false} VarNamesMember(toks: seq<Tok>, n: string)
    ensures n in VarNames(toks) <==> exists i :: 0 <= i < |toks| && toks[i] == Var(n)
  {
    if toks != [] {
      VarNamesMember(toks[1..], n);
      if n in VarNames(toks[1..]) {
        var i :| 0 <= i < |toks[1..]| && toks[1..][i] == Var(n);
        assert toks[i + 1] == Var(n);
      }
      if exists i :: 0 <= i < |toks| && toks[i] == Var(n) {
        var i :| 0 <= i < |toks| && toks[i] == Var(n);
        if i > 0 {
          assert toks[1..][i - 1] == Var(n);
        }
      }
    }
  }

  /** What the scan has established about the tokens emitted before `pos`. */
  predicate ScanState(path: string, pos: nat, parts: seq<Tok>)
    requires pos <= |path|
  {
    && |path| > 0 && path[0] == '/'
    && (parts == [] ==> pos == 0 || pos == |path|)
    && (pos == 0 ==> parts == [])
    && Scanned(parts)
    && (parts != [] && parts[|parts| - 1].Var? && pos < |path| ==> !IsNameChar(path[pos]))
  }

  /** Appending a token that may follow everything before it. */
  lemma {:induction false} AppendFollows(pre: seq<Tok>, toks: seq<Tok>, t: Tok)
    requires Follows(pre, toks) && CanFollow(pre + toks, t)
    ensures Follows(pre, toks + [t])
    decreases |toks|
  {
    if toks == [] {
      assert pre + toks == pre;
      assert toks + [t] == [t];
    } else {
      var u := toks + [t];
      assert pre + toks == (pre + [toks[0]]) + toks[1..];
      AppendFollows(pre + [toks[0]], toks[1..], t);
      assert u[0] == toks[0] && u[1..] == toks[1..] + [t];
      assert CanFollow(pre, u[0]) && Follows(pre + [u[0]], u[1..]);
    }
  }

  /** Appending a token that may follow keeps a token sequence scanned. */
  lemma AppendScanned(parts: seq<Tok>, t: Tok)
    requires Scanned(parts) && CanFollow(parts, t)
    ensures Scanned(parts + [t])
  {
    assert [] + parts == parts;
    AppendFollows([], parts, t);
  }

  /** Every token sequence the scan accepts may follow token by token. */
  lemma {:induction false} CompileFromScanned(path: string, pos: nat, parts: seq<Tok>, toks: seq<Tok>)
    requires pos <= |path|
    requires ScanState(path, pos, parts)
    requires CompileFrom(path, pos, parts) == Ok(toks)
    ensures Scanned(toks)
    decreases |path| - pos
  {
    if pos < |path| {
      match TokenAt(path, pos)
      case None =>
        TokenAtSpan(path, pos);
        var c := path[pos];
        if pos == |path| - 1 && c == '/' {
          CompileFromScanned(path, pos + 1, parts, toks);
        } else {
          AppendScanned(parts, Lit(c));
          CompileFromScanned(path, pos + 1, parts + [Lit(c)], toks);
        }
      case Some((t, next)) =>
        TokenAtSpan(path, pos);
        AppendScanned(parts, t);
        CompileFromScanned(path, next, parts + [t], toks);
    }
  }

  /** The compiler refuses no name exactly when every variable token has a
      group name. */
  lemma GroupNamesOf(toks: seq<Tok>)
    ensures FirstBadName(VarNames(toks)).None? <==> GroupNames(toks)
  {
    var names := VarNames(toks);
    if FirstBadName(names).None? {
      forall i | 0 <= i < |toks| && toks[i].Var?
        ensures IsGroupName(toks[i].name)
      {
        VarNamesMember(toks, toks[i].name);
        var k :| 0 <= k < |names| && names[k] == toks[i].name;
      }
    }
    if GroupNames(toks) {
      forall k | 0 <= k < |names|
        ensures IsGroupName(names[k])
      {
        VarNamesMember(toks, names[k]);
      }
    }
  }
}
