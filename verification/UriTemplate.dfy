/** RFC 6570 Level 1 URI templates (uritemplate.go): parsing, expansion, and the
    greedy anchored matcher that reverses it. */
module UriTemplate {
  import opened Prelude
  import opened PercentEncoding

  datatype Token = Lit(text: string) | Var(name: string)

  datatype TemplateError =
    UnclosedBrace | BadVariable(name: string) | DuplicateVariable(name: string) | AdjacentVariables | NotCompiled

  /** A parsed template; `tokens` stands for the compiled expression. */
  datatype Template = Template(raw: string, tokens: seq<Token>, varNames: seq<string>, literalCount: nat,
                               prefixLen: nat)

  // ---- The grammar ----

  predicate NameStart(c: char) {
    'A' <= c <= 'Z' || 'a' <= c <= 'z' || c == '_'
  }

  predicate IsVarName(name: string) {
    name != "" && NameStart(name[0]) && forall c :: c in name ==> NameStart(c) || '0' <= c <= '9'
  }

  function RenderToken(t: Token): string {
    match t
    case Lit(text) => text
    case Var(name) => "{" + name + "}"
  }

  function Render(ts: seq<Token>): string {
    if ts == [] then "" else RenderToken(ts[0]) + Render(ts[1..])
  }

  function Names(ts: seq<Token>): seq<string> {
    if ts == [] then []
    else (if ts[0].Var? then [ts[0].name] else []) + Names(ts[1..])
  }

  function LiteralCount(ts: seq<Token>): nat {
    if ts == [] then 0 else (if ts[0].Lit? then |ts[0].text| else 0) + LiteralCount(ts[1..])
  }

  /** A literal is never empty, holds no brace that opens a variable, and takes all
      the text up to the next variable; variables are bare names, never adjacent. */
  predicate Separated(ts: seq<Token>) {
    && (forall i :: 0 <= i < |ts| ==>
          if ts[i].Lit? then ts[i].text != "" && '{' !in ts[i].text else IsVarName(ts[i].name))
    && (forall i :: 0 <= i < |ts| - 1 ==> ts[i].Lit? != ts[i + 1].Lit?)
  }

  predicate WellFormed(ts: seq<Token>) {
    Separated(ts) && forall i, j :: 0 <= i < j < |ts| && ts[i].Var? && ts[j].Var? ==> ts[i].name != ts[j].name
  }

  // ---- Parsing ----

  function Prepend(t: Token, r: Result<seq<Token>, TemplateError>): Result<seq<Token>, TemplateError> {
    match r
    case Ok(ts) => Ok([t] + ts)
    case Err(e) => Err(e)
  }

  /** The next token, given the names seen and whether a variable came last. */
  function Next(s: string, seen: set<string>, lastWasVar: bool): (r: Result<Token, TemplateError>)
    requires s != ""
    ensures r.Ok? ==> RenderToken(r.value) != "" && RenderToken(r.value) <= s
  {
    if s[0] == '{' then
      var rel := IndexOf(s, '}');
      if rel == |s| then Err(UnclosedBrace)
      else
        var name := s[1..rel];
        assert s[..rel + 1] == "{" + name + "}";
        if !IsVarName(name) then Err(BadVariable(name))
        else if name in seen then Err(DuplicateVariable(name))
        else if lastWasVar then Err(AdjacentVariables)
        else Ok(Var(name))
    else Ok(Lit(s[..IndexOf(s, '{')]))
  }

  function Seen(seen: set<string>, t: Token): set<string> {
    if t.Var? then seen + {t.name} else seen
  }

  /** The tokens of what is left of the text. */
  function Tokens(s: string, seen: set<string>, lastWasVar: bool): Result<seq<Token>, TemplateError>
    decreases |s|
  {
    if s == "" then Ok([])
    else
      match Next(s, seen, lastWasVar)
      case Err(e) => Err(e)
      case Ok(t) => Prepend(t, Tokens(s[|RenderToken(t)|..], Seen(seen, t), t.Var?))
  }

  /** `ts` followed by the tokens of `r`. */
  function Append(ts: seq<Token>, r: Result<seq<Token>, TemplateError>): Result<seq<Token>, TemplateError> {
    match r
    case Ok(rest) => Ok(ts + rest)
    case Err(e) => Err(e)
  }

  lemma AppendNothing(r: Result<seq<Token>, TemplateError>)
    ensures Append([], r) == r
  {
    if r.Ok? {
      assert [] + r.value == r.value;
    }
  }

  lemma AppendPrepend(ts: seq<Token>, t: Token, r: Result<seq<Token>, TemplateError>)
    ensures Append(ts, Prepend(t, r)) == Append(ts + [t], r)
  {
    if r.Ok? {
      assert ts + ([t] + r.value) == ts + [t] + r.value;
    }
  }

  /** The literal text before the first variable. */
  function PrefixLength(ts: seq<Token>): nat {
    if ts == [] || ts[0].Var? then 0 else |ts[0].text| + PrefixLength(ts[1..])
  }

  lemma {:induction false} SummaryAppend(ts: seq<Token>, t: Token)
    ensures Names(ts + [t]) == Names(ts) + (if t.Var? then [t.name] else [])
    ensures LiteralCount(ts + [t]) == LiteralCount(ts) + (if t.Lit? then |t.text| else 0)
    ensures PrefixLength(ts + [t]) == PrefixLength(ts) + (if t.Lit? && Names(ts) == [] then |t.text| else 0)
    decreases |ts|
  {
    if ts == [] {
      assert [] + [t] == [t];
    } else {
      assert (ts + [t])[1..] == ts[1..] + [t];
      SummaryAppend(ts[1..], t);
    }
  }

  /** What the resolver's specificity rule reads off a template. */
  predicate Summary(ts: seq<Token>, varNames: seq<string>, literalCount: nat, prefixLen: nat) {
    varNames == Names(ts) && literalCount == LiteralCount(ts) && prefixLen == PrefixLength(ts)
  }

  lemma SummaryStep(ts: seq<Token>, t: Token, names: seq<string>, literals: nat, prefix: nat)
    requires Summary(ts, names, literals, prefix)
    ensures t.Var? ==> Summary(ts + [t], names + [t.name], literals, prefix)
    ensures t.Lit? ==> Summary(ts + [t], names, literals + |t.text|, if names == [] then prefix + |t.text| else prefix)
  {
    SummaryAppend(ts, t);
  }

  // ---- Compilation ----

  predicate Between(c: char, lo: int, hi: int) {
    lo <= c as int <= hi
  }

  /** The length of the UTF-8 sequence the text starts with, 0 when it is not one
      (section 4 of RFC 3629). */
  function Utf8Width(s: string): (n: nat)
    requires s != ""
    ensures n <= |s|
  {
    if Between(s[0], 0, 0x7F) then 1
    else if |s| < 2 then 0
    else if Between(s[0], 0xC2, 0xDF) then (if Between(s[1], 0x80, 0xBF) then 2 else 0)
    else if |s| < 3 || !Between(s[2], 0x80, 0xBF) then 0
    else if Between(s[0], 0xE0, 0xEF) then
      var lo := if s[0] as int == 0xE0 then 0xA0 else 0x80;
      var hi := if s[0] as int == 0xED then 0x9F else 0xBF;
      if Between(s[1], lo, hi) then 3 else 0
    else if |s| < 4 || !Between(s[3], 0x80, 0xBF) || !Between(s[0], 0xF0, 0xF4) then 0
    else
      var lo := if s[0] as int == 0xF0 then 0x90 else 0x80;
      var hi := if s[0] as int == 0xF4 then 0x8F else 0xBF;
      if Between(s[1], lo, hi) then 4 else 0
  }

  predicate ValidUtf8(s: string) {
    s == "" || (Utf8Width(s) > 0 && ValidUtf8(s[Utf8Width(s)..]))
  }

  /** regexp.Compile takes the expression: its literals are UTF-8. */
  predicate Compiles(ts: seq<Token>) {
    forall i :: 0 <= i < |ts| && ts[i].Lit? ==> ValidUtf8(ts[i].text)
  }

  function Parse(s: string): Result<seq<Token>, TemplateError> {
    match Tokens(s, {}, false)
    case Err(e) => Err(e)
    case Ok(ts) => if Compiles(ts) then Ok(ts) else Err(NotCompiled)
  }

  method ParseURITemplate(s: string) returns (result: Result<Template, TemplateError>)
    ensures result.Err? ==> Parse(s) == Err(result.error)
    ensures result.Ok? ==>
              && result.value.raw == s && Parse(s) == Ok(result.value.tokens)
              && Summary(result.value.tokens, result.value.varNames, result.value.literalCount, result.value.prefixLen)
  {
    var names: seq<string>, seen: set<string> := [], {};
    var literalCount: nat, prefixLen: nat := 0, 0;
    var sawVar, lastWasVar := false, false;
    var re: seq<Token> := [];
    var rest := s;
    ghost var whole := Tokens(s, {}, false);
    AppendNothing(whole);
    while rest != ""
      invariant ParsedTo(whole, rest, re, seen, lastWasVar)
      invariant Summary(re, names, literalCount, prefixLen) && (sawVar <==> names != [])
      decreases |rest|
    {
      if rest[0] == '{' {
        ParseVar(whole, rest, re, seen, lastWasVar);
        var rel := IndexOf(rest, '}');
        if rel == |rest| {
          return Err(UnclosedBrace);
        }
        var name := rest[1..rel];
        if !IsVarName(name) {
          return Err(BadVariable(name));
        }
        if name in seen {
          return Err(DuplicateVariable(name));
        }
        if lastWasVar {
          return Err(AdjacentVariables);
        }
        SummaryStep(re, Var(name), names, literalCount, prefixLen);
        seen := seen + {name};
        names := names + [name];
        re := re + [Var(name)];
        sawVar := true;
        lastWasVar := true;
        rest := rest[rel + 1..];
      } else {
        ParseLit(whole, rest, re, seen, lastWasVar);
        var rel := IndexOf(rest, '{');
        var lit := rest[..rel];
        SummaryStep(re, Lit(lit), names, literalCount, prefixLen);
        literalCount := literalCount + |lit|;
        if !sawVar {
          prefixLen := prefixLen + |lit|;
        }
        re := re + [Lit(lit)];
        lastWasVar := false;
        rest := rest[rel..];
      }
    }
    AppendEnd(re);
    if !Compiles(re) {
      return Err(NotCompiled);
    }
    return Ok(Template(s, re, names, literalCount, prefixLen));
  }

  /** The parse of the whole is `re` followed by the parse of `rest`. */
  ghost predicate ParsedTo(whole: Result<seq<Token>, TemplateError>, rest: string, re: seq<Token>, seen: set<string>,
                           lastWasVar: bool)
  {
    whole == Append(re, Tokens(rest, seen, lastWasVar))
  }

  lemma ParseVar(whole: Result<seq<Token>, TemplateError>, rest: string, re: seq<Token>, seen: set<string>,
                 lastWasVar: bool)
    requires rest != "" && rest[0] == '{' && ParsedTo(whole, rest, re, seen, lastWasVar)
    ensures var rel := IndexOf(rest, '}');
            if rel == |rest| then whole == Err(UnclosedBrace)
            else
              var name := rest[1..rel];
              if !IsVarName(name) then whole == Err(BadVariable(name))
              else if name in seen then whole == Err(DuplicateVariable(name))
              else if lastWasVar then whole == Err(AdjacentVariables)
              else ParsedTo(whole, rest[rel + 1..], re + [Var(name)], seen + {name}, true)
  {
    var rel := IndexOf(rest, '}');
    if rel < |rest| {
      var name := rest[1..rel];
      AppendPrepend(re, Var(name), Tokens(rest[rel + 1..], seen + {name}, true));
      assert |RenderToken(Var(name))| == rel + 1;
    }
  }

  lemma ParseLit(whole: Result<seq<Token>, TemplateError>, rest: string, re: seq<Token>, seen: set<string>,
                 lastWasVar: bool)
    requires rest != "" && rest[0] != '{' && ParsedTo(whole, rest, re, seen, lastWasVar)
    ensures var rel := IndexOf(rest, '{');
            rel > 0 && ParsedTo(whole, rest[rel..], re + [Lit(rest[..rel])], seen, false)
  {
    var rel := IndexOf(rest, '{');
    AppendPrepend(re, Lit(rest[..rel]), Tokens(rest[rel..], seen, false));
  }

  lemma AppendEnd(re: seq<Token>)
    ensures Append(re, Ok([])) == Ok(re)
  {
    assert re + [] == re;
  }

  /** The tail of a well-formed token list, in the parser's context. */
  predicate Continues(ts: seq<Token>, seen: set<string>, lastWasVar: bool) {
    && WellFormed(ts)
    && (forall i :: 0 <= i < |ts| && ts[i].Var? ==> ts[i].name !in seen)
    && (lastWasVar && ts != [] ==> ts[0].Lit?)
  }

  lemma ContinuesVar(name: string, ts: seq<Token>, seen: set<string>)
    requires IsVarName(name) && name !in seen && Continues(ts, seen + {name}, true)
    ensures Continues([Var(name)] + ts, seen, false)
  {
  }

  lemma ContinuesLit(text: string, ts: seq<Token>, seen: set<string>, lastWasVar: bool)
    requires text != "" && '{' !in text && Continues(ts, seen, false) && (ts != [] ==> ts[0].Var?)
    ensures Continues([Lit(text)] + ts, seen, lastWasVar)
  {
  }

  lemma ContinuesTail(ts: seq<Token>, seen: set<string>, lastWasVar: bool)
    requires Continues(ts, seen, lastWasVar) && ts != []
    ensures ts[0].Lit? ==> Continues(ts[1..], seen, false) && ts[0].text != "" && '{' !in ts[0].text
    ensures ts[0].Lit? && ts[1..] != [] ==> ts[1..][0].Var?
    ensures ts[0].Var? ==> Continues(ts[1..], seen + {ts[0].name}, true) && IsVarName(ts[0].name)
    ensures ts[0].Var? ==> ts[0].name !in seen && !lastWasVar
  {
  }

  lemma RenderCons(t: Token, ts: seq<Token>)
    ensures Render([t] + ts) == RenderToken(t) + Render(ts)
  {
  }

  lemma {:induction false} TokensRender(s: string, seen: set<string>, lastWasVar: bool)
    requires Tokens(s, seen, lastWasVar).Ok?
    ensures Render(Tokens(s, seen, lastWasVar).value) == s
    decreases |s|
  {
    if s != "" {
      var t := Next(s, seen, lastWasVar).value;
      var rest := s[|RenderToken(t)|..];
      TokensRender(rest, Seen(seen, t), t.Var?);
      RenderCons(t, Tokens(rest, Seen(seen, t), t.Var?).value);
      assert s == RenderToken(t) + rest;
    }
  }

  lemma {:induction false} TokensContinue(s: string, seen: set<string>, lastWasVar: bool)
    requires Tokens(s, seen, lastWasVar).Ok?
    ensures Continues(Tokens(s, seen, lastWasVar).value, seen, lastWasVar)
    ensures s != "" ==>
              var ts := Tokens(s, seen, lastWasVar).value;
              ts != [] && (ts[0].Var? <==> s[0] == '{')
    decreases |s|
  {
    if s != "" {
      var t := Next(s, seen, lastWasVar).value;
      var rest := s[|RenderToken(t)|..];
      TokensContinue(rest, Seen(seen, t), t.Var?);
      var ts := Tokens(rest, Seen(seen, t), t.Var?).value;
      if t.Var? {
        ContinuesVar(t.name, ts, seen);
      } else {
        ContinuesLit(t.text, ts, seen, lastWasVar);
      }
    }
  }

  lemma TokensSound(s: string, seen: set<string>, lastWasVar: bool)
    requires Tokens(s, seen, lastWasVar).Ok?
    ensures Render(Tokens(s, seen, lastWasVar).value) == s
    ensures Continues(Tokens(s, seen, lastWasVar).value, seen, lastWasVar)
  {
    TokensRender(s, seen, lastWasVar);
    TokensContinue(s, seen, lastWasVar);
  }

  lemma IndexOfUnique(s: string, c: char, k: nat)
    requires k <= |s| && (forall i :: 0 <= i < k ==> s[i] != c) && (k < |s| ==> s[k] == c)
    ensures IndexOf(s, c) == k
  {
  }

  lemma {:induction false} TokensComplete(ts: seq<Token>, seen: set<string>, lastWasVar: bool)
    requires Continues(ts, seen, lastWasVar)
    ensures Tokens(Render(ts), seen, lastWasVar) == Ok(ts)
    decreases |ts|
  {
    if ts != [] {
      var t, rest := ts[0], ts[1..];
      NextOf(ts, seen, lastWasVar);
      TokensStep(Render(ts), t, Render(rest), seen, lastWasVar);
      assert Continues(rest, Seen(seen, t), t.Var?) by {
        ContinuesTail(ts, seen, lastWasVar);
      }
      TokensComplete(rest, Seen(seen, t), t.Var?);
      assert [t] + rest == ts;
    }
  }

  lemma TokensStep(s: string, t: Token, rest: string, seen: set<string>, lastWasVar: bool)
    requires s != "" && Next(s, seen, lastWasVar) == Ok(t) && s == RenderToken(t) + rest
    ensures Tokens(s, seen, lastWasVar) == Prepend(t, Tokens(rest, Seen(seen, t), t.Var?))
  {
  }

  lemma NextOf(ts: seq<Token>, seen: set<string>, lastWasVar: bool)
    requires Continues(ts, seen, lastWasVar) && ts != []
    ensures Render(ts) != "" && Next(Render(ts), seen, lastWasVar) == Ok(ts[0])
  {
    ContinuesTail(ts, seen, lastWasVar);
    match ts[0]
    case Var(name) => VarEnds(name, Render(ts[1..]));
    case Lit(text) =>
      LitEnds(ts);
      assert Render(ts)[0] == text[0] && text[0] in text;
      assert Render(ts)[..|text|] == text;
  }

  lemma VarEnds(name: string, rest: string)
    requires IsVarName(name)
    ensures var s := "{" + name + "}" + rest;
            && s[0] == '{' && IndexOf(s, '}') == |name| + 1 < |s|
            && s[1..|name| + 1] == name && s[|name| + 2..] == rest
  {
    var s := "{" + name + "}" + rest;
    forall i | 0 < i < |name| + 1 ensures s[i] != '}' {
      assert s[i] == name[i - 1] && name[i - 1] in name;
    }
    IndexOfUnique(s, '}', |name| + 1);
    assert s[1..|name| + 1] == name;
    assert s[|name| + 2..] == rest;
  }

  lemma LitEnds(ts: seq<Token>)
    requires WellFormed(ts) && ts != [] && ts[0].Lit?
    ensures IndexOf(Render(ts), '{') == |ts[0].text|
  {
    var text, rest := ts[0].text, Render(ts[1..]);
    if |ts| > 1 {
      assert ts[1].Var?;
      StartsWithBrace(ts[1..]);
    }
    assert Render(ts) == text + rest;
    IndexOfUnique(text + rest, '{', |text|);
  }

  lemma StartsWithBrace(ts: seq<Token>)
    requires ts != [] && ts[0].Var?
    ensures Render(ts) != "" && Render(ts)[0] == '{'
  {
  }

  /** A string is accepted exactly when it is the rendering of a well-formed token
      list whose literals are UTF-8, and then the parse is that list. */
  lemma ParseExactly(s: string, ts: seq<Token>)
    ensures Parse(s) == Ok(ts) <==> WellFormed(ts) && Compiles(ts) && Render(ts) == s
  {
    if Tokens(s, {}, false) == Ok(ts) {
      TokensSound(s, {}, false);
    }
    if WellFormed(ts) && Render(ts) == s {
      TokensComplete(ts, {}, false);
    }
  }

  // ---- Expansion ----

  function PrependText(text: string, r: Result<string, string>): Result<string, string> {
    if r.Ok? then Ok(text + r.value) else r
  }

  /** The minted URI, or the first variable without a binding. */
  function Expansion(ts: seq<Token>, bindings: map<string, string>): Result<string, string> {
    if ts == [] then Ok("")
    else
      match ts[0]
      case Lit(text) => PrependText(text, Expansion(ts[1..], bindings))
      case Var(name) =>
        if name !in bindings then Err(name)
        else PrependText(PathEscape(bindings[name]), Expansion(ts[1..], bindings))
  }

  predicate Usable(t: Template) {
    Parse(t.raw) == Ok(t.tokens) && t.varNames == Names(t.tokens)
  }

  method Expand(t: Template, bindings: map<string, string>) returns (result: Result<string, string>)
    requires Usable(t)
    ensures result == Expansion(t.tokens, bindings)
  {
    var out := "";
    var tail := t.raw;
    ghost var rest := t.tokens;
    ScanStarts(t, bindings);
    while tail != ""
      invariant Scanning(t.tokens, bindings, tail, out, rest)
      decreases |tail|
    {
      if tail[0] == '{' {
        ScanVar(t.tokens, bindings, tail, out, rest);
        var rel := IndexOf(tail, '}');
        var name := tail[1..rel];
        if name !in bindings {
          return Err(name);
        }
        out := out + PathEscape(bindings[name]);
        tail := tail[rel + 1..];
      } else {
        ScanLit(t.tokens, bindings, tail, out, rest);
        var rel := IndexOf(tail, '{');
        out := out + tail[..rel];
        tail := tail[rel..];
      }
      rest := rest[1..];
    }
    ScanEnds(t.tokens, bindings, tail, out, rest);
    result := Ok(out);
  }

  /** `out` is the expansion of everything before `rest`. */
  ghost predicate Emitted(ts: seq<Token>, bindings: map<string, string>, out: string, rest: seq<Token>) {
    Expansion(ts, bindings) == PrependText(out, Expansion(rest, bindings))
  }

  /** The scan of the raw template stands before the text of `rest`. */
  ghost predicate Scanning(ts: seq<Token>, bindings: map<string, string>, tail: string, out: string, rest: seq<Token>) {
    tail == Render(rest) && WellFormed(rest) && Emitted(ts, bindings, out, rest)
  }

  lemma ScanVar(ts: seq<Token>, bindings: map<string, string>, tail: string, out: string, rest: seq<Token>)
    requires Scanning(ts, bindings, tail, out, rest) && tail != "" && tail[0] == '{'
    ensures var rel := IndexOf(tail, '}');
            && rest != [] && 0 < rel < |tail|
            && var name := tail[1..rel];
            if name !in bindings then Expansion(ts, bindings) == Err(name)
            else Scanning(ts, bindings, tail[rel + 1..], out + PathEscape(bindings[name]), rest[1..])
  {
    NextVar(rest);
    EmitNext(ts, bindings, out, rest);
  }

  lemma ScanLit(ts: seq<Token>, bindings: map<string, string>, tail: string, out: string, rest: seq<Token>)
    requires Scanning(ts, bindings, tail, out, rest) && tail != "" && tail[0] != '{'
    ensures var rel := IndexOf(tail, '{');
            rest != [] && rel > 0 && Scanning(ts, bindings, tail[rel..], out + tail[..rel], rest[1..])
  {
    NextLit(rest);
    EmitNext(ts, bindings, out, rest);
  }

  lemma EmitNext(ts: seq<Token>, bindings: map<string, string>, out: string, rest: seq<Token>)
    requires rest != [] && Emitted(ts, bindings, out, rest)
    ensures rest[0].Lit? ==> Emitted(ts, bindings, out + rest[0].text, rest[1..])
    ensures rest[0].Var? ==>
              if rest[0].name in bindings then
                Emitted(ts, bindings, out + PathEscape(bindings[rest[0].name]), rest[1..])
              else Expansion(ts, bindings) == Err(rest[0].name)
  {
    var later := Expansion(rest[1..], bindings);
    match rest[0]
    case Lit(text) => PrependTwice(out, text, later);
    case Var(name) => if name in bindings { PrependTwice(out, PathEscape(bindings[name]), later); }
  }

  lemma PrependNothing(r: Result<string, string>)
    ensures PrependText("", r) == r
  {
    if r.Ok? {
      assert "" + r.value == r.value;
    }
  }

  lemma PrependTwice(a: string, b: string, r: Result<string, string>)
    ensures PrependText(a, PrependText(b, r)) == PrependText(a + b, r)
  {
    if r.Ok? {
      assert a + (b + r.value) == a + b + r.value;
    }
  }

  lemma ScanStarts(t: Template, bindings: map<string, string>)
    requires Usable(t)
    ensures Scanning(t.tokens, bindings, t.raw, "", t.tokens)
  {
    TokensSound(t.raw, {}, false);
    PrependNothing(Expansion(t.tokens, bindings));
  }

  lemma ScanEnds(ts: seq<Token>, bindings: map<string, string>, tail: string, out: string, rest: seq<Token>)
    requires Scanning(ts, bindings, tail, out, rest) && tail == ""
    ensures Expansion(ts, bindings) == Ok(out)
  {
    assert rest == [];
    assert out + "" == out;
  }

  /** The next scan step finds exactly the first token. */
  lemma NextVar(ts: seq<Token>)
    requires WellFormed(ts) && Render(ts) != "" && Render(ts)[0] == '{'
    ensures ts != [] && ts[0].Var? && WellFormed(ts[1..])
    ensures var u, rel := Render(ts), IndexOf(Render(ts), '}');
            0 < rel < |u| && u[1..rel] == ts[0].name && u[rel + 1..] == Render(ts[1..])
  {
    FirstChar(ts);
    VarEnds(ts[0].name, Render(ts[1..]));
  }

  lemma NextLit(ts: seq<Token>)
    requires WellFormed(ts) && Render(ts) != "" && Render(ts)[0] != '{'
    ensures ts != [] && ts[0].Lit? && WellFormed(ts[1..])
    ensures var u, rel := Render(ts), IndexOf(Render(ts), '{');
            rel > 0 && u[..rel] == ts[0].text && u[rel..] == Render(ts[1..])
  {
    FirstChar(ts);
    LitEnds(ts);
  }

  lemma FirstChar(ts: seq<Token>)
    requires WellFormed(ts) && Render(ts) != ""
    ensures ts != [] && (Render(ts)[0] == '{' <==> ts[0].Var?)
  {
    if ts[0].Lit? {
      assert Render(ts)[0] == ts[0].text[0] && ts[0].text[0] in ts[0].text;
    }
  }

  /** Expansion succeeds exactly when every variable is bound. */
  lemma {:induction false} ExpansionBound(ts: seq<Token>, bindings: map<string, string>)
    ensures Expansion(ts, bindings).Ok? <==> forall n :: n in Names(ts) ==> n in bindings
    ensures Expansion(ts, bindings).Err? ==>
              Expansion(ts, bindings).error in Names(ts) && Expansion(ts, bindings).error !in bindings
    decreases |ts|
  {
    if ts != [] {
      ExpansionBound(ts[1..], bindings);
    }
  }

  // ---- Matching ----

  /** The literals interleaved with the captured runs. */
  function Fill(ts: seq<Token>, runs: seq<string>): string
    requires |runs| == |Names(ts)|
  {
    if ts == [] then ""
    else if ts[0].Lit? then ts[0].text + Fill(ts[1..], runs)
    else runs[0] + Fill(ts[1..], runs[1..])
  }

  predicate IsRun(run: string) {
    run != "" && '/' !in run
  }

  /** `u` is the literals interleaved with non-empty '/'-free runs. */
  predicate IsSplit(ts: seq<Token>, u: string, runs: seq<string>) {
    |runs| == |Names(ts)| && (forall run :: run in runs ==> IsRun(run)) && Fill(ts, runs) == u
  }

  /** Go's anchored, leftmost-first search with one greedy group per variable. */
  function GreedyMatch(ts: seq<Token>, u: string): Option<seq<string>>
    decreases |ts|, 0
  {
    if ts == [] then if u == "" then Some([]) else None
    else
      match ts[0]
      case Lit(text) => if HasPrefix(u, text) then GreedyMatch(ts[1..], u[|text|..]) else None
      case Var(_) => TryRun(ts[1..], u, IndexOf(u, '/'))
  }

  /** A run of `k` bytes if the rest then matches, otherwise a shorter one. */
  function TryRun(ts: seq<Token>, u: string, k: nat): Option<seq<string>>
    requires k <= |u|
    decreases |ts|, k + 1
  {
    if k == 0 then None
    else
      match GreedyMatch(ts, u[k..])
      case Some(runs) => Some([u[..k]] + runs)
      case None => TryRun(ts, u, k - 1)
  }

  lemma {:induction false} GreedySplits(ts: seq<Token>, u: string)
    requires GreedyMatch(ts, u).Some?
    ensures IsSplit(ts, u, GreedyMatch(ts, u).value)
    decreases |ts|, 0
  {
    if ts != [] {
      match ts[0]
      case Lit(text) =>
        GreedySplits(ts[1..], u[|text|..]);
        assert u == text + u[|text|..];
      case Var(_) =>
        var k := RunSplits(ts[1..], u, IndexOf(u, '/'));
        assert u[..k] == u[..IndexOf(u, '/')][..k];
        assert u == u[..k] + u[k..];
        assert GreedyMatch(ts, u).value[1..] == GreedyMatch(ts[1..], u[k..]).value;
    }
  }

  lemma {:induction false} RunSplits(ts: seq<Token>, u: string, limit: nat) returns (k: nat)
    requires limit <= |u| && TryRun(ts, u, limit).Some?
    ensures 0 < k <= limit && GreedyMatch(ts, u[k..]).Some?
    ensures TryRun(ts, u, limit).value == [u[..k]] + GreedyMatch(ts, u[k..]).value
    ensures IsSplit(ts, u[k..], GreedyMatch(ts, u[k..]).value)
    decreases |ts|, limit + 1
  {
    if GreedyMatch(ts, u[limit..]).Some? {
      k := limit;
      GreedySplits(ts, u[k..]);
    } else {
      k := RunSplits(ts, u, limit - 1);
    }
  }

  /** Run by run, the first difference is a longer run in `a`. */
  predicate LongerFirst(a: seq<string>, b: seq<string>) {
    |a| == |b| && (a != [] ==> |a[0]| > |b[0]| || (a[0] == b[0] && LongerFirst(a[1..], b[1..])))
  }

  /** Every split there is is found, or beaten by one with an earlier longer run. */
  lemma {:induction false} GreedyBest(ts: seq<Token>, u: string, runs: seq<string>)
    requires IsSplit(ts, u, runs)
    ensures GreedyMatch(ts, u).Some? && LongerFirst(GreedyMatch(ts, u).value, runs)
    decreases |ts|, 0
  {
    if ts != [] {
      match ts[0]
      case Lit(text) =>
        assert u[|text|..] == Fill(ts[1..], runs);
        GreedyBest(ts[1..], u[|text|..], runs);
      case Var(_) =>
        var run := runs[0];
        assert IsRun(run) && u == run + Fill(ts[1..], runs[1..]);
        assert u[..|run|] == run && u[|run|..] == Fill(ts[1..], runs[1..]);
        SlashFreePrefix(u, |run|);
        RunBest(ts[1..], u, IndexOf(u, '/'), runs);
    }
  }

  lemma SlashFreePrefix(u: string, k: nat)
    requires k <= |u| && '/' !in u[..k]
    ensures k <= IndexOf(u, '/')
  {
  }

  lemma {:induction false} RunBest(ts: seq<Token>, u: string, limit: nat, runs: seq<string>)
    requires runs != [] && 0 < |runs[0]| <= limit <= |u| && u[..|runs[0]|] == runs[0]
    requires IsSplit(ts, u[|runs[0]|..], runs[1..])
    ensures TryRun(ts, u, limit).Some? && LongerFirst(TryRun(ts, u, limit).value, runs)
    decreases |ts|, limit + 1
  {
    if limit == |runs[0]| {
      GreedyBest(ts, u[limit..], runs[1..]);
      var found := TryRun(ts, u, limit).value;
      assert found[1..] == GreedyMatch(ts, u[limit..]).value;
    } else if GreedyMatch(ts, u[limit..]).None? {
      RunBest(ts, u, limit - 1, runs);
    } else {
      GreedySplits(ts, u[limit..]);
    }
  }

  /** The matcher accepts exactly the strings that split, and captures the greedy split. */
  lemma MatchExactly(ts: seq<Token>, u: string)
    ensures GreedyMatch(ts, u).Some? <==> exists runs :: IsSplit(ts, u, runs)
    ensures forall runs :: GreedyMatch(ts, u) == Some(runs) <==>
              IsSplit(ts, u, runs) && forall other :: IsSplit(ts, u, other) ==> LongerFirst(runs, other)
  {
    if GreedyMatch(ts, u).Some? {
      GreedySplits(ts, u);
      var best := GreedyMatch(ts, u).value;
      assert IsSplit(ts, u, best);
      forall other | IsSplit(ts, u, other) ensures LongerFirst(best, other) {
        GreedyBest(ts, u, other);
      }
      forall runs | IsSplit(ts, u, runs) && forall other :: IsSplit(ts, u, other) ==> LongerFirst(runs, other)
        ensures runs == best
      {
        LongerBoth(runs, best);
      }
    }
    forall runs | IsSplit(ts, u, runs) ensures GreedyMatch(ts, u).Some? {
      GreedyBest(ts, u, runs);
    }
  }

  lemma {:induction false} LongerBoth(a: seq<string>, b: seq<string>)
    requires LongerFirst(a, b) && LongerFirst(b, a)
    ensures a == b
    decreases |a|
  {
    if a != [] {
      LongerBoth(a[1..], b[1..]);
      assert a == [a[0]] + a[1..] && b == [b[0]] + b[1..];
    }
  }

  // ---- Bindings ----

  function Position<T(==)>(s: seq<T>, x: T): (i: nat)
    requires x in s
    ensures i < |s| && s[i] == x
  {
    if s[0] == x then 0 else 1 + Position(s[1..], x)
  }

  /** The decoded captures; a capture that does not decode makes it no match. */
  ghost function Decoded(names: seq<string>, runs: seq<string>): Option<map<string, string>>
    requires |names| == |runs|
  {
    if forall i :: 0 <= i < |runs| ==> PathUnescape(runs[i]).Some? then
      Some(map n | n in names :: PathUnescape(runs[Position(names, n)]).value)
    else None
  }

  lemma {:induction false} DistinctNames(ts: seq<Token>)
    requires WellFormed(ts)
    ensures Distinct(Names(ts)) && forall n :: n in Names(ts) ==> exists i :: 0 <= i < |ts| && ts[i] == Var(n)
    decreases |ts|
  {
    if ts != [] {
      DistinctNames(ts[1..]);
      forall n | n in Names(ts) ensures exists i :: 0 <= i < |ts| && ts[i] == Var(n) {
        if ts[0] != Var(n) {
          var i :| 0 <= i < |ts[1..]| && ts[1..][i] == Var(n);
          assert ts[i + 1] == Var(n);
        }
      }
      if ts[0].Var? {
        assert forall i :: 0 <= i < |ts[1..]| ==> ts[1..][i] == ts[i + 1] && ts[1..][i] != ts[0];
      }
    }
  }

  ghost function MatchOf(ts: seq<Token>, u: string): Option<map<string, string>>
    requires WellFormed(ts)
  {
    DistinctNames(ts);
    if GreedyMatch(ts, u).Some? then
      GreedySplits(ts, u);
      Decoded(Names(ts), GreedyMatch(ts, u).value)
    else None
  }

  method Match(t: Template, uri: string) returns (result: Option<map<string, string>>)
    requires Usable(t)
    ensures WellFormed(t.tokens) && result == MatchOf(t.tokens, uri)
  {
    TokensSound(t.raw, {}, false);
    DistinctNames(t.tokens);
    var m := GreedyMatch(t.tokens, uri);
    if m.None? {
      return None;
    }
    GreedySplits(t.tokens, uri);
    var names, runs := t.varNames, m.value;
    var bindings: map<string, string> := map[];
    for i := 0 to |names|
      invariant BoundSoFar(names, runs, i, bindings)
    {
      var value := PathUnescape(runs[i]);
      if value.None? {
        return None;
      }
      BindNext(names, runs, i, bindings);
      bindings := bindings[names[i] := value.value];
    }
    AllBound(names, runs, bindings);
    return Some(bindings);
  }

  ghost predicate BoundSoFar(names: seq<string>, runs: seq<string>, k: nat, bindings: map<string, string>)
    requires k <= |names| == |runs|
  {
    && (forall j :: 0 <= j < k ==> names[j] in bindings && PathUnescape(runs[j]) == Some(bindings[names[j]]))
    && forall n :: n in bindings ==> n in names[..k]
  }

  lemma BindNext(names: seq<string>, runs: seq<string>, k: nat, bindings: map<string, string>)
    requires k < |names| == |runs| && Distinct(names) && BoundSoFar(names, runs, k, bindings)
             && PathUnescape(runs[k]).Some?
    ensures BoundSoFar(names, runs, k + 1, bindings[names[k] := PathUnescape(runs[k]).value])
  {
  }

  lemma AllBound(names: seq<string>, runs: seq<string>, bindings: map<string, string>)
    requires |names| == |runs| && BoundSoFar(names, runs, |names|, bindings)
    ensures Decoded(names, runs) == Some(bindings)
  {
    assert names[..|names|] == names;
    forall n | n in names ensures n in bindings && PathUnescape(runs[Position(names, n)]) == Some(bindings[n]) {
      assert names[Position(names, n)] == n;
    }
    assert Decoded(names, runs).Some?;
    assert Decoded(names, runs).value.Keys == bindings.Keys;
    assert Decoded(names, runs).value == bindings;
  }
}
