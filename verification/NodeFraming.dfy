/** The hyphence node framing: one printer (node.go) and two independently
    written parsers, buffered (parse.go) and streaming (stream.go). */
module NodeFraming {
  import opened Prelude

  const BOUNDARY := "---"

  /** One typed blob reference line. */
  datatype Ref = Ref(alias: string, digest: string, typeString: string, sig: string)

  /** A parsed node; `body` is None for Go's nil body. */
  datatype Node = Node(typeString: string, refs: seq<Ref>, body: Option<string>)

  datatype ParseError = NoOpeningBoundary | MalformedRef(line: string) | NoClosingBoundary | NoTypeLine

  // ---- The printed form ----

  function LockedType(r: Ref): string {
    if r.sig != "" then r.typeString + "@" + r.sig else r.typeString
  }

  function RefLine(r: Ref): string {
    "- " + (r.alias + " < @" + (r.digest + " !" + LockedType(r)))
  }

  function RefLines(refs: seq<Ref>): seq<string> {
    seq(|refs|, i requires 0 <= i < |refs| => RefLine(refs[i]))
  }

  /** Every line followed by a newline. */
  function Lines(lines: seq<string>): string {
    if lines == [] then "" else lines[0] + "\n" + Lines(lines[1..])
  }

  function EnsureNewline(body: string): string {
    if body == "" || body[|body| - 1] != '\n' then body + "\n" else body
  }

  function BodyPart(body: Option<string>): string {
    if body.Some? then "\n" + EnsureNewline(body.value) else ""
  }

  function Encoded(typeString: string, refs: seq<Ref>, body: Option<string>): string {
    Lines([BOUNDARY] + RefLines(refs) + ["! " + typeString, BOUNDARY]) + BodyPart(body)
  }

  lemma {:induction false} LinesAppend(lines: seq<string>, line: string)
    ensures Lines(lines + [line]) == Lines(lines) + line + "\n"
    decreases |lines|
  {
    if lines == [] {
      assert [line][1..] == [] && [] + [line] == [line];
    } else {
      assert (lines + [line])[1..] == lines[1..] + [line];
      LinesAppend(lines[1..], line);
    }
  }

  method EncodeNode(typeString: string, refs: seq<Ref>, body: Option<string>) returns (b: string)
    ensures b == Encoded(typeString, refs, body)
  {
    ghost var lines := [BOUNDARY];
    b := BOUNDARY + "\n";
    for i := 0 to |refs|
      invariant lines == [BOUNDARY] + RefLines(refs[..i]) && b == Lines(lines)
    {
      var line := BuildRefLine(refs[i]);
      LinesAppend(lines, line);
      lines := lines + [line];
      b := b + line + "\n";
      RefLinesNext(refs, i);
    }
    assert refs[..|refs|] == refs;
    LinesAppend(lines, "! " + typeString);
    LinesAppend(lines + ["! " + typeString], BOUNDARY);
    assert lines + ["! " + typeString] + [BOUNDARY] == [BOUNDARY] + RefLines(refs) + ["! " + typeString, BOUNDARY];
    b := b + ("! " + typeString) + "\n" + BOUNDARY + "\n";
    var tail := BuildBody(body);
    b := b + tail;
  }

  lemma RefLinesNext(refs: seq<Ref>, i: nat)
    requires i < |refs|
    ensures RefLines(refs[..i + 1]) == RefLines(refs[..i]) + [RefLine(refs[i])]
  {
  }

  method BuildBody(body: Option<string>) returns (tail: string)
    ensures tail == BodyPart(body)
  {
    tail := "";
    if body.Some? {
      tail := "\n" + body.value;
      if |body.value| == 0 || body.value[|body.value| - 1] != '\n' {
        tail := tail + "\n";
      }
    }
  }

  method BuildRefLine(r: Ref) returns (line: string)
    ensures line == RefLine(r)
  {
    var locked := r.typeString;
    if r.sig != "" {
      locked := locked + "@" + r.sig;
    }
    line := "- " + (r.alias + " < @" + (r.digest + " !" + locked));
  }

  // ---- Reference lines ----

  function ParseRefLine(line: string): Option<Ref>
    requires HasPrefix(line, "- ")
  {
    match Cut(line[2..], " < @")
    case None => None
    case Some((alias, after)) =>
      match Cut(after, " !")
      case None => None
      case Some((digest, typ)) =>
        match Cut(typ, "@")
        case None => Some(Ref(alias, digest, typ, ""))
        case Some((typeString, lock)) => Some(Ref(alias, digest, typeString, lock))
  }

  /** The fields a reference line can carry. */
  ghost predicate WellFormedRef(r: Ref) {
    && '\n' !in r.alias && '\n' !in r.digest && '\n' !in r.typeString && '\n' !in r.sig
    && !Contains(r.alias, " < @") && !Contains(r.digest, " !") && !Contains(r.typeString, "@")
  }

  ghost predicate WellFormed(typeString: string, refs: seq<Ref>) {
    typeString != "" && '\n' !in typeString && forall r :: r in refs ==> WellFormedRef(r)
  }

  lemma SeparatorsBorderFree()
    ensures BorderFree(" < @") && BorderFree(" !") && BorderFree("@")
  {
    var sep := " < @";
    assert sep[1..][0] != sep[0] && sep[2..][1] != sep[1] && sep[3..][0] != sep[0];
    var bang := " !";
    assert bang[1..][0] != bang[0];
  }

  lemma RefLineRoundTrip(r: Ref)
    requires WellFormedRef(r)
    ensures HasPrefix(RefLine(r), "- ") && ParseRefLine(RefLine(r)) == Some(r)
  {
    SeparatorsBorderFree();
    var typ := LockedType(r);
    var after := r.digest + " !" + typ;
    assert RefLine(r)[2..] == r.alias + " < @" + after;
    CutConcat(r.alias, " < @", after);
    CutConcat(r.digest, " !", typ);
    if r.sig != "" {
      CutConcat(r.typeString, "@", r.sig);
    } else {
      CutAbsent(typ, "@");
    }
  }

  lemma ParsedRefWellFormed(line: string)
    requires HasPrefix(line, "- ") && '\n' !in line && ParseRefLine(line).Some?
    ensures WellFormedRef(ParseRefLine(line).value)
  {
    CutPieces(line[2..], " < @");
    var after := Cut(line[2..], " < @").value.1;
    CutPieces(after, " !");
    var typ := Cut(after, " !").value.1;
    if Cut(typ, "@").Some? {
      CutPieces(typ, "@");
    } else {
      ContainsIffFind(typ, "@");
    }
  }

  // ---- Lines ----

  /** The index of the first newline, or the length. */
  function LineEnd(s: string): (n: nat)
    ensures n <= |s| && '\n' !in s[..n] && (n < |s| ==> s[n] == '\n')
  {
    IndexOf(s, '\n')
  }

  /** strings.Split(s, "\n"). */
  function Split(s: string): (lines: seq<string>)
    ensures lines != []
    ensures forall l :: l in lines ==> '\n' !in l
  {
    var n := LineEnd(s);
    if n == |s| then [s] else [s[..n]] + Split(s[n + 1..])
  }

  /** strings.Join(lines, "\n"). */
  function Join(lines: seq<string>): string {
    if lines == [] then ""
    else if |lines| == 1 then lines[0]
    else lines[0] + "\n" + Join(lines[1..])
  }

  lemma {:induction false} JoinSplit(s: string)
    ensures Join(Split(s)) == s
    decreases |s|
  {
    var n := LineEnd(s);
    if n < |s| {
      var line, rest := s[..n], s[n + 1..];
      JoinSplit(rest);
      JoinCons(line, Split(rest));
      assert Split(s) == [line] + Split(rest);
      assert s == line + "\n" + rest;
    }
  }

  lemma JoinCons(line: string, lines: seq<string>)
    requires lines != []
    ensures Join([line] + lines) == line + "\n" + Join(lines)
  {
    assert ([line] + lines)[1..] == lines;
  }

  lemma LineEndOf(line: string, rest: string)
    requires '\n' !in line
    ensures LineEnd(line + "\n" + rest) == |line|
    ensures (line + "\n" + rest)[..|line|] == line && (line + "\n" + rest)[|line| + 1..] == rest
  {
    var s := line + "\n" + rest;
    var n := LineEnd(s);
    assert forall i :: 0 <= i < |line| ==> s[i] == line[i] && line[i] in line;
    assert forall i :: 0 <= i < n ==> s[i] == s[..n][i] && s[..n][i] in s[..n];
    assert s[|line|] == '\n';
  }

  lemma SplitLine(line: string, rest: string)
    requires '\n' !in line
    ensures Split(line + "\n" + rest) == [line] + Split(rest)
  {
    LineEndOf(line, rest);
  }

  // ---- The buffered parser ----

  /** What the header loop accumulates, and the input after the closing boundary. */
  datatype Scan<T> = Scan(typeString: string, refs: seq<Ref>, rest: T)

  /** The effect of one header line that is not the boundary. */
  function HeaderLine(line: string, typeString: string, refs: seq<Ref>): Result<(string, seq<Ref>), ParseError> {
    if HasPrefix(line, "! ") then Ok((line[2..], refs))
    else if HasPrefix(line, "- ") then
      match ParseRefLine(line)
      case None => Err(MalformedRef(line))
      case Some(r) => Ok((typeString, refs + [r]))
    else Ok((typeString, refs))
  }

  function ScanLines(lines: seq<string>, typeString: string, refs: seq<Ref>): Result<Scan<seq<string>>, ParseError> {
    if lines == [] then Err(NoClosingBoundary)
    else if lines[0] == BOUNDARY then Ok(Scan(typeString, refs, lines[1..]))
    else
      match HeaderLine(lines[0], typeString, refs)
      case Err(e) => Err(e)
      case Ok((t, r)) => ScanLines(lines[1..], t, r)
  }

  function Parsed(raw: string): Result<Node, ParseError> {
    var lines := Split(raw);
    if lines[0] != BOUNDARY then Err(NoOpeningBoundary)
    else
      match ScanLines(lines[1..], "", [])
      case Err(e) => Err(e)
      case Ok(Scan(typeString, refs, after)) =>
        if typeString == "" then Err(NoTypeLine)
        else Ok(Node(typeString, refs, if |after| >= 2 && after[0] == "" then Some(Join(after[1..])) else None))
  }

  method ParseNode(raw: string) returns (result: Result<Node, ParseError>)
    ensures result == Parsed(raw)
  {
    var lines := Split(raw);
    if lines[0] != BOUNDARY {
      return Err(NoOpeningBoundary);
    }
    var typeString, refs := "", [];
    var i := 1;
    while i < |lines| && lines[i] != BOUNDARY
      invariant 1 <= i <= |lines|
      invariant ScanLines(lines[1..], "", []) == ScanLines(lines[i..], typeString, refs)
    {
      var line := lines[i];
      assert lines[i..][0] == line && lines[i..][1..] == lines[i + 1..];
      if HasPrefix(line, "! ") {
        typeString := line[2..];
      } else if HasPrefix(line, "- ") {
        var ref := ParseRefLine(line);
        if ref.None? {
          return Err(MalformedRef(line));
        }
        refs := refs + [ref.value];
      }
      i := i + 1;
    }
    if i >= |lines| {
      return Err(NoClosingBoundary);
    }
    assert lines[i..][0] == BOUNDARY && lines[i..][1..] == lines[i + 1..];
    if typeString == "" {
      return Err(NoTypeLine);
    }
    var after := lines[i + 1..];
    var body := None;
    if |after| >= 2 && after[0] == "" {
      body := Some(Join(after[1..]));
    }
    return Ok(Node(typeString, refs, body));
  }

  // ---- The streaming parser ----

  function AfterLine(s: string): string {
    if LineEnd(s) < |s| then s[LineEnd(s) + 1..] else ""
  }

  /** A buffered reader, as the bytes it still holds. */
  class Reader {
    var rest: string

    constructor (rest: string)
      ensures this.rest == rest
    {
      this.rest := rest;
    }

    /** One line without its newline; None is io.EOF. */
    method ReadFramedLine() returns (line: Option<string>)
      modifies this
      ensures line == if old(rest) == "" then None else Some(old(rest)[..LineEnd(old(rest))])
      ensures rest == AfterLine(old(rest))
    {
      if rest == "" {
        return None;
      }
      var n := LineEnd(rest);
      line := Some(rest[..n]);
      rest := AfterLine(rest);
    }
  }

  function ScanStream(s: string, typeString: string, refs: seq<Ref>): Result<Scan<string>, ParseError>
    decreases |s|
  {
    if s == "" then Err(NoClosingBoundary)
    else
      var line := s[..LineEnd(s)];
      if line == BOUNDARY then Ok(Scan(typeString, refs, AfterLine(s)))
      else
        match HeaderLine(line, typeString, refs)
        case Err(e) => Err(e)
        case Ok((t, r)) => ScanStream(AfterLine(s), t, r)
  }

  /** The header, and the bytes the returned body reader yields. */
  function StreamParsed(raw: string): Result<Scan<string>, ParseError> {
    if raw == "" || raw[..LineEnd(raw)] != BOUNDARY then Err(NoOpeningBoundary)
    else
      match ScanStream(AfterLine(raw), "", [])
      case Err(e) => Err(e)
      case Ok(Scan(typeString, refs, after)) =>
        if typeString == "" then Err(NoTypeLine)
        else Ok(Scan(typeString, refs, if after == "" || LineEnd(after) != 0 then "" else AfterLine(after)))
  }

  method ParseNodeHeader(br: Reader) returns (result: Result<Node, ParseError>, body: Reader)
    modifies br
    ensures result.Err? ==> StreamParsed(old(br.rest)) == Err(result.error)
    ensures result.Ok? ==>
              && result.value.body.None?
              && StreamParsed(old(br.rest)) == Ok(Scan(result.value.typeString, result.value.refs, body.rest))
  {
    body := br;
    var open := br.ReadFramedLine();
    if open != Some(BOUNDARY) {
      return Err(NoOpeningBoundary), body;
    }
    ghost var start := br.rest;
    var typeString, refs, closed := "", [], false;
    while !closed
      invariant !closed ==> ScanStream(start, "", []) == ScanStream(br.rest, typeString, refs)
      invariant closed ==> ScanStream(start, "", []) == Ok(Scan(typeString, refs, br.rest))
      decreases !closed, |br.rest|
    {
      var line := br.ReadFramedLine();
      if line.None? {
        return Err(NoClosingBoundary), body;
      }
      if line.value == BOUNDARY {
        closed := true;
      } else if HasPrefix(line.value, "! ") {
        typeString := line.value[2..];
      } else if HasPrefix(line.value, "- ") {
        var ref := ParseRefLine(line.value);
        if ref.None? {
          return Err(MalformedRef(line.value)), body;
        }
        refs := refs + [ref.value];
      }
    }
    if typeString == "" {
      return Err(NoTypeLine), body;
    }
    var blank := br.ReadFramedLine();
    if blank.None? || blank.value != "" {
      body := new Reader("");
    }
    return Ok(Node(typeString, refs, None)), body;
  }

  // ---- Agreement ----

  /** `lines` is what the buffered parser still has when the stream holds `s`:
      the split of `s`, where a stream at its end may leave one empty line. */
  ghost predicate SamePosition(s: string, lines: seq<string>) {
    if s == "" then lines == [] || lines == [""] else lines == Split(s)
  }

  lemma NextPosition(s: string)
    requires s != ""
    ensures Split(s)[0] == s[..LineEnd(s)] && SamePosition(AfterLine(s), Split(s)[1..])
  {
  }

  ghost predicate SameScan(a: Result<Scan<seq<string>>, ParseError>, b: Result<Scan<string>, ParseError>) {
    match a
    case Err(e) => b == Err(e)
    case Ok(x) =>
      && b.Ok? && b.value.typeString == x.typeString && b.value.refs == x.refs
      && SamePosition(b.value.rest, x.rest)
  }

  lemma {:induction false} ScansAgree(s: string, lines: seq<string>, typeString: string, refs: seq<Ref>)
    requires SamePosition(s, lines)
    ensures SameScan(ScanLines(lines, typeString, refs), ScanStream(s, typeString, refs))
    decreases |s|
  {
    if s == "" {
      if lines == [""] {
        assert ScanLines([""][1..], typeString, refs) == Err(NoClosingBoundary);
      }
    } else {
      NextPosition(s);
      var step := HeaderLine(lines[0], typeString, refs);
      if lines[0] != BOUNDARY && step.Ok? {
        ScansAgree(AfterLine(s), lines[1..], step.value.0, step.value.1);
      }
    }
  }

  ghost predicate SameNode(a: Result<Node, ParseError>, b: Result<Scan<string>, ParseError>) {
    match a
    case Err(e) => b == Err(e)
    case Ok(n) => b == Ok(Scan(n.typeString, n.refs, if n.body.Some? then n.body.value else ""))
  }

  /** On every byte string the two parsers fail alike, or return the same type,
      references and body bytes. */
  lemma ParsersAgree(raw: string)
    ensures SameNode(Parsed(raw), StreamParsed(raw))
  {
    if raw != "" {
      NextPosition(raw);
      ScansAgree(AfterLine(raw), Split(raw)[1..], "", []);
      var scan := ScanStream(AfterLine(raw), "", []);
      if Split(raw)[0] == BOUNDARY && scan.Ok? && scan.value.rest != "" {
        var after := scan.value.rest;
        NextPosition(after);
        JoinSplit(AfterLine(after));
        if LineEnd(after) == 0 {
          assert Split(after)[1..] == Split(AfterLine(after));
        }
      }
    }
  }

  // ---- Round trip ----

  lemma {:induction false} SplitLines(lines: seq<string>, tail: string)
    requires forall l :: l in lines ==> '\n' !in l
    ensures Split(Lines(lines) + tail) == lines + Split(tail)
    decreases |lines|
  {
    if lines == [] {
      assert Lines(lines) + tail == tail && lines + Split(tail) == Split(tail);
    } else {
      var rest := Lines(lines[1..]) + tail;
      calc {
        Split(Lines(lines) + tail);
        { LinesFirst(lines, tail); }
        Split(lines[0] + "\n" + rest);
        { SplitLine(lines[0], rest); }
        [lines[0]] + Split(rest);
        { SplitLines(lines[1..], tail); }
        [lines[0]] + (lines[1..] + Split(tail));
        { Rejoined(lines, Split(tail)); }
        lines + Split(tail);
      }
    }
  }

  lemma Rejoined<T>(a: seq<T>, b: seq<T>)
    requires a != []
    ensures [a[0]] + (a[1..] + b) == a + b
  {
  }

  lemma LinesFirst(lines: seq<string>, tail: string)
    requires lines != []
    ensures Lines(lines) + tail == lines[0] + "\n" + (Lines(lines[1..]) + tail)
  {
  }

  lemma HeaderRefLine(r: Ref, typeString: string, refs: seq<Ref>)
    requires WellFormedRef(r)
    ensures '\n' !in RefLine(r) && RefLine(r) != BOUNDARY
    ensures HeaderLine(RefLine(r), typeString, refs) == Ok((typeString, refs + [r]))
  {
    RefLineRoundTrip(r);
    RefLineChars(r);
    assert "! "[0] == '!' && BOUNDARY[1] == '-';
  }

  lemma RefLineChars(r: Ref)
    requires WellFormedRef(r)
    ensures '\n' !in RefLine(r) && |RefLine(r)| >= 2 && RefLine(r)[0] == '-' && RefLine(r)[1] == ' '
  {
  }

  lemma HeaderTypeLine(t: string, typeString: string, refs: seq<Ref>)
    requires '\n' !in t
    ensures '\n' !in "! " + t && "! " + t != BOUNDARY
    ensures HeaderLine("! " + t, typeString, refs) == Ok((t, refs))
  {
    var line := "! " + t;
    assert line[0] == '!' && BOUNDARY[0] == '-';
    assert line[2..] == t;
  }

  /** Scanning `line` appends `r` and nothing else. */
  ghost predicate CarriesRef(line: string, r: Ref) {
    line != BOUNDARY && forall t, refs :: HeaderLine(line, t, refs) == Ok((t, refs + [r]))
  }

  lemma RefLinesCarry(refs: seq<Ref>)
    requires forall r :: r in refs ==> WellFormedRef(r)
    ensures forall i :: 0 <= i < |refs| ==> '\n' !in RefLines(refs)[i] && CarriesRef(RefLines(refs)[i], refs[i])
  {
    forall i | 0 <= i < |refs| ensures '\n' !in RefLines(refs)[i] && CarriesRef(RefLines(refs)[i], refs[i]) {
      assert WellFormedRef(refs[i]);
      RefLineChars(refs[i]);
      forall t, before ensures HeaderLine(RefLine(refs[i]), t, before) == Ok((t, before + [refs[i]])) {
        HeaderRefLine(refs[i], t, before);
      }
      HeaderRefLine(refs[i], "", []);
    }
  }

  lemma {:induction false} ScanRefLines(lines: seq<string>, refs: seq<Ref>, rest: seq<string>, typeString: string,
                                        before: seq<Ref>)
    requires |lines| == |refs| && forall i :: 0 <= i < |refs| ==> CarriesRef(lines[i], refs[i])
    ensures ScanLines(lines + rest, typeString, before) == ScanLines(rest, typeString, before + refs)
    decreases |refs|
  {
    if refs == [] {
      assert lines + rest == rest && before + refs == before;
    } else {
      assert CarriesRef(lines[0], refs[0]);
      assert (lines + rest)[1..] == lines[1..] + rest;
      ScanRefLines(lines[1..], refs[1..], rest, typeString, before + [refs[0]]);
      assert before + [refs[0]] + refs[1..] == before + refs;
    }
  }

  lemma ScanClosing(typeString: string, refs: seq<Ref>, after: seq<string>)
    requires '\n' !in typeString
    ensures ScanLines(["! " + typeString, BOUNDARY] + after, "", refs) == Ok(Scan(typeString, refs, after))
  {
    HeaderTypeLine(typeString, "", refs);
    var lines := ["! " + typeString, BOUNDARY] + after;
    assert lines[1..] == [BOUNDARY] + after && lines[1..][1..] == after;
  }

  function Normal(body: Option<string>): Option<string> {
    if body.Some? then Some(EnsureNewline(body.value)) else None
  }

  lemma EncodedParses(typeString: string, refs: seq<Ref>, body: Option<string>)
    requires WellFormed(typeString, refs)
    ensures Parsed(Encoded(typeString, refs, body)) == Ok(Node(typeString, refs, Normal(body)))
  {
    var refLines, typeLine, after := RefLines(refs), "! " + typeString, Split(BodyPart(body));
    RefLinesCarry(refs);
    EncodedSplits(refLines, typeLine, BodyPart(body));
    ScanRefLines(refLines, refs, [typeLine, BOUNDARY] + after, "", []);
    assert [] + refs == refs;
    ScanClosing(typeString, refs, after);
    BodyLines(body);
  }

  lemma EncodedSplits(refLines: seq<string>, typeLine: string, bodyPart: string)
    requires (forall l :: l in refLines ==> '\n' !in l) && '\n' !in typeLine
    ensures var raw := Lines([BOUNDARY] + refLines + [typeLine, BOUNDARY]) + bodyPart;
            Split(raw)[0] == BOUNDARY && Split(raw)[1..] == refLines + ([typeLine, BOUNDARY] + Split(bodyPart))
  {
    var lines := [BOUNDARY] + refLines + [typeLine, BOUNDARY];
    assert '\n' !in BOUNDARY;
    SplitLines(lines, bodyPart);
    TailOf(BOUNDARY, refLines, [typeLine, BOUNDARY], Split(bodyPart));
  }

  lemma TailOf(head: string, a: seq<string>, b: seq<string>, c: seq<string>)
    ensures ([head] + a + b + c)[0] == head && ([head] + a + b + c)[1..] == a + (b + c)
  {
  }

  lemma BodyLines(body: Option<string>)
    ensures var after := Split(BodyPart(body));
            (if |after| >= 2 && after[0] == "" then Some(Join(after[1..])) else None) == Normal(body)
  {
    if body.Some? {
      var text := EnsureNewline(body.value);
      assert "" + "\n" + text == BodyPart(body);
      SplitLine("", text);
      JoinSplit(text);
      assert Split(BodyPart(body))[1..] == Split(text);
    }
  }

  lemma {:induction false} ScannedWellFormed(lines: seq<string>, typeString: string, refs: seq<Ref>)
    requires forall l :: l in lines ==> '\n' !in l
    requires '\n' !in typeString && forall r :: r in refs ==> WellFormedRef(r)
    requires ScanLines(lines, typeString, refs).Ok?
    ensures '\n' !in ScanLines(lines, typeString, refs).value.typeString
    ensures forall r :: r in ScanLines(lines, typeString, refs).value.refs ==> WellFormedRef(r)
    decreases |lines|
  {
    if lines[0] != BOUNDARY {
      var line := lines[0];
      if HasPrefix(line, "- ") && !HasPrefix(line, "! ") {
        ParsedRefWellFormed(line);
      }
      var step := HeaderLine(line, typeString, refs).value;
      ScannedWellFormed(lines[1..], step.0, step.1);
    }
  }

  /** Whatever parses has well-formed fields. */
  lemma ParsedWellFormed(raw: string)
    requires Parsed(raw).Ok?
    ensures WellFormed(Parsed(raw).value.typeString, Parsed(raw).value.refs)
  {
    ScannedWellFormed(Split(raw)[1..], "", []);
  }

  /** Printing then parsing gives the node back exactly when its fields are well formed. */
  lemma RoundTrip(typeString: string, refs: seq<Ref>, body: Option<string>)
    ensures Parsed(Encoded(typeString, refs, body)) == Ok(Node(typeString, refs, Normal(body)))
            <==> WellFormed(typeString, refs)
  {
    if WellFormed(typeString, refs) {
      EncodedParses(typeString, refs, body);
    } else if Parsed(Encoded(typeString, refs, body)) == Ok(Node(typeString, refs, Normal(body))) {
      ParsedWellFormed(Encoded(typeString, refs, body));
    }
  }

  /** Scanning only ever appends references. */
  lemma {:induction false} ScanKeeps(lines: seq<string>, typeString: string, refs: seq<Ref>)
    requires ScanLines(lines, typeString, refs).Ok?
    ensures refs <= ScanLines(lines, typeString, refs).value.refs
    decreases |lines|
  {
    if lines[0] != BOUNDARY {
      var header := HeaderLine(lines[0], typeString, refs).value;
      ScanKeeps(lines[1..], header.0, header.1);
    }
  }

  /** If a printed node parses at all, its first reference is still the first, whatever
      the other fields hold. */
  lemma FirstRefKept(typeString: string, refs: seq<Ref>, body: Option<string>)
    requires refs != [] && WellFormedRef(refs[0]) && Parsed(Encoded(typeString, refs, body)).Ok?
    ensures var n := Parsed(Encoded(typeString, refs, body)).value; n.refs != [] && n.refs[0] == refs[0]
  {
    var raw := Encoded(typeString, refs, body);
    var rest := FirstLines(typeString, refs, body);
    HeaderRefLine(refs[0], "", []);
    assert Split(raw)[1..][0] == RefLine(refs[0]) && Split(raw)[1..][1..] == Split(rest);
    assert [] + [refs[0]] == [refs[0]];
    ScanKeeps(Split(rest), "", [refs[0]]);
  }

  lemma FirstLines(typeString: string, refs: seq<Ref>, body: Option<string>) returns (rest: string)
    requires refs != [] && WellFormedRef(refs[0])
    ensures Split(Encoded(typeString, refs, body)) == [BOUNDARY, RefLine(refs[0])] + Split(rest)
  {
    var lines := [BOUNDARY] + RefLines(refs) + ["! " + typeString, BOUNDARY];
    RefLineChars(refs[0]);
    assert lines[1] == RefLine(refs[0]) && '\n' !in BOUNDARY;
    rest := FirstTwo(lines, BodyPart(body));
  }

  lemma FirstTwo(lines: seq<string>, tail: string) returns (rest: string)
    requires |lines| >= 2 && '\n' !in lines[0] && '\n' !in lines[1]
    ensures Split(Lines(lines) + tail) == [lines[0], lines[1]] + Split(rest)
  {
    var next := SplitFirst(lines, tail);
    rest := SplitFirst(lines[1..], tail);
    assert lines[1..][0] == lines[1];
    assert [lines[0]] + ([lines[1]] + Split(rest)) == [lines[0], lines[1]] + Split(rest);
  }

  lemma SplitFirst(lines: seq<string>, tail: string) returns (rest: string)
    requires lines != [] && '\n' !in lines[0]
    ensures rest == Lines(lines[1..]) + tail && Split(Lines(lines) + tail) == [lines[0]] + Split(rest)
  {
    rest := Lines(lines[1..]) + tail;
    LinesFirst(lines, tail);
    SplitLine(lines[0], rest);
  }

  /** Encoding is injective up to the body's final newline. */
  lemma EncodingInjective(t1: string, refs1: seq<Ref>, body1: Option<string>, t2: string, refs2: seq<Ref>,
                          body2: Option<string>)
    requires WellFormed(t1, refs1) && WellFormed(t2, refs2)
    ensures Encoded(t1, refs1, body1) == Encoded(t2, refs2, body2)
            <==> t1 == t2 && refs1 == refs2 && Normal(body1) == Normal(body2)
  {
    EncodedParses(t1, refs1, body1);
    EncodedParses(t2, refs2, body2);
  }

  /** Re-encoding a parsed node gives a node that parses to the same thing. */
  lemma ReencodeStable(raw: string)
    requires Parsed(raw).Ok?
    ensures var n := Parsed(raw).value;
            Parsed(Encoded(n.typeString, n.refs, n.body)) == Ok(n.(body := Normal(n.body)))
  {
    ParsedWellFormed(raw);
    var n := Parsed(raw).value;
    EncodedParses(n.typeString, n.refs, n.body);
  }
}
