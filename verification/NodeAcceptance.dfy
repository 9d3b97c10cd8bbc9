/** Which inputs the node parsers (parse.go, stream.go) accept, and what each of the
    others is refused for. */
module NodeAcceptance {
  import opened Prelude
  import opened NodeFraming

  /** The lines before the closing boundary, or all of them. */
  function Header(lines: seq<string>): seq<string> {
    if lines == [] || lines[0] == BOUNDARY then [] else [lines[0]] + Header(lines[1..])
  }

  /** "- alias < @digest !type", in whatever fields. */
  ghost predicate RefShaped(line: string) {
    exists alias, digest, typ :: line == "- " + (alias + " < @" + (digest + " !" + typ))
  }

  ghost predicate BadRef(line: string) {
    HasPrefix(line, "- ") && !RefShaped(line)
  }

  /** The first line that is no reference though it starts like one. */
  ghost predicate FirstBad(header: seq<string>, line: string) {
    exists i :: 0 <= i < |header| && header[i] == line && BadRef(line) && forall j :: 0 <= j < i ==> !BadRef(header[j])
  }

  ghost predicate NoBad(header: seq<string>) {
    forall line :: line in header ==> !BadRef(line)
  }

  /** A line is parsed as a reference exactly when it has the shape of one. */
  lemma RefLineShaped(line: string)
    requires HasPrefix(line, "- ")
    ensures ParseRefLine(line).Some? <==> RefShaped(line)
  {
    if alias, digest, typ :| line == "- " + (alias + " < @" + (digest + " !" + typ)) {
      ShapedParses(line, alias, digest, typ);
    }
    if ParseRefLine(line).Some? {
      ParsedShape(line);
    }
  }

  lemma ShapedParses(line: string, alias: string, digest: string, typ: string)
    requires line == "- " + (alias + " < @" + (digest + " !" + typ))
    ensures ParseRefLine(line).Some?
  {
    var text := line[2..];
    assert text == alias + " < @" + (digest + " !" + typ);
    assert OccursAt(text, " < @", |alias|);
    var i := Find(text, " < @").value;
    assert i <= |alias|;
    assert OccursAt(text[i + 4..], " !", |alias| - i + |digest|) by {
      assert text[|alias| + 4 + |digest|..][..2] == " !";
    }
  }

  lemma RefParts(line: string) returns (typ: string)
    requires HasPrefix(line, "- ") && ParseRefLine(line).Some?
    ensures var r := ParseRefLine(line).value;
            && line == "- " + (r.alias + " < @" + (r.digest + " !" + typ))
            && (if Contains(typ, "@") then typ == r.typeString + "@" + r.sig else typ == r.typeString && r.sig == "")
  {
    var text := line[2..];
    CutPieces(text, " < @");
    var after := Cut(text, " < @").value.1;
    CutPieces(after, " !");
    typ := Cut(after, " !").value.1;
    ContainsIffFind(typ, "@");
    if Contains(typ, "@") {
      CutPieces(typ, "@");
    }
    assert line == "- " + text;
  }

  /** A reference that was read is printed on its line again, but for an empty signature's '@'. */
  lemma ParsedShape(line: string)
    requires HasPrefix(line, "- ") && ParseRefLine(line).Some?
    ensures RefShaped(line)
    ensures line == RefLine(ParseRefLine(line).value) || line == RefLine(ParseRefLine(line).value) + "@"
  {
    var typ := RefParts(line);
    var r := ParseRefLine(line).value;
    if Contains(typ, "@") && r.sig == "" {
      TrailingAt(r, typ);
    }
  }

  lemma TrailingAt(r: Ref, typ: string)
    requires r.sig == "" && typ == r.typeString + "@" + r.sig
    ensures "- " + (r.alias + " < @" + (r.digest + " !" + typ)) == RefLine(r) + "@"
  {
    assert typ == r.typeString + "@";
    assert r.digest + " !" + typ == r.digest + " !" + r.typeString + "@";
  }

  // ---- The header ----

  /** The last type line of a header, or nothing. */
  function TypeOf(header: seq<string>): string {
    if header == [] then ""
    else
      var last := header[|header| - 1];
      if HasPrefix(last, "! ") then last[2..] else TypeOf(header[..|header| - 1])
  }

  function RefsAdded(line: string): seq<Ref> {
    if HasPrefix(line, "- ") then OptSeq(ParseRefLine(line)) else []
  }

  /** What the header's reference lines say, in order. */
  function RefsOf(header: seq<string>): seq<Ref> {
    if header == [] then []
    else RefsAdded(header[0]) + RefsOf(header[1..])
  }

  lemma {:induction false} TypeOfCons(line: string, header: seq<string>)
    ensures TypeOf([line] + header)
            == if exists l :: l in header && HasPrefix(l, "! ") then TypeOf(header)
               else if HasPrefix(line, "! ") then line[2..] else ""
    decreases |header|
  {
    if header == [] {
      assert [line] + [] == [line];
      assert [line][..0] == [];
    } else {
      var n := |header| - 1;
      TypeOfCons(line, header[..n]);
      assert ([line] + header)[..n + 1] == [line] + header[..n];
      assert forall l :: l in header <==> l in header[..n] || l == header[n];
    }
  }

  lemma FirstBadCons(line: string, header: seq<string>, l: string)
    ensures FirstBad([line] + header, l) <==> if BadRef(line) then l == line else FirstBad(header, l)
  {
    var all := [line] + header;
    assert all[0] == line && forall j :: 0 <= j < |header| ==> all[j + 1] == header[j];
    if FirstBad(all, l) {
      BadInTail(line, header, l);
    }
    if !BadRef(line) && FirstBad(header, l) {
      BadAfter(line, header, l);
    }
  }

  lemma BadInTail(line: string, header: seq<string>, l: string)
    requires FirstBad([line] + header, l)
    ensures if BadRef(line) then l == line else FirstBad(header, l)
  {
    var all := [line] + header;
    var i :| 0 <= i < |all| && all[i] == l && BadRef(l) && forall j :: 0 <= j < i ==> !BadRef(all[j]);
    if i > 0 {
      assert !BadRef(all[0]);
      assert forall j :: 0 <= j < i - 1 ==> header[j] == all[j + 1];
      assert header[i - 1] == l;
    }
  }

  lemma BadAfter(line: string, header: seq<string>, l: string)
    requires !BadRef(line) && FirstBad(header, l)
    ensures FirstBad([line] + header, l)
  {
    var all := [line] + header;
    var i :| 0 <= i < |header| && header[i] == l && BadRef(l) && forall j :: 0 <= j < i ==> !BadRef(header[j]);
    forall j | 0 <= j < i + 1 ensures !BadRef(all[j]) {
      if j > 0 {
        assert all[j] == header[j - 1];
      }
    }
    assert all[i + 1] == l;
  }

  lemma NoBadCons(line: string, header: seq<string>)
    ensures NoBad([line] + header) <==> !BadRef(line) && NoBad(header)
  {
    assert line in [line] + header;
    assert forall l :: l in header ==> l in [line] + header;
  }

  /** What one more header line adds. */
  lemma TypeCons(line: string, header: seq<string>, typeString: string)
    ensures TypeAfter(typeString, [line] + header)
            == TypeAfter(if HasPrefix(line, "! ") then line[2..] else typeString, header)
  {
    TypeOfCons(line, header);
    var all := [line] + header;
    assert line in all;
    assert forall l :: l in all <==> l == line || l in header;
  }

  lemma RefsCons(line: string, header: seq<string>)
    ensures RefsOf([line] + header) == RefsAdded(line) + RefsOf(header)
  {
    assert ([line] + header)[0] == line && ([line] + header)[1..] == header;
  }

  /** The type after a header, given the type before it. */
  function TypeAfter(typeString: string, header: seq<string>): string {
    if exists l :: l in header && HasPrefix(l, "! ") then TypeOf(header) else typeString
  }

  /** The header loop stops at the first line that starts like a reference and is none, or
      else at the closing boundary, or else at the end. */
  ghost predicate Scanned(lines: seq<string>, typeString: string, refs: seq<Ref>,
                          scan: Result<Scan<seq<string>>, ParseError>) {
    var header := Header(lines);
    && (forall line :: scan == Err(MalformedRef(line)) <==> FirstBad(header, line))
    && (scan == Err(NoClosingBoundary) <==> NoBad(header) && BOUNDARY !in lines)
    && (scan.Ok? <==> NoBad(header) && BOUNDARY in lines)
    && (scan.Err? ==> scan.error.MalformedRef? || scan.error.NoClosingBoundary?)
    && (scan.Ok? ==>
          && scan.value.refs == refs + RefsOf(header)
          && scan.value.typeString == TypeAfter(typeString, header)
          && lines == header + [BOUNDARY] + scan.value.rest)
  }

  lemma {:induction false} ScanExactly(lines: seq<string>, typeString: string, refs: seq<Ref>)
    ensures Scanned(lines, typeString, refs, ScanLines(lines, typeString, refs))
    decreases |lines|
  {
    if lines != [] && lines[0] != BOUNDARY {
      var next := HeaderLine(lines[0], typeString, refs);
      if HasPrefix(lines[0], "- ") {
        RefLineShaped(lines[0]);
      }
      if next.Err? {
        ScanBad(lines, typeString, refs);
      } else {
        ScanExactly(lines[1..], next.value.0, next.value.1);
        HeaderContent(lines[0], Header(lines[1..]), typeString, refs);
        ScanMore(lines, typeString, refs, next.value.0, next.value.1, ScanLines(lines, typeString, refs));
      }
    }
  }

  lemma HeaderContent(line: string, header: seq<string>, typeString: string, refs: seq<Ref>)
    requires HeaderLine(line, typeString, refs).Ok?
    ensures !BadRef(line)
    ensures var next := HeaderLine(line, typeString, refs).value;
            && TypeAfter(next.0, header) == TypeAfter(typeString, [line] + header)
            && next.1 + RefsOf(header) == refs + RefsOf([line] + header)
  {
    TypeCons(line, header, typeString);
    RefsCons(line, header);
    Associate(refs, RefsAdded(line), RefsOf(header));
    HeaderAdds(line, typeString, refs);
  }

  lemma HeaderAdds(line: string, typeString: string, refs: seq<Ref>)
    requires HeaderLine(line, typeString, refs).Ok?
    ensures !BadRef(line)
    ensures HeaderLine(line, typeString, refs).value
            == (if HasPrefix(line, "! ") then line[2..] else typeString, refs + RefsAdded(line))
  {
    if HasPrefix(line, "- ") {
      RefLineShaped(line);
      assert line[0] == '-';
    }
    assert refs + [] == refs;
  }

  lemma ScanBad(lines: seq<string>, typeString: string, refs: seq<Ref>)
    requires lines != [] && lines[0] != BOUNDARY && BadRef(lines[0])
    ensures Scanned(lines, typeString, refs, Err(MalformedRef(lines[0])))
  {
    var line, header := lines[0], Header(lines[1..]);
    forall l ensures FirstBad([line] + header, l) <==> l == line {
      FirstBadCons(line, header, l);
    }
    NoBadCons(line, header);
  }

  lemma ScanMore(lines: seq<string>, typeString: string, refs: seq<Ref>, typeString': string, refs': seq<Ref>,
                 scan: Result<Scan<seq<string>>, ParseError>)
    requires lines != [] && lines[0] != BOUNDARY && !BadRef(lines[0])
    requires Scanned(lines[1..], typeString', refs', scan)
    requires TypeAfter(typeString', Header(lines[1..])) == TypeAfter(typeString, Header(lines))
    requires refs' + RefsOf(Header(lines[1..])) == refs + RefsOf(Header(lines))
    ensures Scanned(lines, typeString, refs, scan)
  {
    var line, header := lines[0], Header(lines[1..]);
    forall l ensures FirstBad([line] + header, l) <==> FirstBad(header, l) {
      FirstBadCons(line, header, l);
    }
    NoBadCons(line, header);
    assert BOUNDARY in lines <==> BOUNDARY in lines[1..];
    if scan.Ok? {
      ConsPieces(lines, header, scan.value.rest);
    }
  }

  lemma ConsPieces(lines: seq<string>, header: seq<string>, rest: seq<string>)
    requires lines != [] && lines[1..] == header + [BOUNDARY] + rest
    ensures lines == [lines[0]] + header + [BOUNDARY] + rest
  {
    assert lines == [lines[0]] + lines[1..];
  }

  /** The header of a text, without its opening boundary. */
  function HeaderOf(raw: string): seq<string> {
    Header(Split(raw)[1..])
  }

  /** The header loop of a text that opens with the boundary reaches its type check. */
  ghost predicate Closed(raw: string) {
    Split(raw)[0] == BOUNDARY && NoBad(HeaderOf(raw)) && BOUNDARY in Split(raw)[1..]
  }

  lemma OpenedExactly(raw: string)
    ensures Parsed(raw) == Err(NoOpeningBoundary) <==> Split(raw)[0] != BOUNDARY
    ensures forall line ::
              Parsed(raw) == Err(MalformedRef(line)) <==> Split(raw)[0] == BOUNDARY && FirstBad(HeaderOf(raw), line)
  {
    ScanExactly(Split(raw)[1..], "", []);
    assert forall l :: FirstBad(HeaderOf(raw), l) ==> !NoBad(HeaderOf(raw));
  }

  lemma ClosedExactly(raw: string)
    ensures Parsed(raw) == Err(NoClosingBoundary) <==>
              Split(raw)[0] == BOUNDARY && NoBad(HeaderOf(raw)) && BOUNDARY !in Split(raw)[1..]
    ensures Parsed(raw) == Err(NoTypeLine) <==> Closed(raw) && TypeOf(HeaderOf(raw)) == ""
    ensures Parsed(raw).Ok? <==> Closed(raw) && TypeOf(HeaderOf(raw)) != ""
    ensures Parsed(raw).Ok? ==> Parsed(raw).value.typeString == TypeOf(HeaderOf(raw))
                                && Parsed(raw).value.refs == RefsOf(HeaderOf(raw))
  {
    ScanExactly(Split(raw)[1..], "", []);
    NoTypeNone(HeaderOf(raw));
  }

  /** The parser accepts exactly the texts that open with the boundary, close their header,
      name a type, and hold no header line that starts like a reference and is none; any
      other is refused for the first of these that fails, reading from the top. */
  lemma AcceptsExactly(raw: string)
    ensures Parsed(raw).Ok? <==> Closed(raw) && TypeOf(HeaderOf(raw)) != ""
    ensures Parsed(raw) == Err(NoOpeningBoundary) <==> Split(raw)[0] != BOUNDARY
    ensures forall line ::
              Parsed(raw) == Err(MalformedRef(line)) <==> Split(raw)[0] == BOUNDARY && FirstBad(HeaderOf(raw), line)
    ensures Parsed(raw) == Err(NoClosingBoundary) <==>
              Split(raw)[0] == BOUNDARY && NoBad(HeaderOf(raw)) && BOUNDARY !in Split(raw)[1..]
    ensures Parsed(raw) == Err(NoTypeLine) <==> Closed(raw) && TypeOf(HeaderOf(raw)) == ""
    ensures Parsed(raw).Ok? ==> Parsed(raw).value.typeString == TypeOf(HeaderOf(raw))
                                && Parsed(raw).value.refs == RefsOf(HeaderOf(raw))
  {
    OpenedExactly(raw);
    ClosedExactly(raw);
  }

  lemma {:induction false} NoTypeNone(header: seq<string>)
    ensures TypeAfter("", header) == TypeOf(header)
    decreases |header|
  {
    if header != [] {
      var n := |header| - 1;
      NoTypeNone(header[..n]);
      assert forall l :: l in header <==> l in header[..n] || l == header[n];
    }
  }

  // ---- The printed form ----

  /** A reference is printed on its own line, after the opening boundary and before the
      type line, with its type's signature when it has one. */
  lemma PrintedRef(t: string, a: string, d: string, b: string, sig: string)
    requires sig != ""
    ensures Encoded(t, [Ref(a, d, b, sig)], None)
            == "---" + "\n" + ("- " + (a + " < @" + (d + " !" + (b + "@" + sig))) + "\n"
                              + ("! " + t + "\n" + ("---" + "\n")))
    ensures RefLine(Ref(a, d, b, "")) == "- " + (a + " < @" + (d + " !" + b))
  {
    FourLines(BOUNDARY, RefLine(Ref(a, d, b, sig)), "! " + t);
    assert [BOUNDARY] + RefLines([Ref(a, d, b, sig)]) + ["! " + t, BOUNDARY]
        == [BOUNDARY, RefLine(Ref(a, d, b, sig)), "! " + t, BOUNDARY];
  }

  /** A body is printed after a blank line, with a final newline. */
  lemma PrintedBody(t: string, body: string)
    ensures Encoded(t, [], Some(body))
            == "---" + "\n" + ("! " + t + "\n" + ("---" + "\n")) + ("\n" + EnsureNewline(body))
    ensures EnsureNewline(body) == body <==> body != "" && body[|body| - 1] == '\n'
  {
    ThreeLines(BOUNDARY, "! " + t);
    assert [BOUNDARY] + RefLines([]) + ["! " + t, BOUNDARY] == [BOUNDARY, "! " + t, BOUNDARY];
  }

  lemma ThreeLines(x: string, y: string)
    ensures Lines([x, y, x]) == x + "\n" + (y + "\n" + (x + "\n"))
  {
    assert Lines([x]) == x + "\n" + Lines([]) == x + "\n";
    assert [y, x][1..] == [x] && [x, y, x][1..] == [y, x];
    assert Lines([y, x]) == y + "\n" + Lines([x]);
  }

  lemma FourLines(x: string, y: string, z: string)
    ensures Lines([x, y, z, x]) == x + "\n" + (y + "\n" + (z + "\n" + (x + "\n")))
  {
    assert Lines([x]) == x + "\n" + Lines([]) == x + "\n";
    assert [z, x][1..] == [x] && [y, z, x][1..] == [z, x] && [x, y, z, x][1..] == [y, z, x];
    assert Lines([z, x]) == z + "\n" + Lines([x]);
    assert Lines([y, z, x]) == y + "\n" + Lines([z, x]);
  }
}
