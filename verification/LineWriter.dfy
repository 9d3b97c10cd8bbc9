/** Splitting a byte stream into log lines (reporterLineWriter in progress.go).
    `trim` stands for strings.TrimSpace. */
module LineWriter {

  predicate IsBreak(c: char) {
    c == '\r' || c == '\n'
  }

  /** bytes.IndexAny(s, "\r\n"), or the length when there is none. */
  function NextBreak(s: string): (n: nat)
    ensures n <= |s| && (forall i :: 0 <= i < n ==> !IsBreak(s[i])) && (n < |s| ==> IsBreak(s[n]))
  {
    if s == "" || IsBreak(s[0]) then 0 else 1 + NextBreak(s[1..])
  }

  /** The text after the last break. */
  function Pending(s: string): string {
    if s == "" then "" else if IsBreak(s[|s| - 1]) then "" else Pending(s[..|s| - 1]) + [s[|s| - 1]]
  }

  /** The trimmed line a segment logs, if any. */
  function Logged(trim: string -> string, segment: string): seq<string> {
    if trim(segment) == "" then [] else [trim(segment)]
  }

  /** The lines of the whole text: a break at the end of a prefix logs the text
      pending before it. */
  function LinesOf(trim: string -> string, s: string): seq<string> {
    if s == "" then []
    else
      var n := |s| - 1;
      LinesOf(trim, s[..n]) + (if IsBreak(s[n]) then Logged(trim, Pending(s[..n])) else [])
  }

  class ReporterLineWriter {
    const trim: string -> string
    var buf: string
    var log: seq<string>

    /** The buffer holds no break. */
    ghost predicate Valid()
      reads this
    {
      Pending(buf) == buf
    }

    constructor (trim: string -> string)
      ensures Valid() && this.trim == trim && buf == "" && log == []
    {
      this.trim := trim;
      buf, log := "", [];
    }

    method Write(p: string) returns (n: nat)
      requires Valid()
      modifies this
      ensures Valid() && n == |p|
      ensures buf == Pending(old(buf) + p)
      ensures log == old(log) + LinesOf(trim, old(buf) + p)
    {
      buf := buf + p;
      ghost var all, done := buf, "";
      assert "" + buf == buf;
      while true
        invariant all == done + buf && Pending(done) == ""
        invariant log == old(log) + LinesOf(trim, done)
        decreases |buf|
      {
        var i := NextBreak(buf);
        if i == |buf| {
          break;
        }
        Segment(trim, done, buf[..i], buf[i]);
        Regroup(done, buf, i);
        done := done + buf[..i] + [buf[i]];
        var segment := trim(buf[..i]);
        buf := buf[i + 1..];
        if segment != "" {
          log := log + [segment];
        }
      }
      Unbroken(trim, done, buf);
      PendingTwice(all);
      return |p|;
    }
  }

  lemma NextChar(trim: string -> string, s: string, c: char)
    ensures Pending(s + [c]) == if IsBreak(c) then "" else Pending(s) + [c]
    ensures LinesOf(trim, s + [c]) == LinesOf(trim, s) + if IsBreak(c) then Logged(trim, Pending(s)) else []
  {
  }

  /** Text without a break is pending and logs nothing. */
  lemma {:induction false} Unbroken(trim: string -> string, done: string, s: string)
    requires Pending(done) == "" && forall i :: 0 <= i < |s| ==> !IsBreak(s[i])
    ensures Pending(done + s) == s && LinesOf(trim, done + s) == LinesOf(trim, done)
    decreases |s|
  {
    if s == "" {
      assert done + s == done;
    } else {
      var n := |s| - 1;
      Unbroken(trim, done, s[..n]);
      NextChar(trim, done + s[..n], s[n]);
      assert done + s[..n] + [s[n]] == done + s && s[..n] + [s[n]] == s;
    }
  }

  lemma Regroup(done: string, s: string, i: nat)
    requires i < |s|
    ensures done + s == done + s[..i] + [s[i]] + s[i + 1..]
  {
  }

  lemma Segment(trim: string -> string, done: string, line: string, c: char)
    requires Pending(done) == "" && IsBreak(c) && forall i :: 0 <= i < |line| ==> !IsBreak(line[i])
    ensures Pending(done + line + [c]) == ""
    ensures LinesOf(trim, done + line + [c]) == LinesOf(trim, done) + Logged(trim, line)
  {
    Unbroken(trim, done, line);
    NextChar(trim, done + line, c);
  }

  // ---- Any chunking ----

  function Flatten(chunks: seq<string>): string {
    if chunks == [] then "" else Flatten(chunks[..|chunks| - 1]) + chunks[|chunks| - 1]
  }

  /** Log and buffer after a sequence of Write calls, by Write's contract. */
  function Written(trim: string -> string, chunks: seq<string>): (seq<string>, string) {
    if chunks == [] then ([], "")
    else
      var (log, buf) := Written(trim, chunks[..|chunks| - 1]);
      var text := buf + chunks[|chunks| - 1];
      (log + LinesOf(trim, text), Pending(text))
  }

  lemma InStep(trim: string -> string, x: string, y: string, base: seq<string>, c: char)
    requires Pending(x) == Pending(y) && LinesOf(trim, x) == base + LinesOf(trim, y)
    ensures Pending(x + [c]) == Pending(y + [c]) && LinesOf(trim, x + [c]) == base + LinesOf(trim, y + [c])
  {
  }

  lemma SplitLast(a: string, b: string)
    requires b != ""
    ensures a + b[..|b| - 1] + [b[|b| - 1]] == a + b
  {
  }

  lemma {:induction false} Resume(trim: string -> string, a: string, b: string)
    ensures Pending(a + b) == Pending(Pending(a) + b)
    ensures LinesOf(trim, a + b) == LinesOf(trim, a) + LinesOf(trim, Pending(a) + b)
    decreases |b|
  {
    if b == "" {
      assert a + b == a && Pending(a) + b == Pending(a);
      PendingTail(a);
      assert "" + Pending(a) == Pending(a);
      Unbroken(trim, "", Pending(a));
    } else {
      var n := |b| - 1;
      Resume(trim, a, b[..n]);
      InStep(trim, a + b[..n], Pending(a) + b[..n], LinesOf(trim, a), b[n]);
      SplitLast(a, b);
      SplitLast(Pending(a), b);
    }
  }

  /** The pending text is what follows the last break, and has none itself. */
  lemma {:induction false} PendingTail(s: string)
    ensures var n := |s| - |Pending(s)|;
            && 0 <= n && s[n..] == Pending(s) && (n > 0 ==> IsBreak(s[n - 1]))
            && forall i :: n <= i < |s| ==> !IsBreak(s[i])
    ensures forall c :: c in s[|s| - |Pending(s)|..] ==> c !in "\r\n"
    decreases |s|
  {
    if s != "" {
      var last := |s| - 1;
      assert s[..last] + [s[last]] == s;
      PendingTail(s[..last]);
      NextChar(seg => seg, s[..last], s[last]);
    }
  }

  /** The text from `from` up to the break at `to` is one segment of `s`, and `line` is it, trimmed. */
  predicate LogsAt(trim: string -> string, s: string, from: int, to: int, line: string) {
    && 0 <= from <= to < |s| && IsBreak(s[to]) && (from > 0 ==> IsBreak(s[from - 1]))
    && (forall i :: from <= i < to ==> !IsBreak(s[i]))
    && line == trim(s[from..to])
  }

  /** `lines` are the trimmed segments that are not empty, `from` and `to` saying where each is. */
  ghost predicate Lists(trim: string -> string, s: string, lines: seq<string>, from: seq<int>, to: seq<int>) {
    && |from| == |to| == |lines|
    && (forall k :: 0 <= k < |lines| ==> lines[k] != "" && LogsAt(trim, s, from[k], to[k], lines[k]))
    && (forall k, l :: 0 <= k < l < |to| ==> to[k] < to[l])
    && (forall i, j, line :: LogsAt(trim, s, i, j, line) && line != "" ==> j in to)
  }

  /** What is logged is exactly the ended lines that do not trim to nothing, each once, trimmed and in order. */
  lemma {:induction false} LinesExactly(trim: string -> string, s: string) returns (from: seq<int>, to: seq<int>)
    ensures Lists(trim, s, LinesOf(trim, s), from, to)
    decreases |s|
  {
    if s == "" {
      from, to := [], [];
    } else {
      var n := |s| - 1;
      var t := s[..n];
      from, to := LinesExactly(trim, t);
      assert t + [s[n]] == s;
      NextLists(trim, t, s[n], LinesOf(trim, t), from, to);
      if IsBreak(s[n]) && trim(Pending(t)) != "" {
        from, to := from + [n - |Pending(t)|], to + [n];
      }
    }
  }

  lemma NextLists(trim: string -> string, t: string, c: char, lines: seq<string>, from: seq<int>, to: seq<int>)
    requires Lists(trim, t, lines, from, to)
    ensures var start := |t| - |Pending(t)|;
            if IsBreak(c) && trim(Pending(t)) != "" then
              Lists(trim, t + [c], lines + [trim(Pending(t))], from + [start], to + [|t|])
            else Lists(trim, t + [c], lines, from, to)
  {
    var s := t + [c];
    forall i, j, line ensures LogsAt(trim, s, i, j, line) <==>
                                LogsAt(trim, t, i, j, line) || LogsLast(trim, t, c, i, j, line) {
      LogsNext(trim, t, c, i, j, line);
    }
  }

  /** The break `c` ends the pending text. */
  predicate LogsLast(trim: string -> string, t: string, c: char, from: int, to: int, line: string) {
    IsBreak(c) && from == |t| - |Pending(t)| && to == |t| && line == trim(Pending(t))
  }

  lemma LogsNext(trim: string -> string, t: string, c: char, from: int, to: int, line: string)
    ensures LogsAt(trim, t + [c], from, to, line) <==>
              LogsAt(trim, t, from, to, line) || LogsLast(trim, t, c, from, to, line)
  {
    assert forall i :: 0 <= i < |t| ==> (t + [c])[i] == t[i];
    if 0 <= from <= to < |t| {
      assert (t + [c])[from..to] == t[from..to];
      assert LogsAt(trim, t + [c], from, to, line) <==> LogsAt(trim, t, from, to, line);
    }
    if to == |t| {
      LogsAtEnd(trim, t, c, from, line);
    }
  }

  lemma LogsAtEnd(trim: string -> string, t: string, c: char, from: int, line: string)
    ensures LogsAt(trim, t + [c], from, |t|, line) <==> LogsLast(trim, t, c, from, |t|, line)
  {
    var s, start := t + [c], |t| - |Pending(t)|;
    PendingTail(t);
    assert forall i :: 0 <= i < |t| ==> s[i] == t[i];
    if LogsAt(trim, s, from, |t|, line) {
      assert start > 0 ==> IsBreak(s[start - 1]);
      assert forall i :: start <= i < |t| ==> !IsBreak(s[i]);
      assert from == start;
    }
    assert s[start..|t|] == Pending(t);
  }

  lemma PendingTwice(s: string)
    ensures Pending(Pending(s)) == Pending(s)
  {
    PendingTail(s);
    assert "" + Pending(s) == Pending(s);
    Unbroken(seg => seg, "", Pending(s));
  }

  /** However the input is cut into writes, the log holds the lines of the whole
      input and the buffer the text after its last break. */
  lemma {:induction false} ChunkingIndependent(trim: string -> string, chunks: seq<string>)
    ensures Written(trim, chunks) == (LinesOf(trim, Flatten(chunks)), Pending(Flatten(chunks)))
    decreases |chunks|
  {
    if chunks != [] {
      var n := |chunks| - 1;
      ChunkingIndependent(trim, chunks[..n]);
      Resume(trim, Flatten(chunks[..n]), chunks[n]);
    }
  }

  /** A client's writes, one after another: only the concatenated input matters. */
  method WriteAll(w: ReporterLineWriter, chunks: seq<string>)
    requires w.Valid() && w.buf == "" && w.log == []
    modifies w
    ensures w.Valid() && w.log == LinesOf(w.trim, Flatten(chunks)) && w.buf == Pending(Flatten(chunks))
  {
    for n := 0 to |chunks|
      invariant w.Valid() && (w.log, w.buf) == Written(w.trim, chunks[..n])
    {
      var count := w.Write(chunks[n]);
      assert chunks[..n + 1][..n] == chunks[..n];
    }
    assert chunks[..|chunks|] == chunks;
    ChunkingIndependent(w.trim, chunks);
  }
}
