/** Types and string functions shared by the other modules. A `char` stands for
    one byte of the original's byte strings. */
module Prelude {

  datatype Option<+T> = None | Some(value: T)

  datatype Result<+T, +E> = Ok(value: T) | Err(error: E)

  function OptSeq<T>(x: Option<T>): seq<T> {
    if x.Some? then [x.value] else []
  }

  lemma Associate<T>(a: seq<T>, b: seq<T>, c: seq<T>)
    ensures (a + b) + c == a + (b + c)
  {
  }

  ghost predicate Distinct<T(!new)>(s: seq<T>) {
    forall i, j :: 0 <= i < j < |s| ==> s[i] != s[j]
  }

  // ---- Search ----

  /** The first index of `c`, or the length. */
  function IndexOf(s: string, c: char): (n: nat)
    ensures n <= |s| && (forall i :: 0 <= i < n ==> s[i] != c) && (n < |s| ==> s[n] == c)
  {
    if s == "" || s[0] == c then 0 else 1 + IndexOf(s[1..], c)
  }

  predicate OccursAt(s: string, sep: string, i: int) {
    0 <= i <= |s| - |sep| && s[i..i + |sep|] == sep
  }

  predicate Contains(s: string, sep: string) {
    exists i :: 0 <= i <= |s| - |sep| && OccursAt(s, sep, i)
  }

  /** strings.Index: the first occurrence of `sep`. */
  function Find(s: string, sep: string): (r: Option<nat>)
    ensures r.Some? ==> OccursAt(s, sep, r.value) && forall i :: 0 <= i < r.value ==> !OccursAt(s, sep, i)
    ensures r.None? ==> forall i :: !OccursAt(s, sep, i)
  {
    if |s| < |sep| then None
    else if s[..|sep|] == sep then Some(0)
    else
      var r := Find(s[1..], sep);
      OccursInTail(s, sep);
      if r.None? then None else Some(r.value + 1)
  }

  lemma OccursInTail(s: string, sep: string)
    requires s != ""
    ensures forall i :: i > 0 ==> (OccursAt(s, sep, i) <==> OccursAt(s[1..], sep, i - 1))
  {
  }

  lemma ContainsIffFind(s: string, sep: string)
    ensures Contains(s, sep) <==> Find(s, sep).Some?
  {
  }

  /** strings.Cut around the first `sep`. */
  function Cut(s: string, sep: string): Option<(string, string)> {
    match Find(s, sep)
    case None => None
    case Some(i) => Some((s[..i], s[i + |sep|..]))
  }

  /** No proper prefix of `sep` is also a suffix of it. */
  ghost predicate BorderFree(sep: string) {
    forall k :: 0 < k < |sep| ==> sep[k..] != sep[..|sep| - k]
  }

  lemma CutConcat(a: string, sep: string, b: string)
    requires sep != "" && BorderFree(sep) && !Contains(a, sep)
    ensures Cut(a + sep + b, sep) == Some((a, b))
  {
    var s := a + sep + b;
    assert OccursAt(s, sep, |a|);
    forall i | 0 <= i < |a| ensures !OccursAt(s, sep, i) {
      if i + |sep| <= |a| {
        assert s[i..i + |sep|] == a[i..i + |sep|];
        assert !OccursAt(a, sep, i);
      } else if i + |sep| <= |s| {
        var k := |a| - i;
        assert s[i..i + |sep|][k..] == sep[..|sep| - k];
      }
    }
    assert s[..|a|] == a && s[|a| + |sep|..] == b;
  }

  lemma CutAbsent(a: string, sep: string)
    requires !Contains(a, sep)
    ensures Cut(a, sep) == None
  {
  }

  lemma CutPieces(s: string, sep: string)
    requires sep != "" && Cut(s, sep).Some?
    ensures !Contains(Cut(s, sep).value.0, sep)
    ensures s == Cut(s, sep).value.0 + sep + Cut(s, sep).value.1
  {
    var i := Find(s, sep).value;
    forall j ensures !OccursAt(s[..i], sep, j) {
      if 0 <= j <= i - |sep| {
        assert s[..i][j..j + |sep|] == s[j..j + |sep|] && !OccursAt(s, sep, j);
      }
    }
  }

  predicate HasPrefix(s: string, prefix: string) {
    prefix <= s
  }
}
