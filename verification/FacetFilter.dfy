/** What a facet filter keeps (facet.go, facet_date.go), and what narrowing one does
    to the histograms of a fold. */
module FacetFilter {
  import opened FacetFold

  // ---- Date buckets ----

  /** Containment of date buckets orders keys: every bucket holds itself, buckets nest,
      and no two hold each other. */
  lemma BucketOrder(a: string, b: string, c: string)
    ensures DateBucketMatches(a, a)
    ensures DateBucketMatches(a, b) && DateBucketMatches(b, c) ==> DateBucketMatches(a, c)
    ensures DateBucketMatches(a, b) && DateBucketMatches(b, a) ==> a == b
  {
  }

  /** The buckets of a key are the key and what precedes each of its hyphens. */
  lemma BucketsOfKey(key: string, bucket: string)
    ensures DateBucketMatches(key, bucket) <==>
              key == bucket || exists rest :: key == bucket + "-" + rest
  {
    if DateBucketMatches(key, bucket) && key != bucket {
      var rest := key[|bucket| + 1..];
      assert key == key[..|bucket|] + [key[|bucket|]] + rest;
      assert key == bucket + "-" + rest;
    }
    if rest :| key == bucket + "-" + rest {
      assert key[..|bucket|] == bucket && key[|bucket|] == '-';
    }
  }

  lemma DayInMonth()
    ensures DateBucketMatches("2026-08-15", "2026-08") && DateBucketMatches("2026-08", "2026")
    ensures !DateBucketMatches("2026-081", "2026-08") && !DateBucketMatches("2026-08", "2026-08-15")
  {
    assert "2026-08-15"[..7] == "2026-08" && "2026-08"[..4] == "2026";
    assert "2026-081"[7] == '1';
  }

  /** Coarsening a key to a granularity of n characters (TruncateDateKey). */
  function TruncateDateKey(key: string, n: nat): string {
    if n == 0 || |key| <= n then key else key[..n]
  }

  /** A day, a month or a year, as far as its hyphens go. */
  predicate DateShaped(key: string) {
    && (|key| == 4 || |key| == 7 || |key| == 10)
    && (|key| > 4 ==> key[4] == '-') && (|key| > 7 ==> key[7] == '-')
  }

  /** Grouping and filtering agree: a bucket takes exactly the keys that are coarsened to it. */
  lemma BucketIsTruncation(key: string, bucket: string)
    requires DateShaped(key) && DateShaped(bucket)
    ensures DateBucketMatches(key, bucket) <==> |bucket| <= |key| && TruncateDateKey(key, |bucket|) == bucket
  {
    if |key| == |bucket| {
      assert key[..|bucket|] == key;
    }
  }

  // ---- Case folding ----

  predicate IsLetter(c: char) {
    'A' <= c <= 'Z' || 'a' <= c <= 'z'
  }

  /** Folding compares character by character, up to the case of a letter. */
  lemma FoldsExactly(a: string, b: string)
    ensures EqualFold(a, b) <==>
              && |a| == |b|
              && forall i :: 0 <= i < |a| ==>
                   a[i] == b[i] || (IsLetter(a[i]) && IsLetter(b[i]) && (a[i] as int - b[i] as int) % 32 == 0)
  {
  }

  // ---- Narrowing a filter ----

  lemma {:induction false} CountsListed(values: seq<FacetValue>, k: string)
    ensures CountKey(values, k) > 0 <==> exists v :: v in values && v.key == k
    decreases |values|
  {
    if values != [] {
      var n := |values| - 1;
      CountsListed(values[..n], k);
      assert values == values[..n] + [values[n]];
    }
  }

  function Keys(values: seq<FacetValue>): seq<string> {
    seq(|values|, i requires 0 <= i < |values| => values[i].key)
  }

  /** A child counts for a key as often as it lists it. */
  lemma {:induction false} CountsRepetitions(values: seq<FacetValue>, k: string)
    ensures CountKey(values, k) == multiset(Keys(values))[k]
    decreases |values|
  {
    if values != [] {
      var n := |values| - 1;
      CountsRepetitions(values[..n], k);
      assert Keys(values) == Keys(values[..n]) + [values[n].key];
    }
  }

  lemma MatchesMore(filter: seq<FacetPredicate>, p: FacetPredicate, facets: Facets)
    ensures Matches(filter + [p], facets) <==> Matches(filter, facets) && PredicateMatches(p, facets)
  {
    if Matches(filter + [p], facets) {
      forall q | q in filter ensures PredicateMatches(q, facets) {
        assert q in filter + [p];
      }
      assert p in filter + [p];
    }
  }

  function Narrowed(v: View, p: FacetPredicate): View {
    v.(filter := v.filter + [p])
  }

  /** The plain predicate d == k of an unannotated dimension. */
  function Is(d: string, k: string): FacetPredicate {
    FacetPredicate(d, k, false, false)
  }

  predicate Lists(facets: Facets, d: string, k: string) {
    d in facets && exists v :: v in facets[d] && v.key == k
  }

  /** Without a filter every child that has the dimension counts. */
  lemma UnfilteredWeight(v: View, child: Node, d: string, k: string)
    requires v.filter == []
    ensures Weight(v, child, d, k) == if d in v.declared && d in child.facets then CountKey(child.facets[d], k) else 0
  {
  }

  /** Under a further plain predicate exactly the children that list the value still count. */
  lemma NarrowedWeight(v: View, child: Node, d: string, k: string, d': string, k': string)
    ensures Weight(Narrowed(v, Is(d, k)), child, d', k')
            == if Lists(child.facets, d, k) then Weight(v, child, d', k') else 0
  {
    MatchesMore(v.filter, Is(d, k), child.facets);
  }

  /** No further predicate raises a count. */
  lemma {:induction false} NarrowingLowers(v: View, p: FacetPredicate, s: set<Occurrence>, d: string, k: string)
    ensures Tally(Narrowed(v, p), s, d, k) <= Tally(v, s, d, k)
    decreases |s|
  {
    if s != {} {
      var o: Occurrence :| o in s;
      TallyRemove(v, s, o, d, k);
      TallyRemove(Narrowed(v, p), s, o, d, k);
      NarrowingLowers(v, p, s - {o}, d, k);
      if ValidOccurrence(v.lister, o) {
        MatchesMore(v.filter, p, Kids(v.lister, o.0)[o.1].facets);
      }
    }
  }

  /** Drilling down into a value keeps its count. */
  lemma {:induction false} DrillDownTally(v: View, s: set<Occurrence>, d: string, k: string)
    ensures Tally(Narrowed(v, Is(d, k)), s, d, k) == Tally(v, s, d, k)
    decreases |s|
  {
    if s != {} {
      var o: Occurrence :| o in s;
      TallyRemove(v, s, o, d, k);
      TallyRemove(Narrowed(v, Is(d, k)), s, o, d, k);
      DrillDownTally(v, s - {o}, d, k);
      if ValidOccurrence(v.lister, o) {
        var child := Kids(v.lister, o.0)[o.1];
        NarrowedWeight(v, child, d, k, d, k);
        if d in child.facets {
          CountsListed(child.facets[d], k);
        }
      }
    }
  }

  /** The drill-down law of complete folds: filtering on a value a summary shows keeps
      that value's count, and leaves every other count at most as large. */
  lemma DrillDown(v: View, root: string, d: string, k: string, all: Summary, drilled: Summary)
    requires Exact(v, root, all) && Exact(Narrowed(v, Is(d, k)), root, drilled)
    ensures CountOf(drilled, d, k) == CountOf(all, d, k)
    ensures forall d', k' :: CountOf(drilled, d', k') <= CountOf(all, d', k')
  {
    var narrow := Narrowed(v, Is(d, k));
    var r :| IsReachSet(v.lister, root, r) && Sums(v, Occurrences(v.lister, r), all);
    var r' :| IsReachSet(v.lister, root, r') && Sums(narrow, Occurrences(v.lister, r'), drilled);
    assert r == r';
    var s := Occurrences(v.lister, r);
    DrillDownTally(v, s, d, k);
    CountIsTally(v, s, all, d, k);
    CountIsTally(narrow, s, drilled, d, k);
    forall d', k' ensures CountOf(drilled, d', k') <= CountOf(all, d', k') {
      NarrowingLowers(v, Is(d, k), s, d', k');
      CountIsTally(v, s, all, d', k');
      CountIsTally(narrow, s, drilled, d', k');
    }
  }

  lemma CountIsTally(v: View, s: set<Occurrence>, summary: Summary, d: string, k: string)
    requires Sums(v, s, summary)
    ensures CountOf(summary, d, k) == Tally(v, s, d, k)
  {
    assert SumsAt(v, s, summary, d);
    if d in summary {
      assert CountIs(summary[d], k, Tally(v, s, d, k));
    } else {
      NoneCarriesNoTally(v, s, d, k);
    }
  }
}
