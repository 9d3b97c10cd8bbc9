/** The naive and dodder-hyphen tag interpreters (tag_interpreter.go). */
module TagAlgebra {
  import opened Prelude

  datatype TagMembership = TagMembership(bucket: string, via: string)

  datatype Op = TagAdd | TagRemove | Unknown(name: string)

  datatype BadRequest = NoNamespaces | UnknownOp(name: string)

  // ---- Grouping ----

  /** The text before the first hyphen. */
  function FirstSegment(rest: string): string {
    rest[..IndexOf(rest, '-')]
  }

  /** The bucket a tag falls in: itself without a namespace, else its first segment
      strictly under the namespace. */
  function BucketOf(tag: string, namespace: string): Option<string> {
    if namespace == "" then Some(tag)
    else if HasPrefix(tag, namespace + "-") && tag != namespace + "-" then
      Some("-" + FirstSegment(tag[|namespace| + 1..]))
    else None
  }

  /** The tag at `i` is the first to fall in its bucket. */
  predicate Founds(tags: seq<string>, namespace: string, i: int) {
    && 0 <= i < |tags| && BucketOf(tags[i], namespace).Some?
    && forall j :: 0 <= j < i ==> BucketOf(tags[j], namespace) != BucketOf(tags[i], namespace)
  }

  /** The memberships are the founding tags in order, `at` saying which. */
  ghost predicate Groups(tags: seq<string>, namespace: string, ms: seq<TagMembership>, at: seq<nat>) {
    && |at| == |ms|
    && (forall k, l :: 0 <= k < l < |at| ==> at[k] < at[l])
    && (forall k :: 0 <= k < |at| ==>
          && Founds(tags, namespace, at[k]) && ms[k].via == tags[at[k]]
          && Some(ms[k].bucket) == BucketOf(ms[k].via, namespace))
    && (forall i :: Founds(tags, namespace, i) ==> i in at)
  }

  /** The grouping of the tags under the namespace. */
  ghost predicate IsGrouping(tags: seq<string>, namespace: string, ms: seq<TagMembership>) {
    exists at :: Groups(tags, namespace, ms, at)
  }

  ghost predicate SeenSoFar(tags: seq<string>, namespace: string, n: nat, seen: set<string>)
    requires n <= |tags|
  {
    && (forall b :: b in seen ==> exists j :: 0 <= j < n && BucketOf(tags[j], namespace) == Some(b))
    && (forall j :: 0 <= j < n && BucketOf(tags[j], namespace).Some? ==> BucketOf(tags[j], namespace).value in seen)
  }

  lemma SkipTag(tags: seq<string>, namespace: string, n: nat, ms: seq<TagMembership>, at: seq<nat>, seen: set<string>)
    requires n < |tags| && Groups(tags[..n], namespace, ms, at) && SeenSoFar(tags, namespace, n, seen)
    requires BucketOf(tags[n], namespace).None? || BucketOf(tags[n], namespace).value in seen
    ensures Groups(tags[..n + 1], namespace, ms, at) && SeenSoFar(tags, namespace, n + 1, seen)
  {
    var before, after := tags[..n], tags[..n + 1];
    forall i ensures Founds(after, namespace, i) <==> Founds(before, namespace, i) {
      FoundsPrefix(tags, namespace, n, i);
    }
  }

  lemma FoundTag(tags: seq<string>, namespace: string, n: nat, ms: seq<TagMembership>, at: seq<nat>, seen: set<string>)
    requires n < |tags| && Groups(tags[..n], namespace, ms, at) && SeenSoFar(tags, namespace, n, seen)
    requires BucketOf(tags[n], namespace).Some? && BucketOf(tags[n], namespace).value !in seen
    ensures var b := BucketOf(tags[n], namespace).value;
            && Groups(tags[..n + 1], namespace, ms + [TagMembership(b, tags[n])], at + [n])
            && SeenSoFar(tags, namespace, n + 1, seen + {b})
  {
    var before, after := tags[..n], tags[..n + 1];
    forall i ensures Founds(after, namespace, i) <==> Founds(before, namespace, i) || i == n {
      FoundsPrefix(tags, namespace, n, i);
    }
    forall k | 0 <= k < |at| ensures at[k] < n {
      assert Founds(before, namespace, at[k]);
    }
  }

  lemma FoundsPrefix(tags: seq<string>, namespace: string, n: nat, i: int)
    requires n < |tags|
    ensures i != n ==> (Founds(tags[..n + 1], namespace, i) <==> Founds(tags[..n], namespace, i))
    ensures Founds(tags[..n + 1], namespace, n) <==>
            && BucketOf(tags[n], namespace).Some?
            && forall j :: 0 <= j < n ==> BucketOf(tags[j], namespace) != BucketOf(tags[n], namespace)
  {
  }

  method WholeDimensionBuckets(tags: seq<string>) returns (ms: seq<TagMembership>)
    ensures IsGrouping(tags, "", ms)
  {
    ms := [];
    ghost var at: seq<nat> := [];
    var seen: set<string> := {};
    for n := 0 to |tags|
      invariant Groups(tags[..n], "", ms, at) && SeenSoFar(tags, "", n, seen)
    {
      var tag := tags[n];
      if tag in seen {
        SkipTag(tags, "", n, ms, at, seen);
        continue;
      }
      FoundTag(tags, "", n, ms, at, seen);
      seen := seen + {tag};
      ms := ms + [TagMembership(tag, tag)];
      at := at + [n];
    }
    assert tags[..|tags|] == tags;
  }

  method NaiveBuckets(tags: seq<string>, namespace: string) returns (result: Result<seq<TagMembership>, BadRequest>)
    ensures if namespace != "" then result == Err(NoNamespaces) else result.Ok? && IsGrouping(tags, "", result.value)
  {
    if namespace != "" {
      return Err(NoNamespaces);
    }
    var ms := WholeDimensionBuckets(tags);
    result := Ok(ms);
  }

  method HyphenBuckets(tags: seq<string>, namespace: string) returns (ms: seq<TagMembership>)
    ensures IsGrouping(tags, namespace, ms)
  {
    if namespace == "" {
      ms := WholeDimensionBuckets(tags);
      return;
    }
    ms := [];
    ghost var at: seq<nat> := [];
    var seen: set<string> := {};
    var prefix := namespace + "-";
    for n := 0 to |tags|
      invariant Groups(tags[..n], namespace, ms, at) && SeenSoFar(tags, namespace, n, seen)
    {
      var tag := tags[n];
      if !HasPrefix(tag, prefix) || tag[|prefix|..] == "" {
        NotBeneath(tag, namespace);
        SkipTag(tags, namespace, n, ms, at, seen);
        continue;
      }
      var rest := tag[|prefix|..];
      var segment := rest;
      var i := IndexOf(rest, '-');
      if i < |rest| {
        segment := rest[..i];
      }
      var bucket := "-" + segment;
      BucketBeneath(tag, namespace, segment);
      if bucket in seen {
        SkipTag(tags, namespace, n, ms, at, seen);
        continue;
      }
      FoundTag(tags, namespace, n, ms, at, seen);
      seen := seen + {bucket};
      ms := ms + [TagMembership(bucket, tag)];
      at := at + [n];
    }
    assert tags[..|tags|] == tags;
  }

  lemma NotBeneath(tag: string, namespace: string)
    requires namespace != "" && (HasPrefix(tag, namespace + "-") ==> tag[|namespace| + 1..] == "")
    ensures BucketOf(tag, namespace) == None
  {
  }

  lemma BucketBeneath(tag: string, namespace: string, segment: string)
    requires namespace != "" && HasPrefix(tag, namespace + "-") && tag[|namespace| + 1..] != ""
    requires var rest := tag[|namespace| + 1..];
             segment == if IndexOf(rest, '-') < |rest| then rest[..IndexOf(rest, '-')] else rest
    ensures BucketOf(tag, namespace) == Some("-" + segment)
  {
    var rest := tag[|namespace| + 1..];
    assert rest[..|rest|] == rest;
  }

  // ---- Matching ----

  /** The tag is the term, or lies under it along the segment path. */
  predicate Under(tag: string, term: string) {
    tag == term || HasPrefix(tag, term + "-")
  }

  method HyphenMatches(tags: seq<string>, term: string) returns (found: bool)
    ensures found <==> exists tag :: tag in tags && Under(tag, term)
  {
    var prefix := term + "-";
    for n := 0 to |tags|
      invariant forall j :: 0 <= j < n ==> !Under(tags[j], term)
    {
      if tags[n] == term || HasPrefix(tags[n], prefix) {
        assert tags[n] in tags && Under(tags[n], term);
        return true;
      }
    }
    return false;
  }

  method NaiveMatches(tags: seq<string>, term: string) returns (found: bool)
    ensures found <==> term in tags
  {
    for n := 0 to |tags|
      invariant term !in tags[..n]
    {
      assert tags[..n + 1] == tags[..n] + [tags[n]];
      if tags[n] == term {
        return true;
      }
    }
    assert tags[..|tags|] == tags;
    return false;
  }

  /** The terms a tag lies under are the tag and what precedes each of its hyphens: "a-b-c"
      lies under "a-b", "ab" does not lie under "a". */
  lemma UnderExactly(tag: string, term: string)
    ensures Under(tag, term) <==> tag == term || exists rest :: tag == term + "-" + rest
  {
    if HasPrefix(tag, term + "-") {
      assert tag == term + "-" + tag[|term| + 1..];
    }
  }

  /** Lying under a term is a partial order. */
  lemma UnderOrder(a: string, b: string, c: string)
    ensures Under(a, a)
    ensures Under(a, b) && Under(b, c) ==> Under(a, c)
    ensures Under(a, b) && Under(b, a) ==> a == b
  {
  }

  /** A tag falls in the bucket of a segment exactly when it matches the namespace with
      that segment, unless it is the bare namespace with its hyphen. */
  lemma BucketIffMatches(tag: string, namespace: string, segment: string)
    requires namespace != "" && '-' !in segment
    ensures BucketOf(tag, namespace) == Some("-" + segment)
            <==> Under(tag, namespace + "-" + segment) && tag != namespace + "-"
  {
    var prefix := namespace + "-";
    UnderPrefix(tag, prefix, segment);
    if HasPrefix(tag, prefix) {
      var rest := tag[|prefix|..];
      assert tag == prefix + rest;
      assert forall i :: 0 <= i < |segment| ==> segment[i] in segment;
      SegmentUnder(prefix, segment, rest);
      assert ("-" + FirstSegment(rest))[1..] == FirstSegment(rest) && ("-" + segment)[1..] == segment;
    }
  }

  lemma UnderPrefix(tag: string, prefix: string, segment: string)
    ensures Under(tag, prefix + segment) ==> HasPrefix(tag, prefix)
  {
  }

  lemma SegmentUnder(prefix: string, segment: string, rest: string)
    requires forall i :: 0 <= i < |segment| ==> segment[i] != '-'
    ensures FirstSegment(rest) == segment <==> Under(prefix + rest, prefix + segment)
  {
    var n, k := IndexOf(rest, '-'), |segment|;
    var tag, term := prefix + rest, prefix + segment;
    if FirstSegment(rest) == segment {
      assert rest == segment + rest[n..];
      assert n < |rest| ==> tag[..|term| + 1] == term + "-";
    }
    if Under(tag, term) {
      assert tag[|prefix|..] == rest && tag[|prefix|..|term|] == segment;
      assert rest[..k] == segment;
      assert tag != term ==> rest[k] == tag[|term|] == (term + "-")[|term|];
      assert forall i :: 0 <= i < k ==> rest[i] == segment[i];
    }
  }

  lemma ViaUnder(tag: string, namespace: string, bucket: string)
    requires namespace != "" && BucketOf(tag, namespace) == Some(bucket)
    ensures Under(tag, namespace + bucket)
  {
  }

  /** A query for any bucket of a grouping finds the node it came from. */
  lemma BucketsMatch(tags: seq<string>, namespace: string, ms: seq<TagMembership>, m: TagMembership)
    requires namespace != "" && IsGrouping(tags, namespace, ms) && m in ms
    ensures m.via in tags && Under(m.via, namespace + m.bucket)
    ensures forall other :: other in ms && other.bucket == m.bucket ==> other == m
  {
    var at :| Groups(tags, namespace, ms, at);
    var k :| 0 <= k < |ms| && ms[k] == m;
    assert Founds(tags, namespace, at[k]);
    ViaUnder(m.via, namespace, m.bucket);
    forall other | other in ms && other.bucket == m.bucket ensures other == m {
      var l :| 0 <= l < |ms| && ms[l] == other;
      assert Founds(tags, namespace, at[l]);
      assert !(at[k] < at[l]) && !(at[l] < at[k]);
    }
  }

  /** The buckets are exactly those some tag falls in, each once. */
  lemma {:induction false} BucketsComplete(tags: seq<string>, namespace: string, ms: seq<TagMembership>, i: nat)
    requires IsGrouping(tags, namespace, ms) && i < |tags| && BucketOf(tags[i], namespace).Some?
    ensures exists m :: m in ms && Some(m.bucket) == BucketOf(tags[i], namespace)
    decreases i
  {
    if Founds(tags, namespace, i) {
      var at :| Groups(tags, namespace, ms, at);
      var k :| 0 <= k < |at| && at[k] == i;
      assert ms[k] in ms;
    } else {
      var j :| 0 <= j < i && BucketOf(tags[j], namespace) == BucketOf(tags[i], namespace);
      BucketsComplete(tags, namespace, ms, j);
    }
  }

  /** Grouping a whole dimension gives each distinct tag as its own bucket, once. */
  lemma WholeDimension(tags: seq<string>, ms: seq<TagMembership>)
    requires IsGrouping(tags, "", ms)
    ensures forall m :: m in ms ==> m.bucket == m.via && m.via in tags
    ensures forall tag :: tag in tags ==> TagMembership(tag, tag) in ms
    ensures forall k, l :: 0 <= k < l < |ms| ==> ms[k].bucket != ms[l].bucket
  {
    OwnBuckets(tags, ms);
    forall k, l | 0 <= k < l < |ms| ensures ms[k].bucket != ms[l].bucket {
      BucketsDiffer(tags, "", ms, k, l);
    }
    forall tag | tag in tags ensures TagMembership(tag, tag) in ms {
      var i: nat :| i < |tags| && tags[i] == tag;
      BucketsComplete(tags, "", ms, i);
    }
  }

  lemma OwnBuckets(tags: seq<string>, ms: seq<TagMembership>)
    requires IsGrouping(tags, "", ms)
    ensures forall m :: m in ms ==> m.bucket == m.via && m.via in tags
  {
    var at :| Groups(tags, "", ms, at);
    forall m | m in ms ensures m.bucket == m.via && m.via in tags {
      var k :| 0 <= k < |ms| && ms[k] == m;
      assert Founds(tags, "", at[k]);
    }
  }

  lemma BucketsDiffer(tags: seq<string>, namespace: string, ms: seq<TagMembership>, k: nat, l: nat)
    requires IsGrouping(tags, namespace, ms) && k < l < |ms|
    ensures ms[k].bucket != ms[l].bucket
  {
    var i, j := FoundingTags(tags, namespace, ms, k, l);
    TwoDiffer(tags, namespace, i, j);
  }

  lemma FoundingTags(tags: seq<string>, namespace: string, ms: seq<TagMembership>, k: nat, l: nat)
    returns (i: nat, j: nat)
    requires IsGrouping(tags, namespace, ms) && k < l < |ms|
    ensures i < j && Founds(tags, namespace, i) && Founds(tags, namespace, j)
    ensures BucketOf(tags[i], namespace) == Some(ms[k].bucket) && BucketOf(tags[j], namespace) == Some(ms[l].bucket)
  {
    var at :| Groups(tags, namespace, ms, at);
    GroupsAt(tags, namespace, ms, at, k);
    GroupsAt(tags, namespace, ms, at, l);
    GroupsOrdered(tags, namespace, ms, at, k, l);
    i, j := at[k], at[l];
  }

  lemma GroupsOrdered(tags: seq<string>, namespace: string, ms: seq<TagMembership>, at: seq<nat>, k: nat, l: nat)
    requires Groups(tags, namespace, ms, at) && k < l < |ms|
    ensures at[k] < at[l]
  {
  }

  lemma GroupsAt(tags: seq<string>, namespace: string, ms: seq<TagMembership>, at: seq<nat>, k: nat)
    requires Groups(tags, namespace, ms, at) && k < |ms|
    ensures Founds(tags, namespace, at[k]) && BucketOf(tags[at[k]], namespace) == Some(ms[k].bucket)
  {
  }

  lemma TwoDiffer(tags: seq<string>, namespace: string, i: nat, j: nat)
    requires i < j && Founds(tags, namespace, i) && Founds(tags, namespace, j)
    ensures BucketOf(tags[i], namespace) != BucketOf(tags[j], namespace)
  {
  }

  // ---- Write-back ----

  function Without(tags: seq<string>, bucket: string): seq<string> {
    if tags == [] then []
    else Without(tags[..|tags| - 1], bucket) + (if tags[|tags| - 1] == bucket then [] else [tags[|tags| - 1]])
  }

  function Completed(tags: seq<string>, op: Op, bucket: string): Result<seq<string>, BadRequest> {
    match op
    case TagAdd => Ok(if bucket in tags then tags else tags + [bucket])
    case TagRemove => Ok(if bucket in tags then Without(tags, bucket) else tags)
    case Unknown(name) => Err(UnknownOp(name))
  }

  /** Both interpreters' Complete. */
  method Complete(tags: seq<string>, op: Op, bucket: string) returns (result: Result<seq<string>, BadRequest>)
    ensures result == Completed(tags, op, bucket)
  {
    var present := NaiveMatches(tags, bucket);
    match op
    case TagAdd =>
      if present {
        return Ok(tags);
      }
      return Ok(tags + [bucket]);
    case TagRemove =>
      if !present {
        return Ok(tags);
      }
      var out: seq<string> := [];
      for n := 0 to |tags|
        invariant out == Without(tags[..n], bucket)
      {
        assert tags[..n + 1][..n] == tags[..n];
        if tags[n] != bucket {
          out := out + [tags[n]];
        }
      }
      assert tags[..|tags|] == tags;
      return Ok(out);
    case Unknown(name) =>
      return Err(UnknownOp(name));
  }

  lemma {:induction false} WithoutExactly(tags: seq<string>, bucket: string)
    ensures forall tag :: tag in Without(tags, bucket) <==> tag in tags && tag != bucket
    ensures bucket !in tags <==> Without(tags, bucket) == tags
    decreases |tags|
  {
    if tags != [] {
      var n := |tags| - 1;
      WithoutExactly(tags[..n], bucket);
      assert tags == tags[..n] + [tags[n]];
    }
  }

  /** Adding keeps the tags in place, makes the tag present, and does so once. */
  lemma AddsOnce(tags: seq<string>, bucket: string)
    ensures Completed(tags, TagAdd, bucket).Ok?
    ensures var added := Completed(tags, TagAdd, bucket).value;
            && tags <= added && |added| <= |tags| + 1 && bucket in added
            && (forall tag :: tag in added <==> tag in tags || tag == bucket)
            && (bucket !in tags ==> multiset(added)[bucket] == 1)
            && Completed(added, TagAdd, bucket) == Ok(added)
  {
  }

  /** Removing drops every occurrence of the tag and keeps the others in order, however
      the tags are split. */
  lemma {:induction false} RemovesAll(left: seq<string>, right: seq<string>, bucket: string)
    ensures Without(left + right, bucket) == Without(left, bucket) + Without(right, bucket)
    ensures Without([bucket], bucket) == [] && forall tag :: tag != bucket ==> Without([tag], bucket) == [tag]
    decreases |right|
  {
    if right == [] {
      assert left + right == left;
    } else {
      var init, tag := right[..|right| - 1], right[|right| - 1];
      assert init + [tag] == right;
      RemovesAll(left, init, bucket);
      RemovesNext(left, init, tag, bucket);
    }
  }

  lemma RemovesNext(left: seq<string>, init: seq<string>, tag: string, bucket: string)
    requires Without(left + init, bucket) == Without(left, bucket) + Without(init, bucket)
    ensures Without(left + (init + [tag]), bucket) == Without(left, bucket) + Without(init + [tag], bucket)
  {
    Associate(left, init, [tag]);
    WithoutNext(left + init, tag, bucket);
    WithoutNext(init, tag, bucket);
    Associate(Without(left, bucket), Without(init, bucket), if tag == bucket then [] else [tag]);
  }

  lemma WithoutNext(tags: seq<string>, tag: string, bucket: string)
    ensures Without(tags + [tag], bucket) == Without(tags, bucket) + (if tag == bucket then [] else [tag])
  {
    assert (tags + [tag])[..|tags|] == tags;
  }

  /** Adding and then removing gives the sequence back exactly when the tag was absent. */
  lemma AddThenRemove(tags: seq<string>, bucket: string)
    ensures var added := Completed(tags, TagAdd, bucket).value;
            Completed(added, TagRemove, bucket) == Ok(tags) <==> bucket !in tags
  {
    WithoutExactly(tags, bucket);
    if bucket in tags {
      assert Completed(tags, TagRemove, bucket) != Ok(tags);
    } else {
      WithoutLast(tags, bucket);
    }
  }

  lemma WithoutLast(tags: seq<string>, bucket: string)
    ensures Without(tags + [bucket], bucket) == Without(tags, bucket)
  {
  }

  /** Removal is exact: the node still matches the tag exactly when it has one strictly under it. */
  lemma RemovalNotTransitive(tags: seq<string>, bucket: string)
    ensures var kept := Completed(tags, TagRemove, bucket).value;
            (exists tag :: tag in kept && Under(tag, bucket))
            <==> (exists tag :: tag in tags && HasPrefix(tag, bucket + "-"))
  {
    WithoutExactly(tags, bucket);
    var kept := Completed(tags, TagRemove, bucket).value;
    if tag :| tag in tags && HasPrefix(tag, bucket + "-") {
      assert tag in kept && Under(tag, bucket);
    }
  }
}
