/** Session duration breakdown (internal/breakdown/breakdown.go). Instants are
    integer nanoseconds. */
module Breakdown {
  import opened Prelude
  import opened Ordering
  import opened IdLists

  datatype Category = Planning | ToolCalls | ModelGeneration | UserWait

  /** Where a stretch of the window is booked. */
  datatype Bucket = Only(category: Category) | Overlap | Unclassified

  datatype Interval = Interval(start: int, end: int, category: Category, ids: seq<string>)

  // ---- what the buckets mean --------------------------------------------------

  predicate Covers(i: Interval, t: int) {
    i.start <= t < i.end
  }

  /** The distinct categories running at instant `t`. */
  function CategoriesAt(intervals: seq<Interval>, t: int): set<Category> {
    set i | i in intervals && Covers(i, t) :: i.category
  }

  function BucketOf(s: set<Category>): Bucket {
    if s == {} then Unclassified
    else if s == {Planning} then Only(Planning)
    else if s == {ToolCalls} then Only(ToolCalls)
    else if s == {ModelGeneration} then Only(ModelGeneration)
    else if s == {UserWait} then Only(UserWait)
    else Overlap
  }

  function BucketAt(intervals: seq<Interval>, t: int): Bucket {
    BucketOf(CategoriesAt(intervals, t))
  }

  /** How many instants of [lo, hi) fall into bucket `b`. */
  function Measure(intervals: seq<Interval>, lo: int, hi: int, b: Bucket): nat
    decreases hi - lo
  {
    if hi <= lo then 0
    else Measure(intervals, lo, hi - 1, b) + if BucketAt(intervals, hi - 1) == b then 1 else 0
  }

  lemma {:induction false} MeasureSplit(intervals: seq<Interval>, lo: int, mid: int, hi: int, b: Bucket)
    requires lo <= mid <= hi
    ensures Measure(intervals, lo, hi, b) == Measure(intervals, lo, mid, b) + Measure(intervals, mid, hi, b)
    decreases hi - mid
  {
    if mid < hi {
      MeasureSplit(intervals, lo, mid, hi - 1, b);
    }
  }

  lemma {:induction false} MeasureConstant(intervals: seq<Interval>, lo: int, hi: int, b: Bucket, c: Bucket)
    requires lo <= hi && forall t :: lo <= t < hi ==> BucketAt(intervals, t) == c
    ensures Measure(intervals, lo, hi, b) == if b == c then hi - lo else 0
    decreases hi - lo
  {
    if lo < hi {
      MeasureConstant(intervals, lo, hi - 1, b, c);
    }
  }

  /** The six buckets partition the window. */
  lemma {:induction false} BucketsPartition(intervals: seq<Interval>, lo: int, hi: int)
    requires lo <= hi
    ensures Measure(intervals, lo, hi, Only(Planning)) + Measure(intervals, lo, hi, Only(ToolCalls))
            + Measure(intervals, lo, hi, Only(ModelGeneration)) + Measure(intervals, lo, hi, Only(UserWait))
            + Measure(intervals, lo, hi, Overlap) + Measure(intervals, lo, hi, Unclassified) == hi - lo
    decreases hi - lo
  {
    if lo < hi {
      BucketsPartition(intervals, lo, hi - 1);
      var b := BucketAt(intervals, hi - 1);
      assert b == Unclassified || b == Overlap || b.Only?;
    }
  }

  /** The measures depend on which intervals there are, not on their order. */
  lemma {:induction false} MeasureForgetsOrder(a: seq<Interval>, b: seq<Interval>, lo: int, hi: int, bucket: Bucket)
    requires forall i :: i in a <==> i in b
    ensures Measure(a, lo, hi, bucket) == Measure(b, lo, hi, bucket)
    decreases hi - lo
  {
    if lo < hi {
      MeasureForgetsOrder(a, b, lo, hi - 1, bucket);
      assert CategoriesAt(a, hi - 1) == CategoriesAt(b, hi - 1);
    }
  }

  // ---- boundary points --------------------------------------------------------

  function Max(a: int, b: int): int { if a < b then b else a }
  function Min(a: int, b: int): int { if a < b then a else b }

  /** clipInterval */
  function Clip(i: Interval, lo: int, hi: int): Option<(int, int)> {
    var start, end := Max(i.start, lo), Min(i.end, hi);
    if end <= start then None else Some((start, end))
  }

  /** What is left of an interval in the window: between two of the four ends, and not empty. */
  lemma {:induction false} ClipIsInside(i: Interval, lo: int, hi: int, s: int, e: int)
    ensures Clip(i, lo, hi) == Some((s, e))
            <==> s < e && lo <= s && i.start <= s && e <= hi && e <= i.end && s in [lo, i.start] && e in [hi, i.end]
  {}

  predicate Less(a: int, b: int) {
    a < b
  }

  function Self(x: int): int {
    x
  }

  /** `p` ends the window, or an interval clipped to it. */
  ghost predicate Ends(lo: int, hi: int, intervals: seq<Interval>, p: int) {
    || p == lo || p == hi
    || exists i :: i in intervals && Clip(i, lo, hi).Some? && (p == Clip(i, lo, hi).value.0 || p == Clip(i, lo, hi).value.1)
  }

  /** `points` are exactly the window's ends and the clipped ends of the intervals, increasing. */
  ghost predicate Boundaries(lo: int, hi: int, intervals: seq<Interval>, points: seq<int>) {
    && (forall i, j :: 0 <= i < j < |points| ==> points[i] < points[j])
    && (forall p :: p in points ==> lo <= p <= hi)
    && forall p :: p in points <==> Ends(lo, hi, intervals, p)
  }

  lemma {:induction false} EndsStep(lo: int, hi: int, intervals: seq<Interval>, n: nat)
    requires n < |intervals|
    ensures var clipped := Clip(intervals[n], lo, hi);
            forall p :: Ends(lo, hi, intervals[..n + 1], p)
                        <==> Ends(lo, hi, intervals[..n], p)
                             || (clipped.Some? && (p == clipped.value.0 || p == clipped.value.1))
  {
    assert intervals[..n + 1] == intervals[..n] + [intervals[n]];
    var last := intervals[n];
    assert forall i :: i in intervals[..n + 1] <==> i in intervals[..n] || i == last;
    forall p | Ends(lo, hi, intervals[..n + 1], p) && !Ends(lo, hi, intervals[..n], p)
      ensures Clip(last, lo, hi).Some? && (p == Clip(last, lo, hi).value.0 || p == Clip(last, lo, hi).value.1)
    {
      var i :| i in intervals[..n + 1] && Clip(i, lo, hi).Some? && (p == Clip(i, lo, hi).value.0 || p == Clip(i, lo, hi).value.1);
      assert i == last;
    }
    assert last in intervals[..n + 1];
  }

  method BoundaryPoints(lo: int, hi: int, intervals: seq<Interval>) returns (ordered: seq<int>)
    requires lo < hi
    ensures Boundaries(lo, hi, intervals, ordered)
  {
    var points: set<int> := {lo, hi};
    for n := 0 to |intervals|
      invariant forall p :: p in points ==> lo <= p <= hi
      invariant forall p :: p in points <==> Ends(lo, hi, intervals[..n], p)
    {
      EndsStep(lo, hi, intervals, n);
      var clipped := Clip(intervals[n], lo, hi);
      if clipped.Some? {
        points := points + {clipped.value.0, clipped.value.1};
      }
    }
    assert intervals[..|intervals|] == intervals;
    ordered := Ascending(points);
  }

  /** The members of a set of instants, sorted. */
  method Ascending(points: set<int>) returns (ordered: seq<int>)
    ensures forall p :: p in ordered <==> p in points
    ensures forall i, j :: 0 <= i < j < |ordered| ==> ordered[i] < ordered[j]
  {
    var listed: seq<int> := [];
    var pending := points;
    while pending != {}
      invariant pending <= points
      invariant forall p :: p in listed <==> p in points && p !in pending
      invariant NoRepeats(listed)
      decreases |pending|
    {
      var p := Pick(pending);
      listed := listed + [p];
      pending := pending - {p};
    }
    ordered := SortBy(Less, Self, listed);
    SortForgetsOrder(Less, Self, listed, listed);
    forall p ensures p in ordered <==> p in listed {
      MembersOfSort(Less, Self, listed, p);
    }
    forall i, j | 0 <= i < j < |ordered| ensures ordered[i] < ordered[j] {
      assert Less(Self(ordered[i]), Self(ordered[j]));
    }
  }

  // ---- one segment ------------------------------------------------------------

  predicate Valid(intervals: seq<Interval>) {
    forall i :: i in intervals ==> i.start < i.end
  }

  /** coveringCategories' overlap test */
  predicate Overlaps(i: Interval, lo: int, hi: int) {
    i.end > lo && i.start < hi
  }

  /** Between neighbouring boundary points an interval covers all instants or none. */
  lemma {:induction false} SegmentIsUniform(lo: int, hi: int, intervals: seq<Interval>, points: seq<int>, n: nat, t: int)
    requires Boundaries(lo, hi, intervals, points) && Valid(intervals)
    requires n + 1 < |points| && points[n] <= t < points[n + 1]
    ensures forall i :: i in intervals ==> (Covers(i, t) <==> Overlaps(i, points[n], points[n + 1]))
  {
    forall i | i in intervals && Overlaps(i, points[n], points[n + 1]) ensures Covers(i, t) {
      var clipped := Clip(i, lo, hi);
      assert points[n] in points && points[n + 1] in points;
      NoPointBetween(points, n, clipped.value.0);
      NoPointBetween(points, n, clipped.value.1);
    }
  }

  lemma {:induction false} NoPointBetween(points: seq<int>, n: nat, p: int)
    requires forall i, j :: 0 <= i < j < |points| ==> points[i] < points[j]
    requires n + 1 < |points| && p in points
    ensures p <= points[n] || points[n + 1] <= p
  {
    var k :| 0 <= k < |points| && points[k] == p;
    assert k <= n || n + 1 <= k;
  }

  function Ids(categories: map<Category, seq<string>>, c: Category): seq<string> {
    if c in categories then categories[c] else []
  }

  /** Some interval of category `c` overlaps the segment. */
  ghost predicate Runs(intervals: seq<Interval>, lo: int, hi: int, c: Category) {
    exists i :: i in intervals && Overlaps(i, lo, hi) && i.category == c
  }

  /** ... and carries event `id`. */
  ghost predicate Cites(intervals: seq<Interval>, lo: int, hi: int, c: Category, id: string) {
    id != "" && exists i :: i in intervals && Overlaps(i, lo, hi) && i.category == c && id in i.ids
  }

  lemma {:induction false} CitesStep(intervals: seq<Interval>, lo: int, hi: int, n: nat, c: Category, id: string)
    requires n < |intervals|
    ensures var i := intervals[n];
            && (Runs(intervals[..n + 1], lo, hi, c) <==>
                  Runs(intervals[..n], lo, hi, c) || (Overlaps(i, lo, hi) && i.category == c))
            && (Cites(intervals[..n + 1], lo, hi, c, id) <==>
                  || Cites(intervals[..n], lo, hi, c, id)
                  || (id != "" && Overlaps(i, lo, hi) && i.category == c && id in i.ids))
  {
    assert intervals[..n + 1] == intervals[..n] + [intervals[n]];
    assert forall i :: i in intervals[..n + 1] <==> i in intervals[..n] || i == intervals[n];
  }

  /** `categories` holds what overlaps the segment: each running category, with the
      events its intervals carry, each once. */
  ghost predicate IsCovering(intervals: seq<Interval>, lo: int, hi: int, categories: map<Category, seq<string>>) {
    && (forall c :: c in categories <==> Runs(intervals, lo, hi, c))
    && (forall c, id :: id in Ids(categories, c) <==> Cites(intervals, lo, hi, c, id))
  }

  method CoveringCategories(lo: int, hi: int, intervals: seq<Interval>) returns (categories: map<Category, seq<string>>)
    ensures IsCovering(intervals, lo, hi, categories)
  {
    categories := map[];
    for n := 0 to |intervals|
      invariant IsCovering(intervals[..n], lo, hi, categories)
    {
      categories := CoverOne(lo, hi, intervals, n, categories);
    }
    assert intervals[..|intervals|] == intervals;
  }

  /** One turn of the loop. */
  method CoverOne(lo: int, hi: int, intervals: seq<Interval>, n: nat, before: map<Category, seq<string>>)
    returns (categories: map<Category, seq<string>>)
    requires n < |intervals| && IsCovering(intervals[..n], lo, hi, before)
    ensures IsCovering(intervals[..n + 1], lo, hi, categories)
  {
    categories := before;
    var interval := intervals[n];
    if Overlaps(interval, lo, hi) {
      var c := interval.category;
      AppendedLists(Ids(categories, c), interval.ids);
      var ids := AppendUnique(Ids(categories, c), interval.ids);
      categories := categories[c := ids];
    }
    forall c, id
      ensures c in categories <==> Runs(intervals[..n + 1], lo, hi, c)
      ensures id in Ids(categories, c) <==> Cites(intervals[..n + 1], lo, hi, c, id)
    {
      CitesStep(intervals, lo, hi, n, c, id);
    }
  }

  // ---- the sweep --------------------------------------------------------------

  function At(totals: map<Bucket, int>, b: Bucket): int {
    if b in totals then totals[b] else 0
  }

  function EvidenceAt(evidence: map<Bucket, seq<string>>, b: Bucket): seq<string> {
    if b in evidence then evidence[b] else []
  }

  /** Event `id` belongs to an interval running at an instant of [lo, hi) booked under `b`. */
  ghost predicate Seen(intervals: seq<Interval>, lo: int, hi: int, b: Bucket, id: string) {
    exists t, i :: lo <= t < hi && BucketAt(intervals, t) == b && i in intervals && Covers(i, t) && id != "" && id in i.ids
  }

  /** `len(categories)` picks the bucket: none, one category, or an overlap. */
  lemma {:induction false} BucketBySize(s: set<Category>)
    ensures |s| == 0 <==> BucketOf(s) == Unclassified
    ensures |s| == 1 <==> BucketOf(s).Only?
    ensures BucketOf(s).Only? ==> s == {BucketOf(s).category}
  {
    if |s| == 1 {
      var c :| c in s;
      assert |s - {c}| == 0;
      assert s == {c};
      assert c == Planning || c == ToolCalls || c == ModelGeneration || c == UserWait;
    }
  }

  /** The ids of all categories together. */
  ghost predicate AnyId(categories: map<Category, seq<string>>, id: string) {
    exists c :: c in categories && id in categories[c]
  }

  method AddIds(before: seq<string>, more: seq<string>) returns (ids: seq<string>)
    requires "" !in more
    ensures forall id :: id in ids <==> id in before || id in more
    ensures NoRepeats(before) ==> NoRepeats(ids)
  {
    AppendedLists(before, more);
    ids := AppendUnique(before, more);
  }

  lemma {:induction false} OneCategory(categories: map<Category, seq<string>>, c: Category)
    requires c in categories && |categories.Keys| == 1
    ensures categories.Keys == {c} && forall id :: AnyId(categories, id) <==> id in categories[c]
  {
    assert |categories.Keys - {c}| == 0;
  }

  method ApplySegment(
      totals: map<Bucket, int>, evidence: map<Bucket, seq<string>>, duration: int,
      categories: map<Category, seq<string>>)
    returns (totals': map<Bucket, int>, evidence': map<Bucket, seq<string>>)
    requires forall c :: c in categories ==> "" !in categories[c]
    ensures var b := BucketOf(categories.Keys);
            && totals' == totals[b := At(totals, b) + duration]
            && (forall q :: q != b ==> EvidenceAt(evidence', q) == EvidenceAt(evidence, q))
            && (forall id :: id in EvidenceAt(evidence', b) <==> id in EvidenceAt(evidence, b) || AnyId(categories, id))
            && (NoRepeats(EvidenceAt(evidence, b)) ==> NoRepeats(EvidenceAt(evidence', b)))
  {
    totals', evidence' := totals, evidence;
    BucketBySize(categories.Keys);
    assert |categories| == |categories.Keys|;
    if |categories| == 0 {
      totals' := totals'[Unclassified := At(totals', Unclassified) + duration];
    } else if |categories| == 1 {
      var category := Pick(categories.Keys);
      var b := Only(category);
      totals' := totals'[b := At(totals', b) + duration];
      var ids := AddIds(EvidenceAt(evidence', b), categories[category]);
      evidence' := evidence'[b := ids];
      OneCategory(categories, category);
    } else {
      totals' := totals'[Overlap := At(totals', Overlap) + duration];
      var ids := AllIds(EvidenceAt(evidence', Overlap), categories);
      evidence' := evidence'[Overlap := ids];
    }
  }

  /** The ids of every category, appended in map order. */
  method AllIds(before: seq<string>, categories: map<Category, seq<string>>) returns (ids: seq<string>)
    requires forall c :: c in categories ==> "" !in categories[c]
    ensures forall id :: id in ids <==> id in before || AnyId(categories, id)
    ensures NoRepeats(before) ==> NoRepeats(ids)
  {
    ids := before;
    var pending := categories.Keys;
    while pending != {}
      invariant pending <= categories.Keys
      invariant forall id :: id in ids <==>
                  id in before || exists c :: c in categories && c !in pending && id in categories[c]
      invariant NoRepeats(before) ==> NoRepeats(ids)
      decreases |pending|
    {
      var c := Pick(pending);
      ids := AddIds(ids, categories[c]);
      pending := pending - {c};
    }
  }

  /** One segment's instants share the bucket its overlapping categories pick. */
  lemma {:induction false} SegmentIsBooked(
      lo: int, hi: int, intervals: seq<Interval>, points: seq<int>, n: nat, a: int, z: int,
      categories: map<Category, seq<string>>)
    requires Boundaries(lo, hi, intervals, points) && Valid(intervals)
    requires n + 1 < |points| && a == points[n] && z == points[n + 1]
    requires IsCovering(intervals, a, z, categories)
    ensures forall t :: a <= t < z ==> BucketAt(intervals, t) == BucketOf(categories.Keys)
    ensures forall id :: AnyId(categories, id) <==> Seen(intervals, a, z, BucketOf(categories.Keys), id)
    ensures forall b, id :: b != BucketOf(categories.Keys) ==> !Seen(intervals, a, z, b, id)
  {
    forall t | a <= t < z ensures CategoriesAt(intervals, t) == categories.Keys {
      SegmentIsUniform(lo, hi, intervals, points, n, t);
      forall c ensures c in CategoriesAt(intervals, t) <==> c in categories {
        assert c in categories <==> Runs(intervals, a, z, c);
      }
    }
    forall id ensures AnyId(categories, id) <==> Seen(intervals, a, z, BucketOf(categories.Keys), id) {
      SegmentIsUniform(lo, hi, intervals, points, n, a);
      if AnyId(categories, id) {
        var c :| c in categories && id in categories[c];
        assert id in Ids(categories, c) && Cites(intervals, a, z, c, id);
        var i :| i in intervals && Overlaps(i, a, z) && i.category == c && id in i.ids;
        assert Covers(i, a) && BucketAt(intervals, a) == BucketOf(categories.Keys);
      }
      if Seen(intervals, a, z, BucketOf(categories.Keys), id) {
        var t, i :| a <= t < z && BucketAt(intervals, t) == BucketOf(categories.Keys)
          && i in intervals && Covers(i, t) && id != "" && id in i.ids;
        assert Overlaps(i, a, z);
        assert Cites(intervals, a, z, i.category, id);
        assert id in Ids(categories, i.category);
      }
    }
  }

  lemma {:induction false} SeenSplit(intervals: seq<Interval>, lo: int, mid: int, hi: int, b: Bucket, id: string)
    requires lo <= mid <= hi
    ensures Seen(intervals, lo, hi, b, id) <==> Seen(intervals, lo, mid, b, id) || Seen(intervals, mid, hi, b, id)
  {
    if Seen(intervals, lo, hi, b, id) {
      var t, i :| lo <= t < hi && BucketAt(intervals, t) == b && i in intervals && Covers(i, t) && id != "" && id in i.ids;
      assert t < mid || mid <= t;
    }
  }

  /** The totals and the evidence of [lo, hi) are exact. */
  ghost predicate Swept(
      intervals: seq<Interval>, lo: int, hi: int, totals: map<Bucket, int>, evidence: map<Bucket, seq<string>>)
  {
    && (forall b :: At(totals, b) == Measure(intervals, lo, hi, b))
    && (forall b, id :: id in EvidenceAt(evidence, b) <==> Seen(intervals, lo, hi, b, id))
    && forall b :: NoRepeats(EvidenceAt(evidence, b))
  }

  ghost predicate AllAscend(evidence: map<Bucket, seq<string>>) {
    forall b :: Ascends(EvidenceAt(evidence, b))
  }

  method SortEvidence(evidence: map<Bucket, seq<string>>) returns (sorted: map<Bucket, seq<string>>)
    requires forall b :: NoRepeats(EvidenceAt(evidence, b))
    ensures AllAscend(sorted)
    ensures forall b :: NoRepeats(EvidenceAt(sorted, b))
    ensures forall b, id :: id in EvidenceAt(sorted, b) <==> id in EvidenceAt(evidence, b)
  {
    sorted := map[];
    var pending := evidence.Keys;
    while pending != {}
      invariant sorted.Keys == evidence.Keys - pending && pending <= evidence.Keys
      invariant forall b :: b in sorted ==> Ascends(sorted[b])
      invariant forall b :: b in sorted ==> NoRepeats(sorted[b])
      invariant forall b, id :: b in sorted ==> (id in sorted[b] <==> id in evidence[b])
      decreases |pending|
    {
      var b := Pick(pending);
      assert EvidenceAt(evidence, b) == evidence[b];
      var ids := SortIds(evidence[b]);
      sorted := sorted[b := ids];
      pending := pending - {b};
    }
  }

  /** segment */
  method Segment(lo: int, hi: int, intervals: seq<Interval>)
    returns (totals: map<Bucket, int>, evidence: map<Bucket, seq<string>>)
    requires lo < hi && Valid(intervals)
    ensures Swept(intervals, lo, hi, totals, evidence) && AllAscend(evidence)
  {
    var ordered := BoundaryPoints(lo, hi, intervals);
    FirstAndLast(lo, hi, intervals, ordered);
    totals, evidence := map[], map[];
    var index := 0;
    while index + 1 < |ordered|
      invariant 0 <= index < |ordered|
      invariant Swept(intervals, lo, ordered[index], totals, evidence)
    {
      totals, evidence := BookSegment(lo, hi, intervals, ordered, index, totals, evidence);
      index := index + 1;
    }
    evidence := SortEvidence(evidence);
  }

  /** The sweep's result does not depend on the order of the intervals, nor on map order. */
  lemma {:induction false} SweepIsDetermined(
      a: seq<Interval>, b: seq<Interval>, lo: int, hi: int, totals: map<Bucket, int>, evidence: map<Bucket, seq<string>>,
      totals': map<Bucket, int>, evidence': map<Bucket, seq<string>>, bucket: Bucket)
    requires forall i :: i in a <==> i in b
    requires Swept(a, lo, hi, totals, evidence) && AllAscend(evidence)
    requires Swept(b, lo, hi, totals', evidence') && AllAscend(evidence')
    ensures At(totals, bucket) == At(totals', bucket)
    ensures EvidenceAt(evidence, bucket) == EvidenceAt(evidence', bucket)
  {
    MeasureForgetsOrder(a, b, lo, hi, bucket);
    forall t ensures BucketAt(a, t) == BucketAt(b, t) {
      assert CategoriesAt(a, t) == CategoriesAt(b, t);
    }
    forall id ensures id in EvidenceAt(evidence, bucket) <==> id in EvidenceAt(evidence', bucket) {
      assert Seen(a, lo, hi, bucket, id) <==> Seen(b, lo, hi, bucket, id);
    }
    AscendingIsDetermined(EvidenceAt(evidence, bucket), EvidenceAt(evidence', bucket));
  }

  /** One turn of the sweep: the instants between two neighbouring boundary points. */
  method BookSegment(
      lo: int, hi: int, intervals: seq<Interval>, ordered: seq<int>, index: nat,
      before: map<Bucket, int>, evidenceBefore: map<Bucket, seq<string>>)
    returns (totals: map<Bucket, int>, evidence: map<Bucket, seq<string>>)
    requires lo < hi && Valid(intervals) && Boundaries(lo, hi, intervals, ordered) && index + 1 < |ordered|
    requires Swept(intervals, lo, ordered[index], before, evidenceBefore)
    ensures Swept(intervals, lo, ordered[index + 1], totals, evidence)
  {
    totals, evidence := before, evidenceBefore;
    var segStart, segEnd := ordered[index], ordered[index + 1];
    assert segStart in ordered && segEnd in ordered;
    if segEnd <= segStart || segStart < lo || segStart >= hi {
      assert false;
    } else {
      var categories := CoveringCategories(segStart, segEnd, intervals);
      SegmentIsBooked(lo, hi, intervals, ordered, index, segStart, segEnd, categories);
      NoBlankIds(intervals, segStart, segEnd, categories);
      totals, evidence := Book(intervals, lo, segStart, segEnd, before, evidenceBefore, categories);
    }
  }

  method Book(
      intervals: seq<Interval>, lo: int, mid: int, hi: int,
      before: map<Bucket, int>, evidenceBefore: map<Bucket, seq<string>>, categories: map<Category, seq<string>>)
    returns (totals: map<Bucket, int>, evidence: map<Bucket, seq<string>>)
    requires lo <= mid < hi && Swept(intervals, lo, mid, before, evidenceBefore)
    requires forall t :: mid <= t < hi ==> BucketAt(intervals, t) == BucketOf(categories.Keys)
    requires forall id :: AnyId(categories, id) <==> Seen(intervals, mid, hi, BucketOf(categories.Keys), id)
    requires forall b, id :: b != BucketOf(categories.Keys) ==> !Seen(intervals, mid, hi, b, id)
    requires forall c :: c in categories ==> "" !in categories[c]
    ensures Swept(intervals, lo, hi, totals, evidence)
  {
    totals, evidence := ApplySegment(before, evidenceBefore, hi - mid, categories);
    SweptStep(intervals, lo, mid, hi, before, evidenceBefore, totals, evidence, categories);
  }

  lemma {:induction false} NoBlankIds(intervals: seq<Interval>, lo: int, hi: int, categories: map<Category, seq<string>>)
    requires IsCovering(intervals, lo, hi, categories)
    ensures forall c :: c in categories ==> "" !in categories[c]
  {
    forall c | c in categories ensures "" !in categories[c] {
      assert categories[c] == Ids(categories, c);
      assert !Cites(intervals, lo, hi, c, "");
    }
  }

  lemma {:induction false} FirstAndLast(lo: int, hi: int, intervals: seq<Interval>, points: seq<int>)
    requires Boundaries(lo, hi, intervals, points)
    ensures |points| > 0 && points[0] == lo && points[|points| - 1] == hi
  {
    assert Ends(lo, hi, intervals, lo) && Ends(lo, hi, intervals, hi);
    var a :| 0 <= a < |points| && points[a] == lo;
    var z :| 0 <= z < |points| && points[z] == hi;
    assert points[0] in points && points[|points| - 1] in points;
  }

  lemma {:induction false} SweptStep(
      intervals: seq<Interval>, lo: int, mid: int, hi: int,
      totals: map<Bucket, int>, evidence: map<Bucket, seq<string>>,
      totals': map<Bucket, int>, evidence': map<Bucket, seq<string>>, categories: map<Category, seq<string>>)
    requires lo <= mid < hi && Swept(intervals, lo, mid, totals, evidence)
    requires forall t :: mid <= t < hi ==> BucketAt(intervals, t) == BucketOf(categories.Keys)
    requires forall id :: AnyId(categories, id) <==> Seen(intervals, mid, hi, BucketOf(categories.Keys), id)
    requires forall b, id :: b != BucketOf(categories.Keys) ==> !Seen(intervals, mid, hi, b, id)
    requires totals' == totals[BucketOf(categories.Keys) := At(totals, BucketOf(categories.Keys)) + (hi - mid)]
    requires forall q :: q != BucketOf(categories.Keys) ==> EvidenceAt(evidence', q) == EvidenceAt(evidence, q)
    requires forall id :: id in EvidenceAt(evidence', BucketOf(categories.Keys)) <==>
               id in EvidenceAt(evidence, BucketOf(categories.Keys)) || AnyId(categories, id)
    requires NoRepeats(EvidenceAt(evidence', BucketOf(categories.Keys)))
    ensures Swept(intervals, lo, hi, totals', evidence')
  {
    var bucket := BucketOf(categories.Keys);
    forall b ensures At(totals', b) == Measure(intervals, lo, hi, b) {
      MeasureSplit(intervals, lo, mid, hi, b);
      MeasureConstant(intervals, mid, hi, b, bucket);
    }
    forall b, id ensures id in EvidenceAt(evidence', b) <==> Seen(intervals, lo, hi, b, id) {
      SeenSplit(intervals, lo, mid, hi, b, id);
    }
  }

  // ---- milliseconds -----------------------------------------------------------

  const NS_PER_MS := 1000000

  const BUCKETS := [Only(Planning), Only(ToolCalls), Only(ModelGeneration), Only(UserWait), Overlap, Unclassified]

  lemma {:induction false} BucketListed(b: Bucket)
    ensures b in BUCKETS
  {
    assert BUCKETS[0] in BUCKETS && BUCKETS[1] in BUCKETS && BUCKETS[2] in BUCKETS;
    assert BUCKETS[3] in BUCKETS && BUCKETS[4] in BUCKETS && BUCKETS[5] in BUCKETS;
    match b
    case Only(c) => assert c == Planning || c == ToolCalls || c == ModelGeneration || c == UserWait;
    case _ =>
  }

  /** durationsToMilliseconds: each bucket floors, the rest of the window is unclassified. */
  method DurationsToMilliseconds(windowNs: int, totalsNs: map<Bucket, int>) returns (ms: map<Bucket, int>)
    requires windowNs >= 0 && forall b :: At(totalsNs, b) >= 0
    requires TotalOf(totalsNs) == windowNs
    ensures TotalOf(ms) == windowNs / NS_PER_MS
    ensures forall b :: At(ms, b) >= 0
    ensures forall b :: b != Unclassified ==> At(ms, b) == At(totalsNs, b) / NS_PER_MS
    ensures At(totalsNs, Unclassified) / NS_PER_MS <= At(ms, Unclassified) <= At(totalsNs, Unclassified) / NS_PER_MS + 5
  {
    var booked;
    ms, booked := FloorBuckets(totalsNs);
    BookedFits(totalsNs);
    var remainder := windowNs / NS_PER_MS - booked;
    if remainder > 0 {
      ms := ms[Unclassified := remainder];
    }
    FloorsAndRest(totalsNs, ms, remainder);
  }

  /** What is left of the window after the classified buckets. */
  lemma {:induction false} BookedFits(totalsNs: map<Bucket, int>)
    requires forall b :: At(totalsNs, b) >= 0
    ensures var rest := TotalOf(totalsNs) / NS_PER_MS - BookedIn(totalsNs, BUCKETS);
            At(totalsNs, Unclassified) / NS_PER_MS <= rest <= At(totalsNs, Unclassified) / NS_PER_MS + 5
  {
    BookedSum(totalsNs);
    FloorOfSum(At(totalsNs, Only(Planning)), At(totalsNs, Only(ToolCalls)), At(totalsNs, Only(ModelGeneration)),
               At(totalsNs, Only(UserWait)), At(totalsNs, Overlap), At(totalsNs, Unclassified));
  }

  lemma {:induction false} FloorsAndRest(totalsNs: map<Bucket, int>, ms: map<Bucket, int>, rest: int)
    requires forall b :: At(ms, b) == if b == Unclassified then rest else At(totalsNs, b) / NS_PER_MS
    ensures TotalOf(ms) == BookedIn(totalsNs, BUCKETS) + rest
  {
    BookedSum(totalsNs);
  }

  /** The whole milliseconds of the buckets in `keys`, unclassified excepted. */
  function BookedIn(totals: map<Bucket, int>, keys: seq<Bucket>): int {
    if keys == [] then 0
    else
      var last := keys[|keys| - 1];
      BookedIn(totals, keys[..|keys| - 1]) + if last == Unclassified then 0 else At(totals, last) / NS_PER_MS
  }

  method FloorBuckets(totalsNs: map<Bucket, int>) returns (ms: map<Bucket, int>, booked: int)
    requires forall b :: At(totalsNs, b) >= 0
    ensures booked == BookedIn(totalsNs, BUCKETS)
    ensures forall b :: At(ms, b) == if b == Unclassified then 0 else At(totalsNs, b) / NS_PER_MS
    ensures forall b :: At(ms, b) >= 0
  {
    ms, booked := map[], 0;
    for n := 0 to |BUCKETS|
      invariant booked == BookedIn(totalsNs, BUCKETS[..n])
      invariant forall b :: At(ms, b) ==
                  if b in BUCKETS[..n] && b != Unclassified then At(totalsNs, b) / NS_PER_MS else 0
    {
      var key := BUCKETS[n];
      assert BUCKETS[..n + 1] == BUCKETS[..n] + [key];
      if key != Unclassified {
        var value := At(totalsNs, key) / NS_PER_MS;
        if value > 0 {
          ms := ms[key := value];
          booked := booked + value;
        }
      }
    }
    assert BUCKETS[..|BUCKETS|] == BUCKETS;
    forall b: Bucket ensures b in BUCKETS && At(ms, b) >= 0 {
      BucketListed(b);
      assert At(totalsNs, b) >= 0;
    }
  }

  lemma {:induction false} BookedSum(totals: map<Bucket, int>)
    ensures BookedIn(totals, BUCKETS)
            == At(totals, Only(Planning)) / NS_PER_MS + At(totals, Only(ToolCalls)) / NS_PER_MS
               + At(totals, Only(ModelGeneration)) / NS_PER_MS + At(totals, Only(UserWait)) / NS_PER_MS
               + At(totals, Overlap) / NS_PER_MS
  {
    BookedNext(totals, 0);
    BookedNext(totals, 1);
    BookedNext(totals, 2);
    BookedNext(totals, 3);
    BookedNext(totals, 4);
    BookedNext(totals, 5);
    assert BUCKETS[..6] == BUCKETS;
  }

  lemma {:induction false} BookedNext(totals: map<Bucket, int>, n: nat)
    requires n < |BUCKETS|
    ensures BookedIn(totals, BUCKETS[..0]) == 0
    ensures BookedIn(totals, BUCKETS[..n + 1])
            == BookedIn(totals, BUCKETS[..n])
               + if BUCKETS[n] == Unclassified then 0 else At(totals, BUCKETS[n]) / NS_PER_MS
  {
    assert BUCKETS[..n + 1][..n] == BUCKETS[..n];
  }

  function TotalOf(totals: map<Bucket, int>): int {
    At(totals, Only(Planning)) + At(totals, Only(ToolCalls)) + At(totals, Only(ModelGeneration))
    + At(totals, Only(UserWait)) + At(totals, Overlap) + At(totals, Unclassified)
  }

  /** Flooring six parts separately loses less than six units. */
  lemma {:induction false} FloorOfSum(a: int, b: int, c: int, d: int, e: int, f: int)
    requires a >= 0 && b >= 0 && c >= 0 && d >= 0 && e >= 0 && f >= 0
    ensures var parts := a / NS_PER_MS + b / NS_PER_MS + c / NS_PER_MS + d / NS_PER_MS + e / NS_PER_MS;
            && parts + f / NS_PER_MS <= (a + b + c + d + e + f) / NS_PER_MS <= parts + f / NS_PER_MS + 5
  {}

  // ---- the result -------------------------------------------------------------

  datatype CategoryDuration = CategoryDuration(category: Category, ms: int, ids: seq<string>)

  datatype Result =
    | Unavailable(reason: string)
    | Available(windowMs: int, categories: seq<CategoryDuration>, overlap: Option<int>, unclassified: Option<int>,
                complete: bool, classifiedMs: int)

  function SumMs(categories: seq<CategoryDuration>): int {
    if categories == [] then 0 else SumMs(categories[..|categories| - 1]) + categories[|categories| - 1].ms
  }

  function OrZero(v: Option<int>): int {
    if v.Some? then v.value else 0
  }

  /** What the report promises: its parts are the window's milliseconds, and each
      listed duration is the floor of the exact measure of its bucket. */
  ghost predicate Honest(lo: int, hi: int, intervals: seq<Interval>, r: Result)
    requires r.Available?
  {
    && r.windowMs == (hi - lo) / NS_PER_MS
    && SumMs(r.categories) + OrZero(r.overlap) + OrZero(r.unclassified) == r.windowMs
    && r.classifiedMs == r.windowMs - OrZero(r.unclassified)
    && (forall c :: c in r.categories ==>
          c.ms > 0 && c.ms == Measure(intervals, lo, hi, Only(c.category)) / NS_PER_MS
          && Ascends(c.ids) && forall id :: id in c.ids <==> Seen(intervals, lo, hi, Only(c.category), id))
    && CategoriesOf(r.categories)
       == Shown((c: Category) => Measure(intervals, lo, hi, Only(c)) / NS_PER_MS, |ORDER|)
    && OrZero(r.overlap) == Measure(intervals, lo, hi, Overlap) / NS_PER_MS
    && (r.overlap.Some? ==> r.overlap.value > 0) && (r.unclassified.Some? ==> r.unclassified.value > 0)
  }

  const ORDER := [Planning, ToolCalls, ModelGeneration, UserWait]

  /** Calculate, from the observed window and the classified intervals. */
  method Calculate(window: Option<(int, int)>, intervals: seq<Interval>, sawInvalid: bool) returns (r: Result)
    requires Valid(intervals)
    ensures r.Available? <==> window.Some? && intervals != [] && window.value.1 - window.value.0 >= NS_PER_MS
    ensures r.Available? ==> Honest(window.value.0, window.value.1, intervals, r) && r.complete == !sawInvalid
  {
    if window.None? || window.value.1 <= window.value.0 {
      return Unavailable("observed session window has no positive duration");
    }
    if intervals == [] {
      return Unavailable("no valid classified intervals in retained session evidence");
    }
    var (lo, hi) := window.value;
    var totals, evidence := Segment(lo, hi, intervals);
    var windowMs := (hi - lo) / NS_PER_MS;
    if windowMs <= 0 {
      return Unavailable("observed session window has no positive duration");
    }
    BucketsPartition(intervals, lo, hi);
    var ms := DurationsToMilliseconds(hi - lo, totals);
    var categories := Categories(ms, evidence);
    AllFour(ms);
    SameShown(MsOf(ms), (c: Category) => Measure(intervals, lo, hi, Only(c)) / NS_PER_MS, |ORDER|);
    var overlap, unclassified := At(ms, Overlap), At(ms, Unclassified);
    r := Available(windowMs, categories,
                   if overlap > 0 then Some(overlap) else None,
                   if unclassified > 0 then Some(unclassified) else None,
                   !sawInvalid, SumMs(categories) + overlap);
  }

  function CategoriesOf(rows: seq<CategoryDuration>): seq<Category> {
    if rows == [] then [] else CategoriesOf(rows[..|rows| - 1]) + [rows[|rows| - 1].category]
  }

  /** Of the first `n` categories in display order, those with a positive duration. */
  function Shown(ms: Category -> int, n: nat): seq<Category>
    requires n <= |ORDER|
  {
    if n == 0 then []
    else Shown(ms, n - 1) + if ms(ORDER[n - 1]) > 0 then [ORDER[n - 1]] else []
  }

  function MsOf(ms: map<Bucket, int>): Category -> int {
    (c: Category) => At(ms, Only(c))
  }

  /** The category rows in display order, skipping empty ones. */
  method Categories(ms: map<Bucket, int>, evidence: map<Bucket, seq<string>>) returns (rows: seq<CategoryDuration>)
    requires forall b :: At(ms, b) >= 0
    ensures SumMs(rows) == PartialSum(ms, |ORDER|)
    ensures CategoriesOf(rows) == Shown(MsOf(ms), |ORDER|)
    ensures forall c :: c in rows ==>
              c.ms > 0 && c.ms == At(ms, Only(c.category)) && c.ids == EvidenceAt(evidence, Only(c.category))
  {
    rows := [];
    for n := 0 to |ORDER|
      invariant SumMs(rows) == PartialSum(ms, n)
      invariant CategoriesOf(rows) == Shown(MsOf(ms), n)
      invariant forall c :: c in rows ==>
                  c.ms > 0 && c.ms == At(ms, Only(c.category)) && c.ids == EvidenceAt(evidence, Only(c.category))
    {
      var value := At(ms, Only(ORDER[n]));
      if value > 0 {
        var row := CategoryDuration(ORDER[n], value, EvidenceAt(evidence, Only(ORDER[n])));
        assert (rows + [row])[..|rows|] == rows;
        rows := rows + [row];
      }
    }
  }

  function PartialSum(ms: map<Bucket, int>, n: nat): int
    requires n <= |ORDER|
  {
    if n == 0 then 0 else PartialSum(ms, n - 1) + At(ms, Only(ORDER[n - 1]))
  }

  lemma {:induction false} AllFour(ms: map<Bucket, int>)
    ensures PartialSum(ms, |ORDER|)
            == At(ms, Only(Planning)) + At(ms, Only(ToolCalls)) + At(ms, Only(ModelGeneration)) + At(ms, Only(UserWait))
  {
    assert PartialSum(ms, 0) == 0 && PartialSum(ms, 1) == At(ms, Only(ORDER[0]));
    assert PartialSum(ms, 2) == PartialSum(ms, 1) + At(ms, Only(ORDER[1]));
    assert PartialSum(ms, 3) == PartialSum(ms, 2) + At(ms, Only(ORDER[2]));
    assert PartialSum(ms, 4) == PartialSum(ms, 3) + At(ms, Only(ORDER[3]));
  }

  lemma {:induction false} SameShown(f: Category -> int, g: Category -> int, n: nat)
    requires n <= |ORDER| && forall c :: f(c) == g(c)
    ensures Shown(f, n) == Shown(g, n)
  {
    if n > 0 {
      SameShown(f, g, n - 1);
    }
  }
}
