// The number of positions covered by a list of half-open intervals, by sorting and sweeping.

module Coverage {
  import opened Basics

  datatype Interval = Interval(start: int, end: int)

  datatype Result = Length(value: int) | Crash

  // ----- the specification: the union as a set of positions

  predicate Covers(interval: Interval, sourceLength: int, x: int) {
    0 <= x < sourceLength && interval.start <= x < interval.end
  }

  predicate Within(x: int, from: int, to: int) { from <= x < to }

  function Positions(from: int, to: int): set<int> { set x | from <= x < to && Within(x, from, to) }

  predicate IsCovered(intervals: seq<Interval>, sourceLength: int, x: int) {
    exists i :: 0 <= i < |intervals| && Covers(intervals[i], sourceLength, x)
  }

  function Covered(intervals: seq<Interval>, sourceLength: int): set<int> {
    set x | 0 <= x < sourceLength && IsCovered(intervals, sourceLength, x)
  }

  lemma {:induction false} PositionsCount(from: int, to: int)
    ensures |Positions(from, to)| == Max(0, to - from)
    decreases Max(0, to - from)
  {
    if from < to {
      PositionsCount(from + 1, to);
      assert Positions(from, to) == {from} + Positions(from + 1, to);
    } else {
      assert Positions(from, to) == {};
    }
  }

  // ----- clipping, filtering and sorting

  function Clip(interval: Interval, sourceLength: int): Interval {
    Interval(Max(0, interval.start), Min(sourceLength, interval.end))
  }

  function Clipped(intervals: seq<Interval>, sourceLength: int): seq<Interval> {
    seq(|intervals|, i requires 0 <= i < |intervals| => Clip(intervals[i], sourceLength))
  }

  function NonEmpty(intervals: seq<Interval>): seq<Interval> {
    if intervals == [] then []
    else if intervals[0].end > intervals[0].start then [intervals[0]] + NonEmpty(intervals[1..])
    else NonEmpty(intervals[1..])
  }

  // A stable sort by start.
  function Insert(interval: Interval, sorted: seq<Interval>): seq<Interval> {
    if sorted == [] || interval.start <= sorted[0].start then [interval] + sorted
    else [sorted[0]] + Insert(interval, sorted[1..])
  }

  function SortByStart(intervals: seq<Interval>): seq<Interval> {
    if intervals == [] then [] else Insert(intervals[0], SortByStart(intervals[1..]))
  }

  predicate IsSorted(intervals: seq<Interval>) {
    forall i, j :: 0 <= i < j < |intervals| ==> intervals[i].start <= intervals[j].start
  }

  function Normalized(intervals: seq<Interval>, sourceLength: int): seq<Interval> {
    SortByStart(NonEmpty(Clipped(intervals, sourceLength)))
  }

  predicate AllProper(intervals: seq<Interval>) {
    forall i :: 0 <= i < |intervals| ==> intervals[i].start < intervals[i].end
  }

  lemma {:induction false} InsertHas(interval: Interval, sorted: seq<Interval>, x: Interval)
    ensures x in Insert(interval, sorted) <==> x == interval || x in sorted
  {
    if sorted != [] && interval.start > sorted[0].start {
      InsertHas(interval, sorted[1..], x);
    }
  }

  lemma {:induction false} InsertSorts(interval: Interval, sorted: seq<Interval>)
    requires IsSorted(sorted)
    ensures IsSorted(Insert(interval, sorted))
  {
    if sorted != [] && interval.start > sorted[0].start {
      var rest := Insert(interval, sorted[1..]);
      InsertSorts(interval, sorted[1..]);
      forall i | 0 <= i < |rest| ensures sorted[0].start <= rest[i].start {
        InsertHas(interval, sorted[1..], rest[i]);
      }
    }
  }

  lemma {:induction false} SortSorts(intervals: seq<Interval>)
    ensures IsSorted(SortByStart(intervals))
  {
    if intervals != [] {
      SortSorts(intervals[1..]);
      InsertSorts(intervals[0], SortByStart(intervals[1..]));
    }
  }

  lemma {:induction false} SortHas(intervals: seq<Interval>, x: Interval)
    ensures x in SortByStart(intervals) <==> x in intervals
  {
    if intervals != [] {
      SortHas(intervals[1..], x);
      InsertHas(intervals[0], SortByStart(intervals[1..]), x);
    }
  }

  lemma {:induction false} NonEmptyIs(intervals: seq<Interval>, x: Interval)
    ensures x in NonEmpty(intervals) <==> x in intervals && x.start < x.end
  {
    if intervals != [] {
      NonEmptyIs(intervals[1..], x);
    }
  }

  lemma NormalizedIs(intervals: seq<Interval>, sourceLength: int, x: Interval)
    ensures IsSorted(Normalized(intervals, sourceLength))
    ensures x in Normalized(intervals, sourceLength) <==>
      x.start < x.end && exists i :: 0 <= i < |intervals| && Clip(intervals[i], sourceLength) == x
  {
    var clipped := Clipped(intervals, sourceLength);
    SortSorts(NonEmpty(clipped));
    SortHas(NonEmpty(clipped), x);
    NonEmptyIs(clipped, x);
    if i :| 0 <= i < |intervals| && Clip(intervals[i], sourceLength) == x {
      assert clipped[i] == x;
    }
  }

  lemma NormalizedIsProper(intervals: seq<Interval>, sourceLength: int)
    ensures AllProper(Normalized(intervals, sourceLength)) && IsSorted(Normalized(intervals, sourceLength))
  {
    var normalized := Normalized(intervals, sourceLength);
    NormalizedIs(intervals, sourceLength, Interval(0, 0));
    forall i | 0 <= i < |normalized| ensures normalized[i].start < normalized[i].end {
      NormalizedIs(intervals, sourceLength, normalized[i]);
    }
  }

  // ----- sweeping

  // The positions of the first n intervals.
  function Union(intervals: seq<Interval>, n: nat): set<int>
    requires n <= |intervals|
  {
    if n == 0 then {} else Union(intervals, n - 1) + Positions(intervals[n - 1].start, intervals[n - 1].end)
  }

  lemma {:induction false} UnionIs(intervals: seq<Interval>, n: nat, x: int)
    requires n <= |intervals|
    ensures x in Union(intervals, n) <==> exists i :: 0 <= i < n && intervals[i].start <= x < intervals[i].end
  {
    if n > 0 {
      UnionIs(intervals, n - 1, x);
    }
  }

  // While sweeping, everything before `start` that is covered is counted, and the rest of what was
  // seen is one run of positions.
  ghost predicate SweptTo(intervals: seq<Interval>, n: nat, covered: int, start: int, end: int)
    requires n <= |intervals|
  {
    start < end
    && exists done: set<int> ::
      AllBelow(done, start) && |done| == covered && Union(intervals, n) == done + Positions(start, end)
  }

  predicate AllBelow(positions: set<int>, bound: int) { forall x :: x in positions ==> x < bound }

  lemma SweepFirst(intervals: seq<Interval>)
    requires intervals != [] && AllProper(intervals)
    ensures SweptTo(intervals, 1, 0, intervals[0].start, intervals[0].end)
  {
    var none: set<int> := {};
    assert Union(intervals, 0) == {};
    assert Union(intervals, 1) == none + Positions(intervals[0].start, intervals[0].end);
  }

  lemma PositionsJoin(from: int, to: int, next: int, end: int)
    requires from <= next <= to
    ensures Positions(from, to) + Positions(next, end) == Positions(from, Max(to, end))
  {
  }

  lemma SweepJoins(intervals: seq<Interval>, n: nat, covered: int, start: int, end: int)
    requires n < |intervals| && SweptTo(intervals, n, covered, start, end)
    requires start <= intervals[n].start <= end
    ensures SweptTo(intervals, n + 1, covered, start, Max(end, intervals[n].end))
  {
    var done: set<int> :| AllBelow(done, start) && |done| == covered && Union(intervals, n) == done + Positions(start, end);
    var next := Positions(intervals[n].start, intervals[n].end);
    PositionsJoin(start, end, intervals[n].start, intervals[n].end);
    UnionAssociates(done, Positions(start, end), next);
    SweptBy(intervals, n + 1, done, start, Max(end, intervals[n].end));
  }

  lemma UnionAssociates(a: set<int>, b: set<int>, c: set<int>)
    ensures (a + b) + c == a + (b + c)
  {
  }

  lemma SweptBy(intervals: seq<Interval>, n: nat, done: set<int>, start: int, end: int)
    requires n <= |intervals| && start < end && AllBelow(done, start)
    requires Union(intervals, n) == done + Positions(start, end)
    ensures SweptTo(intervals, n, |done|, start, end)
  {
  }

  lemma SweepSkips(intervals: seq<Interval>, n: nat, covered: int, start: int, end: int)
    requires n < |intervals| && AllProper(intervals) && SweptTo(intervals, n, covered, start, end)
    requires end < intervals[n].start
    ensures SweptTo(intervals, n + 1, covered + (end - start), intervals[n].start, intervals[n].end)
  {
    var done: set<int> :| AllBelow(done, start) && |done| == covered && Union(intervals, n) == done + Positions(start, end);
    var more := done + Positions(start, end);
    PositionsCount(start, end);
    assert done !! Positions(start, end);
    assert AllBelow(more, intervals[n].start);
    assert Union(intervals, n + 1) == more + Positions(intervals[n].start, intervals[n].end);
  }

  lemma SweepEnds(intervals: seq<Interval>, covered: int, start: int, end: int)
    requires SweptTo(intervals, |intervals|, covered, start, end)
    ensures |Union(intervals, |intervals|)| == covered + (end - start)
  {
    var done: set<int> :| AllBelow(done, start) && |done| == covered
                          && Union(intervals, |intervals|) == done + Positions(start, end);
    PositionsCount(start, end);
    assert done !! Positions(start, end);
  }

  lemma UnionIsCovered(intervals: seq<Interval>, sourceLength: int)
    ensures Union(Normalized(intervals, sourceLength), |Normalized(intervals, sourceLength)|) == Covered(intervals, sourceLength)
  {
    var normalized := Normalized(intervals, sourceLength);
    forall x ensures x in Union(normalized, |normalized|) <==> x in Covered(intervals, sourceLength) {
      UnionIs(normalized, |normalized|, x);
      if i :| 0 <= i < |normalized| && normalized[i].start <= x < normalized[i].end {
        NormalizedIs(intervals, sourceLength, normalized[i]);
        var j :| 0 <= j < |intervals| && Clip(intervals[j], sourceLength) == normalized[i];
        assert Covers(intervals[j], sourceLength, x);
      }
      if x in Covered(intervals, sourceLength) {
        var j :| 0 <= j < |intervals| && Covers(intervals[j], sourceLength, x);
        var c := Clip(intervals[j], sourceLength);
        NormalizedIs(intervals, sourceLength, c);
        var i :| 0 <= i < |normalized| && normalized[i] == c;
      }
    }
  }

  lemma NothingLeft(intervals: seq<Interval>, sourceLength: int)
    ensures Normalized(intervals, sourceLength) == [] <==> Covered(intervals, sourceLength) == {}
  {
    var normalized := Normalized(intervals, sourceLength);
    UnionIsCovered(intervals, sourceLength);
    NormalizedIsProper(intervals, sourceLength);
    if normalized != [] {
      UnionIs(normalized, |normalized|, normalized[0].start);
    }
  }

  // The promised result: the number of covered positions, and a crash when there are intervals but
  // none of them reaches into the source.
  function CoveredLength(intervals: seq<Interval>, sourceLength: int): Result {
    var covered := Covered(intervals, sourceLength);
    if intervals != [] && covered == {} then Crash else Length(|covered|)
  }

  /** The covered length is the number of positions of [0, sourceLength) that lie in an interval.
      It crashes exactly when there are intervals but none of them reaches into the source. */
  method GetCoveredLength(intervals: seq<Interval>, sourceLength: int) returns (r: Result)
    ensures r == CoveredLength(intervals, sourceLength)
    ensures r.Crash? <==> intervals != [] && Covered(intervals, sourceLength) == {}
    ensures r.Length? ==> r.value == |Covered(intervals, sourceLength)|
  {
    if |intervals| == 0 {
      assert Covered(intervals, sourceLength) == {};
      return Length(0);
    }
    var normalized := Normalized(intervals, sourceLength);
    NothingLeft(intervals, sourceLength);
    if |normalized| == 0 {
      return Crash;
    }
    NormalizedIsProper(intervals, sourceLength);
    UnionIsCovered(intervals, sourceLength);
    SweepFirst(normalized);
    var coveredLength := 0;
    var currentStart := normalized[0].start;
    var currentEnd := normalized[0].end;
    for index := 1 to |normalized|
      invariant SweptTo(normalized, index, coveredLength, currentStart, currentEnd)
      invariant currentStart <= normalized[index - 1].start
    {
      var Interval(start, end) := normalized[index];
      if start <= currentEnd {
        SweepJoins(normalized, index, coveredLength, currentStart, currentEnd);
        currentEnd := Max(currentEnd, end);
      } else {
        SweepSkips(normalized, index, coveredLength, currentStart, currentEnd);
        coveredLength := coveredLength + (currentEnd - currentStart);
        currentStart := start;
        currentEnd := end;
      }
    }
    SweepEnds(normalized, coveredLength, currentStart, currentEnd);
    coveredLength := coveredLength + (currentEnd - currentStart);
    r := Length(coveredLength);
  }

  /** Neither the order of the intervals nor repeating them matters, to the length or to the crash. */
  lemma OrderDoesNotMatter(a: seq<Interval>, b: seq<Interval>, sourceLength: int)
    requires forall x :: x in a <==> x in b
    ensures CoveredLength(a, sourceLength) == CoveredLength(b, sourceLength)
  {
    assert a == [] <==> b == [] by {
      assert (a != [] ==> a[0] in b) && (b != [] ==> b[0] in a);
    }
    forall x ensures IsCovered(a, sourceLength, x) <==> IsCovered(b, sourceLength, x) {
      if i :| 0 <= i < |a| && Covers(a[i], sourceLength, x) {
        assert a[i] in b;
      }
      if i :| 0 <= i < |b| && Covers(b[i], sourceLength, x) {
        assert b[i] in a;
      }
    }
    assert Covered(a, sourceLength) == Covered(b, sourceLength);
  }
}
