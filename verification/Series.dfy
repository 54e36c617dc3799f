/** Thinning a chart's series: readings averaged over fixed buckets of time. */
module Series {
  import opened Options
  import opened PythonMath
  import opened SortedSets

  /** One reading, at an instant in milliseconds. */
  datatype Reading = Reading(at: int, value: real)

  const MAX_POINTS := 720

  function Seconds(from: int, to: int): real {
    (to - from) as real / 1000.0
  }

  function Width(since: int, until: int, maxPoints: nat): (width: real)
    requires maxPoints > 0
    ensures width >= 1.0
  {
    var share := Seconds(since, until) / maxPoints as real;
    if share > 1.0 then share else 1.0
  }

  function Bucket(since: int, width: real, at: int): int
    requires width >= 1.0
  {
    FloorDivide(Seconds(since, at), width)
  }

  // ---------------------------------------------------------------- what the chart shows

  function Sum(points: seq<Reading>): real {
    if |points| == 0 then 0.0 else Sum(points[..|points| - 1]) + points[|points| - 1].value
  }

  function Mean(points: seq<Reading>): real
    requires |points| > 0
  {
    Sum(points) / |points| as real
  }

  /** The last reading's instant, and the mean rounded to one decimal. */
  function Summary(points: seq<Reading>): Reading
    requires |points| > 0
  {
    Reading(points[|points| - 1].at, PythonRound(Mean(points), 1))
  }

  function InBucket(series: seq<Reading>, since: int, width: real, index: int): seq<Reading>
    requires width >= 1.0
  {
    Filter((point: Reading) => Bucket(since, width, point.at) == index, series)
  }

  function Indices(series: seq<Reading>, since: int, width: real): (indices: set<int>)
    requires width >= 1.0
    ensures forall point | point in series :: Bucket(since, width, point.at) in indices
    ensures forall index | index in indices :: |InBucket(series, since, width, index)| > 0
  {
    set point | point in series :: Bucket(since, width, point.at)
  }

  /** The readings of each bucket that has any, buckets in ascending order. */
  ghost function Segments(series: seq<Reading>, since: int, width: real): (segments: seq<seq<Reading>>)
    requires width >= 1.0
    ensures forall i | 0 <= i < |segments| :: |segments[i]| > 0
  {
    var order := Ascending(Indices(series, since, width));
    AscendingMeans(Indices(series, since, width));
    seq(|order|, i requires 0 <= i < |order| => InBucket(series, since, width, order[i]))
  }

  ghost function Thinned(series: seq<Reading>, since: int, until: int, maxPoints: nat): seq<Reading>
    requires maxPoints > 0
  {
    if |series| <= maxPoints then series
    else
      var segments := Segments(series, since, Width(since, until, maxPoints));
      seq(|segments|, i requires 0 <= i < |segments| => Summary(segments[i]))
  }

  // ---------------------------------------------------------------- downsample

  ghost predicate Groups(buckets: map<int, seq<Reading>>, series: seq<Reading>, since: int, width: real)
    requires width >= 1.0
  {
    && buckets.Keys == Indices(series, since, width)
    && forall index | index in buckets :: buckets[index] == InBucket(series, since, width, index)
  }

  lemma GroupsGrow(buckets: map<int, seq<Reading>>, series: seq<Reading>, i: nat, since: int, width: real)
    requires width >= 1.0 && i < |series| && Groups(buckets, series[..i], since, width)
    ensures var index := Bucket(since, width, series[i].at);
            Groups(buckets[index := (if index in buckets then buckets[index] else []) + [series[i]]], series[..i + 1],
                   since, width)
  {
    assert series[..i + 1] == series[..i] + [series[i]];
    GroupedSnoc(series[..i], series[i], since, width);
    hide Bucket, InBucket, Indices;
    assert [] + [series[i]] == [series[i]];
  }

  lemma NoGroups(since: int, width: real)
    requires width >= 1.0
    ensures Groups(map[], [], since, width)
  {
  }

  method Grouped(series: seq<Reading>, since: int, width: real) returns (buckets: map<int, seq<Reading>>)
    requires width >= 1.0
    ensures Groups(buckets, series, since, width)
  {
    NoGroups(since, width);
    hide Groups, Bucket;
    buckets := map[];
    assert series[..0] == [];
    for i := 0 to |series|
      invariant Groups(buckets, series[..i], since, width)
    {
      GroupsGrow(buckets, series, i, since, width);
      var index := Bucket(since, width, series[i].at);
      var points := if index in buckets then buckets[index] else [];
      buckets := buckets[index := points + [series[i]]];
    }
    assert series[..|series|] == series;
  }

  method Summaries(buckets: map<int, seq<Reading>>, order: seq<int>) returns (points: seq<Reading>)
    requires forall i | 0 <= i < |order| :: order[i] in buckets && |buckets[order[i]]| > 0
    ensures |points| == |order| && forall i | 0 <= i < |order| :: points[i] == Summary(buckets[order[i]])
  {
    hide Summary;
    points := [];
    for i := 0 to |order|
      invariant |points| == i
      invariant forall k | 0 <= k < i :: points[k] == Summary(buckets[order[k]])
    {
      points := points + [Summary(buckets[order[i]])];
    }
  }

  method Downsample(series: seq<Reading>, since: int, until: int, maxPoints: nat := MAX_POINTS)
    returns (thinned: seq<Reading>)
    requires maxPoints > 0
    ensures thinned == Thinned(series, since, until, maxPoints)
  {
    if |series| <= maxPoints {
      return series;
    }
    hide InBucket, Indices, Summary, Width, Ascending;
    var width := Width(since, until, maxPoints);
    var buckets := Grouped(series, since, width);
    var order := SortedKeys(buckets.Keys);
    forall i | 0 <= i < |order| ensures order[i] in buckets && |buckets[order[i]]| > 0 {
      AscendingMeans(buckets.Keys);
      assert order[i] in order;
      assert |InBucket(series, since, width, order[i])| > 0;
    }
    thinned := Summaries(buckets, order);
  }

  /** One more reading goes to its own bucket, after what is there. */
  lemma GroupedSnoc(front: seq<Reading>, point: Reading, since: int, width: real)
    requires width >= 1.0
    ensures Indices(front + [point], since, width) == Indices(front, since, width) + {Bucket(since, width, point.at)}
    ensures forall index | index != Bucket(since, width, point.at) ::
              InBucket(front + [point], since, width, index) == InBucket(front, since, width, index)
    ensures var b := Bucket(since, width, point.at);
            InBucket(front + [point], since, width, b) == InBucket(front, since, width, b) + [point]
    ensures var b := Bucket(since, width, point.at);
            b !in Indices(front, since, width) ==> InBucket(front + [point], since, width, b) == [point]
  {
    hide Bucket;
    var b := Bucket(since, width, point.at);
    forall index
      ensures InBucket(front + [point], since, width, index)
              == InBucket(front, since, width, index) + if b == index then [point] else []
    {
      FilterSnoc((p: Reading) => Bucket(since, width, p.at) == index, front, point);
    }
    forall index | index != b
      ensures InBucket(front + [point], since, width, index) == InBucket(front, since, width, index)
    {
      assert InBucket(front, since, width, index) + [] == InBucket(front, since, width, index);
    }
    if |InBucket(front, since, width, b)| > 0 {
      var p := InBucket(front, since, width, b)[0];
      assert p in front && Bucket(since, width, p.at) == b;
    }
    assert forall p :: p in front + [point] <==> p in front || p == point;
  }

  // ---------------------------------------------------------------- a series in time order

  ghost predicate InOrder(series: seq<Reading>) {
    forall i, j | 0 <= i < j < |series| :: series[i].at < series[j].at
  }

  ghost predicate Within(series: seq<Reading>, since: int, until: int) {
    forall point | point in series :: since <= point.at <= until
  }

  function Flatten(segments: seq<seq<Reading>>): seq<Reading> {
    if |segments| == 0 then [] else Flatten(segments[..|segments| - 1]) + segments[|segments| - 1]
  }

  lemma BucketIsFloor(since: int, width: real, at: int)
    requires width >= 1.0
    ensures Bucket(since, width, at) == (Seconds(since, at) / width).Floor
  {
    FloorDivideIsFloor(Seconds(since, at), width);
  }

  lemma DivideMonotone(x: real, y: real, width: real)
    requires x <= y && width >= 1.0
    ensures x / width <= y / width
  {
    var d := y / width - x / width;
    assert d * width == y - x;
    assert d < 0.0 ==> d * width < 0.0;
  }

  lemma BucketsAscend(since: int, width: real, a: int, b: int)
    requires width >= 1.0 && a <= b
    ensures Bucket(since, width, a) <= Bucket(since, width, b)
  {
    BucketIsFloor(since, width, a);
    BucketIsFloor(since, width, b);
    DivideMonotone(Seconds(since, a), Seconds(since, b), width);
  }

  /** The buckets cut a series in time order into contiguous segments, none of it lost or repeated. */
  lemma {:induction false} SegmentsTileTheSeries(series: seq<Reading>, since: int, width: real)
    requires width >= 1.0 && InOrder(series)
    ensures Flatten(Segments(series, since, width)) == series
    decreases |series|
  {
    if |series| > 0 {
      var front, point := series[..|series| - 1], series[|series| - 1];
      var b := Bucket(since, width, point.at);
      assert series == front + [point];
      SegmentsTileTheSeries(front, since, width);
      GroupedSnoc(front, point, since, width);
      var indices := Indices(front, since, width);
      forall index | index in indices ensures index <= b {
        var earlier :| earlier in front && Bucket(since, width, earlier.at) == index;
        BucketsAscend(since, width, earlier.at, point.at);
      }
      LastSegmentGrows(front, point, since, width, b);
    }
  }

  lemma LastSegmentGrows(front: seq<Reading>, point: Reading, since: int, width: real, b: int)
    requires width >= 1.0 && b == Bucket(since, width, point.at)
    requires forall index | index in Indices(front, since, width) :: index <= b
    ensures Flatten(Segments(front + [point], since, width)) == Flatten(Segments(front, since, width)) + [point]
  {
    var indices := Indices(front, since, width);
    if b in indices {
      OldSegmentGrows(front, point, since, width, b);
    } else {
      NewSegment(front, point, since, width, b);
    }
  }

  lemma OldSegmentGrows(front: seq<Reading>, point: Reading, since: int, width: real, b: int)
    requires width >= 1.0 && b == Bucket(since, width, point.at) && b in Indices(front, since, width)
    requires forall index | index in Indices(front, since, width) :: index <= b
    ensures Flatten(Segments(front + [point], since, width)) == Flatten(Segments(front, since, width)) + [point]
  {
    hide Bucket, InBucket, Indices, Ascending, Flatten;
    GroupedSnoc(front, point, since, width);
    var indices := Indices(front, since, width);
    var before, after := Segments(front, since, width), Segments(front + [point], since, width);
    assert indices + {b} == indices && indices - {b} + {b} == indices;
    var order, last := Ascending(indices), |indices - {b}|;
    assert |order| == last + 1 && order[last] == b && forall i | 0 <= i < last :: order[i] != b by {
      AscendingSnoc(indices - {b}, b);
      AscendingMeans(indices - {b});
      assert forall i | 0 <= i < last :: order[i] in Ascending(indices - {b});
    }
    assert after == before[..last] + [before[last] + [point]];
    FlattenSnoc(before[..last], before[last] + [point]);
    FlattenSnoc(before[..last], before[last]);
    assert before == before[..last] + [before[last]];
  }

  lemma NewSegment(front: seq<Reading>, point: Reading, since: int, width: real, b: int)
    requires width >= 1.0 && b == Bucket(since, width, point.at) && b !in Indices(front, since, width)
    requires forall index | index in Indices(front, since, width) :: index <= b
    ensures Flatten(Segments(front + [point], since, width)) == Flatten(Segments(front, since, width)) + [point]
  {
    hide Bucket, InBucket, Indices, Ascending, Flatten;
    GroupedSnoc(front, point, since, width);
    var indices := Indices(front, since, width);
    var before, after := Segments(front, since, width), Segments(front + [point], since, width);
    AscendingSnoc(indices, b);
    var order, grown := Ascending(indices), Ascending(indices + {b});
    assert forall i | 0 <= i < |order| :: grown[i] == order[i] && order[i] != b by {
      AscendingMeans(indices);
      assert forall i | 0 <= i < |order| :: order[i] in order;
    }
    assert after == before + [[point]];
    FlattenSnoc(before, [point]);
  }

  lemma FlattenSnoc(segments: seq<seq<Reading>>, last: seq<Reading>)
    ensures Flatten(segments + [last]) == Flatten(segments) + last
  {
    assert (segments + [last])[..|segments|] == segments;
  }

  /** Readings averaged together are less than a bucket apart, so a longer hole stays a hole. */
  lemma AveragedReadingsAreClose(since: int, width: real, a: int, b: int)
    requires width >= 1.0 && Bucket(since, width, a) == Bucket(since, width, b)
    ensures -width < Seconds(a, b) < width
  {
    BucketIsFloor(since, width, a);
    BucketIsFloor(since, width, b);
    var x, y := Seconds(since, a), Seconds(since, b);
    assert -1.0 < y / width - x / width < 1.0;
    ScaledBack(x, y, width);
    assert Seconds(a, b) == y - x;
  }

  lemma ScaledBack(x: real, y: real, width: real)
    requires width >= 1.0 && -1.0 < y / width - x / width < 1.0
    ensures -width < y - x < width
  {
    var d := y / width - x / width;
    assert d * width == y - x;
    assert (1.0 - d) * width > 0.0 && (1.0 + d) * width > 0.0;
  }

  // ---------------------------------------------------------------- how many points

  lemma BucketsInWindow(since: int, until: int, maxPoints: nat, at: int)
    requires maxPoints > 0 && since <= at <= until
    ensures 0 <= Bucket(since, Width(since, until, maxPoints), at) <= maxPoints
    ensures at < until ==> Bucket(since, Width(since, until, maxPoints), at) < maxPoints
  {
    var width := Width(since, until, maxPoints);
    var whole, part := Seconds(since, until), Seconds(since, at);
    BucketIsFloor(since, width, at);
    WidthCovers(whole, maxPoints as real, width);
    QuotientBounds(part, whole, maxPoints as real, width);
  }

  lemma WidthCovers(whole: real, points: real, width: real)
    requires points > 0.0 && width >= whole / points
    ensures width * points >= whole
  {
    assert (whole / points) * points == whole;
  }

  lemma QuotientBounds(part: real, whole: real, points: real, width: real)
    requires width >= 1.0 && points > 0.0 && 0.0 <= part <= whole <= width * points
    ensures 0.0 <= part / width <= points
    ensures part < whole ==> part / width < points
  {
    var q := part / width;
    assert q * width == part;
    assert q < 0.0 ==> q * width < 0.0;
    assert q > points ==> q * width > points * width;
    assert q == points ==> q * width == points * width;
  }

  lemma ThinnedLength(series: seq<Reading>, since: int, until: int, maxPoints: nat)
    requires 0 < maxPoints < |series|
    ensures |Thinned(series, since, until, maxPoints)| == |Indices(series, since, Width(since, until, maxPoints))|
  {
    hide Width, Summary, Indices, InBucket, Ascending;
    AscendingMeans(Indices(series, since, Width(since, until, maxPoints)));
  }

  /** Some reading falls into the bucket. */
  ghost predicate Filled(series: seq<Reading>, since: int, width: real, index: int)
    requires width >= 1.0
  {
    exists point :: point in series && Bucket(since, width, point.at) == index
  }

  /**
   * Never more than one point over the limit, and over it exactly when the series is long enough to be
   * thinned and every bucket has a reading, the one past the last included: so only if a reading lands
   * on the end itself.
   */
  lemma ThinnedCount(series: seq<Reading>, since: int, until: int, maxPoints: nat)
    requires maxPoints > 0 && Within(series, since, until)
    ensures |Thinned(series, since, until, maxPoints)| <= maxPoints + 1
    ensures |Thinned(series, since, until, maxPoints)| > maxPoints
            <==> |series| > maxPoints
                 && forall index | 0 <= index <= maxPoints ::
                    Filled(series, since, Width(since, until, maxPoints), index)
    ensures |Thinned(series, since, until, maxPoints)| > maxPoints ==>
              exists point :: point in series && point.at == until
  {
    if |series| > maxPoints {
      ThinnedLength(series, since, until, maxPoints);
      hide Thinned, Indices, FloorDivide;
      forall point | point in series
        ensures 0 <= Bucket(since, Width(since, until, maxPoints), point.at) <= maxPoints
        ensures point.at < until ==> Bucket(since, Width(since, until, maxPoints), point.at) < maxPoints
      {
        BucketsInWindow(since, until, maxPoints, point.at);
      }
      hide Bucket, Width;
      BucketsFilled(series, since, Width(since, until, maxPoints), maxPoints);
      LastBucketEnds(series, since, until, maxPoints, Width(since, until, maxPoints));
    }
  }

  lemma LastBucketEnds(series: seq<Reading>, since: int, until: int, maxPoints: nat, width: real)
    requires width >= 1.0 && Within(series, since, until)
    requires forall point | point in series && point.at < until :: Bucket(since, width, point.at) < maxPoints
    ensures Filled(series, since, width, maxPoints) ==> exists point :: point in series && point.at == until
  {
    hide Bucket;
  }

  lemma BucketsFilled(series: seq<Reading>, since: int, width: real, maxPoints: nat)
    requires width >= 1.0 && forall point | point in series :: 0 <= Bucket(since, width, point.at) <= maxPoints
    ensures |Indices(series, since, width)| <= maxPoints + 1
    ensures |Indices(series, since, width)| > maxPoints
            <==> forall index | 0 <= index <= maxPoints :: Filled(series, since, width, index)
  {
    hide Bucket;
    var indices := Indices(series, since, width);
    AtMost(indices, maxPoints + 1);
    if index :| 0 <= index <= maxPoints && index !in indices {
      AtMost(indices + {index}, maxPoints + 1);
      assert !Filled(series, since, width, index);
    } else {
      AtLeast(indices, maxPoints + 1);
      forall index | 0 <= index <= maxPoints ensures Filled(series, since, width, index) {
        assert index in indices;
      }
    }
  }

  /** The limit can be passed by one: three readings, two of them wanted, the last on the end itself. */
  lemma OnePointOver(series: seq<Reading>)
    requires series == [Reading(0, 1.0), Reading(1000, 2.0), Reading(2000, 3.0)]
    ensures InOrder(series) && Within(series, 0, 2000) && |Thinned(series, 0, 2000, 2)| == 3
  {
    hide Width, Thinned, Indices;
    ThreePoints(series);
  }

  lemma ThreePoints(series: seq<Reading>)
    requires |series| == 3 && series[0].at == 0 && series[1].at == 1000 && series[2].at == 2000
    ensures |Thinned(series, 0, 2000, 2)| == 3
  {
    assert Width(0, 2000, 2) == 1.0;
    ThreeBuckets(series);
    ThinnedLength(series, 0, 2000, 2);
    hide Thinned, Indices, Width;
    assert |{0, 1, 2}| == 3;
  }

  lemma ThreeBuckets(series: seq<Reading>)
    requires |series| == 3 && series[0].at == 0 && series[1].at == 1000 && series[2].at == 2000
    ensures Indices(series, 0, 1.0) == {0, 1, 2}
  {
    BucketIsFloor(0, 1.0, 0);
    BucketIsFloor(0, 1.0, 1000);
    BucketIsFloor(0, 1.0, 2000);
    hide Bucket;
    assert forall point :: point in series <==> point == series[0] || point == series[1] || point == series[2];
  }

  /** Every point of a thinned chart names an instant that was really read, in the order they were. */
  lemma {:induction false} SegmentsEndInOrder(segments: seq<seq<Reading>>, i: nat, j: nat)
    requires forall k | 0 <= k < |segments| :: |segments[k]| > 0
    requires InOrder(Flatten(segments)) && i < j < |segments|
    ensures segments[i][|segments[i]| - 1].at < segments[j][|segments[j]| - 1].at
    ensures segments[i][|segments[i]| - 1] in Flatten(segments) && segments[j][|segments[j]| - 1] in Flatten(segments)
    decreases |segments|
  {
    var front, last := segments[..|segments| - 1], segments[|segments| - 1];
    var flat := Flatten(front);
    assert Flatten(segments) == flat + last;
    assert forall k | 0 <= k < |flat| :: (flat + last)[k] == flat[k];
    if j < |front| {
      SegmentsEndInOrder(front, i, j);
    } else {
      EndIsInside(front, i);
      var end := front[i][|front[i]| - 1];
      var k :| 0 <= k < |flat| && flat[k] == end;
      assert (flat + last)[|flat| + |last| - 1] == last[|last| - 1];
    }
  }

  lemma {:induction false} EndIsInside(segments: seq<seq<Reading>>, i: nat)
    requires i < |segments| && |segments[i]| > 0
    ensures segments[i][|segments[i]| - 1] in Flatten(segments)
    decreases |segments|
  {
    if i < |segments| - 1 {
      EndIsInside(segments[..|segments| - 1], i);
    }
  }

  lemma ThinnedInOrder(series: seq<Reading>, since: int, until: int, maxPoints: nat)
    requires maxPoints > 0 && InOrder(series)
    ensures InOrder(Thinned(series, since, until, maxPoints))
  {
    if |series| > maxPoints {
      var segments := Segments(series, since, Width(since, until, maxPoints));
      var thinned := Thinned(series, since, until, maxPoints);
      SegmentsTileTheSeries(series, since, Width(since, until, maxPoints));
      forall i, j | 0 <= i < j < |thinned| ensures thinned[i].at < thinned[j].at {
        SegmentsEndInOrder(segments, i, j);
      }
    }
  }

  // ---------------------------------------------------------------- what a point shows

  lemma {:induction false} SumConcat(first: seq<Reading>, rest: seq<Reading>)
    ensures Sum(first + rest) == Sum(first) + Sum(rest)
    decreases |rest|
  {
    if |rest| == 0 {
      assert first + rest == first;
    } else {
      var all := first + rest;
      assert all[..|all| - 1] == first + rest[..|rest| - 1] && all[|all| - 1] == rest[|rest| - 1];
      SumConcat(first, rest[..|rest| - 1]);
    }
  }

  /** The mean of a segment lies between any bounds of its readings, and of one reading is that reading. */
  lemma {:induction false} SumBetween(points: seq<Reading>, low: real, high: real)
    requires forall point | point in points :: low <= point.value <= high
    ensures |points| as real * low <= Sum(points) <= |points| as real * high
    decreases |points|
  {
    if |points| > 0 {
      var front, last := points[..|points| - 1], points[|points| - 1];
      assert last in points && forall point | point in front :: point in points;
      SumBetween(front, low, high);
      OneMoreBetween(|front|, Sum(front), last.value, low, high);
    }
  }

  lemma OneMoreBetween(n: nat, sum: real, value: real, low: real, high: real)
    requires n as real * low <= sum <= n as real * high && low <= value <= high
    ensures (n + 1) as real * low <= sum + value <= (n + 1) as real * high
  {
    assert (n + 1) as real == n as real + 1.0;
  }

  lemma MeanBetween(points: seq<Reading>, low: real, high: real)
    requires |points| > 0 && forall point | point in points :: low <= point.value <= high
    ensures low <= Mean(points) <= high
  {
    SumBetween(points, low, high);
    ShareBetween(Sum(points), |points| as real, low, high);
  }

  lemma ShareBetween(sum: real, n: real, low: real, high: real)
    requires n > 0.0 && n * low <= sum <= n * high
    ensures low <= sum / n <= high
  {
    var share := sum / n;
    assert share * n == sum;
    assert (share - low) * n >= 0.0 && (high - share) * n >= 0.0;
  }

  function SegmentSum(segments: seq<seq<Reading>>): real
    requires forall i | 0 <= i < |segments| :: |segments[i]| > 0
  {
    if |segments| == 0 then 0.0
    else SegmentSum(segments[..|segments| - 1])
         + |segments[|segments| - 1]| as real * Mean(segments[|segments| - 1])
  }

  lemma {:induction false} SegmentsSum(segments: seq<seq<Reading>>)
    requires forall i | 0 <= i < |segments| :: |segments[i]| > 0
    ensures SegmentSum(segments) == Sum(Flatten(segments))
    decreases |segments|
  {
    if |segments| > 0 {
      var front, last := segments[..|segments| - 1], segments[|segments| - 1];
      SegmentsSum(front);
      SumConcat(Flatten(front), last);
      assert |last| as real * Mean(last) == Sum(last);
    }
  }

  /** No reading is lost in the averages: the means, each as often as it has readings, add up to the series. */
  lemma MeansAddUp(series: seq<Reading>, since: int, width: real)
    requires width >= 1.0 && InOrder(series)
    ensures SegmentSum(Segments(series, since, width)) == Sum(series)
  {
    SegmentsTileTheSeries(series, since, width);
    SegmentsSum(Segments(series, since, width));
  }

  /** Each point of a thinned chart: its segment's last instant, and a value within half a tenth of its mean. */
  lemma PointsAreMeans(series: seq<Reading>, since: int, until: int, maxPoints: nat, i: nat)
    requires 0 < maxPoints < |series| && i < |Thinned(series, since, until, maxPoints)|
    ensures var segments := Segments(series, since, Width(since, until, maxPoints));
            var point := Thinned(series, since, until, maxPoints)[i];
            && |segments| == |Thinned(series, since, until, maxPoints)|
            && point.at == segments[i][|segments[i]| - 1].at
            && point.value == PythonRound(Mean(segments[i]), 1)
  {
    hide Segments, Width, PythonRound;
  }

  /** A bucket is a second, or as wide as it takes for the limit to span the window, and no wider. */
  lemma WidthIsLeast(since: int, until: int, maxPoints: nat)
    requires maxPoints > 0
    ensures var width := Width(since, until, maxPoints);
            && width * maxPoints as real >= (until - since) as real / 1000.0
            && (width == 1.0 || width * maxPoints as real == (until - since) as real / 1000.0)
  {
    var whole := (until - since) as real / 1000.0;
    assert (whole / maxPoints as real) * maxPoints as real == whole;
    WidthCovers(whole, maxPoints as real, Width(since, until, maxPoints));
  }
}
