/** The `/stats` aggregation: how many ratings were stored in the last seven
    days and their mean. */
module Stats {
  import opened Db

  const WindowDays: nat := 7

  /** `datetime.utcnow() - timedelta(days=7)`, the lower end of the window. */
  function WindowStart(now: Timestamp): Timestamp {
    now - WindowDays * SecondsPerDay
  }

  /** The `rating` column of some rows, in order. */
  function Ratings(rows: seq<FeedbackRecord>): (rs: seq<int>)
    ensures |rs| == |rows|
    ensures forall i :: 0 <= i < |rows| ==> rs[i] == rows[i].rating
  {
    if rows == [] then [] else [rows[0].rating] + Ratings(rows[1..])
  }

  function Sum(s: seq<int>): int {
    if s == [] then 0 else s[0] + Sum(s[1..])
  }

  /** The count and mean the bot reports. */
  datatype Summary = Summary(count: nat, average: real)

  /** `count = len(rows)` and `mean(...) if rows else 0`: the mean of the
      ratings, or 0 for an empty window instead of a division by zero. */
  function Summarize(ratings: seq<int>): (r: Summary)
    ensures r.count == |ratings|
    ensures r.count == 0 ==> r.average == 0.0
    ensures r.count > 0 ==> r.average * (r.count as real) == Sum(ratings) as real
  {
    if ratings == [] then Summary(0, 0.0)
    else Summary(|ratings|, Sum(ratings) as real / |ratings| as real)
  }

  lemma {:induction false} SumBounds(s: seq<int>, lo: int, hi: int)
    requires forall i :: 0 <= i < |s| ==> lo <= s[i] <= hi
    ensures lo * |s| <= Sum(s) <= hi * |s|
  {
    if s != [] {
      SumBounds(s[1..], lo, hi);
      assert lo * |s| == lo + lo * |s[1..]|;
      assert hi * |s| == hi + hi * |s[1..]|;
    }
  }

  /** When every rating lies in `lo..hi`, so does their mean. */
  lemma MeanWithin(ratings: seq<int>, lo: int, hi: int)
    requires |ratings| > 0
    requires forall i :: 0 <= i < |ratings| ==> lo <= ratings[i] <= hi
    ensures lo as real <= Summarize(ratings).average <= hi as real
  {
    SumBounds(ratings, lo, hi);
    var a := Summarize(ratings).average;
    MeanAbove(lo, Sum(ratings), |ratings|, a);
    MeanBelow(hi, Sum(ratings), |ratings|, a);
  }

  /** A mean `a` of `m` numbers summing to at least `lo * m` is at least `lo`. */
  lemma MeanAbove(lo: int, sum: int, m: int, a: real)
    requires m > 0 && lo * m <= sum && a * (m as real) == sum as real
    ensures lo as real <= a
  {
    RealOfProduct(lo, m);
    ScaleCancels(lo as real, a, m as real);
  }

  /** A mean `a` of `m` numbers summing to at most `hi * m` is at most `hi`. */
  lemma MeanBelow(hi: int, sum: int, m: int, a: real)
    requires m > 0 && sum <= hi * m && a * (m as real) == sum as real
    ensures a <= hi as real
  {
    RealOfProduct(hi, m);
    ScaleCancels(a, hi as real, m as real);
  }

  lemma RealOfProduct(x: int, y: int)
    ensures (x * y) as real == (x as real) * (y as real)
  {
  }

  /** Comparing two reals scaled by the same positive factor compares the reals. */
  lemma ScaleCancels(x: real, y: real, n: real)
    requires n > 0.0 && x * n <= y * n
    ensures x <= y
  {
    var d := y - x;
    assert d * n == y * n - x * n;
    assert d < 0.0 ==> d * n < 0.0;
  }

  /** What `/stats` reports for the table's rows at instant `now`. */
  function LastWeek(rows: seq<FeedbackRecord>, now: Timestamp): (r: Summary)
    ensures r.count <= |rows|
    ensures r.count == 0 ==> r.average == 0.0
  {
    Summarize(Ratings(Since(rows, WindowStart(now))))
  }

  /** The count is the number of distinct records created in the last seven
      days, and the mean is taken over exactly their ratings. */
  lemma LastWeekCountsWindow(rows: seq<FeedbackRecord>, now: Timestamp)
    requires IdsIncreasing(rows)
    ensures LastWeek(rows, now).count == |WindowIds(rows, WindowStart(now))|
    ensures LastWeek(rows, now).count > 0 ==>
      LastWeek(rows, now).average * (LastWeek(rows, now).count as real)
        == Sum(Ratings(Since(rows, WindowStart(now)))) as real
  {
    SinceCountsWindow(rows, WindowStart(now));
  }

  /** A record stored inside the window raises the count by one; one outside it
      leaves the report as it was. */
  lemma LastWeekAfterInsert(rows: seq<FeedbackRecord>, r: FeedbackRecord, now: Timestamp)
    ensures r.createdAt >= WindowStart(now) ==>
      LastWeek(rows + [r], now).count == LastWeek(rows, now).count + 1
    ensures r.createdAt < WindowStart(now) ==> LastWeek(rows + [r], now) == LastWeek(rows, now)
  {
    SinceAppend(rows, r, WindowStart(now));
    if r.createdAt < WindowStart(now) {
      assert Since(rows, WindowStart(now)) + [] == Since(rows, WindowStart(now));
    }
  }

  /** An empty table reports `(0, 0)`; two ratings 3 and 5 from the last week
      report `(2, 4.0)`. */
  lemma LastWeekExamples(now: Timestamp, a: FeedbackRecord, b: FeedbackRecord)
    requires a.rating == 3 && b.rating == 5
    requires a.createdAt >= WindowStart(now) && b.createdAt >= WindowStart(now)
    ensures LastWeek([], now) == Summary(0, 0.0)
    ensures LastWeek([a, b], now) == Summary(2, 4.0)
  {
    var w := WindowStart(now);
    assert [a, b][1..] == [b];
    assert Since([b], w) == [b];
    assert Since([a, b], w) == [a, b];
    assert Ratings([a, b]) == [3, 5];
    assert Sum([3, 5]) == 8;
  }
}
