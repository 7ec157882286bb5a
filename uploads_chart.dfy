/** The monthly uploads chart of components/charts/UploadsBarChart.tsx: twelve buckets,
    January to December, counting the items uploaded in the current year by month, and
    the scale the bars are drawn against. */
module UploadsChart {
  import opened Types

  const MonthNames: seq<string> :=
    ["Jan", "Feb", "Mar", "Apr", "May", "Jun", "Jul", "Aug", "Sep", "Oct", "Nov", "Dec"]

  /** An item counts for month `m` of `year` when it has an upload date there. */
  predicate UploadedIn(item: ContentItem, year: int, m: int) {
    item.uploadDate.Some? && item.uploadDate.value.year == year && item.uploadDate.value.month == m
  }

  predicate UploadedInYear(item: ContentItem, year: int) {
    item.uploadDate.Some? && item.uploadDate.value.year == year
  }

  /** The number of items uploaded in month `m` of `year`. */
  function UploadsIn(items: seq<ContentItem>, year: int, m: int): nat {
    if items == [] then 0
    else UploadsIn(items[..|items| - 1], year, m) + (if UploadedIn(items[|items| - 1], year, m) then 1 else 0)
  }

  /** The number of items uploaded in `year`. */
  function UploadsInYear(items: seq<ContentItem>, year: int): nat {
    if items == [] then 0
    else UploadsInYear(items[..|items| - 1], year) + (if UploadedInYear(items[|items| - 1], year) then 1 else 0)
  }

  datatype Bar = Bar(name: string, value: nat)

  /** The `monthlyData` memo, with the current year as a parameter: `counts[month]++`
      for every item uploaded this year, then one bar per month name. */
  method MonthlyData(items: seq<ContentItem>, currentYear: int) returns (data: seq<Bar>)
    ensures |data| == 12
    ensures forall m :: 0 <= m < 12 ==> data[m] == Bar(MonthNames[m], UploadsIn(items, currentYear, m))
  {
    var counts := new nat[12](_ => 0);
    var i := 0;
    while i < |items|
      invariant 0 <= i <= |items|
      invariant forall m :: 0 <= m < 12 ==> counts[m] == UploadsIn(items[..i], currentYear, m)
    {
      var item := items[i];
      assert items[..i + 1][..i] == items[..i];
      if item.uploadDate.Some? && item.uploadDate.value.year == currentYear {
        var month := item.uploadDate.value.month;
        counts[month] := counts[month] + 1;
      }
      i := i + 1;
    }
    assert items[..|items|] == items;
    var c := counts[..];
    data := seq(12, m requires 0 <= m < 12 => Bar(MonthNames[m], c[m]));
  }

  /** The bar values summed over the first `k` months. */
  function SumMonths(items: seq<ContentItem>, year: int, k: nat): nat
    requires k <= 12
  {
    if k == 0 then 0 else SumMonths(items, year, k - 1) + UploadsIn(items, year, k - 1)
  }

  lemma {:induction false} SumMonthsStep(items: seq<ContentItem>, year: int, k: nat)
    requires items != [] && k <= 12
    ensures var last := items[|items| - 1];
            SumMonths(items, year, k)
              == SumMonths(items[..|items| - 1], year, k)
                 + (if UploadedInYear(last, year) && last.uploadDate.value.month < k then 1 else 0)
  {
    if k > 0 {
      SumMonthsStep(items, year, k - 1);
    }
  }

  /** The twelve bars add up to the number of items uploaded this year. */
  lemma {:induction false} BarsAddUp(items: seq<ContentItem>, year: int)
    ensures SumMonths(items, year, 12) == UploadsInYear(items, year)
  {
    if items != [] {
      BarsAddUp(items[..|items| - 1], year);
      SumMonthsStep(items, year, 12);
    } else {
      NoItemsNoBars(year, 12);
    }
  }

  lemma {:induction false} NoItemsNoBars(year: int, k: nat)
    requires k <= 12
    ensures SumMonths([], year, k) == 0
  {
    if k > 0 {
      NoItemsNoBars(year, k - 1);
    }
  }

  /** `Math.max(...values, 1)`. */
  function MaxValue(values: seq<nat>): (r: nat)
    ensures r >= 1
    ensures forall i :: 0 <= i < |values| ==> values[i] <= r
    ensures r == 1 || exists i :: 0 <= i < |values| && values[i] == r
  {
    if values == [] then 1
    else
      var rest := MaxValue(values[1..]);
      if values[0] >= rest then values[0] else rest
  }
}
