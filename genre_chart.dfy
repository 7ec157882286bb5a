/** The genre tally of components/charts/GenreDoughnutChart.tsx (and of the dashboard's
    favourite genre): a count per genre over every item's genre list, the genres in the
    order they were first met, and the entries sorted by count, largest first. */
module GenreChart {
  import opened Types
  import opened Lists

  /** Every genre occurrence, item by item, in order. */
  function AllGenres(items: seq<ContentItem>): (r: seq<string>)
    ensures items == [] ==> r == []
  {
    if items == [] then [] else AllGenres(items[..|items| - 1]) + items[|items| - 1].genres
  }

  /** The number of times `g` occurs in `s`. */
  function Occurrences(s: seq<string>, g: string): (n: nat)
    ensures n > 0 <==> g in s
    ensures n <= |s|
  {
    if s == [] then 0
    else
      assert s == s[..|s| - 1] + [s[|s| - 1]];
      Occurrences(s[..|s| - 1], g) + (if s[|s| - 1] == g then 1 else 0)
  }

  /** The values of `s` in the order of their first occurrence, each once: the key order
      of an object filled in that order. */
  function Distinct(s: seq<string>): (r: seq<string>)
    ensures forall x :: x in r <==> x in s
    ensures NoDuplicates(r)
  {
    if s == [] then []
    else
      assert s == s[..|s| - 1] + [s[|s| - 1]];
      var d := Distinct(s[..|s| - 1]);
      if s[|s| - 1] in d then d else d + [s[|s| - 1]]
  }

  lemma StepDistinct(seen: seq<string>, g: string)
    ensures Distinct(seen + [g]) == if g in seen then Distinct(seen) else Distinct(seen) + [g]
  {
    assert (seen + [g])[..|seen|] == seen;
  }

  lemma StepOccurrences(seen: seq<string>, g: string, x: string)
    ensures Occurrences(seen + [g], x) == Occurrences(seen, x) + (if g == x then 1 else 0)
  {
    assert (seen + [g])[..|seen|] == seen;
  }

  /** `names` and `counts` are the keys, in insertion order, and the values of the
      accumulator after the genre occurrences `seen`. */
  ghost predicate Tallied(names: seq<string>, counts: map<string, nat>, seen: seq<string>) {
    && names == Distinct(seen)
    && (forall g :: g in counts <==> g in seen)
    && (forall g :: g in counts ==> counts[g] == Occurrences(seen, g))
  }

  /** One `acc[genre] = (acc[genre] || 0) + 1`. */
  lemma TallyStep(names: seq<string>, counts: map<string, nat>, seen: seq<string>, g: string)
    requires Tallied(names, counts, seen)
    ensures g in counts ==> Tallied(names, counts[g := counts[g] + 1], seen + [g])
    ensures g !in counts ==> Tallied(names + [g], counts[g := 1], seen + [g])
  {
    StepDistinct(seen, g);
    var next := if g in counts then counts[g := counts[g] + 1] else counts[g := 1];
    forall x | x in next ensures next[x] == Occurrences(seen + [g], x) {
      StepOccurrences(seen, g, x);
    }
    forall x ensures x in next <==> x in seen + [g] {
      assert x in seen + [g] <==> x in seen || x == g;
    }
  }

  /** The `forEach` over one item's genres. */
  method CountGenres(names0: seq<string>, counts0: map<string, nat>, ghost seen: seq<string>, genres: seq<string>)
    returns (names: seq<string>, counts: map<string, nat>)
    requires Tallied(names0, counts0, seen)
    ensures Tallied(names, counts, seen + genres)
  {
    names, counts := names0, counts0;
    var j := 0;
    assert seen + genres[..0] == seen;
    while j < |genres|
      invariant 0 <= j <= |genres|
      invariant Tallied(names, counts, seen + genres[..j])
    {
      var g := genres[j];
      assert seen + genres[..j + 1] == (seen + genres[..j]) + [g];
      TallyStep(names, counts, seen + genres[..j], g);
      if g in counts {
        counts := counts[g := counts[g] + 1];
      } else {
        counts := counts[g := 1];
        names := names + [g];
      }
      j := j + 1;
    }
    assert genres[..|genres|] == genres;
  }

  /** `items.reduce((acc, item) => { item.genres.forEach(...); return acc; }, {})`: the
      keys in insertion order and the count of every genre. */
  method TallyGenres(items: seq<ContentItem>) returns (names: seq<string>, counts: map<string, nat>)
    ensures names == Distinct(AllGenres(items))
    ensures forall g :: g in counts <==> g in AllGenres(items)
    ensures forall g :: g in counts ==> counts[g] == Occurrences(AllGenres(items), g)
  {
    names := [];
    counts := map[];
    var i := 0;
    while i < |items|
      invariant 0 <= i <= |items|
      invariant Tallied(names, counts, AllGenres(items[..i]))
    {
      assert items[..i + 1][..i] == items[..i];
      names, counts := CountGenres(names, counts, AllGenres(items[..i]), items[i].genres);
      i := i + 1;
    }
    assert items[..|items|] == items;
  }

  /** One entry of the chart. */
  datatype Slice = Slice(name: string, value: nat)

  function SliceValue(s: Slice): int {
    s.value
  }

  /** `Object.entries(counts).map(([name, value]) => ({ name, value }))`. */
  function Entries(names: seq<string>, flat: seq<string>): (r: seq<Slice>)
    ensures |r| == |names|
    ensures forall i :: 0 <= i < |names| ==> r[i] == Slice(names[i], Occurrences(flat, names[i]))
  {
    seq(|names|, i requires 0 <= i < |names| => Slice(names[i], Occurrences(flat, names[i])))
  }

  /** `genreData`: the entries sorted by count, largest first, ties in insertion order. */
  function GenreData(items: seq<ContentItem>): seq<Slice> {
    SortDesc(Entries(Distinct(AllGenres(items)), AllGenres(items)), SliceValue)
  }

  /** The memo as the component computes it. */
  method ChartData(items: seq<ContentItem>) returns (data: seq<Slice>)
    ensures data == GenreData(items)
  {
    var names, counts := TallyGenres(items);
    var entries := seq(|names|, i requires 0 <= i < |names| && names[i] in counts => Slice(names[i], counts[names[i]]));
    assert entries == Entries(Distinct(AllGenres(items)), AllGenres(items));
    data := SortDesc(entries, SliceValue);
  }

  /** Every genre that occurs is listed with its number of occurrences, nothing else is
      listed, no genre is listed twice, and the list runs from the largest count down. */
  lemma GenreDataShape(items: seq<ContentItem>)
    ensures var data := GenreData(items);
            && (forall i :: 0 <= i < |data| ==>
                  data[i].value == Occurrences(AllGenres(items), data[i].name) && data[i].value > 0)
            && (forall g :: g in AllGenres(items) <==> exists i :: 0 <= i < |data| && data[i].name == g)
            && (forall i, j :: 0 <= i < j < |data| ==> data[i].name != data[j].name)
            && (forall i, j :: 0 <= i < j < |data| ==> data[i].value >= data[j].value)
  {
    var flat := AllGenres(items);
    var names := Distinct(flat);
    var entries := Entries(names, flat);
    var data := GenreData(items);
    SortDescMembers(entries, SliceValue);
    assert NoDuplicates(entries);
    SortDescNoDuplicates(entries, SliceValue);
    forall i | 0 <= i < |data|
      ensures data[i].value == Occurrences(flat, data[i].name) && data[i].name in flat
    {
      assert data[i] in entries;
    }
    forall g | g in flat ensures exists i :: 0 <= i < |data| && data[i].name == g {
      var k :| 0 <= k < |names| && names[k] == g;
      assert entries[k] in data;
    }
    forall i, j | 0 <= i < j < |data| ensures data[i].name != data[j].name {
      assert data[i] != data[j];
    }
    forall i, j | 0 <= i < j < |data| ensures data[i].value >= data[j].value {
      assert SliceValue(data[i]) >= SliceValue(data[j]);
    }
  }

  /** Occurrences counted over the distinct values add up to the length. */
  lemma {:induction false} CountsAddUp(flat: seq<string>)
    ensures SumBy(Entries(Distinct(flat), flat), SliceValue) == |flat|
  {
    if flat != [] {
      var seen, g := flat[..|flat| - 1], flat[|flat| - 1];
      assert flat == seen + [g];
      CountsAddUp(seen);
      CountsStep(seen, g);
    }
  }

  /** One more occurrence of `g` adds one to the sum of the counts. */
  lemma {:induction false} CountsStep(seen: seq<string>, g: string)
    ensures SumBy(Entries(Distinct(seen + [g]), seen + [g]), SliceValue)
         == SumBy(Entries(Distinct(seen), seen), SliceValue) + 1
  {
    var flat := seen + [g];
    StepDistinct(seen, g);
    var before := Entries(Distinct(seen), seen);
    var after := Entries(Distinct(flat), flat);
    forall x ensures Occurrences(flat, x) == Occurrences(seen, x) + (if g == x then 1 else 0) {
      StepOccurrences(seen, g, x);
    }
    if g in seen {
      var k :| 0 <= k < |Distinct(seen)| && Distinct(seen)[k] == g;
      assert forall i :: 0 <= i < |before| && i != k ==> after[i].value == before[i].value by {
        forall i | 0 <= i < |before| && i != k ensures after[i].value == before[i].value {
          assert Distinct(seen)[i] != g;
        }
      }
      SumBump(before, after, k);
    } else {
      assert after == before + [Slice(g, 1)];
      SumByAppend(before, Slice(g, 1));
    }
  }

  lemma {:induction false} SumByAppend(s: seq<Slice>, x: Slice)
    ensures SumBy(s + [x], SliceValue) == SumBy(s, SliceValue) + x.value
  {
    if s != [] {
      assert (s + [x])[1..] == s[1..] + [x];
      SumByAppend(s[1..], x);
    }
  }

  /** Raising one entry's value by one raises the sum by one. */
  lemma {:induction false} SumBump(a: seq<Slice>, b: seq<Slice>, k: nat)
    requires |a| == |b| && k < |a|
    requires b[k].value == a[k].value + 1
    requires forall i :: 0 <= i < |a| && i != k ==> b[i].value == a[i].value
    ensures SumBy(b, SliceValue) == SumBy(a, SliceValue) + 1
  {
    if k == 0 {
      SumEqual(a[1..], b[1..]);
    } else {
      SumBump(a[1..], b[1..], k - 1);
    }
  }

  lemma {:induction false} SumEqual(a: seq<Slice>, b: seq<Slice>)
    requires |a| == |b| && forall i :: 0 <= i < |a| ==> b[i].value == a[i].value
    ensures SumBy(b, SliceValue) == SumBy(a, SliceValue)
  {
    if a != [] {
      SumEqual(a[1..], b[1..]);
    }
  }

  /** `total`: the values add up to the number of genre occurrences. */
  lemma GenreTotal(items: seq<ContentItem>)
    ensures SumBy(GenreData(items), SliceValue) == |AllGenres(items)|
  {
    var flat := AllGenres(items);
    SumBySortDesc(Entries(Distinct(flat), flat), SliceValue);
    CountsAddUp(flat);
  }

  /** The chart shows its "no data" text exactly when no item has a genre. */
  lemma GenreDataEmpty(items: seq<ContentItem>)
    ensures GenreData(items) == [] <==> forall i :: 0 <= i < |items| ==> items[i].genres == []
  {
    var flat := AllGenres(items);
    NoGenres(items);
    if flat != [] {
      assert flat[0] in Distinct(flat);
    }
  }

  lemma {:induction false} NoGenres(items: seq<ContentItem>)
    ensures AllGenres(items) == [] <==> forall i :: 0 <= i < |items| ==> items[i].genres == []
  {
    if items != [] {
      var init := items[..|items| - 1];
      NoGenres(init);
      assert forall i :: 0 <= i < |init| ==> init[i] == items[i];
    }
  }
}
