/** The profile dashboard's recommendations (components/UserDashboard.tsx): the first
    five catalogue items when nothing has been watched; otherwise up to five unwatched
    items carrying the genre watched most often. */
module Dashboard {
  import opened Types
  import opened Lists
  import opened GenreChart

  function CountIn(flat: seq<string>): string -> int {
    g => Occurrences(flat, g)
  }

  /** The genres, most watched first, ties in the order they were first met. */
  function RankedGenres(watched: seq<ContentItem>): (r: seq<string>)
    ensures forall g :: g in r <==> g in AllGenres(watched)
    ensures NoDuplicates(r)
    ensures NonIncreasing(r, CountIn(AllGenres(watched)))
  {
    var flat := AllGenres(watched);
    SortDescMembers(Distinct(flat), CountIn(flat));
    SortDescNoDuplicates(Distinct(flat), CountIn(flat));
    SortDesc(Distinct(flat), CountIn(flat))
  }

  /** `Object.keys(watchedGenres).sort((a, b) => watchedGenres[b] - watchedGenres[a])[0]`:
      a genre of the watched items with no other watched genre counted more often;
      none when the watched items have no genres at all. */
  function FavouriteGenre(watched: seq<ContentItem>): (r: Option<string>)
    ensures r.None? <==> AllGenres(watched) == []
    ensures r.Some? ==> r.value in AllGenres(watched)
    ensures r.Some? ==> forall g :: g in AllGenres(watched) ==>
              Occurrences(AllGenres(watched), g) <= Occurrences(AllGenres(watched), r.value)
    ensures r.Some? ==>
              exists m :: 0 <= m < |Distinct(AllGenres(watched))|
                && Distinct(AllGenres(watched))[m] == r.value
                && forall k :: 0 <= k < m ==>
                     Occurrences(AllGenres(watched), Distinct(AllGenres(watched))[k])
                     < Occurrences(AllGenres(watched), r.value)
  {
    RankedMembers(watched);
    if |RankedGenres(watched)| == 0 then
      None
    else
      FirstRankedIsMost(watched);
      FirstRankedComesFirst(watched);
      Some(RankedGenres(watched)[0])
  }

  /** Ties go to the genre met first: every genre met before the first ranked one is
      counted strictly less often. */
  lemma FirstRankedComesFirst(watched: seq<ContentItem>)
    requires RankedGenres(watched) != []
    ensures exists m :: 0 <= m < |Distinct(AllGenres(watched))|
              && Distinct(AllGenres(watched))[m] == RankedGenres(watched)[0]
              && forall k :: 0 <= k < m ==>
                   Occurrences(AllGenres(watched), Distinct(AllGenres(watched))[k])
                   < Occurrences(AllGenres(watched), RankedGenres(watched)[0])
  {
    var flat := AllGenres(watched);
    var keys := Distinct(flat);
    var m := SortDescHeadIsFirstMax(keys, CountIn(flat));
    assert RankedGenres(watched) == SortDesc(keys, CountIn(flat));
    assert forall k :: 0 <= k < m ==> Occurrences(flat, keys[k]) < Occurrences(flat, RankedGenres(watched)[0]);
  }

  lemma RankedMembers(watched: seq<ContentItem>)
    ensures forall g :: g in RankedGenres(watched) <==> g in AllGenres(watched)
    ensures RankedGenres(watched) == [] <==> AllGenres(watched) == []
  {
    var flat := AllGenres(watched);
    SortDescMembers(Distinct(flat), CountIn(flat));
    if flat != [] {
      assert flat[0] in RankedGenres(watched);
    }
  }

  /** The first ranked genre is counted at least as often as any watched genre. */
  lemma FirstRankedIsMost(watched: seq<ContentItem>)
    requires RankedGenres(watched) != []
    ensures forall g :: g in AllGenres(watched) ==>
              Occurrences(AllGenres(watched), g) <= Occurrences(AllGenres(watched), RankedGenres(watched)[0])
  {
    var flat := AllGenres(watched);
    var ranked := RankedGenres(watched);
    RankedMembers(watched);
    forall g | g in flat ensures CountIn(flat)(g) <= CountIn(flat)(ranked[0]) {
      var k :| 0 <= k < |ranked| && ranked[k] == g;
      assert k == 0 || CountIn(flat)(ranked[0]) >= CountIn(flat)(ranked[k]);
    }
  }

  function WatchedIds(watched: seq<ContentItem>): set<int> {
    set i | 0 <= i < |watched| :: watched[i].id
  }

  function Unwatched(ids: set<int>): ContentItem -> bool {
    (m: ContentItem) => m.id !in ids
  }

  function HasGenre(g: string): ContentItem -> bool {
    (m: ContentItem) => g in m.genres
  }

  /** The unwatched items of the favourite genre, in catalogue order. */
  function Candidates(items: seq<ContentItem>, watched: seq<ContentItem>, g: string): seq<ContentItem> {
    Filter(Filter(items, Unwatched(WatchedIds(watched))), HasGenre(g))
  }

  /** The `recommendations` memo. */
  function Recommendations(items: seq<ContentItem>, watched: seq<ContentItem>): (r: seq<ContentItem>)
    ensures |r| <= 5
    ensures watched == [] ==> r == Take(items, 5)
    ensures IsSubsequence(r, items)
  {
    if watched == [] then
      PrefixIsSubsequence(items, Min(5, |items|));
      Take(items, 5)
    else match FavouriteGenre(watched)
      case None => []
      case Some(g) =>
        var unwatched := Filter(items, Unwatched(WatchedIds(watched)));
        FilterIsSubsequence(items, Unwatched(WatchedIds(watched)));
        TakeFilterIsSubsequence(unwatched, HasGenre(g), 5);
        SubsequenceTransitive(Take(Candidates(items, watched, g), 5), unwatched, items);
        Take(Candidates(items, watched, g), 5)
  }

  /** After some watching, no recommendation has been watched, every one carries the
      favourite genre, and fewer than five means no candidate was left out; when the
      watched items have no genre there are none. */
  lemma RecommendationsAfterWatching(items: seq<ContentItem>, watched: seq<ContentItem>)
    requires watched != []
    ensures var r := Recommendations(items, watched);
            && (forall i, w :: 0 <= i < |r| && 0 <= w < |watched| ==> r[i].id != watched[w].id)
            && (FavouriteGenre(watched).None? ==> r == [])
            && (FavouriteGenre(watched).Some? ==>
                  && (forall i :: 0 <= i < |r| ==> FavouriteGenre(watched).value in r[i].genres)
                  && (|r| < 5 ==> forall m :: (m in items && m.id !in WatchedIds(watched)
                                   && FavouriteGenre(watched).value in m.genres) ==> m in r))
  {
    var r := Recommendations(items, watched);
    if FavouriteGenre(watched).Some? {
      var g := FavouriteGenre(watched).value;
      var cands := Candidates(items, watched, g);
      forall i | 0 <= i < |r| ensures r[i].id !in WatchedIds(watched) && g in r[i].genres {
        assert r[i] == cands[i];
        assert cands[i] in Filter(items, Unwatched(WatchedIds(watched)));
      }
      forall i, w | 0 <= i < |r| && 0 <= w < |watched| ensures r[i].id != watched[w].id {
        assert watched[w].id in WatchedIds(watched);
      }
      if |r| < 5 {
        assert r == cands;
        forall m | m in items && m.id !in WatchedIds(watched) && g in m.genres ensures m in r {
          var k :| 0 <= k < |items| && items[k] == m;
          assert m in Filter(items, Unwatched(WatchedIds(watched)));
        }
      }
    }
  }

  predicate IsCandidate(m: ContentItem, watched: seq<ContentItem>, g: string) {
    m.id !in WatchedIds(watched) && g in m.genres
  }

  lemma CandidatesAppend(a: seq<ContentItem>, b: seq<ContentItem>, watched: seq<ContentItem>, g: string)
    ensures Candidates(a + b, watched, g) == Candidates(a, watched, g) + Candidates(b, watched, g)
  {
    var u := Unwatched(WatchedIds(watched));
    FilterAppend(a, b, u);
    FilterAppend(Filter(a, u), Filter(b, u), HasGenre(g));
  }

  lemma CandidateHead(s: seq<ContentItem>, watched: seq<ContentItem>, g: string)
    requires s != [] && IsCandidate(s[0], watched, g)
    ensures Candidates(s, watched, g) != [] && Candidates(s, watched, g)[0] == s[0]
  {
    var u := Unwatched(WatchedIds(watched));
    FilterCons(s, u);
    FilterCons(Filter(s, u), HasGenre(g));
  }

  /** A candidate with fewer than five candidates before it in the catalogue is
      recommended. */
  lemma ShownWhenFewBefore(items: seq<ContentItem>, watched: seq<ContentItem>, g: string, i: nat)
    requires i < |items| && IsCandidate(items[i], watched, g)
    requires |Candidates(items[..i], watched, g)| < 5
    ensures items[i] in Take(Candidates(items, watched, g), 5)
  {
    assert items == items[..i] + items[i..];
    CandidatesAppend(items[..i], items[i..], watched, g);
    CandidateHead(items[i..], watched, g);
    var n := |Candidates(items[..i], watched, g)|;
    assert Candidates(items, watched, g)[n] == items[i];
    assert Take(Candidates(items, watched, g), 5)[n] == items[i];
  }

  /** With five or more candidates before position i, every recommendation comes from
      before i. */
  lemma ShownComeBefore(items: seq<ContentItem>, watched: seq<ContentItem>, g: string, i: nat)
    requires i <= |items| && |Candidates(items[..i], watched, g)| >= 5
    ensures forall m :: m in Take(Candidates(items, watched, g), 5) ==> m in items[..i]
  {
    assert items == items[..i] + items[i..];
    CandidatesAppend(items[..i], items[i..], watched, g);
    var pre := Candidates(items[..i], watched, g);
    var u := Unwatched(WatchedIds(watched));
    forall m | m in Take(Candidates(items, watched, g), 5) ensures m in items[..i] {
      var t :| 0 <= t < 5 && t < |Take(Candidates(items, watched, g), 5)|
               && Take(Candidates(items, watched, g), 5)[t] == m;
      assert m == pre[t];
      assert m in Filter(items[..i], u);
    }
  }

  /** `.slice(0, 5)` keeps the first five candidates: a candidate is recommended whenever
      fewer than five candidates come before it, and, in a catalogue without repeated
      items, no candidate is passed over for a later one. */
  lemma RecommendationsAreFirstCandidates(items: seq<ContentItem>, watched: seq<ContentItem>)
    requires watched != []
    ensures FavouriteGenre(watched).Some? ==>
              var g := FavouriteGenre(watched).value;
              var r := Recommendations(items, watched);
              && (forall i :: (0 <= i < |items| && IsCandidate(items[i], watched, g)
                                && |Candidates(items[..i], watched, g)| < 5) ==> items[i] in r)
              && (NoDuplicates(items) ==>
                    forall i, j :: (0 <= i < j < |items| && items[j] in r
                                    && IsCandidate(items[i], watched, g)) ==> items[i] in r)
  {
    if FavouriteGenre(watched).Some? {
      var g := FavouriteGenre(watched).value;
      var r := Recommendations(items, watched);
      assert r == Take(Candidates(items, watched, g), 5);
      forall i | 0 <= i < |items| && IsCandidate(items[i], watched, g)
                 && |Candidates(items[..i], watched, g)| < 5
        ensures items[i] in r
      {
        ShownWhenFewBefore(items, watched, g, i);
      }
      if NoDuplicates(items) {
        forall i, j | 0 <= i < j < |items| && items[j] in r && IsCandidate(items[i], watched, g)
          ensures items[i] in r
        {
          if |Candidates(items[..i], watched, g)| < 5 {
            ShownWhenFewBefore(items, watched, g, i);
          } else {
            ShownComeBefore(items, watched, g, i);
            assert false;
          }
        }
      }
    }
  }

  /** The memo as the component computes it, with the tally filled in place. */
  method Recommend(items: seq<ContentItem>, watched: seq<ContentItem>) returns (r: seq<ContentItem>)
    ensures r == Recommendations(items, watched)
  {
    if |watched| == 0 {
      return Take(items, 5);
    }
    var names, counts := TallyGenres(watched);
    var byCount := (g: string) => if g in counts then counts[g] as int else 0;
    ghost var flat := AllGenres(watched);
    SortDescKeysAgree(names, byCount, CountIn(flat));
    var ranked := SortDesc(names, byCount);
    assert ranked == RankedGenres(watched);
    if |ranked| == 0 {
      return [];
    }
    var favourite := ranked[0];
    var ids := set i | 0 <= i < |watched| :: watched[i].id;
    r := Take(Filter(Filter(items, Unwatched(ids)), HasGenre(favourite)), 5);
  }
}
