/** The title search of components/SearchScreen.tsx: an empty query shows every item;
    otherwise the items whose lowercased title contains the lowercased query, in
    catalogue order. */
module Search {
  import opened Types
  import opened Text
  import opened Lists

  function Matcher(query: string): ContentItem -> bool {
    (m: ContentItem) => Contains(ToLower(m.title), ToLower(query))
  }

  /** The `filteredItems` memo. */
  function Filtered(items: seq<ContentItem>, query: string): (r: seq<ContentItem>)
    ensures query == "" ==> r == items
    ensures IsSubsequence(r, items)
    ensures query != "" ==> forall i :: 0 <= i < |r| ==> Contains(ToLower(r[i].title), ToLower(query))
    ensures query != "" ==> forall i ::
              (0 <= i < |items| && Contains(ToLower(items[i].title), ToLower(query))) ==> items[i] in r
  {
    if query == "" then
      PrefixIsSubsequence(items, |items|);
      assert items[..|items|] == items;
      items
    else
      FilterIsSubsequence(items, Matcher(query));
      Filter(items, Matcher(query))
  }

  /** An item is found exactly when the lowercased query occurs at some position of
      its lowercased title. */
  lemma FoundIffOccurs(items: seq<ContentItem>, query: string, m: ContentItem)
    requires query != "" && m in items
    ensures m in Filtered(items, query) <==>
              exists i :: OccursAt(ToLower(m.title), ToLower(query), i)
  {
    ContainsIffOccurs(ToLower(m.title), ToLower(query));
  }

  /** Queries that differ only in letter case find the same items. */
  lemma CaseInsensitive(items: seq<ContentItem>, q1: string, q2: string)
    requires ToLower(q1) == ToLower(q2)
    ensures Filtered(items, q1) == Filtered(items, q2)
  {
    if q1 != "" {
      FilterAgree(items, Matcher(q1), Matcher(q2));
    }
  }
}
