/** The dashboard's recent-uploads table (components/RecentUploadsTable.tsx): the five
    most recently uploaded items, newest first, and the confirmed delete. */
module RecentUploads {
  import opened Types
  import opened Lists

  /** `new Date(item.uploadDate || 0).getTime()`: an item without a date counts as
      uploaded at time 0. */
  function UploadTime(item: ContentItem): int {
    if item.uploadDate.Some? then item.uploadDate.value.time else 0
  }

  /** `[...items].sort((a, b) => time(b) - time(a)).slice(0, 5)`: the copy is sorted, the
      input is a value and stays as it is. */
  function RecentItems(items: seq<ContentItem>): (r: seq<ContentItem>)
    ensures |r| == Min(5, |items|)
    ensures NonIncreasing(r, UploadTime)
    ensures forall x :: x in r ==> x in items
    ensures multiset(r) <= multiset(items)
    ensures |items| <= 5 ==> multiset(r) == multiset(items)
  {
    var sorted := SortDesc(items, UploadTime);
    SortDescMembers(items, UploadTime);
    var r := Take(sorted, 5);
    assert forall i, j :: 0 <= i < j < |r| ==> r[i] == sorted[i] && r[j] == sorted[j];
    TakeSubMultiset(sorted, 5);
    r
  }

  /** Nothing left out of the table is newer than anything in it. */
  lemma OmittedAreOlder(items: seq<ContentItem>)
    ensures forall x, y :: x in RecentItems(items) && y in items && y !in RecentItems(items) ==>
              UploadTime(y) <= UploadTime(x)
  {
    var sorted := SortDesc(items, UploadTime);
    var n := Min(5, |items|);
    var r := RecentItems(items);
    assert r == sorted[..n];
    SortDescMembers(items, UploadTime);
    PrefixDominates(sorted, UploadTime, n);
    forall x, y | x in r && y in items && y !in r ensures UploadTime(y) <= UploadTime(x) {
      assert y in sorted;
      assert sorted == sorted[..n] + sorted[n..];
      assert y in sorted[n..];
    }
  }

  /** The delete button: the item's id is forwarded only once the dialog is confirmed. */
  function DeleteClick(item: ContentItem, confirmed: bool): (r: Option<int>)
    ensures r.Some? <==> confirmed
    ensures r.Some? ==> r.value == item.id
  {
    if confirmed then Some(item.id) else None
  }
}
