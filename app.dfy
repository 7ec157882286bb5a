/** The application shell of App.tsx: the role-based router, the move-to-front history
    lists, the wishlist set, the content a save writes, the rating write, the derived
    lists the pages show, and the application state with its handlers. Backend calls
    appear as success flags and as the values they return. */
module App {
  import opened Types
  import opened Text
  import opened Lists
  import opened Rating
  import UploadForm

  // ----- routing -----

  /** Whether a session in `role` may see `page`: the upload form and the dashboard
      need an administrator, the profile and the wishlist need a signed-in session. */
  predicate Allowed(page: Page, role: Role) {
    match page
    case Upload => role == Administrator
    case AdminDashboard => role == Administrator
    case Profile => role != Unauthenticated
    case Wishlist => role != Unauthenticated
    case _ => true
  }

  datatype RouteResult = GoTo(page: Page) | AskToSignIn

  /** `handleViewChange`: a view the role may see is shown as asked; the upload form or
      the dashboard asked for without administrator rights leads home; the profile or
      wishlist asked for without a session raises the sign-in dialog instead. */
  function Route(view: Page, role: Role): (r: RouteResult)
    ensures r == GoTo(view) <==> Allowed(view, role)
    ensures r.GoTo? ==> Allowed(r.page, role)
    ensures r.AskToSignIn? <==> (view == Profile || view == Wishlist) && role == Unauthenticated
    ensures r.GoTo? && r.page != view ==>
              r.page == Home && (view == Upload || view == AdminDashboard) && role != Administrator
  {
    if (view == Upload || view == AdminDashboard) && role != Administrator then GoTo(Home)
    else if (view == Profile || view == Wishlist) && role == Unauthenticated then AskToSignIn
    else GoTo(view)
  }

  /** Where `handleGoHome` leads: the dashboard for an administrator, home otherwise. */
  function HomeFor(role: Role): (p: Page)
    ensures Allowed(p, role)
    ensures p == AdminDashboard <==> role == Administrator
    ensures p != AdminDashboard ==> p == Home
  {
    if role == Administrator then AdminDashboard else Home
  }

  // ----- history lists and the wishlist -----

  function Other(id: int): int -> bool {
    x => x != id
  }

  /** `[id, ...prev.filter(x => x !== id)]`: the id once, at the front, and every other
      id in its previous order. */
  function MoveToFront(ids: seq<int>, id: int): (r: seq<int>)
    ensures |r| >= 1 && r[0] == id
    ensures id !in r[1..]
    ensures forall x :: x in r <==> x == id || x in ids
    ensures IsSubsequence(r[1..], ids)
    ensures multiset(r) == multiset(ids)[id := 1]
  {
    FilterIsSubsequence(ids, Other(id));
    FilterOtherMultiset(ids, id);
    var rest := Filter(ids, Other(id));
    assert ([id] + rest)[1..] == rest;
    assert multiset([id] + rest) == multiset{id} + multiset(rest);
    [id] + rest
  }

  /** Dropping an id keeps every other id as often as it occurred. */
  lemma {:induction false} FilterOtherMultiset(ids: seq<int>, id: int)
    ensures multiset(Filter(ids, Other(id))) == multiset(ids)[id := 0]
  {
    if ids != [] {
      FilterCons(ids, Other(id));
      FilterOtherMultiset(ids[1..], id);
      assert ids == [ids[0]] + ids[1..];
    }
  }

  /** Recording the same id twice in a row changes nothing the second time. */
  lemma MoveToFrontIdempotent(ids: seq<int>, id: int)
    ensures MoveToFront(MoveToFront(ids, id), id) == MoveToFront(ids, id)
  {
    var r := MoveToFront(ids, id);
    var rest := Filter(ids, Other(id));
    assert r[1..] == rest;
    assert Filter(r, Other(id)) == Filter(rest, Other(id));
    FilterKeepsAll(rest, Other(id));
  }

  /** A history without repeated ids stays without repeated ids. */
  lemma MoveToFrontNoDuplicates(ids: seq<int>, id: int)
    requires NoDuplicates(ids)
    ensures NoDuplicates(MoveToFront(ids, id))
  {
    var rest := Filter(ids, Other(id));
    FilterNoDuplicates(ids, Other(id));
    var r := MoveToFront(ids, id);
    assert r[1..] == rest;
    forall i, j | 0 <= i < j < |r| ensures r[i] != r[j] {
      if i == 0 {
        assert r[j] == rest[j - 1];
      } else {
        assert r[i] == rest[i - 1] && r[j] == rest[j - 1];
      }
    }
  }

  /** The wishlist toggle: exactly that id changes membership. */
  function Toggle(ws: set<int>, id: int): (r: set<int>)
    ensures id in r <==> id !in ws
    ensures forall x :: x != id ==> (x in r <==> x in ws)
  {
    if id in ws then ws - {id} else ws + {id}
  }

  /** Toggling twice restores the wishlist. */
  lemma ToggleTwice(ws: set<int>, id: int)
    ensures Toggle(Toggle(ws, id), id) == ws
  {
    var t := Toggle(Toggle(ws, id), id);
    assert forall x :: x in t <==> x in ws;
  }

  // ----- looking content up -----

  function HasId(id: int): ContentItem -> bool {
    (m: ContentItem) => m.id == id
  }

  /** The position at which `items.find(m => m.id === id)` stops: the first item with that
      id. */
  function ContentIndex(items: seq<ContentItem>, id: int): (r: Option<nat>)
    ensures r.Some? ==> r.value < |items| && items[r.value].id == id
    ensures r.Some? ==> forall j :: 0 <= j < r.value ==> items[j].id != id
    ensures r.None? <==> forall j :: 0 <= j < |items| ==> items[j].id != id
  {
    FirstIndex(items, HasId(id))
  }

  /** `items.find(m => m.id === id)`: the first item with that id. */
  function FindContent(items: seq<ContentItem>, id: int): (r: Option<ContentItem>)
    ensures r.Some? ==> r.value in items && r.value.id == id
    ensures r.None? <==> forall j :: 0 <= j < |items| ==> items[j].id != id
  {
    match ContentIndex(items, id)
    case Some(i) => Some(items[i])
    case None => None
  }

  lemma ContentIndexAt(items: seq<ContentItem>, id: int, i: nat)
    requires i < |items| && items[i].id == id
    requires forall j :: 0 <= j < i ==> items[j].id != id
    ensures ContentIndex(items, id) == Some(i)
  {
    assert ContentIndex(items, id).Some?;
  }

  function Known(items: seq<ContentItem>): int -> bool {
    id => FindContent(items, id).Some?
  }

  /** `ids.map(id => items.find(m => m.id === id)).filter(Boolean)`: the items of a
      history, in the history's order, skipping ids no longer in the catalogue. */
  function HistoryItems(ids: seq<int>, items: seq<ContentItem>): (r: seq<ContentItem>)
    ensures |r| == |Filter(ids, Known(items))|
    ensures forall i :: 0 <= i < |r| ==>
              Some(r[i]) == FindContent(items, Filter(ids, Known(items))[i])
  {
    if ids == [] then []
    else
      var rest := HistoryItems(ids[1..], items);
      match FindContent(items, ids[0])
      case Some(c) =>
        HistoryCons(ids, items, c, rest);
        [c] + rest
      case None =>
        HistorySkip(ids, items);
        rest
  }

  /** A history whose first id is gone from the catalogue shows the items of the rest. */
  lemma HistorySkip(ids: seq<int>, items: seq<ContentItem>)
    requires ids != [] && FindContent(items, ids[0]).None?
    ensures Filter(ids, Known(items)) == Filter(ids[1..], Known(items))
  {
    FilterCons(ids, Known(items));
    assert !Known(items)(ids[0]);
  }

  /** A history whose first id is still in the catalogue shows that item, then the
      items of the rest of the history. */
  lemma HistoryCons(ids: seq<int>, items: seq<ContentItem>, c: ContentItem, rest: seq<ContentItem>)
    requires ids != [] && FindContent(items, ids[0]) == Some(c)
    requires |rest| == |Filter(ids[1..], Known(items))|
    requires forall i :: 0 <= i < |rest| ==>
               Some(rest[i]) == FindContent(items, Filter(ids[1..], Known(items))[i])
    ensures |[c] + rest| == |Filter(ids, Known(items))|
    ensures forall i :: 0 <= i < |[c] + rest| ==>
              Some(([c] + rest)[i]) == FindContent(items, Filter(ids, Known(items))[i])
  {
    var known := Filter(ids[1..], Known(items));
    FilterCons(ids, Known(items));
    assert Known(items)(ids[0]);
    assert Filter(ids, Known(items)) == [ids[0]] + known;
    ConsShift(c, rest);
    ConsShift(ids[0], known);
  }

  /** `items.filter(m => wishlistIds.has(m.id))`. */
  function Wishlisted(items: seq<ContentItem>, ws: set<int>): (r: seq<ContentItem>)
    ensures IsSubsequence(r, items)
    ensures forall i :: 0 <= i < |r| ==> r[i].id in ws
    ensures forall i :: 0 <= i < |items| && items[i].id in ws ==> items[i] in r
  {
    FilterIsSubsequence(items, (m: ContentItem) => m.id in ws);
    Filter(items, (m: ContentItem) => m.id in ws)
  }

  // ----- saving content -----

  /** The upload data an item was saved from. */
  function UploadOf(item: ContentItem): ContentUploadData {
    match item
    case Movie(_, title, posterUrl, _, _, _, duration, genres, description, _, releaseYear,
               fileName, fileSize, _, trailerUrl, fileUrl) =>
      MovieUpload(title, posterUrl, duration, genres, description, releaseYear,
                  fileName, fileSize, trailerUrl, fileUrl)
    case Show(_, title, posterUrl, _, _, _, genres, description, _, releaseYear, _,
              trailerUrl, seasons) =>
      ShowUpload(title, posterUrl, genres, description, releaseYear, trailerUrl, seasons)
  }

  /** The row `handleSaveContent` writes, under the id the backend stores it with: the
      upload data with no cast, the poster as hero image, the save time as upload
      date, and no ratings. */
  function StoredItem(data: ContentUploadData, id: int, now: UploadDate): (item: ContentItem)
    ensures UploadOf(item) == data
    ensures item.id == id && item.Kind() == data.Kind()
    ensures item.cast == [] && item.heroUrl == data.posterUrl && item.uploadDate == Some(now)
    ensures item.rating == 0.0 && item.ratings == []
  {
    match data
    case MovieUpload(title, posterUrl, duration, genres, description, releaseYear,
                     fileName, fileSize, trailerUrl, fileUrl) =>
      Movie(id, title, posterUrl, posterUrl, 0.0, [], duration, genres, description, [],
            releaseYear, fileName, fileSize, Some(now), trailerUrl, fileUrl)
    case ShowUpload(title, posterUrl, genres, description, releaseYear, trailerUrl, seasons) =>
      Show(id, title, posterUrl, posterUrl, 0.0, [], genres, description, [], releaseYear,
           Some(now), trailerUrl, seasons)
  }

  /** `if (existingId) contentToSave.id = existingId`: an id of 0 is falsy and is not
      sent. */
  function SaveId(existingId: Option<int>): (r: Option<int>)
    ensures r.Some? <==> existingId.Some? && existingId.value != 0
    ensures r.Some? ==> r == existingId
  {
    if existingId.Some? && existingId.value != 0 then existingId else None
  }

  /** The catalogue once the upsert is fetched back (newest first): a row with the sent
      id is replaced where it stands; otherwise the new row, under the sent id or the
      one the backend assigns, comes first. */
  function Upserted(items: seq<ContentItem>, data: ContentUploadData, existingId: Option<int>,
                    freshId: int, now: UploadDate): (r: seq<ContentItem>)
    ensures StoredItem(data, SavedId(existingId, freshId), now) in r
    ensures |items| <= |r| <= |items| + 1
  {
    match SaveId(existingId)
    case Some(id) =>
      (match ContentIndex(items, id)
       case Some(i) =>
         assert items[i := StoredItem(data, id, now)][i] == StoredItem(data, id, now);
         items[i := StoredItem(data, id, now)]
       case None => [StoredItem(data, id, now)] + items)
    case None => [StoredItem(data, freshId, now)] + items
  }

  /** The id a save ends up under. */
  function SavedId(existingId: Option<int>, freshId: int): int {
    if SaveId(existingId).Some? then SaveId(existingId).value else freshId
  }

  /** After a save the catalogue holds the saved row under its id, every other id
      finds what it found before, and the catalogue grows by at most one row. */
  lemma UpsertedFindsSaved(items: seq<ContentItem>, data: ContentUploadData, existingId: Option<int>,
                           freshId: int, now: UploadDate, other: int)
    ensures var r := Upserted(items, data, existingId, freshId, now);
            var id := SavedId(existingId, freshId);
            && FindContent(r, id) == Some(StoredItem(data, id, now))
            && (other != id ==> FindContent(r, other) == FindContent(items, other))
            && |items| <= |r| <= |items| + 1
  {
    var id := SavedId(existingId, freshId);
    var stored := StoredItem(data, id, now);
    if SaveId(existingId).Some? && ContentIndex(items, id).Some? {
      ReplacedFinds(items, ContentIndex(items, id).value, stored, other);
    } else {
      PrependedFinds(items, stored, other);
    }
  }

  /** A row replaced where the first row of its id stood is found under that id, and
      nothing else moves. */
  lemma ReplacedFinds(items: seq<ContentItem>, i: nat, stored: ContentItem, other: int)
    requires ContentIndex(items, stored.id) == Some(i)
    ensures FindContent(items[i := stored], stored.id) == Some(stored)
    ensures other != stored.id ==> FindContent(items[i := stored], other) == FindContent(items, other)
  {
    var r := items[i := stored];
    ContentIndexAt(r, stored.id, i);
    if other != stored.id {
      match ContentIndex(items, other)
      case Some(k) =>
        ContentIndexAt(r, other, k);
      case None =>
        assert forall j :: 0 <= j < |r| ==> r[j].id != other;
    }
  }

  /** A row put in front is the one found under its id, and nothing else moves. */
  lemma PrependedFinds(items: seq<ContentItem>, stored: ContentItem, other: int)
    ensures FindContent([stored] + items, stored.id) == Some(stored)
    ensures other != stored.id ==> FindContent([stored] + items, other) == FindContent(items, other)
  {
    var r := [stored] + items;
    ContentIndexAt(r, stored.id, 0);
    if other != stored.id {
      match ContentIndex(items, other)
      case Some(k) =>
        ContentIndexAt(r, other, k + 1);
      case None =>
        assert forall j :: 0 <= j < |r| ==> r[j].id != other;
    }
  }

  /** Saving an edited item again rewrites its upload data but also its bookkeeping:
      the ratings and the aggregate go back to nothing, the cast is emptied, the hero
      image becomes the poster and the upload date becomes the save time. */
  lemma EditResetsRatings(item: ContentItem, now: UploadDate)
    ensures StoredItem(UploadOf(item), item.id, now)
         == item.(rating := 0.0, ratings := [], cast := [], heroUrl := item.posterUrl,
                  uploadDate := Some(now))
  {
  }

  /** An item as the upload form can reproduce it: title, description and poster set,
      genres as the field writes them, a non-zero release year, no empty links, and
      every episode complete. */
  predicate Editable(item: ContentItem) {
    && item.title != "" && item.description != "" && item.posterUrl != ""
    && (forall i :: 0 <= i < |item.genres| ==> UploadForm.Genre(item.genres[i]))
    && item.releaseYear.Some? && item.releaseYear.value != 0
    && (item.trailerUrl.Some? ==> item.trailerUrl.value != "")
    && (item.Movie? && item.fileUrl.Some? ==> item.fileUrl.value != "")
    && (item.Show? ==> UploadForm.AllEpisodesReady(item.seasons))
  }

  /** Opening an item in the upload form and submitting it unchanged saves the very
      upload data it came from, under its own id. */
  lemma EditRoundTrip(item: ContentItem, currentYear: int)
    requires Editable(item)
    ensures UploadForm.Submit(UploadForm.EditDraft(item), currentYear)
         == UploadForm.Accepted(UploadOf(item), Some(item.id))
  {
    if item.Movie? {
      EditRoundTripMovie(item, currentYear);
    } else {
      EditRoundTripShow(item, currentYear);
    }
  }

  lemma EditRoundTripMovie(item: ContentItem, currentYear: int)
    requires Editable(item) && item.Movie?
    ensures UploadForm.Submit(UploadForm.EditDraft(item), currentYear)
         == UploadForm.Accepted(UploadOf(item), Some(item.id))
  {
    var d := UploadForm.EditDraft(item);
    UploadForm.ParseJoinedGenres(item.genres);
    assert d.kind == MovieKind && d.title != "" && d.description != "";
    assert d.posterPreview == Some(item.posterUrl) && d.editing == Some(item);
    assert UploadForm.EditedId(d) == Some(item.id);
    assert UploadForm.ParseGenres(d.genresText) == item.genres;
    assert UploadForm.ReleaseYear(d.editing, currentYear) == item.releaseYear.value;
    assert UploadForm.MovieFileName(d) == item.fileName;
    assert UploadForm.MovieFileSize(d) == item.fileSize;
    assert d.trailerUrl == item.trailerUrl && d.movieFileUrl == item.fileUrl;
    assert d.duration == item.duration;
    var data := MovieUpload(item.title, item.posterUrl, item.duration, item.genres,
                            item.description, item.releaseYear, item.fileName,
                            item.fileSize, item.trailerUrl, item.fileUrl);
    UploadForm.SubmitAcceptsMovie(d, currentYear);
    assert UploadOf(item) == data;
  }

  lemma EditRoundTripShow(item: ContentItem, currentYear: int)
    requires Editable(item) && item.Show?
    ensures UploadForm.Submit(UploadForm.EditDraft(item), currentYear)
         == UploadForm.Accepted(UploadOf(item), Some(item.id))
  {
    var d := UploadForm.EditDraft(item);
    UploadForm.ParseJoinedGenres(item.genres);
    assert d.kind == ShowKind && d.title != "" && d.description != "";
    assert d.posterPreview == Some(item.posterUrl) && d.editing == Some(item);
    assert UploadForm.EditedId(d) == Some(item.id);
    assert UploadForm.ParseGenres(d.genresText) == item.genres;
    assert UploadForm.ReleaseYear(d.editing, currentYear) == item.releaseYear.value;
    assert d.trailerUrl == item.trailerUrl && d.seasons == item.seasons;
    assert UploadForm.AllEpisodesReady(d.seasons);
    var data := ShowUpload(item.title, item.posterUrl, item.genres, item.description,
                           item.releaseYear, item.trailerUrl, item.seasons);
    UploadForm.SubmitAcceptsShow(d, currentYear);
    assert UploadOf(item) == data;
  }

  // ----- the rating write -----

  /** What `handleRateContent` writes: the merged entries and their mean. */
  datatype RatingWrite = RatingWrite(ratings: seq<RatingEntry>, rating: real)

  /** `handleRateContent` before its backend call: nothing without a user or without an
      item of that id; otherwise the user's entry merged into the item's entries,
      which then hold the new rating, and their mean. */
  function PlanRating(items: seq<ContentItem>, user: Option<User>, contentId: int, newRating: int)
    : (r: Option<RatingWrite>)
    ensures r.Some? <==> user.Some? && FindContent(items, contentId).Some?
    ensures r.Some? ==>
              && |r.value.ratings| >= 1
              && r.value.rating == Average(r.value.ratings)
              && RatingOf(r.value.ratings, user.value.id) == Some(newRating)
              && r.value.ratings == Merge(FindContent(items, contentId).value.ratings, user.value.id, newRating)
  {
    if user.None? then None
    else match FindContent(items, contentId)
      case None => None
      case Some(c) =>
        var merged := Merge(c.ratings, user.value.id, newRating);
        MergeThenRatingOf(c.ratings, user.value.id, newRating);
        Some(RatingWrite(merged, Average(merged)))
  }

  /** The catalogue once the rating write is fetched back: the rows with that id carry
      the new entries and mean, and everything else is unchanged. */
  function WithRatings(items: seq<ContentItem>, contentId: int, w: RatingWrite): (r: seq<ContentItem>)
    ensures |r| == |items|
    ensures forall i :: 0 <= i < |items| && items[i].id != contentId ==> r[i] == items[i]
    ensures forall i :: 0 <= i < |items| && items[i].id == contentId ==>
              r[i] == items[i].(ratings := w.ratings, rating := w.rating)
  {
    seq(|items|, i requires 0 <= i < |items| =>
      if items[i].id == contentId then items[i].(ratings := w.ratings, rating := w.rating) else items[i])
  }

  // ----- the session -----

  /** `process.env.X || fallback`. */
  function EnvOr(env: Option<string>, fallback: string): (r: string)
    ensures Present(env) ==> r == env.value
    ensures !Present(env) ==> r == fallback
  {
    if Present(env) then env.value else fallback
  }

  /** The user `fetchUserProfile` builds from the sign-in identity and the profile row
      (username and image), if there is one; without a row the username is the part of
      the email before '@', or "New User" when that is empty. */
  function ProfileUser(authId: string, email: Option<string>, row: Option<(string, Option<string>)>)
    : (u: User)
    ensures u.id == authId && u.email == email
    ensures row.Some? ==> u.username == row.value.0 && u.profileImageUrl == row.value.1
    ensures row.None? ==> u.profileImageUrl.None? && u.username != "" && '@' !in u.username
    ensures row.None? && email.None? ==> u.username == "New User"
  {
    match row
    case Some((username, image)) => User(authId, email, username, image)
    case None =>
      var local := if email.Some? then Split(email.value, '@')[0] else "";
      User(authId, email, if local != "" then local else "New User", None)
  }

  /** Without a profile row, an e-mail `a@b` gives the name `a`, the text before its first
      '@', or "New User" when that text is empty. */
  lemma ProfileNameFromEmail(authId: string, a: string, b: string)
    requires '@' !in a
    ensures ProfileUser(authId, Some(a + "@" + b), None).username
              == (if a == "" then "New User" else a)
  {
    SplitAtFirstSeparator(a, '@', b);
  }

  /** Without a profile row, an e-mail with no '@' in it is the name itself. */
  lemma ProfileNameWithoutAt(authId: string, email: string)
    requires email != "" && '@' !in email
    ensures ProfileUser(authId, Some(email), None).username == email
  {
    SplitWithoutSeparator(email, '@');
  }

  const AdminUser := User("admin-id", Some("admin@cinevault.app"), "Admin", None)

  const VideoUnavailable := "Video content not available."
  const SaveFailed := "Failed to save content."

  /** What the player is showing. */
  datatype PlayTarget = PlayTarget(url: string, title: string)

  /** The state of `App`. */
  class AppState {
    var currentUser: Option<User>
    var role: Role
    var contentItems: seq<ContentItem>
    var watchHistory: seq<int>
    var downloadHistory: seq<int>
    var wishlist: set<int>
    var page: Page
    var selectedContentId: Option<int>
    var contentToEdit: Option<ContentItem>
    var contentToPlay: Option<PlayTarget>
    var showAuthModal: bool
    var showAdminLogin: bool
    /** The alerts raised, in order. */
    var alerts: seq<string>

    /** A role other than unauthenticated goes with a user, and without a user there
        are no wishlist or histories. */
    ghost predicate Valid()
      reads this
    {
      && (currentUser.None? <==> role == Unauthenticated)
      && (currentUser.None? ==> wishlist == {} && watchHistory == [] && downloadHistory == [])
    }

    /** The page on show is one the role may see. */
    ghost predicate PageAllowed()
      reads this
    {
      Allowed(page, role)
    }

    constructor()
      ensures Valid() && PageAllowed()
      ensures currentUser.None? && role == Unauthenticated && contentItems == []
      ensures page == Home && selectedContentId.None? && contentToEdit.None? && contentToPlay.None?
      ensures !showAuthModal && !showAdminLogin && alerts == []
    {
      currentUser := None;
      role := Unauthenticated;
      contentItems := [];
      watchHistory := [];
      downloadHistory := [];
      wishlist := {};
      page := Home;
      selectedContentId := None;
      contentToEdit := None;
      contentToPlay := None;
      showAuthModal := false;
      showAdminLogin := false;
      alerts := [];
    }

    /** `fetchContent`: the rows replace the catalogue when the query succeeds. */
    method ContentFetched(ok: bool, rows: seq<ContentItem>)
      requires Valid()
      modifies this`contentItems
      ensures Valid()
      ensures contentItems == if ok then rows else old(contentItems)
    {
      if ok {
        contentItems := rows;
      }
    }

    /** A session appeared and its profile was read: a regular user is signed in. */
    method SessionStarted(user: User)
      requires Valid()
      modifies this`currentUser, this`role
      ensures Valid()
      ensures currentUser == Some(user) && role == RegularUser
    {
      currentUser := Some(user);
      role := RegularUser;
    }

    /** The session went away: no user, and (through the user-data effect) no
        wishlist or histories. */
    method SessionEnded()
      requires Valid()
      modifies this`currentUser, this`role, this`wishlist, this`watchHistory, this`downloadHistory
      ensures Valid()
      ensures currentUser.None? && role == Unauthenticated
    {
      currentUser := None;
      role := Unauthenticated;
      wishlist := {};
      watchHistory := [];
      downloadHistory := [];
    }

    /** The user-data effect's three queries: each list that came back replaces the
        one held. */
    method UserDataLoaded(ws: Option<set<int>>, watched: Option<seq<int>>, downloaded: Option<seq<int>>)
      requires Valid() && currentUser.Some?
      modifies this`wishlist, this`watchHistory, this`downloadHistory
      ensures Valid()
      ensures wishlist == if ws.Some? then ws.value else old(wishlist)
      ensures watchHistory == if watched.Some? then watched.value else old(watchHistory)
      ensures downloadHistory == if downloaded.Some? then downloaded.value else old(downloadHistory)
    {
      if ws.Some? {
        wishlist := ws.value;
      }
      if watched.Some? {
        watchHistory := watched.value;
      }
      if downloaded.Some? {
        downloadHistory := downloaded.value;
      }
    }

    /** `handleViewChange`. */
    method ViewChange(view: Page)
      requires Valid()
      modifies this`page, this`showAuthModal
      ensures Valid()
      ensures Route(view, role).GoTo? ==> page == Route(view, role).page && showAuthModal == old(showAuthModal)
      ensures Route(view, role).AskToSignIn? ==> page == old(page) && showAuthModal
      ensures Allowed(view, role) ==> page == view
      ensures old(PageAllowed()) ==> PageAllowed()
    {
      match Route(view, role)
      case GoTo(p) => page := p;
      case AskToSignIn => showAuthModal := true;
    }

    /** `handleGoHome`. */
    method GoHome()
      requires Valid()
      modifies this`selectedContentId, this`contentToEdit, this`page
      ensures Valid() && PageAllowed()
      ensures selectedContentId.None? && contentToEdit.None? && page == HomeFor(role)
    {
      selectedContentId := None;
      contentToEdit := None;
      page := HomeFor(role);
    }

    /** `handleSelectContent`. */
    method SelectContent(id: int)
      requires Valid()
      modifies this`selectedContentId, this`page
      ensures Valid() && PageAllowed()
      ensures selectedContentId == Some(id) && page == Details
    {
      selectedContentId := Some(id);
      page := Details;
    }

    /** The item the details page shows. */
    function SelectedContent(): (r: Option<ContentItem>)
      reads this
      ensures r.Some? ==> selectedContentId == Some(r.value.id) && r.value in contentItems
      ensures r.None? <==>
                (selectedContentId.None?
                 || forall j :: 0 <= j < |contentItems| ==> contentItems[j].id != selectedContentId.value)
    {
      if selectedContentId.Some? then FindContent(contentItems, selectedContentId.value) else None
    }

    /** `handleToggleWishlist`, with the backend's verdict as `ok`: without a user
        nothing happens; on success exactly that id changes membership. */
    method ToggleWishlist(id: int, ok: bool)
      requires Valid()
      modifies this`wishlist
      ensures Valid()
      ensures wishlist == if currentUser.Some? && ok then Toggle(old(wishlist), id) else old(wishlist)
    {
      if currentUser.None? {
        return;
      }
      if ok {
        wishlist := Toggle(wishlist, id);
      }
    }

    /** `handleProtectedWishlistToggle`: without a session the sign-in dialog opens. */
    method ProtectedWishlistToggle(id: int, ok: bool)
      requires Valid()
      modifies this`wishlist, this`showAuthModal
      ensures Valid()
      ensures role == Unauthenticated ==> showAuthModal && wishlist == old(wishlist)
      ensures role != Unauthenticated ==>
                showAuthModal == old(showAuthModal)
                && wishlist == if ok then Toggle(old(wishlist), id) else old(wishlist)
    {
      if role == Unauthenticated {
        showAuthModal := true;
      } else {
        ToggleWishlist(id, ok);
      }
    }

    /** `handleContentDownloaded`. */
    method ContentDownloaded(id: int, ok: bool)
      requires Valid()
      modifies this`downloadHistory
      ensures Valid()
      ensures downloadHistory ==
                if currentUser.Some? && ok then MoveToFront(old(downloadHistory), id) else old(downloadHistory)
    {
      if currentUser.None? {
        return;
      }
      if ok {
        downloadHistory := MoveToFront(downloadHistory, id);
      }
    }

    /** `handleAddToWatchHistory`. */
    method AddToWatchHistory(id: int, ok: bool)
      requires Valid()
      modifies this`watchHistory
      ensures Valid()
      ensures watchHistory ==
                if currentUser.Some? && ok then MoveToFront(old(watchHistory), id) else old(watchHistory)
    {
      if currentUser.None? {
        return;
      }
      if ok {
        watchHistory := MoveToFront(watchHistory, id);
      }
    }

    /** `handlePlayContent`: an empty URL only raises an alert; otherwise the item is
        recorded as watched and the player opens on it. */
    method PlayContent(url: string, title: string, id: int, ok: bool)
      requires Valid()
      modifies this`alerts, this`watchHistory, this`contentToPlay, this`page
      ensures Valid() && (old(PageAllowed()) ==> PageAllowed())
      ensures url == "" ==>
                && alerts == old(alerts) + [VideoUnavailable]
                && watchHistory == old(watchHistory) && page == old(page)
                && contentToPlay == old(contentToPlay)
      ensures url != "" ==>
                && alerts == old(alerts)
                && watchHistory == (if currentUser.Some? && ok then MoveToFront(old(watchHistory), id)
                                    else old(watchHistory))
                && contentToPlay == Some(PlayTarget(url, title)) && page == Player
    {
      if url == "" {
        alerts := alerts + [VideoUnavailable];
        return;
      }
      AddToWatchHistory(id, ok);
      contentToPlay := Some(PlayTarget(url, title));
      page := Player;
    }

    /** The player's back button. */
    method PlayerBack()
      requires Valid()
      modifies this`contentToPlay, this`page
      ensures Valid() && PageAllowed()
      ensures contentToPlay.None? && page == Details
    {
      contentToPlay := None;
      page := Details;
    }

    /** `handleRateContent`, with the backend's verdict as `ok`: on success the
        refetched catalogue carries the merged entries and their mean on that item. */
    method RateContent(contentId: int, newRating: int, ok: bool)
      requires Valid()
      modifies this`contentItems
      ensures Valid()
      ensures var plan := PlanRating(old(contentItems), currentUser, contentId, newRating);
              contentItems == if plan.Some? && ok then WithRatings(old(contentItems), contentId, plan.value)
                              else old(contentItems)
    {
      var plan := PlanRating(contentItems, currentUser, contentId, newRating);
      if plan.Some? && ok {
        contentItems := WithRatings(contentItems, contentId, plan.value);
      }
    }

    /** `handleSaveContent`, with the backend's verdict as `ok`, the id it assigns to a
        new row as `freshId` and the clock as `now`: a failure raises an alert; a
        success refetches the catalogue, drops the edit target and opens the
        dashboard. */
    method SaveContent(data: ContentUploadData, existingId: Option<int>, ok: bool, freshId: int, now: UploadDate)
      requires Valid()
      modifies this`alerts, this`contentItems, this`contentToEdit, this`page
      ensures Valid()
      ensures !ok ==> alerts == old(alerts) + [SaveFailed] && contentItems == old(contentItems)
                      && contentToEdit == old(contentToEdit) && page == old(page)
      ensures ok ==> alerts == old(alerts)
                     && contentItems == Upserted(old(contentItems), data, existingId, freshId, now)
                     && contentToEdit.None? && page == AdminDashboard
    {
      if !ok {
        alerts := alerts + [SaveFailed];
        return;
      }
      contentItems := Upserted(contentItems, data, existingId, freshId, now);
      contentToEdit := None;
      page := AdminDashboard;
    }

    /** `handleDeleteContent`, with the confirmation dialog's answer and the backend's
        verdict as parameters. */
    method DeleteContent(id: int, confirmed: bool, ok: bool)
      requires Valid()
      modifies this`contentItems
      ensures Valid()
      ensures contentItems == if confirmed && ok then Filter(old(contentItems), (m: ContentItem) => m.id != id)
                              else old(contentItems)
    {
      if confirmed && ok {
        contentItems := Filter(contentItems, (m: ContentItem) => m.id != id);
      }
    }

    /** `handleStartEdit`: an item of that id is loaded into the upload form. */
    method StartEdit(id: int)
      requires Valid()
      modifies this`contentToEdit, this`page
      ensures Valid()
      ensures FindContent(contentItems, id).Some? ==>
                contentToEdit == FindContent(contentItems, id) && page == Upload
      ensures FindContent(contentItems, id).None? ==>
                contentToEdit == old(contentToEdit) && page == old(page)
    {
      var found := FindContent(contentItems, id);
      if found.Some? {
        contentToEdit := found;
        page := Upload;
      }
    }

    /** `handleUserLogin` and `handleUserSignup` after their backend call: success
        closes the dialog and leads home (the session itself arrives through
        `SessionStarted`). */
    method SignedIn(ok: bool) returns (success: bool)
      requires Valid()
      modifies this`page, this`showAuthModal
      ensures Valid()
      ensures success == ok
      ensures ok ==> page == Home && !showAuthModal
      ensures !ok ==> page == old(page) && showAuthModal == old(showAuthModal)
    {
      if !ok {
        return false;
      }
      page := Home;
      showAuthModal := false;
      return true;
    }

    /** `handleAdminLogin`, with the two environment values as parameters: the
        credentials must equal them (by default "admin" and "password"). */
    method AdminLogin(user: string, pass: string, envUser: Option<string>, envPass: Option<string>)
      returns (success: bool)
      requires Valid()
      modifies this`currentUser, this`role, this`page, this`showAdminLogin
      ensures Valid()
      ensures success <==> user == EnvOr(envUser, "admin") && pass == EnvOr(envPass, "password")
      ensures success ==> currentUser == Some(AdminUser) && role == Administrator
                          && page == AdminDashboard && !showAdminLogin && PageAllowed()
      ensures !success ==> currentUser == old(currentUser) && role == old(role)
                           && page == old(page) && showAdminLogin == old(showAdminLogin)
    {
      if user == EnvOr(envUser, "admin") && pass == EnvOr(envPass, "password") {
        currentUser := Some(AdminUser);
        role := Administrator;
        page := AdminDashboard;
        showAdminLogin := false;
        return true;
      }
      return false;
    }

    /** `handleLogout`: signed out, home, and (through the user-data effect) no
        wishlist or histories. */
    method Logout()
      requires Valid()
      modifies this`currentUser, this`role, this`page, this`wishlist, this`watchHistory, this`downloadHistory
      ensures Valid() && PageAllowed()
      ensures currentUser.None? && role == Unauthenticated && page == Home
    {
      currentUser := None;
      role := Unauthenticated;
      page := Home;
      wishlist := {};
      watchHistory := [];
      downloadHistory := [];
    }

    /** `onRequestLogin` of the details screen. */
    method RequestLogin()
      modifies this`showAuthModal
      ensures showAuthModal
    {
      showAuthModal := true;
    }

    /** The dialog's link to the administrator sign-in. */
    method OpenAdminLogin()
      modifies this`showAuthModal, this`showAdminLogin
      ensures !showAuthModal && showAdminLogin
    {
      showAuthModal := false;
      showAdminLogin := true;
    }

    /** The administrator screen's link back to the user sign-in. */
    method CloseAdminLogin()
      modifies this`showAdminLogin
      ensures !showAdminLogin
    {
      showAdminLogin := false;
    }

    method CloseAuthModal()
      modifies this`showAuthModal
      ensures !showAuthModal
    {
      showAuthModal := false;
    }
  }

  /** Downloading and watching keep each history free of repeated ids, whatever the
      backend answers. */
  method HistoriesStayDistinct(app: AppState, a: int, b: int, ok1: bool, ok2: bool)
    requires app.Valid() && NoDuplicates(app.watchHistory) && NoDuplicates(app.downloadHistory)
    modifies app
    ensures NoDuplicates(app.watchHistory) && NoDuplicates(app.downloadHistory)
  {
    MoveToFrontNoDuplicates(app.downloadHistory, a);
    app.ContentDownloaded(a, ok1);
    MoveToFrontNoDuplicates(app.watchHistory, b);
    app.AddToWatchHistory(b, ok2);
  }
}
