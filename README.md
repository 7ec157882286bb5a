# CineVault in Dafny

CineVault is a streaming catalogue written in React and TypeScript on top of a hosted
backend. Users browse movies and TV shows, search by title, keep a wishlist, rate items
from 1 to 10, and watch or download them. Administrators upload and edit content, and
see charts of the catalogue. This project models the rules under the user interface and
proves properties of them. Those rules cover:

- the application state and its handlers (`App.tsx`): the role-based router, the
  move-to-front watch and download histories, the wishlist toggle, the rating merge and
  mean, and what a content save writes;
- the details screen's sign-in gate and its movie download state machine, with the
  progress text over the chunk stream (`MovieDetailsScreen` in `App.tsx`);
- the episode row's download state machine (`components/EpisodeItem.tsx`);
- the upload form's season and episode edits, genre parsing, editing an item, and
  submit validation (`components/UploadForm.tsx`);
- the derived views: recommendations, the genre chart, the monthly uploads chart, the
  title search, the five most recent uploads, the bottom navigation bar, and the star
  widget;
- the input checks of the sign-in dialog (`components/AuthModal.tsx`) and of the
  profile form (`components/ProfileSettings.tsx`).

Every backend call becomes a parameter. A success flag stands for the call's verdict,
and values such as rows, fresh ids and the clock are passed in. Values are `datatype`s
(`Types`). State that the source updates in place is a `class` with `modifies`-framed
methods: `App.AppState`, `MovieDetails.MovieDownload`, `EpisodeItem.EpisodeRow`,
`UploadForm.Form`, `AuthModal.Modal`, `ProfileSettings.Settings` and
`StarRating.Widget`. Each method states its whole new state. Pure computations are
functions, and lemmas prove their properties. Three loops of the source are methods
with invariants, each proved equal to the function that specifies it:

- the download read loop (`ReadBody`);
- the genre tally into a dictionary (`TallyGenres`, used by `ChartData` and
  `Recommend`);
- the twelve month buckets filled in an array (`MonthlyData`).

Three helper modules give JavaScript's library operations exact definitions:

- `Text`: `trim`, `split`, `join`, `toLowerCase`, `includes`, and number-to-string;
- `Lists`: `filter`, `slice(0, n)`, and a descending sort that is stable like V8's
  `Array.prototype.sort` (`Lists.SortDescStable`);
- `Transfer`: the shared download stream.

## Model

| member | source | states |
|---|---|---|
| App.Route | App.tsx:724-736 | A view is shown as asked exactly when the role may see it. Upload or dashboard without administrator rights leads home. Profile or wishlist without a session asks for sign-in, exactly in that case. |
| App.HomeFor | App.tsx:718-722 | Home is the dashboard exactly for an administrator, and otherwise the home page. The result is always a page the role may see. |
| App.MoveToFront | App.tsx:619 | The id comes first and occurs nowhere after that. The membership is the old ids plus this one. The other ids keep their order, and every other id occurs exactly as often as before, repeats included. |
| App.FilterOtherMultiset | App.tsx:619 | `prev.filter(x => x !== id)` removes every occurrence of the id and keeps every other occurrence. |
| App.MoveToFrontIdempotent | App.tsx:616-626 | Recording the same id twice in a row equals recording it once. |
| App.MoveToFrontNoDuplicates | App.tsx:616-626 | A history without repeats stays without repeats. |
| App.Toggle | App.tsx:542-556 | Exactly the given id flips membership. Every other id is unchanged. |
| App.ToggleTwice | App.tsx:542-556 | Toggling twice restores the wishlist. |
| Lists.FirstIndex | App.tsx:687 | The first index whose element meets the test, with none before it; none exactly when no element meets it. |
| App.ContentIndex | App.tsx:684 | The first position of an item with that id, or none exactly when no item has it. |
| App.AppState.SelectedContent | App.tsx:708 | The item shown has the selected id and is in the catalogue. None exactly when nothing is selected or no item has that id. |
| App.FindContent | App.tsx:708 | The item found has the id and is in the catalogue. None exactly when no item has that id. |
| App.HistoryItems | App.tsx:709-710 | One item per history id still in the catalogue, in history order: each one is what `find` returns for that id. |
| App.HistoryCons | App.tsx:709-710 | A history whose first id is in the catalogue shows that item first, then the rest of the history's items. |
| App.HistorySkip | App.tsx:709-710 | A first id no longer in the catalogue is skipped. |
| App.Wishlisted | App.tsx:711 | The wishlisted items keep catalogue order. Each has its id in the set, and every item with its id in the set is included. |
| App.StoredItem | App.tsx:738-757 | The saved row gives back the same upload data. It has the same kind, an empty cast, the poster as hero image, the save time as upload date, rating 0 and no ratings. |
| App.SaveId | App.tsx:754-756 | An id is sent exactly when one is given and it is not 0 (0 is falsy). |
| App.Upserted | App.tsx:759-768 | The refetched catalogue holds the saved row under its id and has grown by at most one row. |
| App.UpsertedFindsSaved | App.tsx:759-768 | After the upsert and refetch, the saved id finds the new row. Every other id finds what it found before. The catalogue grows by at most one row. |
| App.EditResetsRatings | App.tsx:741-752 | Saving an edited item again empties its ratings, aggregate and cast. It also resets its hero image and upload date. |
| App.EditRoundTrip | components/UploadForm.tsx:37-207 | Loading an item into the upload form and submitting it unchanged yields its own upload data under its own id. |
| App.EditRoundTripMovie | components/UploadForm.tsx:37-207 | The round trip for a movie: its own upload data, file name and size included, under its own id. |
| App.EditRoundTripShow | components/UploadForm.tsx:37-207 | The round trip for a show: its own upload data, seasons included, under its own id. |
| App.PlanRating | App.tsx:682-698 | A write happens exactly when there is a user and an item with that id. The entries are the merge and hold at least one entry. The user's rating reads back as the new value. The aggregate is their mean. |
| App.WithRatings | App.tsx:700-705 | After the refetch, the rows with that id carry the new entries and mean. All other rows are unchanged. |
| App.EnvOr | App.tsx:571-572 | A present environment value wins; otherwise the fallback is used. |
| App.ProfileUser | App.tsx:443-469 | The user keeps the identity's id and e-mail. With a profile row, its name and image are used. Without one, the name is non-empty and contains no '@', and it is "New User" when there is no e-mail. |
| App.ProfileNameFromEmail | App.tsx:463-465 | Without a profile row, the e-mail `a@b` (no '@' in `a`) gives the name `a`, or "New User" when `a` is empty. |
| App.ProfileNameWithoutAt | App.tsx:463-465 | Without a profile row, a non-empty e-mail with no '@' is the name itself. |
| App.AppState.constructor | App.tsx:425-441 | No user, home page, no selection, and no dialogs. |
| App.AppState.ContentFetched | App.tsx:498-503 | The rows replace the catalogue only when the query succeeds. |
| App.AppState.SessionStarted | App.tsx:443-469 | A signed-in session has the user and the regular-user role. |
| App.AppState.SessionEnded | App.tsx:481-486 | No user, unauthenticated, and no wishlist or histories. |
| App.AppState.UserDataLoaded | App.tsx:510-528 | Each list that came back replaces the one held. The others are kept. |
| App.AppState.ViewChange | App.tsx:724-736 | The page becomes the route's target, or the sign-in dialog opens and the page stays. A page the role may see stays such a page: the role invariant is kept. |
| App.AppState.GoHome | App.tsx:718-722 | Selection and edit target are cleared, and the page is the role's home. |
| App.AppState.SelectContent | App.tsx:713-716 | The id is selected and the details page is shown. |
| App.AppState.ToggleWishlist | App.tsx:542-557 | With no user, nothing changes. On backend success, exactly that id flips. |
| App.AppState.ProtectedWishlistToggle | App.tsx:787-791 | Unauthenticated: the dialog opens and the wishlist is unchanged. Otherwise: the toggle. |
| App.AppState.ContentDownloaded | App.tsx:616-620 | With a user and backend success, the download history is moved to front. Otherwise it is unchanged. |
| App.AppState.AddToWatchHistory | App.tsx:622-626 | With a user and backend success, the watch history is moved to front. Otherwise it is unchanged. |
| App.AppState.PlayContent | App.tsx:628-636 | An empty URL only raises "Video content not available.". Otherwise the item is recorded as watched and the player opens on it. |
| App.AppState.PlayerBack | App.tsx:812-816 | The player is cleared and the details page is shown. |
| App.AppState.RateContent | App.tsx:682-705 | The catalogue carries the planned rating write on success. Otherwise nothing changes. |
| App.AppState.SaveContent | App.tsx:738-769 | Failure alerts "Failed to save content." and changes nothing else. Success means the upserted catalogue, no edit target, and the dashboard page. |
| App.AppState.DeleteContent | App.tsx:771-777 | Only when confirmed and accepted, every item with that id leaves the catalogue. |
| App.AppState.StartEdit | App.tsx:779-785 | An item with that id becomes the edit target and the upload page opens. Without one, nothing changes. |
| App.AppState.SignedIn | App.tsx:559-568 | Success leads home and closes the dialog, and the result is the backend's verdict. |
| App.AppState.AdminLogin | App.tsx:570-581 | Success holds exactly when both credentials equal the environment values or their defaults "admin" and "password". Then the fixed administrator user, the administrator role and the dashboard are set. Otherwise nothing changes. |
| App.AppState.Logout | App.tsx:609-614 | No user, unauthenticated, home, and no user data. |
| App.AppState.RequestLogin | App.tsx:829 | The sign-in dialog is shown. |
| App.AppState.OpenAdminLogin | App.tsx:973-976 | The user dialog closes and the administrator sign-in opens. |
| App.AppState.CloseAdminLogin | App.tsx:805 | The administrator sign-in closes. |
| App.AppState.CloseAuthModal | App.tsx:969 | The sign-in dialog closes. |
| App.HistoriesStayDistinct | App.tsx:616-626 | Histories that start without repeats stay without repeats through downloads and plays, whatever the backend answers. A download history reloaded from its rows (App.tsx:525-526) can hold repeats, so this does not cover it. |
| Rating.FindIndex | App.tsx:687 | The first index of the user's entry, or none exactly when the user has none. |
| Rating.Merge | App.tsx:687-695 | An existing entry is replaced at its index, with the same length and all other entries as they were. Otherwise one entry is appended. |
| Rating.UserRating | App.tsx:202-205 | 0 without a user or without an entry. Otherwise the user's own rating, where 0 counts as none. |
| Rating.MergeThenRatingOf | App.tsx:687-695 | After a merge, the user's rating reads back as the value just given. |
| Rating.MergeKeepsOthers | App.tsx:687-695 | Another user's rating is untouched. |
| Rating.MergeKeepsUsersUnique | App.tsx:687-695 | At most one entry per user is kept. |
| Rating.MergeIdempotent | App.tsx:687-695 | Rating twice with the same value equals rating once. |
| Rating.Average | App.tsx:697-698 | The mean times the number of entries is their total. |
| Rating.TotalAppend | App.tsx:697 | Appending an entry adds its rating to the total. |
| Rating.TotalUpdate | App.tsx:697 | Replacing an entry changes the total by the difference. |
| Rating.MergedAverage | App.tsx:697-698 | The new mean after a replacement, and after an append, in terms of the old total. |
| Rating.AverageWithin | App.tsx:697-698 | Ratings between lo and hi have a mean between lo and hi. |
| Rating.MergeWithin | App.tsx:687-695 | Merging an in-range rating keeps every rating in range. |
| Transfer.Delivered | App.tsx:231-247 | The chunks read before the stream ends or fails: all of them when it completes. |
| Transfer.Concat | App.tsx:249 | No chunks give no bytes. |
| Transfer.ConcatSnoc | App.tsx:238 | Each pushed chunk's bytes follow the earlier ones in the blob. |
| Transfer.LoadedMonotone | App.tsx:239 | The running byte count never decreases. |
| MovieDetails.Protected | App.tsx:271-277 | An unauthenticated session only requests sign-in. Otherwise the action runs. |
| MovieDetails.RateClick | App.tsx:323-325 | A star click rates the item with that star, behind the gate. |
| MovieDetails.WatchClick | App.tsx:409 | Playback of the movie's file happens only when it has a file URL, behind the gate. |
| MovieDetails.WishlistClick | App.tsx:339 | A wishlist toggle, behind the gate. |
| MovieDetails.RoundPercentIsNearest | App.tsx:242 | The integer formula is the exact 100 * loaded / total rounded to the nearest integer, halves up (exact rationals, not the browser's double arithmetic). |
| MovieDetails.PercentMonotone | App.tsx:241-243 | More bytes never show a smaller percentage. |
| MovieDetails.PercentBounds | App.tsx:241-243 | At most the size shows 0 to 100, and exactly the size shows 100. |
| MovieDetails.ProgressTexts | App.tsx:231-247 | One progress text per chunk read. |
| MovieDetails.ProgressTextsPointwise | App.tsx:239-246 | Text i is the one for the bytes of the first i + 1 chunks. |
| MovieDetails.PercentagesClimbTo100 | App.tsx:241-243 | With a known size the percentages never go down, and a body of exactly that size ends at 100%. |
| MovieDetails.ThreeChunkExample | App.tsx:239-243 | One worked example, not a general property: chunks of 3, 3 and 2 bytes of an 8-byte file show 38%, 75% and 100%. |
| MovieDetails.MovieDownload.constructor | App.tsx:197-199 | Idle, with no progress text and no effects yet. |
| MovieDetails.MovieDownload.StartDownload | App.tsx:209-212 | It starts exactly when the item is a movie, idle, with a file URL and name: then it is downloading with "(Starting...)". Otherwise nothing changes. |
| MovieDetails.MovieDownload.DownloadClick | App.tsx:396 | Unauthenticated: only a sign-in request; the state and the progress text stay as they were. Otherwise `StartDownload`: a start sets downloading and the "(Starting...)" text, and no start leaves both as they were. |
| MovieDetails.MovieDownload.ReceiveResponse | App.tsx:214-268 | A completed stream ends downloaded. It saves the concatenated chunks under the file name and reports the id once. Any failure ends idle with one alert and no report. The text ends empty either way. |
| MovieDetails.MovieDownload.ReadBody | App.tsx:229-247 | The loop keeps exactly the chunks delivered and fails exactly when the stream does not complete. The texts it shows are `ProgressTexts` of those chunks. |
| MovieDetails.MovieDownload.Fail | App.tsx:263-268 | Idle, empty text, and one more alert. |
| MovieDetails.DownloadReportsOnce | App.tsx:208-268 | A second click while downloading starts nothing. A completed download reports its id exactly once. A failed one reports nothing and is idle again. |
| EpisodeItem.EpisodeRow.constructor | components/EpisodeItem.tsx:16 | Idle, and no effects yet. |
| EpisodeItem.EpisodeRow.DownloadClick | components/EpisodeItem.tsx:18-26 | Unauthenticated: only a sign-in request. Otherwise it starts exactly from idle with a file URL and name. |
| EpisodeItem.EpisodeRow.ReceiveResponse | components/EpisodeItem.tsx:28-60 | Completed: downloaded, the file is saved, and the episode id is reported once. Otherwise: idle, one alert, no report. |
| EpisodeItem.EpisodeRow.PlayClick | components/EpisodeItem.tsx:63-71 | Unauthenticated: only a sign-in request. Otherwise `onPlay(url, title)` exactly when there is a file URL. |
| EpisodeItem.CompletedStaysCompleted | components/EpisodeItem.tsx:24-54 | Once downloaded, further clicks neither restart nor report again. |
| UploadForm.MaxSeasonNumber | components/UploadForm.tsx:132 | The largest season number: no season exceeds it, and some season has it. |
| UploadForm.AddSeason | components/UploadForm.tsx:131-134 | One empty season with the fresh id is appended. Its number is one above the largest, and 1 for the first season. |
| UploadForm.RemoveSeason | components/UploadForm.tsx:136-138 | No season with that id is left. Every other season stays, in order. |
| UploadForm.MapSeason | components/UploadForm.tsx:142-145 | Only the target index changes, and only its episodes. |
| UploadForm.MapEpisode | components/UploadForm.tsx:159-162 | Only the target index changes. |
| UploadForm.AddEpisode | components/UploadForm.tsx:140-146 | The season gains the new episode at its end. Every other season is unchanged. |
| UploadForm.WithoutIndex | components/UploadForm.tsx:151 | The list without that position, or the whole list for a position out of range. |
| UploadForm.RemoveEpisode | components/UploadForm.tsx:148-154 | Only that episode of that season goes. All else is unchanged. |
| UploadForm.RemoveThenAddRepeatsEpisodeId | components/UploadForm.tsx:141 | Adding two episodes, removing the first and adding another leaves two episodes with id "s1e2". |
| UploadForm.EditEpisode | components/UploadForm.tsx:156-165 | Only the named field of the target episode takes the value. |
| UploadForm.SetEpisodeFile | components/UploadForm.tsx:93-112 | The target episode gets the file's name, size text and object URL. Nothing else changes. |
| UploadForm.TrimEach | components/UploadForm.tsx:187 | Each piece is trimmed, and the length is kept. |
| UploadForm.ParseGenres | components/UploadForm.tsx:187 | Every genre produced is non-empty, trimmed and comma-free. |
| UploadForm.ParseJoinedGenres | components/UploadForm.tsx:44 | Genres joined by ", " (as an edited item fills the field) parse back to the same list. |
| UploadForm.ParseGenresStable | components/UploadForm.tsx:187 | Parsing, joining and parsing again gives the same genres. |
| UploadForm.Submit | components/UploadForm.tsx:167-207 | The form is accepted exactly when the fields are filled and the file or episode condition holds. The alert is the first check that failed. Accepted data carries the form's kind, text, poster, parsed genres, trailer, seasons and edited id. The release year is the edited item's when it is non-zero, otherwise the current year. A movie carries the form's duration and file URL. A new file gives its name and size; without one, an edited movie keeps its own, and an edited show gives none. |
| UploadForm.SubmitAcceptsMovie | components/UploadForm.tsx:180-193 | A filled movie form with a file or an edit target is saved with exactly the `contentData` fields. |
| UploadForm.SubmitAcceptsShow | components/UploadForm.tsx:194-206 | A filled show form whose every episode is ready is saved with exactly the `contentData` fields. |
| UploadForm.Form.constructor | components/UploadForm.tsx:37-70 | The form starts as the blank new-upload draft, or as the draft of the item to edit. |
| UploadForm.Form.SetKind | components/UploadForm.tsx:220-221 | Only the kind changes. |
| UploadForm.Form.Type | components/UploadForm.tsx:235-247 | Only the typed field changes. |
| UploadForm.Form.ChoosePoster | components/UploadForm.tsx:72-82 | Only the poster preview changes. |
| UploadForm.Form.ChooseMovieFile | components/UploadForm.tsx:84-91 | Only the movie file and its URL change. |
| UploadForm.Form.ChooseTrailer | components/UploadForm.tsx:114-121 | Only the trailer URL changes. |
| UploadForm.Form.AddSeasonClick | components/UploadForm.tsx:131-134 | Only the seasons change, to `AddSeason`. |
| UploadForm.Form.RemoveSeasonClick | components/UploadForm.tsx:136-138 | Only the seasons change, to `RemoveSeason`. |
| UploadForm.Form.AddEpisodeClick | components/UploadForm.tsx:140-146 | Only the seasons change, to `AddEpisode`. |
| UploadForm.Form.RemoveEpisodeClick | components/UploadForm.tsx:148-154 | Only the seasons change, to `RemoveEpisode`. |
| UploadForm.Form.EditEpisodeField | components/UploadForm.tsx:156-165 | Only the seasons change, to `EditEpisode`. |
| UploadForm.Form.ChooseEpisodeFile | components/UploadForm.tsx:93-112 | Only the seasons change, to `SetEpisodeFile`. |
| UploadForm.Form.SubmitClick | components/UploadForm.tsx:167-212 | Nothing happens while uploading. A rejected form alerts its message. An accepted form is uploading and hands its submission to `onSave`. The fields never change. |
| GenreChart.Occurrences | components/charts/GenreDoughnutChart.tsx:17 | The count is positive exactly when the genre occurs, and at most the length. |
| GenreChart.Distinct | components/charts/GenreDoughnutChart.tsx:23 | The genres in first-seen order: exactly the ones that occur, each once. |
| GenreChart.TallyStep | components/charts/GenreDoughnutChart.tsx:17 | One increment keeps the keys in insertion order and every count equal to the number of occurrences. |
| GenreChart.CountGenres | components/charts/GenreDoughnutChart.tsx:16-18 | The `forEach` over one item's genres extends the tally invariant by those genres. |
| GenreChart.TallyGenres | components/charts/GenreDoughnutChart.tsx:14-21 | The loop's keys are the distinct genres in insertion order. The counts are defined exactly on the genres that occur, each equal to its number of occurrences. |
| GenreChart.Entries | components/charts/GenreDoughnutChart.tsx:23-24 | One slice per key, with the key's count. |
| GenreChart.ChartData | components/charts/GenreDoughnutChart.tsx:11-26 | The memo computed through the tally equals `GenreData`. |
| GenreChart.GenreDataShape | components/charts/GenreDoughnutChart.tsx:14-25 | Each value is the genre's number of occurrences and is positive. Every occurring genre is listed. No name repeats. Values are non-increasing. |
| GenreChart.GenreTotal | components/charts/GenreDoughnutChart.tsx:32 | The total equals the number of genre occurrences. |
| GenreChart.GenreDataEmpty | components/charts/GenreDoughnutChart.tsx:28-30 | The "no data" branch is taken exactly when no item has a genre. |
| Dashboard.RankedGenres | components/UserDashboard.tsx:39 | The watched genres, each once, ordered from the largest tally down. |
| Dashboard.FavouriteGenre | components/UserDashboard.tsx:32-39 | None exactly when the watched items have no genres. Otherwise a watched genre with the largest tally. Among the genres tied for the largest tally, it is the one met first: every genre met before it has a smaller tally. |
| Dashboard.FirstRankedComesFirst | components/UserDashboard.tsx:39 | The stable sort puts first the earliest key of greatest tally: every genre met before it has a strictly smaller tally. |
| Dashboard.Recommendations | components/UserDashboard.tsx:28-47 | At most 5. The first 5 items when nothing has been watched. Always in catalogue order. |
| Dashboard.RecommendationsAfterWatching | components/UserDashboard.tsx:41-46 | No recommendation was watched. Each one carries the favourite genre. Fewer than 5 means no unwatched item of that genre was left out. None without a favourite. |
| Dashboard.RecommendationsAreFirstCandidates | components/UserDashboard.tsx:41-46 | `.slice(0, 5)` keeps the first five candidates. A candidate with fewer than five candidates before it is recommended. In a catalogue without repeated items, a recommended item is never preceded by a candidate left out. |
| Dashboard.ShownWhenFewBefore | components/UserDashboard.tsx:43-46 | A candidate with fewer than five candidates before it is among the first five. |
| Dashboard.ShownComeBefore | components/UserDashboard.tsx:43-46 | Once five candidates come before a position, every one shown comes from before it. |
| Dashboard.CandidatesAppend | components/UserDashboard.tsx:43-45 | The candidates of two joined lists are the candidates of each, in order. |
| Dashboard.Recommend | components/UserDashboard.tsx:28-47 | The memo computed through the tally equals `Recommendations`. |
| UploadsChart.MonthlyData | components/charts/UploadsBarChart.tsx:9-25 | Twelve bars, Jan to Dec in order. Each month's value is the number of items uploaded in that month of the current year. |
| UploadsChart.BarsAddUp | components/charts/UploadsBarChart.tsx:12-22 | The twelve values add up to the items uploaded this year. |
| UploadsChart.MaxValue | components/charts/UploadsBarChart.tsx:27 | At least 1 and at least every value, and equal to 1 or to one of them. |
| Search.Filtered | components/SearchScreen.tsx:16-23 | An empty query gives the items unchanged. The result is in order, and an item is kept exactly when its lowercased title contains the lowercased query. |
| Search.FoundIffOccurs | components/SearchScreen.tsx:21 | Found exactly when the lowercased query occurs at some position of the lowercased title. |
| Search.CaseInsensitive | components/SearchScreen.tsx:21 | Queries that differ only in letter case give the same result. |
| RecentUploads.RecentItems | components/RecentUploadsTable.tsx:15-19 | Min(5, n) items, newest first, drawn from the input without repeating any (a sub-multiset), and the whole input when it has at most 5 items. The input itself is a value and stays. |
| RecentUploads.OmittedAreOlder | components/RecentUploadsTable.tsx:16-18 | No omitted item is newer than a shown one. |
| RecentUploads.DeleteClick | components/RecentUploadsTable.tsx:26-31 | The item's id is forwarded exactly when the deletion is confirmed. |
| Navigation.BarRoleFor | App.tsx:844 | The bar gets the administrator items exactly for an administrator. |
| Navigation.NavItems | components/BottomNavigation.tsx:18-31 | Administrator: dashboard and upload. Otherwise: home, search, wishlist and profile. |
| Navigation.AtMostOneActive | components/BottomNavigation.tsx:38 | For every active view, at most one item is highlighted. |
| Navigation.ClicksAreNeverRedirected | components/BottomNavigation.tsx:42 | A click routes to the item's own view or to the sign-in dialog, never elsewhere. |
| StarRating.Stars | components/StarRating.tsx:14 | Stars 1 to count, in order. |
| StarRating.LitPrefix | components/StarRating.tsx:44 | Exactly the stars up to the hover value are lit, or up to the value when there is no hover. |
| StarRating.Widget.constructor | components/StarRating.tsx:11-12 | No hover, and no ratings sent. |
| StarRating.Widget.Click | components/StarRating.tsx:16-20 | The star is sent exactly when the widget is not read-only. |
| StarRating.Widget.MouseOver | components/StarRating.tsx:22-26 | The hover value becomes the star unless read-only. |
| StarRating.Widget.MouseLeave | components/StarRating.tsx:28-32 | The hover value is cleared unless read-only. |
| StarRating.Rendered | components/StarRating.tsx:36-44 | One lit flag per star, each the `(hoverValue \|\| value) >= starValue` test. |
| StarRating.HoverThenLeave | components/StarRating.tsx:22-44 | The render after hovering star k lights exactly stars 1..k. The render after leaving lights exactly the value's stars. No rating is sent. |
| AuthModal.ResetMessage | components/AuthModal.tsx:68 | The confirmation has the address at its place. |
| AuthModal.LoginError | components/AuthModal.tsx:34-40 | "Invalid email or password." exactly when the login is refused. Nothing when it is accepted. |
| AuthModal.SignupDecision | components/AuthModal.tsx:42-56 | The call is made exactly when all three fields are filled and the passwords match. The emptiness check comes first, then the match check. Past both, the error is empty exactly on success. |
| AuthModal.SignupErrorIffRefused | components/AuthModal.tsx:53-55 | Past the checks, the failure message appears exactly when the signup is refused. |
| AuthModal.WiredLoginError | components/AuthModal.tsx:37 | As wired: the login error appears exactly when the returned value is falsy, so a promise never shows it. |
| AuthModal.WiredSignupError | components/AuthModal.tsx:42-56 | As wired: the signup failure text appears exactly when the field checks pass and the returned value is falsy, so a promise never shows it. |
| AuthModal.WiredLoginFailureIsSilent | App.tsx:559 | With the async handler App passes, a refused login shows no error. The declared contract shows one. |
| AuthModal.WiredSignupFailureIsSilent | App.tsx:583 | The same for a refused signup that passes the field checks. |
| AuthModal.Modal.constructor | components/AuthModal.tsx:16-32 | Login view, all fields and texts empty. |
| AuthModal.Modal.Type | components/AuthModal.tsx:111-146 | Only the typed input changes. |
| AuthModal.Modal.LoginSubmit | components/AuthModal.tsx:34-40 | One login call with the e-mail and password. The error is `LoginError` of its outcome. |
| AuthModal.Modal.SignupSubmit | components/AuthModal.tsx:42-56 | The error and the call are those of `SignupDecision`. |
| AuthModal.Modal.ForgotSubmit | components/AuthModal.tsx:58-70 | Both texts are cleared. An empty address gives "Please enter your email address."; otherwise a timer starts for that address. |
| AuthModal.Modal.ResetTimerFires | components/AuthModal.tsx:67-69 | The oldest timer shows the confirmation for its address. |
| AuthModal.Modal.SwitchView | components/AuthModal.tsx:101-102 | The view changes and the error is cleared (also the Forgot Password link, line 121). |
| AuthModal.Modal.BackToLogin | components/AuthModal.tsx:88 | Login view, with the error and the confirmation cleared. |
| AuthModal.Modal.AdminLinkClick | components/AuthModal.tsx:155 | `onShowAdminLogin` is called once. |
| AuthModal.Modal.Close | components/AuthModal.tsx:175 | `onClose` is called once. |
| AuthModal.BlankThenCompleteSignup | components/AuthModal.tsx:45-53 | A blank username blocks the call. Filling it in lets the same submit through. |
| ProfileSettings.PasswordCheck | components/ProfileSettings.tsx:51-59 | A mismatch error exactly when a new password differs from its confirmation. Then, and only then, a missing current password is an error. An empty new password passes both checks. |
| ProfileSettings.OrUndefined | components/ProfileSettings.tsx:65-66 | An empty string becomes undefined, and any other string is kept. |
| ProfileSettings.ImageOrNull | components/ProfileSettings.tsx:31 | The preview is the profile image when it is a non-empty address, and none otherwise. |
| ProfileSettings.SaveData | components/ProfileSettings.tsx:62-67 | The name and file are kept, and empty passwords are left out. |
| ProfileSettings.NameOnlySave | components/ProfileSettings.tsx:51-66 | With no new password both checks pass and no new password is sent. |
| ProfileSettings.NewPasswordCarriesCurrent | components/ProfileSettings.tsx:51-66 | A save that sets a new password also sends the current one, and the new one equals the confirmation. |
| ProfileSettings.Settings.constructor | components/ProfileSettings.tsx:13-20 | Empty fields, not saving, and no message. |
| ProfileSettings.Settings.UserChanged | components/ProfileSettings.tsx:28-33 | A user fills the name and preview. No user changes nothing. |
| ProfileSettings.Settings.FileChosen | components/ProfileSettings.tsx:35-38 | A chosen file is kept. Cancelling changes nothing. |
| ProfileSettings.Settings.PreviewRead | components/ProfileSettings.tsx:40-42 | The preview becomes the data URL. |
| ProfileSettings.Settings.SetUsername | components/ProfileSettings.tsx:109 | Only the name changes. |
| ProfileSettings.Settings.SetPasswords | components/ProfileSettings.tsx:123-151 | Only the three password fields change. |
| ProfileSettings.Settings.SaveClick | components/ProfileSettings.tsx:47-67 | A failed check shows its error and sends nothing. Otherwise the form is saving, with no message, and `onSave` gets `SaveData`. |
| ProfileSettings.Settings.SaveFinished | components/ProfileSettings.tsx:68-80 | Not saving afterwards. Success shows its message, clears the passwords and file, and starts the clearing timer. Failure shows its error and keeps every field. |
| ProfileSettings.Settings.ClearTimerFires | components/ProfileSettings.tsx:76 | The message is cleared. |
| Lists.SortDesc | components/charts/GenreDoughnutChart.tsx:25 | The same elements with the same multiplicities, in non-increasing key order. |
| Lists.SortDescStable | components/UserDashboard.tsx:39 | The sort is stable: the elements sharing any one key keep their input order. |
| Lists.InsertFilterKey | components/UserDashboard.tsx:39 | Inserting an element puts it before every element sharing its key. |
| Lists.SortDescHeadIsFirstMax | components/UserDashboard.tsx:39 | The sorted list starts with an input element that has a larger key than everything before it in the input. |
| Lists.SortDescMembers | components/RecentUploadsTable.tsx:17 | Sorting keeps exactly the same elements. |
| Lists.SumBySortDesc | components/charts/GenreDoughnutChart.tsx:25 | Sorting keeps the sum of the values. |
| Lists.PrefixDominates | components/RecentUploadsTable.tsx:17-18 | In a descending list, every element of a prefix is at least every element after it. |
| Text.Trim | components/UploadForm.tsx:187 | The result is one slice of the input with only white space before and after it, and it neither starts nor ends with white space. |
| Text.Split | components/UploadForm.tsx:187 | At least one piece, and no piece holds the separator. |
| Text.TrimIsSlice | components/UploadForm.tsx:187 | Trimming the start and then the end leaves one slice of the input with only white space outside it. |
| Text.SplitAtFirstSeparator | components/UploadForm.tsx:187 | A piece without the separator, then the separator, splits into that piece followed by the pieces of the rest. |
| Text.ToLower | components/SearchScreen.tsx:21 | Same length, each character lowercased. |
| Text.ContainsIffOccurs | components/SearchScreen.tsx:21 | `includes` is true exactly when the substring occurs at some position. |

Some members are plain definitions with no contract of their own. Each is covered by
the rows of the members that use it:

- `StarRating.Lit`, the lit test of one star: `StarRating.Rendered` and
  `StarRating.LitPrefix`;
- `Navigation.IsActive`, the highlighted tab: `Navigation.AtMostOneActive`;
- `EpisodeItem.EpisodeRow.DownloadEnabled`, the button's enabled state:
  `EpisodeItem.EpisodeRow.DownloadClick`;
- `RecentUploads.UploadTime`, the sort key: `RecentUploads.RecentItems` and
  `RecentUploads.OmittedAreOlder`;
- `UploadForm.NewEpisode`: `UploadForm.AddEpisode` and
  `UploadForm.RemoveThenAddRepeatsEpisodeId`;
- `UploadForm.NewDraft` and `UploadForm.EditDraft`: `UploadForm.Form.constructor` and
  `App.EditRoundTrip`;
- `MovieDetails.ProgressFor`, the text after some bytes: `MovieDetails.ProgressTextsPointwise`
  and `MovieDetails.PercentBounds`;
- `MovieDetails.MovieDownload.CanStart`, the download guard:
  `MovieDetails.MovieDownload.StartDownload`;
- `Transfer.Loaded`, the running byte count: `Transfer.LoadedMonotone`;
- `UploadForm.ReleaseYear`, `UploadForm.MovieFileName`, `UploadForm.MovieFileSize` and
  `UploadForm.EditedId`, the fields of the payload: `UploadForm.Submit`;
- `UploadsChart.UploadsIn`, a month's count: `UploadsChart.MonthlyData` and
  `UploadsChart.BarsAddUp`;
- `MovieDetails.RoundPercent`: `MovieDetails.RoundPercentIsNearest` and
  `MovieDetails.PercentBounds`;
- `AuthModal.FailureText`, the error after a refused call: `AuthModal.SignupDecision`;
- `Dashboard.IsCandidate`, an unwatched item of the favourite genre:
  `Dashboard.RecommendationsAreFirstCandidates`.

The data model follows types.ts:7-99. `ContentItem` is a datatype with exactly two
variants, `Movie` and `Show`. Only movies carry a duration and a file, and only shows
carry seasons. The upload data types have no id, hero image, rating, ratings or cast.

## Findings

| source | as written | input that shows it | evidently intended | confidence | as-written member | corrected member |
|---|---|---|---|---|---|---|
| components/AuthModal.tsx:37 | `if (!onUserLogin(...))` tests the value App's `async` handler returns (App.tsx:559, 971), and that value is a Promise, which is always truthy | a login that the backend refuses: the handler resolves to false later, but no error appears | the declared `(email, pass) => boolean` contract: "Invalid email or password." exactly when the login is refused; the same holds for signup at line 53 with App.tsx:583 | not executed | AuthModal.WiredLoginFailureIsSilent | AuthModal.LoginError |

The dialog class `AuthModal.Modal` uses the corrected boolean contract. `LoginSubmit`
and `SignupSubmit` take the handler's outcome as a boolean. The as-written wiring is
modelled by `AuthModal.WiredLoginError` and `AuthModal.WiredSignupError`, over a return
value that may be a promise.

A second behaviour the model records, not as a finding but as a lemma:
`UploadForm.RemoveThenAddRepeatsEpisodeId`. A new episode's id comes from the episode
count, not from the ids in use, so removing an episode and adding one can produce two
episodes with the same id.

## Left out

- Backend calls (Supabase auth, tables and storage) are outcome parameters. Nothing about
  what the backend stores or rejects is modelled. The refetch after a write is modelled
  as the write landing in the catalogue (`Upserted`, `WithRatings`).
- `handleUpdateUserProfile` (App.tsx:638-680) is backend plumbing. Only the form's side
  (`ProfileSettings`) is modelled.
- Dates and clocks: upload dates are an integer time plus year and month, and "now",
  the current year and the `Date.now()` ids are parameters.
- Timers: the upload form's two-second delay before `onSave` is collapsed. The reset
  link and the profile message timers are explicit pending events (`ResetTimerFires`,
  `ClearTimerFires`).
- RoundPercentIsNearest: rounds the exact 100 * loaded / total. The source rounds the
  double `(loaded / totalSize) * 100`, which can fall just below an exact half, so
  MovieDetails.RoundPercent can show one more than the browser (23 of 40 bytes:
  58% here, 57% in the browser).
- Floating point: the megabyte progress text keeps its byte count instead of
  `toFixed(1)`, and `getFileSize` becomes a given size text. Chart percentages and bar
  heights, "Time Watched" and the administrator statistics are left out. The rating
  mean is an exact `real`.
- Browser download plumbing: fetch, the reader, `Blob` and the anchor click become a
  `Response` value (status, reader, size header, chunks, and the read that fails) and a
  saved-file record.
- Concurrency: concurrent rating writes and React's re-render scheduling. Every handler
  runs to completion in sequence, so a state setter's `prev` is the current field.
- Text.ToLower: lowercases the ASCII letters only. Unicode case mapping is not modelled.
- GenreChart.Distinct: keys are taken in insertion order. JavaScript's ordering of
  integer-like object keys before the others is not modelled.
- GenreChart.TallyGenres, GenreChart.CountGenres, Dashboard.RankedGenres and
  Dashboard.FavouriteGenre: both tallies start from a plain `{}` object. A genre
  named like a member of `Object.prototype` is not modelled as the browser treats it.
  Genres such as "constructor" or "toString" read an inherited function, so the count
  becomes a string and the sort compares NaN. A genre "__proto__" is never stored, so
  it drops out of the chart and the ranking. The model counts these genres like any
  other.
- Theme persistence, `localStorage`, DOM class toggling, the Escape key handler of the
  trailer modal, and the pure-render screens (PageHeader, VideoPlayerScreen, StatCard,
  WatchHistoryCard, DownloadHistoryTable, WishlistScreen, AdminLoginScreen, the icons).
- Password visibility toggles and the active-season selector: they only change what is
  rendered.
- The recent-uploads edit button only forwards the id, so it has no model.
- The dashboard's "no favourite genre" case: the source then filters on `undefined`, and
  no genre is `undefined`, so the model returns no recommendations
  (`Dashboard.Recommendations`).
