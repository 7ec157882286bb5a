/** The administrator's upload form (components/UploadForm.tsx): the season and episode
    list edits, the comma-separated genre field, loading an item to edit, and the
    submit validation that turns the form into a `ContentUploadData` payload. */
module UploadForm {
  import opened Types
  import opened Text
  import opened Lists

  // ----- season and episode list edits -----

  function MaxSeasonNumber(seasons: seq<Season>): (m: int)
    requires |seasons| > 0
    ensures forall i :: 0 <= i < |seasons| ==> seasons[i].seasonNumber <= m
    ensures exists i :: 0 <= i < |seasons| && seasons[i].seasonNumber == m
  {
    if |seasons| == 1 then seasons[0].seasonNumber
    else
      var m := MaxSeasonNumber(seasons[1..]);
      if seasons[0].seasonNumber >= m then seasons[0].seasonNumber else m
  }

  /** The number `handleAddSeason` gives a new season. */
  function NextSeasonNumber(seasons: seq<Season>): int {
    if |seasons| > 0 then MaxSeasonNumber(seasons) + 1 else 1
  }

  /** `handleAddSeason`, with the clock's value as the fresh id: one empty season is
      appended, numbered above every existing season (1 for the first). */
  function AddSeason(seasons: seq<Season>, freshId: int): (r: seq<Season>)
    ensures |r| == |seasons| + 1 && r[..|seasons|] == seasons
    ensures r[|seasons|].id == freshId && r[|seasons|].episodes == []
    ensures forall i :: 0 <= i < |seasons| ==> seasons[i].seasonNumber < r[|seasons|].seasonNumber
    ensures seasons == [] ==> r[0].seasonNumber == 1
    ensures seasons != [] ==>
              exists i :: 0 <= i < |seasons| && r[|seasons|].seasonNumber == seasons[i].seasonNumber + 1
  {
    seasons + [Season(freshId, NextSeasonNumber(seasons), [])]
  }

  /** `handleRemoveSeason`: every season with that id goes, the rest stay in order. */
  function RemoveSeason(seasons: seq<Season>, seasonId: int): (r: seq<Season>)
    ensures IsSubsequence(r, seasons)
    ensures forall i :: 0 <= i < |r| ==> r[i].id != seasonId
    ensures forall i :: 0 <= i < |seasons| && seasons[i].id != seasonId ==> seasons[i] in r
  {
    FilterIsSubsequence(seasons, (s: Season) => s.id != seasonId);
    Filter(seasons, (s: Season) => s.id != seasonId)
  }

  /** `seasons.map((season, sIdx) => sIdx !== seasonIndex ? season : { ...season, episodes: f(season.episodes) })`. */
  function MapSeason(seasons: seq<Season>, si: int, f: seq<Episode> -> seq<Episode>): (r: seq<Season>)
    ensures |r| == |seasons|
    ensures forall i :: 0 <= i < |seasons| && i != si ==> r[i] == seasons[i]
    ensures 0 <= si < |seasons| ==>
              r[si] == Season(seasons[si].id, seasons[si].seasonNumber, f(seasons[si].episodes))
  {
    seq(|seasons|, i requires 0 <= i < |seasons| =>
      if i == si then seasons[i].(episodes := f(seasons[i].episodes)) else seasons[i])
  }

  /** `episodes.map((episode, eIdx) => eIdx !== episodeIndex ? episode : f(episode))`. */
  function MapEpisode(episodes: seq<Episode>, ei: int, f: Episode -> Episode): (r: seq<Episode>)
    ensures |r| == |episodes|
    ensures forall i :: 0 <= i < |episodes| && i != ei ==> r[i] == episodes[i]
    ensures 0 <= ei < |episodes| ==> r[ei] == f(episodes[ei])
  {
    seq(|episodes|, i requires 0 <= i < |episodes| =>
      if i == ei then f(episodes[i]) else episodes[i])
  }

  /** The episode `handleAddEpisode` appends: id "s<season number>e<count + 1>", no
      title, duration "45m", no file. */
  function NewEpisode(season: Season): Episode {
    Episode("s" + IntToString(season.seasonNumber) + "e" + IntToString(|season.episodes| + 1),
            "", "45m", None, None, None)
  }

  /** `handleAddEpisode`: the target season gains one episode at its end; every other
      season is unchanged. */
  function AddEpisode(seasons: seq<Season>, si: nat): (r: seq<Season>)
    requires si < |seasons|
    ensures |r| == |seasons|
    ensures forall i :: 0 <= i < |seasons| && i != si ==> r[i] == seasons[i]
    ensures r[si].id == seasons[si].id && r[si].seasonNumber == seasons[si].seasonNumber
    ensures r[si].episodes == seasons[si].episodes + [NewEpisode(seasons[si])]
  {
    var e := NewEpisode(seasons[si]);
    MapSeason(seasons, si, (es: seq<Episode>) => es + [e])
  }

  /** `episodes.filter((_, eIdx) => eIdx !== k)`: the list without position k (the
      whole list when k is no position of it). */
  function WithoutIndex<T>(s: seq<T>, k: int): (r: seq<T>)
    ensures 0 <= k < |s| ==> r == s[..k] + s[k + 1..]
    ensures !(0 <= k < |s|) ==> r == s
  {
    if s == [] then []
    else
      var rest := WithoutIndex(s[1..], k - 1);
      if k == 0 then
        rest
      else
        assert 0 < k < |s| ==> s[..k] == [s[0]] + s[1..][..k - 1] && s[k + 1..] == s[1..][k..];
        [s[0]] + rest
  }

  /** `handleRemoveEpisode`: only the episode at that position of that season goes. */
  function RemoveEpisode(seasons: seq<Season>, si: int, ei: int): (r: seq<Season>)
    ensures |r| == |seasons|
    ensures forall i :: 0 <= i < |seasons| && i != si ==> r[i] == seasons[i]
    ensures 0 <= si < |seasons| ==>
              && r[si].id == seasons[si].id && r[si].seasonNumber == seasons[si].seasonNumber
              && r[si].episodes == WithoutIndex(seasons[si].episodes, ei)
  {
    MapSeason(seasons, si, (es: seq<Episode>) => WithoutIndex(es, ei))
  }

  /** Episode ids come from the episode count, not from the ids in use: adding two
      episodes, removing the first and adding another leaves two episodes "s1e2". */
  lemma RemoveThenAddRepeatsEpisodeId()
    ensures var s0 := [Season(1, 1, [])];
            var s1 := AddEpisode(AddEpisode(s0, 0), 0);
            var s2 := AddEpisode(RemoveEpisode(s1, 0, 0), 0);
            |s2[0].episodes| == 2 && s2[0].episodes[0].id == s2[0].episodes[1].id == "s1e2"
  {
    var s0 := [Season(1, 1, [])];
    var a := AddEpisode(s0, 0);
    assert a[0].episodes[0].id == "s1e1" by {
      assert IntToString(1) == "1";
    }
    var s1 := AddEpisode(a, 0);
    assert s1[0].episodes[1].id == "s1e2" by {
      assert IntToString(2) == "2";
    }
    var r := RemoveEpisode(s1, 0, 0);
    assert r[0].episodes == [s1[0].episodes[1]];
    var s2 := AddEpisode(r, 0);
    assert s2[0].episodes[1].id == "s1e2" by {
      assert IntToString(2) == "2";
    }
  }

  datatype EpisodeField = TitleField | DurationField

  function SetField(e: Episode, field: EpisodeField, value: string): Episode {
    match field
    case TitleField => e.(title := value)
    case DurationField => e.(duration := value)
  }

  /** `handleEpisodeChange`: the named field of one episode of one season takes the
      value; everything else is unchanged. */
  function EditEpisode(seasons: seq<Season>, si: int, ei: int, field: EpisodeField, value: string): (r: seq<Season>)
    ensures |r| == |seasons|
    ensures forall i :: 0 <= i < |seasons| && i != si ==> r[i] == seasons[i]
    ensures 0 <= si < |seasons| ==>
              var before, after := seasons[si].episodes, r[si].episodes;
              && r[si].id == seasons[si].id && r[si].seasonNumber == seasons[si].seasonNumber
              && |after| == |before|
              && (forall j :: 0 <= j < |before| && j != ei ==> after[j] == before[j])
              && (0 <= ei < |before| ==>
                    && after[ei].id == before[ei].id
                    && after[ei].fileName == before[ei].fileName
                    && after[ei].fileSize == before[ei].fileSize
                    && after[ei].fileUrl == before[ei].fileUrl
                    && (field == TitleField ==>
                          after[ei].title == value && after[ei].duration == before[ei].duration)
                    && (field == DurationField ==>
                          after[ei].duration == value && after[ei].title == before[ei].title))
  {
    MapSeason(seasons, si, (es: seq<Episode>) => MapEpisode(es, ei, (e: Episode) => SetField(e, field, value)))
  }

  /** A file chosen in a file input: its name and its size as `getFileSize` renders it. */
  datatype FileChoice = FileChoice(name: string, sizeText: string)

  /** `handleEpisodeFileChange`, with the new object URL as a parameter: one episode's
      file fields are replaced. */
  function SetEpisodeFile(seasons: seq<Season>, si: int, ei: int, file: FileChoice, url: string): (r: seq<Season>)
    requires 0 <= si < |seasons| ==> 0 <= ei < |seasons[si].episodes|
    ensures |r| == |seasons|
    ensures forall i :: 0 <= i < |seasons| && i != si ==> r[i] == seasons[i]
    ensures 0 <= si < |seasons| ==>
              var before, after := seasons[si].episodes, r[si].episodes;
              && |after| == |before|
              && (forall j :: 0 <= j < |before| && j != ei ==> after[j] == before[j])
              && after[ei] == Episode(before[ei].id, before[ei].title, before[ei].duration,
                                      Some(file.name), Some(file.sizeText), Some(url))
  {
    MapSeason(seasons, si, (es: seq<Episode>) => MapEpisode(es, ei,
      (e: Episode) => e.(fileName := Some(file.name), fileSize := Some(file.sizeText), fileUrl := Some(url))))
  }

  // ----- the genre field -----

  function TrimEach(parts: seq<string>): (r: seq<string>)
    ensures |r| == |parts|
    ensures forall i :: 0 <= i < |parts| ==> r[i] == Trim(parts[i])
  {
    if parts == [] then [] else [Trim(parts[0])] + TrimEach(parts[1..])
  }

  /** A genre as the field can carry it: not empty, no comma, nothing to trim. */
  predicate Genre(g: string) {
    g != "" && ',' !in g && Trimmed(g)
  }

  /** Trimming pieces that hold no comma gives trimmed pieces that hold no comma. */
  lemma {:induction false} TrimEachCommaFree(pieces: seq<string>)
    requires forall i :: 0 <= i < |pieces| ==> ',' !in pieces[i]
    ensures forall i :: 0 <= i < |pieces| ==> ',' !in TrimEach(pieces)[i] && Trimmed(TrimEach(pieces)[i])
  {
    forall i | 0 <= i < |pieces|
      ensures ',' !in TrimEach(pieces)[i] && Trimmed(TrimEach(pieces)[i])
    {
      TrimAddsNothing(pieces[i], ',');
    }
  }

  /** `genres.split(',').map(g => g.trim()).filter(Boolean)`: every genre it yields is
      non-empty, trimmed and comma-free. */
  function ParseGenres(text: string): (r: seq<string>)
    ensures forall i :: 0 <= i < |r| ==> Genre(r[i])
  {
    var trimmed := TrimEach(Split(text, ','));
    TrimEachCommaFree(Split(text, ','));
    Filter(trimmed, NonEmpty)
  }

  /** `filter(Boolean)` on strings: the empty string is falsy. */
  predicate NonEmpty(g: string) {
    g != ""
  }

  lemma {:induction false} TrimEachAppend(a: seq<string>, b: seq<string>)
    ensures TrimEach(a + b) == TrimEach(a) + TrimEach(b)
  {
    if a == [] {
      assert a + b == b;
    } else {
      assert (a + b)[1..] == a[1..] + b;
      TrimEachAppend(a[1..], b);
    }
  }

  /** A blank after the separator is trimmed away with the rest of the piece. */
  lemma {:induction false} ParseAfterBlank(x: string)
    ensures Filter(TrimEach(Split(" " + x, ',')), NonEmpty) == ParseGenres(x)
  {
    var s := " " + x;
    assert s[0] == ' ' && s[1..] == x;
    var rest := Split(x, ',');
    assert Split(s, ',') == [[' '] + rest[0]] + rest[1..];
    TrimDropsLeadingWhitespace(' ', rest[0]);
    var pieces := Split(s, ',');
    forall i | 0 <= i < |pieces| ensures Trim(pieces[i]) == Trim(rest[i]) {
      if i > 0 {
        assert pieces[i] == rest[i];
      }
    }
    assert TrimEach(pieces) == TrimEach(rest);
  }

  /** One genre in front of the ", " separator parses as itself. */
  lemma ParseCons(g: string, tail: string)
    requires Genre(g)
    ensures ParseGenres(g + ", " + tail) == [g] + ParseGenres(tail)
  {
    var after := Split(" " + tail, ',');
    assert g + ", " + tail == g + [','] + (" " + tail);
    SplitAtFirstSeparator(g, ',', " " + tail);
    TrimKeepsTrimmed(g);
    TrimEachAppend([g], after);
    assert TrimEach([g]) == [g];
    FilterAppend([g], TrimEach(after), NonEmpty);
    assert Filter([g], NonEmpty) == [g];
    ParseAfterBlank(tail);
  }

  /** The field shows an item's genres joined by ", " when it is loaded for editing;
      parsing that text gives the same genres back. */
  lemma {:induction false} ParseJoinedGenres(genres: seq<string>)
    requires forall i :: 0 <= i < |genres| ==> Genre(genres[i])
    ensures ParseGenres(Join(genres, ", ")) == genres
  {
    if genres == [] {
      assert Split("", ',') == [""];
      assert TrimEach([""]) == [""];
    } else if |genres| == 1 {
      ParseSingle(genres[0]);
    } else {
      var tail := genres[1..];
      assert Join(genres, ", ") == genres[0] + ", " + Join(tail, ", ");
      assert forall i :: 0 <= i < |tail| ==> Genre(tail[i]) by {
        forall i | 0 <= i < |tail| ensures Genre(tail[i]) {
          assert tail[i] == genres[i + 1];
        }
      }
      ParseCons(genres[0], Join(tail, ", "));
      ParseJoinedGenres(tail);
      assert genres == [genres[0]] + tail;
    }
  }

  lemma ParseSingle(g: string)
    requires Genre(g)
    ensures ParseGenres(g) == [g]
  {
    SplitWithoutSeparator(g, ',');
    TrimKeepsTrimmed(g);
    assert TrimEach([g]) == [g];
  }

  /** Parsing is stable: loading parsed genres into the field and parsing again gives
      the same list. */
  lemma ParseGenresStable(text: string)
    ensures ParseGenres(Join(ParseGenres(text), ", ")) == ParseGenres(text)
  {
    ParseJoinedGenres(ParseGenres(text));
  }

  // ----- the form and its submission -----

  /** The form fields `handleSubmit` reads, and the item being edited if any. */
  datatype Draft = Draft(
    kind: ContentKind,
    title: string,
    description: string,
    posterPreview: Option<string>,
    movieFile: Option<FileChoice>,
    trailerUrl: Option<string>,
    movieFileUrl: Option<string>,
    duration: string,
    genresText: string,
    seasons: seq<Season>,
    editing: Option<ContentItem>)

  const FillMessage := "Please fill out title, description, and select a poster."
  const MovieFileMessage := "Please select a movie file for the new upload."
  const EpisodesMessage := "Please ensure all episodes have a title and a file selected."

  datatype Submission = Rejected(message: string) | Accepted(data: ContentUploadData, existingId: Option<int>)

  /** An episode a show may be saved with: a title and a file name. */
  predicate EpisodeReady(e: Episode) {
    e.title != "" && Present(e.fileName)
  }

  predicate AllEpisodesReady(seasons: seq<Season>) {
    forall i, j :: 0 <= i < |seasons| && 0 <= j < |seasons[i].episodes| ==>
      EpisodeReady(seasons[i].episodes[j])
  }

  /** `contentToEdit?.releaseYear || new Date().getFullYear()`. */
  function ReleaseYear(editing: Option<ContentItem>, currentYear: int): int {
    if editing.Some? && editing.value.releaseYear.Some? && editing.value.releaseYear.value != 0
    then editing.value.releaseYear.value
    else currentYear
  }

  /** A new file's name, else the edited movie's. */
  function MovieFileName(d: Draft): Option<string> {
    if d.movieFile.Some? then Some(d.movieFile.value.name)
    else if d.editing.Some? && d.editing.value.Movie? then d.editing.value.fileName
    else None
  }

  function MovieFileSize(d: Draft): Option<string> {
    if d.movieFile.Some? then Some(d.movieFile.value.sizeText)
    else if d.editing.Some? && d.editing.value.Movie? then d.editing.value.fileSize
    else None
  }

  function EditedId(d: Draft): Option<int> {
    if d.editing.Some? then Some(d.editing.value.id) else None
  }

  /** `handleSubmit` once past its `isUploading` check. A form is saved exactly when it
      has a title, a description and a poster, and either it is a movie with a new file
      (or an edit of an existing item) or it is a show whose every episode has a title
      and a file; the first failed check names the alert. A saved form carries its
      kind, title, description, poster, parsed genres, trailer, release year (the
      edited item's when it has a non-zero one, else the current year) and the edited
      item's id; a movie also carries its duration and file URL, and the new file's
      name and size, or else the edited movie's. */
  function Submit(d: Draft, currentYear: int): (r: Submission)
    ensures r.Accepted? <==>
              && d.title != "" && d.description != "" && Present(d.posterPreview)
              && (d.kind == MovieKind ==> d.editing.Some? || d.movieFile.Some?)
              && (d.kind == ShowKind ==> AllEpisodesReady(d.seasons))
    ensures r.Rejected? ==>
              r.message == if d.title == "" || d.description == "" || !Present(d.posterPreview) then FillMessage
                           else if d.kind == MovieKind then MovieFileMessage
                           else EpisodesMessage
    ensures r.Accepted? ==>
              && r.data.Kind() == d.kind
              && r.data.title == d.title && r.data.description == d.description
              && Some(r.data.posterUrl) == d.posterPreview
              && r.data.genres == ParseGenres(d.genresText)
              && r.data.trailerUrl == d.trailerUrl
              && r.existingId == (if d.editing.Some? then Some(d.editing.value.id) else None)
              && (r.data.ShowUpload? ==> r.data.seasons == d.seasons)
    ensures r.Accepted? ==>
              r.data.releaseYear == Some(if d.editing.Some? && d.editing.value.releaseYear.Some?
                                            && d.editing.value.releaseYear.value != 0
                                         then d.editing.value.releaseYear.value else currentYear)
    ensures r.Accepted? && r.data.MovieUpload? ==>
              r.data.duration == d.duration && r.data.fileUrl == d.movieFileUrl
    ensures r.Accepted? && d.kind == MovieKind && d.movieFile.Some? ==>
              r.data.fileName == Some(d.movieFile.value.name)
              && r.data.fileSize == Some(d.movieFile.value.sizeText)
    ensures r.Accepted? && d.kind == MovieKind && d.movieFile.None? && d.editing.Some?
              && d.editing.value.Movie? ==>
              r.data.fileName == d.editing.value.fileName && r.data.fileSize == d.editing.value.fileSize
    ensures r.Accepted? && d.kind == MovieKind && d.movieFile.None? && d.editing.Some?
              && d.editing.value.Show? ==>
              r.data.fileName.None? && r.data.fileSize.None?
  {
    if d.title == "" || d.description == "" || !Present(d.posterPreview) then
      Rejected(FillMessage)
    else if d.kind == MovieKind then
      if d.editing.None? && d.movieFile.None? then Rejected(MovieFileMessage)
      else
        Accepted(
          MovieUpload(d.title, d.posterPreview.value, d.duration, ParseGenres(d.genresText),
                      d.description, Some(ReleaseYear(d.editing, currentYear)),
                      MovieFileName(d), MovieFileSize(d), d.trailerUrl, d.movieFileUrl),
          EditedId(d))
    else
      assert d.kind == ShowKind;
      if !AllEpisodesReady(d.seasons) then
        Rejected(EpisodesMessage)
      else
        Accepted(
          ShowUpload(d.title, d.posterPreview.value, ParseGenres(d.genresText), d.description,
                     Some(ReleaseYear(d.editing, currentYear)), d.trailerUrl, d.seasons),
          EditedId(d))
  }

  /** A filled movie form with a file or an edit target is saved field by field. */
  lemma SubmitAcceptsMovie(d: Draft, currentYear: int)
    requires d.title != "" && d.description != "" && Present(d.posterPreview)
    requires d.kind == MovieKind && (d.editing.Some? || d.movieFile.Some?)
    ensures Submit(d, currentYear)
         == Accepted(MovieUpload(d.title, d.posterPreview.value, d.duration, ParseGenres(d.genresText),
                                 d.description, Some(ReleaseYear(d.editing, currentYear)),
                                 MovieFileName(d), MovieFileSize(d), d.trailerUrl, d.movieFileUrl),
                     EditedId(d))
  {
  }

  /** A filled show form whose episodes are all ready is saved field by field. */
  lemma SubmitAcceptsShow(d: Draft, currentYear: int)
    requires d.title != "" && d.description != "" && Present(d.posterPreview)
    requires d.kind == ShowKind && AllEpisodesReady(d.seasons)
    ensures Submit(d, currentYear)
         == Accepted(ShowUpload(d.title, d.posterPreview.value, ParseGenres(d.genresText), d.description,
                                Some(ReleaseYear(d.editing, currentYear)), d.trailerUrl, d.seasons),
                     EditedId(d))
  {
  }

  /** `x || null` followed by `?? undefined`: a falsy string is dropped. */
  function Truthy(s: Option<string>): Option<string> {
    if Present(s) then s else None
  }

  /** The form as the `useEffect` leaves it for a new upload (the clock's value as the
      first season's id). */
  function NewDraft(freshSeasonId: int): Draft {
    Draft(MovieKind, "", "", None, None, None, None, "2h 0m", "Action, Adventure",
          [Season(freshSeasonId, 1, [])], None)
  }

  /** The form as the `useEffect` leaves it for an item to edit; the fields it does not
      set keep their initial values. */
  function EditDraft(item: ContentItem): Draft {
    Draft(item.Kind(), item.title, item.description, Some(item.posterUrl), None,
          Truthy(item.trailerUrl),
          if item.Movie? then Truthy(item.fileUrl) else None,
          if item.Movie? then item.duration else "2h 0m",
          Join(item.genres, ", "),
          if item.Show? then item.seasons else [Season(1, 1, [])],
          Some(item))
  }

  /** The form's free-text inputs. */
  datatype TextInput = TitleInput | DescriptionInput | DurationInput | GenresInput

  /** The form of `UploadForm`. */
  class Form {
    var kind: ContentKind
    var title: string
    var description: string
    var posterPreview: Option<string>
    var movieFile: Option<FileChoice>
    var trailerUrl: Option<string>
    var movieFileUrl: Option<string>
    var duration: string
    var genresText: string
    var seasons: seq<Season>
    var isUploading: bool
    const editing: Option<ContentItem>
    /** The `onSave` calls, in order. */
    var saves: seq<Submission>
    /** The alerts raised, in order. */
    var alerts: seq<string>

    function Snapshot(): Draft
      reads this
    {
      Draft(kind, title, description, posterPreview, movieFile, trailerUrl, movieFileUrl,
            duration, genresText, seasons, editing)
    }

    /** Mounting the form: initial state, then the `useEffect` on `contentToEdit`. */
    constructor(contentToEdit: Option<ContentItem>, freshSeasonId: int)
      ensures Snapshot() == if contentToEdit.Some? then EditDraft(contentToEdit.value)
                            else NewDraft(freshSeasonId)
      ensures !isUploading && saves == [] && alerts == []
    {
      var d := if contentToEdit.Some? then EditDraft(contentToEdit.value) else NewDraft(freshSeasonId);
      kind := d.kind;
      title := d.title;
      description := d.description;
      posterPreview := d.posterPreview;
      movieFile := d.movieFile;
      trailerUrl := d.trailerUrl;
      movieFileUrl := d.movieFileUrl;
      duration := d.duration;
      genresText := d.genresText;
      seasons := d.seasons;
      editing := contentToEdit;
      isUploading := false;
      saves := [];
      alerts := [];
    }

    /** The movie / TV show toggle. */
    method SetKind(k: ContentKind)
      modifies this
      ensures Snapshot() == old(Snapshot()).(kind := k)
      ensures isUploading == old(isUploading) && saves == old(saves) && alerts == old(alerts)
    {
      kind := k;
    }

    /** An `onChange` of a free-text input. */
    method Type(input: TextInput, text: string)
      modifies this
      ensures Snapshot() == match input
                case TitleInput => old(Snapshot()).(title := text)
                case DescriptionInput => old(Snapshot()).(description := text)
                case DurationInput => old(Snapshot()).(duration := text)
                case GenresInput => old(Snapshot()).(genresText := text)
      ensures isUploading == old(isUploading) && saves == old(saves) && alerts == old(alerts)
    {
      match input
      case TitleInput => title := text;
      case DescriptionInput => description := text;
      case DurationInput => duration := text;
      case GenresInput => genresText := text;
    }

    /** A chosen poster, once the file reader has produced its data URL. */
    method ChoosePoster(dataUrl: string)
      modifies this
      ensures Snapshot() == old(Snapshot()).(posterPreview := Some(dataUrl))
      ensures isUploading == old(isUploading) && saves == old(saves) && alerts == old(alerts)
    {
      posterPreview := Some(dataUrl);
    }

    /** `handleMovieFileChange`, with the new object URL as a parameter. */
    method ChooseMovieFile(file: FileChoice, url: string)
      modifies this
      ensures Snapshot() == old(Snapshot()).(movieFile := Some(file), movieFileUrl := Some(url))
      ensures isUploading == old(isUploading) && saves == old(saves) && alerts == old(alerts)
    {
      movieFile := Some(file);
      movieFileUrl := Some(url);
    }

    /** `handleTrailerFileChange`, with the new object URL as a parameter. */
    method ChooseTrailer(url: string)
      modifies this
      ensures Snapshot() == old(Snapshot()).(trailerUrl := Some(url))
      ensures isUploading == old(isUploading) && saves == old(saves) && alerts == old(alerts)
    {
      trailerUrl := Some(url);
    }

    method AddSeasonClick(freshId: int)
      modifies this
      ensures Snapshot() == old(Snapshot()).(seasons := AddSeason(old(seasons), freshId))
      ensures isUploading == old(isUploading) && saves == old(saves) && alerts == old(alerts)
    {
      seasons := AddSeason(seasons, freshId);
    }

    method RemoveSeasonClick(seasonId: int)
      modifies this
      ensures Snapshot() == old(Snapshot()).(seasons := RemoveSeason(old(seasons), seasonId))
      ensures isUploading == old(isUploading) && saves == old(saves) && alerts == old(alerts)
    {
      seasons := RemoveSeason(seasons, seasonId);
    }

    method AddEpisodeClick(si: nat)
      requires si < |seasons|
      modifies this
      ensures Snapshot() == old(Snapshot()).(seasons := AddEpisode(old(seasons), si))
      ensures isUploading == old(isUploading) && saves == old(saves) && alerts == old(alerts)
    {
      seasons := AddEpisode(seasons, si);
    }

    method RemoveEpisodeClick(si: int, ei: int)
      modifies this
      ensures Snapshot() == old(Snapshot()).(seasons := RemoveEpisode(old(seasons), si, ei))
      ensures isUploading == old(isUploading) && saves == old(saves) && alerts == old(alerts)
    {
      seasons := RemoveEpisode(seasons, si, ei);
    }

    method EditEpisodeField(si: int, ei: int, field: EpisodeField, value: string)
      modifies this
      ensures Snapshot() == old(Snapshot()).(seasons := EditEpisode(old(seasons), si, ei, field, value))
      ensures isUploading == old(isUploading) && saves == old(saves) && alerts == old(alerts)
    {
      seasons := EditEpisode(seasons, si, ei, field, value);
    }

    method ChooseEpisodeFile(si: int, ei: int, file: FileChoice, url: string)
      requires 0 <= si < |seasons| ==> 0 <= ei < |seasons[si].episodes|
      modifies this
      ensures Snapshot() == old(Snapshot()).(seasons := SetEpisodeFile(old(seasons), si, ei, file, url))
      ensures isUploading == old(isUploading) && saves == old(saves) && alerts == old(alerts)
    {
      seasons := SetEpisodeFile(seasons, si, ei, file, url);
    }

    /** `handleSubmit`: ignored while a save is pending; a rejected form raises its
        alert; an accepted one marks the form uploading and hands the payload and the
        edited id to `onSave` (after the delay). */
    method SubmitClick(currentYear: int)
      modifies this
      ensures Snapshot() == old(Snapshot())
      ensures old(isUploading) ==> isUploading && saves == old(saves) && alerts == old(alerts)
      ensures !old(isUploading) && Submit(old(Snapshot()), currentYear).Rejected? ==>
                && !isUploading && saves == old(saves)
                && alerts == old(alerts) + [Submit(old(Snapshot()), currentYear).message]
      ensures !old(isUploading) && Submit(old(Snapshot()), currentYear).Accepted? ==>
                && isUploading && alerts == old(alerts)
                && saves == old(saves) + [Submit(old(Snapshot()), currentYear)]
    {
      if isUploading {
        return;
      }
      var outcome := Submit(Snapshot(), currentYear);
      if outcome.Rejected? {
        alerts := alerts + [outcome.message];
        return;
      }
      isUploading := true;
      saves := saves + [outcome];
    }
  }
}
