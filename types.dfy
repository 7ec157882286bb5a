/** The catalogue's data model: content items (movies and TV shows), their seasons,
    episodes and per-user rating entries, the upload form's payload, the signed-in user,
    and the two enumerations the application routes on (pages and session roles). */
module Types {

  datatype Option<+T> = None | Some(value: T)

  /** JavaScript truthiness of an optional string: absent and "" are both falsy. */
  predicate Present(s: Option<string>) {
    s.Some? && s.value != ""
  }

  datatype CastMember = CastMember(name: string, imageUrl: string)

  /** An episode; its file fields are all optional. */
  datatype Episode = Episode(
    id: string,
    title: string,
    duration: string,
    fileName: Option<string>,
    fileSize: Option<string>,
    fileUrl: Option<string>)

  /** A season: an id, a season number and an ordered list of episodes. */
  datatype Season = Season(id: int, seasonNumber: int, episodes: seq<Episode>)

  /** One user's rating of one content item. */
  datatype RatingEntry = RatingEntry(userId: string, rating: int)

  /** Month of a date as the platform's getMonth() reports it: 0 is January. */
  type Month = m: int | 0 <= m < 12

  /** An upload timestamp, already parsed: its time value (getTime) and its calendar
      year and month. */
  datatype UploadDate = UploadDate(time: int, year: int, month: Month)

  datatype ContentKind = MovieKind | ShowKind

  /** A content item is exactly one of the two variants; the constructor plays the part
      of the `type` tag, so movie-only fields (duration and the file fields) and the
      show-only field (seasons) can never be mixed. */
  datatype ContentItem =
    | Movie(
        id: int,
        title: string,
        posterUrl: string,
        heroUrl: string,
        rating: real,
        ratings: seq<RatingEntry>,
        duration: string,
        genres: seq<string>,
        description: string,
        cast: seq<CastMember>,
        releaseYear: Option<int>,
        fileName: Option<string>,
        fileSize: Option<string>,
        uploadDate: Option<UploadDate>,
        trailerUrl: Option<string>,
        fileUrl: Option<string>)
    | Show(
        id: int,
        title: string,
        posterUrl: string,
        heroUrl: string,
        rating: real,
        ratings: seq<RatingEntry>,
        genres: seq<string>,
        description: string,
        cast: seq<CastMember>,
        releaseYear: Option<int>,
        uploadDate: Option<UploadDate>,
        trailerUrl: Option<string>,
        seasons: seq<Season>)
  {
    /** The value of the `type` tag. */
    function Kind(): ContentKind {
      if Movie? then MovieKind else ShowKind
    }
  }

  /** What the upload form hands to the save handler: no id, hero image, rating,
      ratings or cast. */
  datatype ContentUploadData =
    | MovieUpload(
        title: string,
        posterUrl: string,
        duration: string,
        genres: seq<string>,
        description: string,
        releaseYear: Option<int>,
        fileName: Option<string>,
        fileSize: Option<string>,
        trailerUrl: Option<string>,
        fileUrl: Option<string>)
    | ShowUpload(
        title: string,
        posterUrl: string,
        genres: seq<string>,
        description: string,
        releaseYear: Option<int>,
        trailerUrl: Option<string>,
        seasons: seq<Season>)
  {
    function Kind(): ContentKind {
      if MovieUpload? then MovieKind else ShowKind
    }
  }

  datatype User = User(id: string, email: Option<string>, username: string, profileImageUrl: Option<string>)

  /** The pages of the application. */
  datatype Page = Home | Details | Search | Wishlist | Profile | Upload | AdminDashboard | Player

  /** The session role ('unauthenticated' | 'user' | 'admin'). */
  datatype Role = Unauthenticated | RegularUser | Administrator
}
