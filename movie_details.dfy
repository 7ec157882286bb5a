/** The movie details screen of App.tsx: the protected-action gate in front of rating,
    wishlisting, playing and downloading, and the movie download state machine
    (idle, downloading, downloaded) with its progress text over the chunk stream. */
module MovieDetails {
  import opened Types
  import opened Transfer

  /** How `handleProtectedAction` resolves an action: an unauthenticated session is
      asked to sign in, any other runs the action. */
  datatype Guarded<T> = RequestLogin | Proceed(action: T)

  function Protected<T>(role: Role, action: T): (g: Guarded<T>)
    ensures g.RequestLogin? <==> role == Unauthenticated
    ensures g.Proceed? ==> g.action == action
  {
    if role == Unauthenticated then RequestLogin else Proceed(action)
  }

  /** What the screen asks the application to do. */
  datatype Request =
    | RateContent(contentId: int, rating: int)
    | ToggleWishlist
    | PlayContent(url: string, title: string, contentId: int)
    | NoRequest

  /** A click on a star of the rating widget. */
  function RateClick(role: Role, content: ContentItem, star: int): (g: Guarded<Request>)
    ensures g.RequestLogin? <==> role == Unauthenticated
    ensures g.Proceed? ==> g.action == RateContent(content.id, star)
  {
    Protected(role, RateContent(content.id, star))
  }

  /** The "Watch Now" button (movies only): playback is requested only when the movie
      has a file URL. */
  function WatchClick(role: Role, content: ContentItem): (g: Guarded<Request>)
    ensures g.RequestLogin? <==> role == Unauthenticated
    ensures g.Proceed? && g.action.PlayContent? ==>
              content.Movie? && Present(content.fileUrl) &&
              g.action == PlayContent(content.fileUrl.value, content.title, content.id)
    ensures g.Proceed? && content.Movie? && Present(content.fileUrl) ==> g.action.PlayContent?
  {
    Protected(role,
      if content.Movie? && Present(content.fileUrl)
      then PlayContent(content.fileUrl.value, content.title, content.id)
      else NoRequest)
  }

  /** The wishlist button. */
  function WishlistClick(role: Role): (g: Guarded<Request>)
    ensures g.RequestLogin? <==> role == Unauthenticated
    ensures g.Proceed? ==> g.action == ToggleWishlist
  {
    Protected(role, ToggleWishlist)
  }

  /** The `downloadProgressText` field: empty, "(Starting...)", "(p%)" when the size is
      known, or a megabyte count (kept as the byte count) when it is not. */
  datatype Progress = NoText | Starting | Percent(p: int) | Megabytes(bytes: nat)

  /** `Math.round((loaded / total) * 100)` on exact rationals: Math.round rounds halves
      up, so this is the floor of 100 * loaded / total + 1/2. Double arithmetic can land
      just below an exact half and round down instead (23 of 40 bytes). */
  function RoundPercent(loaded: nat, total: nat): int
    requires total > 0
  {
    (200 * loaded + total) / (2 * total)
  }

  /** The integer formula is the nearest integer to 100 * loaded / total, halves going
      up. */
  lemma RoundPercentIsNearest(loaded: nat, total: nat)
    requires total > 0
    ensures var p := RoundPercent(loaded, total) as real;
            p - 0.5 <= 100.0 * (loaded as real) / (total as real) < p + 0.5
  {
    var t := total as real;
    var q := (200 * loaded + total) / (2 * total);
    var r := (200 * loaded + total) % (2 * total);
    assert 200 * loaded + total == 2 * total * q + r && 0 <= r < 2 * total;
    var x := 100.0 * (loaded as real) / t;
    assert x * t == 100.0 * (loaded as real);
    assert 2.0 * x * t == 2.0 * t * (q as real) + (r as real) - t;
    assert 2.0 * t * (x - q as real) == (r as real) - t;
    assert -t <= (r as real) - t < t;
    assert -1.0 <= 2.0 * (x - q as real) < 1.0 by {
      ScaleBounds(2.0 * (x - q as real), t, (r as real) - t);
    }
  }

  lemma ScaleBounds(y: real, t: real, v: real)
    requires t > 0.0 && t * y == v && -t <= v < t
    ensures -1.0 <= y < 1.0
  {
  }

  /** More bytes never show a smaller percentage. */
  lemma PercentMonotone(a: nat, b: nat, total: nat)
    requires total > 0 && a <= b
    ensures RoundPercent(a, total) <= RoundPercent(b, total)
  {
    var d := 2 * total;
    var x, y := 200 * a + total, 200 * b + total;
    var qx, qy := x / d, y / d;
    assert x == d * qx + x % d && y == d * qy + y % d;
    if qx > qy {
      MulGrows(d, qx - qy);
    }
  }

  /** All of a known size shows 100%, and no more than it never shows more. */
  lemma PercentBounds(loaded: nat, total: nat)
    requires total > 0 && loaded <= total
    ensures 0 <= RoundPercent(loaded, total) <= 100
    ensures loaded == total ==> RoundPercent(loaded, total) == 100
  {
    PercentMonotone(loaded, total, total);
    DivideExactly(200 * total + total, 2 * total, 100, total);
    NonNegativeQuotient(200 * loaded + total, 2 * total);
  }

  lemma DivideExactly(n: int, d: int, q: int, r: int)
    requires d > 0 && n == d * q + r && 0 <= r < d
    ensures n / d == q
  {
    var q', r' := n / d, n % d;
    assert d * q' + r' == d * q + r;
    MultipleBetween(d, q - q', r' - r);
  }

  /** The only multiple of d strictly between -d and d is 0. */
  lemma MultipleBetween(d: int, k: int, v: int)
    requires d > 0 && d * k == v && -d < v < d
    ensures k == 0
  {
    if k >= 1 {
      MulGrows(d, k);
    } else if k <= -1 {
      MulGrows(d, -k);
    }
  }

  lemma MulGrows(d: int, k: int)
    requires d > 0 && k >= 1
    ensures d * k >= d
  {
  }

  lemma NonNegativeQuotient(n: nat, d: int)
    requires d > 0
    ensures n / d >= 0
  {
  }

  /** The text shown after `loaded` bytes of a response whose size is `total`. */
  function ProgressFor(total: int, loaded: nat): Progress {
    if total > 0 then Percent(RoundPercent(loaded, total)) else Megabytes(loaded)
  }

  /** The texts shown, in order, while the given chunks arrive: after each one, the
      text for the bytes received so far. */
  function ProgressTexts(total: int, chunks: seq<Chunk>): (r: seq<Progress>)
    ensures |r| == |chunks|
  {
    if chunks == [] then []
    else ProgressTexts(total, chunks[..|chunks| - 1]) + [ProgressFor(total, Loaded(chunks))]
  }

  /** Text number i is the one for the first i + 1 chunks. */
  lemma {:induction false} ProgressTextsPointwise(total: int, chunks: seq<Chunk>)
    ensures forall i :: 0 <= i < |chunks| ==>
              ProgressTexts(total, chunks)[i] == ProgressFor(total, Loaded(chunks[..i + 1]))
  {
    if chunks != [] {
      var init := chunks[..|chunks| - 1];
      ProgressTextsPointwise(total, init);
      forall i | 0 <= i < |chunks|
        ensures ProgressTexts(total, chunks)[i] == ProgressFor(total, Loaded(chunks[..i + 1]))
      {
        if i < |init| {
          assert init[..i + 1] == chunks[..i + 1];
        } else {
          assert chunks[..i + 1] == chunks;
        }
      }
    }
  }

  lemma ProgressTextsSnoc(total: int, chunks: seq<Chunk>, c: Chunk)
    ensures ProgressTexts(total, chunks + [c])
         == ProgressTexts(total, chunks) + [ProgressFor(total, Loaded(chunks + [c]))]
  {
    assert (chunks + [c])[..|chunks|] == chunks;
  }

  /** With a known size the percentages shown never go down, and a body of exactly the
      announced size ends on 100%. */
  lemma PercentagesClimbTo100(total: nat, chunks: seq<Chunk>)
    requires total > 0
    ensures forall i, j :: 0 <= i < j < |chunks| ==>
              ProgressTexts(total, chunks)[i].Percent? && ProgressTexts(total, chunks)[j].Percent? &&
              ProgressTexts(total, chunks)[i].p <= ProgressTexts(total, chunks)[j].p
    ensures chunks != [] && Loaded(chunks) == total ==>
              ProgressTexts(total, chunks)[|chunks| - 1] == Percent(100)
  {
    var r := ProgressTexts(total, chunks);
    ProgressTextsPointwise(total, chunks);
    forall i, j | 0 <= i < j < |chunks| ensures r[i].Percent? && r[j].Percent? && r[i].p <= r[j].p {
      LoadedMonotone(chunks, i + 1, j + 1);
      PercentMonotone(Loaded(chunks[..i + 1]), Loaded(chunks[..j + 1]), total);
    }
    if chunks != [] && Loaded(chunks) == total {
      assert chunks[..|chunks|] == chunks;
      PercentBounds(total, total);
    }
  }

  /** Three reads of 3, 3 and 2 bytes of an 8-byte file show 38% (37.5 rounded up),
      75% and 100%. */
  lemma ThreeChunkExample()
    ensures ProgressTexts(8, [[0, 0, 0], [0, 0, 0], [0, 0]]) == [Percent(38), Percent(75), Percent(100)]
  {
    var cs: seq<Chunk> := [[0, 0, 0], [0, 0, 0], [0, 0]];
    assert cs[..1] == [[0, 0, 0]] && cs[..2] == [[0, 0, 0], [0, 0, 0]] && cs[..3] == cs;
    assert Concat(cs[..1]) == [0, 0, 0] by {
      ConcatSnoc([], cs[0]);
      assert [] + [cs[0]] == cs[..1];
    }
    assert Concat(cs[..2]) == [0, 0, 0, 0, 0, 0] by {
      ConcatSnoc(cs[..1], cs[1]);
      assert cs[..1] + [cs[1]] == cs[..2];
    }
    assert Concat(cs) == [0, 0, 0, 0, 0, 0, 0, 0] by {
      ConcatSnoc(cs[..2], cs[2]);
      assert cs[..2] + [cs[2]] == cs;
    }
  }

  /** The download part of the details screen of one movie. */
  class MovieDownload {
    const content: ContentItem
    var state: DownloadState
    var progressText: Progress
    /** Every progress text set, in order. */
    var shownTexts: seq<Progress>
    /** The files handed to the browser. */
    var saved: seq<SavedFile>
    /** The ids passed to `onContentDownloaded`, in order. */
    var downloadedIds: seq<int>
    /** "Download failed" alerts raised. */
    var failureAlerts: nat
    /** Calls of `onRequestLogin`. */
    var loginRequests: nat

    /** A download under way or finished belongs to a movie with a file URL and a file
        name. */
    ghost predicate Valid()
      reads this
    {
      state != Idle ==> content.Movie? && Present(content.fileUrl) && Present(content.fileName)
    }

    constructor(content: ContentItem)
      ensures Valid()
      ensures this.content == content && state == Idle && progressText == NoText
      ensures shownTexts == [] && saved == [] && downloadedIds == []
      ensures failureAlerts == 0 && loginRequests == 0
    {
      this.content := content;
      state := Idle;
      progressText := NoText;
      shownTexts := [];
      saved := [];
      downloadedIds := [];
      failureAlerts := 0;
      loginRequests := 0;
    }

    /** Whether `handleDownload` gets past its guard. */
    predicate CanStart()
      reads this
    {
      content.Movie? && state == Idle && Present(content.fileUrl) && Present(content.fileName)
    }

    /** `handleDownload` up to the fetch: a movie with a file URL and name, idle, moves
        to downloading with the "(Starting...)" text; anything else is left as it is. */
    method StartDownload() returns (started: bool)
      requires Valid()
      modifies this
      ensures Valid()
      ensures started == old(CanStart())
      ensures started ==> state == Downloading && progressText == Starting
                          && shownTexts == old(shownTexts) + [Starting]
      ensures !started ==> state == old(state) && progressText == old(progressText)
                           && shownTexts == old(shownTexts)
      ensures saved == old(saved) && downloadedIds == old(downloadedIds)
      ensures failureAlerts == old(failureAlerts) && loginRequests == old(loginRequests)
    {
      if !content.Movie? || state != Idle || !Present(content.fileUrl) || !Present(content.fileName) {
        return false;
      }
      state := Downloading;
      progressText := Starting;
      shownTexts := shownTexts + [Starting];
      return true;
    }

    /** The download button: `handleProtectedAction(handleDownload)`. */
    method DownloadClick(role: Role) returns (started: bool)
      requires Valid()
      modifies this
      ensures Valid()
      ensures role == Unauthenticated ==>
                !started && loginRequests == old(loginRequests) + 1
                && state == old(state) && progressText == old(progressText)
                && shownTexts == old(shownTexts)
      ensures role != Unauthenticated ==>
                started == old(CanStart()) && loginRequests == old(loginRequests)
                && (started ==> state == Downloading && progressText == Starting
                                && shownTexts == old(shownTexts) + [Starting])
                && (!started ==> state == old(state) && progressText == old(progressText)
                                 && shownTexts == old(shownTexts))
      ensures saved == old(saved) && downloadedIds == old(downloadedIds)
      ensures failureAlerts == old(failureAlerts)
    {
      if role == Unauthenticated {
        loginRequests := loginRequests + 1;
        return false;
      }
      started := StartDownload();
    }

    /** The rest of `handleDownload`, once the fetch has settled with `resp`: read the
        body to its end, showing the progress after every chunk, then save the file,
        mark the movie downloaded and report its id once; any failure on the way returns
        to idle with an alert. The text is cleared either way. */
    method ReceiveResponse(resp: Response)
      requires Valid() && state == Downloading
      modifies this
      ensures Valid()
      ensures shownTexts == old(shownTexts)
                + ProgressTexts(resp.contentLength, resp.chunks[..Delivered(resp)]) + [NoText]
      ensures progressText == NoText
      ensures Completes(resp) ==>
                && state == Downloaded
                && saved == old(saved) + [SavedFile(content.fileName.value, Concat(resp.chunks))]
                && downloadedIds == old(downloadedIds) + [content.id]
                && failureAlerts == old(failureAlerts)
      ensures !Completes(resp) ==>
                && state == Idle
                && saved == old(saved) && downloadedIds == old(downloadedIds)
                && failureAlerts == old(failureAlerts) + 1
      ensures loginRequests == old(loginRequests)
    {
      if !resp.ok || !resp.hasReader {
        assert resp.chunks[..Delivered(resp)] == [];
        Fail();
        return;
      }
      var received, rejected := ReadBody(resp);
      if rejected {
        Fail();
        return;
      }
      assert received == resp.chunks by {
        assert resp.chunks[..|resp.chunks|] == resp.chunks;
      }
      saved := saved + [SavedFile(content.fileName.value, Concat(received))];
      state := Downloaded;
      progressText := NoText;
      shownTexts := shownTexts + [NoText];
      downloadedIds := downloadedIds + [content.id];
    }

    /** The `while (true)` read loop: each chunk is kept, the byte count grows by its
        length and the progress text is set from it; the loop ends on `done` or on a
        rejected read. */
    method ReadBody(resp: Response) returns (received: seq<Chunk>, rejected: bool)
      requires resp.ok && resp.hasReader
      modifies this`progressText, this`shownTexts
      ensures received == resp.chunks[..Delivered(resp)]
      ensures rejected <==> !Completes(resp)
      ensures shownTexts == old(shownTexts) + ProgressTexts(resp.contentLength, received)
    {
      var totalSize := resp.contentLength;
      var loaded: nat := 0;
      received := [];
      var k := 0;
      while k < |resp.chunks| && resp.failsAt != Some(k)
        invariant 0 <= k <= |resp.chunks|
        invariant received == resp.chunks[..k]
        invariant loaded == Loaded(received)
        invariant shownTexts == old(shownTexts) + ProgressTexts(totalSize, received)
        invariant resp.failsAt.Some? ==> resp.failsAt.value >= k
        decreases |resp.chunks| - k
      {
        var value := resp.chunks[k];
        ConcatSnoc(received, value);
        ProgressTextsSnoc(totalSize, received, value);
        assert resp.chunks[..k + 1] == received + [value];
        received := received + [value];
        loaded := loaded + |value|;
        if totalSize > 0 {
          progressText := Percent(RoundPercent(loaded, totalSize));
        } else {
          progressText := Megabytes(loaded);
        }
        shownTexts := shownTexts + [progressText];
        k := k + 1;
      }
      rejected := resp.failsAt == Some(k);
    }

    /** The catch branch. */
    method Fail()
      modifies this
      ensures state == Idle && progressText == NoText && shownTexts == old(shownTexts) + [NoText]
      ensures failureAlerts == old(failureAlerts) + 1
      ensures saved == old(saved) && downloadedIds == old(downloadedIds)
      ensures loginRequests == old(loginRequests)
    {
      state := Idle;
      progressText := NoText;
      shownTexts := shownTexts + [NoText];
      failureAlerts := failureAlerts + 1;
    }
  }

  /** A click while the download runs starts nothing, and once it has completed a
      further click starts nothing either: the id is reported exactly once. */
  method DownloadReportsOnce(d: MovieDownload, role: Role, resp: Response)
    requires d.Valid() && d.CanStart()
    modifies d
    ensures Completes(resp) ==>
              d.state == Downloaded && d.downloadedIds == old(d.downloadedIds) + [d.content.id]
    ensures !Completes(resp) ==> d.state == Idle && d.downloadedIds == old(d.downloadedIds)
  {
    var started := d.StartDownload();
    var again := d.DownloadClick(role);
    assert !again;
    d.ReceiveResponse(resp);
    var third := d.DownloadClick(role);
    if Completes(resp) {
      assert !third;
    }
    if third {
      d.ReceiveResponse(resp);
    }
  }
}
