/** One episode row of a show's details screen: its own download state machine, the
    same idle, downloading, downloaded cycle as a movie's but without a progress text
    and with the sign-in gate inside the handler, and the play button. */
module EpisodeItem {
  import opened Types
  import opened Transfer

  /** `onPlay(url, title)`. */
  datatype PlayRequest = PlayRequest(url: string, title: string)

  class EpisodeRow {
    const episode: Episode
    var state: DownloadState
    /** The files handed to the browser. */
    var saved: seq<SavedFile>
    /** The ids passed to `onEpisodeDownloaded`, in order. */
    var downloadedIds: seq<string>
    /** The `onPlay` calls, in order. */
    var plays: seq<PlayRequest>
    /** "Download failed" alerts raised. */
    var failureAlerts: nat
    /** Calls of `onRequestLogin`. */
    var loginRequests: nat

    /** A download under way or finished is of an episode with a file URL and name. */
    ghost predicate Valid()
      reads this
    {
      state != Idle ==> Present(episode.fileUrl) && Present(episode.fileName)
    }

    constructor(episode: Episode)
      ensures Valid()
      ensures this.episode == episode && state == Idle
      ensures saved == [] && downloadedIds == [] && plays == []
      ensures failureAlerts == 0 && loginRequests == 0
    {
      this.episode := episode;
      state := Idle;
      saved := [];
      downloadedIds := [];
      plays := [];
      failureAlerts := 0;
      loginRequests := 0;
    }

    /** The `disabled` attribute of the download button, negated. */
    predicate DownloadEnabled()
      reads this
    {
      state == Idle && Present(episode.fileUrl)
    }

    /** `handleDownloadClick` up to the fetch: an unauthenticated click only asks for
        sign-in; otherwise an idle episode with a file URL and name starts downloading,
        and anything else is left as it is. */
    method DownloadClick(role: Role) returns (started: bool)
      requires Valid()
      modifies this
      ensures Valid()
      ensures role == Unauthenticated ==> !started && loginRequests == old(loginRequests) + 1
      ensures role != Unauthenticated ==> loginRequests == old(loginRequests)
      ensures started <==>
                role != Unauthenticated && old(state) == Idle
                && Present(episode.fileUrl) && Present(episode.fileName)
      ensures started ==> state == Downloading
      ensures !started ==> state == old(state)
      ensures saved == old(saved) && downloadedIds == old(downloadedIds)
      ensures plays == old(plays) && failureAlerts == old(failureAlerts)
    {
      if role == Unauthenticated {
        loginRequests := loginRequests + 1;
        return false;
      }
      if state != Idle || !Present(episode.fileUrl) || !Present(episode.fileName) {
        return false;
      }
      state := Downloading;
      return true;
    }

    /** The rest of `handleDownloadClick` once the fetch has settled: read the body to
        its end, save it and report the episode id once; any failure returns to idle
        with an alert and reports nothing. */
    method ReceiveResponse(resp: Response)
      requires Valid() && state == Downloading
      modifies this
      ensures Valid()
      ensures Completes(resp) ==>
                && state == Downloaded
                && saved == old(saved) + [SavedFile(episode.fileName.value, Concat(resp.chunks))]
                && downloadedIds == old(downloadedIds) + [episode.id]
                && failureAlerts == old(failureAlerts)
      ensures !Completes(resp) ==>
                && state == Idle
                && saved == old(saved) && downloadedIds == old(downloadedIds)
                && failureAlerts == old(failureAlerts) + 1
      ensures plays == old(plays) && loginRequests == old(loginRequests)
    {
      if !resp.ok || !resp.hasReader {
        state := Idle;
        failureAlerts := failureAlerts + 1;
        return;
      }
      var chunks: seq<Chunk> := [];
      var k := 0;
      while k < |resp.chunks| && resp.failsAt != Some(k)
        invariant 0 <= k <= |resp.chunks|
        invariant chunks == resp.chunks[..k]
        invariant resp.failsAt.Some? ==> resp.failsAt.value >= k
        decreases |resp.chunks| - k
      {
        chunks := chunks + [resp.chunks[k]];
        k := k + 1;
      }
      if resp.failsAt == Some(k) {
        state := Idle;
        failureAlerts := failureAlerts + 1;
        return;
      }
      assert chunks == resp.chunks;
      saved := saved + [SavedFile(episode.fileName.value, Concat(chunks))];
      state := Downloaded;
      downloadedIds := downloadedIds + [episode.id];
    }

    /** `handlePlayClick`: an unauthenticated click only asks for sign-in; otherwise
        playback of the episode's file is requested when it has one. */
    method PlayClick(role: Role)
      modifies this
      ensures role == Unauthenticated ==> loginRequests == old(loginRequests) + 1 && plays == old(plays)
      ensures role != Unauthenticated ==> loginRequests == old(loginRequests)
      ensures role != Unauthenticated && Present(episode.fileUrl) ==>
                plays == old(plays) + [PlayRequest(episode.fileUrl.value, episode.title)]
      ensures role != Unauthenticated && !Present(episode.fileUrl) ==> plays == old(plays)
      ensures state == old(state) && saved == old(saved) && downloadedIds == old(downloadedIds)
      ensures failureAlerts == old(failureAlerts)
    {
      if role == Unauthenticated {
        loginRequests := loginRequests + 1;
        return;
      }
      if Present(episode.fileUrl) {
        plays := plays + [PlayRequest(episode.fileUrl.value, episode.title)];
      }
    }
  }

  /** Whatever the responses, an episode row reports its id at most once per completed
      download, and a completed download can never be started again. */
  method CompletedStaysCompleted(row: EpisodeRow, role: Role, resp: Response)
    requires row.Valid() && row.state == Downloaded
    modifies row
    ensures row.state == Downloaded && row.downloadedIds == old(row.downloadedIds)
  {
    var started := row.DownloadClick(role);
    assert !started;
    assert !row.DownloadEnabled();
  }
}
