/** The streamed file download shared by the movie details screen and the episode row:
    a fetch whose response either fails up front (an error status, or no body reader)
    or hands out its body chunk by chunk through `reader.read()`, any one of which may
    reject; and the file the browser is finally asked to save. */
module Transfer {
  import opened Types

  /** The `downloadState` field. */
  datatype DownloadState = Idle | Downloading | Downloaded

  type Byte = bv8
  type Chunk = seq<Byte>

  /** The outcome of `fetch(url)` and of the reads on its body.
      - `ok`: the fetch resolved with a success status (a rejected fetch is `ok == false`);
      - `hasReader`: `response.body?.getReader()` gave a reader;
      - `contentLength`: the parsed content-length header, 0 when absent or not a
        positive number;
      - `chunks`: the values the reads resolve with, in order; the read after the last
        one reports `done`;
      - `failsAt`: the read (counted from 0) that rejects, if any; a value beyond
        `|chunks|` is never reached. */
  datatype Response = Response(
    ok: bool,
    hasReader: bool,
    contentLength: int,
    chunks: seq<Chunk>,
    failsAt: Option<nat>)

  /** The stream is read to its end: every read up to and including the one reporting
      `done` resolves. */
  predicate Completes(r: Response) {
    r.ok && r.hasReader && (r.failsAt.None? || r.failsAt.value > |r.chunks|)
  }

  /** The number of chunks received before the download ends, successfully or not. */
  function Delivered(r: Response): (n: nat)
    ensures n <= |r.chunks|
    ensures Completes(r) ==> n == |r.chunks|
  {
    if !r.ok || !r.hasReader then 0
    else if r.failsAt.Some? && r.failsAt.value <= |r.chunks| then r.failsAt.value
    else |r.chunks|
  }

  /** `new Blob(chunks)`: the chunks' bytes, in order. */
  function Concat(chunks: seq<Chunk>): (bytes: seq<Byte>)
    ensures chunks == [] ==> bytes == []
  {
    if chunks == [] then [] else Concat(chunks[..|chunks| - 1]) + chunks[|chunks| - 1]
  }

  /** The running byte count after the given chunks. */
  function Loaded(chunks: seq<Chunk>): nat {
    |Concat(chunks)|
  }

  lemma ConcatSnoc(chunks: seq<Chunk>, c: Chunk)
    ensures Concat(chunks + [c]) == Concat(chunks) + c
  {
    assert (chunks + [c])[..|chunks|] == chunks;
  }

  /** The byte count never decreases as chunks arrive. */
  lemma {:induction false} LoadedMonotone(chunks: seq<Chunk>, i: nat, j: nat)
    requires i <= j <= |chunks|
    ensures Loaded(chunks[..i]) <= Loaded(chunks[..j])
    decreases j - i
  {
    if i < j {
      LoadedMonotone(chunks, i, j - 1);
      assert chunks[..j] == chunks[..j - 1] + [chunks[j - 1]];
      ConcatSnoc(chunks[..j - 1], chunks[j - 1]);
    }
  }

  /** The file the anchor click asks the browser to save. */
  datatype SavedFile = SavedFile(name: string, bytes: seq<Byte>)
}
