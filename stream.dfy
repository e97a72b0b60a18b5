/** The character source both lexer drafts read from: `std::istream` extraction
    into a `std::string` (`source >> buffer`), which skips whitespace and yields
    the next maximal run of non-whitespace characters. The stream is modelled by
    the sequence of those runs and a cursor into it; a failed extraction is end
    of input. */
module Stream {
  import opened Scanner

  class ChunkStream {
    /** Every whitespace-free run the stream holds, in order. */
    const chunks: seq<string>
    /** How many runs have been extracted so far. */
    var next: nat

    ghost predicate Valid()
      reads this
    {
      ValidChunks(chunks) && next <= |chunks|
    }

    /** A stream positioned before its first run. */
    constructor(chunks: seq<string>)
      requires ValidChunks(chunks)
      ensures Valid()
      ensures this.chunks == chunks && next == 0
    {
      this.chunks := chunks;
      next := 0;
    }

    /** `source >> s`: the next run and `true`, or `false` and nothing read once
        the stream is exhausted. */
    method Read() returns (ok: bool, chunk: string)
      requires Valid()
      modifies this
      ensures Valid()
      ensures ok <==> old(next) < |chunks|
      ensures ok ==> chunk == chunks[old(next)] && IsChunk(chunk) && next == old(next) + 1
      ensures !ok ==> chunk == [] && next == old(next)
    {
      if next < |chunks| {
        ok, chunk := true, chunks[next];
        next := next + 1;
      } else {
        ok, chunk := false, [];
      }
    }
  }
}
