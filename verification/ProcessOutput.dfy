/** The bounded replay buffer of one process. */
module ProcessOutput {
  import opened Text
  import opened BoundedSuffix

  const PROCESS_OUTPUT_REPLAY_BYTES: nat := 64 * 1024

  datatype ProcessStream = Stdout | Stderr

  datatype Chunk = Chunk(stream: ProcessStream, data: string)

  const CHUNK_BYTES := (chunk: Chunk) => ByteLen(chunk.data)

  /** The end of an output history that a reconnecting client is shown. */
  function Replay(chunks: seq<Chunk>): seq<Chunk>
  {
    LongestFitting(chunks, CHUNK_BYTES, PROCESS_OUTPUT_REPLAY_BYTES)
  }

  class ProcessOutputBuffer {
    var chunks: seq<Chunk>
    var byteLen: nat
    /** Everything pushed so far. */
    ghost var pushed: seq<Chunk>

    ghost predicate Valid()
      reads this
    {
      && byteLen == Weight(chunks, CHUNK_BYTES)
      && chunks == Replay(pushed)
    }

    constructor ()
      ensures Valid() && pushed == []
    {
      chunks, byteLen, pushed := [], 0, [];
    }

    method Push(stream: ProcessStream, data: string)
      requires Valid()
      modifies this
      ensures Valid() && pushed == old(pushed) + [Chunk(stream, data)]
    {
      var chunk := Chunk(stream, data);
      byteLen := byteLen + ByteLen(data);
      WeightAppend(chunks, [chunk], CHUNK_BYTES);
      chunks := chunks + [chunk];
      BoundingIsIncremental(pushed, [chunk], CHUNK_BYTES, PROCESS_OUTPUT_REPLAY_BYTES);
      pushed := pushed + [chunk];
      while byteLen > PROCESS_OUTPUT_REPLAY_BYTES
        invariant byteLen == Weight(chunks, CHUNK_BYTES)
        invariant LongestFitting(chunks, CHUNK_BYTES, PROCESS_OUTPUT_REPLAY_BYTES) == Replay(pushed)
        invariant pushed == old(pushed) + [chunk]
        decreases |chunks|
      {
        var removed := chunks[0];
        chunks := chunks[1..];
        byteLen := byteLen - ByteLen(removed.data);
      }
    }

    method Snapshot() returns (result: seq<Chunk>)
      requires Valid()
      ensures result == Replay(pushed)
    {
      result := chunks;
    }
  }
}
