/** The chunk planner of the multipart upload (src-tauri/src/r2.rs,
    `stream_upload_file`): a file of `size` bytes is sent with one PUT when it
    is smaller than CHUNK_SIZE, and otherwise in parts of CHUNK_SIZE bytes
    (the last one possibly shorter), numbered 1, 2, 3, ... */
module Chunking {

  /** 5 MiB, both the single-PUT threshold and the part size. */
  const CHUNK_SIZE: nat := 5 * 1024 * 1024

  /** The strategy choice: a single PUT exactly for files below the threshold. */
  predicate UsesSinglePut(size: nat) { size < CHUNK_SIZE }

  /** Length of the next chunk once `uploaded` bytes are sent:
      min(CHUNK_SIZE, size - uploaded); the loop stops when it is 0. */
  function ChunkLen(size: nat, uploaded: nat): (len: nat)
    requires uploaded <= size
    ensures len <= CHUNK_SIZE && len <= size - uploaded
    ensures len == CHUNK_SIZE || len == size - uploaded
    ensures len == 0 <==> uploaded == size
  {
    var remaining := size - uploaded;
    if remaining > CHUNK_SIZE then CHUNK_SIZE else remaining
  }

  /** One part of the upload: its number and the byte range it covers. */
  datatype Chunk = Chunk(partNumber: int, offset: nat, length: nat)

  /** The chunks the loop walks through from `uploaded` bytes on, numbering
      the first one `partNumber`. */
  function PlanFrom(size: nat, uploaded: nat, partNumber: int): seq<Chunk>
    requires uploaded <= size
    decreases size - uploaded
  {
    var len := ChunkLen(size, uploaded);
    if len == 0 then []
    else [Chunk(partNumber, uploaded, len)] + PlanFrom(size, uploaded + len, partNumber + 1)
  }

  /** The whole plan of a file: from byte 0, starting with part 1. */
  function Plan(size: nat): seq<Chunk> { PlanFrom(size, 0, 1) }

  /** ceil(n / d) in integers. */
  function CeilDiv(n: nat, d: nat): nat
    requires d > 0
  {
    (n + d - 1) / d
  }

  /** The number of bytes a list of chunks covers. */
  function TotalLength(chunks: seq<Chunk>): nat
  {
    if chunks == [] then 0 else chunks[0].length + TotalLength(chunks[1..])
  }

  lemma CeilDivStep(n: nat)
    requires n > 0
    ensures n <= CHUNK_SIZE ==> CeilDiv(n, CHUNK_SIZE) == 1
    ensures n > CHUNK_SIZE ==> CeilDiv(n, CHUNK_SIZE) == CeilDiv(n - CHUNK_SIZE, CHUNK_SIZE) + 1
  {
  }

  /** Everything about the plan from a given position: how many chunks
      there are, that they are numbered consecutively from `partNumber`,
      that they tile the rest of the file in CHUNK_SIZE steps, and that each
      is as long as ChunkLen at its offset. */
  lemma {:induction false} PlanFromShape(size: nat, uploaded: nat, partNumber: int)
    requires uploaded <= size
    ensures var plan := PlanFrom(size, uploaded, partNumber);
      && |plan| == CeilDiv(size - uploaded, CHUNK_SIZE)
      && TotalLength(plan) == size - uploaded
      && forall i :: 0 <= i < |plan| ==>
           && plan[i].partNumber == partNumber + i
           && plan[i].offset == uploaded + i * CHUNK_SIZE
           && plan[i].offset + plan[i].length <= size
           && plan[i].length == ChunkLen(size, plan[i].offset)
           && plan[i].length > 0
    decreases size - uploaded
  {
    var len := ChunkLen(size, uploaded);
    if len != 0 {
      CeilDivStep(size - uploaded);
      PlanFromShape(size, uploaded + len, partNumber + 1);
      var plan := PlanFrom(size, uploaded, partNumber);
      var rest := PlanFrom(size, uploaded + len, partNumber + 1);
      assert plan == [Chunk(partNumber, uploaded, len)] + rest;
      assert plan[1..] == rest;
      forall i | 1 <= i < |plan|
        ensures plan[i].offset == uploaded + i * CHUNK_SIZE
      {
        assert plan[i] == rest[i - 1];
        assert len == CHUNK_SIZE;
      }
    }
  }

  /** One planned chunk: where it starts, that it is not empty, not longer
      than CHUNK_SIZE and inside the file. */
  lemma PlanChunkAt(size: nat, uploaded: nat, partNumber: int, i: nat)
    requires uploaded <= size
    requires i < |PlanFrom(size, uploaded, partNumber)|
    ensures var c := PlanFrom(size, uploaded, partNumber)[i];
      && c.partNumber == partNumber + i
      && c.offset == uploaded + i * CHUNK_SIZE
      && 0 < c.length <= CHUNK_SIZE
      && c.offset + c.length <= size
  {
    PlanFromShape(size, uploaded, partNumber);
  }

  /** A plan over a non-empty rest of the file ends exactly at its end. */
  lemma {:induction false} PlanEndsAtSize(size: nat, uploaded: nat, partNumber: int)
    requires uploaded < size
    ensures var plan := PlanFrom(size, uploaded, partNumber);
      |plan| > 0 && plan[|plan| - 1].offset + plan[|plan| - 1].length == size
    decreases size - uploaded
  {
    var len := ChunkLen(size, uploaded);
    var rest := PlanFrom(size, uploaded + len, partNumber + 1);
    assert PlanFrom(size, uploaded, partNumber) == [Chunk(partNumber, uploaded, len)] + rest;
    if uploaded + len < size {
      PlanEndsAtSize(size, uploaded + len, partNumber + 1);
    }
  }

  /** The properties of the whole plan stated for the file: ceil(S / C)
      parts, numbered 1..ceil(S / C) without gaps, chunk k starting at
      k * CHUNK_SIZE, chunk lengths summing to S. */
  lemma PlanShape(size: nat)
    ensures |Plan(size)| == CeilDiv(size, CHUNK_SIZE)
    ensures TotalLength(Plan(size)) == size
    ensures forall i :: 0 <= i < |Plan(size)| ==>
      Plan(size)[i].partNumber == i + 1 && Plan(size)[i].offset == i * CHUNK_SIZE
  {
    PlanFromShape(size, 0, 1);
  }

  /** The whole file is planned as ceil(size / CHUNK_SIZE) chunks. */
  lemma PlanCount(size: nat)
    ensures |Plan(size)| == CeilDiv(size, CHUNK_SIZE)
  {
    PlanFromShape(size, 0, 1);
  }

  /** A file that takes the multipart path has at least one part. */
  lemma MultipartHasParts(size: nat)
    requires !UsesSinglePut(size)
    ensures |Plan(size)| >= 1
    ensures Plan(size)[0] == Chunk(1, 0, CHUNK_SIZE)
  {
  }
}
