/** Properties of the upload engine of src-tauri/src/r2.rs, proved about the
    functions that specify its methods (module R2). */
module R2Properties {
  import opened Wrappers
  import opened Types
  import opened ObjectStore
  import opened Chunking
  import opened R2

  /** `loop` walks `plan`: its i-th request uploads the i-th planned chunk,
      its i-th progress report is the end of that chunk, at most one request
      has no report (the failed one), and when it succeeds it has uploaded
      every planned chunk, in order, and each of its parts is the ETag the
      store replied to that chunk's request, with the planned part number. */
  predicate FollowsPlan(loop: LoopOutcome, plan: seq<Chunk>, env: Env, client: R2Client, key: string,
                        uploadId: string, path: string)
  {
    && |loop.calls| <= |plan|
    && (forall i :: 0 <= i < |loop.calls| ==> loop.calls[i] == PartRequest(client, key, uploadId, path, plan[i]))
    && |loop.progress| <= |loop.calls|
    && |loop.calls| <= |loop.progress| + 1
    && (forall i :: 0 <= i < |loop.progress| ==> loop.progress[i] == plan[i].offset + plan[i].length)
    && (loop.parts.Ok? ==>
          && |loop.calls| == |plan| && |loop.progress| == |plan| && |loop.parts.value| == |plan|
          && (forall i :: 0 <= i < |plan| ==> loop.parts.value[i].partNumber == plan[i].partNumber)
          && forall i :: 0 <= i < |plan| ==>
               PartResult(env.store(loop.calls[i]), plan[i].partNumber) == Ok(loop.parts.value[i]))
  }

  /** One successful turn in front of a loop that walks the rest of the plan
      walks the whole plan. */
  lemma FollowsPlanGlue(rest: LoopOutcome, plan: seq<Chunk>, chunk: Chunk, part: CompletedPart,
                        env: Env, client: R2Client, key: string, uploadId: string, path: string)
    requires FollowsPlan(rest, plan, env, client, key, uploadId, path)
    requires PartResult(env.store(PartRequest(client, key, uploadId, path, chunk)), chunk.partNumber) == Ok(part)
    ensures FollowsPlan(Glue([PartRequest(client, key, uploadId, path, chunk)], [chunk.offset + chunk.length], [part], rest),
                        [chunk] + plan, env, client, key, uploadId, path)
  {
    var req := PartRequest(client, key, uploadId, path, chunk);
    var loop := Glue([req], [chunk.offset + chunk.length], [part], rest);
    var plan' := [chunk] + plan;
    forall i | 0 <= i < |loop.calls|
      ensures loop.calls[i] == PartRequest(client, key, uploadId, path, plan'[i])
    {
      if i > 0 { assert loop.calls[i] == rest.calls[i - 1] && plan'[i] == plan[i - 1]; }
    }
    forall i | 0 <= i < |loop.progress|
      ensures loop.progress[i] == plan'[i].offset + plan'[i].length
    {
      if i > 0 { assert loop.progress[i] == rest.progress[i - 1] && plan'[i] == plan[i - 1]; }
    }
    if loop.parts.Ok? {
      forall i | 0 <= i < |plan'|
        ensures loop.parts.value[i].partNumber == plan'[i].partNumber
        ensures PartResult(env.store(loop.calls[i]), plan'[i].partNumber) == Ok(loop.parts.value[i])
      {
        if i > 0 {
          assert loop.parts.value[i] == rest.parts.value[i - 1] && plan'[i] == plan[i - 1];
          assert loop.calls[i] == rest.calls[i - 1];
        }
      }
    }
  }

  /** The chunk loop walks the plan from where it starts. */
  lemma {:induction false} ChunkLoopFollowsPlan(env: Env, client: R2Client, path: string, key: string,
                                                uploadId: string, size: nat, uploaded: nat, partNumber: int)
    requires uploaded <= size
    ensures FollowsPlan(ChunkLoop(env, client, path, key, uploadId, size, uploaded, partNumber),
                        PlanFrom(size, uploaded, partNumber), env, client, key, uploadId, path)
    decreases size - uploaded
  {
    var len := ChunkLen(size, uploaded);
    var loop := ChunkLoop(env, client, path, key, uploadId, size, uploaded, partNumber);
    if len != 0 {
      var chunk := Chunk(partNumber, uploaded, len);
      var req := PartRequest(client, key, uploadId, path, chunk);
      var plan := [chunk] + PlanFrom(size, uploaded + len, partNumber + 1);
      var read := env.fs(ReadExact(path, uploaded, len));
      var part := PartResult(env.store(req), partNumber);
      assert PlanFrom(size, uploaded, partNumber) == plan;
      if read.Err? {
        assert loop == LoopOutcome([], [], Err(read.error));
        FollowsPlanStop([], plan, read.error, env, client, key, uploadId, path);
      } else if part.Err? {
        assert loop == LoopOutcome([req], [], Err(part.error));
        FollowsPlanStop([req], plan, part.error, env, client, key, uploadId, path);
      } else {
        var rest := ChunkLoop(env, client, path, key, uploadId, size, uploaded + len, partNumber + 1);
        assert loop == Glue([req], [uploaded + len], [part.value], rest);
        ChunkLoopFollowsPlan(env, client, path, key, uploadId, size, uploaded + len, partNumber + 1);
        FollowsPlanGlue(rest, PlanFrom(size, uploaded + len, partNumber + 1), chunk, part.value,
                        env, client, key, uploadId, path);
      }
    } else {
      assert PlanFrom(size, uploaded, partNumber) == [];
    }
  }

  /** A loop that stopped with an error, after at most the first planned
      request and before any report, follows the plan. */
  lemma FollowsPlanStop(calls: seq<Request>, plan: seq<Chunk>, e: string,
                        env: Env, client: R2Client, key: string, uploadId: string, path: string)
    requires |calls| <= 1 && |calls| <= |plan|
    requires forall i :: 0 <= i < |calls| ==> calls[i] == PartRequest(client, key, uploadId, path, plan[i])
    ensures FollowsPlan(LoopOutcome(calls, [], Err(e)), plan, env, client, key, uploadId, path)
  {
  }

  /** The ends of planned chunks rise strictly with their index. */
  lemma PlanEndsRise(size: nat, uploaded: nat, partNumber: int, i: nat, j: nat)
    requires uploaded <= size
    requires i < j < |PlanFrom(size, uploaded, partNumber)|
    ensures var plan := PlanFrom(size, uploaded, partNumber);
      plan[i].offset + plan[i].length < plan[j].offset + plan[j].length
  {
    PlanChunkAt(size, uploaded, partNumber, i);
    PlanChunkAt(size, uploaded, partNumber, j);
    assert (i + 1) * CHUNK_SIZE <= j * CHUNK_SIZE;
  }

  /** Progress reported by the chunk loop rises strictly with every part and
      never passes the file size; on success the last report is the size. */
  lemma ChunkLoopProgress(env: Env, client: R2Client, path: string, key: string,
                          uploadId: string, size: nat, uploaded: nat, partNumber: int)
    requires uploaded <= size
    ensures var loop := ChunkLoop(env, client, path, key, uploadId, size, uploaded, partNumber);
      && (forall i :: 0 <= i < |loop.progress| ==> uploaded < loop.progress[i] <= size)
      && (forall i, j :: 0 <= i < j < |loop.progress| ==> loop.progress[i] < loop.progress[j])
      && (loop.parts.Ok? && uploaded < size ==> |loop.progress| > 0 && loop.progress[|loop.progress| - 1] == size)
  {
    var loop := ChunkLoop(env, client, path, key, uploadId, size, uploaded, partNumber);
    var plan := PlanFrom(size, uploaded, partNumber);
    ChunkLoopFollowsPlan(env, client, path, key, uploadId, size, uploaded, partNumber);
    forall i | 0 <= i < |loop.progress|
      ensures uploaded < loop.progress[i] <= size
    {
      PlanChunkAt(size, uploaded, partNumber, i);
    }
    forall i, j | 0 <= i < j < |loop.progress|
      ensures loop.progress[i] < loop.progress[j]
    {
      PlanEndsRise(size, uploaded, partNumber, i, j);
    }
    if loop.parts.Ok? && uploaded < size {
      PlanEndsAtSize(size, uploaded, partNumber);
    }
  }

  /** A 12 MiB file goes up in three parts: two of 5 MiB and one of 2 MiB. */
  lemma TwelveMiBPlan()
    ensures Plan(12 * 1024 * 1024)
         == [Chunk(1, 0, CHUNK_SIZE), Chunk(2, CHUNK_SIZE, CHUNK_SIZE), Chunk(3, 2 * CHUNK_SIZE, 2 * 1024 * 1024)]
  {
    var size := 12 * 1024 * 1024;
    assert PlanFrom(size, size, 4) == [];
    assert PlanFrom(size, 2 * CHUNK_SIZE, 3) == [Chunk(3, 2 * CHUNK_SIZE, 2 * 1024 * 1024)] + PlanFrom(size, size, 4);
    assert PlanFrom(size, CHUNK_SIZE, 2) == [Chunk(2, CHUNK_SIZE, CHUNK_SIZE)] + PlanFrom(size, 2 * CHUNK_SIZE, 3);
    assert PlanFrom(size, 0, 1) == [Chunk(1, 0, CHUNK_SIZE)] + PlanFrom(size, CHUNK_SIZE, 2);
  }

  /** A file below the threshold is sent with at most one PUT of the whole
      file (none when reading it fails), and no multipart upload is opened. */
  lemma StreamSmallFile(env: Env, client: R2Client, path: string, key: string)
    requires env.fs(Open(path)).Ok? && env.fs(Metadata(path)).Ok?
    requires UsesSinglePut(env.fs(Metadata(path)).value)
    ensures var t := StreamSpec(env, client, path, key);
      && t.session == None && t.progress == []
      && (env.fs(ReadToEnd(path)).Err? ==> t.calls == [] && t.result == Err(env.fs(ReadToEnd(path)).error))
      && (env.fs(ReadToEnd(path)).Ok? ==>
            t.calls == [Request(client.bucketName, PutObject(key, WholeFile(path)))]
            && t.result == UnitResult(env.store(t.calls[0])))
  {
  }

  /** The facts of the multipart path: the first request creates the upload;
      the recorded session is the upload id that reply carries; the following
      requests upload a prefix of the plan under that id. */
  lemma {:induction false} StreamMultipartSession(env: Env, client: R2Client, path: string, key: string)
    requires env.fs(Open(path)).Ok? && env.fs(Metadata(path)).Ok?
    requires !UsesSinglePut(env.fs(Metadata(path)).value)
    ensures var t := StreamSpec(env, client, path, key);
      var plan := Plan(t.size);
      && t.size == env.fs(Metadata(path)).value
      && |t.calls| >= 1
      && t.calls[0] == Request(client.bucketName, CreateMultipartUpload(key))
      && (UploadIdResult(env.store(t.calls[0])).Ok? <==> t.session.Some?)
      && (t.session.Some? ==> t.session.value == UploadIdResult(env.store(t.calls[0])).value)
      && (t.session.None? ==> t.calls == [t.calls[0]] && t.progress == [] && t.result.Err?)
      && (t.session.Some? ==>
            && |t.calls| <= |plan| + 2
            && forall i :: 1 <= i < |t.calls| && i <= |plan| ==>
                 t.calls[i] == PartRequest(client, key, t.session.value, path, plan[i - 1]))
  {
    var size := env.fs(Metadata(path)).value;
    var create := Request(client.bucketName, CreateMultipartUpload(key));
    if UploadIdResult(env.store(create)).Ok? {
      var id := UploadIdResult(env.store(create)).value;
      var loop := ChunkLoop(env, client, path, key, id, size, 0, 1);
      ChunkLoopFollowsPlan(env, client, path, key, id, size, 0, 1);
      var t := StreamSpec(env, client, path, key);
      assert t.calls[..1 + |loop.calls|] == [create] + loop.calls;
      forall i | 1 <= i < |t.calls| && i <= |Plan(size)|
        ensures t.calls[i] == PartRequest(client, key, id, path, Plan(size)[i - 1])
      {
        if i <= |loop.calls| {
          assert t.calls[i] == loop.calls[i - 1];
        }
      }
    }
  }

  /** `stream_upload_file` never sends an abort, whatever fails. */
  lemma StreamNeverAborts(env: Env, client: R2Client, path: string, key: string)
    ensures var t := StreamSpec(env, client, path, key);
      forall i :: 0 <= i < |t.calls| ==> !t.calls[i].op.AbortMultipartUpload?
  {
    var t := StreamSpec(env, client, path, key);
    if env.fs(Open(path)).Ok? && env.fs(Metadata(path)).Ok? && !UsesSinglePut(env.fs(Metadata(path)).value) {
      var size := env.fs(Metadata(path)).value;
      var create := Request(client.bucketName, CreateMultipartUpload(key));
      if UploadIdResult(env.store(create)).Ok? {
        var id := UploadIdResult(env.store(create)).value;
        var loop := ChunkLoop(env, client, path, key, id, size, 0, 1);
        ChunkLoopFollowsPlan(env, client, path, key, id, size, 0, 1);
        forall i | 0 <= i < |t.calls| ensures !t.calls[i].op.AbortMultipartUpload? {
          if 1 <= i <= |loop.calls| {
            assert t.calls[i] == loop.calls[i - 1];
          }
        }
      }
    }
  }

  /** A trace whose total takes the multipart path comes from the multipart
      branch: the file opened and its size is that total. */
  lemma StreamIsMultipart(env: Env, client: R2Client, path: string, key: string)
    requires !UsesSinglePut(StreamSpec(env, client, path, key).size)
    ensures env.fs(Open(path)).Ok? && env.fs(Metadata(path)).Ok?
    ensures StreamSpec(env, client, path, key) == MultipartSpec(env, client, path, key, env.fs(Metadata(path)).value)
  {
  }

  /** In the multipart branch, complete is the last request and follows
      every planned part; it carries the session's upload id and the parts
      numbered 1, 2, 3, ..., each holding the ETag the store replied to the
      request that uploaded it. */
  lemma MultipartCompleteCarriesAllParts(env: Env, client: R2Client, path: string, key: string, size: nat, k: nat)
    requires !UsesSinglePut(size)
    requires var t := MultipartSpec(env, client, path, key, size);
      k < |t.calls| && t.calls[k].op.CompleteMultipartUpload?
    ensures var t := MultipartSpec(env, client, path, key, size);
      var parts := t.calls[k].op.parts;
      && t.session.Some? && t.calls[k].op.uploadId == t.session.value
      && k == |t.calls| - 1 == |Plan(size)| + 1
      && |parts| == CeilDiv(size, CHUNK_SIZE) >= 1
      && (forall i :: 0 <= i < |parts| ==> parts[i].partNumber == i + 1)
      && |parts| == |Plan(size)|
      && (forall i :: 0 <= i < |parts| ==>
            t.calls[i + 1] == PartRequest(client, key, t.session.value, path, Plan(size)[i])
            && PartResult(env.store(t.calls[i + 1]), i + 1) == Ok(parts[i]))
  {
    var create := Request(client.bucketName, CreateMultipartUpload(key));
    MultipartCompleteIsLast(env, client, path, key, size, k);
    var id := UploadIdResult(env.store(create)).value;
    MultipartPartsAreReplies(env, client, path, key, size, id);
    PlanCount(size);
    MultipartHasParts(size);
  }

  /** A complete in the multipart branch is the request after the create and
      the whole chunk loop, which succeeded; it carries the loop's parts under
      the session's id. */
  lemma MultipartCompleteIsLast(env: Env, client: R2Client, path: string, key: string, size: nat, k: nat)
    requires var t := MultipartSpec(env, client, path, key, size);
      k < |t.calls| && t.calls[k].op.CompleteMultipartUpload?
    ensures var t := MultipartSpec(env, client, path, key, size);
      var create := Request(client.bucketName, CreateMultipartUpload(key));
      && UploadIdResult(env.store(create)).Ok?
      && var id := UploadIdResult(env.store(create)).value;
         var loop := ChunkLoop(env, client, path, key, id, size, 0, 1);
         && loop.parts.Ok?
         && t.session == Some(id)
         && k == |t.calls| - 1 == |loop.calls| + 1 == |Plan(size)| + 1
         && t.calls[k] == Request(client.bucketName, CompleteMultipartUpload(key, id, loop.parts.value))
  {
    var t := MultipartSpec(env, client, path, key, size);
    var create := Request(client.bucketName, CreateMultipartUpload(key));
    assert UploadIdResult(env.store(create)).Ok?;
    var id := UploadIdResult(env.store(create)).value;
    var loop := ChunkLoop(env, client, path, key, id, size, 0, 1);
    ChunkLoopFollowsPlan(env, client, path, key, id, size, 0, 1);
    forall i | 1 <= i <= |loop.calls| && i < |t.calls|
      ensures !t.calls[i].op.CompleteMultipartUpload?
    {
      assert t.calls[i] == loop.calls[i - 1];
    }
    assert loop.parts.Ok?;
  }

  /** After a successful chunk loop, the request after the create at
      position i + 1 uploads planned chunk i, and the i-th completed part is
      the store's reply to it, numbered i + 1. */
  lemma MultipartPartsAreReplies(env: Env, client: R2Client, path: string, key: string, size: nat, id: string)
    requires UploadIdResult(env.store(Request(client.bucketName, CreateMultipartUpload(key)))) == Ok(id)
    requires ChunkLoop(env, client, path, key, id, size, 0, 1).parts.Ok?
    ensures var t := MultipartSpec(env, client, path, key, size);
      var parts := ChunkLoop(env, client, path, key, id, size, 0, 1).parts.value;
      && |parts| == |Plan(size)| < |t.calls|
      && forall i :: 0 <= i < |parts| ==>
           t.calls[i + 1] == PartRequest(client, key, id, path, Plan(size)[i])
           && PartResult(env.store(t.calls[i + 1]), i + 1) == Ok(parts[i])
  {
    var t := MultipartSpec(env, client, path, key, size);
    var loop := ChunkLoop(env, client, path, key, id, size, 0, 1);
    ChunkLoopFollowsPlan(env, client, path, key, id, size, 0, 1);
    forall i | 0 <= i < |loop.parts.value|
      ensures t.calls[i + 1] == PartRequest(client, key, id, path, Plan(size)[i])
      ensures PartResult(env.store(t.calls[i + 1]), i + 1) == Ok(loop.parts.value[i])
    {
      assert t.calls[i + 1] == loop.calls[i];
      PlanChunkAt(size, 0, 1, i);
    }
  }

  /** Complete is sent only as the last request and only after every planned
      part was uploaded; it carries the session's upload id and exactly
      ceil(size / CHUNK_SIZE) >= 1 parts numbered 1, 2, 3, ... in order,
      each with the ETag the store gave for that part's upload. A
      failed read or part upload therefore never leads to a complete. */
  lemma StreamCompleteCarriesAllParts(env: Env, client: R2Client, path: string, key: string, k: nat)
    requires var t := StreamSpec(env, client, path, key);
      k < |t.calls| && t.calls[k].op.CompleteMultipartUpload?
    ensures var t := StreamSpec(env, client, path, key);
      var parts := t.calls[k].op.parts;
      && !UsesSinglePut(t.size)
      && t.session.Some? && t.calls[k].op.uploadId == t.session.value
      && k == |t.calls| - 1 == |Plan(t.size)| + 1
      && |parts| == CeilDiv(t.size, CHUNK_SIZE) >= 1
      && (forall i :: 0 <= i < |parts| ==> parts[i].partNumber == i + 1)
      && |parts| == |Plan(t.size)|
      && (forall i :: 0 <= i < |parts| ==>
            t.calls[i + 1] == PartRequest(client, key, t.session.value, path, Plan(t.size)[i])
            && PartResult(env.store(t.calls[i + 1]), i + 1) == Ok(parts[i]))
  {
    assert env.fs(Open(path)).Ok? && env.fs(Metadata(path)).Ok?;
    var size := env.fs(Metadata(path)).value;
    assert !UsesSinglePut(size);
    assert StreamSpec(env, client, path, key) == MultipartSpec(env, client, path, key, size);
    MultipartCompleteCarriesAllParts(env, client, path, key, size, k);
  }

  /** A successful multipart branch has uploaded every planned part, its
      last progress report is the size, and its last request completes. */
  lemma MultipartSuccessUploadsEveryByte(env: Env, client: R2Client, path: string, key: string, size: nat)
    requires !UsesSinglePut(size)
    requires MultipartSpec(env, client, path, key, size).result.Ok?
    ensures var t := MultipartSpec(env, client, path, key, size);
      && t.session.Some? && t.size == size
      && |t.progress| == |Plan(size)| == CeilDiv(size, CHUNK_SIZE) >= 1
      && t.progress[|t.progress| - 1] == size
      && |t.calls| == |Plan(size)| + 2
      && t.calls[|t.calls| - 1].op.CompleteMultipartUpload?
  {
    var create := Request(client.bucketName, CreateMultipartUpload(key));
    var id := UploadIdResult(env.store(create)).value;
    ChunkLoopFollowsPlan(env, client, path, key, id, size, 0, 1);
    ChunkLoopProgress(env, client, path, key, id, size, 0, 1);
    PlanShape(size);
    MultipartHasParts(size);
  }

  /** On success the multipart path has uploaded the whole file: one part per
      planned chunk, the last progress report equal to the file size, then
      the complete. */
  lemma StreamSuccessUploadsEveryByte(env: Env, client: R2Client, path: string, key: string)
    requires var t := StreamSpec(env, client, path, key);
      t.result.Ok? && !UsesSinglePut(t.size)
    ensures var t := StreamSpec(env, client, path, key);
      && t.session.Some?
      && |t.progress| == |Plan(t.size)| == CeilDiv(t.size, CHUNK_SIZE) >= 1
      && t.progress[|t.progress| - 1] == t.size
      && |t.calls| == |Plan(t.size)| + 2
      && t.calls[|t.calls| - 1].op.CompleteMultipartUpload?
  {
    StreamIsMultipart(env, client, path, key);
    MultipartSuccessUploadsEveryByte(env, client, path, key, env.fs(Metadata(path)).value);
  }

  /** Every progress report of an upload task is at most the reported total
      and above zero, and the reports rise strictly. */
  lemma StreamProgressMonotone(env: Env, client: R2Client, path: string, key: string)
    ensures var t := StreamSpec(env, client, path, key);
      && (forall i :: 0 <= i < |t.progress| ==> 0 < t.progress[i] <= t.size)
      && (forall i, j :: 0 <= i < j < |t.progress| ==> t.progress[i] < t.progress[j])
  {
    var t := StreamSpec(env, client, path, key);
    if env.fs(Open(path)).Ok? && env.fs(Metadata(path)).Ok? && !UsesSinglePut(env.fs(Metadata(path)).value) {
      var size := env.fs(Metadata(path)).value;
      var create := Request(client.bucketName, CreateMultipartUpload(key));
      if UploadIdResult(env.store(create)).Ok? {
        ChunkLoopProgress(env, client, path, key, UploadIdResult(env.store(create)).value, size, 0, 1);
      }
    }
  }

  /** The events a task pushes: its progress reports, each `Uploading` with
      total = the file size and bytes uploaded <= total, then exactly one
      terminal status, `Success` exactly when the task succeeded and
      otherwise `Error{message, "UPLOAD_ERROR"}`. */
  lemma TaskEventsShape(env: Env, job: Job)
    ensures var t := TaskSpec(env, job);
      var evs := TaskEvents(job, t);
      && |evs| == |t.progress| + 1
      && (forall i :: 0 <= i < |evs| - 1 ==>
            evs[i].status.Uploading? && evs[i].status.totalBytes == t.size
            && 0 < evs[i].status.bytesUploaded <= evs[i].status.totalBytes)
      && (forall i :: 0 <= i < |evs| ==> (evs[i].status.IsTerminal() <==> i == |evs| - 1))
      && (evs[|evs| - 1].status == Success <==> t.result.Ok?)
      && (t.result.Err? ==> evs[|evs| - 1].status == Error(t.result.error, "UPLOAD_ERROR"))
      && (forall i :: 0 <= i < |evs| ==>
            evs[i].fileId == job.file.id && evs[i].url == job.client.domain + "/" + job.file.remoteFilename)
  {
    match job.file.source
    case FilePath(path) => StreamProgressMonotone(env, job.client, path, job.file.remoteFilename);
    case FileContent(_) =>
  }

  /** What `r2_upload` leaves in UPLOAD_TASKS for its files: every file's id
      has an entry with no upload id, whose handle is that of the last file
      with that id. */
  lemma {:induction false} RegisteredEntries(tasks: map<string, TaskEntry>, files: seq<File>, firstHandle: nat, i: nat)
    requires i < |files|
    ensures var r := Registered(tasks, files, firstHandle);
      && files[i].id in r
      && r[files[i].id].uploadId == None
      && firstHandle + i <= r[files[i].id].handle < firstHandle + |files|
      && files[r[files[i].id].handle - firstHandle].id == files[i].id
      && (forall j :: r[files[i].id].handle - firstHandle < j < |files| ==> files[j].id != files[i].id)
  {
    var init := files[..|files| - 1];
    var last := files[|files| - 1];
    if files[i].id != last.id {
      assert files[i] == init[i];
      RegisteredEntries(tasks, init, firstHandle, i);
      var h := Registered(tasks, init, firstHandle)[files[i].id].handle;
      forall j | h - firstHandle < j < |files| ensures files[j].id != files[i].id {
        if j < |init| { assert files[j] == init[j]; }
      }
      assert files[h - firstHandle] == init[h - firstHandle];
    }
  }

  /** Ids of no file keep their previous entry (or stay absent), and no other
      ids appear. */
  lemma {:induction false} RegisteredOthers(tasks: map<string, TaskEntry>, files: seq<File>, firstHandle: nat, id: string)
    requires forall i :: 0 <= i < |files| ==> files[i].id != id
    ensures var r := Registered(tasks, files, firstHandle);
      (id in r <==> id in tasks) && (id in tasks ==> r[id] == tasks[id])
  {
    if files != [] {
      var init := files[..|files| - 1];
      forall i | 0 <= i < |init| ensures init[i].id != id { assert init[i] == files[i]; }
      RegisteredOthers(tasks, init, firstHandle, id);
    }
  }

  /** Cancelling the same id twice: the second cancel finds no entry, so it
      aborts nothing, sends nothing and changes no registry. */
  method CancelTwice(e: Engine, env: Env, fileId: string) returns (r1: Result<(), string>, r2: Result<(), string>)
    modifies e
    ensures r1 == Ok(()) && r2 == Ok(())
    ensures fileId !in e.tasks
    ensures fileId in old(e.tasks) ==> fileId !in e.tasksInfo
    ensures fileId in old(e.tasks) ==>
      e.calls == old(e.calls) + CancelCalls(old(e.tasks)[fileId].uploadId, Lookup(old(e.tasksInfo), fileId))
    ensures fileId !in old(e.tasks) ==> e.calls == old(e.calls) && e.tasks == old(e.tasks)
  {
    r1 := e.R2CancelUpload(env, fileId);
    r2 := e.R2CancelUpload(env, fileId);
  }
}
