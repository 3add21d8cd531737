/** The upload engine of src-tauri/src/r2.rs: the client that talks to the
    store, the two task registries, the per-file upload task with its
    choice between a single PUT and a multipart upload, the chunk loop of
    the multipart upload, and cancellation.

    The engine's process-wide maps and the outside world's view of it (the
    requests sent to the store and the progress events pushed to the user
    interface) are the fields of one `Engine` object. Each spawned task's
    body is the method `RunTask`, which runs to its end in one step. */
module R2 {
  import opened Wrappers
  import opened Types
  import opened ObjectStore
  import opened Chunking

  /** An R2 client: the bucket every request goes to and the public domain
      under which uploaded objects are reported. The SDK client itself and
      its credentials are not modelled. */
  datatype R2Client = R2Client(bucketName: string, domain: string)

  function EndpointDomain(accountId: string): string
  {
    "https://" + accountId + ".r2.cloudflarestorage.com"
  }

  /** `R2Client::new`: it never fails; without a custom domain the account's
      R2 endpoint is used as the domain. */
  function NewClient(bucketName: string, accountId: string, domain: Option<string>): (c: R2Client)
    ensures c.bucketName == bucketName
    ensures domain.Some? ==> c.domain == domain.value
    ensures domain.None? ==> c.domain == "https://" + accountId + ".r2.cloudflarestorage.com"
  {
    R2Client(bucketName, if domain.Some? then domain.value else EndpointDomain(accountId))
  }

  /** The URL reported for an object: "<domain>/<key>". */
  function ObjectUrl(c: R2Client, key: string): string
  {
    c.domain + "/" + key
  }

  /** One "upload-progress" event (the wall-clock timestamp is not modelled). */
  datatype Event = Event(url: string, fileId: string, filename: string, status: UploadStatus)

  /** An entry of UPLOAD_TASKS: the task's join handle (identified by a
      number) and, once a multipart upload is open, its upload id. */
  datatype TaskEntry = TaskEntry(handle: nat, uploadId: Option<string>)

  /** An entry of UPLOAD_TASKS_INFO: the client and key needed to abort. */
  datatype ClientInfo = ClientInfo(client: R2Client, remoteFilename: string)

  /** A spawned task: its handle, the shared client and the file to upload. */
  datatype Job = Job(handle: nat, client: R2Client, file: File)

  /** The terminal status emitted when a task's body returns. */
  function TerminalStatus(result: Result<(), string>): (s: UploadStatus)
    ensures s.IsTerminal() && !s.Cancelled?
    ensures s == Success <==> result.Ok?
    ensures result.Err? ==> s == Error(result.error, "UPLOAD_ERROR")
  {
    match result
    case Ok(_) => Success
    case Err(e) => Error(e, "UPLOAD_ERROR")
  }

  // ---------------------------------------------------------------------
  // The chunk loop and the upload task, as functions of the environment
  // ---------------------------------------------------------------------

  /** What the chunk loop produces from a given point on: the upload-part
      requests it sends, the byte counts it reports after each part, and
      either the completed parts or the error that ended it. */
  datatype LoopOutcome = LoopOutcome(calls: seq<Request>, progress: seq<nat>, parts: Result<seq<CompletedPart>, string>)

  /** The outcome of `done` followed by `rest`. */
  function Glue(calls: seq<Request>, progress: seq<nat>, parts: seq<CompletedPart>, rest: LoopOutcome): LoopOutcome
  {
    LoopOutcome(calls + rest.calls, progress + rest.progress,
      match rest.parts
      case Ok(ps) => Ok(parts + ps)
      case Err(e) => Err(e))
  }

  lemma GlueNothing(rest: LoopOutcome)
    ensures Glue([], [], [], rest) == rest
  {
    assert [] + rest.calls == rest.calls;
    assert [] + rest.progress == rest.progress;
    if rest.parts.Ok? {
      assert [] + rest.parts.value == rest.parts.value;
    }
  }

  lemma GlueGlue(calls: seq<Request>, progress: seq<nat>, parts: seq<CompletedPart>,
                 calls': seq<Request>, progress': seq<nat>, parts': seq<CompletedPart>, rest: LoopOutcome)
    ensures Glue(calls, progress, parts, Glue(calls', progress', parts', rest))
         == Glue(calls + calls', progress + progress', parts + parts', rest)
  {
    assert calls + (calls' + rest.calls) == (calls + calls') + rest.calls;
    assert progress + (progress' + rest.progress) == (progress + progress') + rest.progress;
    if rest.parts.Ok? {
      assert parts + (parts' + rest.parts.value) == (parts + parts') + rest.parts.value;
    }
  }

  /** The upload-part request for one planned chunk. */
  function PartRequest(client: R2Client, key: string, uploadId: string, path: string, c: Chunk): Request
  {
    Request(client.bucketName, UploadPart(key, uploadId, c.partNumber, FileRange(path, c.offset, c.length)))
  }

  /** The chunk loop (lines 344-386) from `uploaded` bytes and part number
      `partNumber` on: read the next chunk, upload it, record the part,
      report progress; stop when the next chunk is empty. A failed read or a
      failed part upload ends the loop with that error at once. */
  function ChunkLoop(env: Env, client: R2Client, path: string, key: string, uploadId: string,
                     size: nat, uploaded: nat, partNumber: int): LoopOutcome
    requires uploaded <= size
    decreases size - uploaded
  {
    var len := ChunkLen(size, uploaded);
    if len == 0 then LoopOutcome([], [], Ok([]))
    else
      match env.fs(ReadExact(path, uploaded, len))
      case Err(e) => LoopOutcome([], [], Err(e))
      case Ok(_) =>
        var req := PartRequest(client, key, uploadId, path, Chunk(partNumber, uploaded, len));
        match PartResult(env.store(req), partNumber)
        case Err(e) => LoopOutcome([req], [], Err(e))
        case Ok(part) =>
          Glue([req], [uploaded + len], [part],
               ChunkLoop(env, client, path, key, uploadId, size, uploaded + len, partNumber + 1))
  }

  /** One turn of the chunk loop: either it ends (read or part failure) or it
      continues from the next offset and part number. */
  lemma ChunkLoopUnfold(env: Env, client: R2Client, path: string, key: string, uploadId: string,
                        size: nat, uploaded: nat, partNumber: int)
    requires uploaded < size
    ensures var len := ChunkLen(size, uploaded);
      var req := PartRequest(client, key, uploadId, path, Chunk(partNumber, uploaded, len));
      var loop := ChunkLoop(env, client, path, key, uploadId, size, uploaded, partNumber);
      && (env.fs(ReadExact(path, uploaded, len)).Err? ==>
            loop == LoopOutcome([], [], Err(env.fs(ReadExact(path, uploaded, len)).error)))
      && (env.fs(ReadExact(path, uploaded, len)).Ok? && PartResult(env.store(req), partNumber).Err? ==>
            loop == LoopOutcome([req], [], Err(PartResult(env.store(req), partNumber).error)))
      && (env.fs(ReadExact(path, uploaded, len)).Ok? && PartResult(env.store(req), partNumber).Ok? ==>
            loop == Glue([req], [uploaded + len], [PartResult(env.store(req), partNumber).value],
                         ChunkLoop(env, client, path, key, uploadId, size, uploaded + len, partNumber + 1)))
  {
  }

  /** One turn of the chunk loop seen against the whole loop: `whole` is
      what was done so far glued to the loop from `uploaded` on. */
  lemma LoopAdvance(env: Env, client: R2Client, path: string, key: string, uploadId: string,
                    size: nat, uploaded: nat, partNumber: int,
                    sent: seq<Request>, reported: seq<nat>, parts: seq<CompletedPart>, whole: LoopOutcome)
    requires uploaded < size
    requires whole == Glue(sent, reported, parts, ChunkLoop(env, client, path, key, uploadId, size, uploaded, partNumber))
    ensures var len := ChunkLen(size, uploaded);
      var read := env.fs(ReadExact(path, uploaded, len));
      var req := PartRequest(client, key, uploadId, path, Chunk(partNumber, uploaded, len));
      var part := PartResult(env.store(req), partNumber);
      && (read.Err? ==> whole == LoopOutcome(sent, reported, Err(read.error)))
      && (read.Ok? && part.Err? ==> whole == LoopOutcome(sent + [req], reported, Err(part.error)))
      && (read.Ok? && part.Ok? ==>
            whole == Glue(sent + [req], reported + [uploaded + len], parts + [part.value],
                          ChunkLoop(env, client, path, key, uploadId, size, uploaded + len, partNumber + 1)))
  {
    var len := ChunkLen(size, uploaded);
    var read := env.fs(ReadExact(path, uploaded, len));
    var req := PartRequest(client, key, uploadId, path, Chunk(partNumber, uploaded, len));
    var part := PartResult(env.store(req), partNumber);
    ChunkLoopUnfold(env, client, path, key, uploadId, size, uploaded, partNumber);
    if read.Err? {
      assert sent + [] == sent && reported + [] == reported;
    } else if part.Err? {
      assert reported + [] == reported;
    } else {
      GlueGlue(sent, reported, parts, [req], [uploaded + len], [part.value],
               ChunkLoop(env, client, path, key, uploadId, size, uploaded + len, partNumber + 1));
    }
  }

  /** The end of the chunk loop: nothing is left to glue. */
  lemma LoopDone(env: Env, client: R2Client, path: string, key: string, uploadId: string,
                 size: nat, partNumber: int,
                 sent: seq<Request>, reported: seq<nat>, parts: seq<CompletedPart>, whole: LoopOutcome)
    requires whole == Glue(sent, reported, parts, ChunkLoop(env, client, path, key, uploadId, size, size, partNumber))
    ensures whole == LoopOutcome(sent, reported, Ok(parts))
  {
    assert ChunkLoop(env, client, path, key, uploadId, size, size, partNumber) == LoopOutcome([], [], Ok([]));
    assert sent + [] == sent && reported + [] == reported && parts + [] == parts;
  }

  /** What one upload task does, seen from outside: the store requests it
      sends, the byte counts it reports, the file size it reports them
      against, the multipart upload id it opened (if any) and its result. */
  datatype Trace = Trace(calls: seq<Request>, progress: seq<nat>, size: nat,
                         session: Option<string>, result: Result<(), string>)

  /** `stream_upload_file` (lines 288-390). */
  function StreamSpec(env: Env, client: R2Client, path: string, key: string): Trace
  {
    match env.fs(Open(path))
    case Err(e) => Trace([], [], 0, None, Err(e))
    case Ok(_) =>
      match env.fs(Metadata(path))
      case Err(e) => Trace([], [], 0, None, Err(e))
      case Ok(size) =>
        if UsesSinglePut(size) then
          match env.fs(ReadToEnd(path))
          case Err(e) => Trace([], [], size, None, Err(e))
          case Ok(_) =>
            var put := Request(client.bucketName, PutObject(key, WholeFile(path)));
            Trace([put], [], size, None, UnitResult(env.store(put)))
        else MultipartSpec(env, client, path, key, size)
  }

  /** The multipart branch of `stream_upload_file` (lines 330-389): open the
      upload, run the chunk loop, and complete the upload with every part. */
  function MultipartSpec(env: Env, client: R2Client, path: string, key: string, size: nat): Trace
  {
    var create := Request(client.bucketName, CreateMultipartUpload(key));
    match UploadIdResult(env.store(create))
    case Err(e) => Trace([create], [], size, None, Err(e))
    case Ok(id) =>
      var loop := ChunkLoop(env, client, path, key, id, size, 0, 1);
      match loop.parts
      case Err(e) => Trace([create] + loop.calls, loop.progress, size, Some(id), Err(e))
      case Ok(parts) =>
        var complete := Request(client.bucketName, CompleteMultipartUpload(key, id, parts));
        Trace([create] + loop.calls + [complete], loop.progress, size, Some(id),
              UnitResult(env.store(complete)))
  }

  /** `upload_content` (lines 203-218): one PUT of the inline text. */
  function ContentSpec(env: Env, client: R2Client, content: string, key: string): Trace
  {
    var put := Request(client.bucketName, PutObject(key, Inline(content)));
    Trace([put], [], 0, None, UnitResult(env.store(put)))
  }

  /** The dispatch of the spawned task (lines 77-86). */
  function TaskSpec(env: Env, job: Job): Trace
  {
    match job.file.source
    case FilePath(path) => StreamSpec(env, job.client, path, job.file.remoteFilename)
    case FileContent(content) => ContentSpec(env, job.client, content, job.file.remoteFilename)
  }

  /** The `Uploading` events a multipart upload pushes, one per part. */
  function ProgressEvents(client: R2Client, fileId: string, key: string, size: nat, progress: seq<nat>): seq<Event>
  {
    seq(|progress|, i requires 0 <= i < |progress| =>
      Event(ObjectUrl(client, key), fileId, key, Uploading(progress[i], size)))
  }

  lemma ProgressEventsSnoc(client: R2Client, fileId: string, key: string, size: nat, progress: seq<nat>, b: nat)
    ensures ProgressEvents(client, fileId, key, size, progress + [b])
         == ProgressEvents(client, fileId, key, size, progress) + [Event(ObjectUrl(client, key), fileId, key, Uploading(b, size))]
  {
  }

  /** The events the spawned task pushes: its progress, then one terminal status. */
  function TaskEvents(job: Job, t: Trace): seq<Event>
  {
    ProgressEvents(job.client, job.file.id, job.file.remoteFilename, t.size, t.progress)
      + [Event(ObjectUrl(job.client, job.file.remoteFilename), job.file.id, job.file.remoteFilename,
               TerminalStatus(t.result))]
  }

  /** The initial `Uploading{0,0}` events `r2_upload` pushes, one per file. */
  function InitialEvents(client: R2Client, files: seq<File>): seq<Event>
  {
    seq(|files|, i requires 0 <= i < |files| =>
      Event(ObjectUrl(client, files[i].remoteFilename), files[i].id, files[i].remoteFilename, Uploading(0, 0)))
  }

  /** UPLOAD_TASKS after `r2_upload` inserted `(handle, None)` for each file
      in turn, the i-th file getting handle `firstHandle + i`; a later file
      with the same id replaces the earlier entry. */
  function Registered(tasks: map<string, TaskEntry>, files: seq<File>, firstHandle: nat): map<string, TaskEntry>
  {
    if files == [] then tasks
    else
      Registered(tasks, files[..|files| - 1], firstHandle)
        [files[|files| - 1].id := TaskEntry(firstHandle + |files| - 1, None)]
  }

  /** The jobs `r2_upload` spawns. */
  function JobsFor(client: R2Client, files: seq<File>, firstHandle: nat): seq<Job>
  {
    seq(|files|, i requires 0 <= i < |files| => Job(firstHandle + i, client, files[i]))
  }

  /** UPLOAD_TASKS after a task recorded the upload id it opened: only an
      existing entry is updated. */
  function RecordSession(tasks: map<string, TaskEntry>, fileId: string, session: Option<string>): map<string, TaskEntry>
  {
    if session.Some? && fileId in tasks then tasks[fileId := tasks[fileId].(uploadId := session)] else tasks
  }

  /** UPLOAD_TASKS_INFO after a task opened a multipart upload. */
  function RecordInfo(info: map<string, ClientInfo>, fileId: string, client: R2Client, key: string,
                      session: Option<string>): map<string, ClientInfo>
  {
    if session.Some? then info[fileId := ClientInfo(client, key)] else info
  }

  /** The abort request `r2_cancel_upload` sends: only when the task entry
      holds an upload id and the client information is there. */
  function CancelCalls(uploadId: Option<string>, info: Option<ClientInfo>): seq<Request>
  {
    if uploadId.Some? && info.Some? then
      [Request(info.value.client.bucketName, AbortMultipartUpload(info.value.remoteFilename, uploadId.value))]
    else []
  }

  function Lookup<K, V>(m: map<K, V>, k: K): Option<V>
  {
    if k in m then Some(m[k]) else None
  }

  // ---------------------------------------------------------------------
  // The engine state and its operations
  // ---------------------------------------------------------------------

  class Engine {
    /** UPLOAD_TASKS: file id -> (join handle, optional upload id). */
    var tasks: map<string, TaskEntry>
    /** UPLOAD_TASKS_INFO: file id -> (client, key), written by multipart uploads. */
    var tasksInfo: map<string, ClientInfo>
    /** The handles on which `abort()` was called. */
    var abortedHandles: set<nat>
    /** The number the next spawned task's handle gets. */
    var nextHandle: nat
    /** Every event pushed to the user interface, in order. */
    var events: seq<Event>
    /** Every request sent to the store, in order. */
    var calls: seq<Request>

    constructor()
      ensures tasks == map[] && tasksInfo == map[] && abortedHandles == {}
      ensures nextHandle == 0 && events == [] && calls == []
    {
      tasks, tasksInfo, abortedHandles := map[], map[], {};
      nextHandle, events, calls := 0, [], [];
    }

    /** Send one request to the store and get its reply. */
    method Send(env: Env, req: Request) returns (reply: Reply)
      modifies this`calls
      ensures calls == old(calls) + [req]
      ensures reply == env.store(req)
    {
      calls := calls + [req];
      reply := env.store(req);
    }

    /** `emit_progress` (lines 111-131). */
    method EmitProgress(client: R2Client, fileId: string, filename: string, status: UploadStatus)
      modifies this`events
      ensures events == old(events) + [Event(ObjectUrl(client, filename), fileId, filename, status)]
    {
      events := events + [Event(ObjectUrl(client, filename), fileId, filename, status)];
    }

    /** `r2_upload` (lines 38-109): build the client, push `Uploading{0,0}`
        for every file, spawn its task and register the task's handle with
        no upload id. The result is always `Ok(())`. */
    method R2Upload(bucketName: string, accountId: string, domain: Option<string>, files: seq<File>)
      returns (r: Result<(), string>, jobs: seq<Job>)
      modifies this
      ensures r == Ok(())
      ensures jobs == JobsFor(NewClient(bucketName, accountId, domain), files, old(nextHandle))
      ensures events == old(events) + InitialEvents(NewClient(bucketName, accountId, domain), files)
      ensures tasks == Registered(old(tasks), files, old(nextHandle))
      ensures nextHandle == old(nextHandle) + |files|
      ensures tasksInfo == old(tasksInfo) && abortedHandles == old(abortedHandles) && calls == old(calls)
    {
      var client := NewClient(bucketName, accountId, domain);
      jobs := [];
      var i := 0;
      while i < |files|
        invariant 0 <= i <= |files|
        invariant nextHandle == old(nextHandle) + i
        invariant jobs == JobsFor(client, files[..i], old(nextHandle))
        invariant events == old(events) + InitialEvents(client, files[..i])
        invariant tasks == Registered(old(tasks), files[..i], old(nextHandle))
        invariant tasksInfo == old(tasksInfo) && abortedHandles == old(abortedHandles) && calls == old(calls)
      {
        var file := files[i];
        EmitProgress(client, file.id, file.remoteFilename, Uploading(0, 0));
        var handle := nextHandle;
        nextHandle := nextHandle + 1;
        jobs := jobs + [Job(handle, client, file)];
        tasks := tasks[file.id := TaskEntry(handle, None)];
        assert files[..i + 1][..i] == files[..i];
        i := i + 1;
      }
      assert files[..i] == files;
      r := Ok(());
    }

    /** The body of one spawned task (lines 75-103): upload the file or the
        inline content, then push exactly one terminal status. A task whose
        handle was aborted before it ran never runs (`ran == None`). */
    method RunTask(env: Env, job: Job) returns (ran: Option<Result<(), string>>)
      modifies this
      ensures job.handle in old(abortedHandles) ==>
        ran == None && tasks == old(tasks) && tasksInfo == old(tasksInfo)
        && events == old(events) && calls == old(calls)
      ensures job.handle !in old(abortedHandles) ==>
        var t := TaskSpec(env, job);
        && ran == Some(t.result)
        && calls == old(calls) + t.calls
        && events == old(events) + TaskEvents(job, t)
        && tasks == RecordSession(old(tasks), job.file.id, t.session)
        && tasksInfo == RecordInfo(old(tasksInfo), job.file.id, job.client, job.file.remoteFilename, t.session)
      ensures abortedHandles == old(abortedHandles) && nextHandle == old(nextHandle)
    {
      if job.handle in abortedHandles {
        return None;
      }
      var result;
      match job.file.source {
        case FilePath(path) =>
          result := StreamUploadFile(env, job.client, path, job.file.remoteFilename, job.file.id);
        case FileContent(content) =>
          result := UploadContent(env, job.client, content, job.file.remoteFilename);
      }
      EmitProgress(job.client, job.file.id, job.file.remoteFilename, TerminalStatus(result));
      ran := Some(result);
    }

    /** `upload_content` (lines 203-218). */
    method UploadContent(env: Env, client: R2Client, content: string, key: string) returns (r: Result<(), string>)
      modifies this`calls
      ensures var t := ContentSpec(env, client, content, key);
        r == t.result && calls == old(calls) + t.calls
    {
      var reply := Send(env, Request(client.bucketName, Op.PutObject(key, Inline(content))));
      r := UnitResult(reply);
    }

    /** `create_multipart_upload` (lines 221-233). */
    method CreateMultipartUpload(env: Env, client: R2Client, key: string) returns (r: Result<string, string>)
      modifies this`calls
      ensures calls == old(calls) + [Request(client.bucketName, Op.CreateMultipartUpload(key))]
      ensures r == UploadIdResult(env.store(Request(client.bucketName, Op.CreateMultipartUpload(key))))
    {
      var reply := Send(env, Request(client.bucketName, Op.CreateMultipartUpload(key)));
      r := UploadIdResult(reply);
    }

    /** `complete_multipart_upload` (lines 235-258). */
    method CompleteMultipartUpload(env: Env, client: R2Client, key: string, uploadId: string,
                                   parts: seq<CompletedPart>) returns (r: Result<(), string>)
      modifies this`calls
      ensures calls == old(calls) + [Request(client.bucketName, Op.CompleteMultipartUpload(key, uploadId, parts))]
      ensures r == UnitResult(env.store(Request(client.bucketName, Op.CompleteMultipartUpload(key, uploadId, parts))))
    {
      var reply := Send(env, Request(client.bucketName, Op.CompleteMultipartUpload(key, uploadId, parts)));
      r := UnitResult(reply);
    }

    /** `upload_part` (lines 260-285). */
    method UploadPart(env: Env, client: R2Client, key: string, uploadId: string, partNumber: int,
                      body: Body) returns (r: Result<CompletedPart, string>)
      modifies this`calls
      ensures calls == old(calls) + [Request(client.bucketName, Op.UploadPart(key, uploadId, partNumber, body))]
      ensures r == PartResult(env.store(Request(client.bucketName, Op.UploadPart(key, uploadId, partNumber, body))), partNumber)
    {
      var reply := Send(env, Request(client.bucketName, Op.UploadPart(key, uploadId, partNumber, body)));
      r := PartResult(reply, partNumber);
    }

    /** `abort_multipart_upload` (lines 392-406). */
    method AbortMultipartUpload(env: Env, client: R2Client, key: string, uploadId: string) returns (r: Result<(), string>)
      modifies this`calls
      ensures calls == old(calls) + [Request(client.bucketName, Op.AbortMultipartUpload(key, uploadId))]
      ensures r == UnitResult(env.store(Request(client.bucketName, Op.AbortMultipartUpload(key, uploadId))))
    {
      var reply := Send(env, Request(client.bucketName, Op.AbortMultipartUpload(key, uploadId)));
      r := UnitResult(reply);
    }

    /** `stream_upload_file` (lines 288-390). */
    method StreamUploadFile(env: Env, client: R2Client, path: string, key: string, fileId: string)
      returns (r: Result<(), string>)
      modifies this`calls, this`events, this`tasks, this`tasksInfo
      ensures var t := StreamSpec(env, client, path, key);
        && r == t.result
        && calls == old(calls) + t.calls
        && events == old(events) + ProgressEvents(client, fileId, key, t.size, t.progress)
        && tasks == RecordSession(old(tasks), fileId, t.session)
        && tasksInfo == RecordInfo(old(tasksInfo), fileId, client, key, t.session)
    {
      var file := env.fs(Open(path));
      if file.Err? {
        return Err(file.error);
      }
      var metadata := env.fs(Metadata(path));
      if metadata.Err? {
        return Err(metadata.error);
      }
      var size := metadata.value;

      if size < CHUNK_SIZE {
        var read := env.fs(ReadToEnd(path));
        if read.Err? {
          return Err(read.error);
        }
        var reply := Send(env, Request(client.bucketName, Op.PutObject(key, WholeFile(path))));
        return UnitResult(reply);
      }

      r := MultipartUpload(env, client, path, key, fileId, size);
    }

    /** The multipart branch of `stream_upload_file` (lines 330-389). Once
        the upload is open its id is recorded in the file's task entry (when
        there is one) and the client and key in UPLOAD_TASKS_INFO. */
    method MultipartUpload(env: Env, client: R2Client, path: string, key: string, fileId: string, size: nat)
      returns (r: Result<(), string>)
      modifies this`calls, this`events, this`tasks, this`tasksInfo
      ensures var t := MultipartSpec(env, client, path, key, size);
        && r == t.result
        && calls == old(calls) + t.calls
        && events == old(events) + ProgressEvents(client, fileId, key, t.size, t.progress)
        && tasks == RecordSession(old(tasks), fileId, t.session)
        && tasksInfo == RecordInfo(old(tasksInfo), fileId, client, key, t.session)
    {
      assert ProgressEvents(client, fileId, key, size, []) == [];
      var created := CreateMultipartUpload(env, client, key);
      if created.Err? {
        return Err(created.error);
      }
      var uploadId := created.value;
      if fileId in tasks {
        tasks := tasks[fileId := tasks[fileId].(uploadId := Some(uploadId))];
      }
      tasksInfo := tasksInfo[fileId := ClientInfo(client, key)];

      ghost var calls1 := calls;
      var completedParts := UploadChunks(env, client, path, key, fileId, uploadId, size);
      ghost var loop := ChunkLoop(env, client, path, key, uploadId, size, 0, 1);
      ghost var create := [Request(client.bucketName, Op.CreateMultipartUpload(key))];
      assert (old(calls) + create) + loop.calls == old(calls) + (create + loop.calls);
      if completedParts.Err? {
        return Err(completedParts.error);
      }
      r := CompleteMultipartUpload(env, client, key, uploadId, completedParts.value);
      ghost var complete := [Request(client.bucketName, Op.CompleteMultipartUpload(key, uploadId, completedParts.value))];
      assert (old(calls) + (create + loop.calls)) + complete == old(calls) + ((create + loop.calls) + complete);
    }

    /** The chunk loop of `stream_upload_file` (lines 339-386): parts are
        numbered from 1, each chunk is min(CHUNK_SIZE, size - bytes_uploaded)
        long, every uploaded part is appended and reported, and the first
        failed read or part upload ends the loop with its error. */
    method UploadChunks(env: Env, client: R2Client, path: string, key: string, fileId: string,
                        uploadId: string, size: nat) returns (r: Result<seq<CompletedPart>, string>)
      modifies this`calls, this`events
      ensures var loop := ChunkLoop(env, client, path, key, uploadId, size, 0, 1);
        && r == loop.parts
        && calls == old(calls) + loop.calls
        && events == old(events) + ProgressEvents(client, fileId, key, size, loop.progress)
    {
      var partNumber := 1;
      var completedParts: seq<CompletedPart> := [];
      var bytesUploaded := 0;
      ghost var calls0, events0 := old(calls), old(events);
      ghost var sent: seq<Request> := [];
      ghost var reported: seq<nat> := [];
      ghost var whole := ChunkLoop(env, client, path, key, uploadId, size, 0, 1);
      GlueNothing(whole);

      var bufferSize := ChunkLen(size, bytesUploaded);
      while bufferSize != 0
        invariant bytesUploaded <= size
        invariant bufferSize == ChunkLen(size, bytesUploaded)
        invariant calls == calls0 + sent
        invariant events == events0 + ProgressEvents(client, fileId, key, size, reported)
        invariant whole == Glue(sent, reported, completedParts,
                                ChunkLoop(env, client, path, key, uploadId, size, bytesUploaded, partNumber))
        decreases size - bytesUploaded
      {
        LoopAdvance(env, client, path, key, uploadId, size, bytesUploaded, partNumber, sent, reported, completedParts, whole);
        ghost var req := PartRequest(client, key, uploadId, path, Chunk(partNumber, bytesUploaded, bufferSize));
        ghost var readOk := env.fs(ReadExact(path, bytesUploaded, bufferSize)).Ok?;
        var part := SendChunk(env, client, path, key, fileId, uploadId, size, bytesUploaded, partNumber);
        if readOk {
          assert (calls0 + sent) + [req] == calls0 + (sent + [req]);
          sent := sent + [req];
        }
        if part.Err? {
          return Err(part.error);
        }
        ProgressEventsSnoc(client, fileId, key, size, reported, bytesUploaded + bufferSize);
        ghost var pe := ProgressEvents(client, fileId, key, size, reported);
        ghost var ev := [Event(ObjectUrl(client, key), fileId, key, Uploading(bytesUploaded + bufferSize, size))];
        assert (events0 + pe) + ev == events0 + (pe + ev);
        completedParts := completedParts + [part.value];
        bytesUploaded := bytesUploaded + bufferSize;
        partNumber := partNumber + 1;
        reported := reported + [bytesUploaded];
        bufferSize := ChunkLen(size, bytesUploaded);
      }
      LoopDone(env, client, path, key, uploadId, size, partNumber, sent, reported, completedParts, whole);
      r := Ok(completedParts);
    }

    /** One turn of the chunk loop (lines 345-385): read the next chunk,
        send it as part `partNumber`, and report the new byte count. A failed
        read sends nothing; a failed part reports nothing. */
    method SendChunk(env: Env, client: R2Client, path: string, key: string, fileId: string,
                     uploadId: string, size: nat, bytesUploaded: nat, partNumber: int)
      returns (r: Result<CompletedPart, string>)
      requires bytesUploaded < size
      modifies this`calls, this`events
      ensures var len := ChunkLen(size, bytesUploaded);
        var read := env.fs(ReadExact(path, bytesUploaded, len));
        var req := PartRequest(client, key, uploadId, path, Chunk(partNumber, bytesUploaded, len));
        var part := PartResult(env.store(req), partNumber);
        && (read.Err? ==> r == Err(read.error) && calls == old(calls) && events == old(events))
        && (read.Ok? ==> r == part && calls == old(calls) + [req])
        && (read.Ok? && part.Err? ==> events == old(events))
        && (read.Ok? && part.Ok? ==>
              events == old(events) + [Event(ObjectUrl(client, key), fileId, key, Uploading(bytesUploaded + len, size))])
    {
      var bufferSize := ChunkLen(size, bytesUploaded);
      var read := env.fs(ReadExact(path, bytesUploaded, bufferSize));
      if read.Err? {
        return Err(read.error);
      }
      r := UploadPart(env, client, key, uploadId, partNumber, FileRange(path, bytesUploaded, bufferSize));
      if r.Ok? {
        EmitProgress(client, fileId, key, Uploading(bytesUploaded + bufferSize, size));
      }
    }

    /** `r2_cancel_upload` (lines 133-160). For an id with a task entry: abort
        its join handle, send an abort for its multipart upload when it has an
        upload id and client information (ignoring the abort's result), and
        remove both entries. For an unknown id: do nothing. Always `Ok(())`. */
    method R2CancelUpload(env: Env, fileId: string) returns (r: Result<(), string>)
      modifies this`tasks, this`tasksInfo, this`abortedHandles, this`calls
      ensures r == Ok(())
      ensures fileId !in old(tasks) ==>
        tasks == old(tasks) && tasksInfo == old(tasksInfo)
        && abortedHandles == old(abortedHandles) && calls == old(calls)
      ensures fileId in old(tasks) ==>
        && tasks == old(tasks) - {fileId}
        && tasksInfo == old(tasksInfo) - {fileId}
        && abortedHandles == old(abortedHandles) + {old(tasks)[fileId].handle}
        && calls == old(calls) + CancelCalls(old(tasks)[fileId].uploadId, Lookup(old(tasksInfo), fileId))
    {
      var taskInfo: Option<TaskEntry> := None;
      if fileId in tasks {
        abortedHandles := abortedHandles + {tasks[fileId].handle};
        taskInfo := Some(tasks[fileId]);
      }
      var clientInfo := Lookup(tasksInfo, fileId);

      if taskInfo.Some? {
        if taskInfo.value.uploadId.Some? {
          if clientInfo.Some? {
            var _ := AbortMultipartUpload(env, clientInfo.value.client, clientInfo.value.remoteFilename,
                                          taskInfo.value.uploadId.value);
          }
        }
        tasks := tasks - {fileId};
        tasksInfo := tasksInfo - {fileId};
      }
      r := Ok(());
    }
  }
}
