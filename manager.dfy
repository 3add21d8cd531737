/** The commands of src-tauri/src/manager.rs, the module src-tauri/src/lib.rs
    declares and whose commands it registers: the status store with its
    snapshot-and-prune read, the per-task status strings of its upload
    command, the flattening of a picked path into file details, and the
    preview of a file. */
module Manager {
  import opened Wrappers
  import opened Types
  import opened ObjectStore

  // ---------------------------------------------------------------------
  // Status store (UPLOAD_STATUS) and the upload command that writes it
  // ---------------------------------------------------------------------

  /** UPLOAD_STATUS without its "success" entries; every other entry,
      "uploading" and "failed: ..." alike, is kept with its value. */
  function Pruned(m: map<string, string>): (p: map<string, string>)
    ensures forall k :: k in p <==> k in m && m[k] != "success"
    ensures forall k :: k in p ==> p[k] == m[k]
  {
    map k | k in m && m[k] != "success" :: m[k]
  }

  /** What the body of one spawned upload task (lines 214-259) yields: the
      error of the first step that fails, or success. A file source is
      checked with `metadata`, streamed with `ByteStream::from_path` and sent
      with one PUT; inline content is sent with one PUT. */
  function TaskUpload(env: Env, bucket: string, file: File): Result<(), string>
  {
    match file.source
    case FilePath(path) =>
      if env.fs(Metadata(path)).Err? then Err(env.fs(Metadata(path)).error)
      else if env.fs(ByteStreamFromPath(path)).Err? then Err(env.fs(ByteStreamFromPath(path)).error)
      else UnitResult(env.store(Request(bucket, PutObject(file.remoteFilename, WholeFile(path)))))
    case FileContent(content) =>
      UnitResult(env.store(Request(bucket, PutObject(file.remoteFilename, Inline(content)))))
  }

  /** The status a task leaves as the code is written (lines 209-272): each
      `?` inside the match returns from the whole spawned block, so after a
      failure the status stays "uploading" and the "failed: " arm is never
      reached. */
  function FinalStatusAsWritten(result: Result<(), string>): (s: string)
    ensures s == "success" <==> result.Ok?
    ensures result.Err? ==> s == "uploading"
  {
    if result.Ok? then "success" else "uploading"
  }

  /** The status a task is evidently meant to leave (lines 261-268):
      "success", or "failed: " followed by the error. */
  function FinalStatus(result: Result<(), string>): (s: string)
    ensures s == "success" <==> result.Ok?
    ensures result.Err? ==> s == "failed: " + result.error
  {
    if result.Ok? then "success" else "failed: " + result.error
  }

  /** UPLOAD_STATUS after the tasks of `files` ran in order, as evidently
      intended. */
  function AfterTasks(status: map<string, string>, env: Env, bucket: string, files: seq<File>): map<string, string>
  {
    if files == [] then status
    else
      var last := files[|files| - 1];
      AfterTasks(status, env, bucket, files[..|files| - 1])[last.id := FinalStatus(TaskUpload(env, bucket, last))]
  }

  /** UPLOAD_STATUS after the tasks of `files` ran in order, as the code is
      written. */
  function AfterTasksAsWritten(status: map<string, string>, env: Env, bucket: string, files: seq<File>): map<string, string>
  {
    if files == [] then status
    else
      var last := files[|files| - 1];
      AfterTasksAsWritten(status, env, bucket, files[..|files| - 1])[last.id := FinalStatusAsWritten(TaskUpload(env, bucket, last))]
  }

  /** `files[i]` is the last file of the batch with its id. */
  predicate LastOfId(files: seq<File>, i: nat)
    requires i < |files|
  {
    forall j :: i < j < |files| ==> files[j].id != files[i].id
  }

  /** As written, the status of an id is what the batch's last task with
      that id left. */
  lemma {:induction false} LastTaskDecidesAsWritten(status: map<string, string>, env: Env, bucket: string,
                                                    files: seq<File>, i: nat)
    requires i < |files| && LastOfId(files, i)
    ensures files[i].id in AfterTasksAsWritten(status, env, bucket, files)
    ensures AfterTasksAsWritten(status, env, bucket, files)[files[i].id]
         == FinalStatusAsWritten(TaskUpload(env, bucket, files[i]))
    decreases |files|
  {
    var init := files[..|files| - 1];
    if i < |files| - 1 {
      assert files[|files| - 1].id != files[i].id;
      assert init[i] == files[i];
      forall j | i < j < |init| ensures init[j].id != init[i].id {
        assert init[j] == files[j];
      }
      LastTaskDecidesAsWritten(status, env, bucket, init, i);
    }
  }

  /** Corrected, the status of an id is what the batch's last task with that
      id left. */
  lemma {:induction false} LastTaskDecides(status: map<string, string>, env: Env, bucket: string,
                                           files: seq<File>, i: nat)
    requires i < |files| && LastOfId(files, i)
    ensures files[i].id in AfterTasks(status, env, bucket, files)
    ensures AfterTasks(status, env, bucket, files)[files[i].id] == FinalStatus(TaskUpload(env, bucket, files[i]))
    decreases |files|
  {
    var init := files[..|files| - 1];
    if i < |files| - 1 {
      assert files[|files| - 1].id != files[i].id;
      assert init[i] == files[i];
      forall j | i < j < |init| ensures init[j].id != init[i].id {
        assert init[j] == files[j];
      }
      LastTaskDecides(status, env, bucket, init, i);
    }
  }

  /** As written, every task of a batch ends "success" or "uploading" and
      never "failed: ..."; the batch's last file leaves "uploading" exactly
      when it failed (for every id, see LastTaskDecidesAsWritten), and ids
      not in the batch keep their status. */
  lemma {:induction false} AfterTasksAsWrittenStatuses(status: map<string, string>, env: Env, bucket: string,
                                                       files: seq<File>)
    ensures forall i :: 0 <= i < |files| ==>
      files[i].id in AfterTasksAsWritten(status, env, bucket, files)
      && (AfterTasksAsWritten(status, env, bucket, files)[files[i].id] == "success"
          || AfterTasksAsWritten(status, env, bucket, files)[files[i].id] == "uploading")
    ensures |files| > 0 ==>
      var last := files[|files| - 1];
      AfterTasksAsWritten(status, env, bucket, files)[last.id] == "uploading" <==> TaskUpload(env, bucket, last).Err?
    ensures forall k :: k in status && (forall i :: 0 <= i < |files| ==> files[i].id != k) ==>
      k in AfterTasksAsWritten(status, env, bucket, files) && AfterTasksAsWritten(status, env, bucket, files)[k] == status[k]
  {
    if files != [] {
      var init := files[..|files| - 1];
      var last := files[|files| - 1];
      AfterTasksAsWrittenStatuses(status, env, bucket, init);
      forall i | 0 <= i < |files|
        ensures files[i].id in AfterTasksAsWritten(status, env, bucket, files)
        ensures AfterTasksAsWritten(status, env, bucket, files)[files[i].id] == "success"
             || AfterTasksAsWritten(status, env, bucket, files)[files[i].id] == "uploading"
      {
        if i < |files| - 1 {
          assert files[i] == init[i];
        }
      }
      forall k | k in status && (forall i :: 0 <= i < |files| ==> files[i].id != k)
        ensures k in AfterTasksAsWritten(status, env, bucket, files) && AfterTasksAsWritten(status, env, bucket, files)[k] == status[k]
      {
        assert last.id != k;
        forall i | 0 <= i < |init| ensures init[i].id != k {
          assert init[i] == files[i];
        }
      }
    }
  }

  /** A status a finished task may leave: "success" or "failed: ...". */
  predicate IsFinished(s: string)
  {
    s == "success" || "failed: " <= s
  }

  /** Every task of a batch ends in a finished status, never "uploading",
      and ids not in the batch keep their status. */
  lemma {:induction false} AfterTasksTerminal(status: map<string, string>, env: Env, bucket: string, files: seq<File>)
    ensures forall i :: 0 <= i < |files| ==>
      files[i].id in AfterTasks(status, env, bucket, files)
      && IsFinished(AfterTasks(status, env, bucket, files)[files[i].id])
      && AfterTasks(status, env, bucket, files)[files[i].id] != "uploading"
    ensures forall k :: k in status && (forall i :: 0 <= i < |files| ==> files[i].id != k) ==>
      k in AfterTasks(status, env, bucket, files) && AfterTasks(status, env, bucket, files)[k] == status[k]
  {
    if files != [] {
      var init := files[..|files| - 1];
      var last := files[|files| - 1];
      var s := FinalStatus(TaskUpload(env, bucket, last));
      AfterTasksTerminal(status, env, bucket, init);
      assert IsFinished(s) && s != "uploading" by {
        if TaskUpload(env, bucket, last).Err? {
          assert s == "failed: " + TaskUpload(env, bucket, last).error;
          assert s[..|"failed: "|] == "failed: ";
          assert s[0] == 'f' != "uploading"[0];
        }
      }
      forall i | 0 <= i < |files|
        ensures files[i].id in AfterTasks(status, env, bucket, files)
        ensures IsFinished(AfterTasks(status, env, bucket, files)[files[i].id])
        ensures AfterTasks(status, env, bucket, files)[files[i].id] != "uploading"
      {
        if i < |files| - 1 {
          assert files[i] == init[i];
        }
      }
      forall k | k in status && (forall i :: 0 <= i < |files| ==> files[i].id != k)
        ensures k in AfterTasks(status, env, bucket, files) && AfterTasks(status, env, bucket, files)[k] == status[k]
      {
        assert last.id != k;
        forall i | 0 <= i < |init| ensures init[i].id != k {
          assert init[i] == files[i];
        }
      }
    }
  }

  /** The input that shows the dead "failed: " arm: inline content "hello" to
      key "a.txt" on a store that rejects every request. As written the task
      stays "uploading" for ever; corrected it reports the store's error. */
  lemma FailedUploadStaysUploading()
    ensures var env := Env((req: Request) => Err("AccessDenied"), (op: FsOp) => Ok(0));
      var file := File("1", FileContent("hello"), "a.txt");
      && TaskUpload(env, "bucket", file) == Err("AccessDenied")
      && FinalStatusAsWritten(TaskUpload(env, "bucket", file)) == "uploading"
      && FinalStatus(TaskUpload(env, "bucket", file)) == "failed: AccessDenied"
      && AfterTasksAsWritten(map[], env, "bucket", [file])["1"] == "uploading"
      && AfterTasks(map[], env, "bucket", [file])["1"] == "failed: AccessDenied"
  {
  }

  class StatusStore {
    /** UPLOAD_STATUS: file id -> "uploading" | "success" | "failed: ...". */
    var status: map<string, string>

    constructor()
      ensures status == map[]
    {
      status := map[];
    }

    /** `get_upload_status` (lines 279-299): copy every entry into the
        returned map, collecting the ids whose status is "success", then
        remove those ids. */
    method GetUploadStatus() returns (r: Result<map<string, string>, string>)
      modifies this
      ensures r == Ok(old(status))
      ensures status == Pruned(old(status))
    {
      var statusMap: map<string, string> := map[];
      var toRemove: seq<string> := [];
      var pending := status.Keys;
      while pending != {}
        invariant status == old(status)
        invariant pending <= status.Keys
        invariant statusMap.Keys == status.Keys - pending
        invariant forall k :: k in statusMap ==> statusMap[k] == status[k]
        invariant forall k :: k in toRemove <==> k in status && k !in pending && status[k] == "success"
        decreases pending
      {
        var fileId :| fileId in pending;
        var s := status[fileId];
        if s == "success" {
          toRemove := toRemove + [fileId];
        }
        statusMap := statusMap[fileId := s];
        pending := pending - {fileId};
      }
      assert statusMap == status;

      var i := 0;
      while i < |toRemove|
        invariant 0 <= i <= |toRemove|
        invariant status == old(status) - set j | 0 <= j < i :: toRemove[j]
      {
        status := status - {toRemove[i]};
        i := i + 1;
        assert (set j | 0 <= j < i :: toRemove[j]) == (set j | 0 <= j < i - 1 :: toRemove[j]) + {toRemove[i - 1]};
      }
      assert (set j | 0 <= j < |toRemove| :: toRemove[j]) == set k | k in old(status) && old(status)[k] == "success";
      r := Ok(statusMap);
    }

    /** One spawned task of `r2_upload` as the code is written: the status is
        set to "uploading", and any failing step returns from the task before
        the status is written again. */
    method RunTaskAsWritten(env: Env, bucket: string, file: File) returns (taskResult: Result<(), string>)
      modifies this
      ensures taskResult == TaskUpload(env, bucket, file)
      ensures status == old(status)[file.id := FinalStatusAsWritten(TaskUpload(env, bucket, file))]
    {
      var fileId := file.id;
      status := status[fileId := "uploading"];
      match file.source {
        case FilePath(path) =>
          var metadata := env.fs(Metadata(path));
          if metadata.Err? { return Err(metadata.error); }
          var body := env.fs(ByteStreamFromPath(path));
          if body.Err? { return Err(body.error); }
          var put := UnitResult(env.store(Request(bucket, PutObject(file.remoteFilename, WholeFile(path)))));
          if put.Err? { return Err(put.error); }
        case FileContent(content) =>
          var put := UnitResult(env.store(Request(bucket, PutObject(file.remoteFilename, Inline(content)))));
          if put.Err? { return Err(put.error); }
      }
      status := status[fileId := "success"];
      taskResult := Ok(());
    }

    /** One spawned task of `r2_upload` as evidently intended: the status is
        set to "uploading" and then to "success" or "failed: <error>". */
    method RunTask(env: Env, bucket: string, file: File) returns (taskResult: Result<(), string>)
      modifies this
      ensures taskResult == Ok(())
      ensures status == old(status)[file.id := FinalStatus(TaskUpload(env, bucket, file))]
    {
      var fileId := file.id;
      status := status[fileId := "uploading"];
      var result: Result<(), string>;
      match file.source {
        case FilePath(path) =>
          var metadata := env.fs(Metadata(path));
          var body := env.fs(ByteStreamFromPath(path));
          if metadata.Err? {
            result := Err(metadata.error);
          } else if body.Err? {
            result := Err(body.error);
          } else {
            result := UnitResult(env.store(Request(bucket, PutObject(file.remoteFilename, WholeFile(path)))));
          }
        case FileContent(content) =>
          result := UnitResult(env.store(Request(bucket, PutObject(file.remoteFilename, Inline(content)))));
      }
      match result {
        case Ok(_) => status := status[fileId := "success"];
        case Err(e) => status := status[fileId := "failed: " + e];
      }
      taskResult := Ok(());
    }

    /** `r2_upload` (lines 164-277) as the code is written, with its tasks
        run one after another: a failing system-proxy lookup, or a proxy URI
        that does not parse, fails the command before any status is written;
        otherwise every file's task runs as written. */
    method R2UploadAsWritten(env: Env, bucket: string, systemProxy: Result<(), string>, proxyUri: Result<(), string>,
                             files: seq<File>)
      returns (r: Result<(), string>)
      modifies this
      ensures systemProxy.Err? ==> r == Err("can not get system proxy: " + systemProxy.error) && status == old(status)
      ensures systemProxy.Ok? && proxyUri.Err? ==>
        r == Err("can not parse proxy uri: " + proxyUri.error) && status == old(status)
      ensures systemProxy.Ok? && proxyUri.Ok? ==>
        r == Ok(()) && status == AfterTasksAsWritten(old(status), env, bucket, files)
    {
      if systemProxy.Err? {
        return Err("can not get system proxy: " + systemProxy.error);
      }
      if proxyUri.Err? {
        return Err("can not parse proxy uri: " + proxyUri.error);
      }
      var i := 0;
      while i < |files|
        invariant 0 <= i <= |files|
        invariant status == AfterTasksAsWritten(old(status), env, bucket, files[..i])
      {
        var _ := RunTaskAsWritten(env, bucket, files[i]);
        assert files[..i + 1][..i] == files[..i];
        i := i + 1;
      }
      assert files[..i] == files;
      r := Ok(());
    }

    /** `r2_upload` (lines 164-277) as evidently intended, with the corrected
        tasks run one after another; the proxy errors are those of the
        command as written. */
    method R2Upload(env: Env, bucket: string, systemProxy: Result<(), string>, proxyUri: Result<(), string>,
                    files: seq<File>)
      returns (r: Result<(), string>)
      modifies this
      ensures systemProxy.Err? ==> r == Err("can not get system proxy: " + systemProxy.error) && status == old(status)
      ensures systemProxy.Ok? && proxyUri.Err? ==>
        r == Err("can not parse proxy uri: " + proxyUri.error) && status == old(status)
      ensures systemProxy.Ok? && proxyUri.Ok? ==> r == Ok(()) && status == AfterTasks(old(status), env, bucket, files)
    {
      if systemProxy.Err? {
        return Err("can not get system proxy: " + systemProxy.error);
      }
      if proxyUri.Err? {
        return Err("can not parse proxy uri: " + proxyUri.error);
      }
      var i := 0;
      while i < |files|
        invariant 0 <= i <= |files|
        invariant status == AfterTasks(old(status), env, bucket, files[..i])
      {
        var _ := RunTask(env, bucket, files[i]);
        assert files[..i + 1][..i] == files[..i];
        i := i + 1;
      }
      assert files[..i] == files;
      r := Ok(());
    }
  }

  /** Two consecutive reads: the second returns what the first returned
      minus its "success" entries, and a third would return the same. */
  method TwoReads(store: StatusStore) returns (first: map<string, string>, second: map<string, string>)
    modifies store
    ensures first == old(store.status)
    ensures second == Pruned(first)
    ensures store.status == Pruned(first)
  {
    var r1 := store.GetUploadStatus();
    var r2 := store.GetUploadStatus();
    first, second := r1.value, r2.value;
    assert Pruned(Pruned(first)) == Pruned(first);
  }

  // ---------------------------------------------------------------------
  // File details of a picked path
  // ---------------------------------------------------------------------

  /** The relative path of a file (lines 72-75): `path` without the
      `basePath` prefix when it starts with it, otherwise `path` itself. */
  function RelativePath(path: string, basePath: string): (r: string)
    ensures basePath <= path ==> basePath + r == path
    ensures !(basePath <= path) ==> r == path
  {
    if basePath <= path then path[|basePath|..] else path
  }

  /** The file system below a picked path, as `metadata`, `read_dir` and
      `next_entry` would report it. */
  datatype FsNode =
    | Inaccessible(path: string, error: string)                 // metadata fails
    | RegularFile(path: string)
    | UnreadableDir(path: string, error: string)                // read_dir fails
    | Directory(path: string, entries: seq<FsNode>, entryError: Option<string>)
                                                                // next_entry fails after the entries

  const METADATA_ERROR: string := "无法获取文件元数据："
  const READ_DIR_ERROR: string := "无法读取目录："

  /** The detail pushed for one regular file; `uuid` stands for the id generator. */
  function DetailFor(path: string, basePath: string, uuid: string -> string): FileDetail
  {
    FileDetail(uuid(path), path, RelativePath(path, basePath), false)
  }

  /** The paths of the regular files below a node, in entry order. */
  function FilesOf(n: FsNode): seq<string>
    decreases n, 1
  {
    match n
    case RegularFile(path) => [path]
    case Directory(_, entries, _) => FilesOfEntries(entries)
    case _ => []
  }

  function FilesOfEntries(entries: seq<FsNode>): seq<string>
    decreases entries, 0
  {
    if entries == [] then [] else FilesOf(entries[0]) + FilesOfEntries(entries[1..])
  }

  /** No metadata, read_dir or next_entry failure anywhere below a node. */
  predicate Readable(n: FsNode)
    decreases n, 1
  {
    match n
    case RegularFile(_) => true
    case Directory(_, entries, entryError) => AllReadable(entries) && entryError.None?
    case _ => false
  }

  predicate AllReadable(entries: seq<FsNode>)
    decreases entries, 0
  {
    entries == [] || (Readable(entries[0]) && AllReadable(entries[1..]))
  }

  /** `get_file_details_internal` (lines 52-86) as a function: a file gives
      one detail, a directory the concatenation of its entries' details in
      entry order; the first failure met ends the walk with its message. */
  function Walk(n: FsNode, basePath: string, uuid: string -> string): Result<seq<FileDetail>, string>
    decreases n, 1
  {
    match n
    case Inaccessible(_, e) => Err(METADATA_ERROR + e)
    case RegularFile(path) => Ok([DetailFor(path, basePath, uuid)])
    case UnreadableDir(_, e) => Err(READ_DIR_ERROR + e)
    case Directory(_, entries, entryError) => WalkEntries(entries, entryError, basePath, uuid)
  }

  function WalkEntries(entries: seq<FsNode>, entryError: Option<string>, basePath: string,
                       uuid: string -> string): Result<seq<FileDetail>, string>
    decreases entries, 0
  {
    if entries == [] then (if entryError.Some? then Err(entryError.value) else Ok([]))
    else
      match Walk(entries[0], basePath, uuid)
      case Err(e) => Err(e)
      case Ok(first) =>
        match WalkEntries(entries[1..], entryError, basePath, uuid)
        case Err(e) => Err(e)
        case Ok(rest) => Ok(first + rest)
  }

  /** `done` followed by the walk of the remaining entries. */
  function Then(done: seq<FileDetail>, rest: Result<seq<FileDetail>, string>): Result<seq<FileDetail>, string>
  {
    match rest
    case Err(e) => Err(e)
    case Ok(ds) => Ok(done + ds)
  }

  /** The walk succeeds exactly when nothing below the node fails, and then
      it returns one detail per regular file, in entry order, each marked as
      not a directory and carrying its relative path. */
  lemma {:induction false} WalkFlattens(n: FsNode, basePath: string, uuid: string -> string)
    ensures Walk(n, basePath, uuid).Ok? <==> Readable(n)
    ensures Walk(n, basePath, uuid).Ok? ==>
      var ds := Walk(n, basePath, uuid).value;
      && |ds| == |FilesOf(n)|
      && forall i :: 0 <= i < |ds| ==> ds[i] == DetailFor(FilesOf(n)[i], basePath, uuid)
    decreases n, 1
  {
    match n
    case Directory(_, entries, entryError) => WalkEntriesFlattens(entries, entryError, basePath, uuid);
    case _ =>
  }

  lemma {:induction false} WalkEntriesFlattens(entries: seq<FsNode>, entryError: Option<string>, basePath: string,
                                               uuid: string -> string)
    ensures WalkEntries(entries, entryError, basePath, uuid).Ok? <==> AllReadable(entries) && entryError.None?
    ensures WalkEntries(entries, entryError, basePath, uuid).Ok? ==>
      var ds := WalkEntries(entries, entryError, basePath, uuid).value;
      && |ds| == |FilesOfEntries(entries)|
      && forall i :: 0 <= i < |ds| ==> ds[i] == DetailFor(FilesOfEntries(entries)[i], basePath, uuid)
    decreases entries, 0
  {
    if entries != [] {
      WalkFlattens(entries[0], basePath, uuid);
      WalkEntriesFlattens(entries[1..], entryError, basePath, uuid);
    }
  }

  /** Every detail the walk returns is a file, never a directory. */
  lemma WalkHasNoDirectories(n: FsNode, basePath: string, uuid: string -> string)
    requires Walk(n, basePath, uuid).Ok?
    ensures forall d :: d in Walk(n, basePath, uuid).value ==> !d.isDir && d.relativePath == RelativePath(d.path, basePath)
  {
    WalkFlattens(n, basePath, uuid);
  }

  /** `get_file_details_internal` (lines 52-86): a recursive walk whose
      directory case extends `result` entry by entry in a loop. */
  method GetFileDetailsInternal(n: FsNode, basePath: string, uuid: string -> string)
    returns (r: Result<seq<FileDetail>, string>)
    ensures r == Walk(n, basePath, uuid)
    decreases n
  {
    match n {
      case Inaccessible(_, e) =>
        return Err(METADATA_ERROR + e);
      case UnreadableDir(_, e) =>
        return Err(READ_DIR_ERROR + e);
      case RegularFile(path) =>
        var relativePath := RelativePath(path, basePath);
        return Ok([FileDetail(uuid(path), path, relativePath, false)]);
      case Directory(_, entries, entryError) =>
        var result: seq<FileDetail> := [];
        var i := 0;
        assert entries[0..] == entries;
        assert forall ds: seq<FileDetail> :: [] + ds == ds;
        while i < |entries|
          invariant 0 <= i <= |entries|
          invariant WalkEntries(entries, entryError, basePath, uuid)
                 == Then(result, WalkEntries(entries[i..], entryError, basePath, uuid))
        {
          assert entries[i..][0] == entries[i] && entries[i..][1..] == entries[i + 1..];
          var childDetails := GetFileDetailsInternal(entries[i], basePath, uuid);
          if childDetails.Err? {
            return Err(childDetails.error);
          }
          assert forall rest: seq<FileDetail> :: result + (childDetails.value + rest) == (result + childDetails.value) + rest;
          result := result + childDetails.value;
          i := i + 1;
        }
        if entryError.Some? {
          return Err(entryError.value);
        }
        assert result + [] == result;
        return Ok(result);
    }
  }

  /** `get_file_details` (lines 88-99): the base path is the picked path's
      parent (or "" when it has none; `Path::parent` is a parameter). */
  method GetFileDetails(n: FsNode, parent: Option<string>, uuid: string -> string)
    returns (r: Result<seq<FileDetail>, string>)
    ensures r == Walk(n, if parent.Some? then parent.value else "", uuid)
  {
    var basePath := if parent.Some? then parent.value else "";
    r := GetFileDetailsInternal(n, basePath, uuid);
  }

  // ---------------------------------------------------------------------
  // Preview of a file
  // ---------------------------------------------------------------------

  const MAX_PREVIEW_BYTES: nat := 10 * 1024 * 1024
  const MAX_PREVIEW_LINES: nat := 100

  /** What `preview_file` asks the file system for: the file's metadata
      length, its text (read_to_string) and its bytes already Base64-encoded
      (read followed by the standard encoder). */
  datatype PreviewFs = PreviewFs(metadata: Result<nat, string>, text: Result<string, string>,
                                 base64: Result<string, string>)

  predicate EndsWith(s: string, suffix: string)
  {
    |suffix| <= |s| && s[|s| - |suffix|..] == suffix
  }

  /** Index of the first `c` in `s`, or |s| when there is none. */
  function IndexOf(s: string, c: char): (i: nat)
    ensures i <= |s|
    ensures i < |s| ==> s[i] == c
    ensures forall j :: 0 <= j < i ==> s[j] != c
  {
    if s == [] then 0 else if s[0] == c then 0 else 1 + IndexOf(s[1..], c)
  }

  /** A line without its line-feed, also without the '\r' before it. */
  function StripCr(line: string): (r: string)
    ensures r == line || (line != [] && line[|line| - 1] == '\r' && r == line[..|line| - 1])
  {
    if line != [] && line[|line| - 1] == '\r' then line[..|line| - 1] else line
  }

  /** Rust's `str::lines`: pieces split at '\n', a '\r' right before the
      '\n' dropped, and no empty piece after a final '\n'. */
  function Lines(s: string): (ls: seq<string>)
    ensures forall k :: 0 <= k < |ls| ==> '\n' !in ls[k]
    decreases |s|
  {
    if s == [] then []
    else
      var i := IndexOf(s, '\n');
      if i == |s| then [s]
      else [StripCr(s[..i])] + Lines(s[i + 1..])
  }

  /** `join("\n")`. */
  function Join(ls: seq<string>): string
  {
    if ls == [] then [] else if |ls| == 1 then ls[0] else ls[0] + "\n" + Join(ls[1..])
  }

  function Take(ls: seq<string>, n: nat): (r: seq<string>)
    ensures |r| <= n && r <= ls
    ensures |ls| <= n ==> r == ls
  {
    if |ls| <= n then ls else ls[..n]
  }

  /** The text after the last '.', the whole string when it has none
      (`split('.').last()`, which is never empty). */
  function LastSegment(s: string): (r: string)
    ensures '.' !in r && EndsWith(s, r)
    ensures |r| < |s| ==> s[|s| - |r| - 1] == '.'
  {
    if s == [] then []
    else if s[|s| - 1] == '.' then []
    else LastSegment(s[..|s| - 1]) + [s[|s| - 1]]
  }

  function Count(s: string, c: char): nat
  {
    if s == [] then 0 else (if s[0] == c then 1 else 0) + Count(s[1..], c)
  }

  /** `preview_file` (lines 101-132). The metadata error is checked first,
      then the 10 MiB limit, then the extension: a ".txt" file previews as
      its first 100 lines, a ".png", ".jpg" or ".jpeg" file as a Base64 data
      URL, anything else is refused. */
  function PreviewFile(path: string, fs: PreviewFs): (r: Result<string, string>)
    ensures fs.metadata.Err? ==> r == Err("无法获取文件元数据：" + fs.metadata.error)
    ensures fs.metadata.Ok? && fs.metadata.value > MAX_PREVIEW_BYTES ==> r == Err("文件大小超过 10MB 限制")
    ensures r.Ok? ==> fs.metadata.Ok? && fs.metadata.value <= MAX_PREVIEW_BYTES
    ensures r.Ok? ==> EndsWith(path, ".txt") || EndsWith(path, ".png") || EndsWith(path, ".jpg") || EndsWith(path, ".jpeg")
  {
    if fs.metadata.Err? then Err("无法获取文件元数据：" + fs.metadata.error)
    else if fs.metadata.value > MAX_PREVIEW_BYTES then Err("文件大小超过 10MB 限制")
    else if EndsWith(path, ".txt") then
      match fs.text
      case Err(e) => Err("无法读取文件：" + e)
      case Ok(content) => Ok(Join(Take(Lines(content), MAX_PREVIEW_LINES)))
    else if EndsWith(path, ".png") || EndsWith(path, ".jpg") || EndsWith(path, ".jpeg") then
      match fs.base64
      case Err(e) => Err("无法读取图片文件：" + e)
      case Ok(b64) => Ok("data:image/" + LastSegment(path) + ";base64," + b64)
    else Err("不支持的文件类型")
  }

  lemma CountAppend(a: string, b: string, c: char)
    ensures Count(a + b, c) == Count(a, c) + Count(b, c)
  {
    if a != [] {
      assert (a + b)[0] == a[0] && (a + b)[1..] == a[1..] + b;
      CountAppend(a[1..], b, c);
    } else {
      assert a + b == b;
    }
  }

  lemma CountAbsent(s: string, c: char)
    requires c !in s
    ensures Count(s, c) == 0
  {
    if s != [] {
      CountAbsent(s[1..], c);
    }
  }

  /** Joining lines that hold no line-feed puts exactly one between each
      neighbouring pair. */
  lemma {:induction false} JoinCount(ls: seq<string>)
    requires forall k :: 0 <= k < |ls| ==> '\n' !in ls[k]
    ensures Count(Join(ls), '\n') == if ls == [] then 0 else |ls| - 1
  {
    if |ls| == 1 {
      CountAbsent(ls[0], '\n');
    } else if |ls| > 1 {
      JoinCount(ls[1..]);
      CountAbsent(ls[0], '\n');
      CountAppend(ls[0], "\n", '\n');
      CountAppend(ls[0] + "\n", Join(ls[1..]), '\n');
    }
  }

  /** A text preview never holds more than 99 line-feeds: at most 100 lines. */
  lemma PreviewTextIsShort(path: string, fs: PreviewFs)
    requires EndsWith(path, ".txt") && PreviewFile(path, fs).Ok?
    ensures Count(PreviewFile(path, fs).value, '\n') < MAX_PREVIEW_LINES
  {
    var ls := Take(Lines(fs.text.value), MAX_PREVIEW_LINES);
    assert forall k :: 0 <= k < |ls| ==> ls[k] == Lines(fs.text.value)[k];
    JoinCount(ls);
  }

  /** Splitting a text into lines and joining them again gives the text back
      when it holds no '\r' and does not end in a line-feed; it then has one
      line more than line-feeds. */
  lemma {:induction false} JoinLines(s: string)
    requires '\r' !in s && (s == [] || s[|s| - 1] != '\n')
    ensures Join(Lines(s)) == s
    ensures |Lines(s)| == if s == [] then 0 else Count(s, '\n') + 1
    decreases |s|
  {
    if s != [] {
      var i := IndexOf(s, '\n');
      if i == |s| {
        CountAbsent(s, '\n');
      } else {
        var head, rest := s[..i], s[i + 1..];
        SplitAtNewline(s, i);
        JoinLines(rest);
        var ls := Lines(rest);
        assert Lines(s) == [head] + ls;
        assert ([head] + ls)[1..] == ls;
      }
    }
  }

  /** The pieces around the first line-feed of a text without '\r' that
      does not end in a line-feed. */
  lemma SplitAtNewline(s: string, i: nat)
    requires '\r' !in s && s != [] && s[|s| - 1] != '\n'
    requires i == IndexOf(s, '\n') && i < |s|
    ensures var head, rest := s[..i], s[i + 1..];
      && s == head + "\n" + rest
      && StripCr(head) == head
      && rest != [] && rest[|rest| - 1] != '\n' && '\r' !in rest
      && Count(s, '\n') == Count(rest, '\n') + 1
  {
    var head, rest := s[..i], s[i + 1..];
    assert rest != [] && rest[|rest| - 1] == s[|s| - 1];
    assert '\r' !in rest by {
      forall j | 0 <= j < |rest| ensures rest[j] != '\r' { assert rest[j] == s[i + 1 + j]; }
    }
    assert head != [] ==> head[|head| - 1] == s[i - 1];
    assert s == head + "\n" + rest;
    CountAbsent(head, '\n');
    CountAppend(head, "\n", '\n');
    CountAppend(head + "\n", rest, '\n');
  }

  /** A small text of at most 100 lines, without '\r' and without a final
      line-feed, previews as exactly itself. */
  lemma PreviewShortTextIsVerbatim(path: string, fs: PreviewFs, content: string)
    requires fs.metadata.Ok? && fs.metadata.value <= MAX_PREVIEW_BYTES
    requires EndsWith(path, ".txt") && fs.text == Ok(content)
    requires '\r' !in content && (content == [] || content[|content| - 1] != '\n')
    requires Count(content, '\n') < MAX_PREVIEW_LINES
    ensures PreviewFile(path, fs) == Ok(content)
  {
    JoinLines(content);
  }

  /** A suffix of a text without '\r' holds no '\r'. */
  lemma NoCrInSuffix(s: string, a: nat)
    requires '\r' !in s && a <= |s|
    ensures '\r' !in s[a..]
  {
    forall j | 0 <= j < |s| - a ensures s[a..][j] != '\r' { assert s[a..][j] == s[a + j]; }
  }

  /** One step of `Lines` at the first line-feed. */
  lemma LinesUnfold(s: string, i: nat)
    requires i == IndexOf(s, '\n') && i < |s|
    ensures Lines(s) == [StripCr(s[..i])] + Lines(s[i + 1..])
  {
  }

  /** The first line of a text without '\r' that holds a line-feed, and the
      rest after that line-feed, which holds no '\r' either. */
  lemma LinesCons(s: string, i: nat)
    requires '\r' !in s && i == IndexOf(s, '\n') && i < |s|
    ensures Lines(s) == [s[..i]] + Lines(s[i + 1..])
    ensures '\r' !in s[i + 1..]
  {
    LinesUnfold(s, i);
    NoCrInSuffix(s, i + 1);
    NoCrAtEnd(s, i);
  }

  /** A text splits around any of its line-feeds. */
  lemma SplitAround(s: string, i: nat)
    requires i < |s| && s[i] == '\n'
    ensures s == s[..i] + "\n" + s[i + 1..]
  {
    assert [s[i]] == "\n";
    assert s[i..] == [s[i]] + s[i + 1..];
    assert s == s[..i] + s[i..];
  }

  /** The text before a position of a text without '\r' does not end in '\r'. */
  lemma NoCrAtEnd(s: string, i: nat)
    requires '\r' !in s && i <= |s|
    ensures StripCr(s[..i]) == s[..i]
  {
    if i > 0 {
      assert s[..i][i - 1] == s[i - 1];
    }
  }

  lemma TakeCons(x: string, ls: seq<string>, n: nat)
    requires n >= 1
    ensures Take([x] + ls, n) == [x] + Take(ls, n - 1)
  {
    if |ls| + 1 > n { assert ([x] + ls)[..n] == [x] + ls[..n - 1]; }
  }

  /** Putting a line and a line-feed in front keeps a prefix a prefix, and
      keeps it stopping before a line-feed. */
  lemma JoinConsPrefix(head: string, rest: string, t: seq<string>)
    requires Join(t) <= rest
    ensures Join([head] + t) <= head + "\n" + rest
    ensures var p := Join([head] + t);
      if t == [] then p == head else |p| == |head| + 1 + |Join(t)|
  {
    if t != [] {
      assert ([head] + t)[1..] == t;
      assert Join([head] + t) == head + "\n" + Join(t);
    }
  }

  /** The first n lines of `s`, joined again, are a prefix of `s`; when `s`
      has more than n lines, that prefix stops right before a line-feed. */
  predicate TakeIsPrefix(s: string, n: nat)
  {
    && Join(Take(Lines(s), n)) <= s
    && (|Lines(s)| > n >= 1 ==>
          var p := Join(Take(Lines(s), n));
          |p| < |s| && s[|p|] == '\n')
  }

  /** The first n lines of a text without '\r', joined again, are a prefix
      of the text; when the text has more than n lines, that prefix stops
      right before the n-th line-feed. */
  lemma {:induction false} JoinTakePrefix(s: string, n: nat)
    requires '\r' !in s
    ensures TakeIsPrefix(s, n)
    decreases |s|
  {
    if s == [] || n == 0 || IndexOf(s, '\n') == |s| {
      JoinTakeBase(s, n);
    } else {
      var i := IndexOf(s, '\n');
      NoCrInSuffix(s, i + 1);
      JoinTakePrefix(s[i + 1..], n - 1);
      JoinTakeStep(s, i, n);
    }
  }

  /** TakeIsPrefix for an empty text, for no lines, and for a text of one
      line. */
  lemma JoinTakeBase(s: string, n: nat)
    requires s == [] || n == 0 || IndexOf(s, '\n') == |s|
    ensures TakeIsPrefix(s, n)
  {
    if s == [] || n == 0 {
      assert Take(Lines(s), n) == [];
    } else {
      assert Lines(s) == [s];
      assert Take(Lines(s), n) == [s];
    }
  }

  /** The step of JoinTakePrefix: the prefix property of the text after the
      first line-feed carries over to the whole text. */
  lemma JoinTakeStep(s: string, i: nat, n: nat)
    requires '\r' !in s && i == IndexOf(s, '\n') && i < |s| && n >= 1
    requires TakeIsPrefix(s[i + 1..], n - 1)
    ensures TakeIsPrefix(s, n)
  {
    var head, rest := s[..i], s[i + 1..];
    var t := Take(Lines(rest), n - 1);
    SplitAround(s, i);
    LinesCons(s, i);
    TakeCons(head, Lines(rest), n);
    JoinConsPrefix(head, rest, t);
    var p := Join([head] + t);
    assert Take(Lines(s), n) == [head] + t;
    if |Lines(s)| > n {
      if n == 1 {
        assert t == [];
        assert p == head && |p| == i && s[i] == '\n';
      } else {
        assert |Lines(rest)| > n - 1 >= 1 && t != [];
        var q := |Join(t)|;
        assert q < |rest| && rest[q] == '\n';
        assert |p| == i + 1 + q;
        assert s[i + 1 + q] == rest[q];
      }
    }
  }

  /** A text preview of a file without '\r' is a prefix of its text; when the
      text has more than 100 lines, the preview holds exactly its first 100:
      it has 99 line-feeds and stops right before the 100th. */
  lemma PreviewTextIsPrefix(path: string, fs: PreviewFs, content: string)
    requires EndsWith(path, ".txt") && PreviewFile(path, fs).Ok?
    requires fs.text == Ok(content) && '\r' !in content
    ensures var p := PreviewFile(path, fs).value;
      && p <= content
      && (|Lines(content)| > MAX_PREVIEW_LINES ==>
            |p| < |content| && content[|p|] == '\n' && Count(p, '\n') == MAX_PREVIEW_LINES - 1)
  {
    JoinTakePrefix(content, MAX_PREVIEW_LINES);
    assert TakeIsPrefix(content, MAX_PREVIEW_LINES);
    var ls := Take(Lines(content), MAX_PREVIEW_LINES);
    assert forall k :: 0 <= k < |ls| ==> ls[k] == Lines(content)[k];
    JoinCount(ls);
  }

  /** The media type of an image preview is the path's own extension. */
  lemma {:induction false} LastSegmentOfExtension(stem: string, ext: string)
    requires '.' !in ext
    ensures LastSegment(stem + "." + ext) == ext
    decreases |ext|
  {
    if ext == [] {
      assert (stem + "." + ext)[|stem + "." + ext| - 1] == '.';
    } else {
      var s := stem + "." + ext;
      var e := ext[..|ext| - 1];
      assert s[..|s| - 1] == stem + "." + e;
      assert '.' !in e by {
        forall j | 0 <= j < |e| ensures e[j] != '.' { assert e[j] == ext[j]; }
      }
      LastSegmentOfExtension(stem, e);
      assert e + [ext[|ext| - 1]] == ext;
    }
  }

  /** The image branch of `preview_file`, with the media type it derives. */
  lemma PreviewImageBranch(path: string, fs: PreviewFs)
    requires !EndsWith(path, ".txt")
    requires EndsWith(path, ".png") || EndsWith(path, ".jpg") || EndsWith(path, ".jpeg")
    requires fs.metadata.Ok? && fs.metadata.value <= MAX_PREVIEW_BYTES && fs.base64.Ok?
    ensures PreviewFile(path, fs) == Ok("data:image/" + LastSegment(path) + ";base64," + fs.base64.value)
  {
  }

  lemma PreviewImageMediaType(path: string, fs: PreviewFs, ext: string)
    requires ext == "png" || ext == "jpg" || ext == "jpeg"
    requires EndsWith(path, "." + ext)
    requires fs.metadata.Ok? && fs.metadata.value <= MAX_PREVIEW_BYTES && fs.base64.Ok?
    ensures PreviewFile(path, fs) == Ok("data:image/" + ext + ";base64," + fs.base64.value)
  {
    var stem := path[..|path| - |ext| - 1];
    assert path == stem + "." + ext;
    LastSegmentOfExtension(stem, ext);
    assert path[|path| - 1] == 'g';
    assert !EndsWith(path, ".txt") by {
      assert path[|path| - |".txt"|..][3] == path[|path| - 1];
    }
    if ext == "png" {
      assert "." + ext == ".png";
    } else if ext == "jpg" {
      assert "." + ext == ".jpg";
    } else {
      assert "." + ext == ".jpeg";
    }
    PreviewImageBranch(path, fs);
  }
}
