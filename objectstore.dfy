/** The S3-compatible object store and the local file system, as seen by the
    upload engine. Both are modelled as an environment `Env`: a total function
    from each request to the reply the outside world gives it. Nothing about
    the wire protocol, signing or the SDK's retries is modelled; what remains
    is which requests are issued, in which order, and how each reply is turned
    into a value or an error string (src-tauri/src/r2.rs). */
module ObjectStore {
  import opened Wrappers

  /** What a request carries as its body. */
  datatype Body =
    | WholeFile(path: string)                              // a file read to its end
    | Inline(content: string)                              // text passed in by the caller
    | FileRange(path: string, offset: nat, length: nat)    // one chunk of a file

  /** The (ETag, part number) pair that complete-multipart-upload needs. */
  datatype CompletedPart = CompletedPart(eTag: string, partNumber: int)

  /** The store operations the engine issues. */
  datatype Op =
    | PutObject(key: string, body: Body)
    | CreateMultipartUpload(key: string)
    | UploadPart(key: string, uploadId: string, partNumber: int, body: Body)
    | CompleteMultipartUpload(key: string, uploadId: string, parts: seq<CompletedPart>)
    | AbortMultipartUpload(key: string, uploadId: string)

  /** Every request is bound to the bucket of the client that sends it. */
  datatype Request = Request(bucket: string, op: Op)

  /** A store reply: the SDK error's text, or success carrying the one optional
      string field the engine reads from the response (the upload id of a
      create, the ETag of an uploaded part; nothing for the others). */
  type Reply = Result<Option<string>, string>

  /** The local file-system operations the engine performs. For `Metadata` the
      value is the file's length; for the others it is ignored. */
  datatype FsOp =
    | Open(path: string)
    | Metadata(path: string)
    | ReadToEnd(path: string)
    | ReadExact(path: string, offset: nat, length: nat)
    | ByteStreamFromPath(path: string)

  /** The outside world: how the store answers each request and how the file
      system answers each operation. */
  datatype Env = Env(store: Request -> Reply, fs: FsOp -> Result<nat, string>)

  /** How a put, complete or abort reply becomes the Rust `Result<(), String>`
      (`.map_err(|e| e.to_string())?; Ok(())`). */
  function UnitResult(reply: Reply): (r: Result<(), string>)
    ensures r.Ok? <==> reply.Ok?
    ensures reply.Err? ==> r == Err(reply.error)
  {
    match reply
    case Ok(_) => Ok(())
    case Err(e) => Err(e)
  }

  /** How the reply to create-multipart-upload becomes an upload id: a
      response without one is the error "Failed to get upload ID". */
  function UploadIdResult(reply: Reply): (r: Result<string, string>)
    ensures r.Ok? <==> reply.Ok? && reply.value.Some?
    ensures r.Ok? ==> r.value == reply.value.value
    ensures reply.Err? ==> r == Err(reply.error)
    ensures reply == Ok(None) ==> r == Err("Failed to get upload ID")
  {
    match reply
    case Err(e) => Err(e)
    case Ok(None) => Err("Failed to get upload ID")
    case Ok(Some(id)) => Ok(id)
  }

  /** How the reply to upload-part becomes a completed part: a response
      without an ETag is the error "Failed to get ETag"; the part carries the
      part number that was sent, not one read back from the store. */
  function PartResult(reply: Reply, partNumber: int): (r: Result<CompletedPart, string>)
    ensures r.Ok? <==> reply.Ok? && reply.value.Some?
    ensures r.Ok? ==> r.value == CompletedPart(reply.value.value, partNumber)
    ensures reply.Err? ==> r == Err(reply.error)
    ensures reply == Ok(None) ==> r == Err("Failed to get ETag")
  {
    match reply
    case Err(e) => Err(e)
    case Ok(None) => Err("Failed to get ETag")
    case Ok(Some(tag)) => Ok(CompletedPart(tag, partNumber))
  }
}
