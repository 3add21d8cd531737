/** The records shared by the Rust back end and the TypeScript front end
    (src-tauri/src/typ.rs). The two f64 fields of `Uploading` (progress and
    speed) are not modelled; only the integer byte counters are kept. */
module Types {

  /** Where the bytes of an upload come from: a local path or inline text. */
  datatype UploadSource = FilePath(path: string) | FileContent(content: string)

  /** One upload request: its id, its source and the object key it goes to. */
  datatype File = File(id: string, source: UploadSource, remoteFilename: string)

  /** One file found under a path the user picked. */
  datatype FileDetail = FileDetail(id: string, path: string, relativePath: string, isDir: bool)

  /** The status pushed to the user interface for one upload. */
  datatype UploadStatus =
    | Uploading(bytesUploaded: nat, totalBytes: nat)
    | Success
    | Error(message: string, code: string)
    | Cancelled
  {
    predicate IsTerminal() { !Uploading? }
  }
}
