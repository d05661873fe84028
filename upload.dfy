/**
 * The upload middleware's own rules: the file filter's allow-list of image
 * types and the per-file size limit. Storage of the accepted file in the bucket
 * and the naming of its key are not part of this model.
 */
module Upload {
  import opened Wrappers

  /** The MIME types the filter lets through. */
  const AllowedTypes: seq<string> := ["image/jpeg", "image/png", "image/gif"]

  const InvalidType: string := "Invalid file type. Only images are allowed."

  /** One call of the filter's callback `cb(error, accept)`. */
  datatype FilterCall = FilterCall(error: Option<string>, accept: bool)

  /**
   * `fileFilter`: the callback is called exactly once, accepting with no error
   * exactly the three image types (compared as written, case included), and
   * refusing every other type with the "invalid file type" error.
   */
  function FileFilter(mimetype: string): (calls: seq<FilterCall>)
    ensures |calls| == 1
    ensures calls[0].accept <==> mimetype == "image/jpeg" || mimetype == "image/png" || mimetype == "image/gif"
    ensures calls[0].accept ==> calls[0].error == None
    ensures !calls[0].accept ==> calls[0].error == Some(InvalidType)
  {
    if mimetype in AllowedTypes then [FilterCall(None, true)]
    else [FilterCall(Some(InvalidType), false)]
  }

  /** `limits: { fileSize: 5 * 1024 * 1024 }`, in bytes. */
  const FileSizeLimit: nat := 5 * 1024 * 1024

  /** A file is within the limit when it has at most `FileSizeLimit` bytes. */
  predicate WithinLimit(size: nat) {
    size <= FileSizeLimit
  }

  /** Whether the middleware lets a file through: an allowed type and a size within the limit. */
  function Admits(mimetype: string, size: nat): (ok: bool)
    ensures ok <==> mimetype in AllowedTypes && size <= 5_242_880
  {
    FileFilter(mimetype)[0].accept && WithinLimit(size)
  }
}
