/**
  The one error shape the storage layer normalizes: a tagged record
  `{type: 'storageError', status, errorCode}` built by `makeStorageError`.
 */
module StorageErrors {
  import opened Js
  import opened Optional

  const StorageErrorType: string := "storageError"
  const NotFoundStatus: int := 404
  const NotFoundCode: string := "notFound"

  /** The two fields a storage error carries besides its tag. */
  datatype Fields = Fields(status: int, errorCode: string)

  /** Recognizes a storage-error record: exactly the keys `type`, `status`
      and `errorCode`, tagged `'storageError'`, with a numeric status and a
      string code. This is how a caller branches on the normalized error. */
  function AsStorageError(e: Object): Option<Fields>
  {
    if && e.props.Keys == {"type", "status", "errorCode"}
       && e.props["type"] == Str(StorageErrorType)
       && e.props["status"].Number?
       && e.props["errorCode"].Str?
    then Some(Fields(e.props["status"].n, e.props["errorCode"].s))
    else None
  }

  /** `makeStorageError(status, errorCode)`: the record a caller recognizes
      with exactly the fields it was built from. */
  function MakeStorageError(status: int, errorCode: string): (e: Object)
    ensures e.props.Keys == {"type", "status", "errorCode"}
    ensures Get(e, "type") == Str(StorageErrorType)
    ensures Get(e, "status") == Number(status)
    ensures Get(e, "errorCode") == Str(errorCode)
    ensures AsStorageError(e) == Some(Fields(status, errorCode))
  {
    Object(map["type" := Str(StorageErrorType), "status" := Number(status), "errorCode" := Str(errorCode)])
  }

  /** Recognition is exact: whatever is recognized as a storage error is
      precisely the record `makeStorageError` builds from its fields. */
  lemma RecognizedIsMade(e: Object, f: Fields)
    ensures AsStorageError(e) == Some(f) <==> e == MakeStorageError(f.status, f.errorCode)
  {
  }

  /** Two storage errors are the same record exactly when their fields agree. */
  lemma MakeStorageErrorInjective(s1: int, c1: string, s2: int, c2: string)
    ensures MakeStorageError(s1, c1) == MakeStorageError(s2, c2) <==> s1 == s2 && c1 == c2
  {
  }

  /** The normalized not-found record, `makeStorageError(404, 'notFound')`. */
  function NotFoundError(): (e: Object)
    ensures AsStorageError(e) == Some(Fields(NotFoundStatus, NotFoundCode))
    ensures Get(e, "type") == Str(StorageErrorType)
  {
    MakeStorageError(NotFoundStatus, NotFoundCode)
  }
}

/**
  What an existence check reports, whichever backend ran it: the normalized
  not-found error, a backend failure passed through untouched, or the
  existence metadata.
 */
module Outcomes {
  import opened Js
  import opened Optional
  import opened StorageErrors

  /** Header-like existence metadata. */
  type Headers = map<string, Value>

  const AcceptRanges: string := "Accept-Ranges"
  const ContentLength: string := "Content-Length"
  const ETag: string := "ETag"
  const LastModified: string := "Last-Modified"

  /** The bit-exact key vocabulary every backend's metadata uses. */
  const MetadataKeys: set<string> := {AcceptRanges, ContentLength, ETag, LastModified}

  datatype Outcome = NotFound | PassThrough(err: Object) | Found(headers: Headers)

  /** The first argument the completion callback receives: an error value,
      or none (`null`) on success. */
  function CallbackError(o: Outcome): (err: Option<Object>)
    ensures err.None? <==> o.Found?
    ensures o.NotFound? ==> && AsStorageError(err.value) == Some(Fields(NotFoundStatus, NotFoundCode))
                            && Get(err.value, "type") == Str(StorageErrorType)
    ensures o.PassThrough? ==> err == Some(o.err)
  {
    match o
    case NotFound => Some(NotFoundError())
    case PassThrough(e) => Some(e)
    case Found(_) => None
  }
}
