/**
  The object-store backend (`makeS3Exists`, `makeS3Read`, `makeS3Write`):
  every operation addresses `{Bucket: path, Key: filename}`; the existence
  check maps the provider's `headObject` result onto the common metadata.
 */
module S3Adapter {
  import opened Js
  import opened StorageErrors
  import opened Outcomes

  /** The `{Bucket, Key}` pair handed to the provider. */
  datatype Params = Params(bucket: string, key: string)

  /** The provider calls the three operations make. */
  datatype Call = HeadObject(params: Params) | GetObject(params: Params) | Upload(params: Params)

  /** `headObject` on the configured path as bucket and the filename as
      key, both unmodified. */
  function ExistsCall(path: string, filename: string): (c: Call)
    ensures c.HeadObject? && c.params.bucket == path && c.params.key == filename
  {
    HeadObject(Params(path, filename))
  }

  /** `getObject` on the same bucket and key as the existence check. */
  function ReadCall(path: string, filename: string): (c: Call)
    ensures c.GetObject? && c.params == ExistsCall(path, filename).params
  {
    GetObject(Params(path, filename))
  }

  /** `upload` also carries `Body: fileStream`, which is not modelled. */
  function WriteCall(path: string, filename: string): (c: Call)
    ensures c.Upload? && c.params == ExistsCall(path, filename).params
  {
    Upload(Params(path, filename))
  }

  /** What `headObject` hands its callback: an error, or the object's data. */
  datatype HeadObjectResult = HeadFailed(err: Object) | HeadOk(data: Object)

  /** The native not-found signal: `err.name === 'NotFound'`. Only that
      exact string qualifies: an error without a `name`, or with another
      spelling, is not a not-found signal. */
  function IsNotFoundSignal(err: Object): (b: bool)
    ensures b <==> "name" in err.props && err.props["name"] == Str("NotFound")
    ensures Get(err, "name") == Str("notFound") ==> !b
  {
    Get(err, "name") == Str("NotFound")
  }

  /** The provider's metadata fields renamed to the common header keys.
      A field the provider left out is still a key, read as `undefined`. */
  function MetadataOf(data: Object): (h: Headers)
    ensures h.Keys == MetadataKeys
    ensures h[AcceptRanges] == Get(data, "AcceptRanges")
    ensures h[ContentLength] == Get(data, "ContentLength")
    ensures h[ETag] == Get(data, "ETag")
    ensures h[LastModified] == Get(data, "LastModified")
  {
    map[AcceptRanges := Get(data, "AcceptRanges"),
        ContentLength := Get(data, "ContentLength"),
        ETag := Get(data, "ETag"),
        LastModified := Get(data, "LastModified")]
  }

  /** The existence check: `NotFound` errors are normalized, every other
      error passes through as the same value, and success reports exactly
      the four metadata keys copied from the provider's fields. */
  function S3Exists(result: HeadObjectResult): (o: Outcome)
    ensures o.NotFound? <==> result.HeadFailed? && IsNotFoundSignal(result.err)
    ensures o.PassThrough? <==> result.HeadFailed? && !IsNotFoundSignal(result.err)
    ensures o.PassThrough? ==> o.err == result.err
    ensures o.Found? <==> result.HeadOk?
    ensures o.Found? ==> o.headers.Keys == MetadataKeys
    ensures o.Found? ==> forall k :: k in o.headers ==> o.headers[k] == Get(result.data, ProviderField(k))
  {
    match result
    case HeadFailed(err) => if IsNotFoundSignal(err) then NotFound else PassThrough(err)
    case HeadOk(data) => Found(MetadataOf(data))
  }

  /** The provider field each header key is copied from: the key without
      its hyphen (`Content-Length` from `ContentLength`). */
  function ProviderField(key: string): string
  {
    if key == AcceptRanges then "AcceptRanges"
    else if key == ContentLength then "ContentLength"
    else if key == LastModified then "LastModified"
    else key
  }

  /** Two successful checks report the same metadata exactly when the
      provider reported the same four fields: nothing else leaks in. */
  lemma MetadataDependsOnlyOnFields(d1: Object, d2: Object)
    ensures MetadataOf(d1) == MetadataOf(d2) <==>
            && Get(d1, "AcceptRanges") == Get(d2, "AcceptRanges")
            && Get(d1, "ContentLength") == Get(d2, "ContentLength")
            && Get(d1, "ETag") == Get(d2, "ETag")
            && Get(d1, "LastModified") == Get(d2, "LastModified")
  {
  }
}
