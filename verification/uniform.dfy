/**
  Properties shared by all three backends' existence checks: the two-tier
  error taxonomy (one normalized not-found record, everything else passed
  through) and the common metadata vocabulary.
 */
module Uniform {
  import opened Js
  import opened Optional
  import opened StorageErrors
  import opened Outcomes
  import opened Streams
  import HttpAdapter
  import S3Adapter
  import FileSystemAdapter

  /** Every callback invocation of the filesystem's hashing read is either
      the four-key metadata or an error taken from the read stream itself. */
  lemma {:induction false} HashCallsComeFromStream(stat: FileSystemAdapter.Stat, sha1Hex: seq<byte> -> string,
                                                   events: seq<Event>)
    ensures forall c :: c in FileSystemAdapter.HashRun(stat, sha1Hex, events).calls ==>
              (c.Found? && c.headers.Keys == MetadataKeys) || (c.PassThrough? && Error(c.err) in events)
    decreases |events|
  {
    if |events| > 0 {
      var n := |events| - 1;
      HashCallsComeFromStream(stat, sha1Hex, events[..n]);
      assert events == events[..n] + [events[n]];
      forall c | c in FileSystemAdapter.HashRun(stat, sha1Hex, events[..n]).calls && c.PassThrough?
        ensures Error(c.err) in events
      {
        assert Error(c.err) in events[..n];
      }
    }
  }

  /** Whatever backend ran the check, an error reaching the callback is
      either the one not-found record `{type:'storageError', status:404,
      errorCode:'notFound'}` or a failure of the backend itself, unchanged.
      The filesystem never passes a stat error through. */
  lemma ErrorTaxonomy(http: HttpAdapter.HeadResult, s3: S3Adapter.HeadObjectResult,
                      root: string, filename: string, st: FileSystemAdapter.StatResult,
                      stream: seq<Event>, sha1Hex: seq<byte> -> string)
    ensures var e := CallbackError(HttpAdapter.HttpExists(http));
            e.Some? ==> e.value == NotFoundError() || (http.HeadFailed? && e.value == http.err)
    ensures var e := CallbackError(S3Adapter.S3Exists(s3));
            e.Some? ==> e.value == NotFoundError() || (s3.HeadFailed? && e.value == s3.err)
    ensures forall c :: c in FileSystemAdapter.FsExists(root, filename, st, stream, sha1Hex).calls ==>
              var e := CallbackError(c);
              e.Some? ==> e.value == NotFoundError() || Error(e.value) in stream
  {
    if st.StatOk? && st.stat.isFile {
      HashCallsComeFromStream(st.stat, sha1Hex, stream);
    }
  }

  /** The not-found record is the same value whichever backend produced it. */
  lemma NotFoundIsOneRecord(http: HttpAdapter.HeadResult, s3: S3Adapter.HeadObjectResult,
                            root: string, filename: string, st: FileSystemAdapter.StatResult,
                            stream: seq<Event>, sha1Hex: seq<byte> -> string)
    requires http.HeadFailed? && HttpAdapter.IsNotFoundSignal(http.err)
    requires s3.HeadFailed? && S3Adapter.IsNotFoundSignal(s3.err)
    requires st.StatFailed? || !st.stat.isFile
    ensures CallbackError(HttpAdapter.HttpExists(http)) == Some(MakeStorageError(NotFoundStatus, NotFoundCode))
    ensures CallbackError(S3Adapter.S3Exists(s3)) == Some(MakeStorageError(NotFoundStatus, NotFoundCode))
    ensures FileSystemAdapter.FsExists(root, filename, st, stream, sha1Hex).calls
              == [NotFound]
    ensures CallbackError(NotFound) == Some(MakeStorageError(NotFoundStatus, NotFoundCode))
  {
  }

  /** The object-store and filesystem backends report existence with exactly
      the same four header keys. */
  lemma MetadataVocabulary(s3: S3Adapter.HeadObjectResult, root: string, filename: string,
                           stat: FileSystemAdapter.Stat, stream: seq<Event>, sha1Hex: seq<byte> -> string)
    ensures S3Adapter.S3Exists(s3).Found? ==> S3Adapter.S3Exists(s3).headers.Keys == MetadataKeys
    ensures forall c :: c in FileSystemAdapter.FsExists(root, filename, FileSystemAdapter.StatOk(stat), stream, sha1Hex).calls ==>
              c.Found? ==> c.headers.Keys == MetadataKeys
  {
    HashCallsComeFromStream(stat, sha1Hex, stream);
  }
}
