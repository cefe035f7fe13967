# storage-adaptors: the decision layer, in Dafny

The repository is a uniform object-storage access layer. It has three
backends: a remote HTTP endpoint, an S3 object store and the local
filesystem. Each offers `exists`, `read` and `write`. Most of the code
forwards to libraries that are not modelled: an injected `request` client,
`aws-sdk`, `fs` and `crypto`. This project models the pure decisions
underneath that glue:

- **Not-found normalization.** Each backend's `exists` turns its own
  "not found" signal into the one record `{type:'storageError', status:404,
  errorCode:'notFound'}` (`makeStorageError`). Every other failure is
  passed through unchanged.
  - HTTP: `statusCode === 404`.
  - S3: `name === 'NotFound'`.
  - Filesystem: any `stat` error, or a path that is not a regular file.
- **Existence metadata.**
  - S3 renames four provider fields to `Accept-Ranges`, `Content-Length`,
    `ETag` and `Last-Modified`.
  - The filesystem builds the same four headers itself. The ETag is the hex
    SHA-1 of the whole file, streamed through the digest. The headers are
    reported only when the read stream ends.
- **Addressing.**
  - HTTP uses `[baseUrl, filename].join('/')`.
  - S3 uses `{Bucket: path, Key: filename}`.
  - The filesystem uses `path + filename`, with no separator.
- **The filesystem write relay.** It copies source-stream `data` chunks to
  the destination. On `end` it ends the destination and calls back with no
  error. On `error` it calls back with that error.

Each external call is an input value. A native result (`HeadResult`,
`HeadObjectResult`, `StatResult`) is a datatype. A stream is a
`seq<Streams.Event>` of `Data | End | Error`. SHA-1 is a function-typed
parameter `sha1Hex: seq<byte> -> string`. JavaScript objects are property
maps (`Js.Object`), and a missing property reads as `Undefined`. Every
existence check reports an `Outcomes.Outcome`: `NotFound`,
`PassThrough(err)` or `Found(headers)`. `Outcomes.CallbackError` says what
the completion callback receives as its first argument.

Modules follow the source's structure:

- `Js`: values, objects, `join`.
- `StorageErrors`: `makeStorageError`.
- `Outcomes`: the shared result model.
- `Streams`: stream events.
- `HttpAdapter`, `S3Adapter`, `FileSystemAdapter`: one per backend.
- `Uniform`: properties across backends.

Two consequences of the code worth stating:

- The address is `path + filename` with no separator, so a root without a
  trailing `/` names a sibling of the root (`NoSeparatorInserted`).
- Every `stat` error, a permission error included, is reported as
  not-found.

## Model

| member | source | states |
|---|---|---|
| StorageErrors.MakeStorageError | src/storage.js:6-8 | the record has exactly the keys `type`, `status`, `errorCode`, tagged `'storageError'`, and is recognized as a storage error carrying exactly the status and code it was built from |
| StorageErrors.RecognizedIsMade | src/storage.js:6-8 | an object is recognized as a storage error with given fields if and only if it is the record `makeStorageError` builds from them |
| StorageErrors.MakeStorageErrorInjective | src/storage.js:6-8 | two storage errors are equal exactly when their status and code are equal |
| StorageErrors.NotFoundError | src/storage.js:17 | the normalized not-found value is a `'storageError'` record with status 404 and code `'notFound'` |
| Outcomes.CallbackError | src/storage.js:45-57 | the callback gets no error exactly on success; not-found delivers the 404/`notFound` storage record; a pass-through delivers the native error itself |
| HttpAdapter.Url | src/storage.js:14 | `[baseUrl, filename].join('/')` is `baseUrl + "/" + filename` |
| HttpAdapter.UrlInjective | src/storage.js:14 | the filename is recovered from the URL, so under one base distinct filenames give distinct URLs (both directions) |
| HttpAdapter.ExistsRequest | src/storage.js:14 | the existence check issues a HEAD to `baseUrl + "/" + filename` |
| HttpAdapter.ReadRequest | src/storage.js:29 | the read issues a GET to the same `baseUrl + "/" + filename` |
| HttpAdapter.WriteRequest | src/storage.js:36 | the write pipes into a POST to the same `baseUrl + "/" + filename` |
| HttpAdapter.IsNotFoundSignal | src/storage.js:16 | the not-found signal holds exactly when the error has a `statusCode` that is the number 404; a missing or string `"404"` status is not it (strict equality) |
| HttpAdapter.HttpExists | src/storage.js:15-21 | not-found if and only if the error's `statusCode` is 404; pass-through of the very same error if and only if some other error; with the success branch corrected, the HEAD response's own headers |
| HttpAdapter.HttpExistsAsWritten | src/storage.js:13-22 | as written, a successful HEAD throws instead of calling back (and only a success does), so existence is never reported |
| HttpAdapter.AsWrittenDiffersOnlyOnSuccess | src/storage.js:15-21 | the written code and the corrected check deliver the same outcome on every failure and differ on every success |
| HttpAdapter.SuccessThrows | src/storage.js:21 | concrete witness: an empty successful response makes the written code throw `ReferenceError`, while the corrected check reports its headers |
| S3Adapter.ExistsCall | src/storage.js:44-45 | `headObject` with `Bucket` the configured path and `Key` the filename, both unmodified |
| S3Adapter.ReadCall | src/storage.js:67 | `getObject` with the same `{Bucket, Key}` as the existence check |
| S3Adapter.WriteCall | src/storage.js:76 | `upload` with the same `{Bucket, Key}` as the existence check |
| S3Adapter.IsNotFoundSignal | src/storage.js:47 | the not-found signal holds exactly when the error's `name` is the string `'NotFound'`; a missing name or another spelling is not it |
| S3Adapter.MetadataOf | src/storage.js:52-57 | success metadata has exactly the four header keys, each copied from its provider field (`undefined` when the field is absent) |
| S3Adapter.S3Exists | src/storage.js:45-57 | not-found if and only if the error's `name` is `'NotFound'`; pass-through of the same error if and only if another error; on success exactly the four keys, each copied from its provider field |
| S3Adapter.MetadataDependsOnlyOnFields | src/storage.js:52-57 | two successes report equal metadata if and only if the four provider fields agree |
| FileSystemAdapter.FsPath | src/storage.js:83 | the path is the root followed immediately by the filename: length is the sum, root is the prefix, filename the suffix |
| FileSystemAdapter.NoSeparatorInserted | src/storage.js:118 | under one root, paths are equal if and only if the filenames are; moving characters between root and filename gives the same path |
| FileSystemAdapter.ReadPath | src/storage.js:118 | the read opens `path + filename`, with no separator and no existence check |
| FileSystemAdapter.MetadataOf | src/storage.js:97-104 | exactly the four keys: `Accept-Ranges` is `'bytes'`, `Content-Length` is the stat size, `ETag` the digest, `Last-Modified` the stat mtime |
| FileSystemAdapter.HashRun | src/storage.js:95-109 | for the events the read stream emits, the digest receives exactly the in-order concatenation of the chunks, and the callback is not called while only chunks have arrived |
| FileSystemAdapter.FsExists | src/storage.js:81-110 | stats `path + filename`; opens no read stream exactly when stat fails or the path is not a regular file, and then reports only not-found; otherwise reads `path + filename` |
| FileSystemAdapter.FsExistsAtEnd | src/storage.js:92-105 | for a regular file whose stream delivers chunks then `end`: exactly one report, at the end, with `bytes`, the stat size (not the number of bytes hashed), the stat mtime and the SHA-1 of the concatenated chunks |
| FileSystemAdapter.FsExistsOnStreamError | src/storage.js:106-108 | for a regular file whose stream fails after some chunks: exactly one report, the raw stream error, not normalized |
| FileSystemAdapter.EtagDependsOnlyOnContent | src/storage.js:93-109 | two complete reads of an unchanged file with equal content, however chunked, yield identical reports, so equal content gives an equal ETag |
| FileSystemAdapter.RelayRun | src/storage.js:127-134 | the destination receives exactly the in-order concatenation of the chunks and is ended if and only if `end` arrived; the callback is not called while only chunks have arrived |
| FileSystemAdapter.FsWrite | src/storage.js:124-135 | writes to `path + filename`; the content is the concatenation of the chunks; the destination is ended if and only if `end` arrived |
| FileSystemAdapter.FsWriteAtEnd | src/storage.js:127-133 | chunks then `end`: the destination holds the chunks and is ended, and the callback is then called exactly once with no error |
| FileSystemAdapter.FsWriteOnSourceError | src/storage.js:127-134 | chunks then `error`: the callback is called exactly once with that error, and the destination is not ended but holds the chunks so far (a partial file) |
| FileSystemAdapter.Commit | src/storage.js:126-134 | a destination that flushed replaces the file its path names, so every path naming that file (an alias such as `./x` included) reads the relayed content, and every other file is as it was; a destination error, having no listener, is thrown |
| FileSystemAdapter.WriteThenRead | src/storage.js:116-134 | once the destination has flushed, the file the read opens holds exactly the written chunks; a failing destination throws its error instead |
| FileSystemAdapter.CommitsCommute | src/storage.js:126-134 | two flushed writes whose paths name distinct files leave the same disk whichever finishes first, since each replaces only its own file |
| FileSystemAdapter.DistinctWritesDoNotInterfere | src/storage.js:124-135 | flushed writes to two filenames under one root that name distinct files both read back intact, and they commute; such filenames are necessarily distinct strings |
| FileSystemAdapter.AliasedWritesLastWins | src/storage.js:124-135 | flushed writes to two filenames that name one file (`x` and `./x`): the second replaces the first, and both read back the second content |
| Uniform.HashCallsComeFromStream | src/storage.js:95-108 | every report of the hashing read, for any events, is the four-key metadata or an error that came from the read stream |
| Uniform.ErrorTaxonomy | src/storage.js:12-110 | for every backend, an error reaching the exists callback is the not-found record or the backend's own failure unchanged; the filesystem never passes a stat error through |
| Uniform.NotFoundIsOneRecord | src/storage.js:6-89 | HTTP 404, S3 `NotFound` and filesystem stat failure or non-file all deliver the same `makeStorageError(404, 'notFound')` value |
| Uniform.MetadataVocabulary | src/storage.js:52-103 | for any provider result and any read stream, S3 and filesystem successes both carry exactly the keys `Accept-Ranges`, `Content-Length`, `ETag`, `Last-Modified` |

## Findings

| source | as written | input that shows it | evidently intended | confidence | as-written member | corrected member |
|---|---|---|---|---|---|---|
| src/storage.js:21 | the success branch reads `response.headers`, but the callback's parameter is `data` and no `response` is bound, so reading it throws `ReferenceError` and the callback is never called | any successful HEAD, e.g. `HeadOk(Response(map[]))` | call back with the HEAD response's own headers (`data.headers`) | high; not executed | HttpAdapter.HttpExistsAsWritten | HttpAdapter.HttpExists |

## Left out

- The calls into `request` (`head`, `get`, `post`), `aws.S3` (`headObject`, `getObject`, `upload`) and `fs` (`stat`, `createReadStream`, `createWriteStream`) are I/O into libraries the model cannot see. They appear only as their arguments (URL, `{Bucket, Key}`, path) and as input results and event sequences.
- SHA-1 and its hex encoding (`crypto.createHash('sha1')`) are a function parameter. Their internals are not modelled.
- The S3 client built per call (`new aws.S3()`) is a runtime resource with no decision in it.
- HTTP read and write, S3 read and write, and filesystem read only forward to library streams. Only their addresses are modelled (`ReadRequest`, `WriteRequest`, `ReadCall`, `WriteCall`, `ReadPath`).
- HTTP write never invokes its callback. The model does not track that callback.
- The upload body is not modelled (`Body: fileStream` in S3 write). Neither is the bytes written by the HTTP POST pipe.
- Asynchronous scheduling is not modelled. Neither are callback timing or concurrent writers to the same file. A stream is its ordered sequence of events. Node never emits events after `end` or `error`, so the settling lemmas take a stream as `data` chunks (`Streaming`) plus one terminal event.
- `mtime` and `size` are opaque values, copied through. JavaScript numbers are integers in `Js.Value`, so fractional `statusCode`s are not modelled.
- Object identity is modelled as value equality: "the same error" means an equal `Js.Object`.
- The wrapping of S3 and filesystem metadata in `{headers: ...}` is not modelled, nor the unwrapped form of the corrected HTTP success. `Found(headers)` stands for both.
- The disk (`FileSystemAdapter.Disk`) is a map from file to content, and which file a path names (`FileSystemAdapter.Names`) is a parameter, fixed for the writes a lemma relates. The operating system's resolution rules (`.`, `..`, links, case folding), directories, permissions, renames between writes, and stat results derived from the disk are not modelled. The disk exists only to state write-then-read and (non-)interference.
- Digest finalization timing is not modelled. Reading the digest right after `hash.end()` is taken to yield the digest of every chunk piped before `end`.
- FileSystemAdapter.WriteThenRead: the round-trip is stated for the disk once the destination has flushed. `callback()` runs right after `fd.end()` and does not wait for the flush, so a read started from the callback can see a shorter file. Flush timing is asynchronous scheduling, which is not modelled.
- FileSystemAdapter.Commit: a destination that fails part-way (for example out of space) throws; what it left on disk before the throw is not modelled, because the process state after an uncaught exception is outside this layer.
- FileSystemAdapter.RelayRun: a chunk after `end` is still appended, where `fd.write` after `fd.end()` would fail with a write-after-end error. Node streams never emit `data` after `end`, so the properties are meant for the sequences a stream actually emits.
- The per-backend `exists` functions take the native result alone. The request each one answers is modelled separately (`ExistsRequest`, `ExistsCall`, `FsExists`'s `statPath`), since the decision does not depend on the address.
