/**
  The filesystem backend (`makeFileSystemExists`, `makeFileSystemRead`,
  `makeFileSystemWrite`). It is the only backend that synthesizes its
  metadata: the ETag is the hex SHA-1 of the whole file, streamed through
  the digest. The digest function is a parameter, `sha1Hex`.
 */
module FileSystemAdapter {
  import opened Js
  import opened Optional
  import opened StorageErrors
  import opened Outcomes
  import opened Streams

  /** The path every filesystem operation opens: the configured root and the
      filename side by side, with no separator inserted between them. */
  function FsPath(root: string, filename: string): (p: string)
    ensures |p| == |root| + |filename|
    ensures p[..|root|] == root && p[|root|..] == filename
  {
    root + filename
  }

  /** Under one root, distinct filenames open distinct paths; across roots,
      paths collide whenever the boundary between root and filename moves. */
  lemma NoSeparatorInserted(root: string, f1: string, f2: string)
    ensures FsPath(root, f1) == FsPath(root, f2) <==> f1 == f2
    ensures FsPath(root + f1, f2) == FsPath(root, f1 + f2)
  {
  }

  /** `fs.createReadStream(path + filename)` as returned by the read
      operation: the stream is opened with no existence check. */
  function ReadPath(root: string, filename: string): (p: string)
    ensures p == root + filename
  {
    FsPath(root, filename)
  }

  // ---------------------------------------------------------------- exists

  /** The part of an `fs.Stats` the check reads. `size` and `mtime` are
      copied through without interpretation. */
  datatype Stat = Stat(isFile: bool, size: Value, mtime: Value)

  /** What `fs.stat` hands its callback. */
  datatype StatResult = StatFailed(err: Object) | StatOk(stat: Stat)

  /** The metadata reported for a regular file whose content digest is `etag`. */
  function MetadataOf(stat: Stat, etag: string): (h: Headers)
    ensures h.Keys == MetadataKeys
    ensures h[AcceptRanges] == Str("bytes")
    ensures h[ContentLength] == stat.size
    ensures h[ETag] == Str(etag)
    ensures h[LastModified] == stat.mtime
  {
    map[AcceptRanges := Str("bytes"), ContentLength := stat.size, ETag := Str(etag), LastModified := stat.mtime]
  }

  /** The state of the hashing read: bytes piped into the digest so far and
      the callback invocations made so far. */
  datatype Hashing = Hashing(hashed: seq<byte>, calls: seq<Outcome>)

  /** One read-stream event: a chunk is piped into the digest; `end`
      finishes the digest and reports the metadata; `error` hands the raw
      error to the callback. */
  function HashStep(stat: Stat, sha1Hex: seq<byte> -> string, h: Hashing, e: Event): Hashing
  {
    match e
    case Data(chunk) => h.(hashed := h.hashed + chunk)
    case End => h.(calls := h.calls + [Found(MetadataOf(stat, sha1Hex(h.hashed)))])
    case Error(err) => h.(calls := h.calls + [PassThrough(err)])
  }

  /** The listeners of the hashing read applied to the events in order. The
      digest sees every chunk of the stream, in order, and the callback is
      not called until a terminal event arrives. */
  function HashRun(stat: Stat, sha1Hex: seq<byte> -> string, events: seq<Event>): (h: Hashing)
    ensures h.hashed == Payload(events)
    ensures Streaming(events) ==> h.calls == []
    decreases |events|
  {
    if |events| == 0 then Hashing([], [])
    else
      var n := |events| - 1;
      var before := HashRun(stat, sha1Hex, events[..n]);
      assert events == events[..n] + [events[n]];
      PayloadSnoc(events[..n], events[n]);
      HashStep(stat, sha1Hex, before, events[n])
  }

  /** One existence check: the path stat'ed, the path of the read stream it
      opened (none when it opened none), and the callback invocations. */
  datatype ExistsRun = ExistsRun(statPath: string, readPath: Option<string>, calls: seq<Outcome>)

  /** The existence check. Any stat error, and any path that is not a
      regular file, is reported as the normalized not-found error without
      opening a stream; otherwise the file is streamed through the digest. */
  function FsExists(root: string, filename: string, st: StatResult, stream: seq<Event>,
                    sha1Hex: seq<byte> -> string): (run: ExistsRun)
    ensures run.statPath == FsPath(root, filename)
    ensures run.readPath.None? <==> st.StatFailed? || !st.stat.isFile
    ensures run.readPath.None? ==> run.calls == [NotFound]
    ensures run.readPath.Some? ==> run.readPath.value == FsPath(root, filename)
  {
    var p := FsPath(root, filename);
    match st
    case StatFailed(_) => ExistsRun(p, None, [NotFound])
    case StatOk(stat) =>
      if !stat.isFile then ExistsRun(p, None, [NotFound])
      else ExistsRun(p, Some(p), HashRun(stat, sha1Hex, stream).calls)
  }

  /** For a regular file whose read stream delivers some chunks and then
      `end`: exactly one report, made at the end, whose metadata says
      `bytes`, the stat size (not the number of bytes hashed), the stat
      mtime and the digest of the whole content. */
  lemma FsExistsAtEnd(root: string, filename: string, stat: Stat, chunks: seq<Event>,
                      sha1Hex: seq<byte> -> string)
    requires stat.isFile && Streaming(chunks)
    ensures FsExists(root, filename, StatOk(stat), chunks + [End], sha1Hex).calls
              == [Found(MetadataOf(stat, sha1Hex(Payload(chunks))))]
  {
    var events := chunks + [End];
    assert events[..|events| - 1] == chunks;
  }

  /** For a regular file whose read stream fails after some chunks: exactly
      one report, the raw stream error, not normalized. */
  lemma FsExistsOnStreamError(root: string, filename: string, stat: Stat, chunks: seq<Event>,
                              err: Object, sha1Hex: seq<byte> -> string)
    requires stat.isFile && Streaming(chunks)
    ensures FsExists(root, filename, StatOk(stat), chunks + [Error(err)], sha1Hex).calls
              == [PassThrough(err)]
  {
    var events := chunks + [Error(err)];
    assert events[..|events| - 1] == chunks;
  }

  /** The ETag depends on the file's content only: however the content is
      chunked, an unchanged file is reported with the same metadata. */
  lemma EtagDependsOnlyOnContent(root: string, filename: string, stat: Stat,
                                 c1: seq<Event>, c2: seq<Event>, sha1Hex: seq<byte> -> string)
    requires stat.isFile && Streaming(c1) && Streaming(c2)
    requires Payload(c1) == Payload(c2)
    ensures FsExists(root, filename, StatOk(stat), c1 + [End], sha1Hex).calls
         == FsExists(root, filename, StatOk(stat), c2 + [End], sha1Hex).calls
  {
    FsExistsAtEnd(root, filename, stat, c1, sha1Hex);
    FsExistsAtEnd(root, filename, stat, c2, sha1Hex);
  }

  // ----------------------------------------------------------------- write

  /** One invocation of the write callback: the error it received (none for
      `callback()`), and whether the destination had been ended by then. */
  datatype Notice = Notice(err: Option<Object>, destinationEnded: bool)

  /** The state of the relay: bytes written to the destination, whether it
      has been ended, and the callback invocations so far. */
  datatype Relay = Relay(content: seq<byte>, ended: bool, notices: seq<Notice>)

  /** One source-stream event: a chunk is written to the destination; `end`
      ends the destination and then calls back with no error; `error` calls
      back with the error and leaves the destination as it is. */
  function RelayStep(r: Relay, e: Event): Relay
  {
    match e
    case Data(chunk) => r.(content := r.content + chunk)
    case End => r.(ended := true, notices := r.notices + [Notice(None, true)])
    case Error(err) => r.(notices := r.notices + [Notice(Some(err), r.ended)])
  }

  /** The relay's listeners applied to the source events in order. The
      destination receives exactly the in-order concatenation of the chunks;
      it is ended exactly when `end` arrived; and the callback is not called
      until a terminal event arrives. Node emits nothing after `end` or
      `error`; a chunk after `end` is still appended here, where the source
      would fail with a write after end. */
  function RelayRun(events: seq<Event>): (r: Relay)
    ensures r.content == Payload(events)
    ensures r.ended <==> End in events
    ensures Streaming(events) ==> r.notices == []
    decreases |events|
  {
    if |events| == 0 then Relay([], false, [])
    else
      var n := |events| - 1;
      var before := RelayRun(events[..n]);
      assert events == events[..n] + [events[n]];
      PayloadSnoc(events[..n], events[n]);
      assert End in events <==> End in events[..n] || events[n] == End;
      RelayStep(before, events[n])
  }

  /** One write: the destination path opened, and what the relay did. */
  datatype WriteRun = WriteRun(destPath: string, relay: Relay)

  /** The write operation: opens `path + filename` and relays the source. */
  function FsWrite(root: string, filename: string, events: seq<Event>): (w: WriteRun)
    ensures w.destPath == FsPath(root, filename)
    ensures w.relay.content == Payload(events)
    ensures w.relay.ended <==> End in events
  {
    WriteRun(FsPath(root, filename), RelayRun(events))
  }

  /** A source that delivers some chunks and then `end`: the destination
      holds the chunks and is ended, and then the callback is called once,
      with no error. */
  lemma FsWriteAtEnd(root: string, filename: string, chunks: seq<Event>)
    requires Streaming(chunks)
    ensures FsWrite(root, filename, chunks + [End]).relay
              == Relay(Payload(chunks), true, [Notice(None, true)])
  {
    var events := chunks + [End];
    assert events[..|events| - 1] == chunks;
    PayloadSnoc(chunks, End);
  }

  /** A source that fails after some chunks: the callback is called once,
      with that error, and the destination is left un-ended holding the
      chunks received so far (a partial file). */
  lemma FsWriteOnSourceError(root: string, filename: string, chunks: seq<Event>, err: Object)
    requires Streaming(chunks)
    ensures FsWrite(root, filename, chunks + [Error(err)]).relay
              == Relay(Payload(chunks), false, [Notice(Some(err), false)])
  {
    var events := chunks + [Error(err)];
    assert events[..|events| - 1] == chunks;
    assert End !in chunks by {
      forall i | 0 <= i < |chunks| ensures chunks[i] != End {
        assert chunks[i].Data?;
      }
    }
    PayloadSnoc(chunks, Error(err));
  }

  // ------------------------------------------------------------- the disk

  /** A file on the volume, as distinct from the paths that name it. */
  type FileId = nat

  /** Path resolution: the file a path names once the operating system has
      applied `.` and `..`, symbolic and hard links, and the volume's case
      rules. Many paths can name one file (`/r/x` and `/r/./x`); the rules
      belong to the operating system, so the resolution is a parameter. */
  type Names = string -> FileId

  /** File contents by file, as far as these operations touch them. */
  type Disk = map<FileId, seq<byte>>

  /** How the destination stream fared: it opened, accepted every write and
      flushed; or it emitted `'error'` (the open or a write failed). */
  datatype Destination = Flushed | Failed(err: Object)

  /** The effect of a write on the disk: the new disk, or the exception
      thrown because the destination has no `'error'` listener. */
  datatype Landing = Landed(disk: Disk) | Threw(exception: Object)

  /** A write whose destination flushed replaces the file its path names
      (the destination is opened for truncation) with what was relayed, so
      every path naming that file now reads the new content, and every other
      file is untouched. A destination error is unhandled, so it is thrown. */
  function Commit(disk: Disk, names: Names, w: WriteRun, dest: Destination): (r: Landing)
    ensures r.Landed? <==> dest.Flushed?
    ensures r.Threw? ==> r.exception == dest.err
    ensures r.Landed? ==> forall p :: names(p) == names(w.destPath) ==>
              names(p) in r.disk && r.disk[names(p)] == w.relay.content
    ensures r.Landed? ==> forall f :: f != names(w.destPath) ==> (f in r.disk <==> f in disk)
    ensures r.Landed? ==> forall f :: f != names(w.destPath) && f in disk ==> r.disk[f] == disk[f]
  {
    match dest
    case Flushed => Landed(disk[names(w.destPath) := w.relay.content])
    case Failed(err) => Threw(err)
  }

  /** Writing `B` to a filename and reading it back, once the destination
      has flushed, yields exactly `B`; a failing destination throws instead. */
  lemma WriteThenRead(disk: Disk, names: Names, root: string, filename: string, events: seq<Event>,
                      dest: Destination)
    ensures dest.Flushed? ==>
              var r := Commit(disk, names, FsWrite(root, filename, events), dest);
              r.Landed? && names(ReadPath(root, filename)) in r.disk
              && r.disk[names(ReadPath(root, filename))] == Payload(events)
    ensures dest.Failed? ==> Commit(disk, names, FsWrite(root, filename, events), dest) == Threw(dest.err)
  {
  }

  /** Two flushed writes to distinct files land the same disk in either order. */
  lemma CommitsCommute(disk: Disk, names: Names, w1: WriteRun, w2: WriteRun)
    requires names(w1.destPath) != names(w2.destPath)
    ensures Commit(Commit(disk, names, w1, Flushed).disk, names, w2, Flushed)
         == Commit(Commit(disk, names, w2, Flushed).disk, names, w1, Flushed)
  {
    var f1, f2 := names(w1.destPath), names(w2.destPath);
    var d12 := disk[f1 := w1.relay.content][f2 := w2.relay.content];
    var d21 := disk[f2 := w2.relay.content][f1 := w1.relay.content];
    assert d12 == d21;
  }

  /** Flushed writes to filenames that name distinct files do not interfere:
      both contents read back intact, in either order of completion. Under
      one root, that needs distinct filenames, but distinct filenames are
      not enough: `x` and `./x` name one file. */
  lemma DistinctWritesDoNotInterfere(disk: Disk, names: Names, root: string, f1: string, f2: string,
                                     a: seq<Event>, b: seq<Event>)
    requires names(FsPath(root, f1)) != names(FsPath(root, f2))
    ensures f1 != f2
    ensures var d := Commit(Commit(disk, names, FsWrite(root, f1, a), Flushed).disk, names, FsWrite(root, f2, b), Flushed).disk;
            && names(ReadPath(root, f1)) in d && d[names(ReadPath(root, f1))] == Payload(a)
            && names(ReadPath(root, f2)) in d && d[names(ReadPath(root, f2))] == Payload(b)
    ensures Commit(Commit(disk, names, FsWrite(root, f1, a), Flushed).disk, names, FsWrite(root, f2, b), Flushed)
         == Commit(Commit(disk, names, FsWrite(root, f2, b), Flushed).disk, names, FsWrite(root, f1, a), Flushed)
  {
    var w1, w2 := FsWrite(root, f1, a), FsWrite(root, f2, b);
    CommitsCommute(disk, names, w1, w2);
  }

  /** Flushed writes to two filenames that name one file: the second
      replaces the first, so both filenames read back the second content. */
  lemma AliasedWritesLastWins(disk: Disk, names: Names, root: string, f1: string, f2: string,
                              a: seq<Event>, b: seq<Event>)
    requires names(FsPath(root, f1)) == names(FsPath(root, f2))
    ensures var d := Commit(Commit(disk, names, FsWrite(root, f1, a), Flushed).disk, names, FsWrite(root, f2, b), Flushed).disk;
            && names(ReadPath(root, f1)) in d && d[names(ReadPath(root, f1))] == Payload(b)
            && names(ReadPath(root, f2)) in d && d[names(ReadPath(root, f2))] == Payload(b)
  {
  }
}
