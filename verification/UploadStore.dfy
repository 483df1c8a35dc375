/**
 Storing uploads in a directory. A chunked upload that fails removes what it
 stored, including a file whose last write was cut short, so the directory is as
 it was; this rests on fresh names, on a failed creation leaving no file, and on
 removals that work.
 */
module UploadStore {
  import opened Wrappers
  import opened UploadProtocol

  type Files = map<Path, Bytes>

  /** The directory, as the disk operations leave it. */
  class Directory {
    var files: Files

    constructor (files: Files)
      ensures this.files == files
    {
      this.files := files;
    }

    method Create(path: Path, fails: bool) returns (ok: bool)
      modifies this
      ensures ok == !fails
      ensures files == if fails then old(files) else old(files)[path := []]
    {
      ok := !fails;
      if ok { files := files[path := []]; }
    }

    /** A write that fails may have written any part of the data. */
    method WriteAll(path: Path, data: Bytes, fails: bool) returns (ok: bool)
      requires path in files
      modifies this
      ensures ok == !fails
      ensures ok ==> files == old(files)[path := old(files)[path] + data]
      ensures path in files && old(files)[path] <= files[path] <= old(files)[path] + data
      ensures files.Keys == old(files).Keys && forall p :: p in files && p != path ==> files[p] == old(files)[p]
    {
      ok := !fails;
      var written := data;
      if fails {
        var cut: nat :| cut <= |data|;
        written := data[..cut];
      }
      files := files[path := files[path] + written];
    }

    /** `tokio::fs::write`: the file is created and then written. Either can fail; a failed write leaves the file. */
    method Write(path: Path, data: Bytes, createFails: bool, writeFails: bool) returns (ok: bool)
      requires path !in files
      modifies this
      ensures ok == (!createFails && !writeFails)
      ensures ok ==> files == old(files)[path := data]
      ensures createFails ==> files == old(files)
      ensures !createFails ==> Left(old(files), files, path)
    {
      var created := Create(path, createFails);
      if !created { return false; }
      ok := WriteAll(path, data, writeFails);
      assert [] + data == data;
    }

    method Remove(path: Path)
      modifies this
      ensures files == old(files) - {path}
    {
      files := files - {path};
    }
  }

  /** A file is left in the directory, which is otherwise as it was. */
  ghost predicate Left(base: Files, after: Files, path: Path) {
    path !in base && path in after && after - {path} == base
  }

  /** Names are never given twice and never name a file that is there. */
  ghost predicate Fresh(names: Names, files: Files) {
    && (forall i: nat, j: nat :: i < j ==> names(i) != names(j))
    && (forall i: nat :: names(i) !in files)
  }

  /** The directory is the original one and the first n named files, whatever is in them. */
  ghost predicate Added(base: Files, files: Files, names: Names, n: nat) {
    && (forall p :: p in base ==> p in files && files[p] == base[p])
    && (forall p :: p in files ==> p in base || exists k: nat :: k < n && names(k) == p)
    && (forall k: nat :: k < n ==> names(k) in files)
  }

  /** The named files hold the given contents. */
  ghost predicate Holding(files: Files, names: Names, contents: seq<Bytes>) {
    forall k: nat :: k < |contents| ==> names(k) in files && files[names(k)] == contents[k]
  }

  ghost predicate NamedInOrder(stored: seq<MediaFile>, names: Names) {
    forall k: nat :: k < |stored| ==> stored[k].path == names(k)
  }

  /** `remove_stored`: the listed files are gone, and nothing else changes. */
  method RemoveStored(directory: Directory, stored: seq<MediaFile>)
    modifies directory
    ensures directory.files == old(directory.files) - PathsOf(stored)
  {
    for i := 0 to |stored|
      invariant directory.files == old(directory.files) - PathsOf(stored[..i])
    {
      assert stored[..i + 1] == stored[..i] + [stored[i]];
      assert PathsOf(stored[..i + 1]) == PathsOf(stored[..i]) + {stored[i].path};
      directory.Remove(stored[i].path);
    }
    assert stored[..|stored|] == stored;
  }

  /** Removing all that was added gives the original directory back. */
  lemma {:induction false} RemovedAll(base: Files, files: Files, names: Names, stored: seq<MediaFile>)
    requires Fresh(names, base) && NamedInOrder(stored, names) && Added(base, files, names, |stored|)
    ensures files - PathsOf(stored) == base
  {
    forall p | p in files ensures p in base <==> p !in PathsOf(stored) {
      if p !in base {
        var k: nat :| k < |stored| && names(k) == p;
        assert stored[k].path == p;
      }
    }
  }

  /** The variables of the receiving loop agree with the protocol state. */
  ghost predicate Tracks(s: Receiver, current: Option<Current>, stored: seq<MediaFile>, operations: nat, files: Files,
                         base: Files, names: Names)
  {
    && s.current == current && s.stored == stored && s.operations == operations
    && |s.contents| == |stored| && (current.Some? ==> stored != [])
    && NamedInOrder(stored, names) && Added(base, files, names, |stored|) && Holding(files, names, s.contents)
  }

  lemma {:induction false} FileAdded(base: Files, files: Files, names: Names, stored: seq<MediaFile>, file: MediaFile,
                                     contents: seq<Bytes>, data: Bytes)
    requires Fresh(names, base) && NamedInOrder(stored, names)
    requires Added(base, files, names, |stored|) && Holding(files, names, contents)
    requires |contents| == |stored| && file.path == names(|stored|)
    ensures var more := files[file.path := data];
      && NamedInOrder(stored + [file], names) && Added(base, more, names, |stored| + 1)
      && Holding(more, names, contents + [data])
  {
  }

  lemma {:induction false} BytesAdded(base: Files, files: Files, after: Files, names: Names, contents: seq<Bytes>,
                                      data: Bytes)
    requires Fresh(names, base) && contents != []
    requires Added(base, files, names, |contents|) && Holding(files, names, contents)
    requires after == files[names(|contents| - 1) := files[names(|contents| - 1)] + data]
    ensures Added(base, after, names, |contents|) && Holding(after, names, Extend(contents, data))
  {
    var n := |contents| - 1;
    StillAdded(base, files, after, names, |contents|, names(n));
    forall k: nat | k < |contents| ensures names(k) in after && after[names(k)] == Extend(contents, data)[k] {
      assert k != n ==> names(k) != names(n);
    }
  }

  lemma {:induction false} StillAdded(base: Files, files: Files, after: Files, names: Names, n: nat, path: Path)
    requires Fresh(names, base) && Added(base, files, names, n) && n > 0 && path == names(n - 1)
    requires after.Keys == files.Keys && forall p :: p in after && p != path ==> after[p] == files[p]
    ensures Added(base, after, names, n)
  {
  }

  /** The loop's case for a file announcement. */
  method TakeFileMetadata(directory: Directory, ghost base: Files, ghost s: Receiver, current: Option<Current>,
                          stored: seq<MediaFile>,
                          operations: nat, expectedCount: nat, fileName: string, fileSize: U64, contentType: string,
                          names: Names, faults: Faults)
    returns (r: Result<MediaFile, Status>)
    requires Fresh(names, base) && Tracks(s, current, stored, operations, directory.files, base, names)
    requires expectedCount == s.expectedCount
    modifies directory
    ensures var taken := TakeFile(s, fileName, fileSize, contentType, names(|stored|), faults(operations));
      && (r.Err? ==> taken.Err? && taken.error == r.error && Added(base, directory.files, names, |stored|))
      && (r.Ok? ==> taken.Ok? && Tracks(taken.value, Some(Current(fileSize, 0)), stored + [r.value], operations + 1,
                                        directory.files, base, names))
  {
    if current.Some? { return Err(FileIncomplete); }
    if |stored| >= expectedCount { return Err(TooManyFiles); }
    if fileSize == 0 { return Err(EmptyFile); }
    var file := Describe(names(|stored|), fileName, contentType);
    ghost var before := directory.files;
    var ok := directory.Create(file.path, faults(operations));
    if !ok { return Err(DiskError); }
    FileAdded(base, before, names, stored, file, s.contents, []);
    r := Ok(file);
  }

  lemma {:induction false} ChunkTracked(base: Files, before: Files, after: Files, s: Receiver, next: Receiver,
                                        stored: seq<MediaFile>,
                                        operations: nat, data: Bytes, names: Names)
    requires Fresh(names, base) && Tracks(s, s.current, stored, operations, before, base, names) && s.current.Some?
    requires after == before[stored[|stored| - 1].path := before[stored[|stored| - 1].path] + data]
    requires TakeChunk(s, data, false) == Ok(next)
    ensures Tracks(next, next.current, stored, operations + 1, after, base, names)
  {
    assert stored[|stored| - 1].path == names(|s.contents| - 1);
    BytesAdded(base, before, after, names, s.contents, data);
  }

  lemma {:induction false} LastIsThere(base: Files, files: Files, names: Names, stored: seq<MediaFile>)
    requires NamedInOrder(stored, names) && Added(base, files, names, |stored|) && stored != []
    ensures stored[|stored| - 1].path == names(|stored| - 1) && names(|stored| - 1) in files
  {
  }

  /** A chunk that passes the size tests is written to the last file. */
  method WriteChunk(directory: Directory, ghost base: Files, ghost s: Receiver, ghost next: Receiver,
                    stored: seq<MediaFile>, ghost operations: nat, data: Bytes, ghost names: Names, fails: bool)
    returns (ok: bool)
    requires Fresh(names, base) && Tracks(s, s.current, stored, operations, directory.files, base, names)
    requires s.current.Some? && TakeChunk(s, data, false) == Ok(next)
    modifies directory
    ensures ok == !fails
    ensures if ok then Tracks(next, next.current, stored, operations + 1, directory.files, base, names)
            else Added(base, directory.files, names, |stored|)
  {
    var path := stored[|stored| - 1].path;
    LastIsThere(base, directory.files, names, stored);
    ghost var before := directory.files;
    ok := directory.WriteAll(path, data, fails);
    StillAdded(base, before, directory.files, names, |stored|, path);
    if ok { ChunkTracked(base, before, directory.files, s, next, stored, operations, data, names); }
  }

  /** The loop's case for a chunk. */
  method TakeChunkData(directory: Directory, ghost base: Files, ghost s: Receiver, current: Option<Current>,
                       stored: seq<MediaFile>,
                       operations: nat, data: Bytes, names: Names, faults: Faults)
    returns (r: Result<Option<Current>, Status>)
    requires Fresh(names, base) && Tracks(s, current, stored, operations, directory.files, base, names)
    modifies directory
    ensures var taken := TakeChunk(s, data, faults(operations));
      && (r.Err? ==> taken.Err? && taken.error == r.error && Added(base, directory.files, names, |stored|))
      && (r.Ok? ==> taken.Ok? && Tracks(taken.value, r.value, stored, operations + 1, directory.files, base, names))
  {
    if current.None? { return Err(ChunkBeforeFile); }
    var file := current.value;
    if |data| > U64_MAX { return Err(ChunkTooLarge); }
    if file.receivedSize + |data| > U64_MAX { return Err(SizeOverflow); }
    var receivedSize := file.receivedSize + |data|;
    if receivedSize > file.expectedSize { return Err(SizeExceeded); }
    ghost var next := TakeChunk(s, data, false).value;
    var ok := WriteChunk(directory, base, s, next, stored, operations, data, names, faults(operations));
    if !ok { return Err(DiskError); }
    r := Ok(if receivedSize == file.expectedSize then None else Some(Current(file.expectedSize, receivedSize)));
  }

  /** What the receiving loop has done when it stops. */
  ghost predicate LoopDone(first: Receiver, items: seq<Item>, names: Names, faults: Faults, base: Files, files: Files,
                           r: Result<Option<Current>, Status>, stored: seq<MediaFile>)
  {
    var all := TakeAll(first, items, names, faults);
    && NamedInOrder(stored, names) && Added(base, files, names, |stored|)
    && if r.Err? then all.Err? && all.error == r.error
       else all.Ok? && all.value.current == r.value && all.value.stored == stored
            && |all.value.contents| == |stored| && Holding(files, names, all.value.contents)
  }

  /** `store_chunks_inner`, after the metadata: the receiving loop. */
  method ReceiveFiles(directory: Directory, expectedCount: nat, ghost first: Receiver, items: seq<Item>, names: Names,
                      faults: Faults, ghost base: Files)
    returns (r: Result<Option<Current>, Status>, stored: seq<MediaFile>)
    requires Fresh(names, base) && directory.files == base
    requires first.current.None? && first.stored == [] && first.contents == [] && first.operations == 0
    requires expectedCount == first.expectedCount
    modifies directory
    ensures LoopDone(first, items, names, faults, base, directory.files, r, stored)
  {
    var current: Option<Current> := None;
    stored := [];
    var operations := 0;
    ghost var s := first;
    assert items[0..] == items;
    for i := 0 to |items|
      invariant Tracks(s, current, stored, operations, directory.files, base, names)
      invariant s.expectedCount == first.expectedCount
      invariant TakeAll(s, items[i..], names, faults) == TakeAll(first, items, names, faults)
    {
      assert items[i..][0] == items[i] && items[i..][1..] == items[i + 1..];
      match items[i]
      case Broken => return Err(StreamBroken), stored;
      case Request(None) => return Err(PayloadRequired), stored;
      case Request(Some(Metadata(_, _, _))) => return Err(MetadataTwice), stored;
      case Request(Some(FileMetadata(fileName, fileSize, contentType))) =>
        ghost var taken := TakeFile(s, fileName, fileSize, contentType, names(|stored|), faults(operations));
        var file := TakeFileMetadata(directory, base, s, current, stored, operations, expectedCount,
                                     fileName, fileSize, contentType, names, faults);
        if file.Err? { return Err(file.error), stored; }
        stored, current, operations := stored + [file.value], Some(Current(fileSize, 0)), operations + 1;
        s := taken.value;
      case Request(Some(Chunk(data))) =>
        ghost var taken := TakeChunk(s, data, faults(operations));
        var now := TakeChunkData(directory, base, s, current, stored, operations, data, names, faults);
        if now.Err? { return Err(now.error), stored; }
        current, operations := now.value, operations + 1;
        s := taken.value;
    }
    assert items[|items|..] == [];
    r := Ok(current);
  }

  /** `store_chunks_inner`. On an error, `stored` lists the files to remove. */
  method StoreChunksInner(directory: Directory, items: seq<Item>, names: Names, faults: Faults)
    returns (r: Result<StoredMedia, Status>, stored: seq<MediaFile>)
    requires Fresh(names, directory.files)
    modifies directory
    ensures NamedInOrder(stored, names) && Added(old(directory.files), directory.files, names, |stored|)
    ensures StoredAsReceived(Receive(items, names, faults), r, directory.files, names)
    ensures r.Ok? ==> stored == r.value.files
  {
    stored := [];
    ghost var base := directory.files;
    if items == [] { return Err(MetadataRequired), stored; }
    match items[0]
    case Broken => return Err(StreamBroken), stored;
    case Request(Some(Metadata(channelId, fileCount, mode))) =>
      if fileCount == 0 { return Err(NoFiles), stored; }
      if mode != SINGLE && mode != MULTIPLE { return Err(InvalidMode), stored; }
      ghost var first := Receiver(channelId, fileCount, mode, None, [], [], 0);
      assert Begin(items) == Ok(first);
      var current;
      current, stored := ReceiveFiles(directory, fileCount, first, items[1..], names, faults, base);
      TakeAllKeeps(first, items[1..], names, faults);
      if current.Err? { return Err(current.error), stored; }
      if current.value.Some? { return Err(LastFileIncomplete), stored; }
      if |stored| != fileCount { return Err(CountMismatch), stored; }
      r := Ok(StoredMedia(channelId, stored, mode == MULTIPLE));
    case Request(_) => return Err(MetadataNotFirst), stored;
  }

  /** The result is what the protocol says, and the files accepted hold the bytes received. */
  ghost predicate StoredAsReceived(all: Result<Receiver, Status>, r: Result<StoredMedia, Status>, files: Files,
                                   names: Names) {
    if r.Err? then all.Err? && all.error == r.error
    else all.Ok? && r.value == Media(all.value)
         && |all.value.contents| == |r.value.files| && Holding(files, names, all.value.contents)
  }

  /** The metadata stays what it was. */
  lemma {:induction false} TakeAllKeeps(s: Receiver, items: seq<Item>, names: Names, faults: Faults)
    ensures var all := TakeAll(s, items, names, faults);
      all.Ok? ==>
        all.value.channelId == s.channelId && all.value.expectedCount == s.expectedCount && all.value.mode == s.mode
    decreases items
  {
    if items != [] {
      var next := Take(s, items[0], names(|s.stored|), faults(s.operations));
      if next.Ok? { TakeAllKeeps(next.value, items[1..], names, faults); }
    }
  }

  /**
   `store_chunks`: all or nothing. An error leaves the directory as it was; success
   adds exactly the files of the upload, with the bytes received.
   */
  method StoreChunks(directory: Directory, items: seq<Item>, names: Names,
                     faults: Faults) returns (r: Result<StoredMedia, Status>)
    requires Fresh(names, directory.files)
    modifies directory
    ensures StoredAsReceived(Receive(items, names, faults), r, directory.files, names)
    ensures r.Err? ==> directory.files == old(directory.files)
    ensures r.Ok? ==> NamedInOrder(r.value.files, names)
                      && Added(old(directory.files), directory.files, names, |r.value.files|)
  {
    ghost var base := directory.files;
    var stored;
    r, stored := StoreChunksInner(directory, items, names, faults);
    if r.Err? {
      RemovedAll(base, directory.files, names, stored);
      RemoveStored(directory, stored);
    }
  }

  /** A file of a request that carries its data directly. */
  datatype Inline = Inline(data: Bytes, mime: string, name: Option<string>)

  function DescribeInline(path: Path, file: Inline): MediaFile {
    MediaFile(path, if IsBlank(file.mime) then DEFAULT_MIME else file.mime, file.name)
  }

  /** What is recorded of it: its path, its type or the default one for a blank, and its name as given. */
  lemma {:induction false} DescribeInlineMeaning(path: Path, file: Inline)
    ensures var stored := DescribeInline(path, file);
      && stored.path == path && stored.name == file.name
      && ((forall c :: c in file.mime ==> IsSpace(c)) ==> stored.mime == "application/octet-stream")
      && ((exists c :: c in file.mime && !IsSpace(c)) ==> stored.mime == file.mime)
  {
    assert forall c :: IsSpace(c) <==> IsWhitespace(c);
  }

  function InlineData(files: seq<Inline>): (data: seq<Bytes>)
    ensures |data| == |files| && forall k :: 0 <= k < |files| ==> data[k] == files[k].data
  {
    if files == [] then [] else InlineData(files[..|files| - 1]) + [files[|files| - 1].data]
  }

  /** The first n files are stored under the first n names, next to the original directory. */
  ghost predicate StoredInline(base: Files, after: Files, names: Names, files: seq<Inline>, stored: seq<MediaFile>) {
    && |stored| <= |files| && NamedInOrder(stored, names) && Added(base, after, names, |stored|)
    && Holding(after, names, InlineData(files[..|stored|]))
    && forall k: nat :: k < |stored| ==> stored[k] == DescribeInline(names(k), files[k])
  }

  lemma {:induction false} OneMoreInline(base: Files, before: Files, names: Names, files: seq<Inline>,
                                         stored: seq<MediaFile>)
    requires Fresh(names, base) && StoredInline(base, before, names, files, stored) && |stored| < |files|
    ensures var n := |stored|;
      StoredInline(base, before[names(n) := files[n].data], names, files, stored + [DescribeInline(names(n), files[n])])
  {
    var n := |stored|;
    FileAdded(base, before, names, stored, DescribeInline(names(n), files[n]), InlineData(files[..n]), files[n].data);
    assert files[..n + 1][..n] == files[..n];
    assert InlineData(files[..n + 1]) == InlineData(files[..n]) + [files[n].data];
  }

  /** Whether creating the k-th file fails, and whether writing it does. */
  datatype WriteFaults = WriteFaults(creates: Faults, writes: Faults)

  /** Files 0 to n can be stored. */
  ghost predicate Storable(files: seq<Inline>, faults: WriteFaults, n: nat) {
    n <= |files| && forall k: nat :: k < n ==> files[k].data != [] && !faults.creates(k) && !faults.writes(k)
  }

  /** File k is the first that is empty or meets with a fault. */
  ghost predicate StopsAt(files: seq<Inline>, faults: WriteFaults, k: nat) {
    k < |files| && Storable(files, faults, k) && (files[k].data == [] || faults.creates(k) || faults.writes(k))
  }

  /** The first thing to go wrong is the write of file k, which has been created. */
  ghost predicate CutShort(files: seq<Inline>, faults: WriteFaults, k: nat) {
    StopsAt(files, faults, k) && files[k].data != [] && !faults.creates(k)
  }

  function StopStatus(file: Inline): Status {
    if file.data == [] then EmptyFile else DiskError
  }

  /** The files before have been removed; the file whose own write failed has not. */
  ghost predicate StoppedAt(base: Files, after: Files, names: Names, files: seq<Inline>, faults: WriteFaults, k: nat) {
    StopsAt(files, faults, k)
    && if CutShort(files, faults, k) then Left(base, after, names(k)) else after == base
  }

  /** A refused request is undone exactly if what went wrong first is not the write of a file that was created. */
  lemma {:induction false} UndoneUnlessCutShort(base: Files, after: Files, names: Names, files: seq<Inline>,
                                                faults: WriteFaults, k: nat)
    requires Fresh(names, base) && StoppedAt(base, after, names, files, faults, k)
    ensures !Storable(files, faults, |files|)
    ensures after == base <==> forall j :: !CutShort(files, faults, j)
  {
    forall j | CutShort(files, faults, j) ensures j == k {}
  }

  /** And that does happen: one file that is not empty, and a disk that is full once it has been created. */
  lemma {:induction false} CutShortHappens(file: Inline)
    requires file.data != []
    ensures CutShort([file], WriteFaults(k => false, k => true), 0)
  {
  }

  lemma {:induction false} LeftoverStays(base: Files, before: Files, after: Files, names: Names,
                                         stored: seq<MediaFile>)
    requires Fresh(names, base) && NamedInOrder(stored, names) && Added(base, before, names, |stored|)
    requires Left(before, after, names(|stored|))
    ensures Left(base, after - PathsOf(stored), names(|stored|))
  {
    var path := names(|stored|);
    RemovedAll(base, before, names, stored);
    assert path !in PathsOf(stored);
    assert (after - PathsOf(stored)) - {path} == before - PathsOf(stored);
  }

  lemma {:induction false} NextNameIsFree(base: Files, files: Files, names: Names, stored: seq<MediaFile>)
    requires Fresh(names, base) && NamedInOrder(stored, names) && Added(base, files, names, |stored|)
    ensures names(|stored|) !in files
  {
  }

  /** Removing the files stored before the one at which the request stops. */
  lemma {:induction false} UndoneAt(base: Files, before: Files, after: Files, names: Names, files: seq<Inline>,
                                    stored: seq<MediaFile>, faults: WriteFaults)
    requires Fresh(names, base) && StoredInline(base, before, names, files, stored)
    requires StopsAt(files, faults, |stored|)
    requires if CutShort(files, faults, |stored|) then Left(before, after, names(|stored|)) else after == before
    ensures StoppedAt(base, after - PathsOf(stored), names, files, faults, |stored|)
  {
    if CutShort(files, faults, |stored|) {
      LeftoverStays(base, before, after, names, stored);
    } else {
      RemovedAll(base, before, names, stored);
    }
  }

  /** One file is written, or the files before are removed. */
  method WriteInline(directory: Directory, ghost base: Files, files: seq<Inline>, stored: seq<MediaFile>, names: Names,
                     faults: WriteFaults)
    returns (ok: bool)
    requires Fresh(names, base) && StoredInline(base, directory.files, names, files, stored) && |stored| < |files|
    requires Storable(files, faults, |stored|) && files[|stored|].data != []
    modifies directory
    ensures var n := |stored|;
      if ok then
        !faults.creates(n) && !faults.writes(n)
        && StoredInline(base, directory.files, names, files, stored + [DescribeInline(names(n), files[n])])
      else StoppedAt(base, directory.files, names, files, faults, n)
  {
    var n := |stored|;
    ghost var before := directory.files;
    NextNameIsFree(base, before, names, stored);
    ok := directory.Write(names(n), files[n].data, faults.creates(n), faults.writes(n));
    if ok {
      OneMoreInline(base, before, names, files, stored);
    } else {
      UndoneAt(base, before, directory.files, names, files, stored, faults);
      RemoveStored(directory, stored);
    }
  }

  /** The body of the loop. */
  method StoreInline(directory: Directory, ghost base: Files, files: seq<Inline>, stored: seq<MediaFile>, names: Names,
                     faults: WriteFaults)
    returns (status: Option<Status>)
    requires Fresh(names, base) && StoredInline(base, directory.files, names, files, stored) && |stored| < |files|
    requires Storable(files, faults, |stored|)
    modifies directory
    ensures var n := |stored|;
      if status.Some? then
        status.value == StopStatus(files[n]) && StoppedAt(base, directory.files, names, files, faults, n)
      else
        Storable(files, faults, n + 1)
        && StoredInline(base, directory.files, names, files, stored + [DescribeInline(names(n), files[n])])
  {
    if files[|stored|].data == [] {
      UndoneAt(base, directory.files, directory.files, names, files, stored, faults);
      RemoveStored(directory, stored);
      return Some(EmptyFile);
    }
    var ok := WriteInline(directory, base, files, stored, names, faults);
    status := if ok then None else Some(DiskError);
  }

  /**
   `store`, which does not stream. It succeeds exactly if there are files, none is
   empty and every operation works. Otherwise the directory is as it was, exactly
   unless the first thing to go wrong is the write of a file that was created.
   */
  method Store(directory: Directory, files: seq<Inline>, names: Names,
               faults: WriteFaults) returns (r: Result<seq<MediaFile>, Status>)
    requires Fresh(names, directory.files)
    modifies directory
    ensures r.Ok? <==> files != [] && Storable(files, faults, |files|)
    ensures r.Ok? ==> |r.value| == |files| && StoredInline(old(directory.files), directory.files, names, files, r.value)
    ensures r.Err? && files == [] ==> r.error == NoFiles
    ensures r.Err? && files != [] ==>
              exists k: nat :: StoppedAt(old(directory.files), directory.files, names, files, faults, k)
                               && r.error == StopStatus(files[k])
    ensures r.Err? ==> (directory.files == old(directory.files) <==> forall k :: !CutShort(files, faults, k))
  {
    if files == [] { return Err(NoFiles); }
    ghost var base := directory.files;
    var stored: seq<MediaFile> := [];
    for i := 0 to |files|
      invariant |stored| == i && Storable(files, faults, i) && StoredInline(base, directory.files, names, files, stored)
    {
      var status := StoreInline(directory, base, files, stored, names, faults);
      if status.Some? {
        UndoneUnlessCutShort(base, directory.files, names, files, faults, i);
        return Err(status.value);
      }
      stored := stored + [DescribeInline(names(i), files[i])];
    }
    r := Ok(stored);
  }
}
