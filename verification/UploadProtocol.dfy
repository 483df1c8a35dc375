/**
 The chunked upload as the server sees it: a stream of messages, consumed one at
 a time, that either stores files or is refused. Disk operations can fail;
 `faults(k)` says whether the k-th one of this upload does.
 */
module UploadProtocol {
  import opened Wrappers

  const U32_MAX := 0xFFFF_FFFF

  type U64 = n: nat | n <= U64_MAX
  type U32 = n: nat | n <= U32_MAX

  type Bytes = seq<bv8>
  type Path = string
  type Names = nat -> Path
  type Faults = nat -> bool

  const SINGLE := 0
  const MULTIPLE := 1
  const DEFAULT_MIME := "application/octet-stream"

  datatype Payload =
    | Metadata(channelId: int, fileCount: U32, mode: int)
    | FileMetadata(fileName: string, fileSize: U64, contentType: string)
    | Chunk(data: Bytes)

  /** What the stream yields: a message, whose payload may be unset, or a transport error. */
  datatype Item = Request(payload: Option<Payload>) | Broken

  datatype Status =
    | MetadataRequired | MetadataNotFirst | NoFiles | InvalidMode | MetadataTwice | FileIncomplete | TooManyFiles
    | EmptyFile | DiskError | ChunkBeforeFile | ChunkTooLarge | SizeOverflow | SizeExceeded | PayloadRequired
    | LastFileIncomplete | CountMismatch | StreamBroken

  datatype MediaFile = MediaFile(path: Path, mime: string, name: Option<string>)
  datatype StoredMedia = StoredMedia(channelId: int, files: seq<MediaFile>, multiple: bool)

  function PathsOf(stored: seq<MediaFile>): set<Path> {
    set k | 0 <= k < |stored| :: stored[k].path
  }

  /** Characters with the Unicode property White_Space. */
  predicate IsWhitespace(c: char) {
    var n := c as int;
    9 <= n <= 13 || n == 0x20 || n == 0x85 || n == 0xA0 || n == 0x1680 || 0x2000 <= n <= 0x200A
    || n == 0x2028 || n == 0x2029 || n == 0x202F || n == 0x205F || n == 0x3000
  }

  /** `trim().is_empty()`. */
  predicate IsBlank(s: string) {
    forall c :: c in s ==> IsWhitespace(c)
  }

  function Describe(path: Path, fileName: string, contentType: string): MediaFile {
    MediaFile(path, if IsBlank(contentType) then DEFAULT_MIME else contentType,
              if fileName == "" then None else Some(fileName))
  }

  /** The file being received. */
  datatype Current = Current(expectedSize: U64, receivedSize: U64)

  /**
   The upload after its metadata: the file being received, which is the last one
   stored, and for every stored file the bytes written to it. `operations` counts
   the disk operations so far.
   */
  datatype Receiver = Receiver(
    channelId: int, expectedCount: nat, mode: int,
    current: Option<Current>, stored: seq<MediaFile>, contents: seq<Bytes>, operations: nat)

  /** The last file's bytes extended. */
  function Extend(contents: seq<Bytes>, data: Bytes): seq<Bytes> {
    if contents == [] then [] else contents[..|contents| - 1] + [contents[|contents| - 1] + data]
  }

  /** The first message. */
  function Begin(items: seq<Item>): Result<Receiver, Status> {
    if items == [] then Err(MetadataRequired)
    else
      match items[0]
      case Broken => Err(StreamBroken)
      case Request(Some(Metadata(channelId, fileCount, mode))) =>
        if fileCount == 0 then Err(NoFiles)
        else if mode != SINGLE && mode != MULTIPLE then Err(InvalidMode)
        else Ok(Receiver(channelId, fileCount, mode, None, [], [], 0))
      case Request(_) => Err(MetadataNotFirst)
  }

  /** A file announced. */
  function TakeFile(s: Receiver, fileName: string, fileSize: U64, contentType: string, path: Path,
                    fails: bool): Result<Receiver, Status> {
    if s.current.Some? then Err(FileIncomplete)
    else if |s.stored| >= s.expectedCount then Err(TooManyFiles)
    else if fileSize == 0 then Err(EmptyFile)
    else if fails then Err(DiskError)
    else Ok(s.(current := Some(Current(fileSize, 0)),
               stored := s.stored + [Describe(path, fileName, contentType)],
               contents := s.contents + [[]],
               operations := s.operations + 1))
  }

  /** A chunk of the current file; sizes are 64-bit and their addition is checked. */
  function TakeChunk(s: Receiver, data: Bytes, fails: bool): Result<Receiver, Status> {
    match s.current
    case None => Err(ChunkBeforeFile)
    case Some(file) =>
      if |data| > U64_MAX then Err(ChunkTooLarge)
      else if file.receivedSize + |data| > U64_MAX then Err(SizeOverflow)
      else
        var received: U64 := file.receivedSize + |data|;
        if received > file.expectedSize then Err(SizeExceeded)
        else if fails then Err(DiskError)
        else Ok(s.(current := if received == file.expectedSize then None
                              else Some(Current(file.expectedSize, received)),
                   contents := Extend(s.contents, data),
                   operations := s.operations + 1))
  }

  /** Any later message. */
  function Take(s: Receiver, item: Item, path: Path, fails: bool): Result<Receiver, Status> {
    match item
    case Broken => Err(StreamBroken)
    case Request(None) => Err(PayloadRequired)
    case Request(Some(Metadata(_, _, _))) => Err(MetadataTwice)
    case Request(Some(FileMetadata(fileName, fileSize, contentType))) =>
      TakeFile(s, fileName, fileSize, contentType, path, fails)
    case Request(Some(Chunk(data))) => TakeChunk(s, data, fails)
  }

  function TakeAll(s: Receiver, items: seq<Item>, names: Names, faults: Faults): Result<Receiver, Status>
    decreases items
  {
    if items == [] then Ok(s)
    else
      match Take(s, items[0], names(|s.stored|), faults(s.operations))
      case Err(status) => Err(status)
      case Ok(next) => TakeAll(next, items[1..], names, faults)
  }

  /** The end of the stream. */
  function Finish(s: Receiver): Result<Receiver, Status> {
    if s.current.Some? then Err(LastFileIncomplete)
    else if |s.stored| != s.expectedCount then Err(CountMismatch)
    else Ok(s)
  }

  /** The whole upload. */
  function Receive(items: seq<Item>, names: Names, faults: Faults): Result<Receiver, Status> {
    match Begin(items)
    case Err(status) => Err(status)
    case Ok(first) =>
      match TakeAll(first, items[1..], names, faults)
      case Err(status) => Err(status)
      case Ok(last) => Finish(last)
  }

  function Media(s: Receiver): StoredMedia {
    StoredMedia(s.channelId, s.stored, s.mode == MULTIPLE)
  }

  lemma {:induction false} TakeAllConcat(s: Receiver, a: seq<Item>, b: seq<Item>, names: Names, faults: Faults)
    ensures TakeAll(s, a, names, faults).Ok? ==>
              TakeAll(s, a + b, names, faults) == TakeAll(TakeAll(s, a, names, faults).value, b, names, faults)
    decreases a
  {
    if a == [] {
      assert a + b == b;
    } else {
      assert (a + b)[1..] == a[1..] + b;
      var next := Take(s, a[0], names(|s.stored|), faults(s.operations));
      if next.Ok? { TakeAllConcat(next.value, a[1..], b, names, faults); }
    }
  }

  /** The two 64-bit tests on a chunk together are the mathematical one. */
  lemma {:induction false} ChunkTestIsExact(s: Receiver, data: Bytes)
    requires s.current.Some?
    ensures TakeChunk(s, data, false).Ok? <==> s.current.value.receivedSize + |data| <= s.current.value.expectedSize
  {
  }

  /** The characters that `trim` removes from an empty-looking type, by their code points. */
  predicate IsSpace(c: char) {
    c as int in {9, 10, 11, 12, 13, 0x20, 0x85, 0xA0, 0x1680, 0x2000, 0x2001, 0x2002, 0x2003, 0x2004, 0x2005, 0x2006,
                 0x2007, 0x2008, 0x2009, 0x200A, 0x2028, 0x2029, 0x202F, 0x205F, 0x3000}
  }

  /** What is recorded of a file: its path, its type or the default one for a blank, and its name if it has one. */
  lemma {:induction false} DescribeMeaning(path: Path, fileName: string, contentType: string)
    ensures var file := Describe(path, fileName, contentType);
      && file.path == path
      && (fileName == "" ==> file.name == None) && (fileName != "" ==> file.name == Some(fileName))
      && ((forall c :: c in contentType ==> IsSpace(c)) ==> file.mime == "application/octet-stream")
      && ((exists c :: c in contentType && !IsSpace(c)) ==> file.mime == contentType)
  {
    assert forall c :: IsSpace(c) <==> IsWhitespace(c);
  }

  /** When each refusal of a message is given. */
  lemma {:induction false} TakeRefuses(s: Receiver, item: Item, path: Path, fails: bool)
    ensures var r := Take(s, item, path, fails);
      && (r == Err(StreamBroken) <==> item == Broken)
      && (r == Err(PayloadRequired) <==> item == Request(None))
      && (r == Err(MetadataTwice) <==> item.Request? && item.payload.Some? && item.payload.value.Metadata?)
      && (item.Request? && item.payload.Some? && item.payload.value.FileMetadata? ==>
            FileRefused(s, item.payload.value.fileSize, fails, r))
      && (item.Request? && item.payload.Some? && item.payload.value.Chunk? ==>
            ChunkRefused(s, |item.payload.value.data|, fails, r))
  {
  }

  predicate FileRefused(s: Receiver, size: nat, fails: bool, r: Result<Receiver, Status>) {
    var full := |s.stored| >= s.expectedCount;
    && (r == Err(FileIncomplete) <==> s.current.Some?)
    && (r == Err(TooManyFiles) <==> s.current.None? && full)
    && (r == Err(EmptyFile) <==> s.current.None? && !full && size == 0)
    && (r == Err(DiskError) <==> s.current.None? && !full && size > 0 && fails)
    && (r.Ok? <==> s.current.None? && !full && size > 0 && !fails)
  }

  predicate ChunkRefused(s: Receiver, size: nat, fails: bool, r: Result<Receiver, Status>) {
    if s.current.None? then r == Err(ChunkBeforeFile)
    else
      var total := s.current.value.receivedSize + size;
      && (r == Err(ChunkTooLarge) <==> size > 0xFFFF_FFFF_FFFF_FFFF)
      && (r == Err(SizeOverflow) <==> size <= 0xFFFF_FFFF_FFFF_FFFF < total)
      && (r == Err(SizeExceeded) <==> s.current.value.expectedSize < total <= 0xFFFF_FFFF_FFFF_FFFF)
      && (r == Err(DiskError) <==> total <= s.current.value.expectedSize && fails)
      && (r.Ok? <==> total <= s.current.value.expectedSize && !fails)
  }

  /** When each refusal of the first message, and of the end, is given. */
  lemma {:induction false} EndsRefuse(items: seq<Item>, s: Receiver)
    ensures var b := Begin(items);
      && (b == Err(MetadataRequired) <==> items == [])
      && (b == Err(StreamBroken) <==> items != [] && items[0] == Broken)
      && (b == Err(MetadataNotFirst) <==>
            items != [] && items[0].Request? && (items[0].payload.Some? ==> !items[0].payload.value.Metadata?))
      && (items != [] && items[0].Request? && items[0].payload.Some? && items[0].payload.value.Metadata? ==>
            var m := items[0].payload.value;
            && (b == Err(NoFiles) <==> m.fileCount == 0)
            && (b == Err(InvalidMode) <==> m.fileCount > 0 && m.mode != 0 && m.mode != 1)
            && (b.Ok? <==> m.fileCount > 0 && (m.mode == 0 || m.mode == 1)))
    ensures var e := Finish(s);
      && (e == Err(LastFileIncomplete) <==> s.current.Some?)
      && (e == Err(CountMismatch) <==> s.current.None? && |s.stored| != s.expectedCount)
  {
  }

  /** A stream is refused by its first message, by a later one, or at its end; what comes after does not matter. */
  lemma {:induction false} RefusedAt(s: Receiver, items: seq<Item>, names: Names, faults: Faults) returns (k: nat)
    requires TakeAll(s, items, names, faults).Err?
    ensures k < |items| && TakeAll(s, items[..k], names, faults).Ok?
    ensures var before := TakeAll(s, items[..k], names, faults).value;
      TakeAll(s, items, names, faults)
        == Take(before, items[k], names(|before.stored|), faults(before.operations))
    decreases items
  {
    var next := Take(s, items[0], names(|s.stored|), faults(s.operations));
    k := 0;
    if next.Ok? {
      k := RefusedAt(next.value, items[1..], names, faults);
      assert items[..k + 1][1..] == items[1..][..k];
      k := k + 1;
    }
  }
}
