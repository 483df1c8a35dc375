/** The client's half of the upload: the stream that `reply_media` generates, and the round trip through the server. */
module UploadSender {
  import opened Wrappers
  import opened UploadProtocol
  import opened UploadGrammar
  import UploadStore

  const MEDIA_CHUNK_SIZE := 1024 * 1024

  /** A file to send, with its size and count within the width of their protocol fields. */
  datatype Source = Source(data: Bytes, name: Option<string>, mime: Option<string>)

  predicate Sendable(files: seq<Source>) {
    |files| <= U32_MAX && forall i :: 0 <= i < |files| ==> |files[i].data| <= U64_MAX
  }

  predicate NoneEmpty(files: seq<Source>) {
    forall i :: 0 <= i < |files| ==> files[i].data != []
  }

  /** `value or ""`. */
  function OrEmpty(value: Option<string>): string {
    if value.Some? then value.value else ""
  }

  /** The modes a caller can ask for. */
  datatype MediaMode = Single | Multiple

  /** The mode asked for, or multiple for more than one file. */
  function SelectMode(mode: Option<MediaMode>, count: nat): (selected: int)
    ensures selected == SINGLE || selected == MULTIPLE
    ensures selected == MULTIPLE <==> mode == Some(Multiple) || (mode == None && count >= 2)
  {
    var selected := if mode.Some? then mode.value else if count > 1 then Multiple else Single;
    if selected.Multiple? then MULTIPLE else SINGLE
  }

  /** Consecutive pieces of the given size, the last one shorter. */
  function Split(data: Bytes, size: nat): seq<Bytes>
    requires size > 0
    decreases |data|
  {
    if data == [] then []
    else if |data| <= size then [data]
    else [data[..size]] + Split(data[size..], size)
  }

  lemma {:induction false} SplitJoins(data: Bytes, size: nat)
    requires size > 0
    ensures Join(Split(data, size)) == data
    ensures data != [] ==> Completing(Split(data, size))
    ensures forall chunk :: chunk in Split(data, size) ==> 0 < |chunk| <= size
    decreases |data|
  {
    if data != [] {
      if |data| <= size {
        JoinOne([data]);
      } else {
        SplitJoins(data[size..], size);
        var chunks := Split(data, size);
        assert chunks[1..] == Split(data[size..], size);
        assert data[..size] + data[size..] == data;
      }
    }
  }

  /** The least of two positions. */
  function Least(a: nat, b: nat): nat {
    if a <= b then a else b
  }

  /** The j-th slice is the j-th stretch of the given size, cut at the end of the data. */
  lemma {:induction false} SliceAt(data: Bytes, size: nat, j: nat)
    requires size > 0 && j < |Split(data, size)|
    ensures size * j < |data| && Split(data, size)[j] == data[size * j..Least(size * (j + 1), |data|)]
    decreases j
  {
    if j > 0 {
      var rest := data[size..];
      SliceAt(rest, size, j - 1);
      assert size * (j - 1) + size == size * j && size * j + size == size * (j + 1);
    }
  }

  /** What the client sends: the metadata, and then for every file its sizes and names and its slices of 1 MiB. */
  lemma {:induction false} SentMeaning(channelId: int, mode: int, files: seq<Source>)
    requires Sendable(files) && NoneEmpty(files) && files != [] && (mode == SINGLE || mode == MULTIPLE)
    ensures var groups := SentGroups(files);
      && WellFormed(Upload(channelId, mode, groups))
      && Sent(channelId, mode, files) == UploadItems(Upload(channelId, mode, groups))
      && forall i, j: nat :: 0 <= i < |files| && j < |groups[i].chunks| ==>
           0x10_0000 * j < |files[i].data|
           && groups[i].chunks[j] == files[i].data[0x10_0000 * j..Least(0x10_0000 * (j + 1), |files[i].data|)]
  {
    SentIsUpload(files);
    forall i, j: nat | 0 <= i < |files| && j < |SentGroups(files)[i].chunks|
      ensures 0x10_0000 * j < |files[i].data|
      ensures SentGroups(files)[i].chunks[j]
           == files[i].data[0x10_0000 * j..Least(0x10_0000 * (j + 1), |files[i].data|)]
    {
      SliceAt(files[i].data, 0x10_0000, j);
    }
  }

  function SentGroup(file: Source): Group {
    Group(OrEmpty(file.name), OrEmpty(file.mime), Split(file.data, MEDIA_CHUNK_SIZE))
  }

  function Announcement(file: Source): Item
    requires |file.data| <= U64_MAX
  {
    Request(Some(FileMetadata(OrEmpty(file.name), |file.data|, OrEmpty(file.mime))))
  }

  function SentFiles(files: seq<Source>): seq<Item>
    requires Sendable(files)
  {
    if files == [] then []
    else
      [Announcement(files[0])] + (ChunkItems(Split(files[0].data, MEDIA_CHUNK_SIZE)) + SentFiles(files[1..]))
  }

  function Sent(channelId: int, mode: int, files: seq<Source>): seq<Item>
    requires Sendable(files)
  {
    [Request(Some(Metadata(channelId, |files|, mode)))] + SentFiles(files)
  }

  /** The generator: metadata, then every file's announcement and its slices. */
  method Requests(channelId: int, mode: int, files: seq<Source>) returns (items: seq<Item>)
    requires Sendable(files)
    ensures items == Sent(channelId, mode, files)
  {
    items := [Request(Some(Metadata(channelId, |files|, mode)))];
    ghost var all := Sent(channelId, mode, files);
    assert files[0..] == files;
    for i := 0 to |files|
      invariant items + SentFiles(files[i..]) == all
    {
      ghost var before, rest := items, SentFiles(files[i + 1..]);
      assert files[i..][0] == files[i] && files[i..][1..] == files[i + 1..];
      ghost var chunks := ChunkItems(Split(files[i].data, MEDIA_CHUNK_SIZE));
      items := items + [Announcement(files[i])];
      items := SendSlices(items, files[i].data);
      Regroup(before, [Announcement(files[i])], chunks, rest);
    }
    assert files[|files|..] == [] && items + [] == items;
  }

  lemma {:induction false} Regroup<T>(a: seq<T>, b: seq<T>, c: seq<T>, d: seq<T>)
    ensures a + (b + (c + d)) == ((a + b) + c) + d
  {
  }

  /** The inner loop: the slices of one file. */
  method SendSlices(before: seq<Item>, data: Bytes) returns (items: seq<Item>)
    ensures items == before + ChunkItems(Split(data, MEDIA_CHUNK_SIZE))
  {
    items := before;
    var offset := 0;
    assert data[0..] == data;
    while offset < |data|
      invariant 0 <= offset <= |data|
      invariant items + ChunkItems(Split(data[offset..], MEDIA_CHUNK_SIZE))
             == before + ChunkItems(Split(data, MEDIA_CHUNK_SIZE))
    {
      var end := if offset + MEDIA_CHUNK_SIZE <= |data| then offset + MEDIA_CHUNK_SIZE else |data|;
      SplitOnce(data, offset, end, MEDIA_CHUNK_SIZE);
      var item := Request(Some(Chunk(data[offset..end])));
      Regroup(items, [item], ChunkItems(Split(data[end..], MEDIA_CHUNK_SIZE)), []);
      items := items + [item];
      offset := end;
    }
    assert data[|data|..] == [] && items + [] == items;
  }

  lemma {:induction false} SplitOnce(data: Bytes, offset: nat, end: nat, size: nat)
    requires size > 0 && offset < |data| && end == if offset + size <= |data| then offset + size else |data|
    ensures ChunkItems(Split(data[offset..], size))
         == [Request(Some(Chunk(data[offset..end])))] + ChunkItems(Split(data[end..], size))
  {
    var rest := data[offset..];
    if |rest| <= size {
      assert data[offset..end] == rest && Split(data[end..], size) == [];
      var one: seq<Bytes> := [rest];
      assert one[1..] == [];
    } else {
      assert rest[..size] == data[offset..end] && rest[size..] == data[end..];
      var chunks := Split(rest, size);
      assert chunks[1..] == Split(data[end..], size);
    }
  }

  function SentGroups(files: seq<Source>): (groups: seq<Group>)
    ensures |groups| == |files| && forall i :: 0 <= i < |files| ==> groups[i] == SentGroup(files[i])
  {
    if files == [] then [] else [SentGroup(files[0])] + SentGroups(files[1..])
  }

  lemma {:induction false} SentIsUpload(files: seq<Source>)
    requires Sendable(files) && NoneEmpty(files)
    ensures AllComplete(SentGroups(files)) && SentFiles(files) == GroupItems(SentGroups(files))
    decreases files
  {
    SentComplete(files);
    if files != [] {
      SplitJoins(files[0].data, MEDIA_CHUNK_SIZE);
      SentIsUpload(files[1..]);
      assert SentGroups(files)[1..] == SentGroups(files[1..]);
      assert FileItem(SentGroup(files[0])) == Announcement(files[0]);
    }
  }

  lemma {:induction false} SentComplete(files: seq<Source>)
    requires Sendable(files) && NoneEmpty(files)
    ensures AllComplete(SentGroups(files))
  {
    forall i | 0 <= i < |files| ensures Complete(SentGroups(files)[i]) {
      SplitJoins(files[i].data, MEDIA_CHUNK_SIZE);
    }
  }

  predicate AnnouncesEmpty(item: Item) {
    item.Request? && item.payload.Some? && item.payload.value.FileMetadata? && item.payload.value.fileSize == 0
  }

  /** No file announced in accepted groups is empty. */
  lemma {:induction false} NoEmptyAnnouncement(groups: seq<Group>, i: nat)
    requires AllComplete(groups) && i < |GroupItems(groups)|
    ensures !AnnouncesEmpty(GroupItems(groups)[i])
    decreases groups
  {
    var g, rest := groups[0], groups[1..];
    CompletingNotEmpty(g.chunks);
    if i > |g.chunks| {
      NoEmptyAnnouncement(rest, i - 1 - |g.chunks|);
    } else if i > 0 {
      ChunkItemsAreChunks(g.chunks, i - 1);
    }
  }

  lemma {:induction false} ChunkItemsAreChunks(chunks: seq<Bytes>, i: nat)
    requires i < |chunks|
    ensures ChunkItems(chunks)[i] == Request(Some(Chunk(chunks[i])))
  {
    if i > 0 { ChunkItemsAreChunks(chunks[1..], i - 1); }
  }

  lemma {:induction false} EmptyIsAnnounced(files: seq<Source>, k: nat) returns (i: nat)
    requires Sendable(files) && k < |files| && files[k].data == []
    ensures i < |SentFiles(files)| && SentFiles(files)[i] == Announcement(files[k])
    decreases files
  {
    if k == 0 {
      i := 0;
    } else {
      i := EmptyIsAnnounced(files[1..], k - 1);
      i := i + 1 + |Split(files[0].data, MEDIA_CHUNK_SIZE)|;
    }
  }

  /** What the server holds for files that were sent. */
  ghost predicate ReceivedAsSent(files: seq<Source>, s: Receiver, names: Names) {
    && |s.stored| == |s.contents| == |files|
    && forall i :: 0 <= i < |files| ==>
         && s.contents[i] == files[i].data
         && s.stored[i] == Describe(names(i), OrEmpty(files[i].name), OrEmpty(files[i].mime))
  }

  lemma {:induction false} EmptyFileRefused(channelId: int, mode: int, files: seq<Source>, k: nat, names: Names,
                                            faults: Faults)
    requires Sendable(files) && k < |files| && files[k].data == []
    ensures Receive(Sent(channelId, mode, files), names, faults).Err?
  {
    var items := Sent(channelId, mode, files);
    var i := EmptyIsAnnounced(files, k);
    assert items[1..] == SentFiles(files);
    if Receive(items, names, faults).Ok? {
      var u := AcceptedUpload(items, names, faults);
      assert UploadItems(u)[1..] == GroupItems(u.groups);
      NoEmptyAnnouncement(u.groups, i);
    }
  }

  lemma {:induction false} OutcomeAsSent(channelId: int, mode: int, files: seq<Source>, names: Names)
    requires Sendable(files) && NoneEmpty(files)
    ensures ReceivedAsSent(files, Outcome(Upload(channelId, mode, SentGroups(files)), names), names)
  {
    forall i: nat | i < |files|
      ensures ContentsOf(SentGroups(files))[i] == files[i].data
      ensures StoredFor(SentGroups(files), 0, names)[i]
           == Describe(names(i), OrEmpty(files[i].name), OrEmpty(files[i].mime))
    {
      StoredAt(SentGroups(files), 0, names, i);
      SplitJoins(files[i].data, MEDIA_CHUNK_SIZE);
    }
  }

  /**
   The round trip: what the client sends is accepted exactly if there is a file, no
   file is empty and no disk operation for them fails, and then the server holds the
   files byte for byte, in order.
   */
  lemma {:induction false} RoundTrip(channelId: int, mode: int, files: seq<Source>, names: Names, faults: Faults)
    requires Sendable(files) && (mode == SINGLE || mode == MULTIPLE)
    ensures var r := Receive(Sent(channelId, mode, files), names, faults);
      && (r.Ok? <==> files != [] && NoneEmpty(files) && NoFault(faults, 0, Operations(SentGroups(files))))
      && (r.Ok? ==> r.value.channelId == channelId && r.value.mode == mode && ReceivedAsSent(files, r.value, names))
  {
    if k: nat :| k < |files| && files[k].data == [] {
      EmptyFileRefused(channelId, mode, files, k, names, faults);
    } else if files != [] {
      SentIsUpload(files);
      AcceptedIffNoFault(Upload(channelId, mode, SentGroups(files)), names, faults);
      OutcomeAsSent(channelId, mode, files, names);
    }
  }

  /** What the server records of a file that was sent. */
  ghost predicate RecordedAs(file: Source, path: Path, stored: MediaFile) {
    && stored.path == path
    && stored.name == (if file.name == Some("") then None else file.name)
    && stored.mime == if file.mime.None? || forall c :: c in file.mime.value ==> IsSpace(c) then DEFAULT_MIME
                      else file.mime.value
  }

  lemma {:induction false} SentIsRecorded(file: Source, path: Path)
    ensures RecordedAs(file, path, Describe(path, OrEmpty(file.name), OrEmpty(file.mime)))
  {
    DescribeMeaning(path, OrEmpty(file.name), OrEmpty(file.mime));
  }

  /** The directory with the files that were sent, under the first names. */
  ghost predicate HoldsFiles(base: UploadStore.Files, after: UploadStore.Files, names: Names, files: seq<Source>) {
    && UploadStore.Added(base, after, names, |files|)
    && forall i: nat :: i < |files| ==> names(i) in after && after[names(i)] == files[i].data
  }

  /**
   From the client's files to the server's directory: all of them arrive as they
   are, or the directory stays as it was.
   */
  method ReplyMedia(directory: UploadStore.Directory, channelId: int, files: seq<Source>, mode: Option<MediaMode>,
                    names: Names, faults: Faults)
    returns (r: Result<StoredMedia, Status>)
    requires Sendable(files) && UploadStore.Fresh(names, directory.files)
    modifies directory
    ensures r.Ok? <==> files != [] && NoneEmpty(files) && NoFault(faults, 0, Operations(SentGroups(files)))
    ensures r.Ok? ==> HoldsFiles(old(directory.files), directory.files, names, files)
    ensures r.Ok? ==> r.value.channelId == channelId && |r.value.files| == |files|
    ensures r.Ok? ==> (r.value.multiple <==> mode == Some(Multiple) || (mode == None && |files| >= 2))
    ensures r.Ok? ==> forall i: nat :: i < |files| ==> RecordedAs(files[i], names(i), r.value.files[i])
    ensures r.Err? ==> directory.files == old(directory.files)
  {
    var selected := SelectMode(mode, |files|);
    var items := Requests(channelId, selected, files);
    RoundTrip(channelId, selected, files, names, faults);
    r := UploadStore.StoreChunks(directory, items, names, faults);
    forall i: nat | r.Ok? && i < |files| ensures RecordedAs(files[i], names(i), r.value.files[i]) {
      SentIsRecorded(files[i], names(i));
    }
  }
}
