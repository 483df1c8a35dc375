/**
 The same protocol, declaratively: an upload is its metadata followed by groups,
 each a file's name, type and size and then chunks that add up to that size. The
 server accepts exactly the streams of this shape whose disk operations succeed.
 */
module UploadGrammar {
  import opened Wrappers
  import opened UploadProtocol

  datatype Group = Group(fileName: string, contentType: string, chunks: seq<Bytes>)

  /** The chunks put together. */
  function Join(chunks: seq<Bytes>): Bytes {
    if chunks == [] then [] else chunks[0] + Join(chunks[1..])
  }

  /** The last chunk completes the file, so there is one and it is not empty. */
  predicate Completing(chunks: seq<Bytes>) {
    chunks != [] && chunks[|chunks| - 1] != []
  }

  predicate Complete(g: Group) {
    Completing(g.chunks) && |Join(g.chunks)| <= U64_MAX
  }

  function ChunkItems(chunks: seq<Bytes>): (items: seq<Item>)
    ensures |items| == |chunks|
  {
    if chunks == [] then [] else [Request(Some(Chunk(chunks[0])))] + ChunkItems(chunks[1..])
  }

  function FileItem(g: Group): Item
    requires Complete(g)
  {
    Request(Some(FileMetadata(g.fileName, |Join(g.chunks)|, g.contentType)))
  }

  ghost predicate AllComplete(groups: seq<Group>) {
    forall i :: 0 <= i < |groups| ==> Complete(groups[i])
  }

  /** Every group announced by its file metadata and followed by its chunks. */
  ghost function GroupItems(groups: seq<Group>): seq<Item>
    requires AllComplete(groups)
  {
    if groups == [] then [] else [FileItem(groups[0])] + (ChunkItems(groups[0].chunks) + GroupItems(groups[1..]))
  }

  /** A whole upload: at least one file, a known mode, and as many groups as announced. */
  datatype Upload = Upload(channelId: int, mode: int, groups: seq<Group>)

  ghost predicate WellFormed(u: Upload) {
    1 <= |u.groups| <= U32_MAX && (u.mode == SINGLE || u.mode == MULTIPLE) && AllComplete(u.groups)
  }

  ghost function UploadItems(u: Upload): seq<Item>
    requires WellFormed(u)
  {
    [Request(Some(Metadata(u.channelId, |u.groups|, u.mode)))] + GroupItems(u.groups)
  }

  /** Disk operations of the groups: creating each file and writing each chunk. */
  function Operations(groups: seq<Group>): nat {
    if groups == [] then 0 else 1 + |groups[0].chunks| + Operations(groups[1..])
  }

  /** What is stored for the groups when the k-th name is the next one. */
  function StoredFor(groups: seq<Group>, k: nat, names: Names): (files: seq<MediaFile>)
    ensures |files| == |groups|
  {
    if groups == [] then []
    else [Describe(names(k), groups[0].fileName, groups[0].contentType)] + StoredFor(groups[1..], k + 1, names)
  }

  function ContentsOf(groups: seq<Group>): (contents: seq<Bytes>)
    ensures |contents| == |groups|
  {
    if groups == [] then [] else [Join(groups[0].chunks)] + ContentsOf(groups[1..])
  }

  lemma {:induction false} StoredAt(groups: seq<Group>, k: nat, names: Names, i: nat)
    requires i < |groups|
    ensures StoredFor(groups, k, names)[i] == Describe(names(k + i), groups[i].fileName, groups[i].contentType)
    ensures ContentsOf(groups)[i] == Join(groups[i].chunks)
    decreases i
  {
    if i > 0 { StoredAt(groups[1..], k + 1, names, i - 1); }
  }

  ghost predicate NoFault(faults: Faults, from: nat, n: nat) {
    forall k :: from <= k < from + n ==> !faults(k)
  }

  /** The state once the open file has been completed by the given chunks. */
  function Completed(s: Receiver, chunks: seq<Bytes>): Receiver {
    s.(current := None, contents := Extend(s.contents, Join(chunks)), operations := s.operations + |chunks|)
  }

  /** The state once the given groups have been stored. */
  function Stored(s: Receiver, groups: seq<Group>, names: Names): Receiver {
    s.(stored := s.stored + StoredFor(groups, |s.stored|, names),
       contents := s.contents + ContentsOf(groups),
       operations := s.operations + Operations(groups))
  }

  /** The given chunks are what the open file is waiting for. */
  predicate Awaits(s: Receiver, chunks: seq<Bytes>) {
    s.current.Some? && Completing(chunks)
    && s.current.value.receivedSize + |Join(chunks)| == s.current.value.expectedSize
  }

  predicate Consistent(s: Receiver) {
    && |s.contents| == |s.stored| <= s.expectedCount
    && (s.current.Some? ==> s.stored != [] && s.current.value.receivedSize < s.current.value.expectedSize)
  }

  lemma {:induction false} JoinOne(chunks: seq<Bytes>)
    requires |chunks| == 1
    ensures Join(chunks) == chunks[0]
  {
    assert chunks[1..] == [];
    assert chunks[0] + [] == chunks[0];
  }

  lemma {:induction false} CompletingNotEmpty(chunks: seq<Bytes>)
    requires Completing(chunks)
    ensures |Join(chunks)| > 0
  {
    if |chunks| > 1 { CompletingNotEmpty(chunks[1..]); } else { JoinOne(chunks); }
  }

  lemma {:induction false} ExtendTwice(contents: seq<Bytes>, a: Bytes, b: Bytes)
    ensures Extend(Extend(contents, a), b) == Extend(contents, a + b)
  {
    if contents != [] {
      var last := contents[|contents| - 1];
      assert (last + a) + b == last + (a + b);
    }
  }

  /** The effect of one chunk that leaves the file open. */
  lemma {:induction false} ChunkThenRest(s: Receiver, chunk: Bytes, rest: seq<Bytes>)
    requires s.current.Some?
    ensures var taken := s.(contents := Extend(s.contents, chunk), operations := s.operations + 1);
      Completed(taken, rest) == Completed(s, [chunk] + rest)
  {
    assert ([chunk] + rest)[1..] == rest;
    ExtendTwice(s.contents, chunk, Join(rest));
  }

  /** Chunks that complete the open file are all taken. */
  lemma {:induction false} ChunksAccepted(s: Receiver, chunks: seq<Bytes>, names: Names, faults: Faults)
    requires Awaits(s, chunks) && NoFault(faults, s.operations, |chunks|)
    ensures TakeAll(s, ChunkItems(chunks), names, faults) == Ok(Completed(s, chunks))
    decreases chunks
  {
    var items := ChunkItems(chunks);
    assert items[0] == Request(Some(Chunk(chunks[0]))) && items[1..] == ChunkItems(chunks[1..]);
    assert !faults(s.operations);
    var next := TakeChunk(s, chunks[0], false);
    if |chunks| == 1 {
      JoinOne(chunks);
    } else {
      CompletingNotEmpty(chunks[1..]);
      assert next.Ok?;
      ChunksAccepted(next.value, chunks[1..], names, faults);
      ChunkThenRest(s, chunks[0], chunks[1..]);
      assert chunks == [chunks[0]] + chunks[1..];
    }
  }

  /** The state once the file of a group has been announced. */
  function Opened(s: Receiver, g: Group, names: Names): Receiver
    requires Complete(g)
  {
    s.(current := Some(Current(|Join(g.chunks)|, 0)),
       stored := s.stored + [Describe(names(|s.stored|), g.fileName, g.contentType)],
       contents := s.contents + [[]],
       operations := s.operations + 1)
  }

  /** A file announced and completed is one group stored. */
  lemma {:induction false} GroupStored(s: Receiver, g: Group, rest: seq<Group>, names: Names)
    requires s.current.None? && Complete(g)
    ensures Stored(Completed(Opened(s, g, names), g.chunks), rest, names) == Stored(s, [g] + rest, names)
  {
    assert ([g] + rest)[1..] == rest;
    var bytes := Join(g.chunks);
    assert [] + bytes == bytes;
    assert (s.contents + [[]])[..|s.contents|] == s.contents;
    assert Extend(s.contents + [[]], bytes) == s.contents + [bytes];
  }

  /** Groups that are announced and fit the announced count are all taken. */
  lemma {:induction false} GroupsAccepted(s: Receiver, groups: seq<Group>, names: Names, faults: Faults)
    requires s.current.None? && AllComplete(groups) && |s.stored| + |groups| <= s.expectedCount
    requires NoFault(faults, s.operations, Operations(groups))
    ensures TakeAll(s, GroupItems(groups), names, faults) == Ok(Stored(s, groups, names))
    decreases groups
  {
    if groups == [] {
      assert s.stored + [] == s.stored && s.contents + [] == s.contents;
    } else {
      var g, rest := groups[0], groups[1..];
      CompletingNotEmpty(g.chunks);
      var announced := Opened(s, g, names);
      assert TakeFile(s, g.fileName, |Join(g.chunks)|, g.contentType, names(|s.stored|), false) == Ok(announced);
      assert !faults(s.operations);
      ChunksAccepted(announced, g.chunks, names, faults);
      var stored := Completed(announced, g.chunks);
      GroupsAccepted(stored, rest, names, faults);
      TakeAllConcat(announced, ChunkItems(g.chunks), GroupItems(rest), names, faults);
      GroupStored(s, g, rest, names);
      assert groups == [g] + rest;
      assert GroupItems(groups)[0] == FileItem(g) && GroupItems(groups)[1..] == ChunkItems(g.chunks) + GroupItems(rest);
    }
  }

  /** What the rest of an accepted stream is: the chunks that the open file awaits, if any, and then whole groups. */
  ghost predicate Explained(s: Receiver, items: seq<Item>, last: Receiver, chunks: seq<Bytes>, groups: seq<Group>,
                            names: Names, faults: Faults)
  {
    && AllComplete(groups)
    && items == ChunkItems(chunks) + GroupItems(groups)
    && NoFault(faults, s.operations, |chunks| + Operations(groups))
    && if s.current.None? then chunks == [] && last == Stored(s, groups, names)
       else Awaits(s, chunks) && last == Stored(Completed(s, chunks), groups, names)
  }

  lemma {:induction false} FileExplained(s: Receiver, fileName: string, size: U64, contentType: string,
                                         rest: seq<Item>, last: Receiver,
                      chunks: seq<Bytes>, groups: seq<Group>, names: Names, faults: Faults)
    requires TakeFile(s, fileName, size, contentType, names(|s.stored|), faults(s.operations)).Ok?
    requires var next := TakeFile(s, fileName, size, contentType, names(|s.stored|), false).value;
      Explained(next, rest, last, chunks, groups, names, faults)
    ensures Explained(s, [Request(Some(FileMetadata(fileName, size, contentType)))] + rest, last, [],
                      [Group(fileName, contentType, chunks)] + groups, names, faults)
  {
    var g := Group(fileName, contentType, chunks);
    GroupStored(s, g, groups, names);
    assert ([g] + groups)[1..] == groups;
    assert GroupItems([g] + groups) == [FileItem(g)] + rest;
    assert ChunkItems([]) + GroupItems([g] + groups) == GroupItems([g] + groups);
  }

  lemma {:induction false} LastChunkExplained(s: Receiver, data: Bytes, rest: seq<Item>, last: Receiver,
                                              groups: seq<Group>, names: Names, faults: Faults)
    requires Consistent(s) && s.current.Some? && s.current.value.receivedSize + |data| == s.current.value.expectedSize
    requires TakeChunk(s, data, faults(s.operations)).Ok?
    requires Explained(TakeChunk(s, data, false).value, rest, last, [], groups, names, faults)
    ensures Explained(s, [Request(Some(Chunk(data)))] + rest, last, [data], groups, names, faults)
  {
    JoinOne([data]);
    assert [data][1..] == [];
    assert ChunkItems([data]) == [Request(Some(Chunk(data)))];
    assert rest == GroupItems(groups);
  }

  lemma {:induction false} ChunkExplained(s: Receiver, data: Bytes, rest: seq<Item>, last: Receiver,
                                          chunks: seq<Bytes>, groups: seq<Group>,
                       names: Names, faults: Faults)
    requires Consistent(s) && s.current.Some? && s.current.value.receivedSize + |data| < s.current.value.expectedSize
    requires TakeChunk(s, data, faults(s.operations)).Ok?
    requires Explained(TakeChunk(s, data, false).value, rest, last, chunks, groups, names, faults)
    ensures Explained(s, [Request(Some(Chunk(data)))] + rest, last, [data] + chunks, groups, names, faults)
  {
    assert ([data] + chunks)[1..] == chunks;
    assert ChunkItems([data] + chunks) == [Request(Some(Chunk(data)))] + ChunkItems(chunks);
    ChunkThenRest(s, data, chunks);
  }

  lemma {:induction false} ItemExplained(s: Receiver, item: Item, next: Receiver, rest: seq<Item>, last: Receiver,
                                         later: seq<Bytes>, more: seq<Group>,
                      names: Names, faults: Faults)
    returns (chunks: seq<Bytes>, groups: seq<Group>)
    requires Consistent(s) && Take(s, item, names(|s.stored|), faults(s.operations)) == Ok(next)
    requires Explained(next, rest, last, later, more, names, faults)
    ensures Explained(s, [item] + rest, last, chunks, groups, names, faults)
  {
    match item.payload {
      case Some(FileMetadata(fileName, size, contentType)) =>
        FileExplained(s, fileName, size, contentType, rest, last, later, more, names, faults);
        chunks, groups := [], [Group(fileName, contentType, later)] + more;
      case Some(Chunk(data)) =>
        groups := more;
        if s.current.value.receivedSize + |data| == s.current.value.expectedSize {
          LastChunkExplained(s, data, rest, last, groups, names, faults);
          chunks := [data];
        } else {
          ChunkExplained(s, data, rest, last, later, groups, names, faults);
          chunks := [data] + later;
        }
    }
  }

  lemma {:induction false} FirstTaken(s: Receiver, items: seq<Item>, last: Receiver, names: Names, faults: Faults)
    returns (next: Receiver)
    requires Consistent(s) && items != [] && TakeAll(s, items, names, faults) == Ok(last)
    ensures Take(s, items[0], names(|s.stored|), faults(s.operations)) == Ok(next) && Consistent(next)
    ensures TakeAll(next, items[1..], names, faults) == Ok(last)
  {
    next := Take(s, items[0], names(|s.stored|), faults(s.operations)).value;
  }

  /** Whatever the server accepts has the declared shape. */
  lemma {:induction false} AcceptedExplained(s: Receiver, items: seq<Item>, last: Receiver, names: Names,
                                             faults: Faults)
    returns (chunks: seq<Bytes>, groups: seq<Group>)
    requires Consistent(s)
    requires TakeAll(s, items, names, faults) == Ok(last) && last.current.None?
    ensures Explained(s, items, last, chunks, groups, names, faults)
    decreases items
  {
    if items == [] {
      chunks, groups := [], [];
      assert s.stored + [] == s.stored && s.contents + [] == s.contents;
    } else {
      var next := FirstTaken(s, items, last, names, faults);
      chunks, groups := AcceptedExplained(next, items[1..], last, names, faults);
      chunks, groups := ItemExplained(s, items[0], next, items[1..], last, chunks, groups, names, faults);
      assert items == [items[0]] + items[1..];
    }
  }

  /** The server's state after a well-formed upload. */
  function Outcome(u: Upload, names: Names): Receiver {
    Receiver(u.channelId, |u.groups|, u.mode, None,
             StoredFor(u.groups, 0, names), ContentsOf(u.groups), Operations(u.groups))
  }

  /**
   The server accepts a stream exactly if it is a well-formed upload none of whose
   disk operations fails, and then it stores the groups' bytes in order.
   */
  lemma {:induction false} AcceptedIffWellFormed(items: seq<Item>, names: Names, faults: Faults)
    ensures Receive(items, names, faults).Ok? <==>
              exists u :: WellFormed(u) && items == UploadItems(u) && NoFault(faults, 0, Operations(u.groups))
    ensures forall u :: WellFormed(u) && items == UploadItems(u) && NoFault(faults, 0, Operations(u.groups)) ==>
              Receive(items, names, faults) == Ok(Outcome(u, names))
  {
    if Receive(items, names, faults).Ok? {
      var u := AcceptedUpload(items, names, faults);
    }
    forall u | WellFormed(u) && items == UploadItems(u) && NoFault(faults, 0, Operations(u.groups))
      ensures Receive(items, names, faults) == Ok(Outcome(u, names))
    {
      UploadAccepted(u, names, faults);
    }
  }

  lemma {:induction false} UploadAccepted(u: Upload, names: Names, faults: Faults)
    requires WellFormed(u) && NoFault(faults, 0, Operations(u.groups))
    ensures Receive(UploadItems(u), names, faults) == Ok(Outcome(u, names))
  {
    var items := UploadItems(u);
    var first := Receiver(u.channelId, |u.groups|, u.mode, None, [], [], 0);
    assert Begin(items) == Ok(first) && items[1..] == GroupItems(u.groups);
    GroupsAccepted(first, u.groups, names, faults);
    StoredFromStart(first, u, names);
  }

  lemma {:induction false} StoredFromStart(first: Receiver, u: Upload, names: Names)
    requires first == Receiver(u.channelId, |u.groups|, u.mode, None, [], [], 0)
    ensures Stored(first, u.groups, names) == Outcome(u, names)
  {
    assert [] + StoredFor(u.groups, 0, names) == StoredFor(u.groups, 0, names);
    assert [] + ContentsOf(u.groups) == ContentsOf(u.groups);
  }

  lemma {:induction false} RestIsGroups(first: Receiver, rest: seq<Item>, last: Receiver, names: Names, faults: Faults)
    returns (groups: seq<Group>)
    requires Consistent(first) && first.current.None? && first.stored == [] && first.operations == 0
    requires TakeAll(first, rest, names, faults) == Ok(last) && last.current.None?
    ensures AllComplete(groups) && rest == GroupItems(groups) && NoFault(faults, 0, Operations(groups))
    ensures |last.stored| == |groups| && last.expectedCount == first.expectedCount
  {
    var chunks;
    chunks, groups := AcceptedExplained(first, rest, last, names, faults);
    assert ChunkItems([]) + GroupItems(groups) == GroupItems(groups);
  }

  /** An accepted stream, taken apart. */
  lemma {:induction false} AcceptedUpload(items: seq<Item>, names: Names, faults: Faults) returns (u: Upload)
    requires Receive(items, names, faults).Ok?
    ensures WellFormed(u) && items == UploadItems(u) && NoFault(faults, 0, Operations(u.groups))
    ensures Receive(items, names, faults) == Ok(Outcome(u, names))
  {
    var first := Begin(items).value;
    var last := TakeAll(first, items[1..], names, faults).value;
    var groups := RestIsGroups(first, items[1..], last, names, faults);
    u := Upload(first.channelId, first.mode, groups);
    assert |groups| == first.expectedCount;
    assert items == [items[0]] + items[1..];
    UploadAccepted(u, names, faults);
  }

  /** Every message after the metadata is one disk operation. */
  lemma {:induction false} ItemsAreOperations(groups: seq<Group>)
    requires AllComplete(groups)
    ensures |GroupItems(groups)| == Operations(groups)
    decreases groups
  {
    if groups != [] { ItemsAreOperations(groups[1..]); }
  }

  /** A well-formed upload is accepted exactly if none of its disk operations fails. */
  lemma {:induction false} AcceptedIffNoFault(u: Upload, names: Names, faults: Faults)
    requires WellFormed(u)
    ensures var r := Receive(UploadItems(u), names, faults);
      && (r.Ok? <==> NoFault(faults, 0, Operations(u.groups)))
      && (r.Ok? ==> r.value == Outcome(u, names))
  {
    if Receive(UploadItems(u), names, faults).Ok? {
      var v := AcceptedUpload(UploadItems(u), names, faults);
      ItemsAreOperations(u.groups);
      ItemsAreOperations(v.groups);
      assert |UploadItems(u)| == 1 + Operations(u.groups) && |UploadItems(v)| == 1 + Operations(v.groups);
    }
    if NoFault(faults, 0, Operations(u.groups)) { UploadAccepted(u, names, faults); }
  }

  /** Two uploads of the same files, whose bytes may be split into chunks in different ways. */
  ghost predicate SameFiles(a: Upload, b: Upload) {
    && a.channelId == b.channelId && a.mode == b.mode && |a.groups| == |b.groups|
    && forall i :: 0 <= i < |a.groups| ==> SameFile(a.groups[i], b.groups[i])
  }

  predicate SameFile(a: Group, b: Group) {
    a.fileName == b.fileName && a.contentType == b.contentType && Join(a.chunks) == Join(b.chunks)
  }

  /** If both are accepted, on whatever disk, the server ends up with the same files. */
  lemma {:induction false} SplittingIsIrrelevant(a: Upload, b: Upload, names: Names, faultsA: Faults, faultsB: Faults)
    requires WellFormed(a) && WellFormed(b) && SameFiles(a, b)
    requires Receive(UploadItems(a), names, faultsA).Ok? && Receive(UploadItems(b), names, faultsB).Ok?
    ensures var s, t := Receive(UploadItems(a), names, faultsA).value, Receive(UploadItems(b), names, faultsB).value;
      Media(s) == Media(t) && s.contents == t.contents
  {
    AcceptedIffNoFault(a, names, faultsA);
    AcceptedIffNoFault(b, names, faultsB);
    SameContents(a.groups, b.groups, 0, names);
  }

  lemma {:induction false} SameContents(a: seq<Group>, b: seq<Group>, k: nat, names: Names)
    requires |a| == |b| && forall i :: 0 <= i < |a| ==> SameFile(a[i], b[i])
    ensures ContentsOf(a) == ContentsOf(b) && StoredFor(a, k, names) == StoredFor(b, k, names)
    decreases a
  {
    if a != [] {
      assert SameFile(a[0], b[0]);
      SameContents(a[1..], b[1..], k + 1, names);
    }
  }
}
