/**
 The modification log of a message: the usable entries of its metadata, decrypted
 and sorted by revision, entries of one revision in the order they came.
 */
module Revisions {
  import opened Wrappers
  import opened Records

  /** `metadata_u32`: a JSON integer in range, or a string holding one. */
  function MetadataU32(codec: Codec, metadata: Json, field: string): Option<nat> {
    match metadata.Get(field)
    case None => None
    case Some(value) =>
      match value.AsU64()
      case Some(n) => if n < U32_MODULUS then Some(n) else None
      case None => if value.String? then codec.parseU32(value.s) else None
  }

  /** The log is a list, or a string that reads as one. */
  function LogEntries(codec: Codec, metadata: Option<Json>): seq<Json> {
    var field := if metadata.Some? then metadata.value.Get("modifyLog") else None;
    match field
    case Some(Array(entries)) => entries
    case Some(String(s)) =>
      (match codec.parse(s)
       case Some(Array(entries)) => entries
       case _ => [])
    case _ => []
  }

  function ReadRevision(codec: Codec, entry: Json, userId: int): Option<MessageRevision> {
    match (entry.Get("revision"), entry.Get("message"), MetadataU32(codec, entry, "enc"))
    case (Some(revision), Some(String(ciphertext)), Some(enc)) =>
      (match revision.AsI64()
       case Some(n) => Some(MessageRevision(n, codec.decrypt(ciphertext, enc, userId)))
       case None => None)
    case _ => None
  }

  /** The entries that can be read, in order. */
  function ReadRevisions(codec: Codec, entries: seq<Json>, userId: int): seq<MessageRevision> {
    if entries == [] then []
    else
      var rest := ReadRevisions(codec, entries[1..], userId);
      match ReadRevision(codec, entries[0], userId)
      case Some(revision) => [revision] + rest
      case None => rest
  }

  function Insert(revision: MessageRevision, sorted: seq<MessageRevision>): seq<MessageRevision> {
    if sorted == [] || revision.revision <= sorted[0].revision then [revision] + sorted
    else [sorted[0]] + Insert(revision, sorted[1..])
  }

  /** `sort_by_key`, which is stable. */
  function SortByRevision(revisions: seq<MessageRevision>): seq<MessageRevision> {
    if revisions == [] then [] else Insert(revisions[0], SortByRevision(revisions[1..]))
  }

  /** `map_modify_log`. */
  function ModifyLog(codec: Codec, metadata: Option<Json>, userId: int): seq<MessageRevision> {
    SortByRevision(ReadRevisions(codec, LogEntries(codec, metadata), userId))
  }

  ghost predicate Sorted(revisions: seq<MessageRevision>) {
    forall i, j :: 0 <= i < j < |revisions| ==> revisions[i].revision <= revisions[j].revision
  }

  /** The entries of one revision, in order. */
  function OfRevision(revisions: seq<MessageRevision>, n: int): seq<MessageRevision> {
    if revisions == [] then []
    else if revisions[0].revision == n then [revisions[0]] + OfRevision(revisions[1..], n)
    else OfRevision(revisions[1..], n)
  }

  lemma {:induction false} OfRevisionHolds(revisions: seq<MessageRevision>, r: MessageRevision, n: int)
    ensures r in OfRevision(revisions, n) <==> r in revisions && r.revision == n
  {
    if revisions != [] { OfRevisionHolds(revisions[1..], r, n); }
  }

  lemma {:induction false} SortedCons(first: MessageRevision, rest: seq<MessageRevision>)
    requires Sorted(rest) && (rest != [] ==> first.revision <= rest[0].revision)
    ensures Sorted([first] + rest)
  {
  }

  lemma {:induction false} InsertSorted(revision: MessageRevision, sorted: seq<MessageRevision>)
    requires Sorted(sorted)
    ensures var r := Insert(revision, sorted);
            Sorted(r) && r != [] && (r[0] == revision || (sorted != [] && r[0] == sorted[0]))
    decreases sorted
  {
    if sorted == [] || revision.revision <= sorted[0].revision {
      SortedCons(revision, sorted);
    } else {
      InsertSorted(revision, sorted[1..]);
      SortedCons(sorted[0], Insert(revision, sorted[1..]));
    }
  }

  lemma {:induction false} OfRevisionCons(first: MessageRevision, rest: seq<MessageRevision>, n: int)
    ensures OfRevision([first] + rest, n) ==
              if first.revision == n then [first] + OfRevision(rest, n) else OfRevision(rest, n)
  {
    assert ([first] + rest)[1..] == rest;
  }

  lemma {:induction false} InsertOfRevision(revision: MessageRevision, sorted: seq<MessageRevision>, n: int)
    ensures OfRevision(Insert(revision, sorted), n) ==
              if revision.revision == n then [revision] + OfRevision(sorted, n) else OfRevision(sorted, n)
    decreases sorted
  {
    if sorted == [] || revision.revision <= sorted[0].revision {
      OfRevisionCons(revision, sorted, n);
    } else {
      InsertOfRevision(revision, sorted[1..], n);
      OfRevisionCons(sorted[0], Insert(revision, sorted[1..]), n);
    }
  }

  /** Sorting puts the revisions in order and leaves those of one revision as they came. */
  lemma {:induction false} SortMeaning(revisions: seq<MessageRevision>, n: int)
    ensures Sorted(SortByRevision(revisions))
    ensures OfRevision(SortByRevision(revisions), n) == OfRevision(revisions, n)
  {
    if revisions != [] {
      SortMeaning(revisions[1..], n);
      InsertSorted(revisions[0], SortByRevision(revisions[1..]));
      InsertOfRevision(revisions[0], SortByRevision(revisions[1..]), n);
    }
  }

  /** The same revisions, those with the same number in the same order. */
  ghost predicate Reorders(a: seq<MessageRevision>, b: seq<MessageRevision>) {
    forall n :: OfRevision(a, n) == OfRevision(b, n)
  }

  lemma {:induction false} FirstIsLeast(a: seq<MessageRevision>, b: seq<MessageRevision>)
    requires Sorted(a) && a != [] && Reorders(a, b)
    ensures b != [] && (Sorted(b) ==> b[0].revision <= a[0].revision)
  {
    var n := a[0].revision;
    OfRevisionHolds(a, a[0], n);
    OfRevisionHolds(b, a[0], n);
    assert OfRevision(a, n) == OfRevision(b, n);
    var i :| 0 <= i < |b| && b[i] == a[0];
  }

  lemma {:induction false} SameRest(first: MessageRevision, a: seq<MessageRevision>, b: seq<MessageRevision>, n: int)
    requires OfRevision([first] + a, n) == OfRevision([first] + b, n)
    ensures OfRevision(a, n) == OfRevision(b, n)
  {
    OfRevisionCons(first, a, n);
    OfRevisionCons(first, b, n);
    if first.revision == n {
      assert ([first] + OfRevision(a, n))[1..] == OfRevision(a, n);
      assert ([first] + OfRevision(b, n))[1..] == OfRevision(b, n);
    }
  }

  lemma {:induction false} SameFirst(x: MessageRevision, a: seq<MessageRevision>, y: MessageRevision,
                                     b: seq<MessageRevision>)
    requires Reorders([x] + a, [y] + b) && x.revision == y.revision
    ensures x == y && Reorders(a, b)
  {
    OfRevisionCons(x, a, x.revision);
    OfRevisionCons(y, b, x.revision);
    assert ([x] + OfRevision(a, x.revision))[0] == ([y] + OfRevision(b, x.revision))[0];
    forall n ensures OfRevision(a, n) == OfRevision(b, n) { SameRest(x, a, b, n); }
  }

  /** There is only one such order, so every stable sort gives the same log. */
  lemma {:induction false} OneOrder(a: seq<MessageRevision>, b: seq<MessageRevision>)
    requires Sorted(a) && Sorted(b) && Reorders(a, b)
    ensures a == b
    decreases a
  {
    if a == [] {
      if b != [] { FirstIsLeast(b, a); }
    } else {
      FirstIsLeast(a, b);
      FirstIsLeast(b, a);
      assert a == [a[0]] + a[1..] && b == [b[0]] + b[1..];
      SameFirst(a[0], a[1..], b[0], b[1..]);
      OneOrder(a[1..], b[1..]);
    }
  }

  lemma {:induction false} RevisionsConcat(codec: Codec, a: seq<Json>, b: seq<Json>, userId: int)
    ensures ReadRevisions(codec, a + b, userId) == ReadRevisions(codec, a, userId) + ReadRevisions(codec, b, userId)
  {
    if a == [] {
      assert a + b == b;
    } else {
      assert (a + b)[1..] == a[1..] + b;
      RevisionsConcat(codec, a[1..], b, userId);
    }
  }

  /** A value that reads as a 32-bit number: a number in range, or a string holding one. */
  predicate IsU32(codec: Codec, value: Json, n: nat) {
    (value == Integer(n) && n < 0x1_0000_0000) || (value.String? && codec.parseU32(value.s) == Some(n))
  }

  /** An entry of the log: a 64-bit revision, and a text to decrypt with a 32-bit selector. */
  ghost predicate IsRevision(codec: Codec, entry: Json, userId: int, revision: MessageRevision) {
    && entry.Object? && "revision" in entry.fields && "message" in entry.fields && "enc" in entry.fields
    && entry.fields["revision"] == Integer(revision.revision)
    && -0x8000_0000_0000_0000 <= revision.revision <= 0x7FFF_FFFF_FFFF_FFFF
    && entry.fields["message"].String?
    && exists enc: nat :: IsU32(codec, entry.fields["enc"], enc)
                          && revision.message == codec.decrypt(entry.fields["message"].s, enc, userId)
  }

  lemma {:induction false} MetadataU32Meaning(codec: Codec, metadata: Json, field: string, n: nat)
    ensures MetadataU32(codec, metadata, field) == Some(n) <==>
              metadata.Object? && field in metadata.fields && IsU32(codec, metadata.fields[field], n)
  {
  }

  /** The log is read entry by entry, and each gives its revision or nothing. */
  lemma {:induction false} RevisionOfOne(codec: Codec, entry: Json, userId: int, revision: MessageRevision)
    ensures ReadRevisions(codec, [entry], userId) == [revision] <==> IsRevision(codec, entry, userId, revision)
    ensures |ReadRevisions(codec, [entry], userId)| <= 1
  {
    assert [entry][1..] == [];
    var read := ReadRevisions(codec, [entry], userId);
    assert read == [revision] ==> read[0] == revision;
    forall n: nat { MetadataU32Meaning(codec, entry, "enc", n); }
  }

  /** A list, or a string that reads as one. */
  predicate IsList(codec: Codec, value: Json, entries: seq<Json>) {
    value == Array(entries) || (value.String? && codec.parse(value.s) == Some(Array(entries)))
  }

  /** Where the log comes from: the field `modifyLog` of the metadata; there is none in anything but a list. */
  lemma {:induction false} EntriesMeaning(codec: Codec, metadata: Json)
    ensures LogEntries(codec, None) == []
    ensures metadata.Object? && "modifyLog" in metadata.fields ==>
              var field := metadata.fields["modifyLog"];
              if exists entries :: IsList(codec, field, entries)
              then IsList(codec, field, LogEntries(codec, Some(metadata)))
              else LogEntries(codec, Some(metadata)) == []
    ensures (metadata.Object? ==> "modifyLog" !in metadata.fields) ==> LogEntries(codec, Some(metadata)) == []
  {
    var entries := LogEntries(codec, Some(metadata));
    if entries != [] { assert IsList(codec, metadata.fields["modifyLog"], entries); }
  }

  /** The log is the one order of the entries read that ascends and keeps those of one revision as they came. */
  lemma {:induction false} OneLog(codec: Codec, metadata: Option<Json>, userId: int, log: seq<MessageRevision>)
    ensures log == ModifyLog(codec, metadata, userId) <==>
              Sorted(log) && Reorders(log, ReadRevisions(codec, LogEntries(codec, metadata), userId))
  {
    var read := ReadRevisions(codec, LogEntries(codec, metadata), userId);
    SortMeaning(read, 0);
    assert Reorders(SortByRevision(read), read) by {
      forall n ensures OfRevision(SortByRevision(read), n) == OfRevision(read, n) { SortMeaning(read, n); }
    }
    if Sorted(log) && Reorders(log, read) {
      OneOrder(log, SortByRevision(read));
    }
  }
}
