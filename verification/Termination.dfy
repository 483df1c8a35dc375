/**
 When does mapping a row come to an end? A walk is a chain of rows in which each
 refers to the next. The recursion follows it as far as nothing fails before, so
 a row is mapped to an event exactly if no walk from it repeats a row and none
 leads to a row that cannot be mapped; and the recursion ends exactly if it never
 comes back to a row it is still mapping.
 */
module Termination {
  import opened Wrappers
  import opened Records
  import opened Evaluation
  import Feeds

  /** The ids whose snapshots a feed needs, given the id of its own row. */
  function FeedReferences(feed: FeedValue, self: int): seq<int> {
    match feed
    case MessageDeleted(id, _) => Others([id], self)
    case MessageChanged(id, _, _) => Others([id], self)
    case MessageHidden(ids, _) => Others(ids, self)
    case _ => []
  }

  /** The ids that mapping a row follows: none for a row that cannot be assembled, and never its own. */
  function References(db: Database, row: MessageRow): seq<int> {
    match db.channels(row.channelId)
    case Err(_) => []
    case Ok(channel) =>
      match Assemble(db.codec, row, channel, db.users(row.channelId, row.userId))
      case Ok(Feed(_, feed, _)) => FeedReferences(feed, row.messageId)
      case _ => []
  }

  ghost predicate Follows(db: Database, from: MessageRow, to: MessageRow) {
    exists id :: id in References(db, from) && Fetch(db, from.channelId, id) == Ok(to)
  }

  ghost predicate Walk(db: Database, w: seq<MessageRow>) {
    |w| > 0 && forall i :: 0 <= i < |w| - 1 ==> Follows(db, w[i], w[i + 1])
  }

  ghost predicate Repeats(w: seq<MessageRow>, i: nat, j: nat) {
    i < j < |w| && w[i] == w[j]
  }

  /** No chain of references from the row comes back to a row it has passed; self-references do not count. */
  ghost predicate Acyclic(db: Database, row: MessageRow) {
    forall w, i, j :: Walk(db, w) && w[0] == row ==> !Repeats(w, i, j)
  }

  /** The row can be assembled, and asking for the messages it refers to works (though they may be missing). */
  ghost predicate Sound(db: Database, row: MessageRow) {
    && db.channels(row.channelId).Ok?
    && Assemble(db.codec, row, db.channels(row.channelId).value, db.users(row.channelId, row.userId)).Ok?
    && forall id :: id in References(db, row) ==> db.fault(row.channelId, id).None?
  }

  /** Every row that a chain of references leads to is sound. */
  ghost predicate AllSound(db: Database, row: MessageRow) {
    forall w {:trigger Walk(db, w)} :: Walk(db, w) && w[0] == row ==> Sound(db, w[|w| - 1])
  }

  /** Asking for a snapshot does not end in an error, at any depth. */
  ghost predicate NeverFails(db: Database, channelId: int, id: int) {
    forall fuel: nat :: !Snapshot(db, channelId, id, fuel).Failed?
  }

  /** The k-th reference of a row leads to another, and no earlier one ends the iteration with an error. */
  ghost predicate CallsAt(db: Database, from: MessageRow, to: MessageRow, k: nat) {
    var refs := References(db, from);
    && k < |refs| && Fetch(db, from.channelId, refs[k]) == Ok(to)
    && forall j :: 0 <= j < k ==> NeverFails(db, from.channelId, refs[j])
  }

  ghost predicate Calls(db: Database, from: MessageRow, to: MessageRow) {
    exists k: nat :: CallsAt(db, from, to, k)
  }

  /** A chain of rows each of whose mappings comes to map the next. */
  ghost predicate CallWalk(db: Database, w: seq<MessageRow>) {
    |w| > 0 && forall i :: 0 <= i < |w| - 1 ==> Calls(db, w[i], w[i + 1])
  }

  ghost predicate CallsWithin(db: Database, row: MessageRow, n: nat) {
    forall w {:trigger CallWalk(db, w)} :: CallWalk(db, w) && w[0] == row ==> |w| <= n
  }

  /** The recursion never comes back to a row it is still mapping. */
  ghost predicate NoCallCycle(db: Database, row: MessageRow) {
    forall w, i, j :: CallWalk(db, w) && w[0] == row ==> !Repeats(w, i, j)
  }

  /** Only feeds refer to other messages, and never to their own: the guards in `enrich_feed` drop self-references. */
  lemma {:induction false} FollowsOthersOnly(db: Database, row: MessageRow, id: int)
    requires id in References(db, row)
    ensures row.messageType == 0 && id != row.messageId
  {
  }

  lemma {:induction false} CallsFollow(db: Database, w: seq<MessageRow>)
    requires CallWalk(db, w)
    ensures Walk(db, w)
  {
    forall i | 0 <= i < |w| - 1 ensures Follows(db, w[i], w[i + 1]) {
      var k: nat :| CallsAt(db, w[i], w[i + 1], k);
      var refs := References(db, w[i]);
      assert refs[k] in refs;
    }
  }

  lemma {:induction false} CallsFromNext(db: Database, from: MessageRow, to: MessageRow, n: nat)
    requires CallsWithin(db, from, n) && Calls(db, from, to)
    ensures n > 0 && CallsWithin(db, to, n - 1)
  {
    assert CallWalk(db, [from]);
    forall w | CallWalk(db, w) && w[0] == to ensures |w| <= n - 1 {
      assert CallWalk(db, [from] + w);
    }
  }

  /** Fuel for the longest chain of calls is enough. */
  lemma {:induction false} EnoughFuel(db: Database, row: MessageRow, n: nat)
    requires CallsWithin(db, row, n)
    ensures !MapRow(db, row, n).OutOfFuel?
    decreases n, 0
  {
    assert CallWalk(db, [row]);
    EnoughFuelFrom(db, row, 0, n - 1);
    assert References(db, row)[0..] == References(db, row);
    SnapshotsDecide(db, row, n);
  }

  lemma {:induction false} EnoughFuelFrom(db: Database, row: MessageRow, k: nat, n: nat)
    requires CallsWithin(db, row, n + 1) && k <= |References(db, row)|
    requires forall j :: 0 <= j < k ==> NeverFails(db, row.channelId, References(db, row)[j])
    ensures !Snapshots(db, row.channelId, References(db, row)[k..], n).OutOfFuel?
    decreases n, 1, |References(db, row)| - k
  {
    var refs := References(db, row);
    if k < |refs| {
      var fetched := Fetch(db, row.channelId, refs[k]);
      if fetched.Ok? {
        assert CallsAt(db, row, fetched.value, k);
        CallsFromNext(db, row, fetched.value, n + 1);
        EnoughFuel(db, fetched.value, n);
      }
      assert !GetMessage(db, row.channelId, refs[k], n).OutOfFuel?;
      var snapshot := Snapshot(db, row.channelId, refs[k], n);
      assert refs[k..][0] == refs[k] && refs[k..][1..] == refs[k + 1..];
      if snapshot.Value? {
        ValueNeverFails(db, row.channelId, refs[k], n);
        EnoughFuelFrom(db, row, k + 1, n);
      }
    }
  }

  lemma {:induction false} ValueNeverFails(db: Database, channelId: int, id: int, n: nat)
    requires Snapshot(db, channelId, id, n).Value?
    ensures NeverFails(db, channelId, id)
  {
    forall fuel: nat ensures !Snapshot(db, channelId, id, fuel).Failed? {
      if Snapshot(db, channelId, id, fuel).Failed? {
        if fuel <= n { SnapshotFuel(db, channelId, id, fuel, n); } else { SnapshotFuel(db, channelId, id, n, fuel); }
      }
    }
  }

  /** Mapping a row is decided by the snapshots of the ids it refers to, and fails as they do. */
  lemma {:induction false} SnapshotsDecide(db: Database, row: MessageRow, fuel: nat)
    requires fuel > 0
    ensures var s, r := Snapshots(db, row.channelId, References(db, row), fuel - 1), MapRow(db, row, fuel);
      && (s.OutOfFuel? <==> r.OutOfFuel?)
      && (r.Value? ==> s.Value?)
      && (s.Failed? ==> r == Failed(s.error))
      && (r.Failed? && Sound(db, row) ==> s.Failed?)
  {
    var channel := db.channels(row.channelId);
    if channel.Ok? {
      var author := db.users(row.channelId, row.userId);
      var assembled := Assemble(db.codec, row, channel.value, author);
      if assembled.Ok? && assembled.value.Feed? {
        var feed := assembled.value.feed;
        if feed.MessageDeleted? {
          SingleSnapshot(db, row.channelId, feed.deletedId, row.messageId, fuel - 1);
        } else if feed.MessageChanged? {
          SingleSnapshot(db, row.channelId, feed.changedId, row.messageId, fuel - 1);
        }
      }
    }
  }

  lemma {:induction false} SingleSnapshot(db: Database, channelId: int, id: int, self: int, fuel: nat)
    ensures Others([id], self) == if id == self then [] else [id]
    ensures Snapshots(db, channelId, [], fuel) == Value([])
    ensures var one, all := Snapshot(db, channelId, id, fuel), Snapshots(db, channelId, [id], fuel);
      && (one.OutOfFuel? <==> all.OutOfFuel?)
      && (one.Value? <==> all.Value?)
      && (one.Failed? ==> all == Failed(one.error))
  {
    assert [id][1..] == [];
  }

  /** Mapping never reports a missing message, at any depth: a dangling reference only empties a snapshot. */
  lemma {:induction false} NeverMessageNotFound(db: Database, row: MessageRow, fuel: nat, id: int)
    ensures MapRow(db, row, fuel) != Failed(MessageNotFound(id))
  {
    if fuel > 0 {
      SnapshotsNeverMissing(db, row.channelId, References(db, row), fuel - 1);
      SnapshotsDecide(db, row, fuel);
    }
  }

  lemma {:induction false} SnapshotsNeverMissing(db: Database, channelId: int, ids: seq<int>, fuel: nat)
    ensures var s := Snapshots(db, channelId, ids, fuel); s.Failed? ==> !s.error.MessageNotFound?
    decreases ids
  {
    if ids != [] {
      assert var s := Snapshot(db, channelId, ids[0], fuel); s.Failed? ==> !s.error.MessageNotFound?;
      SnapshotsNeverMissing(db, channelId, ids[1..], fuel);
    }
  }

  /** So `get_message` reports a missing message only for the very row it was asked for. */
  lemma {:induction false} MissingIsTheRequested(db: Database, channelId: int, messageId: int, fuel: nat, id: int)
    ensures GetMessage(db, channelId, messageId, fuel) == Failed(MessageNotFound(id)) <==>
              db.fault(channelId, messageId).None? && (channelId, messageId) !in db.rows && id == messageId
  {
    var fetched := Fetch(db, channelId, messageId);
    if fetched.Ok? {
      NeverMessageNotFound(db, fetched.value, fuel, id);
    }
  }

  lemma {:induction false} EachSnapshotSucceeds(db: Database, channelId: int, ids: seq<int>, fuel: nat, id: int)
    requires Snapshots(db, channelId, ids, fuel).Value? && id in ids
    ensures Snapshot(db, channelId, id, fuel).Value?
    decreases ids
  {
    if id != ids[0] {
      EachSnapshotSucceeds(db, channelId, ids[1..], fuel, id);
    }
  }

  /** If a row is mapped to an event, so is every row it refers to, one level down. */
  lemma {:induction false} NextSucceeds(db: Database, row: MessageRow, next: MessageRow, fuel: nat)
    requires MapRow(db, row, fuel).Value? && Follows(db, row, next)
    ensures fuel > 0 && MapRow(db, next, fuel - 1).Value?
  {
    var id :| id in References(db, row) && Fetch(db, row.channelId, id) == Ok(next);
    SnapshotsDecide(db, row, fuel);
    EachSnapshotSucceeds(db, row.channelId, References(db, row), fuel - 1, id);
    var mapped := MapRow(db, next, fuel - 1);
    assert GetMessage(db, row.channelId, id, fuel - 1) == mapped;
    if mapped.Failed? && mapped.error.MessageNotFound? {
      NeverMessageNotFound(db, next, fuel - 1, mapped.error.messageId);
    }
  }

  lemma {:induction false} MappedIsSound(db: Database, row: MessageRow, fuel: nat)
    requires MapRow(db, row, fuel).Value?
    ensures Sound(db, row)
  {
    SnapshotsDecide(db, row, fuel);
    forall id | id in References(db, row) ensures db.fault(row.channelId, id).None? {
      EachSnapshotSucceeds(db, row.channelId, References(db, row), fuel - 1, id);
    }
  }

  /** From a row mapped with some fuel, no walk is longer than that fuel, and none leads to an unsound row. */
  lemma {:induction false} SuccessBoundsWalks(db: Database, row: MessageRow, fuel: nat, w: seq<MessageRow>)
    requires MapRow(db, row, fuel).Value?
    requires Walk(db, w) && w[0] == row
    ensures |w| <= fuel && Sound(db, w[|w| - 1])
    decreases fuel
  {
    MappedIsSound(db, row, fuel);
    if |w| > 1 {
      assert Follows(db, w[0], w[1]);
      NextSucceeds(db, row, w[1], fuel);
      SuccessBoundsWalks(db, w[1], fuel - 1, w[1..]);
    }
  }

  function Key(row: MessageRow): (int, int) {
    (row.channelId, row.messageId)
  }

  lemma {:induction false} NextIsInDatabase(db: Database, from: MessageRow, to: MessageRow)
    requires db.Valid() && Follows(db, from, to)
    ensures Key(to) in db.rows && db.rows[Key(to)] == to
  {
  }

  /** The rows that a walk comes to, by their place in the database. */
  lemma {:induction false} WalkIsInDatabase(db: Database, w: seq<MessageRow>) returns (keys: seq<(int, int)>)
    requires db.Valid() && Walk(db, w)
    ensures |keys| == |w| - 1
    ensures forall i :: 0 <= i < |keys| ==> keys[i] in db.rows.Keys && db.rows[keys[i]] == w[i + 1]
  {
    keys := seq(|w| - 1, i requires 0 <= i < |w| - 1 => Key(w[i + 1]));
    forall i | 0 <= i < |keys| ensures keys[i] in db.rows.Keys && db.rows[keys[i]] == w[i + 1] {
      NextIsInDatabase(db, w[i], w[i + 1]);
    }
  }

  /** A walk without repetitions visits the rows of the database at most once each, after its start. */
  lemma {:induction false} AcyclicBound(db: Database, w: seq<MessageRow>)
    requires db.Valid() && Walk(db, w) && forall i, j :: !Repeats(w, i, j)
    ensures |w| <= |db.rows| + 1
  {
    var keys := WalkIsInDatabase(db, w);
    forall i, j | 0 <= i < j < |keys| ensures keys[i] != keys[j] {
      assert !Repeats(w, i + 1, j + 1);
    }
    DistinctLength(keys, db.rows.Keys);
  }

  /** If mapping a row ends, so does mapping each row it calls for, one level down. */
  lemma {:induction false} CallEnds(db: Database, from: MessageRow, to: MessageRow, fuel: nat)
    requires !MapRow(db, from, fuel).OutOfFuel? && Calls(db, from, to)
    ensures fuel > 0 && !MapRow(db, to, fuel - 1).OutOfFuel?
  {
    var k: nat :| CallsAt(db, from, to, k);
    SnapshotsDecide(db, from, fuel);
    SnapshotReached(db, from.channelId, References(db, from), fuel - 1, k);
    assert GetMessage(db, from.channelId, References(db, from)[k], fuel - 1) == MapRow(db, to, fuel - 1);
  }

  lemma {:induction false} SnapshotReached(db: Database, channelId: int, ids: seq<int>, fuel: nat, k: nat)
    requires k < |ids| && forall j :: 0 <= j < k ==> NeverFails(db, channelId, ids[j])
    requires !Snapshots(db, channelId, ids, fuel).OutOfFuel?
    ensures !Snapshot(db, channelId, ids[k], fuel).OutOfFuel?
    decreases k
  {
    if k > 0 {
      assert NeverFails(db, channelId, ids[0]);
      forall j | 0 <= j < k - 1 ensures NeverFails(db, channelId, ids[1..][j]) {
        assert NeverFails(db, channelId, ids[j + 1]);
      }
      SnapshotReached(db, channelId, ids[1..], fuel, k - 1);
    }
  }

  lemma {:induction false} CallsEnd(db: Database, w: seq<MessageRow>, i: nat, j: nat, fuel: nat)
    requires CallWalk(db, w) && i <= j < |w| && !MapRow(db, w[i], fuel).OutOfFuel?
    ensures fuel >= j - i && !MapRow(db, w[j], fuel - (j - i)).OutOfFuel?
    decreases j - i
  {
    if i < j {
      CallEnds(db, w[i], w[i + 1], fuel);
      CallsEnd(db, w, i + 1, j, fuel - 1);
    }
  }

  /** Infinite descent: mapping a row that calls for itself would have to end at ever smaller depths. */
  lemma {:induction false} CycleNeverEnds(db: Database, w: seq<MessageRow>, i: nat, j: nat, fuel: nat)
    requires CallWalk(db, w) && Repeats(w, i, j)
    ensures MapRow(db, w[i], fuel).OutOfFuel?
    decreases fuel
  {
    if !MapRow(db, w[i], fuel).OutOfFuel? {
      CallsEnd(db, w, i, j, fuel);
      CycleNeverEnds(db, w, i, j, fuel - (j - i));
    }
  }

  /** A row whose mapping comes back to a row it is still mapping runs out of any fuel. */
  lemma {:induction false} RingDiverges(db: Database, row: MessageRow, w: seq<MessageRow>, i: nat, j: nat, fuel: nat)
    requires CallWalk(db, w) && w[0] == row && Repeats(w, i, j)
    ensures MapRow(db, row, fuel).OutOfFuel?
  {
    if !MapRow(db, row, fuel).OutOfFuel? {
      CallsEnd(db, w, 0, i, fuel);
      CycleNeverEnds(db, w, i, j, fuel - i);
    }
  }

  /** Once the recursion ends, more fuel changes nothing. */
  lemma {:induction false} FuelIsIrrelevant(db: Database, row: MessageRow, fuel: nat, more: nat)
    requires fuel <= more && !MapRow(db, row, fuel).OutOfFuel?
    ensures MapRow(db, row, more) == MapRow(db, row, fuel)
    decreases fuel, 0
  {
    var channel := db.channels(row.channelId);
    if channel.Ok? {
      var author := db.users(row.channelId, row.userId);
      var assembled := Assemble(db.codec, row, channel.value, author);
      if assembled.Ok? && assembled.value.Feed? {
        EnrichFuel(db, row, assembled.value.feed, channel.value, author, fuel - 1, more - 1);
      }
    }
  }

  lemma {:induction false} EnrichFuel(db: Database, row: MessageRow, feed: FeedValue, channel: Channel,
                                      author: Option<Member>, fuel: nat, more: nat)
    requires fuel <= more && !Enrich(db, row, feed, channel, author, fuel).OutOfFuel?
    ensures Enrich(db, row, feed, channel, author, more) == Enrich(db, row, feed, channel, author, fuel)
    decreases fuel, 4
  {
    match feed
    case MessageDeleted(id, _) => if id != row.messageId { SnapshotFuel(db, row.channelId, id, fuel, more); }
    case MessageChanged(id, _, _) => if id != row.messageId { SnapshotFuel(db, row.channelId, id, fuel, more); }
    case MessageHidden(ids, _) => SnapshotsFuel(db, row.channelId, Others(ids, row.messageId), fuel, more);
    case _ =>
  }

  lemma {:induction false} SnapshotsFuel(db: Database, channelId: int, ids: seq<int>, fuel: nat, more: nat)
    requires fuel <= more && !Snapshots(db, channelId, ids, fuel).OutOfFuel?
    ensures Snapshots(db, channelId, ids, more) == Snapshots(db, channelId, ids, fuel)
    decreases fuel, 3, |ids|
  {
    if ids != [] {
      SnapshotFuel(db, channelId, ids[0], fuel, more);
      if Snapshot(db, channelId, ids[0], fuel).Value? {
        SnapshotsFuel(db, channelId, ids[1..], fuel, more);
      }
    }
  }

  lemma {:induction false} SnapshotFuel(db: Database, channelId: int, id: int, fuel: nat, more: nat)
    requires fuel <= more && !Snapshot(db, channelId, id, fuel).OutOfFuel?
    ensures GetMessage(db, channelId, id, more) == GetMessage(db, channelId, id, fuel)
    ensures Snapshot(db, channelId, id, more) == Snapshot(db, channelId, id, fuel)
    decreases fuel, 2
  {
    var fetched := Fetch(db, channelId, id);
    if fetched.Ok? {
      FuelIsIrrelevant(db, fetched.value, fuel, more);
    }
  }

  lemma {:induction false} NextAllSound(db: Database, from: MessageRow, to: MessageRow)
    requires AllSound(db, from) && Follows(db, from, to)
    ensures AllSound(db, to)
  {
    forall w | Walk(db, w) && w[0] == to ensures Sound(db, w[|w| - 1]) {
      var longer := [from] + w;
      assert Walk(db, longer) && longer[|longer| - 1] == w[|w| - 1];
    }
  }

  lemma {:induction false} StartIsSound(db: Database, row: MessageRow)
    requires AllSound(db, row)
    ensures Sound(db, row)
  {
    assert Walk(db, [row]);
  }

  /** Mapping a sound row fails only with a snapshot. */
  lemma {:induction false} SoundRowFails(db: Database, row: MessageRow, fuel: nat)
    requires AllSound(db, row)
    ensures MapRow(db, row, fuel).Failed? ==>
              fuel > 0 && Snapshots(db, row.channelId, References(db, row), fuel - 1).Failed?
  {
    StartIsSound(db, row);
    if fuel > 0 { SnapshotsDecide(db, row, fuel); }
  }

  /** Where every row is sound, nothing fails. */
  lemma {:induction false} SoundNeverFails(db: Database, row: MessageRow, fuel: nat)
    requires AllSound(db, row)
    ensures !MapRow(db, row, fuel).Failed?
    decreases fuel, 0
  {
    SoundRowFails(db, row, fuel);
    if fuel > 0 { SoundSnapshots(db, row, References(db, row), fuel - 1); }
  }

  lemma {:induction false} SoundSnapshot(db: Database, row: MessageRow, id: int, fuel: nat)
    requires AllSound(db, row) && id in References(db, row)
    ensures !Snapshot(db, row.channelId, id, fuel).Failed?
    decreases fuel, 1
  {
    StartIsSound(db, row);
    var fetched := Fetch(db, row.channelId, id);
    if fetched.Ok? {
      assert Follows(db, row, fetched.value);
      NextAllSound(db, row, fetched.value);
      SoundNeverFails(db, fetched.value, fuel);
    }
  }

  lemma {:induction false} SoundSnapshots(db: Database, row: MessageRow, ids: seq<int>, fuel: nat)
    requires AllSound(db, row) && forall id :: id in ids ==> id in References(db, row)
    ensures !Snapshots(db, row.channelId, ids, fuel).Failed?
    decreases fuel, 2, |ids|
  {
    if ids != [] {
      assert ids[0] in ids;
      SoundSnapshot(db, row, ids[0], fuel);
      SoundSnapshots(db, row, ids[1..], fuel);
    }
  }

  /** Where every row is sound, a reference is a call. */
  lemma {:induction false} SoundWalkCalls(db: Database, w: seq<MessageRow>)
    requires Walk(db, w) && AllSound(db, w[0])
    ensures CallWalk(db, w)
    decreases w
  {
    if |w| > 1 {
      assert Follows(db, w[0], w[1]);
      SoundCalls(db, w[0], w[1]);
      NextAllSound(db, w[0], w[1]);
      SoundWalkCalls(db, w[1..]);
      forall i | 0 <= i < |w| - 1 ensures Calls(db, w[i], w[i + 1]) {
        if i > 0 { assert w[1..][i - 1] == w[i] && w[1..][i] == w[i + 1]; }
      }
    }
  }

  lemma {:induction false} SoundCalls(db: Database, from: MessageRow, to: MessageRow)
    requires AllSound(db, from) && Follows(db, from, to)
    ensures Calls(db, from, to)
  {
    var refs := References(db, from);
    var id :| id in refs && Fetch(db, from.channelId, id) == Ok(to);
    var k :| 0 <= k < |refs| && refs[k] == id;
    forall j | 0 <= j < k ensures NeverFails(db, from.channelId, refs[j]) {
      forall fuel: nat ensures !Snapshot(db, from.channelId, refs[j], fuel).Failed? {
        SoundSnapshot(db, from, refs[j], fuel);
      }
    }
    assert CallsAt(db, from, to, k);
  }

  /**
   The recursion ends exactly if it never comes back to a row it is still mapping,
   and then within one level per row of the database.
   */
  lemma {:induction false} MappingEnds(db: Database, row: MessageRow)
    requires db.Valid()
    ensures (exists fuel :: !MapRow(db, row, fuel).OutOfFuel?) <==> NoCallCycle(db, row)
    ensures NoCallCycle(db, row) <==> !MapRow(db, row, |db.rows| + 1).OutOfFuel?
  {
    if NoCallCycle(db, row) {
      forall w | CallWalk(db, w) && w[0] == row ensures |w| <= |db.rows| + 1 {
        CallsFollow(db, w);
        AcyclicBound(db, w);
      }
      EnoughFuel(db, row, |db.rows| + 1);
    } else {
      var w, i, j :| CallWalk(db, w) && w[0] == row && Repeats(w, i, j);
      forall fuel ensures MapRow(db, row, fuel).OutOfFuel? {
        RingDiverges(db, row, w, i, j, fuel);
      }
    }
  }

  lemma {:induction false} AcyclicHasNoCallCycle(db: Database, row: MessageRow)
    requires Acyclic(db, row)
    ensures NoCallCycle(db, row)
  {
    forall w, i, j | CallWalk(db, w) && w[0] == row ensures !Repeats(w, i, j) {
      CallsFollow(db, w);
    }
  }

  lemma {:induction false} SoundCallCycle(db: Database, row: MessageRow)
    requires AllSound(db, row) && NoCallCycle(db, row)
    ensures Acyclic(db, row)
  {
    forall w, i, j | Walk(db, w) && w[0] == row ensures !Repeats(w, i, j) {
      SoundWalkCalls(db, w);
    }
  }

  /**
   What the references alone decide: rows without a cycle of references can always
   be mapped to an end, and where nothing that is referred to is broken, no others.
   */
  lemma {:induction false} EndsIffAcyclic(db: Database, row: MessageRow)
    requires db.Valid()
    ensures Acyclic(db, row) ==> exists fuel :: !MapRow(db, row, fuel).OutOfFuel?
    ensures AllSound(db, row) ==> ((exists fuel :: !MapRow(db, row, fuel).OutOfFuel?) <==> Acyclic(db, row))
  {
    MappingEnds(db, row);
    if Acyclic(db, row) { AcyclicHasNoCallCycle(db, row); }
    if AllSound(db, row) && NoCallCycle(db, row) { SoundCallCycle(db, row); }
  }

  lemma {:induction false} MappedHasNoCycle(db: Database, row: MessageRow, fuel: nat)
    requires db.Valid() && MapRow(db, row, fuel).Value?
    ensures Acyclic(db, row) && AllSound(db, row)
  {
    forall w | Walk(db, w) && w[0] == row ensures Sound(db, w[|w| - 1]) {
      SuccessBoundsWalks(db, row, fuel, w);
    }
    assert !MapRow(db, row, fuel).OutOfFuel?;
    MappingEnds(db, row);
    SoundCallCycle(db, row);
  }

  /** A row is mapped to an event exactly if its references have no cycle and lead only to sound rows. */
  lemma {:induction false} MappedIff(db: Database, row: MessageRow)
    requires db.Valid()
    ensures (exists fuel :: MapRow(db, row, fuel).Value?) <==> Acyclic(db, row) && AllSound(db, row)
    ensures Acyclic(db, row) && AllSound(db, row) <==> MapRow(db, row, |db.rows| + 1).Value?
  {
    forall fuel: nat | MapRow(db, row, fuel).Value? ensures Acyclic(db, row) && AllSound(db, row) {
      MappedHasNoCycle(db, row, fuel);
    }
    if Acyclic(db, row) && AllSound(db, row) {
      AcyclicHasNoCallCycle(db, row);
      MappingEnds(db, row);
      SoundNeverFails(db, row, |db.rows| + 1);
    }
  }

  /** A message that deletes another: its text is the id of the message deleted. */
  function Deletion(messageId: int, text: string): MessageRow {
    MessageRow(messageId, messageId, 0, 1, 1, Some(text), None, None, None, 0)
  }

  /** Two messages, each the deletion of the other. */
  function MutualDeletions(): Database {
    Database(
      Codec(text => Some(Object(map["feedType" := Integer(14), "logId" := Integer(if text == "1" then 1 else 2)])),
            json => "", text => None, text => None, (text, enc, user) => text),
      map[(1, 1) := Deletion(1, "2"), (1, 2) := Deletion(2, "1")],
      (channelId, messageId) => None, channelId => Ok(Channel(channelId, "", None, None)), (channelId, userId) => None)
  }

  lemma {:induction false} DeletionRefers(messageId: int, text: string)
    requires messageId != (if text == "1" then 1 else 2)
    ensures References(MutualDeletions(), Deletion(messageId, text)) == [if text == "1" then 1 else 2]
  {
    var db, row := MutualDeletions(), Deletion(messageId, text);
    var channel, deleted := Channel(1, "", None, None), if text == "1" then 1 else 2;
    assert Feeds.Parse(db.codec, text, None, messageId) == Ok(MessageDeleted(deleted, None));
    assert Plain(db.codec, row, row.message) == text;
    assert Assemble(db.codec, row, channel, None) == Ok(Feed(channel, MessageDeleted(deleted, None), None));
    assert Others([deleted], messageId) == [deleted] + Others([deleted][1..], messageId);
  }

  /** Nothing guards against them: mapping either never ends. */
  lemma {:induction false} MutualDeletionsDiverge(fuel: nat)
    ensures MutualDeletions().Valid()
    ensures MapRow(MutualDeletions(), Deletion(1, "2"), fuel).OutOfFuel?
  {
    var db, one, two := MutualDeletions(), Deletion(1, "2"), Deletion(2, "1");
    DeletionRefers(1, "2");
    DeletionRefers(2, "1");
    assert CallsAt(db, one, two, 0) && CallsAt(db, two, one, 0);
    RingDiverges(db, one, [one, two, one], 0, 2, fuel);
  }

  /** A message that hides messages 3 and 2, where 2 deletes it and asking for 3 fails. */
  function FailingCycle(): Database {
    var entry := (id: int) => Object(map["logId" := Integer(id)]);
    var hiding := Object(map["feedType" := Integer(26), "chatLogInfos" := Array([entry(3), entry(2)])]);
    var mutual := MutualDeletions();
    mutual.(codec := mutual.codec.(parse := text => if text == "h" then Some(hiding) else mutual.codec.parse(text)),
            rows := map[(1, 1) := Deletion(1, "h"), (1, 2) := Deletion(2, "1")],
            fault := (channelId, messageId) => if messageId == 3 then Some(Sqlite) else None)
  }

  lemma {:induction false} HidingListed()
    ensures var codec := FailingCycle().codec;
            Feeds.ParseLogIds(codec, codec.parse("h").value.fields["chatLogInfos"].items) == [3, 2]
  {
    var codec := FailingCycle().codec;
    var entries := codec.parse("h").value.fields["chatLogInfos"].items;
    assert entries[1..] == [entries[1]] && [entries[1]][1..] == [];
    assert Feeds.ParseLogIds(codec, entries[1..]) == [2];
  }

  lemma {:induction false} HidingRefers()
    ensures References(FailingCycle(), Deletion(1, "h")) == [3, 2]
  {
    var db, row := FailingCycle(), Deletion(1, "h");
    HidingListed();
    assert Feeds.Parse(db.codec, "h", None, 1) == Ok(MessageHidden([3, 2], []));
    assert Plain(db.codec, row, row.message) == "h";
    assert Assemble(db.codec, row, Channel(1, "", None, None), None)
        == Ok(Feed(Channel(1, "", None, None), MessageHidden([3, 2], []), None));
    assert FeedReferences(MessageHidden([3, 2], []), 1) == [3, 2] by {
      assert [3, 2][1..] == [2] && [2][1..] == [];
      assert Others([2], 1) == [2] && Others([3, 2], 1) == [3, 2];
    }
  }

  lemma {:induction false} DeletionRefersBack()
    ensures References(FailingCycle(), Deletion(2, "1")) == [1]
  {
    var db, row := FailingCycle(), Deletion(2, "1");
    assert Feeds.Parse(db.codec, "1", None, 2) == Ok(MessageDeleted(1, None));
    assert Plain(db.codec, row, row.message) == "1";
    assert Assemble(db.codec, row, Channel(1, "", None, None), None)
        == Ok(Feed(Channel(1, "", None, None), MessageDeleted(1, None), None));
    assert Others([1], 2) == [1] + Others([1][1..], 2);
  }

  lemma {:induction false} HidingIsOnCycle()
    ensures !Acyclic(FailingCycle(), Deletion(1, "h"))
  {
    var db, one, two := FailingCycle(), Deletion(1, "h"), Deletion(2, "1");
    HidingRefers();
    DeletionRefersBack();
    assert [3, 2][1] == 2 && Follows(db, one, two) by {
      assert 2 in References(db, one) && Fetch(db, 1, 2) == Ok(two);
    }
    assert Follows(db, two, one) by {
      assert 1 in References(db, two) && Fetch(db, 1, 1) == Ok(one);
    }
    var w := [one, two, one];
    assert Walk(db, w) && Repeats(w, 0, 2);
  }

  /** A row on a cycle can be answered with an error: the reference that fails comes before the one that leads round. */
  lemma {:induction false} CyclicRowCanFail()
    ensures FailingCycle().Valid() && !Acyclic(FailingCycle(), Deletion(1, "h"))
    ensures MapRow(FailingCycle(), Deletion(1, "h"), 2) == Failed(Sqlite)
  {
    var db := FailingCycle();
    HidingIsOnCycle();
    HidingRefers();
    assert Snapshot(db, 1, 3, 1) == Failed(Sqlite);
    assert Snapshots(db, 1, [3, 2], 1) == Failed(Sqlite);
    SnapshotsDecide(db, Deletion(1, "h"), 2);
  }
}
