/**
 What a mapped feed tells about the messages it refers to: whose snapshots it
 carries, and where a hidden text is recovered.
 */
module Recovery {
  import opened Wrappers
  import opened Records
  import opened Evaluation
  import opened Termination
  import Feeds

  /** A row is mapped to a message only as itself. */
  lemma {:induction false} MappedMessageIsRow(db: Database, row: MessageRow, fuel: nat)
    ensures var mapped := MapRow(db, row, fuel);
            mapped.Value? && mapped.value.Message? ==> mapped.value.message.messageId == row.messageId
  {
    if fuel > 0 && db.channels(row.channelId).Ok? {
      var assembled := Assemble(db.codec, row, db.channels(row.channelId).value, db.users(row.channelId, row.userId));
      assert assembled.Ok? && assembled.value.Message? ==> assembled.value.message.messageId == row.messageId;
    }
  }

  /** A snapshot is of the message it was asked for, whether it comes from a message or out of a feed. */
  lemma {:induction false} SnapshotHasId(db: Database, channelId: int, id: int, fuel: nat)
    requires db.Valid()
    ensures var s := Snapshot(db, channelId, id, fuel); s.Value? && s.value.Some? ==> s.value.value.messageId == id
  {
    var fetched := Fetch(db, channelId, id);
    if fetched.Ok? {
      MappedMessageIsRow(db, fetched.value, fuel);
      assert GetMessage(db, channelId, id, fuel) == MapRow(db, fetched.value, fuel);
    }
  }

  predicate Resolves(s: Eval<Option<MessageEvent>>) {
    s.Value? && s.value.Some?
  }

  /** The ids among those given that have a snapshot, in order and with repetitions. */
  function Resolving(db: Database, channelId: int, ids: seq<int>, fuel: nat): (found: seq<int>)
    ensures forall id :: id in found <==> id in ids && Resolves(Snapshot(db, channelId, id, fuel))
  {
    if ids == [] then []
    else
      var rest := Resolving(db, channelId, ids[1..], fuel);
      if Resolves(Snapshot(db, channelId, ids[0], fuel)) then [ids[0]] + rest else rest
  }

  /** `found` is, position by position, the snapshot of each given id. */
  ghost predicate SnapshotsOf(db: Database, channelId: int, ids: seq<int>, fuel: nat, found: seq<MessageEvent>) {
    && |found| == |ids|
    && forall k :: 0 <= k < |ids| ==>
         found[k].messageId == ids[k] && Snapshot(db, channelId, ids[k], fuel) == Value(Some(found[k]))
  }

  lemma {:induction false} SnapshotsResolve(db: Database, channelId: int, ids: seq<int>, fuel: nat)
    requires db.Valid() && Snapshots(db, channelId, ids, fuel).Value?
    ensures SnapshotsOf(db, channelId, Resolving(db, channelId, ids, fuel), fuel,
                        Snapshots(db, channelId, ids, fuel).value)
    decreases ids
  {
    if ids != [] {
      SnapshotHasId(db, channelId, ids[0], fuel);
      SnapshotsResolve(db, channelId, ids[1..], fuel);
    }
  }

  /** Two lists agree except that one text may have been replaced at position k. */
  ghost predicate SameButText(was: seq<MessageEvent>, now: seq<MessageEvent>, k: nat) {
    && |was| == |now|
    && (forall i :: 0 <= i < |was| && i != k ==> now[i] == was[i])
    && (k < |was| ==> now[k] == was[k].(message := now[k].message))
  }

  /** The number of messages with an id. */
  function CountId(messages: seq<MessageEvent>, id: int): nat {
    if messages == [] then 0
    else (if messages[0].messageId == id then 1 else 0) + CountId(messages[1..], id)
  }

  lemma {:induction false} CountAbsent(messages: seq<MessageEvent>, id: int, last: MessageEvent)
    requires forall m :: m in messages ==> m.messageId != id
    ensures CountId(messages + [last], id) == if last.messageId == id then 1 else 0
  {
    if messages == [] {
      assert messages + [last] == [last] && [last][1..] == [];
    } else {
      assert (messages + [last])[1..] == messages[1..] + [last];
      CountAbsent(messages[1..], id, last);
    }
  }

  /** The parts of a hidden-message feed a row was mapped to. */
  ghost predicate MappedToHidden(db: Database, row: MessageRow, fuel: nat, ids: seq<int>, previous: seq<MessageEvent>) {
    var mapped := MapRow(db, row, fuel);
    mapped.Value? && mapped.value.Feed? && mapped.value.feed == MessageHidden(ids, previous)
  }

  lemma {:induction false} HiddenFromSnapshots(db: Database, row: MessageRow, fuel: nat, ids: seq<int>,
                                               previous: seq<MessageEvent>)
    returns (found: seq<MessageEvent>, channel: Channel, author: Option<Member>)
    requires db.Valid() && MappedToHidden(db, row, fuel, ids, previous)
    ensures row.messageType == 0 && fuel > 0
    ensures Snapshots(db, row.channelId, Others(ids, row.messageId), fuel - 1).Value?
    ensures SnapshotsOf(db, row.channelId, Resolving(db, row.channelId, Others(ids, row.messageId), fuel - 1),
                        fuel - 1, found)
    ensures previous == Recover(db.codec, row, ids, found, channel, author)
  {
    channel, author := db.channels(row.channelId).value, db.users(row.channelId, row.userId);
    var feed := Assemble(db.codec, row, channel, author).value.feed;
    assert Enrich(db, row, feed, channel, author, fuel - 1) == Value(MessageHidden(ids, previous));
    assert feed.MessageHidden? && feed.messageIds == ids;
    SnapshotsResolve(db, row.channelId, Others(ids, row.messageId), fuel - 1);
    found := Snapshots(db, row.channelId, Others(ids, row.messageId), fuel - 1).value;
  }

  /**
   The previous messages of a hidden-message feed are the snapshots of the other
   ids that resolve, in the order of `message_ids`, with at most one text replaced
   or one entry appended; every entry is about one of the hidden messages.
   */
  lemma {:induction false} PreviousMessages(db: Database, row: MessageRow, fuel: nat, ids: seq<int>,
                                            previous: seq<MessageEvent>)
    returns (found: seq<MessageEvent>, k: nat)
    requires db.Valid() && MappedToHidden(db, row, fuel, ids, previous)
    ensures fuel > 0
    ensures SnapshotsOf(db, row.channelId, Resolving(db, row.channelId, Others(ids, row.messageId), fuel - 1),
                        fuel - 1, found)
    ensures |previous| == |found| || (|previous| == |found| + 1 && k == |found|)
    ensures SameButText(found, previous[..|found|], k)
    ensures forall m :: m in previous ==> m.messageId in ids
    ensures HiddenText(db.codec, row).None? || ids == [] ==> previous == found
  {
    var channel, author;
    found, channel, author := HiddenFromSnapshots(db, row, fuel, ids, previous);
    var resolving := Resolving(db, row.channelId, Others(ids, row.messageId), fuel - 1);
    forall m | m in found ensures m.messageId in ids {
      var i :| 0 <= i < |found| && found[i] == m;
      assert resolving[i] in resolving;
    }
    var target := Target(ids, row.messageId);
    k := if target.Some? then FirstWithId(found, target.value) else |found|;
  }

  /**
   A usable hidden text is not lost: it stands under the target, which is the row
   itself if the row is listed and the first listed message otherwise. A listed row
   has exactly one entry.
   */
  lemma {:induction false} HiddenTextRecovered(db: Database, row: MessageRow, fuel: nat, ids: seq<int>,
                                               previous: seq<MessageEvent>)
    returns (k: nat)
    requires db.Valid() && MappedToHidden(db, row, fuel, ids, previous)
    requires HiddenText(db.codec, row).Some? && ids != []
    ensures k < |previous| && previous[k].message == HiddenText(db.codec, row).value
    ensures previous[k].messageId == if row.messageId in ids then row.messageId else ids[0]
    ensures k == FirstWithId(previous, previous[k].messageId)
    ensures row.messageId in ids ==> CountId(previous, row.messageId) == 1
  {
    var found, channel, author := HiddenFromSnapshots(db, row, fuel, ids, previous);
    var id, text := Target(ids, row.messageId).value, HiddenText(db.codec, row).value;
    k := FirstWithId(found, id);
    if row.messageId in ids {
      var others := Others(ids, row.messageId);
      var resolving := Resolving(db, row.channelId, others, fuel - 1);
      forall m | m in found ensures m.messageId != row.messageId {
        var i :| 0 <= i < |found| && found[i] == m;
        assert resolving[i] in resolving;
      }
      CountAbsent(found, row.messageId, Recovered(row, id, text, channel, author));
    }
  }

  /** A row that is the rewrite (feedType 13) of its own hidden text. */
  ghost predicate Rewrite(db: Database, row: MessageRow) {
    && row.messageType == 0 && HiddenText(db.codec, row).Some?
    && db.channels(row.channelId).Ok?
    && var json := db.codec.parse(Plain(db.codec, row, row.message));
       json.Some? && Feeds.FeedTypeId(json.value) == Feeds.OPEN_CHAT_REWRITE_TYPE
  }

  /** A rewritten row is found by every other row as a snapshot with the recovered text. */
  lemma {:induction false} RewriteSnapshot(db: Database, row: MessageRow, fuel: nat)
    requires db.Valid() && fuel > 0 && Rewrite(db, row)
    requires Fetch(db, row.channelId, row.messageId) == Ok(row)
    ensures var s := Snapshot(db, row.channelId, row.messageId, fuel);
      && s.Value? && s.value.Some?
      && s.value.value.messageId == row.messageId
      && s.value.value.message == HiddenText(db.codec, row).value
  {
    var id, ids := row.messageId, [row.messageId];
    var channel, author := db.channels(row.channelId).value, db.users(row.channelId, row.userId);
    assert Assemble(db.codec, row, channel, author) == Ok(Feed(channel, MessageHidden(ids, []), author));
    assert Others(ids, id) == Others(ids[1..], id) == [];
    var previous := Recover(db.codec, row, ids, [], channel, author);
    assert Snapshots(db, row.channelId, [], fuel - 1) == Value([]);
    assert Enrich(db, row, MessageHidden(ids, []), channel, author, fuel - 1) == Value(MessageHidden(ids, previous));
    assert MapRow(db, row, fuel) == Value(Feed(channel, MessageHidden(ids, previous), author));
    assert GetMessage(db, row.channelId, id, fuel) == MapRow(db, row, fuel);
    var k := HiddenTextRecovered(db, row, fuel, ids, previous);
  }

  /** A deletion or change feed about a rewritten row carries the recovered text. */
  lemma {:induction false} RewriteSeenByOthers(db: Database, row: MessageRow, other: MessageRow, fuel: nat)
    requires db.Valid() && Rewrite(db, row) && Fetch(db, row.channelId, row.messageId) == Ok(row)
    requires other.channelId == row.channelId && other.messageId != row.messageId
    requires MapRow(db, other, fuel).Value?
    ensures match MapRow(db, other, fuel).value
      case Feed(_, MessageDeleted(id, previous), _) =>
        id == row.messageId ==> previous.Some? && previous.value.message == HiddenText(db.codec, row).value
      case Feed(_, MessageChanged(id, _, changed), _) =>
        id == row.messageId ==> changed.Some? && changed.value.message == HiddenText(db.codec, row).value
      case _ => true
  {
    if fuel > 1 { RewriteSnapshot(db, row, fuel - 1); }
    var channel, author := db.channels(other.channelId), db.users(other.channelId, other.userId);
    var assembled := Assemble(db.codec, other, channel.value, author);
    if assembled.Ok? && assembled.value.Feed? {
      var enriched := Enrich(db, other, assembled.value.feed, channel.value, author, fuel - 1);
      assert enriched.Value?;
    }
  }

  /** Every snapshot of a rewritten row among those found has its recovered text, and there is one if it is listed. */
  lemma {:induction false} RewriteFound(db: Database, row: MessageRow, ids: seq<int>, fuel: nat,
                                        found: seq<MessageEvent>)
    requires db.Valid() && fuel > 0 && Rewrite(db, row) && Fetch(db, row.channelId, row.messageId) == Ok(row)
    requires row.messageId in ids
    requires SnapshotsOf(db, row.channelId, Resolving(db, row.channelId, ids, fuel), fuel, found)
    ensures FirstWithId(found, row.messageId) < |found|
    ensures forall m :: m in found && m.messageId == row.messageId ==> m.message == HiddenText(db.codec, row).value
  {
    RewriteSnapshot(db, row, fuel);
    var resolving := Resolving(db, row.channelId, ids, fuel);
    assert row.messageId in resolving;
    var i :| 0 <= i < |resolving| && resolving[i] == row.messageId;
    assert found[i].messageId == row.messageId;
    forall m | m in found && m.messageId == row.messageId ensures m.message == HiddenText(db.codec, row).value {
      var j :| 0 <= j < |found| && found[j] == m;
      assert resolving[j] == row.messageId;
    }
  }

  lemma {:induction false} SnapshotTakesDepth(db: Database, row: MessageRow, ids: seq<int>, fuel: nat)
    requires Fetch(db, row.channelId, row.messageId) == Ok(row) && row.messageId in ids
    requires Snapshots(db, row.channelId, ids, fuel).Value?
    ensures fuel > 0
  {
    EachSnapshotSucceeds(db, row.channelId, ids, fuel, row.messageId);
    assert GetMessage(db, row.channelId, row.messageId, fuel) == MapRow(db, row, fuel);
  }

  /** The feed carries a hidden text of its own and puts it under the given message. */
  predicate Overwrites(codec: Codec, feed: MessageRow, ids: seq<int>, id: int) {
    HiddenText(codec, feed).Some? && Target(ids, feed.messageId) == Some(id)
  }

  /** Recovering a text meant for another message leaves the first entry of a message alone. */
  lemma {:induction false} FirstUntouched(codec: Codec, row: MessageRow, ids: seq<int>, found: seq<MessageEvent>,
                                          channel: Channel, author: Option<Member>, id: int)
    requires !Overwrites(codec, row, ids, id) && FirstWithId(found, id) < |found|
    ensures var previous, k := Recover(codec, row, ids, found, channel, author), FirstWithId(found, id);
      FirstWithId(previous, id) == k && k < |previous| && previous[k] == found[k]
  {
    var previous, k := Recover(codec, row, ids, found, channel, author), FirstWithId(found, id);
    assert forall i :: 0 <= i < |found| ==> previous[i].messageId == found[i].messageId;
    assert previous[k] == found[k];
  }

  lemma {:induction false} RewriteRecovered(db: Database, row: MessageRow, other: MessageRow, fuel: nat, ids: seq<int>,
                                            found: seq<MessageEvent>, channel: Channel, author: Option<Member>)
    requires db.Valid() && Rewrite(db, row) && Fetch(db, row.channelId, row.messageId) == Ok(row)
    requires row.messageId in ids && other.messageId != row.messageId
    requires Snapshots(db, row.channelId, Others(ids, other.messageId), fuel).Value?
    requires SnapshotsOf(db, row.channelId, Resolving(db, row.channelId, Others(ids, other.messageId), fuel), fuel,
                         found)
    requires !Overwrites(db.codec, other, ids, row.messageId)
    ensures var previous := Recover(db.codec, other, ids, found, channel, author);
            var k := FirstWithId(previous, row.messageId);
            k < |previous| && previous[k].message == HiddenText(db.codec, row).value
  {
    var others := Others(ids, other.messageId);
    SnapshotTakesDepth(db, row, others, fuel);
    RewriteFound(db, row, others, fuel, found);
    FirstUntouched(db.codec, other, ids, found, channel, author, row.messageId);
  }

  lemma {:induction false} RewriteShown(db: Database, row: MessageRow, other: MessageRow, fuel: nat, ids: seq<int>,
                                        previous: seq<MessageEvent>)
    requires db.Valid() && Rewrite(db, row) && Fetch(db, row.channelId, row.messageId) == Ok(row)
    requires other.channelId == row.channelId && other.messageId != row.messageId
    requires MappedToHidden(db, other, fuel, ids, previous) && row.messageId in ids
    requires !Overwrites(db.codec, other, ids, row.messageId)
    ensures var k := FirstWithId(previous, row.messageId);
            k < |previous| && previous[k].message == HiddenText(db.codec, row).value
  {
    var found, channel, author := HiddenFromSnapshots(db, other, fuel, ids, previous);
    RewriteRecovered(db, row, other, fuel - 1, ids, found, channel, author);
  }

  /**
   What a hidden-message feed that lists a rewritten row shows for it: the recovered
   text, unless the feed has a hidden text of its own that is meant for that row.
   */
  lemma {:induction false} RewriteSeenWhenHidden(db: Database, row: MessageRow, other: MessageRow, fuel: nat,
                                                 ids: seq<int>, previous: seq<MessageEvent>)
    requires db.Valid() && Rewrite(db, row) && Fetch(db, row.channelId, row.messageId) == Ok(row)
    requires other.channelId == row.channelId && other.messageId != row.messageId
    requires MappedToHidden(db, other, fuel, ids, previous) && row.messageId in ids
    ensures var k := FirstWithId(previous, row.messageId);
      && k < |previous|
      && previous[k].message ==
           if Overwrites(db.codec, other, ids, row.messageId) then HiddenText(db.codec, other).value
           else HiddenText(db.codec, row).value
  {
    if Overwrites(db.codec, other, ids, row.messageId) {
      var k := HiddenTextRecovered(db, other, fuel, ids, previous);
    } else {
      RewriteShown(db, row, other, fuel, ids, previous);
    }
  }
}
