/**
 What events contain, told from the columns of their rows: which text is decrypted
 with which selector, what becomes of a reference, and what a snapshot is. These
 are laws about the functions of Evaluation that do not mention how they compute.
 */
module Contents {
  import opened Wrappers
  import opened Records
  import opened Revisions
  import opened Evaluation
  import opened Termination
  import opened Recovery
  import Feeds

  /** The selector of a row's cipher: the integer `enc` of its metadata cut to 32 bits; 0 if there is none. */
  ghost predicate Selects(codec: Codec, row: MessageRow, n: nat) {
    if HasInteger(codec, row, "enc") then n == MetadataField(codec, row, "enc").n % 0x1_0000_0000 else n == 0
  }

  predicate HasField(codec: Codec, row: MessageRow, field: string) {
    row.metadata.Some? && codec.parse(row.metadata.value).Some?
    && codec.parse(row.metadata.value).value.Object? && field in codec.parse(row.metadata.value).value.fields
  }

  function MetadataField(codec: Codec, row: MessageRow, field: string): Json
    requires HasField(codec, row, field)
  {
    codec.parse(row.metadata.value).value.fields[field]
  }

  /** The metadata has a number under a name that fits 64 bits. */
  predicate HasInteger(codec: Codec, row: MessageRow, field: string) {
    HasField(codec, row, field) && MetadataField(codec, row, field).Integer?
    && 0 <= MetadataField(codec, row, field).n <= 0xFFFF_FFFF_FFFF_FFFF
  }

  /** A column decrypted for the row's author; a missing one is empty. */
  predicate Decrypts(codec: Codec, row: MessageRow, n: nat, column: Option<string>, text: string) {
    text == if column.Some? then codec.decrypt(column.value, n, row.userId) else ""
  }

  /** An attachment as JSON: what the text says, or the empty object if it says nothing. */
  predicate Attaches(codec: Codec, text: string, json: string) {
    json == codec.render(if codec.parse(text).Some? then codec.parse(text).value else Object(map[]))
  }

  predicate IsScope(scope: int, shown: int) {
    shown == if scope == 1 || scope == 2 || scope == 3 then scope else 0
  }

  /** Everything an ordinary message shows of its row. */
  ghost predicate ShowsRow(db: Database, row: MessageRow, channel: Channel, m: MessageEvent) {
    && m.messageId == row.messageId && m.threadId == row.threadId && m.messageType == row.messageType
    && IsScope(row.scope, m.scope)
    && m.channel == channel && m.author == db.users(row.channelId, row.userId)
    && m.modifyLog ==
         ModifyLog(db.codec, if row.metadata.Some? then db.codec.parse(row.metadata.value) else None, row.userId)
    && exists n: nat, attachment ::
         Selects(db.codec, row, n) && Decrypts(db.codec, row, n, row.message, m.message)
         && Decrypts(db.codec, row, n, row.attachment, attachment)
         && Attaches(db.codec, attachment, m.attachmentJson)
  }

  lemma {:induction false} SelectorRead(codec: Codec, row: MessageRow)
    ensures Selects(codec, row, Enc(ParseMetadata(codec, row)))
  {
  }

  lemma {:induction false} PlainRead(codec: Codec, row: MessageRow, column: Option<string>)
    ensures Decrypts(codec, row, Enc(ParseMetadata(codec, row)), column, Plain(codec, row, column))
  {
  }

  /** An ordinary message is mapped, without following anything, to what its row says. */
  lemma {:induction false} MessageShowsRow(db: Database, row: MessageRow, fuel: nat)
    returns (m: MessageEvent)
    requires row.messageType != 0 && fuel > 0 && db.channels(row.channelId).Ok?
    ensures MapRow(db, row, fuel) == Value(Message(m))
    ensures ShowsRow(db, row, db.channels(row.channelId).value, m)
  {
    m := MapRow(db, row, fuel).value.message;
    SelectorRead(db.codec, row);
    PlainRead(db.codec, row, row.message);
    PlainRead(db.codec, row, row.attachment);
    assert Attaches(db.codec, Plain(db.codec, row, row.attachment), m.attachmentJson);
  }

  /** A feed's payload is the text of its row. */
  ghost predicate ReadsAs(db: Database, row: MessageRow, feed: Result<FeedValue, FeedError>) {
    exists n: nat, text ::
      Selects(db.codec, row, n) && Decrypts(db.codec, row, n, row.message, text)
      && feed == Feeds.Parse(db.codec, text, db.users(row.channelId, row.userId), row.messageId)
  }

  lemma {:induction false} ReadsOnce(db: Database, row: MessageRow, feed: Result<FeedValue, FeedError>)
    requires ReadsAs(db, row, feed)
    ensures feed == Feeds.Parse(db.codec, Plain(db.codec, row, row.message), db.users(row.channelId, row.userId),
                                row.messageId)
  {
    SelectorRead(db.codec, row);
    PlainRead(db.codec, row, row.message);
  }

  /** A row of a feed, in a channel that is found. */
  ghost predicate IsFeed(db: Database, row: MessageRow, channel: Channel, author: Option<Member>,
                         feed: Result<FeedValue, FeedError>) {
    && row.messageType == 0 && db.channels(row.channelId) == Ok(channel)
    && author == db.users(row.channelId, row.userId) && ReadsAs(db, row, feed)
  }

  lemma {:induction false} ChannelFails(db: Database, row: MessageRow, fuel: nat)
    requires fuel > 0 && db.channels(row.channelId).Err?
    ensures MapRow(db, row, fuel) == Failed(db.channels(row.channelId).error)
  {
  }

  /** A payload that cannot be read fails the row. */
  lemma {:induction false} UnreadableFails(db: Database, row: MessageRow, fuel: nat, channel: Channel,
                                           author: Option<Member>, reason: FeedError)
    requires fuel > 0 && IsFeed(db, row, channel, author, Err(reason))
    ensures MapRow(db, row, fuel) == Failed(MessageMapping(reason))
  {
    ReadsOnce(db, row, Err(reason));
  }

  lemma {:induction false} FeedMapped(db: Database, row: MessageRow, fuel: nat, channel: Channel,
                                      author: Option<Member>, feed: FeedValue)
    requires fuel > 0 && IsFeed(db, row, channel, author, Ok(feed))
    ensures var e := Enrich(db, row, feed, channel, author, fuel - 1);
      && (e.Value? ==> MapRow(db, row, fuel) == Value(Feed(channel, e.value, author)))
      && (e.Failed? ==> MapRow(db, row, fuel) == Failed(e.error))
  {
    ReadsOnce(db, row, Ok(feed));
    assert Assemble(db.codec, row, channel, author) == Ok(Feed(channel, feed, author));
  }

  /** A feed that refers to no message is shown as it is. */
  lemma {:induction false} PlainFeedShown(db: Database, row: MessageRow, fuel: nat, channel: Channel,
                                          author: Option<Member>, feed: FeedValue)
    requires fuel > 0 && IsFeed(db, row, channel, author, Ok(feed))
    requires !feed.MessageDeleted? && !feed.MessageChanged? && !feed.MessageHidden?
    ensures MapRow(db, row, fuel) == Value(Feed(channel, feed, author))
  {
    FeedMapped(db, row, fuel, channel, author, feed);
  }

  /** A deletion or change feed shows the snapshot of the message it names, and none of itself. */
  lemma {:induction false} ReferenceShown(db: Database, row: MessageRow, fuel: nat, channel: Channel,
                                          author: Option<Member>, feed: FeedValue, id: int)
    requires fuel > 0 && IsFeed(db, row, channel, author, Ok(feed))
    requires feed == MessageDeleted(id, None) || (feed.MessageChanged? && feed.changedId == id)
    ensures var s := if id == row.messageId then Value(None) else Snapshot(db, row.channelId, id, fuel - 1);
      && (s.Value? && feed.MessageDeleted? ==>
            MapRow(db, row, fuel) == Value(Feed(channel, MessageDeleted(id, s.value), author)))
      && (s.Value? && feed.MessageChanged? ==>
            MapRow(db, row, fuel) == Value(Feed(channel, MessageChanged(id, feed.targetRevision, s.value), author)))
      && (s.Failed? ==> MapRow(db, row, fuel) == Failed(s.error))
  {
    FeedMapped(db, row, fuel, channel, author, feed);
  }

  /** A hidden-message feed keeps its ids. */
  lemma {:induction false} HiddenShown(db: Database, row: MessageRow, fuel: nat, channel: Channel,
                                       author: Option<Member>, ids: seq<int>, before: seq<MessageEvent>)
    requires fuel > 0 && IsFeed(db, row, channel, author, Ok(MessageHidden(ids, before)))
    requires MapRow(db, row, fuel).Value?
    ensures exists previous :: MappedToHidden(db, row, fuel, ids, previous)
    ensures MapRow(db, row, fuel).value.Feed? && MapRow(db, row, fuel).value.channel == channel
    ensures MapRow(db, row, fuel).value.author == author
  {
    ReadsOnce(db, row, Ok(MessageHidden(ids, before)));
    var feed := MessageHidden(ids, before);
    assert Assemble(db.codec, row, channel, author) == Ok(Feed(channel, feed, author));
    var enriched := Enrich(db, row, feed, channel, author, fuel - 1);
    assert MappedToHidden(db, row, fuel, ids, enriched.value.previousMessages);
  }

  /** The snapshot of an ordinary message is the message. */
  lemma {:induction false} SnapshotOfMessage(db: Database, channelId: int, id: int, row: MessageRow, fuel: nat)
    returns (m: MessageEvent)
    requires Fetch(db, channelId, id) == Ok(row) && row.messageType != 0
    requires fuel > 0 && db.channels(row.channelId).Ok?
    ensures MapRow(db, row, fuel) == Value(Message(m)) && ShowsRow(db, row, db.channels(row.channelId).value, m)
    ensures Snapshot(db, channelId, id, fuel) == Value(Some(m))
  {
    m := MessageShowsRow(db, row, fuel);
    assert GetMessage(db, channelId, id, fuel) == MapRow(db, row, fuel);
  }

  /** Entry k is the first one with an id. */
  predicate FirstEntry(messages: seq<MessageEvent>, id: int, k: nat) {
    k < |messages| && messages[k].messageId == id && forall i :: 0 <= i < k ==> messages[i].messageId != id
  }

  /** The snapshot of a feed is the first entry about its message in a hidden-message feed; other feeds have none. */
  lemma {:induction false} SnapshotOfFeed(db: Database, channelId: int, id: int, row: MessageRow, fuel: nat,
                                          feed: FeedValue)
    requires Fetch(db, channelId, id) == Ok(row)
    requires var e := MapRow(db, row, fuel); e.Value? && e.value.Feed? && e.value.feed == feed
    ensures !feed.MessageHidden? ==> Snapshot(db, channelId, id, fuel) == Value(None)
    ensures feed.MessageHidden? && (forall m :: m in feed.previousMessages ==> m.messageId != id) ==>
              Snapshot(db, channelId, id, fuel) == Value(None)
    ensures forall k: nat :: feed.MessageHidden? && FirstEntry(feed.previousMessages, id, k) ==>
              Snapshot(db, channelId, id, fuel) == Value(Some(feed.previousMessages[k]))
  {
    assert GetMessage(db, channelId, id, fuel) == MapRow(db, row, fuel);
    if feed.MessageHidden? {
      var previous := feed.previousMessages;
      var k := FirstWithId(previous, id);
      if k < |previous| { assert previous[k] in previous; }
      forall j: nat | FirstEntry(previous, id, j) ensures j == k {}
    }
  }

  /** A message that is missing has no snapshot; any other error is passed on. */
  lemma {:induction false} SnapshotOfNothing(db: Database, channelId: int, id: int, fuel: nat)
    ensures db.fault(channelId, id).Some? ==>
              Snapshot(db, channelId, id, fuel) == Failed(db.fault(channelId, id).value)
    ensures db.fault(channelId, id).None? && (channelId, id) !in db.rows ==>
              Snapshot(db, channelId, id, fuel) == Value(None)
    ensures db.fault(channelId, id).None? && (channelId, id) in db.rows ==>
              var e := MapRow(db, db.rows[(channelId, id)], fuel);
              e.Failed? ==> Snapshot(db, channelId, id, fuel) == Failed(e.error)
  {
    if db.fault(channelId, id).None? && (channelId, id) in db.rows {
      var e := MapRow(db, db.rows[(channelId, id)], fuel);
      if e.Failed? && e.error.MessageNotFound? {
        NeverMessageNotFound(db, db.rows[(channelId, id)], fuel, e.error.messageId);
      }
    }
  }

  /** So a deletion or change feed about an ordinary message of its channel shows that message. */
  lemma {:induction false} ReferenceShowsMessage(db: Database, row: MessageRow, fuel: nat, channel: Channel,
                                                 author: Option<Member>, feed: FeedValue, id: int, other: MessageRow)
    returns (m: MessageEvent)
    requires db.Valid() && fuel > 1 && IsFeed(db, row, channel, author, Ok(feed)) && id != row.messageId
    requires feed == MessageDeleted(id, None) || (feed.MessageChanged? && feed.changedId == id)
    requires Fetch(db, row.channelId, id) == Ok(other) && other.messageType != 0
    ensures ShowsRow(db, other, channel, m)
    ensures MapRow(db, row, fuel) == Value(Feed(channel,
              if feed.MessageDeleted? then MessageDeleted(id, Some(m))
              else MessageChanged(id, feed.targetRevision, Some(m)), author))
  {
    m := SnapshotOfMessage(db, row.channelId, id, other, fuel - 1);
    ReferenceShown(db, row, fuel, channel, author, feed, id);
  }

  /** And a hidden-message feed that lists it has it as its first entry of that id, but for a text of its own. */
  lemma {:induction false} HiddenShowsMessage(db: Database, row: MessageRow, fuel: nat, ids: seq<int>,
                                              previous: seq<MessageEvent>, id: int, other: MessageRow)
    returns (m: MessageEvent, k: nat)
    requires db.Valid() && fuel > 1 && MappedToHidden(db, row, fuel, ids, previous)
    requires id in ids && id != row.messageId && !Overwrites(db.codec, row, ids, id)
    requires Fetch(db, row.channelId, id) == Ok(other) && other.messageType != 0 && db.channels(row.channelId).Ok?
    ensures ShowsRow(db, other, db.channels(row.channelId).value, m)
    ensures FirstEntry(previous, id, k) && previous[k] == m
  {
    m := SnapshotOfMessage(db, row.channelId, id, other, fuel - 1);
    var found, channel, author := HiddenFromSnapshots(db, row, fuel, ids, previous);
    k := FoundAt(db, row.channelId, Others(ids, row.messageId), fuel - 1, found, id, m);
    FirstUntouched(db.codec, row, ids, found, channel, author, id);
  }

  lemma {:induction false} FoundAt(db: Database, channelId: int, ids: seq<int>, fuel: nat, found: seq<MessageEvent>,
                                   id: int, m: MessageEvent)
    returns (k: nat)
    requires id in ids && Snapshot(db, channelId, id, fuel) == Value(Some(m))
    requires SnapshotsOf(db, channelId, Resolving(db, channelId, ids, fuel), fuel, found)
    ensures k == FirstWithId(found, id) && k < |found| && found[k] == m
  {
    var resolving := Resolving(db, channelId, ids, fuel);
    assert id in resolving;
    var i :| 0 <= i < |resolving| && resolving[i] == id;
    assert found[i].messageId == id;
    k := FirstWithId(found, id);
    assert resolving[k] == id;
  }

  /** The hidden text of a feed: `previous_message` decrypted with `previous_enc`, both from its metadata. */
  ghost predicate Hides(codec: Codec, row: MessageRow, text: string) {
    && row.messageType == 0 && HasField(codec, row, "previous_message") && HasField(codec, row, "previous_enc")
    && MetadataField(codec, row, "previous_message").String?
    && exists n: nat :: IsU32(codec, MetadataField(codec, row, "previous_enc"), n)
                   && text == codec.decrypt(MetadataField(codec, row, "previous_message").s, n, row.userId)
  }

  lemma {:induction false} HiddenTextMeaning(codec: Codec, row: MessageRow, text: string)
    ensures HiddenText(codec, row) == Some(text) <==> Hides(codec, row, text)
  {
    if row.messageType == 0 && HasField(codec, row, "previous_enc") {
      var metadata, value := codec.parse(row.metadata.value).value, MetadataField(codec, row, "previous_enc");
      forall n: nat ensures MetadataU32(codec, metadata, "previous_enc") == Some(n) <==> IsU32(codec, value, n) {}
    }
  }

  /** The message that a hidden text is meant for: the feed itself if it is listed, or else the first one listed. */
  predicate MeantFor(ids: seq<int>, self: int, id: int) {
    ids != [] && id == if self in ids then self else ids[0]
  }

  /** What is made up for a message that has no snapshot. */
  predicate MadeUp(row: MessageRow, id: int, text: string, channel: Channel, author: Option<Member>, m: MessageEvent) {
    && m.messageId == id && m.threadId == row.threadId && IsScope(row.scope, m.scope)
    && m.messageType == row.messageType && m.channel == channel && m.author == author && m.message == text
    && m.attachmentJson == "{}" && m.modifyLog == []
  }

  /** Where a hidden text goes: into the first entry of its message, or into one made up at the end. */
  lemma {:induction false} TextPlaced(codec: Codec, row: MessageRow, ids: seq<int>, found: seq<MessageEvent>,
                                      channel: Channel, author: Option<Member>, text: string, id: int)
    requires Hides(codec, row, text) && MeantFor(ids, row.messageId, id)
    ensures var previous := Recover(codec, row, ids, found, channel, author);
      && (forall k: nat :: FirstEntry(found, id, k) ==> previous == found[k := found[k].(message := text)])
      && ((forall m :: m in found ==> m.messageId != id) ==>
            |previous| == |found| + 1 && previous[..|found|] == found
            && MadeUp(row, id, text, channel, author, previous[|found|]))
  {
    HiddenTextMeaning(codec, row, text);
    var k := FirstWithId(found, id);
    if k < |found| { assert found[k] in found; }
    forall j: nat | FirstEntry(found, id, j) ensures j == k {}
  }
}
