/**
 The mapping as the program runs it: real recursion, no fuel. It is total on the
 rows it ends on (which Termination describes) and computes what Evaluation says.
 `depth` is a depth at which it ends, and is not computed with.
 */
module Mapping {
  import opened Wrappers
  import opened Records
  import opened Evaluation
  import opened Termination
  import opened Batches
  import Feeds
  import Messages

  ghost predicate Agrees<T>(r: Result<T, DbError>, e: Eval<T>) {
    match e
    case OutOfFuel => false
    case Failed(error) => r.Err? && r.error == error
    case Value(value) => r.Ok? && r.value == value
  }

  ghost function AsEvent(feed: Eval<FeedValue>, channel: Channel, author: Option<Member>): Eval<Event> {
    match feed
    case OutOfFuel => OutOfFuel
    case Failed(error) => Failed(error)
    case Value(enriched) => Value(Feed(channel, enriched, author))
  }

  /** Mapping an assembled feed is enriching it. */
  lemma {:induction false} FeedIsEnriched(db: Database, row: MessageRow, depth: nat, channel: Channel,
                                          author: Option<Member>, feed: FeedValue)
    requires depth > 0 && db.channels(row.channelId) == Ok(channel) && author == db.users(row.channelId, row.userId)
    requires Assemble(db.codec, row, channel, author) == Ok(Feed(channel, feed, author))
    ensures References(db, row) == FeedReferences(feed, row.messageId)
    ensures MapRow(db, row, depth) == AsEvent(Enrich(db, row, feed, channel, author, depth - 1), channel, author)
  {
  }

  method MapMessage(db: Database, row: MessageRow, ghost depth: nat) returns (r: Result<Event, DbError>)
    requires !MapRow(db, row, depth).OutOfFuel?
    ensures Agrees(r, MapRow(db, row, depth))
    decreases depth, 0
  {
    var author := db.users(row.channelId, row.userId);
    var found := db.channels(row.channelId);
    if found.Err? { return Err(found.error); }
    var channel := found.value;
    var assembled := Assemble(db.codec, row, channel, author);
    if row.messageType != 0 || assembled.Err? { return assembled; }
    FeedIsEnriched(db, row, depth, channel, author, assembled.value.feed);
    var feed := EnrichFeed(db, row, assembled.value.feed, channel, author, depth - 1);
    r := if feed.Ok? then Ok(assembled.value.(feed := feed.value)) else Err(feed.error);
  }

  method EnrichFeed(db: Database, row: MessageRow, feed: FeedValue, channel: Channel, author: Option<Member>,
                    ghost depth: nat)
    returns (r: Result<FeedValue, DbError>)
    requires !Enrich(db, row, feed, channel, author, depth).OutOfFuel?
    ensures Agrees(r, Enrich(db, row, feed, channel, author, depth))
    decreases depth, 4
  {
    match feed
    case MessageDeleted(id, _) =>
      if id == row.messageId { return Ok(MessageDeleted(id, None)); }
      var snapshot := GetMessageSnapshot(db, row.channelId, id, depth);
      r := if snapshot.Ok? then Ok(MessageDeleted(id, snapshot.value)) else Err(snapshot.error);
    case MessageChanged(id, revision, _) =>
      if id == row.messageId { return Ok(MessageChanged(id, revision, None)); }
      var snapshot := GetMessageSnapshot(db, row.channelId, id, depth);
      r := if snapshot.Ok? then Ok(MessageChanged(id, revision, snapshot.value)) else Err(snapshot.error);
    case MessageHidden(ids, _) =>
      var previous := CollectSnapshots(db, row, ids, depth);
      if previous.Err? { return Err(previous.error); }
      var messages := PlaceHiddenText(db.codec, row, ids, previous.value, channel, author);
      r := Ok(MessageHidden(ids, messages));
    case _ =>
      r := Ok(feed);
  }

  /** Snapshots gathered so far, followed by those still to come. */
  ghost function Prepend(front: seq<MessageEvent>, rest: Eval<seq<MessageEvent>>): Eval<seq<MessageEvent>> {
    match rest
    case OutOfFuel => OutOfFuel
    case Failed(error) => Failed(error)
    case Value(messages) => Value(front + messages)
  }

  ghost function PrependNext(front: seq<MessageEvent>, next: Eval<Option<MessageEvent>>,
                             rest: Eval<seq<MessageEvent>>): Eval<seq<MessageEvent>> {
    match next
    case OutOfFuel => OutOfFuel
    case Failed(error) => Failed(error)
    case Value(None) => Prepend(front, rest)
    case Value(Some(message)) => Prepend(front + [message], rest)
  }

  /** The snapshots of the ids other than the row's own; the first error ends the iteration. */
  method CollectSnapshots(db: Database, row: MessageRow, ids: seq<int>, ghost depth: nat)
    returns (r: Result<seq<MessageEvent>, DbError>)
    requires !Snapshots(db, row.channelId, Others(ids, row.messageId), depth).OutOfFuel?
    ensures Agrees(r, Snapshots(db, row.channelId, Others(ids, row.messageId), depth))
    decreases depth, 3
  {
    var previous: seq<MessageEvent> := [];
    ghost var all := Snapshots(db, row.channelId, Others(ids, row.messageId), depth);
    assert ids[0..] == ids;
    PrependNothing(all);
    for i := 0 to |ids|
      invariant Prepend(previous, Snapshots(db, row.channelId, Others(ids[i..], row.messageId), depth)) == all
    {
      ghost var rest, before := ids[i..], previous;
      assert rest[0] == ids[i] && rest[1..] == ids[i + 1..];
      if ids[i] != row.messageId {
        var id := ids[i];
        OneMoreSnapshot(db, row.channelId, id, Others(ids[i + 1..], row.messageId), depth, before);
        var snapshot := GetMessageSnapshot(db, row.channelId, id, depth);
        if snapshot.Err? { return Err(snapshot.error); }
        if snapshot.value.Some? { previous := previous + [snapshot.value.value]; }
      }
    }
    assert ids[|ids|..] == [] && previous + [] == previous;
    r := Ok(previous);
  }

  lemma {:induction false} PrependNothing(e: Eval<seq<MessageEvent>>)
    ensures Prepend([], e) == e
  {
    if e.Value? { assert [] + e.value == e.value; }
  }

  lemma {:induction false} OneMoreSnapshot(db: Database, channelId: int, id: int, rest: seq<int>, depth: nat,
                                           front: seq<MessageEvent>)
    ensures Prepend(front, Snapshots(db, channelId, [id] + rest, depth))
         == PrependNext(front, Snapshot(db, channelId, id, depth), Snapshots(db, channelId, rest, depth))
  {
    assert ([id] + rest)[1..] == rest;
    var s, later := Snapshot(db, channelId, id, depth), Snapshots(db, channelId, rest, depth);
    if s.Value? && s.value.Some? && later.Value? {
      assert front + ([s.value.value] + later.value) == (front + [s.value.value]) + later.value;
    }
  }

  /** The hidden text, if the row carries one, replaces the text of its target's first snapshot or is added. */
  method PlaceHiddenText(codec: Codec, row: MessageRow, ids: seq<int>, found: seq<MessageEvent>, channel: Channel,
                         author: Option<Member>)
    returns (previous: seq<MessageEvent>)
    ensures previous == Recover(codec, row, ids, found, channel, author)
  {
    previous := found;
    var text, target := HiddenText(codec, row), Target(ids, row.messageId);
    if text.None? || target.None? { return; }
    var k := 0;
    while k < |previous| && previous[k].messageId != target.value
      invariant 0 <= k <= |previous|
      invariant forall i :: 0 <= i < k ==> previous[i].messageId != target.value
    {
      k := k + 1;
    }
    assert k == FirstWithId(previous, target.value);
    if k < |previous| {
      previous := previous[k := previous[k].(message := text.value)];
    } else {
      previous := previous + [Recovered(row, target.value, text.value, channel, author)];
    }
  }

  method GetMessageSnapshot(db: Database, channelId: int, messageId: int, ghost depth: nat)
    returns (r: Result<Option<MessageEvent>, DbError>)
    requires !Snapshot(db, channelId, messageId, depth).OutOfFuel?
    ensures Agrees(r, Snapshot(db, channelId, messageId, depth))
    decreases depth, 2
  {
    var event := GetMessage(db, channelId, messageId, depth);
    match event
    case Ok(e) => r := Ok(Extract(e, messageId));
    case Err(MessageNotFound(_)) => r := Ok(None);
    case Err(error) => r := Err(error);
  }

  /** `get_message`: the rows of a one-element request, of which the first is mapped. */
  method GetMessage(db: Database, channelId: int, messageId: int, ghost depth: nat) returns (r: Result<Event, DbError>)
    requires !Evaluation.GetMessage(db, channelId, messageId, depth).OutOfFuel?
    ensures Agrees(r, Evaluation.GetMessage(db, channelId, messageId, depth))
    decreases depth, 1
  {
    var queries := (k: nat) => db.fault(channelId, messageId);
    var rows := Messages.GetMessageRows(db, channelId, [messageId], queries);
    Messages.SingleLookUp(db, channelId, messageId);
    NoFault(queries, 0, Messages.QueryCount([messageId]));
    if rows.Err? { return Err(rows.error); }
    assert |rows.value| == 1;
    r := MapMessage(db, rows.value[0], depth);
  }

  /** Queries that all behave alike fail at once or not at all. */
  lemma {:induction false} NoFault(queries: Queries, first: nat, n: nat)
    requires n > 0 && forall k: nat :: queries(k) == queries(0)
    ensures FirstFault(queries, first, n) == queries(0)
    decreases n
  {
    if n > 1 { NoFault(queries, first + 1, n - 1); }
  }

  /** The events of rows, in order; the first failing row ends the iteration. */
  ghost function MapAll(db: Database, rows: seq<MessageRow>, fuel: nat): Eval<seq<Event>> {
    if rows == [] then Value([])
    else
      match MapRow(db, rows[0], fuel)
      case OutOfFuel => OutOfFuel
      case Failed(error) => Failed(error)
      case Value(first) =>
        match MapAll(db, rows[1..], fuel)
        case OutOfFuel => OutOfFuel
        case Failed(error) => Failed(error)
        case Value(rest) => Value([first] + rest)
  }

  /** `get_messages`: all rows are fetched before any is mapped. */
  ghost function GetAll(db: Database, channelId: int, messageIds: seq<int>, fuel: nat): Eval<seq<Event>> {
    match Messages.LookUp(db, channelId, messageIds)
    case Err(error) => Failed(error)
    case Ok(rows) => MapAll(db, rows, fuel)
  }

  method GetMessages(db: Database, channelId: int, messageIds: seq<int>, queries: Queries, ghost depth: nat)
    returns (r: Result<seq<Event>, DbError>)
    requires !GetAll(db, channelId, messageIds, depth).OutOfFuel?
    ensures messageIds == [] ==> r == Ok([])
    ensures messageIds != [] ==>
              var fault := FirstFault(queries, 0, Messages.QueryCount(messageIds));
              if fault.Some? then r.Err? && r.error == fault.value
              else Agrees(r, GetAll(db, channelId, messageIds, depth))
  {
    var rows := Messages.GetMessageRows(db, channelId, messageIds, queries);
    if rows.Err? { return Err(rows.error); }
    r := MapRows(db, rows.value, depth);
  }

  /** The events are those of the rows, position by position. */
  ghost predicate MappedTo(db: Database, rows: seq<MessageRow>, events: seq<Event>, fuel: nat) {
    && |events| <= |rows|
    && forall j :: 0 <= j < |events| ==> MapRow(db, rows[j], fuel) == Value(events[j])
  }

  method MapRows(db: Database, rows: seq<MessageRow>, ghost depth: nat) returns (r: Result<seq<Event>, DbError>)
    requires !MapAll(db, rows, depth).OutOfFuel?
    ensures Agrees(r, MapAll(db, rows, depth))
  {
    var events: seq<Event> := [];
    for i := 0 to |rows|
      invariant |events| == i && MappedTo(db, rows, events, depth)
    {
      MapAllStuck(db, rows, depth, events);
      var event := MapMessage(db, rows[i], depth);
      if event.Err? {
        MapAllFails(db, rows, depth, events, event.error);
        return Err(event.error);
      }
      OneMoreEvent(db, rows, events, depth, event.value);
      events := events + [event.value];
    }
    MapAllSucceeds(db, rows, depth, events);
    r := Ok(events);
  }

  lemma {:induction false} OneMoreEvent(db: Database, rows: seq<MessageRow>, events: seq<Event>, fuel: nat,
                                        event: Event)
    requires MappedTo(db, rows, events, fuel) && |events| < |rows| && MapRow(db, rows[|events|], fuel) == Value(event)
    ensures MappedTo(db, rows, events + [event], fuel)
  {
  }

  /** If all rows are mapped to an end, each is that comes before the first failure. */
  lemma {:induction false} MapAllStuck(db: Database, rows: seq<MessageRow>, fuel: nat, events: seq<Event>)
    requires MappedTo(db, rows, events, fuel) && |events| < |rows| && !MapAll(db, rows, fuel).OutOfFuel?
    ensures !MapRow(db, rows[|events|], fuel).OutOfFuel?
    decreases rows
  {
    if events != [] { MapAllStuck(db, rows[1..], fuel, events[1..]); }
  }

  lemma {:induction false} MapAllSucceeds(db: Database, rows: seq<MessageRow>, fuel: nat, events: seq<Event>)
    requires MappedTo(db, rows, events, fuel) && |events| == |rows|
    ensures MapAll(db, rows, fuel) == Value(events)
    decreases rows
  {
    if rows != [] {
      MapAllSucceeds(db, rows[1..], fuel, events[1..]);
      assert events == [events[0]] + events[1..];
    }
  }

  lemma {:induction false} MapAllFails(db: Database, rows: seq<MessageRow>, fuel: nat, events: seq<Event>,
                                       error: DbError)
    requires MappedTo(db, rows, events, fuel) && |events| < |rows| && MapRow(db, rows[|events|], fuel) == Failed(error)
    ensures MapAll(db, rows, fuel) == Failed(error)
    decreases rows
  {
    if events != [] { MapAllFails(db, rows[1..], fuel, events[1..], error); }
  }

  /** Mapping rows that are there reports no missing message. */
  lemma {:induction false} MapAllNeverMissing(db: Database, rows: seq<MessageRow>, fuel: nat)
    ensures var all := MapAll(db, rows, fuel); all.Failed? ==> !all.error.MessageNotFound?
    decreases rows
  {
    if rows != [] {
      MapAllNeverMissing(db, rows[1..], fuel);
      var first := MapRow(db, rows[0], fuel);
      if first.Failed? && first.error.MessageNotFound? {
        NeverMessageNotFound(db, rows[0], fuel, first.error.messageId);
      }
    }
  }

  /** Every id of a list is mapped on its own to the event at its position. */
  ghost predicate EventsOf(db: Database, channelId: int, messageIds: seq<int>, fuel: nat, events: seq<Event>) {
    && |events| == |messageIds|
    && forall i :: 0 <= i < |messageIds| ==>
         Evaluation.GetMessage(db, channelId, messageIds[i], fuel) == Value(events[i])
  }

  /** The requests made one by one, until one fails. */
  ghost function Singles(db: Database, channelId: int, messageIds: seq<int>, fuel: nat): Eval<seq<Event>> {
    if messageIds == [] then Value([])
    else
      match Evaluation.GetMessage(db, channelId, messageIds[0], fuel)
      case OutOfFuel => OutOfFuel
      case Failed(error) => Failed(error)
      case Value(first) =>
        match Singles(db, channelId, messageIds[1..], fuel)
        case OutOfFuel => OutOfFuel
        case Failed(error) => Failed(error)
        case Value(rest) => Value([first] + rest)
  }

  /** Every one of the first n ids is mapped to an event. */
  ghost predicate EarlierMapped(db: Database, channelId: int, messageIds: seq<int>, n: nat, fuel: nat) {
    n <= |messageIds|
    && forall j :: 0 <= j < n ==> Evaluation.GetMessage(db, channelId, messageIds[j], fuel).Value?
  }

  lemma {:induction false} PresentIsFetched(db: Database, channelId: int, id: int, fuel: nat)
    requires db.fault(channelId, id).None?
    ensures var table := Messages.ChannelRows(db, channelId);
            Evaluation.GetMessage(db, channelId, id, fuel) ==
              if id in table then MapRow(db, table[id], fuel) else Failed(MessageNotFound(id))
  {
    var table := Messages.ChannelRows(db, channelId);
    assert id in table <==> (channelId, id) in db.rows;
    assert id in table ==> table[id] == db.rows[(channelId, id)];
  }

  lemma {:induction false} MapAllIsSingles(db: Database, channelId: int, ids: seq<int>, rows: seq<MessageRow>,
                                           fuel: nat)
    requires forall id :: id in ids ==> db.fault(channelId, id).None?
    requires RecordsOf(Messages.ChannelRows(db, channelId), ids, rows)
    ensures MapAll(db, rows, fuel) == Singles(db, channelId, ids, fuel)
    decreases ids
  {
    if ids != [] {
      var id := ids[0];
      assert id in ids;
      PresentIsFetched(db, channelId, id, fuel);
      MapAllIsSingles(db, channelId, ids[1..], rows[1..], fuel);
    }
  }

  lemma {:induction false} SinglesUpToAbsent(db: Database, channelId: int, ids: seq<int>, i: nat, fuel: nat)
    requires forall id :: id in ids ==> db.fault(channelId, id).None?
    requires FirstAbsent(Messages.ChannelRows(db, channelId), ids, i)
    ensures Singles(db, channelId, ids, fuel) == Failed(MessageNotFound(ids[i])) <==>
              EarlierMapped(db, channelId, ids, i, fuel)
    decreases ids
  {
    var id := ids[0];
    assert id in ids;
    PresentIsFetched(db, channelId, id, fuel);
    if i > 0 {
      NeverMessageNotFound(db, Messages.ChannelRows(db, channelId)[id], fuel, ids[i]);
      SinglesUpToAbsent(db, channelId, ids[1..], i - 1, fuel);
      EarlierMappedCons(db, channelId, ids, i, fuel);
    }
  }

  lemma {:induction false} EarlierMappedCons(db: Database, channelId: int, ids: seq<int>, n: nat, fuel: nat)
    requires 0 < n <= |ids|
    ensures EarlierMapped(db, channelId, ids, n, fuel) <==>
              Evaluation.GetMessage(db, channelId, ids[0], fuel).Value?
              && EarlierMapped(db, channelId, ids[1..], n - 1, fuel)
  {
    var rest := ids[1..];
    assert forall j :: 0 < j < n ==> ids[j] == rest[j - 1];
    assert forall j :: 0 <= j < n - 1 ==> rest[j] == ids[j + 1];
  }

  /**
   When a bulk request answers what requests made one by one would, errors
   included: always if every message is there; and if one is missing, exactly if
   every message before the first missing one can be mapped, since the bulk request
   names the missing one in any case.
   */
  lemma {:induction false} BulkAgreesWithSingles(db: Database, channelId: int, messageIds: seq<int>, fuel: nat)
    returns (i: nat)
    requires forall id :: id in messageIds ==> db.fault(channelId, id).None?
    ensures var bulk, table := GetAll(db, channelId, messageIds, fuel), Messages.ChannelRows(db, channelId);
      if i == |messageIds| then
        && (forall id :: id in messageIds ==> id in table)
        && bulk == Singles(db, channelId, messageIds, fuel) && (bulk.Failed? ==> !bulk.error.MessageNotFound?)
      else
        && FirstAbsent(table, messageIds, i) && bulk == Failed(MessageNotFound(messageIds[i]))
        && (bulk == Singles(db, channelId, messageIds, fuel) <==> EarlierMapped(db, channelId, messageIds, i, fuel))
  {
    var table := Messages.ChannelRows(db, channelId);
    i := OneByOneMeaning(table, messageIds);
    if FirstAbsent(table, messageIds, i) {
      SinglesUpToAbsent(db, channelId, messageIds, i, fuel);
    } else {
      var rows := OneByOne(table, messageIds).value;
      MapAllIsSingles(db, channelId, messageIds, rows, fuel);
      MapAllNeverMissing(db, rows, fuel);
    }
  }

  /** The events of single requests are those of the ids, position by position. */
  lemma {:induction false} SinglesMeaning(db: Database, channelId: int, messageIds: seq<int>, fuel: nat)
    ensures var r := Singles(db, channelId, messageIds, fuel);
      && (r.Value? <==> EarlierMapped(db, channelId, messageIds, |messageIds|, fuel))
      && (r.Value? ==> EventsOf(db, channelId, messageIds, fuel, r.value))
    decreases messageIds
  {
    if messageIds != [] {
      var rest := messageIds[1..];
      SinglesMeaning(db, channelId, rest, fuel);
      assert forall j :: 0 < j < |messageIds| ==> messageIds[j] == rest[j - 1];
      assert forall j :: 0 <= j < |rest| ==> rest[j] == messageIds[j + 1];
    }
  }

  /** A feed that cannot be parsed, asked for before a message that is missing: the two ways report different errors. */
  lemma {:induction false} BulkErrorDiffers(fuel: nat) returns (db: Database)
    requires fuel > 0
    ensures db.Valid() && forall id :: db.fault(1, id).None?
    ensures GetAll(db, 1, [1, 2], fuel) == Failed(MessageNotFound(2))
    ensures Singles(db, 1, [1, 2], fuel) == Failed(MessageMapping(InvalidFeedJson))
  {
    var row := Deletion(1, "");
    db := MutualDeletions().(rows := map[(1, 1) := row], codec := MutualDeletions().codec.(parse := text => None));
    var ids: seq<int> := [1, 2];
    var table := Messages.ChannelRows(db, 1);
    assert 1 in table && 2 !in table && FirstAbsent(table, ids, 1);
    AbsentAt(table, ids, 1);
    assert Feeds.Parse(db.codec, "", None, 1) == Err(InvalidFeedJson);
    assert MapRow(db, row, fuel) == Failed(MessageMapping(InvalidFeedJson));
    PresentIsFetched(db, 1, ids[0], fuel);
  }
}
