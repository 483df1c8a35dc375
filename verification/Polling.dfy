/**
 The poller: a cursor over the message table, which grows while it is read. Rows
 appear one at a time; a poll reads the next hundred rows or fails as a whole.
 Mapping a row gives an event or fails, as the database happens to be at the time.
 */
module Polling {
  import opened Wrappers
  import opened Records
  import opened Extremes

  const BATCH_LIMIT := 100

  type Table = t: map<int, MessageRow> | forall id :: id in t ==> t[id].databaseId == id witness map[]

  type Mapper = MessageRow -> Result<Event, DbError>

  /** Rows that arrive by synchronisation are not events. */
  predicate Synchronised(codec: Codec, row: MessageRow) {
    var metadata := if row.metadata.Some? then codec.parse(row.metadata.value) else None;
    var origin := if metadata.Some? then metadata.value.Get("origin") else None;
    origin == Some(String("SYNCMSG")) || origin == Some(String("MCHATLOGS"))
  }

  /** `WHERE _id > after`. */
  function Above(ids: set<int>, after: int): (above: set<int>)
    ensures forall id :: id in above <==> id in ids && id > after
  {
    set id | id in ids && id > after
  }

  /** `WHERE _id > after ORDER BY _id ASC LIMIT limit`. */
  function NextIds(ids: set<int>, after: int, limit: nat): seq<int>
    decreases limit
  {
    if limit == 0 || Above(ids, after) == {} then []
    else
      var first := Least(Above(ids, after));
      [first] + NextIds(ids, first, limit - 1)
  }

  ghost predicate Ascending(s: seq<int>) {
    forall i, j :: 0 <= i < j < |s| ==> s[i] < s[j]
  }

  /** The cursor after a batch. */
  function LastOf(batch: seq<int>, cursor: int): int {
    if batch == [] then cursor else batch[|batch| - 1]
  }

  /** A batch is the ids above the cursor up to its own last one, in order; it is short only if nothing is left. */
  ghost predicate IsBatch(ids: set<int>, after: int, limit: nat, batch: seq<int>) {
    && Ascending(batch) && |batch| <= limit
    && (forall id :: id in batch <==> id in ids && after < id <= LastOf(batch, after))
    && (|batch| < limit ==> Above(ids, LastOf(batch, after)) == {})
  }

  lemma {:induction false} LeastThenAscending(first: int, rest: seq<int>)
    requires Ascending(rest) && forall id :: id in rest ==> first < id
    ensures Ascending([first] + rest)
  {
    forall j | 0 <= j < |rest| ensures first < rest[j] {
      var id := rest[j];
      assert id in rest;
    }
  }

  lemma {:induction false} LeastThenBatch(ids: set<int>, after: int, limit: nat, rest: seq<int>)
    requires Above(ids, after) != {} && IsBatch(ids, Least(Above(ids, after)), limit, rest)
    ensures IsBatch(ids, after, limit + 1, [Least(Above(ids, after))] + rest)
  {
    var first := Least(Above(ids, after));
    var batch := [first] + rest;
    LeastThenAscending(first, rest);
    var last := LastOf(rest, first);
    assert LastOf(batch, after) == last;
    assert first <= last by {
      if rest != [] { assert last in rest; }
    }
    forall id ensures id in batch <==> id in ids && after < id <= last {
      assert id in batch <==> id == first || id in rest;
      assert id in ids && after < id ==> id in Above(ids, after);
    }
  }

  lemma {:induction false} NextIdsMeaning(ids: set<int>, after: int, limit: nat)
    ensures IsBatch(ids, after, limit, NextIds(ids, after, limit))
    decreases limit
  {
    if limit > 0 && Above(ids, after) != {} {
      var first := Least(Above(ids, after));
      NextIdsMeaning(ids, first, limit - 1);
      LeastThenBatch(ids, after, limit - 1, NextIds(ids, first, limit - 1));
    }
  }

  /** The rows with the given ids. */
  function RowsAt(table: Table, ids: seq<int>): (rows: seq<MessageRow>)
    requires forall id :: id in ids ==> id in table
    ensures |rows| == |ids|
    ensures forall i :: 0 <= i < |ids| ==> rows[i].databaseId == ids[i] && ids[i] in table && rows[i] == table[ids[i]]
  {
    if ids == [] then []
    else
      var id := ids[0];
      assert id in ids;
      [table[id]] + RowsAt(table, ids[1..])
  }

  /** `messages_after`. */
  function MessagesAfter(table: Table, cursor: int): (rows: seq<MessageRow>) {
    NextIdsMeaning(table.Keys, cursor, BATCH_LIMIT);
    RowsAt(table, NextIds(table.Keys, cursor, BATCH_LIMIT))
  }

  /** The cursor after some rows. */
  function CursorAfter(rows: seq<MessageRow>, cursor: int): int {
    if rows == [] then cursor else rows[|rows| - 1].databaseId
  }

  /** Rows above the cursor with ascending ids. */
  ghost predicate InOrder(rows: seq<MessageRow>, cursor: int) {
    && (forall i :: 0 <= i < |rows| ==> rows[i].databaseId > cursor)
    && (forall i, j :: 0 <= i < j < |rows| ==> rows[i].databaseId < rows[j].databaseId)
  }

  /** A row of the table with an id above the cursor and not above the last. */
  ghost predicate Between(table: Table, row: MessageRow, cursor: int, last: int) {
    row.databaseId in table && table[row.databaseId] == row && cursor < row.databaseId <= last
  }

  lemma {:induction false} RowsAtMeaning(table: Table, ids: seq<int>, cursor: int)
    requires Ascending(ids)
    requires forall id :: id in ids <==> id in table && cursor < id <= LastOf(ids, cursor)
    ensures CursorAfter(RowsAt(table, ids), cursor) == LastOf(ids, cursor)
    ensures InOrder(RowsAt(table, ids), cursor)
    ensures forall row :: row in RowsAt(table, ids) <==> Between(table, row, cursor, LastOf(ids, cursor))
  {
    var rows := RowsAt(table, ids);
    forall i | 0 <= i < |ids| ensures Between(table, rows[i], cursor, LastOf(ids, cursor)) {
      var id := ids[i];
      assert id in ids;
    }
    forall row: MessageRow | Between(table, row, cursor, LastOf(ids, cursor)) ensures row in rows {
      var id := row.databaseId;
      assert id in ids;
      var i :| 0 <= i < |ids| && ids[i] == id;
      assert rows[i] == row;
    }
  }

  /**
   A poll reads the rows above the cursor up to its own last one, each once and in
   order; it is short only if none is left.
   */
  lemma {:induction false} MessagesAfterMeaning(table: Table, cursor: int)
    ensures var rows := MessagesAfter(table, cursor);
      && InOrder(rows, cursor) && |rows| <= 100
      && (forall row :: row in rows <==> Between(table, row, cursor, CursorAfter(rows, cursor)))
      && (|rows| < 100 ==> Above(table.Keys, CursorAfter(rows, cursor)) == {})
  {
    NextIdsMeaning(table.Keys, cursor, BATCH_LIMIT);
    RowsAtMeaning(table, NextIds(table.Keys, cursor, BATCH_LIMIT), cursor);
  }

  /** A row the poller has taken, and the event it published for it, if any. */
  datatype Handled = Handled(row: MessageRow, event: Option<Event>)

  function Handle(codec: Codec, mapper: Mapper, row: MessageRow): Handled {
    if Synchronised(codec, row) then Handled(row, None)
    else
      match mapper(row)
      case Ok(event) => Handled(row, Some(event))
      case Err(_) => Handled(row, None)
  }

  /** The row's metadata says that it came by synchronisation. */
  predicate FromSync(codec: Codec, row: MessageRow) {
    row.metadata.Some? && codec.parse(row.metadata.value).Some?
    && var json := codec.parse(row.metadata.value).value;
       json.Object? && "origin" in json.fields
       && (json.fields["origin"] == String("SYNCMSG") || json.fields["origin"] == String("MCHATLOGS"))
  }

  /** What a row gives when it is mapped: its event, unless it came by synchronisation or the mapping fails. */
  predicate Gives(codec: Codec, mapper: Mapper, row: MessageRow, event: Option<Event>) {
    if FromSync(codec, row) || mapper(row).Err? then event == None else event == Some(mapper(row).value)
  }

  lemma {:induction false} HandledGives(codec: Codec, mapper: Mapper, row: MessageRow)
    ensures Handle(codec, mapper, row).row == row && Gives(codec, mapper, row, Handle(codec, mapper, row).event)
  {
  }

  function HandleAll(codec: Codec, mapper: Mapper, rows: seq<MessageRow>): (handled: seq<Handled>)
    ensures |handled| == |rows|
    ensures forall i :: 0 <= i < |rows| ==> handled[i] == Handle(codec, mapper, rows[i])
  {
    if rows == [] then [] else [Handle(codec, mapper, rows[0])] + HandleAll(codec, mapper, rows[1..])
  }

  function EventOf(handled: Handled): seq<Event> {
    if handled.event.Some? then [handled.event.value] else []
  }

  /** The events among what was handled, in order. */
  function Published(handled: seq<Handled>): seq<Event> {
    if handled == [] then [] else EventOf(handled[0]) + Published(handled[1..])
  }

  lemma {:induction false} PublishNext(codec: Codec, mapper: Mapper, rows: seq<MessageRow>, i: nat, sent: seq<Event>)
    requires i < |rows|
    ensures sent + Published(HandleAll(codec, mapper, rows[i..]))
         == (sent + EventOf(Handle(codec, mapper, rows[i]))) + Published(HandleAll(codec, mapper, rows[i + 1..]))
  {
    var rest := rows[i..];
    assert rest[0] == rows[i] && rest[1..] == rows[i + 1..];
    assert HandleAll(codec, mapper, rest)[1..] == HandleAll(codec, mapper, rows[i + 1..]);
  }

  /** A handled row is published with its event, if it has one; see PublishedConcat for more than one row. */
  lemma {:induction false} PublishedOne(handled: Handled)
    ensures handled.event.Some? ==> Published([handled]) == [handled.event.value]
    ensures handled.event.None? ==> Published([handled]) == []
  {
    assert [handled][1..] == [];
  }

  lemma {:induction false} PublishedConcat(a: seq<Handled>, b: seq<Handled>)
    ensures Published(a + b) == Published(a) + Published(b)
  {
    if a == [] {
      assert a + b == b;
    } else {
      assert (a + b)[1..] == a[1..] + b;
      PublishedConcat(a[1..], b);
    }
  }

  /** The poller's variables: its cursor and what it has sent. */
  class Poller {
    var lastDatabaseId: int
    var sent: seq<Event>

    /** Starts after the last row of the table, or at 0 if the table is empty or cannot be read. */
    constructor (table: Table, failed: bool)
      ensures sent == []
      ensures failed || table == map[] ==> lastDatabaseId == 0
      ensures !failed ==> forall id :: id in table ==> id <= lastDatabaseId
      ensures !failed && table != map[] ==> lastDatabaseId in table
    {
      lastDatabaseId := if failed then 0 else Latest(table.Keys);
      sent := [];
    }

    /** The body of the row loop. */
    method HandleRow(codec: Codec, row: MessageRow, mapper: Mapper)
      modifies this
      ensures lastDatabaseId == if old(lastDatabaseId) < row.databaseId then row.databaseId else old(lastDatabaseId)
      ensures sent == old(sent) + EventOf(Handle(codec, mapper, row))
      ensures !FromSync(codec, row) && mapper(row).Ok? ==> sent == old(sent) + [mapper(row).value]
      ensures FromSync(codec, row) || mapper(row).Err? ==> sent == old(sent)
    {
      if lastDatabaseId < row.databaseId { lastDatabaseId := row.databaseId; }
      if Synchronised(codec, row) { return; }
      var event := mapper(row);
      if event.Ok? { sent := sent + [event.value]; }
    }

    /** The row loop. */
    method HandleRows(codec: Codec, rows: seq<MessageRow>, mapper: Mapper)
      requires InOrder(rows, lastDatabaseId)
      modifies this
      ensures lastDatabaseId == CursorAfter(rows, old(lastDatabaseId))
      ensures sent == old(sent) + Published(HandleAll(codec, mapper, rows))
    {
      assert rows[0..] == rows;
      for i := 0 to |rows|
        invariant lastDatabaseId == if i == 0 then old(lastDatabaseId) else rows[i - 1].databaseId
        invariant sent + Published(HandleAll(codec, mapper, rows[i..]))
               == old(sent) + Published(HandleAll(codec, mapper, rows))
      {
        PublishNext(codec, mapper, rows, i, sent);
        HandleRow(codec, rows[i], mapper);
      }
      assert rows[|rows|..] == [] && sent + [] == sent;
    }

    /** One turn of the polling loop. */
    method Poll(codec: Codec, table: Table, failed: bool, mapper: Mapper)
      modifies this
      ensures failed ==> lastDatabaseId == old(lastDatabaseId) && sent == old(sent)
      ensures !failed ==> lastDatabaseId == CursorAfter(MessagesAfter(table, old(lastDatabaseId)), old(lastDatabaseId))
      ensures !failed ==>
                sent == old(sent) + Published(HandleAll(codec, mapper, MessagesAfter(table, old(lastDatabaseId))))
    {
      if failed { return; }
      MessagesAfterMeaning(table, lastDatabaseId);
      HandleRows(codec, MessagesAfter(table, lastDatabaseId), mapper);
    }
  }

  /** `COALESCE(MAX(_id), 0)`. */
  function Latest(ids: set<int>): (m: int)
    ensures ids == {} ==> m == 0
    ensures ids != {} ==> m in ids && forall x :: x in ids ==> x <= m
  {
    if ids == {} then 0 else Greatest(ids)
  }
}
