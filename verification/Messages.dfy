/** `get_message_rows`: fetching message rows in bulk. */
module Messages {
  import opened Wrappers
  import opened Records
  import opened Batches

  /** The messages of one channel, by id. */
  function ChannelRows(db: Database, channelId: int): map<int, MessageRow> {
    map k | k in db.rows && k.0 == channelId :: k.1 := db.rows[k]
  }

  /** The rows of the given ids fetched one by one. */
  function LookUp(db: Database, channelId: int, messageIds: seq<int>): Result<seq<MessageRow>, DbError> {
    match OneByOne(ChannelRows(db, channelId), messageIds)
    case Ok(rows) => Ok(rows)
    case Err(id) => Err(MessageNotFound(id))
  }

  /** Queries of a bulk request: the connection, then one for each chunk of distinct ids. */
  ghost function QueryCount(messageIds: seq<int>): nat {
    1 + Chunks(|Elements(messageIds)|)
  }

  /**
   The bulk request answers what fetching one by one would, whatever the order of
   the hash set; it fails in another way only if one of its queries fails.
   */
  method GetMessageRows(db: Database, channelId: int, messageIds: seq<int>, queries: Queries)
    returns (r: Result<seq<MessageRow>, DbError>)
    ensures messageIds == [] ==> r == Ok([])
    ensures messageIds != [] ==>
              var fault := FirstFault(queries, 0, QueryCount(messageIds));
              r == if fault.Some? then Err(fault.value) else LookUp(db, channelId, messageIds)
  {
    if messageIds == [] { return Ok([]); }
    FirstFaultSplit(queries, 0, 1, Chunks(|Elements(messageIds)|));
    if queries(0).Some? { return Err(queries(0).value); }
    var uniqueIds := Listing(Elements(messageIds));
    var table := ChannelRows(db, channelId);
    var messages := Load(table, uniqueIds, queries, 1, map[]);
    if messages.Err? { return Err(messages.error); }
    var rows := Expand(messages.value, messageIds);
    OneByOneAgrees(messages.value, table, messageIds);
    r := if rows.Ok? then Ok(rows.value) else Err(MessageNotFound(rows.error));
  }

  /** A one-element request that succeeds holds its row, so `get_message` never falls back on its own error. */
  lemma {:induction false} SingleLookUp(db: Database, channelId: int, messageId: int)
    ensures LookUp(db, channelId, [messageId]) ==
            if (channelId, messageId) in db.rows then Ok([db.rows[(channelId, messageId)]])
            else Err(MessageNotFound(messageId))
  {
    var table := ChannelRows(db, channelId);
    assert (channelId, messageId) in db.rows ==> messageId in table;
    assert messageId in table ==> table[messageId] == db.rows[(channelId, messageId)];
    if messageId in table {
      AllPresent(table, [messageId], [table[messageId]]);
    } else {
      AbsentAt(table, [messageId], 0);
    }
  }

  /** A bulk request asks for the connection and for every 500 distinct ids. */
  lemma {:induction false} QueryCountMeaning(messageIds: seq<int>)
    ensures QueryCount(messageIds) == 1 + CeilDiv(|set id | id in messageIds|, 500)
  {
    ChunksMeaning(|Elements(messageIds)|);
  }
}
