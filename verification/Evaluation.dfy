/**
 Mapping a row to an event, as a fuel-indexed evaluator: the recursion
 map_message -> enrich_feed -> get_message_snapshot -> get_message -> map_message
 follows references between rows, and nothing but a direct self-reference is
 guarded. `OutOfFuel` means the recursion went deeper than the fuel.
 */
module Evaluation {
  import opened Wrappers
  import opened Records
  import opened Revisions
  import Feeds

  datatype Eval<+T> = OutOfFuel | Failed(error: DbError) | Value(value: T)

  function MapScope(scope: int): int {
    if 1 <= scope <= 3 then scope else 0
  }

  function ParseMetadata(codec: Codec, row: MessageRow): Option<Json> {
    if row.metadata.Some? then codec.parse(row.metadata.value) else None
  }

  /** `hidden_message_from_metadata`: the hidden text a row carries, if its metadata is usable. */
  function HiddenText(codec: Codec, row: MessageRow): Option<string> {
    if row.messageType != 0 then None
    else
      match ParseMetadata(codec, row)
      case None => None
      case Some(metadata) =>
        match (metadata.Get("previous_message"), MetadataU32(codec, metadata, "previous_enc"))
        case (Some(String(ciphertext)), Some(enc)) => Some(codec.decrypt(ciphertext, enc, row.userId))
        case _ => None
  }

  /** The cipher selector of a row: a 64-bit integer truncated to 32 bits, or 0. */
  function Enc(metadata: Option<Json>): nat {
    match metadata
    case None => 0
    case Some(json) =>
      match json.Get("enc")
      case None => 0
      case Some(value) =>
        match value.AsU64()
        case Some(n) => n % U32_MODULUS
        case None => 0
  }

  /** A text column decrypted for the row's author; a missing one is empty. */
  function Plain(codec: Codec, row: MessageRow, text: Option<string>): string {
    match text
    case Some(ciphertext) => codec.decrypt(ciphertext, Enc(ParseMetadata(codec, row)), row.userId)
    case None => ""
  }

  function AttachmentJson(codec: Codec, attachment: string): string {
    match codec.parse(attachment)
    case Some(json) => codec.render(json)
    case None => codec.render(Object(map[]))
  }

  /** `assemble_message`. */
  function Assemble(codec: Codec, row: MessageRow, channel: Channel, author: Option<Member>): Result<Event, DbError> {
    var message := Plain(codec, row, row.message);
    if row.messageType == 0 then
      match Feeds.Parse(codec, message, author, row.messageId)
      case Ok(feed) => Ok(Feed(channel, feed, author))
      case Err(reason) => Err(MessageMapping(reason))
    else
      Ok(Message(MessageEvent(
        row.messageId, row.threadId, MapScope(row.scope), row.messageType, channel, author, message,
        AttachmentJson(codec, Plain(codec, row, row.attachment)),
        ModifyLog(codec, ParseMetadata(codec, row), row.userId))))
  }

  /** `get_message_rows` for one id (see Messages.LookUp for lists). */
  function Fetch(db: Database, channelId: int, messageId: int): Result<MessageRow, DbError> {
    match db.fault(channelId, messageId)
    case Some(error) => Err(error)
    case None =>
      if (channelId, messageId) in db.rows then Ok(db.rows[(channelId, messageId)]) else Err(MessageNotFound(messageId))
  }

  /** The ids other than a row's own. */
  function Others(ids: seq<int>, self: int): (others: seq<int>)
    ensures forall id :: id in others <==> id in ids && id != self
  {
    if ids == [] then []
    else if ids[0] == self then Others(ids[1..], self)
    else [ids[0]] + Others(ids[1..], self)
  }

  /** The message hidden by a row that carries a hidden text: itself if listed, else the first one listed. */
  function Target(ids: seq<int>, self: int): Option<int> {
    if self in ids then Some(self) else if ids == [] then None else Some(ids[0])
  }

  /** Position of the first message with an id; the length if there is none. */
  function FirstWithId(messages: seq<MessageEvent>, id: int): (k: nat)
    ensures k <= |messages|
    ensures k < |messages| ==> messages[k].messageId == id
    ensures forall i :: 0 <= i < k ==> messages[i].messageId != id
  {
    if messages == [] then 0
    else if messages[0].messageId == id then 0
    else 1 + FirstWithId(messages[1..], id)
  }

  /** The entry made up for a hidden message that no snapshot was found for. */
  function Recovered(row: MessageRow, id: int, text: string, channel: Channel, author: Option<Member>): MessageEvent {
    MessageEvent(id, row.threadId, MapScope(row.scope), row.messageType, channel, author, text, "{}", [])
  }

  /** The hidden text of the row put under its target. */
  function Recover(codec: Codec, row: MessageRow, ids: seq<int>, found: seq<MessageEvent>, channel: Channel,
                   author: Option<Member>): seq<MessageEvent>
  {
    match (HiddenText(codec, row), Target(ids, row.messageId))
    case (Some(text), Some(id)) =>
      var k := FirstWithId(found, id);
      if k < |found| then found[k := found[k].(message := text)]
      else found + [Recovered(row, id, text, channel, author)]
    case _ => found
  }

  /** `map_message`. */
  function MapRow(db: Database, row: MessageRow, fuel: nat): Eval<Event>
    decreases fuel, 0
  {
    if fuel == 0 then OutOfFuel
    else
      match db.channels(row.channelId)
      case Err(error) => Failed(error)
      case Ok(channel) =>
        var author := db.users(row.channelId, row.userId);
        match Assemble(db.codec, row, channel, author)
        case Err(error) => Failed(error)
        case Ok(Message(message)) => Value(Message(message))
        case Ok(Feed(_, feed, _)) =>
          match Enrich(db, row, feed, channel, author, fuel - 1)
          case OutOfFuel => OutOfFuel
          case Failed(error) => Failed(error)
          case Value(enriched) => Value(Feed(channel, enriched, author))
  }

  /** `enrich_feed`. */
  function Enrich(db: Database, row: MessageRow, feed: FeedValue, channel: Channel, author: Option<Member>,
                  fuel: nat): Eval<FeedValue>
    decreases fuel, 4
  {
    match feed
    case MessageDeleted(id, _) =>
      if id == row.messageId then Value(MessageDeleted(id, None))
      else
        (match Snapshot(db, row.channelId, id, fuel)
         case OutOfFuel => OutOfFuel
         case Failed(error) => Failed(error)
         case Value(snapshot) => Value(MessageDeleted(id, snapshot)))
    case MessageChanged(id, revision, _) =>
      if id == row.messageId then Value(MessageChanged(id, revision, None))
      else
        (match Snapshot(db, row.channelId, id, fuel)
         case OutOfFuel => OutOfFuel
         case Failed(error) => Failed(error)
         case Value(snapshot) => Value(MessageChanged(id, revision, snapshot)))
    case MessageHidden(ids, _) =>
      (match Snapshots(db, row.channelId, Others(ids, row.messageId), fuel)
       case OutOfFuel => OutOfFuel
       case Failed(error) => Failed(error)
       case Value(found) => Value(MessageHidden(ids, Recover(db.codec, row, ids, found, channel, author))))
    case _ => Value(feed)
  }

  /** The snapshots that resolve, in order; the first error ends the iteration. */
  function Snapshots(db: Database, channelId: int, ids: seq<int>, fuel: nat): Eval<seq<MessageEvent>>
    decreases fuel, 3, |ids|
  {
    if ids == [] then Value([])
    else
      match Snapshot(db, channelId, ids[0], fuel)
      case OutOfFuel => OutOfFuel
      case Failed(error) => Failed(error)
      case Value(first) =>
        match Snapshots(db, channelId, ids[1..], fuel)
        case OutOfFuel => OutOfFuel
        case Failed(error) => Failed(error)
        case Value(rest) => Value(if first.Some? then [first.value] + rest else rest)
  }

  /** What a snapshot takes from a mapped event. */
  function Extract(event: Event, messageId: int): Option<MessageEvent> {
    match event
    case Message(message) => Some(message)
    case Feed(_, MessageHidden(_, previous), _) =>
      var k := FirstWithId(previous, messageId);
      if k < |previous| then Some(previous[k]) else None
    case Feed(_, _, _) => None
  }

  /** `get_message_snapshot`: a missing message is no snapshot, every other error is passed on. */
  function Snapshot(db: Database, channelId: int, messageId: int, fuel: nat): Eval<Option<MessageEvent>>
    decreases fuel, 2
  {
    match GetMessage(db, channelId, messageId, fuel)
    case OutOfFuel => OutOfFuel
    case Value(event) => Value(Extract(event, messageId))
    case Failed(MessageNotFound(_)) => Value(None)
    case Failed(error) => Failed(error)
  }

  /** `get_message`. */
  function GetMessage(db: Database, channelId: int, messageId: int, fuel: nat): Eval<Event>
    decreases fuel, 1
  {
    match Fetch(db, channelId, messageId)
    case Err(error) => Failed(error)
    case Ok(row) => MapRow(db, row, fuel)
  }
}
