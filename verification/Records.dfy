/** Database rows, protocol messages and errors. */
module Records {
  import opened Wrappers

  const I64_MIN := -0x8000_0000_0000_0000
  const I64_MAX := 0x7FFF_FFFF_FFFF_FFFF
  const U32_MODULUS := 0x1_0000_0000

  datatype Json =
    | Null
    | Bool(b: bool)
    | Integer(n: int)
    | Float
    | String(s: string)
    | Array(items: seq<Json>)
    | Object(fields: map<string, Json>)
  {
    /** `value.get(field)`: only objects have fields. */
    function Get(field: string): Option<Json> {
      if Object? && field in fields then Some(fields[field]) else None
    }

    function AsI64(): Option<int> {
      if Integer? && I64_MIN <= n <= I64_MAX then Some(n) else None
    }

    function AsU64(): Option<nat> {
      if Integer? && 0 <= n <= U64_MAX then Some(n) else None
    }
  }

  datatype MessageRow = MessageRow(
    databaseId: int, messageId: int, messageType: int, channelId: int, userId: int,
    message: Option<string>, attachment: Option<string>, metadata: Option<string>,
    threadId: Option<int>, scope: int)

  datatype OpenChannelExtra = OpenChannelExtra(profileType: int, linkMemberType: int, profileLinkId: int)
  datatype Member = Member(
    id: int, isMine: bool, nickname: string, profileImageUrl: Option<string>, openChannel: Option<OpenChannelExtra>)
  datatype Channel = Channel(id: int, channelType: string, name: Option<string>, privateName: Option<string>)
  datatype MessageRevision = MessageRevision(revision: int, message: string)
  datatype MessageEvent = MessageEvent(
    messageId: int, threadId: Option<int>, scope: int, messageType: int, channel: Channel, author: Option<Member>,
    message: string, attachmentJson: string, modifyLog: seq<MessageRevision>)

  datatype FeedUser = FeedUser(id: int, nickname: string)
  datatype FeedValue =
    | UserJoined(joinedUsers: seq<FeedUser>)
    | UserLeft(leftMember: Option<FeedUser>)
    | UserKicked(kickedUser: Option<FeedUser>, kickedBy: Option<Member>)
    | MessageDeleted(deletedId: int, previousMessage: Option<MessageEvent>)
    | MessageChanged(changedId: int, targetRevision: int, changedMessage: Option<MessageEvent>)
    | MessageHidden(messageIds: seq<int>, previousMessages: seq<MessageEvent>)
    | HostChanged(previousHost: Option<FeedUser>, newHost: Option<FeedUser>)
    | ModeratorAdded(added: Option<FeedUser>)
    | ModeratorRemoved(removed: Option<FeedUser>)
    | ManagerSpeakerMode(enabled: bool)
    | OpenLinkDeleted
    | UnknownFeed(rawJson: string)

  /** The generated message types make every level optional; the mapping always fills them in. */
  datatype Event =
    | Message(message: MessageEvent)
    | Feed(channel: Channel, feed: FeedValue, author: Option<Member>)

  datatype FeedError =
    | InvalidFeedJson
    | MissingArray(arrayField: string)
    | MissingInteger(integerField: string)
    | InvalidSpeakerMode(mode: int)

  datatype DbError =
    | Pool
    | Sqlite
    | MemberNotFound(userId: int)
    | MessageNotFound(messageId: int)
    | MessageMapping(reason: FeedError)

  /** What connecting, querying and looking up channels and members can fail with. */
  type LookupError = e: DbError | e.Pool? || e.Sqlite? || e.MemberNotFound? witness Sqlite

  /**
   The library calls of the mapping: reading and printing JSON, `str::parse` for
   i64 and u32, and decryption for a user. They are arbitrary functions of their
   arguments.
   */
  datatype Codec = Codec(
    parse: string -> Option<Json>,
    render: Json -> string,
    parseI64: string -> Option<int>,
    parseU32: string -> Option<nat>,
    decrypt: (string, nat, int) -> string)

  /** The database during one request: `fault` is what querying for one message fails with, if it fails. */
  datatype Database = Database(
    codec: Codec,
    rows: map<(int, int), MessageRow>,
    fault: (int, int) -> Option<LookupError>,
    channels: int -> Result<Channel, LookupError>,
    users: (int, int) -> Option<Member>)
  {
    /** Rows are found under their own channel and message id. */
    ghost predicate Valid() {
      forall k :: k in rows ==> rows[k].channelId == k.0 && rows[k].messageId == k.1
    }
  }
}
