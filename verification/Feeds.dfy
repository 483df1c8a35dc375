/** Feed payloads: the JSON a type-0 message carries. */
module Feeds {
  import opened Wrappers
  import opened Records

  const OPEN_CHAT_REWRITE_TYPE := 13

  /** `json_id`: a JSON integer, or a string holding one. */
  function JsonId(codec: Codec, value: Json): Option<int> {
    match value.AsI64()
    case Some(n) => Some(n)
    case None => if value.String? then codec.parseI64(value.s) else None
  }

  function GetId(codec: Codec, value: Json, field: string): Option<int> {
    match value.Get(field)
    case Some(v) => JsonId(codec, v)
    case None => None
  }

  function ParseUser(codec: Codec, value: Json): Option<FeedUser> {
    var id := GetId(codec, value, "userId");
    var nickname := value.Get("nickName");
    if id.Some? && nickname.Some? && nickname.value.String? then Some(FeedUser(id.value, nickname.value.s)) else None
  }

  function GetUser(codec: Codec, value: Json, field: string): Option<FeedUser> {
    match value.Get(field)
    case Some(v) => ParseUser(codec, v)
    case None => None
  }

  function ParseUsers(codec: Codec, values: seq<Json>): seq<FeedUser> {
    if values == [] then []
    else
      var rest := ParseUsers(codec, values[1..]);
      match ParseUser(codec, values[0])
      case Some(user) => [user] + rest
      case None => rest
  }

  /** The ids in `chatLogInfos`: entries without a usable `logId` are skipped. */
  function ParseLogIds(codec: Codec, values: seq<Json>): seq<int> {
    if values == [] then []
    else
      var rest := ParseLogIds(codec, values[1..]);
      match GetId(codec, values[0], "logId")
      case Some(id) => [id] + rest
      case None => rest
  }

  function RequiredArray(value: Json, field: string): Result<seq<Json>, FeedError> {
    match value.Get(field)
    case Some(Array(items)) => Ok(items)
    case _ => Err(MissingArray(field))
  }

  function RequiredId(codec: Codec, value: Json, field: string): Result<int, FeedError> {
    match GetId(codec, value, field)
    case Some(id) => Ok(id)
    case None => Err(MissingInteger(field))
  }

  function GetI64(value: Json, field: string): Option<int> {
    match value.Get(field)
    case Some(v) => v.AsI64()
    case None => None
  }

  function RequiredI64(value: Json, field: string): Result<int, FeedError> {
    match GetI64(value, field)
    case Some(n) => Ok(n)
    case None => Err(MissingInteger(field))
  }

  function FeedTypeId(json: Json): int {
    match GetI64(json, "feedType")
    case Some(n) => n
    case None => 0
  }

  function Parse(codec: Codec, raw: string, author: Option<Member>,
                 currentMessageId: int): Result<FeedValue, FeedError> {
    match codec.parse(raw)
    case None => Err(InvalidFeedJson)
    case Some(json) => ParseValue(codec, json, author, currentMessageId)
  }

  function ParseValue(codec: Codec, json: Json, author: Option<Member>,
                      currentMessageId: int): Result<FeedValue, FeedError> {
    match FeedTypeId(json)
    case 1 | 4 =>
      (match RequiredArray(json, "members")
       case Ok(values) => Ok(UserJoined(ParseUsers(codec, values)))
       case Err(e) => Err(e))
    case 2 => Ok(UserLeft(GetUser(codec, json, "member")))
    case 5 => Ok(OpenLinkDeleted)
    case 6 => Ok(UserKicked(GetUser(codec, json, "member"), author))
    case 11 => Ok(ModeratorAdded(GetUser(codec, json, "member")))
    case 12 => Ok(ModeratorRemoved(GetUser(codec, json, "member")))
    case 13 => Ok(MessageHidden([currentMessageId], []))
    case 14 =>
      (match RequiredId(codec, json, "logId")
       case Ok(id) => Ok(MessageDeleted(id, None))
       case Err(e) => Err(e))
    case 15 => Ok(HostChanged(GetUser(codec, json, "prevHost"), GetUser(codec, json, "newHost")))
    case 25 =>
      (match RequiredId(codec, json, "logId")
       case Err(e) => Err(e)
       case Ok(id) =>
         match RequiredI64(json, "targetRevision")
         case Err(e) => Err(e)
         case Ok(revision) => Ok(MessageChanged(id, revision, None)))
    case 26 =>
      (match RequiredArray(json, "chatLogInfos")
       case Ok(values) => Ok(MessageHidden(ParseLogIds(codec, values), []))
       case Err(e) => Err(e))
    case 27 =>
      (match RequiredI64(json, "eventType")
       case Err(e) => Err(e)
       case Ok(mode) =>
         if mode == 1 || mode == 2 then Ok(ManagerSpeakerMode(mode == 1)) else Err(InvalidSpeakerMode(mode)))
    case _ => Ok(UnknownFeed(codec.render(json)))
  }

  /** A JSON object with a value under a name. */
  predicate Has(json: Json, field: string, value: Json) {
    json.Object? && field in json.fields && json.fields[field] == value
  }

  predicate Lacks(json: Json, field: string) {
    json.Object? ==> field !in json.fields
  }

  predicate IsI64(value: Json, n: int) {
    value == Integer(n) && -0x8000_0000_0000_0000 <= n <= 0x7FFF_FFFF_FFFF_FFFF
  }

  /** An id is a 64-bit integer, or a string that reads as one. */
  predicate IsId(codec: Codec, value: Json, id: int) {
    IsI64(value, id) || (value.String? && codec.parseI64(value.s) == Some(id))
  }

  /** A user has a `userId` and a `nickName`. */
  predicate IsUser(codec: Codec, value: Json, user: FeedUser) {
    value.Object? && "userId" in value.fields && IsId(codec, value.fields["userId"], user.id)
    && Has(value, "nickName", String(user.nickname))
  }

  ghost predicate IsUserOf(codec: Codec, json: Json, field: string, found: Option<FeedUser>) {
    if found.Some? then json.Object? && field in json.fields && IsUser(codec, json.fields[field], found.value)
    else json.Object? && field in json.fields ==> forall user :: !IsUser(codec, json.fields[field], user)
  }

  lemma {:induction false} JsonIdMeaning(codec: Codec, value: Json, id: int)
    ensures JsonId(codec, value) == Some(id) <==> IsId(codec, value, id)
  {
  }

  lemma {:induction false} UserMeaning(codec: Codec, value: Json, user: FeedUser)
    ensures ParseUser(codec, value) == Some(user) <==> IsUser(codec, value, user)
  {
  }

  lemma {:induction false} UserOfMeaning(codec: Codec, json: Json, field: string)
    ensures IsUserOf(codec, json, field, GetUser(codec, json, field))
  {
    if json.Object? && field in json.fields {
      forall user ensures ParseUser(codec, json.fields[field]) == Some(user)
                          <==> IsUser(codec, json.fields[field], user) {
        UserMeaning(codec, json.fields[field], user);
      }
    }
  }

  /** The field holds no id, or there is none. */
  ghost predicate NoId(codec: Codec, json: Json, field: string) {
    json.Object? && field in json.fields ==> forall id :: !IsId(codec, json.fields[field], id)
  }

  lemma {:induction false} NoIdRead(codec: Codec, json: Json, field: string)
    ensures NoId(codec, json, field) <==> GetId(codec, json, field).None?
  {
    if json.Object? && field in json.fields {
      var value := json.fields[field];
      forall id ensures JsonId(codec, value) == Some(id) <==> IsId(codec, value, id) {
        JsonIdMeaning(codec, value, id);
      }
      if JsonId(codec, value).Some? { assert IsId(codec, value, JsonId(codec, value).value); }
    }
  }

  /** An id list is read entry by entry: what is read of two lists is read of the two put together. */
  lemma {:induction false} LogIdsConcat(codec: Codec, a: seq<Json>, b: seq<Json>)
    ensures ParseLogIds(codec, a + b) == ParseLogIds(codec, a) + ParseLogIds(codec, b)
  {
    if a == [] {
      assert a + b == b;
    } else {
      assert (a + b)[1..] == a[1..] + b;
      LogIdsConcat(codec, a[1..], b);
    }
  }

  /** And an entry gives its `logId`, or nothing if that is no id. */
  lemma {:induction false} LogIdOfOne(codec: Codec, entry: Json, id: int)
    ensures ParseLogIds(codec, [entry]) == [id] <==>
              entry.Object? && "logId" in entry.fields && IsId(codec, entry.fields["logId"], id)
    ensures ParseLogIds(codec, [entry]) == [] <==> NoId(codec, entry, "logId")
  {
    assert [entry][1..] == [];
    var read := ParseLogIds(codec, [entry]);
    assert read == [id] ==> read[0] == id;
    NoIdRead(codec, entry, "logId");
    if entry.Object? && "logId" in entry.fields { JsonIdMeaning(codec, entry.fields["logId"], id); }
  }

  lemma {:induction false} UsersConcat(codec: Codec, a: seq<Json>, b: seq<Json>)
    ensures ParseUsers(codec, a + b) == ParseUsers(codec, a) + ParseUsers(codec, b)
  {
    if a == [] {
      assert a + b == b;
    } else {
      assert (a + b)[1..] == a[1..] + b;
      UsersConcat(codec, a[1..], b);
    }
  }

  lemma {:induction false} UserOfOne(codec: Codec, entry: Json, user: FeedUser)
    ensures ParseUsers(codec, [entry]) == [user] <==> IsUser(codec, entry, user)
    ensures ParseUsers(codec, [entry]) == [] <==> forall other :: !IsUser(codec, entry, other)
  {
    assert [entry][1..] == [];
    var read := ParseUsers(codec, [entry]);
    assert read == [user] ==> read[0] == user;
    forall other ensures ParseUser(codec, entry) == Some(other) <==> IsUser(codec, entry, other) {
      UserMeaning(codec, entry, other);
    }
  }

  /** A payload that is JSON of a feed type; a missing or odd `feedType` reads as 0. */
  ghost predicate OfType(codec: Codec, raw: string, json: Json, t: int) {
    codec.parse(raw) == Some(json)
    && if json.Object? && "feedType" in json.fields && exists n :: IsI64(json.fields["feedType"], n)
       then IsI64(json.fields["feedType"], t) else t == 0
  }

  ghost predicate NoI64(json: Json, field: string) {
    json.Object? && field in json.fields ==> forall n :: !IsI64(json.fields[field], n)
  }

  predicate NoArray(json: Json, field: string) {
    json.Object? && field in json.fields ==> !json.fields[field].Array?
  }

  lemma {:induction false} TypeRead(codec: Codec, raw: string, author: Option<Member>, self: int, json: Json, t: int)
    requires OfType(codec, raw, json, t)
    ensures FeedTypeId(json) == t && Parse(codec, raw, author, self) == ParseValue(codec, json, author, self)
  {
    if json.Object? && "feedType" in json.fields && json.fields["feedType"].Integer? {
      var n := json.fields["feedType"].n;
      assert GetI64(json, "feedType").Some? ==> IsI64(json.fields["feedType"], n);
    }
  }

  /** A deletion names the message with `logId`. */
  lemma {:induction false} DeletionRead(codec: Codec, raw: string, author: Option<Member>, self: int, json: Json)
    requires OfType(codec, raw, json, 14)
    ensures forall id :: json.Object? && "logId" in json.fields && IsId(codec, json.fields["logId"], id) ==>
              Parse(codec, raw, author, self) == Ok(MessageDeleted(id, None))
    ensures NoId(codec, json, "logId") ==> Parse(codec, raw, author, self) == Err(MissingInteger("logId"))
  {
    TypeRead(codec, raw, author, self, json, 14);
    NoIdRead(codec, json, "logId");
  }

  /** A change names the message with `logId`, and the revision with `targetRevision`. */
  lemma {:induction false} ChangeRead(codec: Codec, raw: string, author: Option<Member>, self: int, json: Json)
    requires OfType(codec, raw, json, 25)
    ensures forall id, revision ::
              json.Object? && "logId" in json.fields && IsId(codec, json.fields["logId"], id)
              && "targetRevision" in json.fields && IsI64(json.fields["targetRevision"], revision) ==>
                Parse(codec, raw, author, self) == Ok(MessageChanged(id, revision, None))
    ensures NoId(codec, json, "logId") ==> Parse(codec, raw, author, self) == Err(MissingInteger("logId"))
    ensures !NoId(codec, json, "logId") && NoI64(json, "targetRevision") ==>
              Parse(codec, raw, author, self) == Err(MissingInteger("targetRevision"))
  {
    TypeRead(codec, raw, author, self, json, 25);
    NoIdRead(codec, json, "logId");
    if NoI64(json, "targetRevision") { NoI64Read(json, "targetRevision"); }
  }

  lemma {:induction false} NoI64Read(json: Json, field: string)
    requires NoI64(json, field)
    ensures GetI64(json, field).None?
  {
    if json.Object? && field in json.fields && json.fields[field].Integer? {
      assert !IsI64(json.fields[field], json.fields[field].n);
    }
  }

  /** A rewrite hides its own message; type 26 hides the messages listed. */
  lemma {:induction false} HiddenRead(codec: Codec, raw: string, author: Option<Member>, self: int, json: Json)
    ensures OfType(codec, raw, json, 13) ==> Parse(codec, raw, author, self) == Ok(MessageHidden([self], []))
    ensures forall entries :: OfType(codec, raw, json, 26) && Has(json, "chatLogInfos", Array(entries)) ==>
              Parse(codec, raw, author, self) == Ok(MessageHidden(ParseLogIds(codec, entries), []))
    ensures OfType(codec, raw, json, 26) && NoArray(json, "chatLogInfos") ==>
              Parse(codec, raw, author, self) == Err(MissingArray("chatLogInfos"))
  {
    if OfType(codec, raw, json, 13) { TypeRead(codec, raw, author, self, json, 13); }
    if OfType(codec, raw, json, 26) { TypeRead(codec, raw, author, self, json, 26); }
  }

  lemma {:induction false} JoinRead(codec: Codec, raw: string, author: Option<Member>, self: int, json: Json, t: int)
    requires OfType(codec, raw, json, t) && (t == 1 || t == 4)
    ensures forall values :: Has(json, "members", Array(values)) ==>
              Parse(codec, raw, author, self) == Ok(UserJoined(ParseUsers(codec, values)))
    ensures NoArray(json, "members") ==> Parse(codec, raw, author, self) == Err(MissingArray("members"))
  {
    TypeRead(codec, raw, author, self, json, t);
  }

  /** What a feed about one member says of it. */
  predicate Concerns(t: int, user: Option<FeedUser>, author: Option<Member>, feed: FeedValue) {
    (t == 2 && feed == UserLeft(user)) || (t == 6 && feed == UserKicked(user, author))
    || (t == 11 && feed == ModeratorAdded(user)) || (t == 12 && feed == ModeratorRemoved(user))
  }

  lemma {:induction false} MemberRead(codec: Codec, raw: string, author: Option<Member>, self: int, json: Json, t: int)
    returns (user: Option<FeedUser>)
    requires OfType(codec, raw, json, t) && (t == 2 || t == 6 || t == 11 || t == 12)
    ensures IsUserOf(codec, json, "member", user)
    ensures var feed := Parse(codec, raw, author, self); feed.Ok? && Concerns(t, user, author, feed.value)
  {
    TypeRead(codec, raw, author, self, json, t);
    UserOfMeaning(codec, json, "member");
    user := GetUser(codec, json, "member");
  }

  lemma {:induction false} HostRead(codec: Codec, raw: string, author: Option<Member>, self: int, json: Json)
    returns (was: Option<FeedUser>, now: Option<FeedUser>)
    requires OfType(codec, raw, json, 15)
    ensures IsUserOf(codec, json, "prevHost", was) && IsUserOf(codec, json, "newHost", now)
    ensures Parse(codec, raw, author, self) == Ok(HostChanged(was, now))
  {
    TypeRead(codec, raw, author, self, json, 15);
    UserOfMeaning(codec, json, "prevHost");
    UserOfMeaning(codec, json, "newHost");
    was, now := GetUser(codec, json, "prevHost"), GetUser(codec, json, "newHost");
  }

  /** The speaker mode is switched on by 1 and off by 2. */
  lemma {:induction false} SpeakerRead(codec: Codec, raw: string, author: Option<Member>, self: int, json: Json,
                                       mode: int)
    requires OfType(codec, raw, json, 27)
    ensures json.Object? && "eventType" in json.fields && IsI64(json.fields["eventType"], mode) ==>
              var feed := Parse(codec, raw, author, self);
              && (mode == 1 ==> feed == Ok(ManagerSpeakerMode(true)))
              && (mode == 2 ==> feed == Ok(ManagerSpeakerMode(false)))
              && (mode != 1 && mode != 2 ==> feed == Err(InvalidSpeakerMode(mode)))
    ensures NoI64(json, "eventType") ==> Parse(codec, raw, author, self) == Err(MissingInteger("eventType"))
  {
    TypeRead(codec, raw, author, self, json, 27);
    if NoI64(json, "eventType") { NoI64Read(json, "eventType"); }
  }

  lemma {:induction false} OthersRead(codec: Codec, raw: string, author: Option<Member>, self: int, json: Json, t: int)
    requires OfType(codec, raw, json, t)
    ensures t == 5 ==> Parse(codec, raw, author, self) == Ok(OpenLinkDeleted)
    ensures t !in {1, 2, 4, 5, 6, 11, 12, 13, 14, 15, 25, 26, 27} ==>
              Parse(codec, raw, author, self) == Ok(UnknownFeed(codec.render(json)))
  {
    TypeRead(codec, raw, author, self, json, t);
  }

  lemma {:induction false} NotJson(codec: Codec, raw: string, author: Option<Member>, self: int)
    ensures Parse(codec, raw, author, self) == Err(InvalidFeedJson) <==> codec.parse(raw).None?
  {
  }
}
