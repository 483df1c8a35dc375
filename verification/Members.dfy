/** `get_users`: looking up members in bulk, in regular and in open channels. */
module Members {
  import opened Wrappers
  import opened Records
  import opened Batches

  const OPEN_CHANNEL_ID_MASK := 0x40_0000_0000_0000

  /** Bit 54 of a two's-complement channel id. */
  predicate IsOpenChannel(channelId: int) {
    channelId / OPEN_CHANNEL_ID_MASK % 2 == 1
  }

  datatype UserRow = UserRow(nickname: string, imageUrl: Option<string>)
  datatype FriendRow = FriendRow(name: string, imageUrl: Option<string>, enc: nat)
  datatype OpenMemberRow = OpenMemberRow(
    profileType: int, linkMemberType: int, nickname: string, imageUrl: Option<string>, profileLinkId: int, enc: nat)
  datatype OpenProfileRow = OpenProfileRow(
    userId: int, profileType: int, linkMemberType: int, imageUrl: Option<string>, profileLinkId: int)

  /** The member tables; `links` gives the open link of a channel, `profiles` the bot's profile row in a link. */
  datatype Tables = Tables(
    currentUserId: int,
    users: map<int, UserRow>,
    friends: map<int, FriendRow>,
    links: map<int, int>,
    openMembers: map<(int, int), OpenMemberRow>,
    profiles: map<int, OpenProfileRow>,
    decrypt: (string, nat) -> string)

  function ProfileType(value: int): int {
    match value
    case 1 => 1
    case 2 | 4 => 2
    case 16 => 3
    case _ => 0
  }

  function LinkMemberType(value: int): int {
    match value
    case 1 => 1
    case 2 => 2
    case 4 => 3
    case 8 => 4
    case _ => 0
  }

  function DecryptUrl(t: Tables, url: Option<string>, enc: nat): Option<string> {
    if url.Some? then Some(t.decrypt(url.value, enc)) else None
  }

  function ReadRegularUser(id: int, row: UserRow): Member {
    Member(id, false, row.nickname, row.imageUrl, None)
  }

  function ReadFriend(t: Tables, id: int, row: FriendRow): Member {
    Member(id, false, t.decrypt(row.name, row.enc), DecryptUrl(t, row.imageUrl, row.enc), None)
  }

  function ReadOpenMember(t: Tables, id: int, row: OpenMemberRow): Member {
    Member(id, false, t.decrypt(row.nickname, row.enc), DecryptUrl(t, row.imageUrl, row.enc),
           Some(OpenChannelExtra(ProfileType(row.profileType), LinkMemberType(row.linkMemberType), row.profileLinkId)))
  }

  function ReadProfile(row: OpenProfileRow): Member {
    Member(row.userId, true, "Arisa", row.imageUrl,
           Some(OpenChannelExtra(ProfileType(row.profileType), LinkMemberType(row.linkMemberType), row.profileLinkId)))
  }

  function RegularUsers(t: Tables): map<int, Member> {
    map id | id in t.users :: ReadRegularUser(id, t.users[id])
  }

  function Friends(t: Tables): map<int, Member> {
    map id | id in t.friends :: ReadFriend(t, id, t.friends[id])
  }

  /** The members of the open link of a channel. */
  function OpenMembers(t: Tables, channelId: int): map<int, Member> {
    if channelId !in t.links then map[]
    else map k | k in t.openMembers && k.0 == t.links[channelId] :: k.1 := ReadOpenMember(t, k.1, t.openMembers[k])
  }

  /** The bot itself: a fixed member in regular channels, a profile row in open ones. */
  function CurrentUser(t: Tables, channelId: int, isOpen: bool): Option<Member> {
    if !isOpen then Some(Member(t.currentUserId, true, "Arisa", None, None))
    else if channelId in t.links && t.links[channelId] in t.profiles then
      Some(ReadProfile(t.profiles[t.links[channelId]]))
    else None
  }

  /** A member of a regular channel other than the bot: a user or else a friend. */
  function FindRegular(t: Tables, id: int): Option<Member> {
    if id in t.users then Some(ReadRegularUser(id, t.users[id]))
    else if id in t.friends then Some(ReadFriend(t, id, t.friends[id]))
    else None
  }

  function FindOpen(t: Tables, channelId: int, id: int): Option<Member> {
    if id in OpenMembers(t, channelId) then Some(OpenMembers(t, channelId)[id]) else None
  }

  /** A member of a channel other than the bot. */
  function FindOther(t: Tables, channelId: int, isOpen: bool, id: int): Option<Member> {
    if isOpen then FindOpen(t, channelId, id) else FindRegular(t, id)
  }

  /** The simple look-up of one member. */
  function FindMember(t: Tables, channelId: int, isOpen: bool, id: int): Option<Member> {
    if id == t.currentUserId then CurrentUser(t, channelId, isOpen) else FindOther(t, channelId, isOpen, id)
  }

  /** All members that can be looked up in a channel. */
  function Directory(t: Tables, channelId: int, isOpen: bool): map<int, Member> {
    map id | id in {t.currentUserId} + t.users.Keys + t.friends.Keys + OpenMembers(t, channelId).Keys
             && FindMember(t, channelId, isOpen, id).Some?
      :: FindMember(t, channelId, isOpen, id).value
  }

  /** The members of the given ids looked up one by one. */
  function LookUp(t: Tables, channelId: int, isOpen: bool, userIds: seq<int>): Result<seq<Member>, DbError> {
    match OneByOne(Directory(t, channelId, isOpen), userIds)
    case Ok(members) => Ok(members)
    case Err(id) => Err(MemberNotFound(id))
  }

  function OtherIds(t: Tables, userIds: seq<int>): set<int> {
    Elements(userIds) - {t.currentUserId}
  }

  /** In open channels the bot's own profile takes a query before the others are looked up. */
  predicate AsksForProfile(t: Tables, channelId: int, isOpen: bool, userIds: seq<int>) {
    isOpen && t.currentUserId in userIds
  }

  /** A profile query that finds no row fails too. */
  function WithProfile(t: Tables, channelId: int, isOpen: bool, userIds: seq<int>, queries: Queries): Queries {
    (k: nat) =>
      if k == 1 && AsksForProfile(t, channelId, isOpen, userIds)
         && queries(k).None? && CurrentUser(t, channelId, isOpen).None? then Some(Sqlite)
      else queries(k)
  }

  /** The members are those of the ids, position by position. */
  ghost predicate MembersOf(t: Tables, channelId: int, isOpen: bool, userIds: seq<int>, members: seq<Member>) {
    && |members| == |userIds|
    && forall k :: 0 <= k < |userIds| ==> FindMember(t, channelId, isOpen, userIds[k]) == Some(members[k])
  }

  /** Position i holds the first id that no member is found for. */
  ghost predicate FirstUnknown(t: Tables, channelId: int, isOpen: bool, userIds: seq<int>, i: nat) {
    && i < |userIds| && FindMember(t, channelId, isOpen, userIds[i]).None?
    && forall k :: 0 <= k < i ==> FindMember(t, channelId, isOpen, userIds[k]).Some?
  }

  /**
   A look-up succeeds exactly if every id is found, and gives the members in request
   order with duplicates; otherwise it names the first id that is not found.
   */
  lemma {:induction false} LookUpMeaning(t: Tables, channelId: int, isOpen: bool, userIds: seq<int>) returns (i: nat)
    ensures var r := LookUp(t, channelId, isOpen, userIds);
      if r.Ok? then MembersOf(t, channelId, isOpen, userIds, r.value)
      else FirstUnknown(t, channelId, isOpen, userIds, i) && r.error == MemberNotFound(userIds[i])
  {
    i := OneByOneMeaning(Directory(t, channelId, isOpen), userIds);
    forall id { DirectoryHolds(t, channelId, isOpen, id); }
  }

  /** Members carry the requested id, except that the bot's profile in an open channel has its own. */
  lemma {:induction false} FoundHasId(t: Tables, channelId: int, isOpen: bool, userId: int)
    requires !isOpen || userId != t.currentUserId
    ensures var found := FindMember(t, channelId, isOpen, userId); found.Some? ==> found.value.id == userId
  {
  }

  /** The number of queries of a bulk request that is not cut short by a fault. */
  function QueryCount(t: Tables, channelId: int, isOpen: bool, userIds: seq<int>): nat {
    1 + (if AsksForProfile(t, channelId, isOpen, userIds) then 1 else 0)
      + LoadQueries(t, channelId, isOpen, OtherIds(t, userIds))
  }

  /** Queries for members other than the bot: by the chunk, and in regular channels again for those who are no users. */
  function LoadQueries(t: Tables, channelId: int, isOpen: bool, ids: set<int>): nat {
    Chunks(|ids|)
      + if isOpen then 0 else Chunks(|ids - t.users.Keys|)
  }

  lemma {:induction false} DirectoryHolds(t: Tables, channelId: int, isOpen: bool, id: int)
    ensures Holds(Directory(t, channelId, isOpen), id, FindMember(t, channelId, isOpen, id))
  {
  }

  /** The ids that are not in the map yet, in order. */
  method MissingFrom(members: map<int, Member>, ids: seq<int>) returns (missing: seq<int>)
    requires Distinct(ids)
    ensures Distinct(missing) && forall id :: id in missing <==> id in ids && id !in members
  {
    missing := [];
    for i := 0 to |ids|
      invariant Distinct(missing)
      invariant forall id :: id in missing <==> id in ids[..i] && id !in members
    {
      assert ids[..i + 1] == ids[..i] + [ids[i]];
      if ids[i] !in members { missing := missing + [ids[i]]; }
    }
    assert ids[..|ids|] == ids;
  }

  /** The map holds what the look-up of an id finds. */
  ghost predicate Holds(members: map<int, Member>, id: int, found: Option<Member>) {
    (id in members <==> found.Some?) && (found.Some? ==> members[id] == found.value)
  }

  /** The map after the given ids have been looked up, the rest of it kept. */
  ghost predicate Filled(t: Tables, channelId: int, isOpen: bool, ids: seq<int>, into: map<int, Member>,
                         members: map<int, Member>) {
    && (forall id :: id in ids ==> Holds(members, id, FindOther(t, channelId, isOpen, id)))
    && (forall id :: id in into ==> id in members && members[id] == into[id])
  }

  /** The outcome of a loader: the first fault of its queries, or the ids filled in. */
  ghost predicate Loaded(t: Tables, channelId: int, isOpen: bool, ids: seq<int>, into: map<int, Member>,
                         queries: Queries, first: nat,
                         r: Result<map<int, Member>, LookupError>)
  {
    var fault := FirstFault(queries, first, LoadQueries(t, channelId, isOpen, Elements(ids)));
    if r.Ok? then fault.None? && Filled(t, channelId, isOpen, ids, into, r.value) else fault == Some(r.error)
  }

  /** A friend is taken only where there is no user. */
  lemma {:induction false} UsersThenFriends(t: Tables, channelId: int, isOpen: bool, ids: seq<int>, missing: seq<int>,
                                            into: map<int, Member>,
                         users: map<int, Member>, members: map<int, Member>)
    requires !isOpen && forall id :: id in ids ==> id !in into
    requires Overlaid(RegularUsers(t), ids, into, users)
    requires forall id :: id in missing <==> id in ids && id !in users
    requires Overlaid(Friends(t), missing, users, members)
    ensures Filled(t, channelId, isOpen, ids, into, members)
  {
  }

  /** The second half of `load_regular_users`: friends for the ids that are not users. */
  method LoadFriends(t: Tables, ghost channelId: int, isOpen: bool, ids: seq<int>, ghost into: map<int, Member>,
                     queries: Queries, first: nat, users: map<int, Member>)
    returns (r: Result<map<int, Member>, LookupError>)
    requires !isOpen && Distinct(ids) && forall id :: id in ids ==> id !in into
    requires Overlaid(RegularUsers(t), ids, into, users)
    ensures var fault := FirstFault(queries, first, Chunks(|Elements(ids) - t.users.Keys|));
            if r.Ok? then fault.None? else fault == Some(r.error)
    ensures r.Ok? ==> Filled(t, channelId, isOpen, ids, into, r.value)
  {
    var missing := MissingFrom(users, ids);
    assert forall id :: id in missing <==> id in Elements(ids) - t.users.Keys;
    DistinctLength(missing, Elements(ids) - t.users.Keys);
    r := Load(Friends(t), missing, queries, first, users);
    if r.Ok? { UsersThenFriends(t, channelId, isOpen, ids, missing, into, users, r.value); }
  }

  /** The queries for users come before the queries for friends. */
  lemma {:induction false} RegularFaults(t: Tables, channelId: int, ids: seq<int>, queries: Queries, first: nat)
    requires Distinct(ids)
    ensures FirstFault(queries, first, LoadQueries(t, channelId, false, Elements(ids))) ==
            if FirstFault(queries, first, Chunks(|ids|)).Some? then FirstFault(queries, first, Chunks(|ids|))
            else FirstFault(queries, first + Chunks(|ids|), Chunks(|Elements(ids) - t.users.Keys|))
  {
    DistinctLength(ids, Elements(ids));
    FirstFaultSplit(queries, first, Chunks(|ids|), Chunks(|Elements(ids) - t.users.Keys|));
  }

  /** `load_regular_users`. */
  method LoadRegularUsers(t: Tables, ghost channelId: int, isOpen: bool, ids: seq<int>, queries: Queries, first: nat,
                          into: map<int, Member>)
    returns (r: Result<map<int, Member>, LookupError>)
    requires !isOpen && Distinct(ids) && forall id :: id in ids ==> id !in into
    ensures Loaded(t, channelId, isOpen, ids, into, queries, first, r)
  {
    RegularFaults(t, channelId, ids, queries, first);
    var middle := first + Chunks(|ids|);
    r := Load(RegularUsers(t), ids, queries, first, into);
    if r.Ok? {
      r := LoadFriends(t, channelId, isOpen, ids, into, queries, middle, r.value);
    }
  }

  /** `load_open_channel_users`. */
  method LoadOpenChannelUsers(t: Tables, channelId: int, isOpen: bool, ids: seq<int>, queries: Queries, first: nat,
                              into: map<int, Member>)
    returns (r: Result<map<int, Member>, LookupError>)
    requires isOpen && Distinct(ids) && forall id :: id in ids ==> id !in into
    ensures Loaded(t, channelId, isOpen, ids, into, queries, first, r)
  {
    DistinctLength(ids, Elements(ids));
    r := Load(OpenMembers(t, channelId), ids, queries, first, into);
  }

  /** What a bulk request is answered: the first failing query, or else the one-by-one look-up. */
  ghost predicate Answers(t: Tables, channelId: int, isOpen: bool, userIds: seq<int>, queries: Queries,
                          r: Result<seq<Member>, DbError>) {
    var fault := FirstFault(WithProfile(t, channelId, isOpen, userIds, queries), 0,
                            QueryCount(t, channelId, isOpen, userIds));
    if fault.Some? then r.Err? && r.error == fault.value else r == LookUp(t, channelId, isOpen, userIds)
  }

  method LoadOthers(t: Tables, channelId: int, isOpen: bool, ids: seq<int>, queries: Queries, first: nat,
                    into: map<int, Member>)
    returns (r: Result<map<int, Member>, LookupError>)
    requires Distinct(ids) && forall id :: id in ids ==> id !in into
    ensures Loaded(t, channelId, isOpen, ids, into, queries, first, r)
  {
    if isOpen {
      r := LoadOpenChannelUsers(t, channelId, isOpen, ids, queries, first, into);
    } else {
      r := LoadRegularUsers(t, channelId, isOpen, ids, queries, first, into);
    }
  }

  /**
   The bulk request answers what looking up one by one would, whatever the order of
   the hash set; it fails in another way only if one of its queries fails.
   */
  method GetUsers(t: Tables, channelId: int, userIds: seq<int>,
                  queries: Queries) returns (r: Result<seq<Member>, DbError>)
    ensures userIds == [] ==> r == Ok([])
    ensures userIds != [] ==> Answers(t, channelId, IsOpenChannel(channelId), userIds, queries, r)
  {
    if userIds == [] { return Ok([]); }
    if queries(0).Some? { return Err(queries(0).value); }
    r := GetUsersWithConnection(t, channelId, IsOpenChannel(channelId), userIds, queries);
  }

  /** The bot's own entry, if it is asked for; in open channels this takes a query. */
  method LoadCurrentUser(t: Tables, channelId: int, isOpen: bool, userIds: seq<int>, queries: Queries)
    returns (r: Result<map<int, Member>, LookupError>, next: nat)
    requires queries(0).None?
    ensures r.Ok? && t.currentUserId in userIds ==> CurrentUser(t, channelId, isOpen).Some?
    ensures next == if AsksForProfile(t, channelId, isOpen, userIds) then 2 else 1
    ensures var fault := FirstFault(WithProfile(t, channelId, isOpen, userIds, queries), 0, next);
            if r.Err? then fault == Some(r.error)
            else fault.None? && r.value == if t.currentUserId !in userIds then map[]
                                           else map[t.currentUserId := CurrentUser(t, channelId, isOpen).value]
  {
    ghost var effective := WithProfile(t, channelId, isOpen, userIds, queries);
    FirstFaultSplit(effective, 0, 1, 1);
    next := if AsksForProfile(t, channelId, isOpen, userIds) then 2 else 1;
    if t.currentUserId !in userIds { return Ok(map[]), next; }
    if isOpen {
      if queries(1).Some? { return Err(queries(1).value), next; }
      if CurrentUser(t, channelId, isOpen).None? { return Err(Sqlite), next; }
    }
    r := Ok(map[t.currentUserId := CurrentUser(t, channelId, isOpen).value]);
  }

  lemma {:induction false} FaultsAfter(t: Tables, channelId: int, isOpen: bool, userIds: seq<int>, queries: Queries,
                                       next: nat, n: nat)
    requires AsksForProfile(t, channelId, isOpen, userIds) ==> next >= 2
    ensures var effective := WithProfile(t, channelId, isOpen, userIds, queries);
      FirstFault(effective, 0, next + n) ==
      if FirstFault(effective, 0, next).Some? then FirstFault(effective, 0, next) else FirstFault(queries, next, n)
  {
    FirstFaultSplit(WithProfile(t, channelId, isOpen, userIds, queries), 0, next, n);
    SameFaults(t, channelId, isOpen, userIds, queries, next, n);
  }

  /** The bot's own query, if any, and then the others'. */
  lemma {:induction false} FaultsInTurn(t: Tables, channelId: int, isOpen: bool, userIds: seq<int>, queries: Queries,
                                        next: nat)
    requires next == if AsksForProfile(t, channelId, isOpen, userIds) then 2 else 1
    ensures var effective := WithProfile(t, channelId, isOpen, userIds, queries);
      FirstFault(effective, 0, QueryCount(t, channelId, isOpen, userIds)) ==
      if FirstFault(effective, 0, next).Some? then FirstFault(effective, 0, next)
      else FirstFault(queries, next, LoadQueries(t, channelId, isOpen, OtherIds(t, userIds)))
  {
    var n := LoadQueries(t, channelId, isOpen, OtherIds(t, userIds));
    assert QueryCount(t, channelId, isOpen, userIds) == next + n;
    FaultsAfter(t, channelId, isOpen, userIds, queries, next, n);
  }

  /** What a request for one member is answered. */
  ghost predicate AnswersOne(t: Tables, channelId: int, isOpen: bool, userId: int, queries: Queries,
                             r: Result<Member, DbError>) {
    var fault := FirstFault(WithProfile(t, channelId, isOpen, [userId], queries), 0,
                            QueryCount(t, channelId, isOpen, [userId]));
    var found := FindMember(t, channelId, isOpen, userId);
    if fault.Some? then r.Err? && r.error == fault.value
    else if found.Some? then r.Ok? && r.value == found.value
    else r.Err? && r.error == MemberNotFound(userId)
  }

  /** `get_user`. A one-element request that succeeds is not empty: its fallback error is never used. */
  method GetUser(t: Tables, channelId: int, userId: int, queries: Queries) returns (r: Result<Member, DbError>)
    ensures AnswersOne(t, channelId, IsOpenChannel(channelId), userId, queries, r)
  {
    var members := GetUsers(t, channelId, [userId], queries);
    ghost var i := LookUpMeaning(t, channelId, IsOpenChannel(channelId), [userId]);
    if members.Err? { return Err(members.error); }
    assert |members.value| == 1;
    r := Ok(members.value[0]);
  }

  /** `get_users_with_connection`, after the connection query has succeeded. */
  method GetUsersWithConnection(t: Tables, channelId: int, isOpen: bool, userIds: seq<int>, queries: Queries)
    returns (r: Result<seq<Member>, DbError>)
    requires queries(0).None?
    ensures Answers(t, channelId, isOpen, userIds, queries, r)
  {
    var self, next := LoadCurrentUser(t, channelId, isOpen, userIds, queries);
    FaultsInTurn(t, channelId, isOpen, userIds, queries, next);
    if self.Err? { return Err(self.error); }
    var otherIds := Listing(OtherIds(t, userIds));
    assert Elements(otherIds) == OtherIds(t, userIds);
    var loaded := LoadOthers(t, channelId, isOpen, otherIds, queries, next, self.value);
    if loaded.Err? { return Err(loaded.error); }
    r := ReadOut(t, channelId, isOpen, userIds, otherIds, self.value, loaded.value);
  }

  /** The answer in request order, with duplicates. */
  method ReadOut(t: Tables, ghost channelId: int, ghost isOpen: bool, userIds: seq<int>, ghost otherIds: seq<int>,
                 ghost into: map<int, Member>, members: map<int, Member>)
    returns (r: Result<seq<Member>, DbError>)
    requires forall id :: id in otherIds <==> id in OtherIds(t, userIds)
    requires t.currentUserId in userIds ==>
               t.currentUserId in into && CurrentUser(t, channelId, isOpen) == Some(into[t.currentUserId])
    requires Filled(t, channelId, isOpen, otherIds, into, members)
    ensures r == LookUp(t, channelId, isOpen, userIds)
  {
    FilledLikeDirectory(t, channelId, isOpen, userIds, otherIds, into, members);
    var found := Expand(members, userIds);
    OneByOneAgrees(members, Directory(t, channelId, isOpen), userIds);
    r := if found.Ok? then Ok(found.value) else Err(MemberNotFound(found.error));
  }

  /** For the requested ids the filled map is the directory. */
  lemma {:induction false} FilledLikeDirectory(t: Tables, channelId: int, isOpen: bool, userIds: seq<int>,
                                               otherIds: seq<int>, into: map<int, Member>, members: map<int, Member>)
    requires forall id :: id in otherIds <==> id in OtherIds(t, userIds)
    requires t.currentUserId in userIds ==>
               t.currentUserId in into && CurrentUser(t, channelId, isOpen) == Some(into[t.currentUserId])
    requires Filled(t, channelId, isOpen, otherIds, into, members)
    ensures var directory := Directory(t, channelId, isOpen);
      forall id :: id in userIds ==>
        (id in members <==> id in directory) && (id in members ==> members[id] == directory[id])
  {
    forall id | id in userIds ensures Holds(members, id, FindMember(t, channelId, isOpen, id)) {
      assert id != t.currentUserId ==> id in otherIds;
    }
    forall id { DirectoryHolds(t, channelId, isOpen, id); }
  }

  /** Once the profile has been found, the queries fail as given. */
  lemma {:induction false} SameFaults(t: Tables, channelId: int, isOpen: bool, userIds: seq<int>, queries: Queries,
                                      first: nat, n: nat)
    requires AsksForProfile(t, channelId, isOpen, userIds) ==> first >= 2
    ensures FirstFault(WithProfile(t, channelId, isOpen, userIds, queries), first, n) == FirstFault(queries, first, n)
    decreases n
  {
    if n > 0 { SameFaults(t, channelId, isOpen, userIds, queries, first + 1, n - 1); }
  }

  /** An open channel's id has bit 54 set: a multiple of 2^55, then 2^54, then less. */
  lemma {:induction false} OpenChannelMeaning(channelId: int)
    ensures IsOpenChannel(channelId) <==>
              0x40_0000_0000_0000 <= channelId % 0x80_0000_0000_0000 < 0x80_0000_0000_0000
  {
    var q, r := channelId / 0x80_0000_0000_0000, channelId % 0x80_0000_0000_0000;
    assert channelId == 0x40_0000_0000_0000 * (2 * q) + r;
    assert channelId / 0x40_0000_0000_0000 == 2 * q + r / 0x40_0000_0000_0000;
  }

  /** The kinds of profiles and of link members, by their numbers in the database. */
  predicate IsKind(extra: OpenChannelExtra, profileType: int, linkMemberType: int) {
    && (profileType == 1 <==> extra.profileType == 1) && (profileType in {2, 4} <==> extra.profileType == 2)
    && (profileType == 16 <==> extra.profileType == 3) && 0 <= extra.profileType <= 3
    && (linkMemberType == 1 <==> extra.linkMemberType == 1) && (linkMemberType == 2 <==> extra.linkMemberType == 2)
    && (linkMemberType == 4 <==> extra.linkMemberType == 3) && (linkMemberType == 8 <==> extra.linkMemberType == 4)
    && 0 <= extra.linkMemberType <= 4
  }

  /** A picture is decrypted if there is one. */
  predicate IsPicture(t: Tables, url: Option<string>, enc: nat, shown: Option<string>) {
    (url.None? <==> shown.None?) && (url.Some? ==> shown.value == t.decrypt(url.value, enc))
  }

  /**
   Who is found in a regular channel: the bot itself; a user, whether or not there
   is a friend of that id; a friend, with name and picture decrypted; or no one.
   */
  lemma {:induction false} RegularMember(t: Tables, channelId: int, id: int)
    ensures var m := FindMember(t, channelId, false, id);
      && (id == t.currentUserId ==> m == Some(Member(id, true, "Arisa", None, None)))
      && (id != t.currentUserId && id in t.users ==>
            m == Some(Member(id, false, t.users[id].nickname, t.users[id].imageUrl, None)))
      && (id != t.currentUserId && id !in t.users && id in t.friends ==>
            var f := t.friends[id];
            && m.Some? && m.value.id == id && !m.value.isMine && m.value.openChannel == None
            && m.value.nickname == t.decrypt(f.name, f.enc) && IsPicture(t, f.imageUrl, f.enc, m.value.profileImageUrl))
      && (id != t.currentUserId && id !in t.users && id !in t.friends ==> m == None)
  {
  }

  /** Who is found in an open channel: the bot by its profile in the channel's link, others by their row there. */
  lemma {:induction false} OpenMember(t: Tables, channelId: int, id: int, link: int)
    requires channelId in t.links && t.links[channelId] == link
    ensures var m := FindMember(t, channelId, true, id);
      && (id == t.currentUserId && link !in t.profiles ==> m == None)
      && (id == t.currentUserId && link in t.profiles ==>
            var p := t.profiles[link];
            && m.Some? && m.value.id == p.userId && m.value.isMine && m.value.nickname == "Arisa"
            && m.value.profileImageUrl == p.imageUrl && m.value.openChannel.Some?
            && IsKind(m.value.openChannel.value, p.profileType, p.linkMemberType)
            && m.value.openChannel.value.profileLinkId == p.profileLinkId)
      && (id != t.currentUserId && (link, id) !in t.openMembers ==> m == None)
      && (id != t.currentUserId && (link, id) in t.openMembers ==>
            var o := t.openMembers[(link, id)];
            && m.Some? && m.value.id == id && !m.value.isMine && m.value.nickname == t.decrypt(o.nickname, o.enc)
            && IsPicture(t, o.imageUrl, o.enc, m.value.profileImageUrl) && m.value.openChannel.Some?
            && IsKind(m.value.openChannel.value, o.profileType, o.linkMemberType)
            && m.value.openChannel.value.profileLinkId == o.profileLinkId)
  {
    if id != t.currentUserId {
      assert id in OpenMembers(t, channelId) <==> (link, id) in t.openMembers;
    }
  }

  /** An open channel without a link has no members at all. */
  lemma {:induction false} NoLinkNoMember(t: Tables, channelId: int, id: int)
    requires channelId !in t.links
    ensures FindMember(t, channelId, true, id) == None
  {
  }

  /**
   The queries of a request: the connection, the bot's profile if it is asked for in
   an open channel, one for every 500 other distinct ids, and in a regular channel
   one more for every 500 of them that are no users.
   */
  lemma {:induction false} QueryCountMeaning(t: Tables, channelId: int, isOpen: bool, userIds: seq<int>)
    ensures var others := set id | id in userIds && id != t.currentUserId;
            var strangers := set id | id in others && id !in t.users;
      QueryCount(t, channelId, isOpen, userIds) ==
        1 + (if isOpen && t.currentUserId in userIds then 1 else 0) + CeilDiv(|others|, 500)
          + if isOpen then 0 else CeilDiv(|strangers|, 500)
  {
    var others := set id | id in userIds && id != t.currentUserId;
    assert others == OtherIds(t, userIds);
    assert (set id | id in others && id !in t.users) == others - t.users.Keys;
    ChunksMeaning(|others|);
    ChunksMeaning(|others - t.users.Keys|);
  }

  /** The queries fail as given, but for a profile query that finds no row. */
  lemma {:induction false} ProfileFaultMeaning(t: Tables, channelId: int, isOpen: bool, userIds: seq<int>,
                                               queries: Queries, k: nat)
    ensures WithProfile(t, channelId, isOpen, userIds, queries)(k) ==
      if k == 1 && isOpen && t.currentUserId in userIds && queries(1).None?
         && (channelId in t.links ==> t.links[channelId] !in t.profiles) then Some(Sqlite)
      else queries(k)
  {
  }
}
