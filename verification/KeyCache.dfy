/**
 The decryption-key cache: one map from salts to derived keys, shared by every
 clone of a decryptor. A call to `Key` holds the lock from the look-up to the
 insertion, so any interleaving of clones is a sequence of calls.
 */
module KeyCache {
  import opened Wrappers
  import opened BigEndian
  import opened Pkcs12
  import opened Kdf
  import opened CacheHistory

  const PREFIX: seq<string> := [
    "", "", "12", "24", "18", "30", "36", "12", "48", "7", "35", "40", "17", "23", "29",
    "isabel", "kale", "sulli", "van", "merry", "kyle", "james", "maddux", "tony", "hayden",
    "paul", "elijah", "dorothy", "sally", "bran", "extr.ursra", "veil"
  ]
  const KDF_PASSWORD: seq<Byte> := [
    0, 22, 0, 8, 0, 9, 0, 111, 0, 2, 0, 23, 0, 43, 0, 8, 0, 33, 0, 33, 0, 10, 0, 16, 0, 3, 0, 3, 0,
    7, 0, 6, 0, 0
  ]
  const SALT_LENGTH := 16
  const KEY_LENGTH := 32
  const KDF_ITERATIONS := 2

  /** The password as characters. */
  const PASSWORD_UNITS: seq<Byte> := [22, 8, 9, 111, 2, 23, 43, 8, 33, 33, 10, 16, 3, 3, 7, 6]

  /** As section B.1 of RFC 7292 has it: two bytes for every character, the high one first, and a terminating zero. */
  lemma {:induction false} PasswordMeaning()
    ensures |KDF_PASSWORD| == 2 * |PASSWORD_UNITS| + 2
    ensures forall i :: 0 <= i < |PASSWORD_UNITS| ==>
              KDF_PASSWORD[2 * i] == 0 && KDF_PASSWORD[2 * i + 1] == PASSWORD_UNITS[i]
    ensures KDF_PASSWORD[|KDF_PASSWORD| - 2] == KDF_PASSWORD[|KDF_PASSWORD| - 1] == 0
  {
  }

  type KakaoKey = k: seq<Byte> | |k| == KEY_LENGTH witness seq(KEY_LENGTH, _ => 0)

  datatype KeyError = InvalidEnc(enc: nat) | DerivationFailed

  function Digit(n: nat): char
    requires n < 10
  {
    '0' + n as char
  }

  function DecimalNat(n: nat): string {
    if n < 10 then [Digit(n)] else DecimalNat(n / 10) + [Digit(n % 10)]
  }

  function Decimal(n: int): string {
    if n < 0 then "-" + DecimalNat(-n) else DecimalNat(n)
  }

  /** The bytes of an ASCII string. */
  function Bytes(s: string): (b: seq<Byte>) {
    seq(|s|, i requires 0 <= i < |s| => s[i] as int % 0x100)
  }

  /** `salt.resize(16, 0)`: cut or zero-padded to sixteen bytes. */
  function Resize(b: seq<Byte>): (s: seq<Byte>)
    ensures |s| == SALT_LENGTH
  {
    if |b| >= SALT_LENGTH then b[..SALT_LENGTH] else b + seq(SALT_LENGTH - |b|, _ => 0)
  }

  function Salt(enc: nat, userId: int): (s: seq<Byte>)
    requires enc < |PREFIX|
    ensures |s| == SALT_LENGTH
  {
    Resize(Bytes(PREFIX[enc] + Decimal(userId)))
  }

  function ReadDigit(c: char): nat {
    if '0' <= c <= '9' then c as int - '0' as int else 0
  }

  /** What a string of digits denotes. */
  function ReadDigits(s: string): nat {
    if s == "" then 0 else 10 * ReadDigits(s[..|s| - 1]) + ReadDigit(s[|s| - 1])
  }

  /** The usual decimal form of a number. */
  predicate IsDecimal(s: string, n: nat) {
    && s != "" && (forall c :: c in s ==> '0' <= c <= '9') && (|s| > 1 ==> s[0] != '0') && ReadDigits(s) == n
  }

  lemma {:induction false} DecimalMeaning(n: nat)
    ensures IsDecimal(DecimalNat(n), n) && (n > 0 ==> DecimalNat(n)[0] != '0')
  {
    if n >= 10 {
      DecimalMeaning(n / 10);
      var s := DecimalNat(n);
      assert s[..|s| - 1] == DecimalNat(n / 10);
    } else {
      assert [Digit(n)][..0] == "";
    }
  }

  /** A salt is the prefix of its selector and the decimal user id, in ASCII, cut or zero-padded to sixteen bytes. */
  lemma {:induction false} SaltMeaning(enc: nat, userId: int) returns (digits: string)
    requires enc < 32
    ensures IsDecimal(digits, if userId < 0 then -userId else userId)
    ensures var text := PREFIX[enc] + (if userId < 0 then "-" else "") + digits;
      && |Salt(enc, userId)| == 16
      && forall i :: 0 <= i < 16 ==>
           Salt(enc, userId)[i] == if i < |text| then text[i] as int % 0x100 else 0
  {
    digits := DecimalNat(if userId < 0 then -userId else userId);
    DecimalMeaning(if userId < 0 then -userId else userId);
    var text := PREFIX[enc] + (if userId < 0 then "-" else "") + digits;
    assert PREFIX[enc] + Decimal(userId) == text;
  }

  /** The key the RFC assigns to a salt. */
  ghost function KeyOf(h: Hash, salt: seq<Byte>): KakaoKey {
    Derive(h, KDF_PASSWORD, salt, 1, KDF_ITERATIONS, KEY_LENGTH)
  }

  /** Which is the 32-byte key for the fixed password, the id byte 1 and two iterations. */
  lemma {:induction false} KeyOfMeaning(h: Hash, salt: seq<Byte>, key: seq<Byte>)
    ensures IsKey(h, KDF_PASSWORD, salt, 1, 2, 32, key) <==> key == KeyOf(h, salt)
  {
    OneKey(h, KDF_PASSWORD, salt, 1, 2, 32, key);
  }

  /** One of the four hash calls of a key derivation fails. */
  ghost predicate Faulty(faults: nat -> bool) {
    !Works(faults, 0, 4)
  }

  /** `derive_key`: the conversion to a 32-byte array cannot fail. */
  method DeriveKey(h: Hash, faults: nat -> bool, salt: seq<Byte>) returns (r: Result<KakaoKey, HashError>)
    ensures r.Err? <==> Faulty(faults)
    ensures r.Ok? ==> r.value == KeyOf(h, salt)
  {
    assert HashCalls(CeilDiv(KEY_LENGTH, HASH_LENGTH), Rounds(KDF_ITERATIONS)) == 4;
    var bytes := Pkcs12Sha1Kdf(h, faults, KDF_PASSWORD, salt, 1, KDF_ITERATIONS, KEY_LENGTH);
    r := if bytes.Ok? then Ok(bytes.value) else Err(bytes.error);
  }

  type Keys = map<seq<Byte>, KakaoKey>

  ghost function KeyFunction(h: Hash): seq<Byte> -> KakaoKey {
    (salt: seq<Byte>) => KeyOf(h, salt)
  }

  /** A call to `Key`, as the history of the cache sees it. */
  ghost function RequestOf(faults: nat -> bool, enc: nat, userId: int): Request<seq<Byte>> {
    Request(if enc < |PREFIX| then Some(Salt(enc, userId)) else None, Faulty(faults))
  }

  /** `Arc<Mutex<HashMap<..>>>`. */
  class KeyStore {
    var keys: Keys

    constructor ()
      ensures keys == map[]
    {
      keys := map[];
    }
  }

  class Decryptor {
    const currentUserId: int
    const store: KeyStore

    constructor (currentUserId: int)
      ensures this.currentUserId == currentUserId
      ensures fresh(store) && store.keys == map[]
    {
      this.currentUserId := currentUserId;
      store := new KeyStore();
    }

    /** `#[derive(Clone)]`: a clone shares the store. */
    constructor CloneOf(other: Decryptor)
      ensures currentUserId == other.currentUserId && store == other.store
    {
      currentUserId := other.currentUserId;
      store := other.store;
    }

    method Key(h: Hash, faults: nat -> bool, enc: nat, userId: int) returns (r: Result<KakaoKey, KeyError>)
      modifies store
      ensures r.Ok? <==> Returned(KeyFunction(h), old(store.keys), RequestOf(faults, enc, userId)).Some?
      ensures r.Ok? ==> Some(r.value) == Returned(KeyFunction(h), old(store.keys), RequestOf(faults, enc, userId))
      ensures r.Err? ==> r.error == if enc < |PREFIX| then DerivationFailed else InvalidEnc(enc)
      ensures store.keys == After(KeyFunction(h), old(store.keys), RequestOf(faults, enc, userId))
    {
      if enc >= |PREFIX| { return Err(InvalidEnc(enc)); }
      var salt := Salt(enc, userId);
      if salt in store.keys { return Ok(store.keys[salt]); }
      var key := DeriveKey(h, faults, salt);
      if key.Err? { return Err(DerivationFailed); }
      store.keys := store.keys[salt := key.value];
      r := Ok(key.value);
    }
  }

  /** A call to `Key`. */
  datatype Call = Call(faults: nat -> bool, enc: nat, userId: int)

  ghost function Requests(calls: seq<Call>): (requests: seq<Request<seq<Byte>>>)
    ensures |requests| == |calls|
    ensures forall i :: 0 <= i < |calls| ==> requests[i] == RequestOf(calls[i].faults, calls[i].enc, calls[i].userId)
  {
    if calls == [] then []
    else [RequestOf(calls[0].faults, calls[0].enc, calls[0].userId)] + Requests(calls[1..])
  }

  /** The answer to a call: the RFC's key for the salt of its own arguments, or an error it has brought about itself. */
  ghost predicate OwnAnswer(h: Hash, call: Call, answer: Option<KakaoKey>) {
    match answer
    case Some(key) =>
      call.enc < 32 && IsKey(h, KDF_PASSWORD, Salt(call.enc, call.userId), 1, 2, 32, key)
    case None => call.enc >= 32 || exists k :: 0 <= k < 4 && call.faults(k)
  }

  /** From an empty store, whatever clones make whatever calls in whatever order, every call gets its own answer. */
  lemma {:induction false} EveryCallGetsItsKey(h: Hash, calls: seq<Call>, i: nat)
    requires i < |calls|
    ensures OwnAnswer(h, calls[i], ReturnedAll(KeyFunction(h), map[], Requests(calls))[i])
  {
    CacheIsTransparent(KeyFunction(h), map[], Requests(calls), i);
    if calls[i].enc < 32 {
      var salt := Salt(calls[i].enc, calls[i].userId);
      KeyOfMeaning(h, salt, KeyOf(h, salt));
    }
  }
}
