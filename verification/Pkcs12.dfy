/**
 The key derivation function of RFC 7292, appendix B.2, stated as the RFC does:
 concatenated copies, iterated hashing, and addition of big-endian integers
 modulo 2^v. The hash is a parameter with u = 20 output bytes and v = 64-byte
 blocks (SHA-1's sizes).
 */
module Pkcs12 {
  import opened Wrappers
  import opened BigEndian

  const HASH_LENGTH := 20
  const BLOCK_LENGTH := 64

  type Digest = d: seq<Byte> | |d| == HASH_LENGTH witness seq(HASH_LENGTH, _ => 0)
  type Hash = seq<Byte> -> Digest

  /** Copies of data, one after the other, the last one truncated to reach len bytes. */
  function Copies(data: seq<Byte>, len: nat): (s: seq<Byte>)
    requires data != []
    ensures |s| == len
    decreases len
  {
    if len <= |data| then data[..len] else data + Copies(data, len - |data|)
  }

  /** Steps 2 and 3: copies of a string filling a whole number of blocks; empty stays empty. */
  function Fill(data: seq<Byte>): (s: seq<Byte>)
    ensures |s| % BLOCK_LENGTH == 0
    ensures |s| >= |data|
  {
    if data == [] then [] else Copies(data, BLOCK_LENGTH * CeilDiv(|data|, BLOCK_LENGTH))
  }

  /** Step 6A: the r-th iterate of the hash, H(H(...H(x))), for r >= 1. */
  function Iterated(h: Hash, x: seq<Byte>, r: nat): Digest
    requires r >= 1
  {
    if r == 1 then h(x) else h(Iterated(h, x, r - 1))
  }

  /** Step 6C on one block: the block of the same length that denotes (I_j + B + 1) mod 2^v. */
  ghost function AddOne(block: seq<Byte>, b: seq<Byte>): (s: seq<Byte>)
    ensures |s| == |block| && Keeps(s, Value(block) + Value(b) + 1)
  {
    var v := Value(block) + Value(b) + 1;
    assert exists s :: |s| == |block| && Keeps(s, v) by {
      var s, high := KeepsExists(v, |block|);
      assert Keeps(s, v);
    }
    var s :| |s| == |block| && Keeps(s, v);
    s
  }

  /** That block is unique, so step 6C has one result. */
  lemma {:induction false} AddOneUnique(block: seq<Byte>, b: seq<Byte>, s: seq<Byte>)
    requires |s| == |block| && Keeps(s, Value(block) + Value(b) + 1)
    ensures s == AddOne(block, b)
    ensures Value(s) == (Value(block) + Value(b) + 1) % Scaled(1, |block|)
  {
    var v, t := Value(block) + Value(b) + 1, AddOne(block, b);
    var highS: nat :| Value(s) + Scaled(highS, |s|) == v;
    var highT: nat :| Value(t) + Scaled(highT, |t|) == v;
    KeepsUnique(s, highS, t, highT);
    KeepsIsModulo(s, v);
  }

  /** Step 6C on all the blocks of I. */
  ghost function AddToBlocks(input: seq<Byte>, b: seq<Byte>): (s: seq<Byte>)
    requires |input| % BLOCK_LENGTH == 0
    ensures |s| == |input|
  {
    if input == [] then []
    else AddOne(input[..BLOCK_LENGTH], b) + AddToBlocks(input[BLOCK_LENGTH..], b)
  }

  /** Steps 6 and 7: A_1 || ... || A_c. */
  ghost function Stream(h: Hash, d: seq<Byte>, input: seq<Byte>, r: nat, c: nat): (s: seq<Byte>)
    requires r >= 1 && |input| % BLOCK_LENGTH == 0
    ensures |s| == HASH_LENGTH * c
    decreases c
  {
    if c == 0 then []
    else
      var a := Iterated(h, d + input, r);
      a + Stream(h, d, AddToBlocks(input, Copies(a, BLOCK_LENGTH)), r, c - 1)
  }

  /** Steps 1 to 8. */
  ghost function Derive(h: Hash, password: seq<Byte>, salt: seq<Byte>, id: Byte, r: nat, n: nat): (key: seq<Byte>)
    requires r >= 1
    ensures |key| == n
  {
    Stream(h, seq(BLOCK_LENGTH, _ => id), Fill(salt) + Fill(password), r, CeilDiv(n, HASH_LENGTH))[..n]
  }

  lemma {:induction false} StreamPrefix(h: Hash, d: seq<Byte>, input: seq<Byte>, r: nat, c: nat, e: nat)
    requires r >= 1 && |input| % BLOCK_LENGTH == 0 && c <= e
    ensures Stream(h, d, input, r, c) == Stream(h, d, input, r, e)[..HASH_LENGTH * c]
    decreases c
  {
    if c > 0 {
      var a := Iterated(h, d + input, r);
      StreamPrefix(h, d, AddToBlocks(input, Copies(a, BLOCK_LENGTH)), r, c - 1, e - 1);
    }
  }

  /** A shorter key is a prefix of a longer one, whether or not the lengths are multiples of 20. */
  lemma {:induction false} DerivePrefix(h: Hash, password: seq<Byte>, salt: seq<Byte>, id: Byte, r: nat, n: nat, m: nat)
    requires r >= 1 && n <= m
    ensures Derive(h, password, salt, id, r, n) == Derive(h, password, salt, id, r, m)[..n]
  {
    var c, e := CeilDiv(n, HASH_LENGTH), CeilDiv(m, HASH_LENGTH);
    assert c <= e;
    StreamPrefix(h, seq(BLOCK_LENGTH, _ => id), Fill(salt) + Fill(password), r, c, e);
  }

  lemma {:induction false} CopiesAt(data: seq<Byte>, len: nat, i: nat)
    requires data != [] && i < len
    ensures Copies(data, len)[i] == data[i % |data|]
    decreases len
  {
    if len > |data| && i >= |data| {
      CopiesAt(data, len - |data|, i - |data|);
      ModShift(i, |data|);
    }
  }

  lemma {:induction false} ModShift(i: nat, d: nat)
    requires d > 0 && i >= d
    ensures (i - d) % d == i % d
  {
    RemainderUnique(i % d, i / d - 1, d, i - d);
  }

  /** A whole number of blocks that holds n bytes. */
  function WholeBlocks(n: nat): nat {
    BLOCK_LENGTH * CeilDiv(n, BLOCK_LENGTH)
  }

  /** A string of bytes begins with the salt repeated to whole blocks, and goes on with the password likewise. */
  ghost predicate SaltThenPassword(input: seq<Byte>, salt: seq<Byte>, password: seq<Byte>) {
    var p := WholeBlocks(|salt|);
    && |input| == p + WholeBlocks(|password|)
    && (forall i: nat :: i < p ==> input[i] == salt[i % |salt|])
    && (forall i: nat :: p <= i < |input| ==> input[i] == password[(i - p) % |password|])
  }

  /** The hash applied r times, one value after the other. */
  ghost predicate HashedTimes(h: Hash, x: seq<Byte>, r: nat, digest: Digest) {
    exists chain: seq<Digest> ::
      |chain| == r > 0 && chain[0] == h(x) && digest == chain[r - 1]
      && forall i: nat :: i + 1 < r ==> chain[i + 1] == h(chain[i])
  }

  /** Every block becomes, as an integer, the block plus the digest repeated over a block plus one, modulo 2^512. */
  ghost predicate BlocksRaised(before: seq<Byte>, after: seq<Byte>, digest: Digest) {
    && |after| == |before|
    && forall offset: nat :: offset % BLOCK_LENGTH == 0 && offset + BLOCK_LENGTH <= |before| ==>
         BlockRaised(before[offset..][..BLOCK_LENGTH], after[offset..][..BLOCK_LENGTH], digest)
  }

  ghost predicate BlockRaised(before: seq<Byte>, after: seq<Byte>, digest: Digest) {
    var b := seq(BLOCK_LENGTH, i requires 0 <= i => digest[i % HASH_LENGTH]);
    Value(after) == (Value(before) + Value(b) + 1) % Scaled(1, BLOCK_LENGTH)
  }

  /** The digests come from the inputs, and each input from the one before. */
  ghost predicate Chained(h: Hash, d: seq<Byte>, r: nat, inputs: seq<seq<Byte>>, digests: seq<Digest>) {
    && |inputs| == |digests|
    && (forall k: nat :: k < |inputs| ==> HashedTimes(h, d + inputs[k], r, digests[k]))
    && (forall k: nat :: k + 1 < |inputs| ==> BlocksRaised(inputs[k], inputs[k + 1], digests[k]))
  }

  /** The bytes are those of the digests, one after the other. */
  ghost predicate Concatenates(key: seq<Byte>, digests: seq<Digest>) {
    |key| <= HASH_LENGTH * |digests|
    && forall i: nat :: i < |key| ==> key[i] == digests[i / HASH_LENGTH][i % HASH_LENGTH]
  }

  ghost predicate KeyFrom(h: Hash, password: seq<Byte>, salt: seq<Byte>, id: Byte, r: nat, key: seq<Byte>,
                          inputs: seq<seq<Byte>>, digests: seq<Digest>) {
    && Chained(h, seq(BLOCK_LENGTH, _ => id), r, inputs, digests)
    && |digests| == CeilDiv(|key|, HASH_LENGTH)
    && (inputs != [] ==> SaltThenPassword(inputs[0], salt, password))
    && Concatenates(key, digests)
  }

  /**
   What a key is: the bytes of as many digests as it takes, the first one that of the
   id byte filling a block followed by salt and password, and each of the others that
   of the id block and the input before with every block raised.
   */
  ghost predicate IsKey(h: Hash, password: seq<Byte>, salt: seq<Byte>, id: Byte, r: nat, n: nat, key: seq<Byte>) {
    |key| == n && exists inputs, digests :: KeyFrom(h, password, salt, id, r, key, inputs, digests)
  }

  lemma {:induction false} FillIsSaltThenPassword(salt: seq<Byte>, password: seq<Byte>)
    ensures SaltThenPassword(Fill(salt) + Fill(password), salt, password)
  {
    forall i: nat | i < |Fill(salt)| ensures Fill(salt)[i] == salt[i % |salt|] {
      CopiesAt(salt, |Fill(salt)|, i);
    }
    forall i: nat | i < |Fill(password)| ensures Fill(password)[i] == password[i % |password|] {
      CopiesAt(password, |Fill(password)|, i);
    }
  }

  lemma {:induction false} IteratedIsHashed(h: Hash, x: seq<Byte>, r: nat) returns (chain: seq<Digest>)
    requires r >= 1
    ensures |chain| == r && chain[0] == h(x) && chain[r - 1] == Iterated(h, x, r)
    ensures forall i: nat :: i + 1 < r ==> chain[i + 1] == h(chain[i])
    ensures HashedTimes(h, x, r, Iterated(h, x, r))
  {
    if r == 1 {
      chain := [h(x)];
    } else {
      chain := IteratedIsHashed(h, x, r - 1);
      chain := chain + [Iterated(h, x, r)];
    }
  }

  lemma {:induction false} AddOneRaises(block: seq<Byte>, digest: Digest)
    requires |block| == BLOCK_LENGTH
    ensures BlockRaised(block, AddOne(block, Copies(digest, BLOCK_LENGTH)), digest)
  {
    var b := seq(BLOCK_LENGTH, i requires 0 <= i => digest[i % HASH_LENGTH]);
    forall i: nat | i < BLOCK_LENGTH ensures Copies(digest, BLOCK_LENGTH)[i] == b[i] {
      CopiesAt(digest, BLOCK_LENGTH, i);
    }
    assert Copies(digest, BLOCK_LENGTH) == b;
    AddOneUnique(block, b, AddOne(block, b));
  }

  lemma {:induction false} AddToBlocksAt(input: seq<Byte>, b: seq<Byte>, offset: nat)
    requires |input| % BLOCK_LENGTH == 0 && offset % BLOCK_LENGTH == 0 && offset + BLOCK_LENGTH <= |input|
    ensures AddToBlocks(input, b)[offset..][..BLOCK_LENGTH] == AddOne(input[offset..][..BLOCK_LENGTH], b)
    decreases offset
  {
    var first, rest := AddOne(input[..BLOCK_LENGTH], b), AddToBlocks(input[BLOCK_LENGTH..], b);
    assert AddToBlocks(input, b) == first + rest;
    if offset == 0 {
      assert (first + rest)[0..][..BLOCK_LENGTH] == first;
      assert input[0..][..BLOCK_LENGTH] == input[..BLOCK_LENGTH];
    } else {
      AddToBlocksAt(input[BLOCK_LENGTH..], b, offset - BLOCK_LENGTH);
      assert (first + rest)[offset..] == rest[offset - BLOCK_LENGTH..];
      assert input[BLOCK_LENGTH..][offset - BLOCK_LENGTH..] == input[offset..];
    }
  }

  lemma {:induction false} AddToBlocksRaises(input: seq<Byte>, digest: Digest)
    requires |input| % BLOCK_LENGTH == 0
    ensures BlocksRaised(input, AddToBlocks(input, Copies(digest, BLOCK_LENGTH)), digest)
  {
    var b := Copies(digest, BLOCK_LENGTH);
    forall offset: nat | offset % BLOCK_LENGTH == 0 && offset + BLOCK_LENGTH <= |input|
      ensures BlockRaised(input[offset..][..BLOCK_LENGTH], AddToBlocks(input, b)[offset..][..BLOCK_LENGTH], digest)
    {
      AddToBlocksAt(input, b, offset);
      AddOneRaises(input[offset..][..BLOCK_LENGTH], digest);
    }
  }

  lemma {:induction false} StreamIsChained(h: Hash, d: seq<Byte>, input: seq<Byte>, r: nat, c: nat)
    returns (inputs: seq<seq<Byte>>, digests: seq<Digest>)
    requires r >= 1 && |input| % BLOCK_LENGTH == 0
    ensures Chained(h, d, r, inputs, digests) && |digests| == c && (c > 0 ==> inputs[0] == input)
    ensures Concatenates(Stream(h, d, input, r, c), digests)
    decreases c
  {
    if c == 0 {
      inputs, digests := [], [];
    } else {
      var a := Iterated(h, d + input, r);
      var next := AddToBlocks(input, Copies(a, BLOCK_LENGTH));
      inputs, digests := StreamIsChained(h, d, next, r, c - 1);
      var _ := IteratedIsHashed(h, d + input, r);
      AddToBlocksRaises(input, a);
      DigestInFront(a, Stream(h, d, next, r, c - 1), digests);
      ChainInFront(h, d, r, input, a, inputs, digests);
      inputs, digests := [input] + inputs, [a] + digests;
    }
  }

  lemma {:induction false} ChainInFront(h: Hash, d: seq<Byte>, r: nat, input: seq<Byte>, digest: Digest,
                                        inputs: seq<seq<Byte>>, digests: seq<Digest>)
    requires Chained(h, d, r, inputs, digests) && HashedTimes(h, d + input, r, digest)
    requires inputs != [] ==> BlocksRaised(input, inputs[0], digest)
    ensures Chained(h, d, r, [input] + inputs, [digest] + digests)
  {
  }

  lemma {:induction false} DigestInFront(a: Digest, rest: seq<Byte>, digests: seq<Digest>)
    requires Concatenates(rest, digests)
    ensures Concatenates(a + rest, [a] + digests)
  {
    forall i: nat | i < |a + rest|
      ensures (a + rest)[i] == ([a] + digests)[i / HASH_LENGTH][i % HASH_LENGTH]
    {
      if i >= HASH_LENGTH {
        assert (i - HASH_LENGTH) / HASH_LENGTH == i / HASH_LENGTH - 1;
        assert (i - HASH_LENGTH) % HASH_LENGTH == i % HASH_LENGTH;
      }
    }
  }

  /** What the RFC's steps produce is a key in this sense. */
  lemma {:induction false} DeriveIsKey(h: Hash, password: seq<Byte>, salt: seq<Byte>, id: Byte, r: nat, n: nat)
    requires r >= 1
    ensures IsKey(h, password, salt, id, r, n, Derive(h, password, salt, id, r, n))
  {
    var d, input := seq(BLOCK_LENGTH, _ => id), Fill(salt) + Fill(password);
    var inputs, digests := StreamIsChained(h, d, input, r, CeilDiv(n, HASH_LENGTH));
    FillIsSaltThenPassword(salt, password);
    assert KeyFrom(h, password, salt, id, r, Derive(h, password, salt, id, r, n), inputs, digests);
  }

  lemma {:induction false} ChainsAgree(h: Hash, a: seq<Digest>, b: seq<Digest>, i: nat)
    requires |a| == |b| && i < |a| && a[0] == b[0]
    requires forall k: nat :: k + 1 < |a| ==> a[k + 1] == h(a[k])
    requires forall k: nat :: k + 1 < |b| ==> b[k + 1] == h(b[k])
    ensures a[i] == b[i]
  {
    if i > 0 {
      ChainsAgree(h, a, b, i - 1);
      assert a[(i - 1) + 1] == h(a[i - 1]) && b[(i - 1) + 1] == h(b[i - 1]);
    }
  }

  lemma {:induction false} HashedOnce(h: Hash, x: seq<Byte>, r: nat, a: Digest, b: Digest)
    requires HashedTimes(h, x, r, a) && HashedTimes(h, x, r, b)
    ensures a == b
  {
    var c: seq<Digest> :| |c| == r > 0 && c[0] == h(x) && a == c[r - 1]
                          && forall i: nat :: i + 1 < r ==> c[i + 1] == h(c[i]);
    var d: seq<Digest> :| |d| == r > 0 && d[0] == h(x) && b == d[r - 1]
                          && forall i: nat :: i + 1 < r ==> d[i + 1] == h(d[i]);
    ChainsAgree(h, c, d, r - 1);
  }

  lemma {:induction false} BlockRaisedOnce(input: seq<Byte>, a: seq<Byte>, b: seq<Byte>, digest: Digest)
    requires |a| == |b| && BlockRaised(input, a, digest) && BlockRaised(input, b, digest)
    ensures a == b
  {
    KeepsUnique(a, 0, b, 0);
  }

  /** The block that an index lies in. */
  lemma {:induction false} BlockOf(i: nat, n: nat) returns (offset: nat)
    requires i < n && n % BLOCK_LENGTH == 0
    ensures offset % BLOCK_LENGTH == 0 && offset <= i < offset + BLOCK_LENGTH <= n
  {
    offset := i - i % BLOCK_LENGTH;
  }

  lemma {:induction false} RaisedOnce(input: seq<Byte>, a: seq<Byte>, b: seq<Byte>, digest: Digest)
    requires |input| % BLOCK_LENGTH == 0 && BlocksRaised(input, a, digest) && BlocksRaised(input, b, digest)
    ensures a == b
  {
    forall i: nat | i < |input| ensures a[i] == b[i] {
      var offset := BlockOf(i, |input|);
      var x, y := a[offset..][..BLOCK_LENGTH], b[offset..][..BLOCK_LENGTH];
      BlockRaisedOnce(input[offset..][..BLOCK_LENGTH], x, y, digest);
      assert x[i - offset] == a[i] && y[i - offset] == b[i];
    }
  }

  lemma {:induction false} StartsOnce(a: seq<Byte>, b: seq<Byte>, salt: seq<Byte>, password: seq<Byte>)
    requires SaltThenPassword(a, salt, password) && SaltThenPassword(b, salt, password)
    ensures a == b && |a| % BLOCK_LENGTH == 0
  {
  }

  lemma {:induction false} ChainedOnce(h: Hash, d: seq<Byte>, r: nat, inputs: seq<seq<Byte>>, digests: seq<Digest>,
                                       others: seq<seq<Byte>>, more: seq<Digest>, k: nat)
    requires Chained(h, d, r, inputs, digests) && Chained(h, d, r, others, more)
    requires k < |inputs| == |others| && inputs[0] == others[0] && |inputs[0]| % BLOCK_LENGTH == 0
    ensures inputs[k] == others[k] && digests[k] == more[k] && |inputs[k]| % BLOCK_LENGTH == 0
  {
    if k > 0 {
      ChainedOnce(h, d, r, inputs, digests, others, more, k - 1);
      assert BlocksRaised(inputs[k - 1], inputs[(k - 1) + 1], digests[k - 1]);
      assert BlocksRaised(others[k - 1], others[(k - 1) + 1], more[k - 1]);
      RaisedOnce(inputs[k - 1], inputs[k], others[k], digests[k - 1]);
    }
    HashedOnce(h, d + inputs[k], r, digests[k], more[k]);
  }

  lemma {:induction false} SameKey(h: Hash, password: seq<Byte>, salt: seq<Byte>, id: Byte, r: nat, a: seq<Byte>,
                                   inputs: seq<seq<Byte>>, digests: seq<Digest>, b: seq<Byte>,
                                   others: seq<seq<Byte>>, more: seq<Digest>)
    requires |a| == |b| && KeyFrom(h, password, salt, id, r, a, inputs, digests)
    requires KeyFrom(h, password, salt, id, r, b, others, more)
    ensures a == b
  {
    forall i: nat | i < |a| ensures a[i] == b[i] {
      StartsOnce(inputs[0], others[0], salt, password);
      ChainedOnce(h, seq(BLOCK_LENGTH, _ => id), r, inputs, digests, others, more, i / HASH_LENGTH);
    }
  }

  /** The RFC's steps compute the one key there is. */
  lemma {:induction false} OneKey(h: Hash, password: seq<Byte>, salt: seq<Byte>, id: Byte, r: nat, n: nat,
                                  key: seq<Byte>)
    requires r >= 1
    ensures IsKey(h, password, salt, id, r, n, key) <==> key == Derive(h, password, salt, id, r, n)
  {
    var derived := Derive(h, password, salt, id, r, n);
    DeriveIsKey(h, password, salt, id, r, n);
    if IsKey(h, password, salt, id, r, n, key) {
      var inputs, digests :| KeyFrom(h, password, salt, id, r, key, inputs, digests);
      var others, more :| KeyFrom(h, password, salt, id, r, derived, others, more);
      SameKey(h, password, salt, id, r, key, inputs, digests, derived, others, more);
    }
  }
}
