/**
 `pkcs12_sha1_kdf` as the program computes it: cyclic indexing for the padding,
 16-bit sums with a running carry, and an input array rewritten in place. A
 hash call can fail; `faults(k)` says whether the k-th call of this run does.
 */
module Kdf {
  import opened Wrappers
  import opened BigEndian
  import opened Pkcs12

  datatype HashError = HashError

  /** Number of hash calls in a derivation: `for _ in 1..iterations` runs max(iterations, 1) - 1 times. */
  function Rounds(iterations: nat): (r: nat)
    ensures r >= 1
  {
    if iterations == 0 then 1 else iterations
  }

  /** None of the n hash calls from the given one on fails. */
  ghost predicate Works(faults: nat -> bool, first: nat, n: nat) {
    forall k :: first <= k < first + n ==> !faults(k)
  }

  /** `pad`: byte i of the padded string is byte i mod length of the data. */
  function Pad(data: seq<Byte>): (s: seq<Byte>) {
    if data == [] then []
    else seq(CeilDiv(|data|, BLOCK_LENGTH) * BLOCK_LENGTH, index requires 0 <= index => data[index % |data|])
  }

  /** Cyclic indexing produces the truncated copies the RFC asks for, in whole blocks. */
  lemma {:induction false} PadIsFill(data: seq<Byte>)
    ensures Pad(data) == Fill(data)
    ensures |Pad(data)| % BLOCK_LENGTH == 0
  {
    if data != [] {
      forall i: nat | i < |Pad(data)| ensures Pad(data)[i] == Fill(data)[i] {
        CopiesAt(data, |Fill(data)|, i);
      }
    }
  }

  /** A digest repeated cyclically over one block. */
  function Repeated(digest: Digest): (s: seq<Byte>)
    ensures |s| == BLOCK_LENGTH
  {
    seq(BLOCK_LENGTH, index requires 0 <= index => digest[index % HASH_LENGTH])
  }

  lemma {:induction false} RepeatedIsCopies(digest: Digest)
    ensures Repeated(digest) == Copies(digest, BLOCK_LENGTH)
  {
    forall i: nat | i < BLOCK_LENGTH ensures Repeated(digest)[i] == Copies(digest, BLOCK_LENGTH)[i] {
      CopiesAt(digest, BLOCK_LENGTH, i);
    }
  }

  /** A column sum and its digit and carry weigh the same at any place. */
  lemma {:induction false} Column(a: Byte, b: Byte, carryIn: nat, digit: Byte, carryOut: nat, n: nat)
    requires a + b + carryIn == 0x100 * carryOut + digit
    ensures Scaled(digit, n) + Scaled(carryOut, n + 1) == Scaled(a, n) + Scaled(b, n) + Scaled(carryIn, n)
  {
    ScaledAdd(a, b, n);
    ScaledAdd(a + b, carryIn, n);
    ScaledAdd(0x100 * carryOut, digit, n);
    ScaledShift(carryOut, n);
  }

  /** One turn of the carry loop, on the integers read so far. */
  lemma {:induction false} CarryTurn(a: Byte, b: Byte, carryIn: nat, digit: Byte, carryOut: nat, lowA: seq<Byte>,
                                     lowB: seq<Byte>, low: seq<Byte>)
    requires |lowA| == |lowB| == |low|
    requires a + b + carryIn == 0x100 * carryOut + digit
    requires Value(low) + Scaled(carryIn, |low|) == Value(lowA) + Value(lowB) + 1
    ensures Value([digit] + low) + Scaled(carryOut, |low| + 1) == Value([a] + lowA) + Value([b] + lowB) + 1
  {
    Column(a, b, carryIn, digit, carryOut, |low|);
    ValueCons(a, lowA);
    ValueCons(b, lowB);
    ValueCons(digit, low);
  }

  /** The same turn at one index of a block and of the repeated digest. */
  lemma {:induction false} CarryTurnAt(block: seq<Byte>, repeated: seq<Byte>, index: nat, carryIn: nat, digit: Byte,
                                       carryOut: nat, low: seq<Byte>)
    requires |block| == |repeated| && index < |block| && |low| == |block| - index - 1
    requires block[index] + repeated[index] + carryIn == 0x100 * carryOut + digit
    requires Value(low) + Scaled(carryIn, |low|) == Value(block[index + 1..]) + Value(repeated[index + 1..]) + 1
    ensures Value([digit] + low) + Scaled(carryOut, |low| + 1) == Value(block[index..]) + Value(repeated[index..]) + 1
  {
    assert block[index..] == [block[index]] + block[index + 1..];
    assert repeated[index..] == [repeated[index]] + repeated[index + 1..];
    CarryTurn(block[index], repeated[index], carryIn, digit, carryOut, block[index + 1..], repeated[index + 1..], low);
  }

  lemma {:induction false} WriteByte<T(!new)>(before: seq<T>, front: seq<T>, block: seq<T>, index: nat, low: seq<T>,
                                       rest: seq<T>)
    requires index < |block|
    requires before == front + block[..index + 1] + low + rest
    ensures before[|front| + index] == block[index]
    ensures forall digit :: before[|front| + index := digit] == front + block[..index] + ([digit] + low) + rest
  {
    assert block[..index + 1] == block[..index] + [block[index]];
  }

  /** When the carry loop has run through a block, the block holds the sum plus one modulo 2^v. */
  lemma {:induction false} CarryDone(block: seq<Byte>, repeated: seq<Byte>, now: seq<Byte>, carry: nat)
    requires |now| == |block|
    requires Value(now) + Scaled(carry, |now|) == Value(block) + Value(repeated) + 1
    ensures now == AddOne(block, repeated)
  {
    assert Keeps(now, Value(block) + Value(repeated) + 1);
    AddOneUnique(block, repeated, now);
  }

  /** The carry loop over the block of |repeated| bytes that starts at offset, with what is around it left alone. */
  method CarryLoop(input: array<Byte>, offset: nat, repeated: seq<Byte>, ghost front: seq<Byte>,
                   ghost block: seq<Byte>, ghost rest: seq<Byte>)
    returns (ghost now: seq<Byte>)
    requires input[..] == front + block + rest && |front| == offset && |block| == |repeated|
    modifies input
    ensures input[..] == front + now + rest && now == AddOne(block, repeated)
  {
    now := [];
    var carry: U16 := 1;
    var index := |repeated|;
    assert front + block[..index] + now + rest == front + block + rest;
    while index > 0
      invariant 0 <= index <= |repeated| && |now| == |repeated| - index
      invariant carry == 0 || carry == 1
      invariant input[..] == front + block[..index] + now + rest
      invariant Value(now) + Scaled(carry as nat, |now|) == Value(block[index..]) + Value(repeated[index..]) + 1
    {
      index := index - 1;
      ghost var before, carryIn := input[..], carry as nat;
      assert before[offset + index] == input[offset + index];
      WriteByte(before, front, block, index, now, rest);
      var sum: U16 := input[offset + index] as U16 + repeated[index] as U16 + carry;
      var digit := (sum % 0x100) as Byte;
      carry := sum / 0x100;
      input[offset + index] := digit;
      CarryTurnAt(block, repeated, index, carryIn, digit, carry as nat, now);
      now := [digit] + now;
      assert input[..] == before[offset + index := digit];
    }
    assert block[0..] == block && repeated[0..] == repeated && front + block[..0] == front;
    CarryDone(block, repeated, now, carry as nat);
  }

  /** One block of the input: the bytes at offset become their sum with the digest, plus one. */
  method AddBlock(input: array<Byte>, offset: nat, repeated: seq<Byte>)
    requires offset + |repeated| <= input.Length
    modifies input
    ensures input[..] == old(input[..])[..offset]
                       + AddOne(old(input[..])[offset..][..|repeated|], repeated)
                       + old(input[..])[offset..][|repeated|..]
  {
    ghost var front, tail := input[..][..offset], input[..][offset..];
    assert input[..] == front + tail[..|repeated|] + tail[|repeated|..];
    ghost var _ := CarryLoop(input, offset, repeated, front, tail[..|repeated|], tail[|repeated|..]);
  }

  lemma {:induction false} AddToBlocksSnoc(front: seq<Byte>, block: seq<Byte>, b: seq<Byte>)
    requires |front| % BLOCK_LENGTH == 0 && |block| == BLOCK_LENGTH
    ensures AddToBlocks(front + block, b) == AddToBlocks(front, b) + AddOne(block, b)
  {
    if front == [] {
      assert front + block == block && block[..BLOCK_LENGTH] == block && block[BLOCK_LENGTH..] == [];
    } else {
      var head, tail := front[..BLOCK_LENGTH], front[BLOCK_LENGTH..];
      assert (front + block)[..BLOCK_LENGTH] == head && (front + block)[BLOCK_LENGTH..] == tail + block;
      AddToBlocksSnoc(tail, block, b);
    }
  }

  lemma {:induction false} Splice<T>(was: seq<T>, before: seq<T>, after: seq<T>, front: seq<T>, block: seq<T>)
    requires |was| == |before| && |front| + |block| <= |was|
    requires before[|front|..] == was[|front|..]
    requires after == front + block + before[|front|..][|block|..]
    ensures |after| == |was|
    ensures after[..|front| + |block|] == front + block
    ensures after[|front| + |block|..] == was[|front| + |block|..]
  {
  }

  lemma {:induction false} AddToBlocksNext(was: seq<Byte>, offset: nat, b: seq<Byte>)
    requires offset % BLOCK_LENGTH == 0 && offset + BLOCK_LENGTH <= |was|
    ensures AddToBlocks(was[..offset + BLOCK_LENGTH], b)
         == AddToBlocks(was[..offset], b) + AddOne(was[offset..][..BLOCK_LENGTH], b)
  {
    var block := was[offset..][..BLOCK_LENGTH];
    assert was[..offset + BLOCK_LENGTH] == was[..offset] + block;
    AddToBlocksSnoc(was[..offset], block, b);
  }

  /** `input.chunks_exact_mut(BLOCK_LENGTH)`: a tail shorter than a block would be left alone. */
  method AddBlocks(input: array<Byte>, repeated: seq<Byte>)
    requires |repeated| == BLOCK_LENGTH && input.Length % BLOCK_LENGTH == 0
    modifies input
    ensures input[..] == AddToBlocks(old(input[..]), repeated)
  {
    ghost var was := input[..];
    ghost var before := was;
    ghost var front := [];
    var offset := 0;
    while offset + BLOCK_LENGTH <= input.Length
      invariant 0 <= offset <= input.Length && offset % BLOCK_LENGTH == 0
      invariant before == input[..]
      invariant front == AddToBlocks(was[..offset], repeated)
      invariant before[..offset] == front
      invariant before[offset..] == was[offset..]
    {
      AddBlock(input, offset, repeated);
      ghost var block := AddOne(was[offset..][..BLOCK_LENGTH], repeated);
      AddToBlocksNext(was, offset, repeated);
      Splice(was, before, input[..], front, block);
      front, before := front + block, input[..];
      offset := offset + BLOCK_LENGTH;
    }
    assert was[..offset] == was && before[..offset] == before;
  }

  /** The chained hashing of one digest; `first` is the number of hash calls made before. */
  method Digesting(h: Hash, faults: nat -> bool, first: nat, data: seq<Byte>, iterations: nat)
    returns (r: Result<Digest, HashError>)
    ensures r.Ok? <==> Works(faults, first, Rounds(iterations))
    ensures r.Ok? ==> r.value == Iterated(h, data, Rounds(iterations))
  {
    if faults(first) { return Err(HashError); }
    var digest := h(data);
    var round := 1;
    while round < iterations
      invariant 1 <= round <= Rounds(iterations)
      invariant digest == Iterated(h, data, round)
      invariant Works(faults, first, round)
    {
      if faults(first + round) { return Err(HashError); }
      digest := h(digest);
      round := round + 1;
    }
    r := Ok(digest);
  }

  /** Hash calls made for the first n digests: n * rounds. */
  function HashCalls(n: nat, rounds: nat): nat {
    if n == 0 then 0 else HashCalls(n - 1, rounds) + rounds
  }

  lemma {:induction false} HashCallsMeaning(n: nat, rounds: nat)
    ensures HashCalls(n, rounds) == n * rounds
  {
    if n > 0 { HashCallsMeaning(n - 1, rounds); }
  }

  lemma {:induction false} HashCallsMonotone(n: nat, m: nat, rounds: nat)
    requires n <= m
    ensures HashCalls(n, rounds) <= HashCalls(m, rounds)
    decreases m
  {
    if n < m { HashCallsMonotone(n, m - 1, rounds); }
  }

  lemma {:induction false} StreamTurn(h: Hash, d: seq<Byte>, input: seq<Byte>, r: nat, c: nat, result: seq<Byte>,
                                      digest: Digest)
    requires r >= 1 && c > 0 && |input| % BLOCK_LENGTH == 0 && digest == Iterated(h, d + input, r)
    ensures (result + digest) + Stream(h, d, AddToBlocks(input, Repeated(digest)), r, c - 1)
         == result + Stream(h, d, input, r, c)
  {
    RepeatedIsCopies(digest);
  }

  /** One pass of the outer loop: a digest of the input, then the input rewritten with it. */
  method NextDigest(h: Hash, faults: nat -> bool, first: nat, diversifier: seq<Byte>, input: array<Byte>,
                    iterations: nat)
    returns (r: Result<Digest, HashError>)
    requires input.Length % BLOCK_LENGTH == 0
    modifies input
    ensures r.Ok? <==> Works(faults, first, Rounds(iterations))
    ensures r.Ok? ==> r.value == Iterated(h, diversifier + old(input[..]), Rounds(iterations))
    ensures r.Ok? ==> input[..] == AddToBlocks(old(input[..]), Repeated(r.value))
  {
    r := Digesting(h, faults, first, diversifier + input[..], iterations);
    if r.Ok? { AddBlocks(input, Repeated(r.value)); }
  }

  /** The loop over the digests: the stream of RFC 7292 for the given input, unless a hash call fails. */
  method DeriveBlocks(h: Hash, faults: nat -> bool, diversifier: seq<Byte>, input: array<Byte>, iterations: nat,
                      blocks: nat)
    returns (r: Result<seq<Byte>, HashError>)
    requires input.Length % BLOCK_LENGTH == 0
    modifies input
    ensures r.Ok? <==> Works(faults, 0, HashCalls(blocks, Rounds(iterations)))
    ensures r.Ok? ==> r.value == Stream(h, diversifier, old(input[..]), Rounds(iterations), blocks)
  {
    ghost var rounds, initial := Rounds(iterations), input[..];
    var result: seq<Byte> := [];
    var calls, done := 0, 0;
    while done < blocks
      invariant 0 <= done <= blocks
      invariant calls == HashCalls(done, rounds)
      invariant result + Stream(h, diversifier, input[..], rounds, blocks - done)
             == Stream(h, diversifier, initial, rounds, blocks)
      invariant Works(faults, 0, calls)
    {
      HashCallsMonotone(done + 1, blocks, rounds);
      ghost var before := input[..];
      var digest := NextDigest(h, faults, calls, diversifier, input, iterations);
      if digest.Err? { return Err(digest.error); }
      StreamTurn(h, diversifier, before, rounds, blocks - done, result, digest.value);
      result := result + digest.value;
      calls := calls + Rounds(iterations);
      done := done + 1;
    }
    r := Ok(result);
  }

  /** Padding, then the digests, cut to the length of the key. */
  method DeriveBytes(h: Hash, faults: nat -> bool, password: seq<Byte>, salt: seq<Byte>, id: Byte, iterations: nat,
                     keyLength: nat)
    returns (r: Result<seq<Byte>, HashError>)
    ensures r.Ok? <==> Works(faults, 0, HashCalls(CeilDiv(keyLength, HASH_LENGTH), Rounds(iterations)))
    ensures r.Ok? ==> r.value == Derive(h, password, salt, id, Rounds(iterations), keyLength)
  {
    PadIsFill(salt);
    PadIsFill(password);
    var diversifier := seq(BLOCK_LENGTH, _ => id);
    var initial := Pad(salt) + Pad(password);
    var input := new Byte[|initial|](i requires 0 <= i < |initial| => initial[i]);
    assert input[..] == initial;
    r := DeriveBlocks(h, faults, diversifier, input, iterations, CeilDiv(keyLength, HASH_LENGTH));
    if r.Ok? { r := Ok(r.value[..keyLength]); }
  }

  /** The whole derivation: a key of RFC 7292 unless one of its hash calls fails. */
  method Pkcs12Sha1Kdf(h: Hash, faults: nat -> bool, password: seq<Byte>, salt: seq<Byte>, id: Byte,
                       iterations: nat, keyLength: nat)
    returns (r: Result<seq<Byte>, HashError>)
    ensures r.Ok? <==> Works(faults, 0, HashCalls(CeilDiv(keyLength, HASH_LENGTH), Rounds(iterations)))
    ensures r.Ok? ==> r.value == Derive(h, password, salt, id, Rounds(iterations), keyLength)
    ensures r.Ok? ==> IsKey(h, password, salt, id, if iterations == 0 then 1 else iterations, keyLength, r.value)
  {
    r := DeriveBytes(h, faults, password, salt, id, iterations, keyLength);
    DeriveIsKey(h, password, salt, id, if iterations == 0 then 1 else iterations, keyLength);
  }
}
