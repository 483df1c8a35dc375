/**
 Looking up many ids at once: the distinct ids in whatever order a hash set
 yields them, queried in chunks, gathered in a hash map, and read out again in
 request order. `queries(k)` is what the k-th query of a request fails with, if
 it fails.
 */
module Batches {
  import opened Wrappers
  import opened Records

  const CHUNK_LENGTH := 500

  type Queries = nat -> Option<LookupError>

  /** The simple look-up: one id at a time; the first id without a record is the error. */
  function OneByOne<R>(table: map<int, R>, ids: seq<int>): Result<seq<R>, int> {
    if ids == [] then Ok([])
    else if ids[0] !in table then Err(ids[0])
    else
      match OneByOne(table, ids[1..])
      case Ok(rest) => Ok([table[ids[0]]] + rest)
      case Err(id) => Err(id)
  }

  /** The records are those of the ids, position by position. */
  ghost predicate RecordsOf<R>(table: map<int, R>, ids: seq<int>, records: seq<R>) {
    |records| == |ids| && forall i :: 0 <= i < |ids| ==> ids[i] in table && records[i] == table[ids[i]]
  }

  /** Position i holds the first id that has no record. */
  ghost predicate FirstAbsent<R>(table: map<int, R>, ids: seq<int>, i: nat) {
    i < |ids| && ids[i] !in table && forall j :: 0 <= j < i ==> ids[j] in table
  }

  lemma {:induction false} AllPresent<R>(table: map<int, R>, ids: seq<int>, records: seq<R>)
    requires RecordsOf(table, ids, records)
    ensures OneByOne(table, ids) == Ok(records)
    decreases ids
  {
    if ids != [] {
      AllPresent(table, ids[1..], records[1..]);
      assert records == [records[0]] + records[1..];
    }
  }

  lemma {:induction false} AbsentAt<R>(table: map<int, R>, ids: seq<int>, i: nat)
    requires FirstAbsent(table, ids, i)
    ensures OneByOne(table, ids) == Err(ids[i])
    decreases ids
  {
    if i > 0 {
      AbsentAt(table, ids[1..], i - 1);
    }
  }

  /** A request succeeds exactly if every id has a record, and otherwise names the first id without one. */
  lemma {:induction false} OneByOneMeaning<R>(table: map<int, R>, ids: seq<int>) returns (i: nat)
    ensures var r := OneByOne(table, ids);
      && (r.Ok? ==> i == |ids| && RecordsOf(table, ids, r.value))
      && (r.Err? ==> FirstAbsent(table, ids, i) && ids[i] == r.error)
    decreases ids
  {
    if ids == [] {
      i := 0;
    } else if ids[0] !in table {
      i := 0;
    } else {
      i := OneByOneMeaning(table, ids[1..]);
      i := i + 1;
    }
  }

  /** The error of the first failing query among the n that start with the given one. */
  function FirstFault(queries: Queries, first: nat, n: nat): Option<LookupError>
    decreases n
  {
    if n == 0 then None
    else if queries(first).Some? then queries(first)
    else FirstFault(queries, first + 1, n - 1)
  }

  /** It is what the first failing query fails with, and none fails before. */
  lemma {:induction false} FirstFaultMeaning(queries: Queries, first: nat, n: nat) returns (k: nat)
    ensures first <= k <= first + n && forall i: nat :: first <= i < k ==> queries(i).None?
    ensures if k < first + n then queries(k).Some? && FirstFault(queries, first, n) == queries(k)
            else FirstFault(queries, first, n) == None
    decreases n
  {
    k := first;
    if n > 0 && queries(first).None? { k := FirstFaultMeaning(queries, first + 1, n - 1); }
  }

  lemma {:induction false} FirstFaultSplit(queries: Queries, first: nat, n: nat, m: nat)
    ensures FirstFault(queries, first, n + m) ==
            if FirstFault(queries, first, n).Some? then FirstFault(queries, first, n)
            else FirstFault(queries, first + n, m)
    decreases n
  {
    if n > 0 { FirstFaultSplit(queries, first + 1, n - 1, m); }
  }

  /** The number of chunks that n ids make. */
  function Chunks(n: nat): nat {
    if n == 0 then 0 else if n <= CHUNK_LENGTH then 1 else 1 + Chunks(n - CHUNK_LENGTH)
  }

  /** Chunks of 500. */
  lemma {:induction false} ChunksMeaning(n: nat)
    ensures Chunks(n) == CeilDiv(n, 500)
  {
    if n > 500 { ChunksMeaning(n - 500); }
  }

  /** Iterating over a hash set: every element once, in an arbitrary order. */
  method Listing<T(==)>(s: set<T>) returns (v: seq<T>)
    ensures |v| == |s| && Distinct(v)
    ensures forall x :: x in v <==> x in s
  {
    v := [];
    var rest := s;
    while rest != {}
      invariant |v| + |rest| == |s| && Distinct(v)
      invariant forall x :: x in s <==> x in v || x in rest
      invariant forall x :: x in v ==> x !in rest
      decreases rest
    {
      var x :| x in rest;
      v := v + [x];
      rest := rest - {x};
    }
  }

  /** `SELECT .. WHERE id IN (..)`: the keys of the records found, in an arbitrary order. */
  method Select<R>(table: map<int, R>, chunk: seq<int>) returns (keys: seq<int>)
    ensures forall id :: id in keys <==> id in chunk && id in table
  {
    keys := Listing(set id | id in chunk && id in table);
  }

  /** A map after the records that a table has for the given ids have been put in it. */
  ghost predicate Overlaid<R>(table: map<int, R>, ids: seq<int>, into: map<int, R>, found: map<int, R>) {
    && (forall id :: id in found <==> id in into || (id in ids && id in table))
    && (forall id :: id in found ==> found[id] == if id in ids && id in table then table[id] else into[id])
  }

  /** The chunk loop: every chunk is queried and its records are put in the map. */
  method Load<R>(table: map<int, R>, ids: seq<int>, queries: Queries, first: nat, into: map<int, R>)
    returns (r: Result<map<int, R>, LookupError>)
    ensures var fault := FirstFault(queries, first, Chunks(|ids|));
            if r.Ok? then fault.None? else fault == Some(r.error)
    ensures r.Ok? ==> Overlaid(table, ids, into, r.value)
  {
    var found := into;
    var start, query := 0, first;
    while start < |ids|
      invariant 0 <= start <= |ids| && query >= first
      invariant FirstFault(queries, first, Chunks(|ids|)) == FirstFault(queries, query, Chunks(|ids| - start))
      invariant Overlaid(table, ids[..start], into, found)
    {
      var end := if start + CHUNK_LENGTH <= |ids| then start + CHUNK_LENGTH else |ids|;
      if queries(query).Some? { return Err(queries(query).value); }
      var keys := Select(table, ids[start..end]);
      found := Insert(table, keys, found);
      assert ids[..end] == ids[..start] + ids[start..end];
      start, query := end, query + 1;
    }
    assert ids[..start] == ids;
    r := Ok(found);
  }

  /** The row loop: one record after the other goes into the map. */
  method Insert<R>(table: map<int, R>, keys: seq<int>, into: map<int, R>) returns (found: map<int, R>)
    requires forall id :: id in keys ==> id in table
    ensures forall id :: id in found <==> id in into || id in keys
    ensures forall id :: id in found ==> found[id] == if id in keys then table[id] else into[id]
  {
    found := into;
    for i := 0 to |keys|
      invariant forall id :: id in found <==> id in into || id in keys[..i]
      invariant forall id :: id in found ==> found[id] == if id in keys[..i] then table[id] else into[id]
    {
      assert keys[..i + 1] == keys[..i] + [keys[i]];
      var id := keys[i];
      assert id in keys;
      found := found[id := table[id]];
    }
    assert keys[..|keys|] == keys;
  }

  /** Reading the map out in request order, with duplicates; the first missing id is the error. */
  method Expand<R>(found: map<int, R>, ids: seq<int>) returns (r: Result<seq<R>, int>)
    ensures r == OneByOne(found, ids)
  {
    var records := [];
    for i := 0 to |ids|
      invariant |records| == i
      invariant forall j :: 0 <= j < i ==> ids[j] in found && records[j] == found[ids[j]]
    {
      if ids[i] !in found {
        AbsentAt(found, ids, i);
        return Err(ids[i]);
      }
      records := records + [found[ids[i]]];
    }
    AllPresent(found, ids, records);
    r := Ok(records);
  }

  /** Only the records of the requested ids matter. */
  lemma {:induction false} OneByOneAgrees<R>(a: map<int, R>, b: map<int, R>, ids: seq<int>)
    requires forall id :: id in ids ==> (id in a <==> id in b) && (id in a ==> a[id] == b[id])
    ensures OneByOne(a, ids) == OneByOne(b, ids)
    decreases ids
  {
    if ids != [] {
      var id := ids[0];
      assert id in ids;
      OneByOneAgrees(a, b, ids[1..]);
    }
  }
}
