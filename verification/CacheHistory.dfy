/**
 Histories of a shared cache, for any keys S, values K and derivation function
 f: which answers a sequence of look-ups gets, and what is derived on the way.
 */
module CacheHistory {
  import opened Wrappers

  /** A look-up: what it asks for (None if the request itself is invalid), and whether its derivation would fail. */
  datatype Request<S> = Request(wanted: Option<S>, fails: bool)

  /** Every cached entry is the derived value of its key. */
  ghost predicate Faithful<S(!new), K>(f: S -> K, cache: map<S, K>) {
    forall s :: s in cache ==> cache[s] == f(s)
  }

  /** The key a request derives a value for and stores, if it does. */
  function Derived<S(==), K>(cache: map<S, K>, request: Request<S>): Option<S> {
    if request.wanted.Some? && request.wanted.value !in cache && !request.fails then request.wanted else None
  }

  /** The cache after a request. */
  function After<S(==), K>(f: S -> K, cache: map<S, K>, request: Request<S>): map<S, K> {
    match Derived(cache, request)
    case None => cache
    case Some(s) => cache[s := f(s)]
  }

  /** What a request is answered without any cache: None stands for an error. */
  function Answer<S, K>(f: S -> K, request: Request<S>): Option<K> {
    if request.wanted.Some? && !request.fails then Some(f(request.wanted.value)) else None
  }

  /** What a request is answered when the cache is as given. */
  function Returned<S(==), K>(f: S -> K, cache: map<S, K>, request: Request<S>): Option<K> {
    if request.wanted.Some? && request.wanted.value in cache then Some(cache[request.wanted.value])
    else Answer(f, request)
  }

  /** The cache after a sequence of requests. */
  function AfterAll<S(==), K>(f: S -> K, cache: map<S, K>, requests: seq<Request<S>>): map<S, K>
    decreases requests
  {
    if requests == [] then cache else AfterAll(f, After(f, cache, requests[0]), requests[1..])
  }

  /** What each request of a sequence is answered. */
  function ReturnedAll<S(==), K>(f: S -> K, cache: map<S, K>, requests: seq<Request<S>>): (rs: seq<Option<K>>)
    ensures |rs| == |requests|
    decreases requests
  {
    if requests == [] then []
    else [Returned(f, cache, requests[0])] + ReturnedAll(f, After(f, cache, requests[0]), requests[1..])
  }

  /** The keys derived during a sequence of requests, in order. */
  function DerivedAll<S(==), K>(f: S -> K, cache: map<S, K>, requests: seq<Request<S>>): seq<S>
    decreases requests
  {
    if requests == [] then []
    else
      var rest := DerivedAll(f, After(f, cache, requests[0]), requests[1..]);
      match Derived(cache, requests[0])
      case None => rest
      case Some(s) => [s] + rest
  }

  /**
   Over every sequence of requests the cache cannot be observed: it stays faithful,
   a success is the derived value of what the request itself wanted, and an error
   is one the request would have met without a cache.
   */
  lemma {:induction false} CacheIsTransparent<S(!new), K>(f: S -> K, cache: map<S, K>, requests: seq<Request<S>>,
                                                i: nat)
    requires Faithful(f, cache) && i < |requests|
    ensures Faithful(f, AfterAll(f, cache, requests))
    ensures ReturnedAll(f, cache, requests)[i].Some? ==>
              requests[i].wanted.Some? && ReturnedAll(f, cache, requests)[i] == Some(f(requests[i].wanted.value))
    ensures ReturnedAll(f, cache, requests)[i].None? || !requests[i].fails ==>
              ReturnedAll(f, cache, requests)[i] == Answer(f, requests[i])
    decreases requests
  {
    var next, rest := After(f, cache, requests[0]), requests[1..];
    if i > 0 {
      CacheIsTransparent(f, next, rest, i - 1);
    } else if rest != [] {
      CacheIsTransparent(f, next, rest, 0);
    } else {
      assert AfterAll(f, next, rest) == next;
    }
  }

  /** Nothing is derived twice, or derived although it was cached; nothing leaves the cache. */
  lemma {:induction false} DerivedOnce<S, K>(f: S -> K, cache: map<S, K>, requests: seq<Request<S>>)
    ensures forall i, j :: 0 <= i < j < |DerivedAll(f, cache, requests)| ==>
              DerivedAll(f, cache, requests)[i] != DerivedAll(f, cache, requests)[j]
    ensures forall s :: s in DerivedAll(f, cache, requests) ==> s !in cache
    ensures forall s :: s in AfterAll(f, cache, requests) <==> s in cache || s in DerivedAll(f, cache, requests)
    decreases requests
  {
    if requests != [] {
      var next := After(f, cache, requests[0]);
      DerivedOnce(f, next, requests[1..]);
      var rest := DerivedAll(f, next, requests[1..]);
      assert forall k :: 0 <= k < |rest| ==> rest[k] in rest && rest[k] !in next;
    }
  }

  /** Without failures the derived keys are exactly the wanted ones that were not cached. */
  lemma {:induction false} DerivesWhatIsWanted<S, K>(f: S -> K, cache: map<S, K>, requests: seq<Request<S>>, s: S)
    requires forall r :: r in requests ==> !r.fails
    ensures s in DerivedAll(f, cache, requests) <==> s !in cache && exists r :: r in requests && r.wanted == Some(s)
    decreases requests
  {
    if requests != [] {
      var first, rest := requests[0], requests[1..];
      assert forall r :: r in requests <==> r == first || r in rest;
      DerivesWhatIsWanted(f, After(f, cache, first), rest, s);
    }
  }
}
