/**
 * `load` and `cached`: one GET request to the GitHub API, and the
 * cache-through fetch in front of it. The network is a `Reply` argument: what
 * the request would produce if it were made.
 */
module Fetch {
  import opened Wrappers
  import opened JsValues
  import opened Cache

  /** Why a fetch failed: no response, a status outside `res.ok`, or a body that is not JSON. */
  datatype FetchError = NetworkError | HttpStatus(status: int) | ParseError

  /** What the network does with one request: no response, or a status and a body (`None` when it does not parse). */
  datatype Reply = Unreachable | Response(status: int, body: Option<Json>)

  /** `res.ok`: the status is in the range 200 to 299. */
  predicate Ok(status: int) {
    200 <= status <= 299
  }

  /** `load(url)`: throws `HTTP <status>` unless `res.ok`, otherwise parses the body. */
  function Load(reply: Reply): (r: Result<Json, FetchError>)
    ensures r.Success? <==> reply.Response? && Ok(reply.status) && reply.body.Some?
    ensures r.Success? ==> r.value == reply.body.value
    ensures reply.Unreachable? ==> r == Failure(NetworkError)
    ensures reply.Response? && !Ok(reply.status) ==> r == Failure(HttpStatus(reply.status))
  {
    match reply
    case Unreachable => Failure(NetworkError)
    case Response(status, body) =>
      if !Ok(status) then Failure(HttpStatus(status))
      else match body
        case None => Failure(ParseError)
        case Some(data) => Success(data)
  }

  /** `if (hit)`: a read that returned a truthy value. A cached falsy payload counts as a miss. */
  predicate IsHit(items: map<string, Raw>, url: string, now: int) {
    var hit := Lookup(items, url, now);
    hit.Some? && Truthy(hit.value)
  }

  /** What `cached(url)` resolves or rejects with. */
  function CachedResult(items: map<string, Raw>, url: string, now: int, reply: Reply): Result<Json, FetchError> {
    if IsHit(items, url, now) then Success(Lookup(items, url, now).value) else Load(reply)
  }

  /** Local storage once `cached(url)` has settled. */
  function StoreAfter(items: map<string, Raw>, url: string, now: int, reply: Reply, later: int, accepted: bool): map<string, Raw> {
    if !IsHit(items, url, now) && Load(reply).Success? && accepted
    then Stored(items, url, Load(reply).value, later)
    else items
  }

  /**
   * `cached(url)`: the read happens at `now`; on a miss the request is made
   * and, when it succeeds, the write happens at `later`. `requested` is
   * whether the network was asked at all.
   */
  method Cached(store: Store, url: string, now: int, reply: Reply, later: int, accepted: bool)
    returns (r: Result<Json, FetchError>, requested: bool)
    modifies store
    ensures IsHit(old(store.items), url, now) ==>
      !requested && r == Success(Lookup(old(store.items), url, now).value) && store.items == old(store.items)
    ensures !IsHit(old(store.items), url, now) ==> requested && r == Load(reply)
    ensures requested && r.Success? ==>
      store.items == if accepted then Stored(old(store.items), url, r.value, later) else old(store.items)
    ensures r.Failure? ==> store.items == old(store.items)
    ensures r == CachedResult(old(store.items), url, now, reply)
    ensures store.items == StoreAfter(old(store.items), url, now, reply, later, accepted)
  {
    var hit := store.Read(url, now);
    if hit.Some? && Truthy(hit.value) {
      return Success(hit.value), false;
    }
    requested := true;
    r := Load(reply);
    if r.Success? {
      store.Write(url, r.value, later, accepted);
    }
  }
}
