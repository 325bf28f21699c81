/**
 * `read`, `write`, `TTL` and `PREFIX`: the time-to-live cache over the
 * browser's local storage. Local storage is a `Store` object whose `items`
 * map keys to stored strings, each seen the way `JSON.parse` sees it; the
 * clock is an explicit `now` argument.
 */
module Cache {
  import opened Wrappers
  import opened JsValues

  /** How long an entry stays valid, in milliseconds: one hour. */
  const TTL: int := 60 * 60 * 1000
  /** The namespace put in front of every cached URL. */
  const PREFIX: string := "github-tools:"

  /** A stored string: a record `{ data, expires }`, or text that does not parse as one. */
  datatype Raw = Record(data: Json, expires: int) | Garbage

  /** The local-storage key of a URL. */
  function Key(url: string): string {
    PREFIX + url
  }

  /** `read(url)` at time `now`: a miss when the key is absent, the text does not parse, or the entry has expired. */
  function Lookup(items: map<string, Raw>, url: string, now: int): Option<Json> {
    var key := Key(url);
    if key !in items then None
    else match items[key]
      case Garbage => None
      case Record(data, expires) => if now > expires then None else Some(data)
  }

  /** Local storage after `write(url, data)` at time `now` went through. */
  function Stored(items: map<string, Raw>, url: string, data: Json, now: int): map<string, Raw> {
    items[Key(url) := Record(data, now + TTL)]
  }

  /** The browser's local storage, as far as the cache uses it. */
  class Store {
    var items: map<string, Raw>

    constructor (initial: map<string, Raw>)
      ensures items == initial
    {
      items := initial;
    }

    /** `read(url)`: never throws; every failure is a miss. */
    method Read(url: string, now: int) returns (hit: Option<Json>)
      ensures hit == Lookup(items, url, now)
    {
      var key := Key(url);
      if key !in items {
        return None;
      }
      match items[key]
      case Garbage =>
        hit := None;
      case Record(data, expires) =>
        hit := if now > expires then None else Some(data);
    }

    /**
     * `write(url, data)`: stores the payload with `expires = now + TTL`.
     * `accepted` is whether `setItem` went through; when it throws (a full
     * quota, say) the error is swallowed and nothing changes.
     */
    method Write(url: string, data: Json, now: int, accepted: bool)
      modifies this
      ensures items == if accepted then Stored(old(items), url, data, now) else old(items)
    {
      if accepted {
        items := items[Key(url) := Record(data, now + TTL)];
      }
    }
  }

  /** Different URLs have different keys, because every key starts with the same prefix. */
  lemma KeyInjective(a: string, b: string)
    ensures Key(a) == Key(b) ==> a == b
  {
    assert Key(a)[|PREFIX|..] == a;
    assert Key(b)[|PREFIX|..] == b;
  }

  /** A missing entry and an entry that does not parse are both misses, at any time. */
  lemma MissWithoutRecord(items: map<string, Raw>, url: string, now: int)
    requires Key(url) !in items || items[Key(url)].Garbage?
    ensures Lookup(items, url, now) == None
  {
  }

  /**
   * After a write at time `t`, a read of the same URL returns the payload up
   * to and including `t + TTL`, and misses afterwards.
   */
  lemma ReadAfterWrite(items: map<string, Raw>, url: string, data: Json, t: int, later: int)
    ensures Lookup(Stored(items, url, data, t), url, later) == if later <= t + TTL then Some(data) else None
  {
  }

  /** A write changes no key but its own, so a read of any other URL is unaffected. */
  lemma WriteKeepsOthers(items: map<string, Raw>, url: string, data: Json, t: int, other: string, now: int)
    requires other != url
    ensures forall k :: k != Key(url) ==> (k in Stored(items, url, data, t) <==> k in items)
    ensures forall k :: k != Key(url) && k in items ==> Stored(items, url, data, t)[k] == items[k]
    ensures Lookup(Stored(items, url, data, t), other, now) == Lookup(items, other, now)
  {
    KeyInjective(url, other);
  }
}
