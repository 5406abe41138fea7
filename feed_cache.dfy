/**
  The on-disk feed cache (the Sebu library) as the refresh cycle uses it:
  named entries, each stored with an expiry instant. The library itself is
  not part of this model; what it does is assumed to be: an entry is
  returned by `get` while the current instant lies strictly before its
  expiry, and is treated as absent from then on (it is not deleted).
  Instants are whole seconds.
*/
module FeedCache {
  import opened Outcomes

  /** A cached value and the instant from which it no longer counts. */
  datatype Entry<T> = Entry(value: T, expiry: int)

  /** The cache: one entry per name. */
  type Cache<T> = map<string, Entry<T>>

  /** Five minutes, the lifetime the refresh cycle gives every entry it saves. */
  const Lifetime: int := 5 * 60

  /** `Sebu.get(withName:)`: the value stored under `name`, unless absent or expired. */
  function Get<T>(c: Cache<T>, name: string, now: int): (r: Option<T>)
    ensures r.Some? <==> name in c && now < c[name].expiry
    ensures r.Some? ==> r.value == c[name].value
  {
    if name in c && now < c[name].expiry then Some(c[name].value) else None
  }

  /** `Sebu.save(_:withName:expiration:)`: store `v` under `name`, replacing any entry. */
  function Save<T>(c: Cache<T>, name: string, v: T, expiry: int): (r: Cache<T>)
    ensures r.Keys == c.Keys + {name}
    ensures forall k :: k in c && k != name ==> r[k] == c[k]
  {
    c[name := Entry(v, expiry)]
  }

  /** `Sebu.clear(_:)`: drop the entry stored under `name`, if any. */
  function Clear<T>(c: Cache<T>, name: string): (r: Cache<T>)
    ensures r.Keys == c.Keys - {name}
    ensures forall k :: k in r ==> r[k] == c[k]
  {
    c - {name}
  }

  /** An entry saved with lifetime `ttl` at `saved` is returned before `saved + ttl` and not from then on. */
  lemma GetAfterSave<T>(c: Cache<T>, name: string, v: T, saved: int, ttl: int, now: int)
    ensures Get(Save(c, name, v, saved + ttl), name, now) == if now < saved + ttl then Some(v) else None
  {
  }

  /** Saving under one name leaves what every other name returns unchanged. */
  lemma SaveKeepsOthers<T>(c: Cache<T>, name: string, v: T, expiry: int, other: string, now: int)
    requires other != name
    ensures Get(Save(c, name, v, expiry), other, now) == Get(c, other, now)
  {
  }

  /** After a clear nothing is returned under that name, at any instant. */
  lemma GetAfterClear<T>(c: Cache<T>, name: string, now: int)
    ensures Get(Clear(c, name), name, now) == None
  {
  }

  /** An entry saved for the standard lifetime is a hit at the instant it was saved. */
  lemma FreshEntryHits<T>(c: Cache<T>, name: string, v: T, now: int)
    ensures Get(Save(c, name, v, now + Lifetime), name, now) == Some(v)
  {
  }
}
