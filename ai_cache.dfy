/**
 * The `ai_cache` table of lib/openai.ts: completions stored by a key with a
 * time-to-live in milliseconds, evicted lazily when a read finds them
 * expired, and written by upsert.
 */
module AiCache {
  import opened Common

  /** 7 days in milliseconds: 7 * 24 * 60 * 60 * 1000. */
  const DefaultTtl: int := 604_800_000

  /** One row of `ai_cache`; `ttl` is a nullable column. */
  datatype Entry = Entry(prompt: string, response: Json, createdAt: int, ttl: Option<int>)

  /** `ttl || DEFAULT`: a missing or zero ttl means seven days. */
  function TtlOrDefault(ttl: Option<int>): (r: int)
    ensures r != 0
    ensures ttl.Some? && ttl.value != 0 ==> r == ttl.value
    ensures ttl.None? || ttl.value == 0 ==> r == DefaultTtl
  {
    match ttl
    case Some(t) => if t == 0 then DefaultTtl else t
    case None => DefaultTtl
  }

  /** An entry is expired once its age is strictly greater than its effective ttl. */
  predicate Expired(e: Entry, now: int)
  {
    now - e.createdAt > TtlOrDefault(e.ttl)
  }

  /** What a successful read of `key` at time `now` returns. */
  function Lookup(rows: map<string, Entry>, key: string, now: int): (r: Option<Json>)
    ensures r.Some? <==> key in rows && !Expired(rows[key], now)
    ensures r.Some? ==> r.value == rows[key].response
  {
    if key in rows && !Expired(rows[key], now) then Some(rows[key].response) else None
  }

  /** The table after a successful read of `key` at time `now`: an expired row is deleted. */
  function Evict(rows: map<string, Entry>, key: string, now: int): (r: map<string, Entry>)
    ensures r.Keys <= rows.Keys && forall k | k in r :: r[k] == rows[k]
    ensures forall k | k in rows && k != key :: k in r
    ensures key in r ==> !Expired(r[key], now)
  {
    if key in rows && Expired(rows[key], now) then rows - {key} else rows
  }

  /** The table after `cacheResponse`: an upsert of `key`, with the ttl defaulted. */
  function Upsert(rows: map<string, Entry>, key: string, prompt: string, response: Json,
                  ttl: Option<int>, createdAt: int): (r: map<string, Entry>)
    ensures r.Keys == rows.Keys + {key}
    ensures r[key] == Entry(prompt, response, createdAt, Some(TtlOrDefault(ttl)))
    ensures forall k | k in rows && k != key :: r[k] == rows[k]
  {
    rows[key := Entry(prompt, response, createdAt, Some(TtlOrDefault(ttl)))]
  }

  /** The `ai_cache` table. */
  class Table {
    var rows: map<string, Entry>

    constructor (rows: map<string, Entry>)
      ensures this.rows == rows
    {
      this.rows := rows;
    }

    /**
     * `getCachedResponse(key)`. `lookupFailed` is the store reporting an error
     * for the select; the read then yields nothing and changes nothing.
     */
    method Get(key: string, now: int, lookupFailed: bool) returns (r: Option<Json>)
      modifies this
      ensures r == (if lookupFailed then None else Lookup(old(rows), key, now))
      ensures rows == (if lookupFailed then old(rows) else Evict(old(rows), key, now))
    {
      if lookupFailed || key !in rows {
        return None;
      }
      var e := rows[key];
      var ttl := TtlOrDefault(e.ttl);
      var age := now - e.createdAt;
      if age > ttl {
        rows := rows - {key};
        return None;
      }
      r := Some(e.response);
    }

    /**
     * `cacheResponse(key, prompt, response, ttl)`. `createdAt` is the
     * timestamp the store gives the row; the source does not write it.
     */
    method Put(key: string, prompt: string, response: Json, ttl: Option<int>, createdAt: int)
      modifies this
      ensures rows == Upsert(old(rows), key, prompt, response, ttl, createdAt)
    {
      rows := rows[key := Entry(prompt, response, createdAt, Some(TtlOrDefault(ttl)))];
    }
  }

  /** A read after a write returns the written payload as long as its age has not passed the ttl. */
  lemma UpsertThenLookup(rows: map<string, Entry>, key: string, prompt: string, response: Json,
                         ttl: Option<int>, createdAt: int, now: int)
    ensures var after := Upsert(rows, key, prompt, response, ttl, createdAt);
            Lookup(after, key, now) == (if now - createdAt <= TtlOrDefault(ttl) then Some(response) else None)
  {
  }

  /** A read of an expired entry deletes that entry and no other. */
  lemma EvictionIsLocal(rows: map<string, Entry>, key: string, now: int)
    requires key in rows && Expired(rows[key], now)
    ensures Lookup(rows, key, now) == None
    ensures Evict(rows, key, now).Keys == rows.Keys - {key}
    ensures forall k | k in rows && k != key :: Evict(rows, key, now)[k] == rows[k]
  {
  }

  /** Writing one key changes what a read of any other key sees in no way. */
  lemma UpsertLeavesOtherKeys(rows: map<string, Entry>, key: string, prompt: string, response: Json,
                              ttl: Option<int>, createdAt: int, other: string, now: int)
    requires other != key
    ensures Lookup(Upsert(rows, key, prompt, response, ttl, createdAt), other, now) == Lookup(rows, other, now)
    ensures Evict(Upsert(rows, key, prompt, response, ttl, createdAt), other, now)
            == Upsert(Evict(rows, other, now), key, prompt, response, ttl, createdAt)
  {
  }

  /** Once expired, an entry stays expired: no later read returns it. */
  lemma ExpiryIsPermanent(e: Entry, now: int, later: int)
    requires Expired(e, now) && now <= later
    ensures Expired(e, later)
  {
  }

  /** A read either returns exactly the stored payload or evicts or finds nothing; it never invents a payload. */
  lemma LookupReturnsStoredPayload(rows: map<string, Entry>, key: string, now: int)
    ensures Lookup(rows, key, now).Some? ==> key in rows && Lookup(rows, key, now).value == rows[key].response
    ensures Lookup(rows, key, now).Some? ==> Evict(rows, key, now) == rows
    ensures Lookup(rows, key, now).None? && key in rows ==> key !in Evict(rows, key, now)
  {
  }

  /** The concrete round trip: a 1000 ms entry is a hit at ages 0 and 1000 and gone at 1001. */
  lemma ThousandMillisecondRoundTrip(rows: map<string, Entry>, key: string, v: Json, t0: int)
    ensures var after := Upsert(rows, key, "p", v, Some(1000), t0);
            && Lookup(after, key, t0) == Some(v)
            && Lookup(after, key, t0 + 1000) == Some(v)
            && Lookup(after, key, t0 + 1001) == None
            && key !in Evict(after, key, t0 + 1001)
  {
  }
}
