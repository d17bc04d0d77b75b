/**
  The cache-provider contract: Get, TryGet, Create, Set and Remove over one
  store of string keys. The in-memory provider and the Redis provider are two
  instances of the same store, each with the default time-to-live used when
  a caller passes the zero expiration: one second for the memory provider of
  the tests; the Redis test holds for a store with any default.

  Time is an explicit integer `now` (nanoseconds, as Go's time.Duration).
  An entry whose expiry instant is not after `now` is logically absent even
  though it may still be held in `entries`.
 */
module CacheProvider {
  import opened Options

  /** time.Second, in nanoseconds. */
  const Second: int := 1_000_000_000

  /** A stored value and the instant it expires at, if it ever does. */
  datatype Entry<V> = Entry(value: V, expiresAt: Option<int>)

  predicate Live<V>(e: Entry<V>, now: int) {
    e.expiresAt.None? || now < e.expiresAt.value
  }

  /** The effective time-to-live: zero asks for the provider default. */
  function EffectiveTtl(ttl: int, defaultTtl: int): int {
    if ttl == 0 then defaultTtl else ttl
  }

  /** A positive time-to-live expires that long after `now`; any other never expires. */
  function ExpiryFor(ttl: int, defaultTtl: int, now: int): (r: Option<int>)
    ensures r.Some? <==> EffectiveTtl(ttl, defaultTtl) > 0
    ensures r.Some? ==> now < r.value
  {
    var d := EffectiveTtl(ttl, defaultTtl);
    if d > 0 then Some(now + d) else None
  }

  /** What a reader sees at `now`: the live entries' values. */
  function View<V>(entries: map<string, Entry<V>>, now: int): map<string, V> {
    map k | k in entries && Live(entries[k], now) :: entries[k].value
  }

  /** Set: unconditional upsert that resets the expiry. */
  function Write<V>(entries: map<string, Entry<V>>, key: string, value: V, ttl: int, defaultTtl: int, now: int): map<string, Entry<V>> {
    entries[key := Entry(value, ExpiryFor(ttl, defaultTtl, now))]
  }

  /** Create: write only when no live entry holds the key; reports whether it wrote. */
  function TryCreate<V>(entries: map<string, Entry<V>>, key: string, value: V, ttl: int, defaultTtl: int, now: int): (map<string, Entry<V>>, bool) {
    if key in View(entries, now) then (entries, false)
    else (Write(entries, key, value, ttl, defaultTtl, now), true)
  }

  /** Remove: drop the key; reports whether a live entry held it. */
  function Delete<V>(entries: map<string, Entry<V>>, key: string, now: int): (map<string, Entry<V>>, bool) {
    (entries - {key}, key in View(entries, now))
  }

  /** After Set, readers at the same instant see the new value and every other key as before. */
  lemma WriteView<V>(entries: map<string, Entry<V>>, key: string, value: V, ttl: int, defaultTtl: int, now: int)
    ensures View(Write(entries, key, value, ttl, defaultTtl, now), now) == View(entries, now)[key := value]
  {
  }

  /** Create writes exactly when the key is not live, and never overwrites a live value. */
  lemma TryCreateView<V>(entries: map<string, Entry<V>>, key: string, value: V, ttl: int, defaultTtl: int, now: int)
    ensures TryCreate(entries, key, value, ttl, defaultTtl, now).1 <==> key !in View(entries, now)
    ensures key in View(entries, now) ==> TryCreate(entries, key, value, ttl, defaultTtl, now).0 == entries
    ensures View(TryCreate(entries, key, value, ttl, defaultTtl, now).0, now)
         == if key in View(entries, now) then View(entries, now) else View(entries, now)[key := value]
  {
  }

  /** An entry that has expired but is still held counts as absent: Create replaces it. */
  lemma CreateReplacesExpired<V>(entries: map<string, Entry<V>>, key: string, value: V, ttl: int, defaultTtl: int, now: int)
    requires key in entries && !Live(entries[key], now)
    ensures TryCreate(entries, key, value, ttl, defaultTtl, now).1
    ensures View(TryCreate(entries, key, value, ttl, defaultTtl, now).0, now)[key] == value
  {
  }

  /** Remove takes the key out of every later view and leaves the other keys alone. */
  lemma DeleteView<V>(entries: map<string, Entry<V>>, key: string, now: int)
    ensures View(Delete(entries, key, now).0, now) == View(entries, now) - {key}
  {
  }

  /** A second Remove of the same key reports false and changes nothing. */
  lemma DeleteTwice<V>(entries: map<string, Entry<V>>, key: string, now: int, later: int)
    ensures !Delete(Delete(entries, key, now).0, key, later).1
    ensures Delete(Delete(entries, key, now).0, key, later).0 == Delete(entries, key, now).0
  {
  }

  /** An entry written with an effective time-to-live d > 0 is found before d elapses and missed from then on. */
  lemma ExpiryEnforced<V>(entries: map<string, Entry<V>>, key: string, value: V, ttl: int, defaultTtl: int, now: int, later: int)
    requires EffectiveTtl(ttl, defaultTtl) > 0
    ensures key in View(Write(entries, key, value, ttl, defaultTtl, now), later)
        <==> later < now + EffectiveTtl(ttl, defaultTtl)
  {
  }

  /** An entry written with no positive time-to-live is found at every later instant. */
  lemma NoExpiryPersists<V>(entries: map<string, Entry<V>>, key: string, value: V, ttl: int, defaultTtl: int, now: int, later: int)
    requires EffectiveTtl(ttl, defaultTtl) <= 0
    ensures key in View(Write(entries, key, value, ttl, defaultTtl, now), later)
    ensures View(Write(entries, key, value, ttl, defaultTtl, now), later)[key] == value
  {
  }

  /** Expiry is final: a key missing from the view at some instant stays missing later, until it is written again. */
  lemma ExpiredStaysExpired<V>(entries: map<string, Entry<V>>, key: string, now: int, later: int)
    requires now <= later
    requires key !in View(entries, now)
    ensures key !in View(entries, later)
  {
  }

  /**
    One provider's store. The memory provider keeps it in process; for the
    Redis provider it stands for the remote key space.
   */
  class Store<V> {
    var entries: map<string, Entry<V>>
    /** Time-to-live used when a call passes the zero expiration. */
    const defaultTtl: int

    /** NewMemoryCacheProvider(defaultTtl): an empty store. */
    constructor (defaultTtl: int)
      ensures entries == map[] && this.defaultTtl == defaultTtl
    {
      entries := map[];
      this.defaultTtl := defaultTtl;
    }

    /** The live contents at `now`. */
    function Contents(now: int): map<string, V>
      reads this
    {
      View(entries, now)
    }

    /** Get: a hit yields the stored value; a miss is not an error and returns the receiver untouched. */
    method Get(key: string, now: int, receiver: V) returns (out: V)
      ensures key in Contents(now) ==> out == Contents(now)[key]
      ensures key !in Contents(now) ==> out == receiver
    {
      if key in entries && Live(entries[key], now) {
        out := entries[key].value;
      } else {
        out := receiver;
      }
    }

    /** TryGet: like Get, and reports whether the key was found. */
    method TryGet(key: string, now: int, receiver: V) returns (found: bool, out: V)
      ensures found <==> key in Contents(now)
      ensures found ==> out == Contents(now)[key]
      ensures !found ==> out == receiver
    {
      found := key in entries && Live(entries[key], now);
      out := if found then entries[key].value else receiver;
    }

    /** Set: unconditional upsert. */
    method Set(key: string, value: V, ttl: int, now: int)
      modifies this
      ensures entries == Write(old(entries), key, value, ttl, defaultTtl, now)
      ensures Contents(now) == old(Contents(now))[key := value]
    {
      WriteView(entries, key, value, ttl, defaultTtl, now);
      entries := Write(entries, key, value, ttl, defaultTtl, now);
    }

    /** Create: set if absent; a live value is never overwritten. */
    method Create(key: string, value: V, ttl: int, now: int) returns (created: bool)
      modifies this
      ensures (entries, created) == TryCreate(old(entries), key, value, ttl, defaultTtl, now)
      ensures created <==> key !in old(Contents(now))
      ensures Contents(now) == if created then old(Contents(now))[key := value] else old(Contents(now))
    {
      TryCreateView(entries, key, value, ttl, defaultTtl, now);
      created := !(key in entries && Live(entries[key], now));
      if created {
        entries := Write(entries, key, value, ttl, defaultTtl, now);
      }
    }

    /** Remove: reports whether the key was present; removing again reports false. */
    method Remove(key: string, now: int) returns (removed: bool)
      modifies this
      ensures (entries, removed) == Delete(old(entries), key, now)
      ensures removed <==> key in old(Contents(now))
      ensures Contents(now) == old(Contents(now)) - {key}
    {
      DeleteView(entries, key, now);
      removed := key in entries && Live(entries[key], now);
      entries := entries - {key};
    }
  }
}
