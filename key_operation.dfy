/**
  Operations and their key handles. An Operation is an immutable descriptor
  (namespace, prefix, provider, default expiration); Key(parts...) yields a
  handle whose key string and expiration are bound, and whose methods
  delegate to the provider. The untyped handle writes results through a
  receiver; the typed handle (Operation2) returns values directly and gives
  the value type's zero value on a miss.

  The Must forms of the handle are the provider operations themselves: the
  store has no transport that can fail, so there is no error to escalate.
 */
module KeyOperation {
  import opened Options
  import opened KeyFormat
  import opened CacheProvider

  /** The zero expiration: use the provider's default time-to-live. */
  const CacheExpirationZero: int := 0

  /** The handle returned by Operation.Key. */
  datatype KeyHandle<V> = KeyHandle(key: string, provider: Store<V>, expiration: int) {

    method MustGet(now: int, receiver: V) returns (out: V)
      ensures key in provider.Contents(now) ==> out == provider.Contents(now)[key]
      ensures key !in provider.Contents(now) ==> out == receiver
    {
      out := provider.Get(key, now, receiver);
    }

    method MustTryGet(now: int, receiver: V) returns (found: bool, out: V)
      ensures found <==> key in provider.Contents(now)
      ensures found ==> out == provider.Contents(now)[key]
      ensures !found ==> out == receiver
    {
      found, out := provider.TryGet(key, now, receiver);
    }

    method MustSet(value: V, now: int)
      modifies provider
      ensures provider.entries == Write(old(provider.entries), key, value, expiration, provider.defaultTtl, now)
      ensures provider.Contents(now) == old(provider.Contents(now))[key := value]
    {
      provider.Set(key, value, expiration, now);
    }

    method MustCreate(value: V, now: int) returns (created: bool)
      modifies provider
      ensures (provider.entries, created) == TryCreate(old(provider.entries), key, value, expiration, provider.defaultTtl, now)
      ensures created <==> key !in old(provider.Contents(now))
      ensures provider.Contents(now) == if created then old(provider.Contents(now))[key := value] else old(provider.Contents(now))
    {
      created := provider.Create(key, value, expiration, now);
    }

    method MustRemove(now: int) returns (removed: bool)
      modifies provider
      ensures (provider.entries, removed) == Delete(old(provider.entries), key, now)
      ensures removed <==> key in old(provider.Contents(now))
      ensures provider.Contents(now) == old(provider.Contents(now)) - {key}
    {
      removed := provider.Remove(key, now);
    }
  }

  /** The handle returned by Operation2.Key; `zero` is the value type's zero value. */
  datatype TypedKeyHandle<V> = TypedKeyHandle(handle: KeyHandle<V>, zero: V) {

    method MustGet(now: int) returns (out: V)
      ensures handle.key in handle.provider.Contents(now) ==> out == handle.provider.Contents(now)[handle.key]
      ensures handle.key !in handle.provider.Contents(now) ==> out == zero
    {
      out := handle.MustGet(now, zero);
    }

    method MustTryGet(now: int) returns (out: V, found: bool)
      ensures found <==> handle.key in handle.provider.Contents(now)
      ensures found ==> out == handle.provider.Contents(now)[handle.key]
      ensures !found ==> out == zero
    {
      found, out := handle.MustTryGet(now, zero);
    }

    method MustSet(value: V, now: int)
      modifies handle.provider
      ensures handle.provider.entries
           == Write(old(handle.provider.entries), handle.key, value, handle.expiration, handle.provider.defaultTtl, now)
      ensures handle.provider.Contents(now) == old(handle.provider.Contents(now))[handle.key := value]
    {
      handle.MustSet(value, now);
    }

    method MustCreate(value: V, now: int) returns (created: bool)
      modifies handle.provider
      ensures (handle.provider.entries, created)
           == TryCreate(old(handle.provider.entries), handle.key, value, handle.expiration, handle.provider.defaultTtl, now)
      ensures created <==> handle.key !in old(handle.provider.Contents(now))
      ensures handle.provider.Contents(now)
           == if created then old(handle.provider.Contents(now))[handle.key := value] else old(handle.provider.Contents(now))
    {
      created := handle.MustCreate(value, now);
    }

    method MustRemove(now: int) returns (removed: bool)
      modifies handle.provider
      ensures (handle.provider.entries, removed) == Delete(old(handle.provider.entries), handle.key, now)
      ensures removed <==> handle.key in old(handle.provider.Contents(now))
      ensures handle.provider.Contents(now) == old(handle.provider.Contents(now)) - {handle.key}
    {
      removed := handle.MustRemove(now);
    }
  }

  /** NewOperation(namespace, prefix, partCount, provider, expiration). */
  datatype Operation<V> = Operation(namespace: string, prefix: string, partCount: nat, provider: Store<V>, expiration: int) {

    /** The handle for one entry: its key reads back as the parts, under this namespace and prefix. */
    function Key(parts: seq<Part>): (h: KeyHandle<V>)
      requires |parts| == partCount
      ensures h.provider == provider && h.expiration == expiration
      ensures Header(namespace, prefix) <= h.key
      ensures SeparatorFree(parts) ==> ParseKey(namespace, prefix, h.key) == Some(RenderAll(parts))
    {
      var key := FormatKey(namespace, prefix, parts);
      assert SeparatorFree(parts) ==> ParseKey(namespace, prefix, key) == Some(RenderAll(parts)) by {
        if SeparatorFree(parts) { KeyRoundTrip(namespace, prefix, parts); }
      }
      KeyHandle(key, provider, expiration)
    }
  }

  /** NewOperation2[K1, K2, V](namespace, prefix, provider, expiration): two key parts, a fixed value type. */
  datatype Operation2<V> = Operation2(namespace: string, prefix: string, provider: Store<V>, expiration: int, zero: V) {

    /** The typed handle for one entry: its key reads back as (k1, k2), under this namespace and prefix. */
    function Key(k1: Part, k2: Part): (h: TypedKeyHandle<V>)
      ensures h.handle.provider == provider && h.handle.expiration == expiration && h.zero == zero
      ensures Header(namespace, prefix) <= h.handle.key
      ensures SeparatorFree([k1, k2]) ==> ParseKey(namespace, prefix, h.handle.key) == Some(RenderAll([k1, k2]))
    {
      var key := FormatKey(namespace, prefix, [k1, k2]);
      assert SeparatorFree([k1, k2]) ==> ParseKey(namespace, prefix, key) == Some(RenderAll([k1, k2])) by {
        if SeparatorFree([k1, k2]) { KeyRoundTrip(namespace, prefix, [k1, k2]); }
      }
      TypedKeyHandle(KeyHandle(key, provider, expiration), zero)
    }
  }

  /** The untyped operation with two parts and the typed one build the same handle for the same parts. */
  lemma TypedMatchesUntyped<V>(namespace: string, prefix: string, provider: Store<V>, expiration: int, zero: V, k1: Part, k2: Part)
    ensures Operation2(namespace, prefix, provider, expiration, zero).Key(k1, k2).handle
         == Operation(namespace, prefix, 2, provider, expiration).Key([k1, k2])
  {
  }

  /** Handles for the same namespace, prefix and parts share one entry: their key strings agree. */
  lemma HandlesShareKey<V>(a: Operation<V>, b: Operation<V>, parts: seq<Part>)
    requires a.namespace == b.namespace && a.prefix == b.prefix
    requires |parts| == a.partCount == b.partCount
    ensures a.Key(parts).key == b.Key(parts).key
  {
  }

  /**
    TestKeyOperation, sub-test "2-flag": the untyped handle for ("a", 1)
    over a fresh memory provider with a one-second default, all calls at one
    instant. Returns what each step of the test observes.
   */
  method KeyOperationRun<V>(zero: V, v: V, v2: V, now: int)
    returns (key: string, missed: V, foundBefore: bool, foundAfter: bool, got: V, created: bool, removed: bool)
    ensures key == "ns:prefix_a_1"
    ensures missed == zero
    ensures !foundBefore
    ensures foundAfter && got == v
    ensures !created
    ensures removed
  {
    var provider := new Store<V>(Second);
    var op := Operation("ns", "prefix", 2, provider, CacheExpirationZero);
    var k := op.Key([Text("a"), Number(1)]);
    ExampleKey();
    key := k.key;
    missed := k.MustGet(now, zero);
    var res;
    foundBefore, res := k.MustTryGet(now, missed);
    k.MustSet(v, now);
    foundAfter, got := k.MustTryGet(now, res);
    created := k.MustCreate(v2, now);
    removed := k.MustRemove(now);
  }

  /**
    TestKeyOperationT, sub-test "string-int": the same steps through the
    typed handle of Operation2[string, int, V].
   */
  method KeyOperationTRun<V>(zero: V, v: V, v2: V, now: int)
    returns (key: string, missed: V, foundBefore: bool, foundAfter: bool, got: V, created: bool, removed: bool)
    ensures key == "ns:prefix_a_1"
    ensures missed == zero
    ensures !foundBefore
    ensures foundAfter && got == v
    ensures !created
    ensures removed
  {
    var provider := new Store<V>(Second);
    var op := Operation2("ns", "prefix", provider, CacheExpirationZero, zero);
    var k := op.Key(Text("a"), Number(1));
    ExampleKey();
    key := k.handle.key;
    missed := k.MustGet(now);
    var res;
    res, foundBefore := k.MustTryGet(now);
    k.MustSet(v, now);
    got, foundAfter := k.MustTryGet(now);
    created := k.MustCreate(v2, now);
    removed := k.MustRemove(now);
  }
}
