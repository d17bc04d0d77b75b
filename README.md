# cmstar/cache — key operations and the cache-provider contract, in Dafny

This project models the core of a Go caching library: the construction of
canonical cache keys by `Operation.Key` / `Operation2.Key`, and the
provider contract (Get, TryGet, Create, Set, Remove and their `Must*`
forms) that both the in-memory provider and the Redis provider satisfy.
The behaviour modelled is the one the repository's tests pin down,
`key_operation_test.go` and `TestRedisCache` in
`redis_cache_provider_test.go`; the implementation files of the library
are not part of this model.

- `options.dfy` — `Option`.
- `decimal.dfy` — module `Decimal`: the decimal text of an integer key
  part (optional minus sign, digits, no leading zero), and a reference parser used to prove the rendering is lossless.
- `key_format.dfy` — module `KeyFormat`: the key string
  `<namespace>:<prefix>` followed by `_<part>` per part (a string part as
  itself, an integer part in decimal), its reverse reading
  `ParseKey`, and what that says about collisions.
- `cache_provider.dfy` — module `CacheProvider`: one store class
  (`Store<V>`, a `map` from key to value and expiry instant) with a default
  time-to-live, and the pure transitions `Write`, `TryCreate`, `Delete`
  plus the reader's view `View` that specify its methods. Values are an
  opaque type parameter compared with `==`. The memory provider is a store
  built with a one-second default; the Redis test is proved for a store
  with any default time-to-live.
- `key_operation.dfy` — module `KeyOperation`: `Operation`, `Operation2`,
  the key handles they return, and the two key-operation tests as client
  methods whose postconditions are the tests' assertions.
- `redis_cache.dfy` — module `RedisCache`: `TestRedisCache` as a client
  method over a store in any initial state.

Time is an explicit integer parameter `now` (nanoseconds). An entry whose
expiry instant is not after `now` is absent for every operation, even
while it is still held. A zero expiration means the provider default; an
effective time-to-live that is not positive means the entry never expires.

`Create` writes only when no live entry holds the key and otherwise
reports false and leaves the stored value as it was
(redis_cache_provider_test.go:111-124). A miss is not an error and leaves
the caller's receiver untouched (redis_cache_provider_test.go:86-95); the
model does this for every provider.

## Model

| member | source | states |
|---|---|---|
| `Decimal.NatToDecimal` | key_operation_test.go:16-17 | the decimal text of a natural number is non-empty, all digits, with no leading zero unless the number is 0 |
| `Decimal.IntToDecimal` | key_operation_test.go:16-17 | the text of an integer part starts with '-' exactly for negative values and holds only digits and '-' |
| `Decimal.IntRoundTrip` | key_operation_test.go:16-17 | reading back the decimal text of any integer gives that integer |
| `Decimal.IntToDecimalInjective` | key_operation_test.go:16-17 | distinct integers never render to the same key text |
| `KeyFormat.Render` | key_operation_test.go:16-17 | an integer part never renders with the part separator in it |
| `KeyFormat.JoinParts` | key_operation_test.go:16-18 | a non-empty part list renders starting with the separator '_', an empty one renders empty |
| `KeyFormat.FormatKey` | key_operation_test.go:16-18 | every key starts with `<namespace>:<prefix>` |
| `KeyFormat.ExampleKey` | key_operation_test.go:16-18 | namespace "ns", prefix "prefix" and parts ("a", 1) give exactly "ns:prefix_a_1" |
| `KeyFormat.DecodeJoin` | key_operation_test.go:63-66 | the `_`-joined suffix of separator-free parts splits back into exactly the rendered parts |
| `KeyFormat.KeyRoundTrip` | key_operation_test.go:63-66 | a key built from separator-free parts parses back, under its namespace and prefix, to exactly the rendered parts in order |
| `KeyFormat.FormatKeyInjective` | key_operation_test.go:16-18 | two separator-free part lists that give the same key render identically part by part |
| `KeyFormat.TextNumberKeyInjective` | key_operation_test.go:61-66 | for the (string, int) key of the typed test, equal keys mean equal string and equal integer when the strings hold no '_' |
| `KeyFormat.FormatKeyExtends` | key_operation_test.go:16-18 | adding parts only appends: the key is a prefix of the key with more parts |
| `KeyFormat.SeparatorInTextCollides` | key_operation_test.go:16-18 | the separator is not escaped: the single part "x_y" and the parts ("x", "y") share one key |
| `KeyFormat.PrefixSeparatorCollides` | key_operation_test.go:14-18 | keys are distinct only within one namespace and prefix: prefix "p_x" with no parts and prefix "p" with the part "x" share one key |
| `KeyOperation.Operation.Key` | key_operation_test.go:16-18 | the handle keeps the operation's provider and expiration, its key starts with `<namespace>:<prefix>`, and for separator-free parts the key parses back to exactly the rendered parts in order |
| `KeyOperation.Operation2.Key` | key_operation_test.go:63-66 | the typed handle keeps the operation's provider, expiration and zero value, its key starts with `<namespace>:<prefix>`, and for separator-free parts the key parses back to exactly (k1, k2) rendered |
| `KeyOperation.TypedMatchesUntyped` | key_operation_test.go:61-65 | `Operation2.Key(k1, k2)` builds the same key, provider and expiration as the untyped two-part `Operation.Key([k1, k2])` |
| `KeyOperation.HandlesShareKey` | key_operation_test.go:14-17 | two operations with the same namespace and prefix give the same key string for the same parts; this documents determinism, which holds of every Dafny function, rather than proving anything beyond it |
| `KeyOperation.KeyHandle.MustGet` | key_operation_test.go:21-27 | a hit yields the live stored value; a miss leaves the receiver as it was |
| `KeyOperation.KeyHandle.MustTryGet` | key_operation_test.go:29-42 | found exactly when the key is live; found yields the stored value, not found leaves the receiver |
| `KeyOperation.KeyHandle.MustSet` | key_operation_test.go:33-34 | the handle's key now maps to the value with the handle's expiration; every other key is unchanged |
| `KeyOperation.KeyHandle.MustCreate` | key_operation_test.go:44-47 | writes and reports true exactly when the key was absent; a present value is never overwritten |
| `KeyOperation.KeyHandle.MustRemove` | key_operation_test.go:49-51 | reports whether the key was present and removes it; other keys unchanged |
| `KeyOperation.TypedKeyHandle.MustGet` | key_operation_test.go:71-74 | a hit yields the stored value; a miss yields the value type's zero value |
| `KeyOperation.TypedKeyHandle.MustTryGet` | key_operation_test.go:76-91 | found exactly when the key is live, with the stored value; not found yields the zero value |
| `KeyOperation.TypedKeyHandle.MustSet` | key_operation_test.go:81-82 | as the untyped `MustSet` |
| `KeyOperation.TypedKeyHandle.MustCreate` | key_operation_test.go:93-96 | as the untyped `MustCreate` |
| `KeyOperation.TypedKeyHandle.MustRemove` | key_operation_test.go:98-100 | as the untyped `MustRemove` |
| `KeyOperation.KeyOperationRun` | key_operation_test.go:8-53 | the untyped test: key "ns:prefix_a_1", a miss leaves the zero receiver, TryGet misses, after Set TryGet finds exactly the set value, Create on the present key reports false, Remove reports true |
| `KeyOperation.KeyOperationTRun` | key_operation_test.go:55-102 | the typed test: the same observations through `Operation2[string, int, V]` |
| `CacheProvider.ExpiryFor` | key_operation_test.go:9-14 | an expiry instant is set exactly when the effective time-to-live (zero means the provider default) is positive, and it lies after the write |
| `CacheProvider.WriteView` | redis_cache_provider_test.go:97-109 | after Set, a reader at the same instant sees the new value under the key and every other key as before |
| `CacheProvider.TryCreateView` | redis_cache_provider_test.go:111-124 | Create reports true exactly when the key was absent; if it was present the store is unchanged; otherwise the key now holds the value |
| `CacheProvider.CreateReplacesExpired` | key_operation_test.go:9 | an expired entry that is still held counts as absent: Create writes over it and reports true |
| `CacheProvider.DeleteView` | redis_cache_provider_test.go:82-90 | after Remove the key is gone from the view and every other key is unchanged |
| `CacheProvider.DeleteTwice` | redis_cache_provider_test.go:126-131 | a second Remove of the same key reports false and changes nothing |
| `CacheProvider.ExpiryEnforced` | key_operation_test.go:9 | an entry written with effective time-to-live d > 0 at t is found at t' exactly when t' < t + d |
| `CacheProvider.NoExpiryPersists` | redis_cache_provider_test.go:97-101 | an entry written with no positive time-to-live is found, with its value, at every instant |
| `CacheProvider.ExpiredStaysExpired` | key_operation_test.go:9 | a key missing at some instant is missing at every later instant until written again |
| `CacheProvider.Store.constructor` | key_operation_test.go:9 | a new provider is empty and keeps the given default time-to-live |
| `CacheProvider.Store.Get` | redis_cache_provider_test.go:86-90 | a hit yields the live stored value; a miss is no error and leaves the receiver untouched |
| `CacheProvider.Store.TryGet` | redis_cache_provider_test.go:92-95 | found exactly when the key is live, with its value; a miss leaves the receiver untouched |
| `CacheProvider.Store.Set` | redis_cache_provider_test.go:97-98 | the key maps to the value with the expiry derived from the time-to-live; the view gains the value and nothing else changes |
| `CacheProvider.Store.Create` | redis_cache_provider_test.go:111-124 | set-if-absent: reports true exactly when the key was absent; a live value is never overwritten |
| `CacheProvider.Store.Remove` | redis_cache_provider_test.go:82-84 | reports whether the key was present, removes it, leaves other keys unchanged |
| `RedisCache.RedisCacheRun` | redis_cache_provider_test.go:74-132 | TestRedisCache on a store in any state: the miss and TryGet leave the receiver, Get after Set yields the data, Create reports false and the data stays, the two Removes report true then false, and only the key is gone afterwards |

## Left out

- The implementation files of the library (the key operation, the memory provider and the Redis provider sources) are not part of this model; the behaviour is taken from the tests.
- JSON encoding of stored values and the `Data` round trip through it (floats, `time.Now()`): values are an opaque type compared with `==`.
- Construction of the Redis provider from go-redis client types and its panic on a nil or unsupported client: foreign library code.
- The table-driven Redis tests: their case lists are empty.
- Transport, protocol and decode errors, and the panics of the `Must*` forms: the store has no failing transport, so each non-`Must` operation's error result would always be nil; the model defines each operation once and the `Must*` forms are those operations.
- Locking and the concurrent `Create` race: the model is sequential, so each call is atomic by construction.
- Opportunistic eviction of expired entries on read and background sweeping: reads never change the store; expired entries are dropped only by Set, Create and Remove.
- Wall-clock time: `now` is a parameter; the test scenarios make all their calls at one instant.
- Go's fixed-width `int`: integers are unbounded; every value of the width renders as it does in Go.
- `KeyOperation.Operation.Key`: requires the number of parts to equal the operation's part count; what the library does on a mismatch is not visible. Its parts are the `Part` sum type (string or integer), although the untyped operation accepts parts of any type; how other types are written into the key is not visible.
- Key-part text: a string part is written as itself and an integer part in decimal, as the key "ns:prefix_a_1" of the tests shows; the general formatting rule the library uses for other values is not visible.
- Expiry: no test observes it, so its rules are the model's own choice: a zero time-to-live means the provider's default, an effective time-to-live that is not positive never expires, and an entry is live while `now < expiresAt`.
- `KeyOperation.Operation2`: the static key-part types K1 and K2 are represented by the `Part` sum type (string or integer); Go's zero value of the value type, which Dafny cannot name for a type parameter, is carried as the `zero` field.
- `CacheExpirationZero`: taken to be the zero duration.
