/**
  TestRedisCache driven against the abstract store: the Redis provider is
  one more instance of CacheProvider.Store, whose state stands for the
  remote key space. The store is taken in any state, as a live server may
  already hold the key.
 */
module RedisCache {
  import opened CacheProvider

  /**
    The steps of TestRedisCache, all at one instant: remove the key, read it
    into a receiver holding `receiver`, try to read it, set `data` with the
    zero expiration, read it back, Create `other` over it, read again, then
    remove twice. Returns what each step observes.
   */
  method RedisCacheRun<V>(cli: Store<V>, key: string, data: V, other: V, receiver: V, now: int)
    returns (afterMiss: V, exist: bool, afterTry: V, afterSet: V, result: bool, afterCreate: V, r1: bool, r2: bool)
    modifies cli
    ensures afterMiss == receiver
    ensures !exist && afterTry == receiver
    ensures afterSet == data
    ensures !result && afterCreate == data
    ensures r1 && !r2
    ensures cli.Contents(now) == old(cli.Contents(now)) - {key}
  {
    var _ := cli.Remove(key, now);
    afterMiss := cli.Get(key, now, receiver);
    exist, afterTry := cli.TryGet(key, now, afterMiss);
    cli.Set(key, data, 0, now);
    afterSet := cli.Get(key, now, afterTry);
    result := cli.Create(key, other, 0, now);
    afterCreate := cli.Get(key, now, afterSet);
    r1 := cli.Remove(key, now);
    r2 := cli.Remove(key, now);
  }
}
