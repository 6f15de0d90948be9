/** String keys with a time to live, and the log of writes that explains what a get returns. */
module Redis {
  import opened Wrappers

  datatype Entry<V> = Entry(value: V, deadline: int)

  type Store<V> = map<string, Entry<V>>

  /** What GET sees: a key is gone at its deadline. */
  function Get<V>(store: Store<V>, key: string, now: int): Option<V> {
    if key in store && now < store[key].deadline then Some(store[key].value) else None
  }

  /** One SET with a time to live. */
  datatype Put<V> = Put(key: string, value: V, time: int)

  function Set<V>(store: Store<V>, p: Put<V>, ttl: int): Store<V> {
    store[p.key := Entry(p.value, p.time + ttl)]
  }

  /** The last write of a key. */
  function LastPut<V>(log: seq<Put<V>>, key: string): (r: Option<Put<V>>)
    ensures r.Some? ==> r.value in log && r.value.key == key
  {
    if log == [] then None
    else if log[|log| - 1].key == key then Some(log[|log| - 1])
    else LastPut(log[..|log| - 1], key)
  }

  /** The store holds the last write of every key written, and nothing else. */
  ghost predicate Explained<V>(store: Store<V>, log: seq<Put<V>>, ttl: int) {
    forall key :: ExplainedAt(store, log, ttl, key)
  }

  ghost predicate ExplainedAt<V>(store: Store<V>, log: seq<Put<V>>, ttl: int, key: string) {
    match LastPut(log, key)
    case None => key !in store
    case Some(p) => key in store && store[key] == Entry(p.value, p.time + ttl)
  }

  lemma SetKeepsExplained<V>(store: Store<V>, log: seq<Put<V>>, p: Put<V>, ttl: int)
    requires Explained(store, log, ttl)
    ensures Explained(Set(store, p, ttl), log + [p], ttl)
  {
    forall key ensures ExplainedAt(Set(store, p, ttl), log + [p], ttl, key) {
      assert ExplainedAt(store, log, ttl, key);
    }
  }

  /** A get returns the last value written, and only while that write is younger than the time to live. */
  lemma GetIsLastPut<V>(store: Store<V>, log: seq<Put<V>>, ttl: int, key: string, now: int)
    requires Explained(store, log, ttl)
    ensures var last := LastPut(log, key);
      Get(store, key, now) == if last.Some? && now < last.value.time + ttl then Some(last.value.value) else None
  {
    assert ExplainedAt(store, log, ttl, key);
  }
}
