/**
 * The entity cache of one model (orm/internal/Session.java).
 *
 * The cache maps an entity id to a weak reference. A reference whose
 * referent the collector has reclaimed reads as null, which is `None` here
 * too, so the map holds an `Option<E>` per key: `Some(e)` while `e` is
 * reachable, `None` once it is reclaimed. The collector is not part of the
 * source; `Reclaim` is the step it takes, and the lemmas say what `get`
 * answers however many of those steps happen in between.
 */
module Session {
  import opened Outcomes

  type Entries<E> = map<int, Option<E>>

  // ---------------------------------------------------------------- the cache as a value

  /** What `get(key)` answers: the referent of the key's reference, or null without one. */
  function Cached<E>(m: Entries<E>, key: int): (r: Option<E>)
    ensures r.Some? ==> key in m && m[key] == r
    ensures key !in m ==> r.None?
  {
    if key in m then m[key] else None
  }

  /** `put`: a fresh weak reference to `entity` replaces whatever the key held. */
  function Stored<E>(m: Entries<E>, key: int, entity: E): Entries<E> {
    m[key := Some(entity)]
  }

  /** `remove(key)`. */
  function Removed<E>(m: Entries<E>, key: int): Entries<E> {
    m - {key}
  }

  /** The collector reclaims the referent of `key`: its reference now reads null. */
  function Collected<E>(m: Entries<E>, key: int): Entries<E> {
    if key in m then m[key := None] else m
  }

  /** The collector reclaims the referents of `keys`, one after another. */
  function CollectedAll<E>(m: Entries<E>, keys: seq<int>): Entries<E>
    decreases |keys|
  {
    if keys == [] then m else CollectedAll(Collected(m, keys[0]), keys[1..])
  }

  /**
   * `remove(Iterable<Long>)`: the keys in turn; unboxing a null key throws,
   * and the keys before it stay removed.
   */
  function RemovedEach<E>(m: Entries<E>, keys: seq<Option<int>>): (Outcome, Entries<E>)
    decreases |keys|
  {
    if keys == [] then (Pass, m)
    else if keys[0].None? then (Fail(NullPointer), m)
    else RemovedEach(Removed(m, keys[0].value), keys[1..])
  }

  /** The keys before the first null. */
  function Leading(keys: seq<Option<int>>): (r: seq<int>)
    ensures |r| <= |keys|
    ensures forall i :: 0 <= i < |r| ==> keys[i] == Some(r[i])
    ensures |r| < |keys| ==> keys[|r|].None?
    decreases |keys|
  {
    if keys == [] || keys[0].None? then [] else [keys[0].value] + Leading(keys[1..])
  }

  // ---------------------------------------------------------------- what the cache promises

  /** After `put(key, e)`, `get(key)` answers `e`, and every other key answers as before. */
  lemma PutThenGet<E>(m: Entries<E>, key: int, entity: E, other: int)
    ensures Cached(Stored(m, key, entity), key) == Some(entity)
    ensures other != key ==> Cached(Stored(m, key, entity), other) == Cached(m, other)
  {
  }

  /**
   * Between a `put` and a `get` the collector may run any number of times:
   * `get` answers the entity put unless the collector reclaimed it, and null
   * if it did.
   */
  lemma {:induction false} PutThenGetAfterCollection<E>(m: Entries<E>, key: int, entity: E, reclaimed: seq<int>)
    ensures Cached(CollectedAll(Stored(m, key, entity), reclaimed), key) ==
            (if key in reclaimed then None else Some(entity))
  {
    CollectionOnlyClears(Stored(m, key, entity), reclaimed, key);
  }

  /** The collector never brings a referent back nor changes one: it only clears. */
  lemma {:induction false} CollectionOnlyClears<E>(m: Entries<E>, reclaimed: seq<int>, key: int)
    ensures Cached(CollectedAll(m, reclaimed), key) == (if key in reclaimed then None else Cached(m, key))
    ensures CollectedAll(m, reclaimed).Keys == m.Keys
    decreases |reclaimed|
  {
    if reclaimed != [] {
      CollectionOnlyClears(Collected(m, reclaimed[0]), reclaimed[1..], key);
      assert key in reclaimed <==> key == reclaimed[0] || key in reclaimed[1..];
    }
  }

  /** A second `put` under the same key replaces the first. */
  lemma PutReplaces<E>(m: Entries<E>, key: int, first: E, second: E)
    ensures Stored(Stored(m, key, first), key, second) == Stored(m, key, second)
  {
  }

  /** After `remove(key)`, `get(key)` answers null, and every other key answers as before. */
  lemma RemoveThenGet<E>(m: Entries<E>, key: int, other: int)
    ensures Cached(Removed(m, key), key).None?
    ensures other != key ==> Cached(Removed(m, key), other) == Cached(m, other)
  {
  }

  /** `remove(keys)` completes iff no key is null; otherwise it throws a NullPointerException. */
  lemma {:induction false} RemoveEachOutcome<E>(m: Entries<E>, keys: seq<Option<int>>)
    ensures RemovedEach(m, keys).0.Pass? <==> None !in keys
    ensures RemovedEach(m, keys).0.Fail? ==> RemovedEach(m, keys).0.error == NullPointer
    decreases |keys|
  {
    if keys != [] {
      assert keys[0] in keys;
      if keys[0].Some? {
        RemoveEachOutcome(Removed(m, keys[0].value), keys[1..]);
        assert None in keys <==> None in keys[1..];
      }
    }
  }

  /** The set of some keys. */
  function KeySet(keys: seq<int>): set<int> {
    set k | k in keys
  }

  /** `remove(keys)` removes the keys before the first null and nothing else. */
  lemma {:induction false} RemoveEachEntries<E>(m: Entries<E>, keys: seq<Option<int>>)
    ensures RemovedEach(m, keys).1 == m - KeySet(Leading(keys))
    decreases |keys|
  {
    if keys == [] || keys[0].None? {
      assert m - {} == m;
    } else {
      var k := keys[0].value;
      RemoveEachEntries(Removed(m, k), keys[1..]);
      assert Leading(keys) == [k] + Leading(keys[1..]);
      assert KeySet(Leading(keys)) == {k} + KeySet(Leading(keys[1..]));
    }
  }

  /** With no null key, every key is removed. */
  lemma {:induction false} LeadingAll(keys: seq<Option<int>>)
    requires None !in keys
    ensures |Leading(keys)| == |keys|
    decreases |keys|
  {
    if keys != [] {
      assert keys[0] in keys;
      assert None !in keys[1..] by {
        assert forall x :: x in keys[1..] ==> x in keys;
      }
      LeadingAll(keys[1..]);
    }
  }

  /** What `get` answers after `remove(keys)` with no null key: null for a listed key, as before otherwise. */
  lemma RemoveEachThenGet<E>(m: Entries<E>, keys: seq<int>, key: int)
    ensures var listed := seq(|keys|, i requires 0 <= i < |keys| => Some(keys[i]));
            Cached(RemovedEach(m, listed).1, key) == (if key in keys then None else Cached(m, key))
  {
    var listed := seq(|keys|, i requires 0 <= i < |keys| => Some(keys[i]));
    RemoveEachEntries(m, listed);
    assert None !in listed;
    LeadingAll(listed);
    assert Leading(listed) == keys;
  }

  /** After `clear`, every key answers null. */
  lemma ClearThenGet<E>(key: int)
    ensures Cached<E>(map[], key).None?
  {
  }

  // ---------------------------------------------------------------- the cache object

  class Session<E> {
    var entries: Entries<E>

    constructor ()
      ensures entries == map[]
    {
      entries := map[];
    }

    /** `get`, under the cache lock. */
    method Get(key: int) returns (r: Option<E>)
      ensures r == Cached(entries, key)
    {
      if key in entries {
        r := entries[key];
      } else {
        r := None;
      }
    }

    /** `getNoLock`: the same lookup without the lock. */
    method GetNoLock(key: int) returns (r: Option<E>)
      ensures r == Cached(entries, key)
    {
      r := Get(key);
    }

    /** `put`, under the cache lock. */
    method Put(key: int, entity: E)
      modifies this
      ensures entries == Stored(old(entries), key, entity)
    {
      entries := entries[key := Some(entity)];
    }

    /** `putNoLock`: the same update without the lock. */
    method PutNoLock(key: int, entity: E)
      modifies this
      ensures entries == Stored(old(entries), key, entity)
    {
      Put(key, entity);
    }

    /** `remove(long)`. */
    method Remove(key: int)
      modifies this
      ensures entries == Removed(old(entries), key)
    {
      entries := entries - {key};
    }

    /** `remove(Iterable<Long>)`: each key in turn. */
    method RemoveAll(keys: seq<Option<int>>) returns (r: Outcome)
      modifies this
      ensures (r, entries) == RemovedEach(old(entries), keys)
    {
      var i := 0;
      while i < |keys|
        invariant 0 <= i <= |keys|
        invariant RemovedEach(old(entries), keys) == RemovedEach(entries, keys[i..])
      {
        assert keys[i..][1..] == keys[i + 1..];
        if keys[i].None? {
          return Fail(NullPointer);
        }
        entries := entries - {keys[i].value};
        i := i + 1;
      }
      r := Pass;
    }

    /** `clear`. */
    method Clear()
      modifies this
      ensures entries == map[]
    {
      entries := map[];
    }

    /** The collector reclaims the entity cached under `key`; no source method does this. */
    method Reclaim(key: int)
      modifies this
      ensures entries == Collected(old(entries), key)
    {
      if key in entries {
        entries := entries[key := None];
      }
    }
  }
}
