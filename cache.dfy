/**
 * The compiled-artifact cache: a store of compiled template code keyed by a
 * digest of the engine's class name, bounded at 1000 entries, evicting the
 * least recently used one. The store's contents and its recency order are
 * described by the value `Lru`; the shared cache object updates both in place.
 */
module ArtifactCache {

  /** Most entries the store holds. */
  const Capacity: nat := 1000

  /** What `write` stores: when it was written, and the compiled code. */
  datatype Item = Item(timestamp: nat, data: string)

  /**
   * The store: its entries, and their keys from least to most recently used.
   */
  datatype Lru = Lru(entries: map<string, Item>, recency: seq<string>)

  /** What `load` hands to the engine. */
  datatype Template =
    | EmptyTemplates         // `() => new Map()`: nothing cached, the engine compiles afresh
    | Restored(code: string) // what evaluating the stored code exports

  predicate NoDuplicates(keys: seq<string>) {
    forall i, j :: 0 <= i < j < |keys| ==> keys[i] != keys[j]
  }

  /** The store invariant: each entry's key appears once in the recency order, and nothing else does. */
  ghost predicate Valid(s: Lru) {
    |s.recency| <= Capacity &&
    NoDuplicates(s.recency) &&
    forall k :: k in s.entries <==> k in s.recency
  }

  /** `keys` without `key`, the others in the same order. */
  function Without(keys: seq<string>, key: string): (r: seq<string>)
    ensures forall k :: k in r <==> k in keys && k != key
    ensures NoDuplicates(keys) ==> NoDuplicates(r)
    ensures key !in keys ==> r == keys
    ensures NoDuplicates(keys) && key in keys ==> |r| == |keys| - 1
  {
    if keys == [] then []
    else if keys[0] == key then Without(keys[1..], key)
    else
      var rest := Without(keys[1..], key);
      assert NoDuplicates(keys) ==> keys[0] !in keys[1..] && NoDuplicates(keys[1..]) by {
        if NoDuplicates(keys) {
          forall i | 0 <= i < |keys[1..]| ensures keys[1..][i] != keys[0] {
            assert keys[1..][i] == keys[i + 1];
          }
        }
      }
      [keys[0]] + rest
  }

  /** A use of `key` (a `get` that finds it): it becomes the most recently used. */
  function Touch(s: Lru, key: string): Lru {
    if key in s.entries then Lru(s.entries, Without(s.recency, key) + [key]) else s
  }

  /**
   * `set(key, item)`: replaces the entry for `key`, or adds one, evicting the
   * least recently used entry when the store is full; `key` becomes the most
   * recently used.
   */
  function Put(s: Lru, key: string, item: Item): Lru {
    if key in s.entries then Lru(s.entries[key := item], Without(s.recency, key) + [key])
    else if |s.recency| < Capacity then Lru(s.entries[key := item], s.recency + [key])
    else Lru((s.entries - {s.recency[0]})[key := item], s.recency[1..] + [key])
  }

  /** What `load(key)` returns on the store `s`. */
  function Loaded(s: Lru, key: string): Template {
    if key in s.entries then Restored(s.entries[key].data) else EmptyTemplates
  }

  /** What `getTimestamp(key)` returns on the store `s`. */
  function TimestampOf(s: Lru, key: string): nat {
    if key in s.entries then s.entries[key].timestamp else 0
  }

  /** The shared cache object the engine calls. */
  class Cache {
    var entries: map<string, Item>
    var recency: seq<string>
    /** The digest function (`md5`) applied to class names. */
    const digest: string -> string

    function State(): Lru
      reads this
    {
      Lru(entries, recency)
    }

    ghost predicate IsValid()
      reads this
    {
      Valid(State())
    }

    constructor (digest: string -> string)
      ensures IsValid() && State() == Lru(map[], [])
      ensures this.digest == digest
    {
      entries := map[];
      recency := [];
      this.digest := digest;
    }

    /** `generateKey(name, className)`: the digest of the class name alone. */
    function GenerateKey(name: string, className: string): (key: string)
    {
      digest(className)
    }

    /** `load(key)`: the stored code's export on a hit, the empty producer on a miss. */
    method Load(key: string) returns (t: Template)
      requires IsValid()
      modifies this
      ensures IsValid()
      ensures t == Loaded(old(State()), key)
      ensures State() == Touch(old(State()), key)
    {
      if key in entries {
        t := Restored(entries[key].data);
        recency := Without(recency, key) + [key];
      } else {
        t := EmptyTemplates;
      }
    }

    /** `write(key, content)` at time `now`. */
    method Write(key: string, content: string, now: nat)
      requires IsValid()
      modifies this
      ensures IsValid()
      ensures State() == Put(old(State()), key, Item(now, content))
    {
      ghost var before := State();
      var item := Item(now, content);
      if key in entries {
        recency := Without(recency, key) + [key];
      } else if |recency| < Capacity {
        recency := recency + [key];
      } else {
        var oldest := recency[0];
        entries := entries - {oldest};
        recency := recency[1..] + [key];
      }
      entries := entries[key := item];
      PutValid(before, key, item);
    }

    /** `getTimestamp(key)`: the stored timestamp, or 0 when `key` is not held. */
    method GetTimestamp(key: string) returns (ts: nat)
      requires IsValid()
      modifies this
      ensures IsValid()
      ensures ts == TimestampOf(old(State()), key)
      ensures State() == Touch(old(State()), key)
    {
      if key in entries {
        ts := entries[key].timestamp;
        recency := Without(recency, key) + [key];
      } else {
        ts := 0;
      }
    }
  }

  /** A store holds exactly as many entries as its recency order lists keys. */
  lemma {:induction false} SizeMatchesRecency(s: Lru)
    requires Valid(s)
    ensures |s.entries| == |s.recency|
  {
    DistinctKeysCount(s.recency);
    assert s.entries.Keys == set k | k in s.recency;
  }

  lemma {:induction false} DistinctKeysCount(keys: seq<string>)
    requires NoDuplicates(keys)
    ensures |set k | k in keys| == |keys|
  {
    if keys != [] {
      var rest := keys[1..];
      DistinctKeysCount(rest);
      assert (set k | k in keys) == {keys[0]} + (set k | k in rest);
      assert keys[0] !in rest;
    }
  }

  /** `a` comes before `b` in `keys`: it was used less recently. */
  predicate Before(keys: seq<string>, a: string, b: string) {
    exists i, j :: 0 <= i < j < |keys| && keys[i] == a && keys[j] == b
  }

  lemma BeforeCons(head: string, tail: seq<string>, a: string, b: string)
    ensures Before([head] + tail, a, b) <==> (a == head && b in tail) || Before(tail, a, b)
  {
    var keys := [head] + tail;
    if Before(keys, a, b) {
      var i, j :| 0 <= i < j < |keys| && keys[i] == a && keys[j] == b;
      assert keys[j] == tail[j - 1];
      if i > 0 {
        assert keys[i] == tail[i - 1];
      }
    }
    if a == head && b in tail {
      var j :| 0 <= j < |tail| && tail[j] == b;
      assert keys[0] == a && keys[j + 1] == b;
    }
    if Before(tail, a, b) {
      var i, j :| 0 <= i < j < |tail| && tail[i] == a && tail[j] == b;
      assert keys[i + 1] == a && keys[j + 1] == b;
    }
  }

  lemma BeforeAppend(keys: seq<string>, last: string, a: string, b: string)
    requires b != last
    ensures Before(keys + [last], a, b) <==> Before(keys, a, b)
  {
    var longer := keys + [last];
    if Before(longer, a, b) {
      var i, j :| 0 <= i < j < |longer| && longer[i] == a && longer[j] == b;
      assert j < |keys|;
      assert keys[i] == a && keys[j] == b;
    }
    if Before(keys, a, b) {
      var i, j :| 0 <= i < j < |keys| && keys[i] == a && keys[j] == b;
      assert longer[i] == a && longer[j] == b;
    }
  }

  /** Removing a key keeps every other two keys in the same order. */
  lemma {:induction false} WithoutKeepsOrder(keys: seq<string>, key: string, a: string, b: string)
    requires a != key && b != key
    ensures Before(Without(keys, key), a, b) <==> Before(keys, a, b)
  {
    if keys != [] {
      assert keys == [keys[0]] + keys[1..];
      WithoutKeepsOrder(keys[1..], key, a, b);
      BeforeCons(keys[0], keys[1..], a, b);
      if keys[0] != key {
        BeforeCons(keys[0], Without(keys[1..], key), a, b);
      }
    }
  }

  /**
   * A use changes no other two keys' recency order, so the least recently
   * used key stays first until it is used or evicted.
   */
  lemma TouchKeepsOrder(s: Lru, key: string, a: string, b: string)
    requires a != key && b != key
    ensures Before(Touch(s, key).recency, a, b) <==> Before(s.recency, a, b)
  {
    if key in s.entries {
      BeforeAppend(Without(s.recency, key), key, a, b);
      WithoutKeepsOrder(s.recency, key, a, b);
    }
  }

  /** A write changes no other two remaining keys' recency order. */
  lemma PutKeepsOrder(s: Lru, key: string, item: Item, a: string, b: string)
    requires a != key && b != key
    requires a in Put(s, key, item).entries && b in Put(s, key, item).entries
    ensures Before(Put(s, key, item).recency, a, b) <==> Before(s.recency, a, b)
  {
    if key in s.entries {
      BeforeAppend(Without(s.recency, key), key, a, b);
      WithoutKeepsOrder(s.recency, key, a, b);
    } else if |s.recency| < Capacity {
      BeforeAppend(s.recency, key, a, b);
    } else {
      var oldest := s.recency[0];
      assert a != oldest && b != oldest;
      BeforeAppend(s.recency[1..], key, a, b);
      assert s.recency == [oldest] + s.recency[1..];
      BeforeCons(oldest, s.recency[1..], a, b);
    }
  }

  /** A use keeps every entry and the invariant, and makes `key` the most recently used. */
  lemma TouchValid(s: Lru, key: string)
    requires Valid(s)
    ensures Valid(Touch(s, key))
    ensures Touch(s, key).entries == s.entries
    ensures key in s.entries ==> Touch(s, key).recency[|Touch(s, key).recency| - 1] == key
  {
  }

  /** A write keeps the invariant, so the store never holds more than `Capacity` entries. */
  lemma PutValid(s: Lru, key: string, item: Item)
    requires Valid(s)
    ensures Valid(Put(s, key, item))
    ensures |Put(s, key, item).entries| <= Capacity
  {
    var r := Put(s, key, item);
    if key in s.entries {
      assert Valid(r);
    } else if |s.recency| < Capacity {
      AppendFresh(s.recency, key);
      assert Valid(r);
    } else {
      EvictOldest(s, key, item);
    }
    SizeMatchesRecency(r);
  }

  lemma AppendFresh(keys: seq<string>, key: string)
    requires NoDuplicates(keys) && key !in keys
    ensures NoDuplicates(keys + [key])
  {
  }

  lemma EvictOldest(s: Lru, key: string, item: Item)
    requires Valid(s) && key !in s.entries && |s.recency| >= Capacity
    ensures Valid(Put(s, key, item))
  {
    var r := Put(s, key, item);
    var oldest := s.recency[0];
    var rest := s.recency[1..];
    assert NoDuplicates(rest) && oldest !in rest by {
      forall i | 0 <= i < |rest| ensures rest[i] != oldest {
        assert rest[i] == s.recency[i + 1];
      }
    }
    AppendFresh(rest, key);
    assert r.recency == rest + [key];
    forall k ensures k in r.entries <==> k in r.recency {
      assert k in s.recency <==> k == oldest || k in rest;
    }
  }

  /** After a write, the key holds the written item and is the most recently used. */
  lemma PutStores(s: Lru, key: string, item: Item)
    ensures key in Put(s, key, item).entries && Put(s, key, item).entries[key] == item
    ensures Put(s, key, item).recency[|Put(s, key, item).recency| - 1] == key
  {
  }

  /** A write leaves every other key's item as it was, if that key is still held. */
  lemma PutKeepsOthers(s: Lru, key: string, item: Item, other: string)
    requires other != key && other in Put(s, key, item).entries
    ensures other in s.entries && Put(s, key, item).entries[other] == s.entries[other]
  {
  }

  /** A write that replaces an entry, or finds room, evicts nothing. */
  lemma PutEvictsNothingWithRoom(s: Lru, key: string, item: Item)
    requires Valid(s)
    requires key in s.entries || |s.entries| < Capacity
    ensures Put(s, key, item).entries.Keys == s.entries.Keys + {key}
  {
    SizeMatchesRecency(s);
  }

  /**
   * A write of a new key into a full store evicts exactly the least recently
   * used key; every other key stays.
   */
  lemma PutEvictsLeastRecent(s: Lru, key: string, item: Item)
    requires Valid(s)
    requires key !in s.entries && |s.entries| == Capacity
    ensures |s.recency| > 0
    ensures s.recency[0] !in Put(s, key, item).entries
    ensures Put(s, key, item).entries.Keys == s.entries.Keys - {s.recency[0]} + {key}
  {
    SizeMatchesRecency(s);
  }

  /**
   * `getTimestamp` after `write(key, _)` at time `now` reports `now`, and a key
   * never written (or evicted) reports 0.
   */
  lemma TimestampAfterWrite(s: Lru, key: string, content: string, now: nat)
    ensures TimestampOf(Put(s, key, Item(now, content)), key) == now
    ensures Loaded(Put(s, key, Item(now, content)), key) == Restored(content)
  {
  }

  lemma MissingKeyIsStale(s: Lru, key: string)
    requires key !in s.entries
    ensures TimestampOf(s, key) == 0 && Loaded(s, key) == EmptyTemplates
  {
  }

  /** The key depends on the class name only: the template name plays no part. */
  lemma KeyIgnoresTemplateName(cache: Cache, name: string, otherName: string, className: string)
    ensures cache.GenerateKey(name, className) == cache.GenerateKey(otherName, className)
  {
  }
}
