// What the scene appearance cache should hold: which entries survive when a new one is stored, and
// which stream generations are accepted. No heap and no locks here; the runtime itself is next door.
module AppearanceCache {
  import opened ChunkScan

  datatype Key = Key(stream: string, generation: nat, asset: string, variant: string, revision: nat)

  /** The parts of an asset descriptor that say which picture it is. */
  datatype Identity = Identity(asset: string, variant: string, mediaType: string, width: int, height: int,
                               byteSize: int, pixelCount: int, sha256: string, revision: nat)

  /** The image is the address of a pixel buffer. */
  datatype Entry = Entry(identity: Identity, image: nat, bytes: nat, lastUsed: nat)

  type Cache = map<Key, Entry>

  // ----- the bytes held -----

  ghost function Pick(c: Cache): (k: Key)
    requires c != map[]
    ensures k in c
  {
    var k :| k in c;
    k
  }

  ghost function Bytes(c: Cache): nat
    decreases |c|
  {
    if c == map[] then 0 else c[Pick(c)].bytes + Bytes(c - {Pick(c)})
  }

  lemma {:induction false} BytesRemove(c: Cache, k: Key)
    requires k in c
    ensures Bytes(c) == c[k].bytes + Bytes(c - {k})
    decreases |c|
  {
    var p := Pick(c);
    if p != k {
      BytesRemove(c - {p}, k);
      BytesRemove(c - {k}, p);
      assert c - {p} - {k} == c - {k} - {p};
    }
  }

  lemma BytesUpdate(c: Cache, k: Key, e: Entry)
    ensures Bytes(c[k := e]) == e.bytes + Bytes(c - {k})
  {
    BytesRemove(c[k := e], k);
    assert c[k := e] - {k} == c - {k};
  }

  lemma {:induction false} BytesSub(part: Cache, c: Cache)
    requires forall k :: k in part ==> k in c && part[k] == c[k]
    ensures Bytes(part) <= Bytes(c) && |part| <= |c|
    decreases |part|
  {
    if part != map[] {
      var k := Pick(part);
      BytesRemove(part, k);
      BytesRemove(c, k);
      BytesSub(part - {k}, c - {k});
      assert (part - {k}).Keys == part.Keys - {k} && (c - {k}).Keys == c.Keys - {k};
    }
  }

  // ----- eviction -----

  /** No two entries were last used at the same time. */
  ghost predicate Distinct(c: Cache) {
    forall j, k {:trigger Differ(c[j], c[k])} :: j in c && k in c && j != k ==> Differ(c[j], c[k])
  }

  predicate Differ(e: Entry, f: Entry) {
    e.lastUsed != f.lastUsed
  }

  ghost predicate IsOldest(c: Cache, k: Key) {
    k in c && forall j :: j in c ==> c[k].lastUsed <= c[j].lastUsed
  }

  lemma {:induction false} OldestExists(c: Cache) returns (k: Key)
    requires c != map[]
    ensures IsOldest(c, k)
    decreases |c|
  {
    var p := Pick(c);
    k := p;
    if c - {p} != map[] {
      var o := OldestExists(c - {p});
      k := if c[p].lastUsed <= c[o].lastUsed then p else o;
    }
    forall j | j in c && j != p ensures j in c - {p} {
    }
  }

  ghost function Oldest(c: Cache): (k: Key)
    requires c != map[]
    ensures IsOldest(c, k)
  {
    assert exists k :: IsOldest(c, k) by { var k := OldestExists(c); }
    var k :| IsOldest(c, k);
    k
  }

  ghost predicate Fits(c: Cache, maxEntries: nat, maxBytes: nat) {
    |c| <= maxEntries && Bytes(c) <= maxBytes
  }

  /** The oldest entries are dropped one by one until both budgets hold. */
  ghost function Evicted(c: Cache, maxEntries: nat, maxBytes: nat): Cache
    decreases |c|
  {
    if Fits(c, maxEntries, maxBytes) || c == map[] then c else Evicted(c - {Oldest(c)}, maxEntries, maxBytes)
  }

  /** The entry and all that were used since. */
  ghost function Since(c: Cache, k: Key): Cache
    requires k in c
  {
    map j | j in c && c[k].lastUsed <= c[j].lastUsed :: c[j]
  }

  lemma {:induction false} EvictedWithin(c: Cache, maxEntries: nat, maxBytes: nat)
    ensures var e := Evicted(c, maxEntries, maxBytes);
      Fits(e, maxEntries, maxBytes) && forall k :: k in e ==> k in c && e[k] == c[k]
    decreases |c|
  {
    if !Fits(c, maxEntries, maxBytes) && c != map[] {
      EvictedWithin(c - {Oldest(c)}, maxEntries, maxBytes);
    }
  }

  lemma SinceRemove(c: Cache, o: Key, k: Key)
    requires Distinct(c) && IsOldest(c, o) && k in c && k != o
    ensures Since(c - {o}, k) == Since(c, k)
  {
    assert Differ(c[o], c[k]);
  }

  /** Least recently used, exactly: an entry stays if and only if it and all that were used since it fit
      both budgets together. */
  lemma {:induction false} KeptIff(c: Cache, maxEntries: nat, maxBytes: nat, k: Key)
    requires Distinct(c) && k in c
    ensures k in Evicted(c, maxEntries, maxBytes) <==> Fits(Since(c, k), maxEntries, maxBytes)
    decreases |c|
  {
    BytesSub(Since(c, k), c);
    if !Fits(c, maxEntries, maxBytes) {
      var o := Oldest(c);
      EvictedWithin(c - {o}, maxEntries, maxBytes);
      if k == o {
        assert Since(c, k) == c;
      } else {
        SinceRemove(c, o, k);
        KeptIff(c - {o}, maxEntries, maxBytes, k);
      }
    }
  }

  // ----- storing -----

  /** A new entry replaces those of its stream, then the oldest make room. */
  ghost function Stored(c: Cache, key: Key, e: Entry, maxEntries: nat, maxBytes: nat): Cache {
    Evicted(Replaced(c, key.stream)[key := e], maxEntries, maxBytes)
  }

  function Replaced(c: Cache, stream: string): Cache {
    map k | k in c && k.stream != stream :: c[k]
  }

  ghost predicate OnePerStream(c: Cache) {
    forall j, k {:trigger Apart(j, k)} :: j in c && k in c && j != k ==> Apart(j, k)
  }

  predicate Apart(j: Key, k: Key) {
    j.stream != k.stream
  }

  /** All that the cache promises besides the pictures in it. */
  ghost predicate CacheOk(c: Cache, cacheBytes: int, clock: nat, maxEntries: nat, maxBytes: nat) {
    && cacheBytes == Bytes(c) && Fits(c, maxEntries, maxBytes)
    && OnePerStream(c) && Distinct(c) && (forall k :: k in c ==> c[k].lastUsed <= clock)
  }

  lemma Newest(c: Cache, clock: nat, key: Key, e: Entry)
    requires OnePerStream(c) && Distinct(c) && key !in c && e.lastUsed == clock + 1
    requires forall k :: k in c ==> c[k].lastUsed <= clock
    ensures var n := Replaced(c, key.stream)[key := e];
      OnePerStream(n) && Distinct(n) && (forall k :: k in n ==> n[k].lastUsed <= clock + 1) && Since(n, key) == map[key := e]
  {
  }

  lemma Alone(key: Key, e: Entry)
    ensures Bytes(map[key := e]) == e.bytes
  {
    BytesRemove(map[key := e], key);
    assert map[key := e] - {key} == map[];
  }

  /** Storing never gives up the entry just stored. */
  lemma StoredOk(c: Cache, cacheBytes: int, clock: nat, maxEntries: nat, maxBytes: nat, key: Key, e: Entry)
    requires CacheOk(c, cacheBytes, clock, maxEntries, maxBytes) && key !in c && 1 <= maxEntries && e.bytes <= maxBytes
    requires e.lastUsed == clock + 1
    ensures var s := Stored(c, key, e, maxEntries, maxBytes);
      && CacheOk(s, Bytes(s), clock + 1, maxEntries, maxBytes)
      && key in s && s[key] == e
      && forall k :: k in s && k != key ==> k in c && s[k] == c[k] && k.stream != key.stream
  {
    var n := Replaced(c, key.stream)[key := e];
    Newest(c, clock, key, e);
    EvictedWithin(n, maxEntries, maxBytes);
    KeptIff(n, maxEntries, maxBytes, key);
    Alone(key, e);
  }

  /** Of the entries that were there, exactly those of other streams stay that fit both budgets together with
      the new one and all used since. */
  lemma StoredKeepsIff(c: Cache, rest: Cache, clock: nat, key: Key, e: Entry, maxEntries: nat, maxBytes: nat, k: Key)
    requires Distinct(c) && (forall j :: j in c ==> c[j].lastUsed <= clock) && e.lastUsed == clock + 1
    requires forall j :: (j in rest <==> j in c && j.stream != key.stream) && (j in rest ==> rest[j] == c[j])
    requires k != key
    ensures k in Stored(c, key, e, maxEntries, maxBytes) <==> k in rest && Fits(Since(rest[key := e], k), maxEntries, maxBytes)
  {
    assert rest == Replaced(c, key.stream);
    var n := rest[key := e];
    EvictedWithin(n, maxEntries, maxBytes);
    if k in rest {
      forall i, j {:trigger Differ(n[i], n[j])} | i in n && j in n && i != j ensures Differ(n[i], n[j]) {
        assert i in rest && j in rest ==> Differ(c[i], c[j]);
      }
      KeptIff(n, maxEntries, maxBytes, k);
    }
  }

  function Touched(c: Cache, key: Key, now: nat): Cache
    requires key in c
  {
    c[key := c[key].(lastUsed := now)]
  }

  lemma TouchedBytes(c: Cache, key: Key, now: nat)
    requires key in c
    ensures Bytes(Touched(c, key, now)) == Bytes(c) && |Touched(c, key, now)| == |c|
  {
    BytesUpdate(c, key, c[key].(lastUsed := now));
    BytesRemove(c, key);
    assert Touched(c, key, now).Keys == c.Keys;
  }

  lemma TouchedOrder(c: Cache, key: Key, now: nat)
    requires key in c && OnePerStream(c) && Distinct(c) && forall k :: k in c ==> c[k].lastUsed < now
    ensures OnePerStream(Touched(c, key, now)) && Distinct(Touched(c, key, now))
    ensures forall k :: k in Touched(c, key, now) ==> Touched(c, key, now)[k].lastUsed <= now
  {
  }

  lemma TouchedOk(c: Cache, cacheBytes: int, clock: nat, maxEntries: nat, maxBytes: nat, key: Key)
    requires CacheOk(c, cacheBytes, clock, maxEntries, maxBytes) && key in c
    ensures CacheOk(Touched(c, key, clock + 1), cacheBytes, clock + 1, maxEntries, maxBytes)
  {
    TouchedOrder(c, key, clock + 1);
    TouchedBytes(c, key, clock + 1);
  }
}
