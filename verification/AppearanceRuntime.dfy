// The scene appearance runtime: prepared backgrounds are cached per stream, and the pixels of every
// picture that leaves the cache are zeroed where they are.
module AppearanceRuntime {
  import opened Text
  import opened ChunkScan
  import opened AppearanceCache
  import AB = AppearanceBindings

  datatype Result<T> = Ok(value: T) | Err(code: AB.Code)

  // ----- what a response depicts -----

  datatype Response = Response(asset: string, variant: string, mediaType: string, width: int, height: int,
                               byteSize: int, sha256: string, body: seq<Byte>)

  /** A decoded image: its size, and its pixels drawn as RGBA. */
  datatype Picture = Picture(width: int, height: int, pixels: seq<Byte>)

  datatype Size = Size(width: int, height: int)

  /** The hash in hexadecimal and the image decoders. */
  datatype Codec = Codec(hash: seq<Byte> -> string, size: (seq<Byte>, string) -> Option<Size>, decode: (seq<Byte>, string) -> Option<Picture>)

  function ContentMatches(body: seq<Byte>, mediaType: string): bool {
    if mediaType == PNG then |body| >= 8 && body[..8] == [137, 80, 78, 71, 13, 10, 26, 10]
    else if mediaType == JPEG then |body| >= 3 && body[0] == 255 && body[1] == 216 && body[2] == 255
    else mediaType == WEBP && |body| >= 12 && body[..4] == [82, 73, 70, 70] && body[8..12] == [87, 69, 66, 80]
  }

  /** What the declared metadata of a response is wrong about, if anything. */
  function MetadataError(d: Identity, r: Response): Option<AB.Code> {
    if r.asset != d.asset || r.variant != d.variant then Some(AB.RevisionPayloadConflict)
    else if r.mediaType != d.mediaType then Some(AB.FormatUnsupported)
    else if r.width != d.width || r.height != d.height then Some(AB.DimensionMismatch)
    else if r.byteSize > d.byteSize || |r.body| > d.byteSize then Some(AB.TooLarge)
    else if r.byteSize != d.byteSize || |r.body| != d.byteSize then Some(AB.DecodeFailed)
    else if r.sha256 != d.sha256 then Some(AB.HashMismatch)
    else None
  }

  function Decoded(codec: Codec, d: Identity, body: seq<Byte>): Result<seq<Byte>> {
    if codec.hash(body) != d.sha256 then Err(AB.HashMismatch)
    else if !ContentMatches(body, d.mediaType) || Animated(body, d.mediaType) then Err(AB.FormatUnsupported)
    else match codec.size(body, d.mediaType)
      case None => Err(AB.DecodeFailed)
      case Some(size) =>
        if size != Size(d.width, d.height) then Err(AB.DimensionMismatch)
        else match codec.decode(body, d.mediaType)
          case None => Err(AB.DecodeFailed)
          case Some(p) => if p.width != d.width || p.height != d.height then Err(AB.DimensionMismatch) else Ok(p.pixels)
  }

  function Validate(codec: Codec, d: Identity, r: Response): Result<seq<Byte>> {
    var e := MetadataError(d, r);
    if e.Some? then Err(e.value) else Decoded(codec, d, r.body)
  }

  /** Some response to the descriptor was accepted, and these are the pixels it decoded to. */
  ghost predicate Depicts(codec: Codec, d: Identity, pixels: seq<Byte>) {
    exists r :: Validate(codec, d, r) == Ok(pixels)
  }

  /** With a hash that no two bodies share, all accepted responses to one descriptor are one picture. */
  lemma OnePicture(codec: Codec, d: Identity, r: Response, pixels: seq<Byte>)
    requires forall x, y :: codec.hash(x) == codec.hash(y) ==> x == y
    requires Depicts(codec, d, pixels) && Validate(codec, d, r).Ok?
    ensures Validate(codec, d, r) == Ok(pixels)
  {
    var q :| Validate(codec, d, q) == Ok(pixels);
    assert codec.hash(q.body) == codec.hash(r.body);
  }

  /** What a body of each type starts with. */
  ghost predicate Signed(body: seq<Byte>, mediaType: string) {
    match mediaType
    case "image/png" => |body| >= 8 && body[0] == 0x89 && Spells(QuadAt(body, 1), "PNG\r") && Spells(QuadAt(body, 4), "\r\n\U{1A}\n")
    case "image/jpeg" => |body| >= 3 && body[0] == 0xFF && body[1] == 0xD8 && body[2] == 0xFF
    case "image/webp" => |body| >= 12 && Spells(QuadAt(body, 0), "RIFF") && Spells(QuadAt(body, 8), "WEBP")
    case _ => false
  }

  /** A response is accepted with these pixels if and only if the decoder gave them for its body, a still image
      in the announced format and size, and its metadata are those of the descriptor. */
  lemma AcceptedIff(codec: Codec, d: Identity, r: Response, pixels: seq<Byte>)
    ensures Validate(codec, d, r) == Ok(pixels) <==> (
              && r.asset == d.asset && r.variant == d.variant && r.mediaType == d.mediaType && r.width == d.width && r.height == d.height
              && r.byteSize == |r.body| == d.byteSize && codec.hash(r.body) == r.sha256 == d.sha256
              && Signed(r.body, d.mediaType) && !Animated(r.body, d.mediaType)
              && codec.size(r.body, d.mediaType) == Some(Size(d.width, d.height))
              && codec.decode(r.body, d.mediaType) == Some(Picture(d.width, d.height, pixels)))
  {
    SignedIff(r.body, d.mediaType);
  }

  lemma SignedIff(body: seq<Byte>, mediaType: string)
    ensures ContentMatches(body, mediaType) <==> Signed(body, mediaType)
  {
  }

  /** Nothing that was accepted is animated, or differs in size from its descriptor. */
  lemma AcceptedIsStill(codec: Codec, d: Identity, r: Response)
    requires Validate(codec, d, r).Ok?
    ensures !Animated(r.body, d.mediaType) && |r.body| == d.byteSize == r.byteSize && codec.hash(r.body) == d.sha256 == r.sha256
    ensures codec.size(r.body, d.mediaType) == Some(Size(d.width, d.height))
  {
  }

  /** A response whose body is a list of chunks after the header of its type is refused if one of them
      announces an animation, whatever the decoders would make of it. */
  lemma AnimationRefused(codec: Codec, d: Identity, r: Response, l: Layout, header: seq<Byte>, chunks: seq<Chunk>, j: nat)
    requires Writable(chunks) && |header| == HeaderSize(l) && r.body == header + AllWritten(l, chunks, 0) && d.mediaType == MediaTypeOf(l)
    requires j < |chunks| && Announces(l, chunks[j].kind)
    ensures Validate(codec, d, r).Err?
  {
    AnimatedIffChunkPresent(l, header, chunks);
    if Validate(codec, d, r).Ok? {
      AcceptedIsStill(codec, d, r);
    }
  }

  // ----- pixel buffers -----

  /** Pixel buffers by address. Whoever was handed a picture holds its address, too. */
  type Memory = map<nat, seq<Byte>>

  function Zeros(n: nat): (s: seq<Byte>)
    ensures |s| == n && forall i :: 0 <= i < n ==> s[i] == 0
  {
    seq(n, i => 0)
  }

  /** The buffers in dead are overwritten with zeros, no other buffer changes. */
  function Wiped(m: Memory, dead: set<nat>): Memory {
    map a | a in m :: if a in dead then Zeros(|m[a]|) else m[a]
  }

  /** The buffers of the entries that are no longer cached. */
  ghost function Released(was: Cache, c: Cache): set<nat> {
    set k | k in was && k !in c :: was[k].image
  }

  ghost predicate Part(c: Cache, whole: Cache) {
    forall k :: k in c ==> k in whole && c[k] == whole[k]
  }

  lemma ReleasedOne(was: Cache, c: Cache, key: Key)
    requires Part(c, was) && key in c
    ensures Released(was, c - {key}) == Released(was, c) + {c[key].image}
  {
  }

  lemma WipedOne(m: Memory, dead: set<nat>, a: nat)
    requires a in m
    ensures Wiped(m, dead)[a := Zeros(|m[a]|)] == Wiped(m, dead + {a})
  {
  }

  lemma WipedNone(m: Memory)
    ensures Wiped(m, {}) == m
  {
  }

  lemma WipedTwice(m: Memory, dead: set<nat>, more: set<nat>)
    ensures Wiped(Wiped(m, dead), more) == Wiped(m, dead + more)
  {
    forall a | a in m ensures Wiped(Wiped(m, dead), more)[a] == Wiped(m, dead + more)[a] {
    }
  }

  /** Every entry has a buffer of its own, still showing what its descriptor asked for. */
  ghost predicate Genuine(codec: Codec, c: Cache, m: Memory) {
    && (forall k :: k in c ==> c[k].image in m && |m[c[k].image]| == c[k].bytes)
    && (forall k {:trigger Depicts(codec, c[k].identity, m[c[k].image])} :: k in c ==> Depicts(codec, c[k].identity, m[c[k].image]))
    && (forall j, k {:trigger Separate(c[j], c[k])} :: j in c && k in c && j != k ==> Separate(c[j], c[k]))
  }

  predicate Separate(e: Entry, f: Entry) {
    e.image != f.image
  }

  class Runtime {
    const maxEntries: nat
    const maxCacheBytes: nat
    const codec: Codec
    const canFetch: bool
    var closed: bool
    var cache: Cache
    var cacheBytes: int
    var bindings: AB.Bindings
    var clock: nat
    var memory: Memory
    var next: nat

    ghost predicate Valid()
      reads this
    {
      && 1 <= maxEntries && CacheOk(cache, cacheBytes, clock, maxEntries, maxCacheBytes)
      && AB.BindingsOk(bindings, clock) && (closed ==> cache == map[] && bindings == map[])
      && Genuine(codec, cache, memory) && forall a :: a in memory ==> a < next
    }

    constructor (maxEntries: int, maxCacheBytes: int, codec: Codec, canFetch: bool)
      ensures Valid() && !closed && cache == map[] && bindings == map[]
      ensures this.maxEntries == (if maxEntries <= 0 then 8 else maxEntries) && this.codec == codec
      ensures this.maxCacheBytes == (if maxCacheBytes <= 0 then 268435456 else maxCacheBytes)
    {
      this.maxEntries := if maxEntries <= 0 then 8 else maxEntries;
      this.maxCacheBytes := if maxCacheBytes <= 0 then 268435456 else maxCacheBytes;
      this.codec, this.canFetch := codec, canFetch;
      closed, cache, cacheBytes, bindings, clock, memory, next := false, map[], 0, map[], 0, map[], 0;
    }

    method ZeroBytes(address: nat)
      requires address in memory
      modifies this`memory
      ensures memory == old(memory)[address := Zeros(|old(memory)[address]|)]
    {
      ghost var before := memory;
      for i := 0 to |memory[address]|
        invariant memory.Keys == before.Keys && |memory[address]| == |before[address]|
        invariant forall j :: 0 <= j < i ==> memory[address][j] == 0
        invariant forall a :: a in before && a != address ==> memory[a] == before[a]
      {
        memory := memory[address := memory[address][i := 0]];
      }
      assert memory[address] == Zeros(|before[address]|);
    }

    // ----- eviction -----

    /** The clamp at zero is never taken: the bytes go down by exactly what the entry holds. */
    method RemoveLocked(key: Key)
      requires key in cache && cacheBytes == Bytes(cache) && cache[key].image in memory
      modifies this`cache, this`cacheBytes, this`memory
      ensures cache == old(cache) - {key} && cacheBytes == Bytes(cache) == old(cacheBytes) - old(cache)[key].bytes
      ensures memory == old(memory)[old(cache)[key].image := Zeros(|old(memory)[old(cache)[key].image]|)]
    {
      var e := cache[key];
      BytesRemove(cache, key);
      cache := cache - {key};
      ZeroBytes(e.image);
      cacheBytes := Clamped(cacheBytes - e.bytes);
    }

    /** Removal as part of a longer one that began with the cache was and the memory before. */
    method Release(key: Key, ghost was: Cache, ghost before: Memory)
      requires key in cache && cacheBytes == Bytes(cache) && Part(cache, was)
      requires memory == Wiped(before, Released(was, cache)) && cache[key].image in before
      modifies this`cache, this`cacheBytes, this`memory
      ensures cache == old(cache) - {key} && cacheBytes == Bytes(cache) && Part(cache, was)
      ensures memory == Wiped(before, Released(was, cache))
    {
      ReleasedOne(was, cache, key);
      WipedOne(before, Released(was, cache), cache[key].image);
      RemoveLocked(key);
    }

    /** Drops the older pictures of a stream, whatever their revision. */
    method DropStream(stream: string)
      requires cacheBytes == Bytes(cache) && forall k :: k in cache ==> cache[k].image in memory
      modifies this`cache, this`cacheBytes, this`memory
      ensures cache == Replaced(old(cache), stream) && cacheBytes == Bytes(cache)
      ensures memory == Wiped(old(memory), Released(old(cache), cache))
    {
      ghost var was, before, goal := cache, memory, Replaced(cache, stream);
      WipedNone(memory);
      assert Released(was, cache) == {};
      var keys := cache.Keys;
      while keys != {}
        invariant keys <= cache.Keys && cacheBytes == Bytes(cache) && Part(cache, was)
        invariant Replaced(cache, stream) == goal && forall k :: k in cache && k !in keys ==> k.stream != stream
        invariant memory == Wiped(before, Released(was, cache))
        decreases |keys|
      {
        var k :| k in keys;
        keys := keys - {k};
        if k.stream == stream {
          ReplacedWithout(cache, k);
          Release(k, was, before);
        }
      }
      ReplacedAll(cache, stream);
    }

    /** The least recently used entry. */
    method FindOldest() returns (k: Key)
      requires cache != map[]
      ensures IsOldest(cache, k)
    {
      var keys := cache.Keys;
      k :| k in keys;
      keys := keys - {k};
      while keys != {}
        invariant keys <= cache.Keys && k in cache
        invariant forall j :: j in cache && j !in keys ==> cache[k].lastUsed <= cache[j].lastUsed
        decreases |keys|
      {
        var j :| j in keys;
        keys := keys - {j};
        if cache[j].lastUsed < cache[k].lastUsed {
          k := j;
        }
      }
    }

    /** Drops the least recently used entries until both budgets hold. */
    method Evict()
      requires cacheBytes == Bytes(cache) && Distinct(cache) && forall k :: k in cache ==> cache[k].image in memory
      modifies this`cache, this`cacheBytes, this`memory
      ensures cache == Evicted(old(cache), maxEntries, maxCacheBytes) && cacheBytes == Bytes(cache) && Part(cache, old(cache))
      ensures memory == Wiped(old(memory), Released(old(cache), cache))
    {
      ghost var was, before, goal := cache, memory, Evicted(cache, maxEntries, maxCacheBytes);
      WipedNone(memory);
      assert Released(was, cache) == {};
      while |cache| > maxEntries || cacheBytes > maxCacheBytes
        invariant cacheBytes == Bytes(cache) && Part(cache, was) && Distinct(cache)
        invariant Evicted(cache, maxEntries, maxCacheBytes) == goal
        invariant memory == Wiped(before, Released(was, cache))
        decreases |cache|
      {
        EvictStep(cache, maxEntries, maxCacheBytes);
        var oldest := FindOldest();
        OldestIs(cache, oldest);
        Release(oldest, was, before);
      }
    }

    // ----- lookups and stores -----

    /** A hit is stamped as used; an entry for the key that is another picture is a conflict. */
    method Cached(key: Key, identity: Identity) returns (r: Result<Option<nat>>)
      requires Valid()
      modifies this`cache, this`clock
      ensures Valid()
      ensures r.Err? ==> cache == old(cache) && r.code == if closed then AB.CapabilityRequired else AB.RevisionPayloadConflict
      ensures r.Err? <==> closed || (key in cache && cache[key].identity != identity)
      ensures r == Ok(None) ==> cache == old(cache) && key !in cache
      ensures r.Ok? && r.value.Some? ==>
                && key in old(cache) && cache == Touched(old(cache), key, clock) && clock == old(clock) + 1
                && cache[key].identity == identity && r.value == Some(cache[key].image)
                && r.value.value in memory && Depicts(codec, identity, memory[r.value.value])
    {
      if closed {
        return Err(AB.CapabilityRequired);
      }
      if key !in cache {
        return Ok(None);
      }
      if cache[key].identity != identity {
        return Err(AB.RevisionPayloadConflict);
      }
      Touch(key);
      r := Ok(Some(cache[key].image));
    }

    method Touch(key: Key)
      requires Valid() && key in cache && !closed
      modifies this`cache, this`clock
      ensures Valid() && cache == Touched(old(cache), key, clock) && clock == old(clock) + 1
    {
      TouchedOk(cache, cacheBytes, clock, maxEntries, maxCacheBytes, key);
      TouchedGenuine(codec, cache, memory, key, clock + 1);
      var now := clock + 1;
      cache, clock := Touched(cache, key, now), now;
    }

    /** What was decoded meanwhile for an entry that is there already is zeroed and given up; a new entry
        replaces the older ones of its stream, then the least recently used make room. The picture that
        is returned is as it was. */
    method Store(key: Key, identity: Identity, decoded: nat) returns (r: Result<nat>)
      requires Valid() && decoded in memory && Depicts(codec, identity, memory[decoded]) && !Used(cache, decoded)
      modifies this`cache, this`cacheBytes, this`clock, this`memory
      ensures Valid() && memory.Keys == old(memory).Keys
      ensures r.Err? ==> cache == old(cache) && memory == old(memory) && clock == old(clock)
      ensures r.Err? ==> r.code == if closed then AB.CapabilityRequired else if key in cache then AB.RevisionPayloadConflict else AB.TooLarge
      ensures r.Err? <==> closed || (if key in old(cache) then old(cache)[key].identity != identity else |old(memory)[decoded]| > maxCacheBytes)
      ensures r.Ok? ==> Keeps(old(cache), key, identity, r.value) && clock == old(clock) + 1 && memory[r.value] == old(memory)[r.value]
      ensures r.Ok? ==> (r.value == decoded <==> key !in old(cache))
      ensures r.Ok? ==>
                memory == if key in old(cache) then old(memory)[decoded := Zeros(|old(memory)[decoded]|)] else Wiped(old(memory), Released(old(cache), cache))
    {
      if closed {
        return Err(AB.CapabilityRequired);
      }
      if key in cache {
        if cache[key].identity != identity {
          return Err(AB.RevisionPayloadConflict);
        }
        ZeroUnused(decoded);
        Touch(key);
        return Ok(cache[key].image);
      }
      if |memory[decoded]| > maxCacheBytes {
        return Err(AB.TooLarge);
      }
      Insert(key, identity, decoded);
      r := Ok(decoded);
    }

    method ZeroUnused(decoded: nat)
      requires Valid() && decoded in memory && !Used(cache, decoded)
      modifies this`memory
      ensures Valid() && memory == old(memory)[decoded := Zeros(|old(memory)[decoded]|)]
    {
      ZeroBytes(decoded);
      StillGenuine(codec, cache, old(memory), memory);
    }

    method Insert(key: Key, identity: Identity, decoded: nat)
      requires 1 <= maxEntries && CacheOk(cache, cacheBytes, clock, maxEntries, maxCacheBytes) && Genuine(codec, cache, memory)
      requires key !in cache && decoded in memory && |memory[decoded]| <= maxCacheBytes
      requires Depicts(codec, identity, memory[decoded]) && !Used(cache, decoded)
      modifies this`cache, this`cacheBytes, this`clock, this`memory
      ensures CacheOk(cache, cacheBytes, clock, maxEntries, maxCacheBytes) && Genuine(codec, cache, memory)
      ensures var e := Entry(identity, decoded, |old(memory)[decoded]|, clock);
        && clock == old(clock) + 1 && key in cache && cache[key] == e && cache == Stored(old(cache), key, e, maxEntries, maxCacheBytes)
      ensures memory == Wiped(old(memory), Released(old(cache), cache)) && memory[decoded] == old(memory)[decoded]
    {
      var e := Entry(identity, decoded, |memory[decoded]|, clock + 1);
      StoredOk(cache, cacheBytes, clock, maxEntries, maxCacheBytes, key, e);
      InsertGenuine(codec, cache, memory, key, e, maxEntries, maxCacheBytes);
      Newest(cache, clock, key, e);
      MakeEntry(key, e);
    }

    method AddEntry(key: Key, e: Entry)
      requires cacheBytes == Bytes(cache) && key !in cache
      modifies this`cache, this`cacheBytes, this`clock
      ensures cache == old(cache)[key := e] && cacheBytes == Bytes(cache) && clock == old(clock) + 1
    {
      BytesUpdate(cache, key, e);
      assert cache - {key} == cache;
      clock := clock + 1;
      cache := cache[key := e];
      cacheBytes := cacheBytes + e.bytes;
    }

    method Replace(key: Key, e: Entry)
      requires cacheBytes == Bytes(cache) && key !in cache && forall k :: k in cache ==> cache[k].image in memory
      modifies this`cache, this`cacheBytes, this`clock, this`memory
      ensures cache == Replaced(old(cache), key.stream)[key := e] && cacheBytes == Bytes(cache) && clock == old(clock) + 1
      ensures memory == Wiped(old(memory), Released(old(cache), Replaced(old(cache), key.stream)))
    {
      DropStream(key.stream);
      AddEntry(key, e);
    }

    /** The changes to the cache, without what they mean. */
    method MakeEntry(key: Key, e: Entry)
      requires cacheBytes == Bytes(cache) && key !in cache && Distinct(Replaced(cache, key.stream)[key := e])
      requires e.image in memory && forall k :: k in cache ==> cache[k].image in memory
      requires key in Stored(cache, key, e, maxEntries, maxCacheBytes)
      modifies this`cache, this`cacheBytes, this`clock, this`memory
      ensures cache == Stored(old(cache), key, e, maxEntries, maxCacheBytes) && cacheBytes == Bytes(cache) && clock == old(clock) + 1
      ensures memory == Wiped(old(memory), Released(old(cache), cache))
    {
      ghost var was, before := cache, memory;
      Replace(key, e);
      Evict();
      TwoRemovals(was, key, e, cache, before);
    }

    /** Zeroes every cached picture and accepts nothing from then on. */
    method Close()
      requires Valid()
      modifies this`closed, this`cache, this`cacheBytes, this`memory, this`bindings
      ensures Valid() && closed
      ensures memory == Wiped(old(memory), Released(old(cache), map[]))
    {
      if closed {
        WipedNone(memory);
        assert Released(cache, map[]) == {};
        return;
      }
      closed := true;
      RemoveAll();
      cache, bindings := map[], map[];
    }

    method RemoveAll()
      requires cacheBytes == Bytes(cache) && forall k :: k in cache ==> cache[k].image in memory
      modifies this`cache, this`cacheBytes, this`memory
      ensures cache == map[] && cacheBytes == Bytes(cache)
      ensures memory == Wiped(old(memory), Released(old(cache), map[]))
    {
      ghost var was, before := cache, memory;
      WipedNone(memory);
      assert Released(was, cache) == {};
      var keys := cache.Keys;
      while keys != {}
        invariant keys == cache.Keys && cacheBytes == Bytes(cache) && Part(cache, was)
        invariant memory == Wiped(before, Released(was, cache))
        decreases |keys|
      {
        var k :| k in keys;
        keys := keys - {k};
        Release(k, was, before);
      }
      assert cache == map[];
    }

    // ----- generations -----

    /** The binding used longest ago among the other streams. */
    method FindOldestOther(stream: string) returns (x: string)
      requires stream in bindings && |bindings| > 1
      ensures AB.IsOldestOther(bindings, stream, x)
    {
      OthersRemain(bindings, stream);
      var others := bindings.Keys - {stream};
      x :| x in others;
      others := others - {x};
      while others != {}
        invariant others <= bindings.Keys && x in bindings && x != stream
        invariant forall s :: s in bindings && s != stream && s !in others ==> bindings[x].lastUsed <= bindings[s].lastUsed
        decreases |others|
      {
        var s :| s in others;
        others := others - {s};
        if s != stream && bindings[s].lastUsed < bindings[x].lastUsed {
          x := s;
        }
      }
    }

    method BindGeneration(request: AB.Request) returns (e: Option<AB.Code>)
      requires Valid()
      modifies this`bindings, this`clock
      ensures Valid()
      ensures closed ==> e == Some(AB.CapabilityRequired) && bindings == old(bindings) && clock == old(clock)
      ensures !closed ==> e == AB.BindError(old(bindings), request) && AB.Bind(old(bindings), old(clock), request, bindings, clock)
    {
      if closed {
        return Some(AB.CapabilityRequired);
      }
      if request.stream in bindings {
        var existing := bindings[request.stream];
        if request.generation < existing.generation {
          return Some(AB.StaleJobGeneration);
        }
        if request.generation == existing.generation && request.appearance != existing.appearance {
          return Some(AB.RevisionPayloadConflict);
        }
      }
      e := None;
      BindNew(request);
    }

    method BindNew(request: AB.Request)
      requires Valid() && !closed && AB.BindError(bindings, request).None?
      modifies this`bindings, this`clock
      ensures Valid() && AB.Bind(old(bindings), old(clock), request, bindings, clock)
    {
      ghost var was, now := bindings, clock + 1;
      AB.InsertOk(bindings, clock, request);
      clock := clock + 1;
      bindings := bindings[request.stream := AB.Binding(request.generation, request.appearance, clock)];
      MakeRoom(request.stream);
      AB.BindOk(was, now - 1, request, bindings, clock);
    }

    method MakeRoom(stream: string)
      requires stream in bindings && |bindings| <= AB.MAX_BINDINGS + 1
      modifies this`bindings
      ensures AB.MadeRoom(old(bindings), stream, bindings)
    {
      while |bindings| > AB.MAX_BINDINGS
        invariant |bindings| > AB.MAX_BINDINGS ==> bindings == old(bindings)
        invariant |bindings| <= AB.MAX_BINDINGS ==> AB.MadeRoom(old(bindings), stream, bindings)
        decreases |bindings|
      {
        var x := FindOldestOther(stream);
        assert (bindings - {x}).Keys == bindings.Keys - {x};
        bindings := bindings - {x};
      }
    }

    // ----- prepare -----

    /** validateAndDecode: the pixels go to a new buffer. */
    method ValidateAndDecode(d: Identity, r: Response) returns (decoded: Result<nat>)
      requires Valid()
      modifies this`memory, this`next
      ensures Valid()
      ensures decoded.Err? ==> memory == old(memory) && Validate(codec, d, r) == Err(decoded.code)
      ensures decoded.Ok? ==>
                && decoded.value !in old(memory) && Validate(codec, d, r).Ok?
                && memory == old(memory)[decoded.value := Validate(codec, d, r).value]
    {
      var e := MetadataError(d, r);
      if e.Some? {
        return Err(e.value);
      }
      if codec.hash(r.body) != d.sha256 {
        return Err(AB.HashMismatch);
      }
      var animated := IsAnimated(r.body, d.mediaType);
      if !ContentMatches(r.body, d.mediaType) || animated {
        return Err(AB.FormatUnsupported);
      }
      var size := codec.size(r.body, d.mediaType);
      if size.None? {
        return Err(AB.DecodeFailed);
      }
      if size.value != Size(d.width, d.height) {
        return Err(AB.DimensionMismatch);
      }
      var picture := codec.decode(r.body, d.mediaType);
      if picture.None? {
        return Err(AB.DecodeFailed);
      }
      if picture.value.width != d.width || picture.value.height != d.height {
        return Err(AB.DimensionMismatch);
      }
      decoded := Ok(next);
      Allocate(picture.value.pixels);
    }

    method Allocate(pixels: seq<Byte>)
      requires Valid()
      modifies this`memory, this`next
      ensures Valid() && old(next) !in old(memory) && memory == old(memory)[old(next) := pixels]
    {
      memory, next := memory[next := pixels], next + 1;
      StillGenuine(codec, cache, old(memory), memory);
    }

    /** The first thing that goes wrong between the fetch and the store, if anything. */
    ghost function FetchError(d: Identity, fetch: Fetch): Option<AB.Code> {
      if fetch.Failed? then Some(fetch.code)
      else if fetch.late then Some(AB.Timeout)
      else
        var v := Validate(codec, d, fetch.response);
        if v.Err? then Some(v.code)
        else if fetch.lateDecoded then Some(AB.Timeout)
        else if |v.value| > maxCacheBytes then Some(AB.TooLarge)
        else None
    }

    /** Why a background cannot be had, if so: a conflict with what is cached, or for one that is not
        cached what goes wrong with the fetch. */
    ghost function BackgroundError(request: AB.Request, d: Identity, fetch: Fetch): Option<AB.Code>
      reads this
    {
      var key := KeyOf(request, d);
      if key in cache then (if cache[key].identity != d then Some(AB.RevisionPayloadConflict) else None)
      else FetchError(d, fetch)
    }

    ghost function PrepareError(stream: string, snapshot: Option<Snapshot>, fetch: Fetch): Option<AB.Code>
      reads this
    {
      if closed then Some(AB.CapabilityRequired)
      else if snapshot == None then None
      else if Trim(stream) == "" then Some(AB.RevisionPayloadConflict)
      else if snapshot.value.invalid.Some? then snapshot.value.invalid
      else
        var request := RequestOf(stream, snapshot.value);
        var background := snapshot.value.appearance.background;
        if AB.BindError(bindings, request).Some? then AB.BindError(bindings, request)
        else if background == None then None
        else if !canFetch then Some(AB.CapabilityRequired)
        else BackgroundError(request, background.value, fetch)
    }

    /** Prepare. On success the stream is bound to the generation, and the picture, if one was asked for,
        shows what the descriptor asked for. It fails exactly when one of its steps does, with the first
        one's code, and then nothing that is cached has changed. */
    method Prepare(stream: string, snapshot: Option<Snapshot>, fetch: Fetch) returns (r: Result<Option<nat>>)
      requires Valid()
      modifies this`cache, this`cacheBytes, this`clock, this`memory, this`next, this`bindings
      ensures Valid()
      ensures (if r.Err? then Some(r.code) else None) == old(PrepareError(stream, snapshot, fetch))
      ensures r.Err? ==> cache == old(cache) && forall k :: k in cache ==> memory[cache[k].image] == old(memory)[cache[k].image]
      ensures r.Ok? && snapshot.Some? ==> Bound(bindings, RequestOf(stream, snapshot.value))
      ensures r.Ok? && snapshot.Some? ==> (r.value.Some? <==> snapshot.value.appearance.background.Some?)
      ensures r.Ok? && snapshot == None ==> r.value == None
      ensures r.Ok? && r.value.Some? ==> Shows(snapshot.value.appearance.background.value, r.value.value)
      ensures r.Ok? && r.value.Some? ==>
                var d := snapshot.value.appearance.background.value; Keeps(old(cache), KeyOf(RequestOf(stream, snapshot.value), d), d, r.value.value)
      ensures r.Ok? ==> forall again: Fetch :: PrepareError(stream, snapshot, again) == None
    {
      if closed {
        return Err(AB.CapabilityRequired);
      }
      if snapshot.None? {
        return Ok(None);
      }
      if Trim(stream) == "" {
        return Err(AB.RevisionPayloadConflict);
      }
      if snapshot.value.invalid.Some? {
        return Err(snapshot.value.invalid.value);
      }
      var request := RequestOf(stream, snapshot.value);
      var e := BindGeneration(request);
      if e.Some? {
        return Err(e.value);
      }
      if snapshot.value.appearance.background.None? {
        return Ok(None);
      }
      if !canFetch {
        return Err(AB.CapabilityRequired);
      }
      r := Background(request, snapshot.value.appearance.background.value, fetch);
    }

    /** The picture is cached under the key: it was already and has only been stamped, or it is new and the rest
        is what its store leaves. */
    ghost predicate Keeps(was: Cache, key: Key, d: Identity, address: nat)
      reads this
    {
      && key in cache && cache[key].identity == d && cache[key].image == address && address in memory
      && cache == if key in was then Touched(was, key, clock)
                  else Stored(was, key, Entry(d, address, |memory[address]|, clock), maxEntries, maxCacheBytes)
    }

    /** The picture at an address shows what the descriptor asked for. */
    ghost predicate Shows(d: Identity, address: nat)
      reads this
    {
      address in memory && Depicts(codec, d, memory[address])
    }

    method Background(request: AB.Request, d: Identity, fetch: Fetch) returns (r: Result<Option<nat>>)
      requires Valid() && !closed
      modifies this`cache, this`cacheBytes, this`clock, this`memory, this`next
      ensures Valid()
      ensures (if r.Err? then Some(r.code) else None) == old(BackgroundError(request, d, fetch))
      ensures r.Err? ==> cache == old(cache) && forall k :: k in cache ==> memory[cache[k].image] == old(memory)[cache[k].image]
      ensures r.Ok? ==> r.value.Some? && Shows(d, r.value.value) && Keeps(old(cache), KeyOf(request, d), d, r.value.value)
    {
      var cached := Cached(KeyOf(request, d), d);
      if cached.Err? || cached.value.Some? {
        return cached;
      }
      r := Obtain(KeyOf(request, d), d, fetch);
    }

    /** What is not cached is fetched, decoded and stored. */
    method Obtain(key: Key, d: Identity, fetch: Fetch) returns (r: Result<Option<nat>>)
      requires Valid() && !closed && key !in cache
      modifies this`cache, this`cacheBytes, this`clock, this`memory, this`next
      ensures Valid()
      ensures (if r.Err? then Some(r.code) else None) == FetchError(d, fetch)
      ensures r.Err? ==> cache == old(cache) && forall k :: k in cache ==> memory[cache[k].image] == old(memory)[cache[k].image]
      ensures r.Ok? ==> r.value.Some? && Shows(d, r.value.value) && Keeps(old(cache), key, d, r.value.value)
    {
      if fetch.Failed? {
        return Err(fetch.code);
      }
      if fetch.late {
        return Err(AB.Timeout);
      }
      var decoded := ValidateAndDecode(d, fetch.response);
      if decoded.Err? {
        return Err(decoded.code);
      }
      r := Keep(key, d, decoded.value, fetch.lateDecoded);
    }

    method Keep(key: Key, d: Identity, decoded: nat, late: bool) returns (r: Result<Option<nat>>)
      requires Valid() && decoded in memory && Depicts(codec, d, memory[decoded]) && !Used(cache, decoded)
      modifies this`cache, this`cacheBytes, this`clock, this`memory
      ensures Valid()
      ensures r.Err? ==> cache == old(cache) && memory == old(memory)[decoded := Zeros(|old(memory)[decoded]|)]
      ensures !closed && key !in old(cache) ==>
                (if r.Err? then Some(r.code) else None) ==
                if late then Some(AB.Timeout) else if |old(memory)[decoded]| > maxCacheBytes then Some(AB.TooLarge) else None
      ensures r.Ok? ==> r.value.Some? && Shows(d, r.value.value) && Keeps(old(cache), key, d, r.value.value)
    {
      if late {
        ZeroUnused(decoded);
        return Err(AB.Timeout);
      }
      var stored := Store(key, d, decoded);
      if stored.Err? {
        ZeroUnused(decoded);
        return Err(stored.code);
      }
      r := Ok(Some(stored.value));
    }
  }

  /** A snapshot, with what validateSnapshot finds wrong with it, if anything. */
  datatype Snapshot = Snapshot(generation: nat, appearance: AB.Appearance, invalid: Option<AB.Code>)

  /** What fetching the asset leads to; the deadline may pass before or while it is decoded. */
  datatype Fetch = Failed(code: AB.Code) | Fetched(response: Response, late: bool, lateDecoded: bool)

  /** The stream is bound to the generation and the appearance of the request. */
  ghost predicate Bound(b: AB.Bindings, q: AB.Request) {
    q.stream in b && b[q.stream].generation == q.generation && b[q.stream].appearance == q.appearance
  }

  function KeyOf(request: AB.Request, d: Identity): Key {
    Key(request.stream, request.generation, d.asset, d.variant, d.revision)
  }

  function RequestOf(stream: string, s: Snapshot): AB.Request {
    AB.Request(Trim(stream), s.generation, s.appearance)
  }

  lemma OthersRemain(b: AB.Bindings, stream: string)
    requires stream in b && |b| > 1
    ensures b.Keys - {stream} != {}
  {
    assert b.Keys == (b.Keys - {stream}) + {stream};
  }

  lemma ReplacedWithout(c: Cache, k: Key)
    requires k in c
    ensures Replaced(c - {k}, k.stream) == Replaced(c, k.stream)
  {
  }

  lemma ReplacedAll(c: Cache, stream: string)
    requires forall k :: k in c ==> k.stream != stream
    ensures Replaced(c, stream) == c
  {
  }

  lemma TouchedGenuine(codec: Codec, c: Cache, m: Memory, key: Key, now: nat)
    requires Genuine(codec, c, m) && key in c
    ensures Genuine(codec, Touched(c, key, now), m)
  {
    var t := Touched(c, key, now);
    forall j, k | j in t && k in t && j != k ensures Separate(t[j], t[k]) {
      assert Separate(c[j], c[k]);
    }
  }

  lemma EvictStep(c: Cache, maxEntries: nat, maxBytes: nat)
    requires Distinct(c) && !Fits(c, maxEntries, maxBytes)
    ensures c != map[] && Evicted(c, maxEntries, maxBytes) == Evicted(c - {Oldest(c)}, maxEntries, maxBytes) && Distinct(c - {Oldest(c)})
  {
  }

  ghost predicate Used(c: Cache, address: nat) {
    exists k :: k in c && c[k].image == address
  }

  lemma StillGenuine(codec: Codec, c: Cache, m: Memory, t: Memory)
    requires Genuine(codec, c, m) && forall k :: k in c ==> c[k].image in t && t[c[k].image] == m[c[k].image]
    ensures Genuine(codec, c, t)
  {
  }

  lemma ReleasedBoth(was: Cache, kept: Cache, n: Cache, final: Cache, key: Key)
    requires key !in was && key in final && Part(kept, was) && n.Keys == kept.Keys + {key}
    requires (forall k :: k in kept ==> n[k] == kept[k]) && Part(final, n)
    ensures Released(was, kept) + Released(n, final) == Released(was, final)
  {
  }

  /** What a call has decoded but not stored yet stays its own while other calls store theirs, touch
      entries or close the runtime: the buffer is not zeroed, and no entry comes to use it. */
  lemma PrivateBufferStays(c: Cache, m: Memory, a: nat, key: Key, e: Entry, maxEntries: nat, maxBytes: nat)
    requires a in m && !Used(c, a) && e.image != a && e.image in m
    ensures var s := Stored(c, key, e, maxEntries, maxBytes);
      !Used(s, a) && Wiped(m, Released(c, s))[a] == m[a]
    ensures key in c ==> !Used(Touched(c, key, e.lastUsed), a) && m[e.image := Zeros(|m[e.image]|)][a] == m[a]
    ensures !Used(map[], a) && Wiped(m, Released(c, map[]))[a] == m[a]
  {
    EvictedWithin(Replaced(c, key.stream)[key := e], maxEntries, maxBytes);
    if key in c {
      assert forall k :: k in Touched(c, key, e.lastUsed) ==> Touched(c, key, e.lastUsed)[k].image == c[k].image;
    }
  }

  lemma TwoRemovals(was: Cache, key: Key, e: Entry, final: Cache, m: Memory)
    requires key !in was && key in final && Part(final, Replaced(was, key.stream)[key := e])
    ensures var kept := Replaced(was, key.stream);
      Wiped(Wiped(m, Released(was, kept)), Released(kept[key := e], final)) == Wiped(m, Released(was, final))
  {
    var kept := Replaced(was, key.stream);
    ReleasedBoth(was, kept, kept[key := e], final, key);
    WipedTwice(m, Released(was, kept), Released(kept[key := e], final));
  }

  lemma InsertGenuine(codec: Codec, c: Cache, m: Memory, key: Key, e: Entry, maxEntries: nat, maxBytes: nat)
    requires Genuine(codec, c, m) && key !in c && e.image in m && |m[e.image]| == e.bytes && Depicts(codec, e.identity, m[e.image])
    requires !Used(c, e.image)
    ensures var s := Stored(c, key, e, maxEntries, maxBytes);
      Genuine(codec, s, Wiped(m, Released(c, s))) && Wiped(m, Released(c, s))[e.image] == m[e.image]
  {
    var s := Stored(c, key, e, maxEntries, maxBytes);
    var t := Wiped(m, Released(c, s));
    EvictedWithin(Replaced(c, key.stream)[key := e], maxEntries, maxBytes);
    forall k | k in s ensures s[k].image !in Released(c, s) {
      forall j | j in c && j !in s ensures c[j].image != s[k].image {
        assert k != key ==> Separate(c[j], c[k]);
      }
    }
    forall j, k | j in s && k in s && j != k ensures Separate(s[j], s[k]) {
      assert j != key && k != key ==> Separate(c[j], c[k]);
    }
  }

  lemma OldestIs(c: Cache, k: Key)
    requires Distinct(c) && IsOldest(c, k)
    ensures Oldest(c) == k
  {
    assert Oldest(c) != k ==> Differ(c[Oldest(c)], c[k]);
  }

  function Clamped(n: int): int {
    if n < 0 then 0 else n
  }
}
