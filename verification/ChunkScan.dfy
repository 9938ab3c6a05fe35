// Whether the bytes of a PNG or WebP image announce an animation, found by walking their chunks.
module ChunkScan {
  type Byte = x: int | 0 <= x < 256

  const PNG: string := "image/png"
  const JPEG: string := "image/jpeg"
  const WEBP: string := "image/webp"

  /** Four bytes: the kind of a chunk, its length, or a checksum. */
  datatype Quad = Quad(a: Byte, b: Byte, c: Byte, d: Byte)

  const ACTL: Quad := Quad(97, 99, 84, 76)
  const ANIM: Quad := Quad(65, 78, 73, 77)
  const ANMF: Quad := Quad(65, 78, 77, 70)

  function QuadAt(body: seq<Byte>, n: nat): Quad
    requires n + 4 <= |body|
  {
    Quad(body[n], body[n + 1], body[n + 2], body[n + 3])
  }

  function BigEndian(q: Quad): nat {
    ((q.a * 256 + q.b) * 256 + q.c) * 256 + q.d
  }

  function Reversed(q: Quad): Quad {
    Quad(q.d, q.c, q.b, q.a)
  }

  function LittleEndian(q: Quad): nat {
    BigEndian(Reversed(q))
  }

  // ----- the two chunk layouts -----

  /** Png: length, kind, data, checksum. Riff: kind, length, data, and a pad byte after odd data. */
  datatype Layout = Png | Riff

  function HeaderSize(l: Layout): nat {
    if l.Png? then 8 else 12
  }

  /** Bytes of a chunk besides its data and padding. */
  function Fixed(l: Layout): nat {
    if l.Png? then 12 else 8
  }

  function Span(l: Layout, length: nat): nat {
    if l.Png? then 12 + length else 8 + length + length % 2
  }

  predicate Marks(l: Layout, kind: Quad) {
    if l.Png? then kind == ACTL else kind == ANIM || kind == ANMF
  }

  function LengthAt(l: Layout, body: seq<Byte>, n: nat): nat
    requires n + Fixed(l) <= |body|
  {
    if l.Png? then BigEndian(QuadAt(body, n)) else LittleEndian(QuadAt(body, n + 4))
  }

  function KindAt(l: Layout, body: seq<Byte>, n: nat): Quad
    requires n + Fixed(l) <= |body|
  {
    if l.Png? then QuadAt(body, n + 4) else QuadAt(body, n)
  }

  /** A whole chunk starts at the offset. */
  predicate ChunkAt(l: Layout, body: seq<Byte>, n: nat) {
    n + Fixed(l) <= |body| && n + Span(l, LengthAt(l, body, n)) <= |body|
  }

  /** A marking chunk is met on the walk from the offset over whole chunks. */
  predicate Scan(l: Layout, body: seq<Byte>, n: nat)
    decreases |body| - n
  {
    ChunkAt(l, body, n) && (Marks(l, KindAt(l, body, n)) || Scan(l, body, n + Span(l, LengthAt(l, body, n))))
  }

  predicate Animated(body: seq<Byte>, mediaType: string) {
    if mediaType == PNG then Scan(Png, body, HeaderSize(Png))
    else mediaType == WEBP && Scan(Riff, body, HeaderSize(Riff))
  }

  // ----- the walk itself -----

  /** isAnimated */
  method IsAnimated(body: seq<Byte>, mediaType: string) returns (r: bool)
    ensures r == Animated(body, mediaType)
  {
    if mediaType == PNG {
      r := PngAnimated(body);
    } else if mediaType == WEBP {
      r := WebpAnimated(body);
    } else {
      r := false;
    }
  }

  method PngAnimated(body: seq<Byte>) returns (r: bool)
    ensures r == Scan(Png, body, HeaderSize(Png))
  {
    if |body| < 8 {
      return false;
    }
    var offset := 8;
    while offset + 12 <= |body|
      invariant Scan(Png, body, 8) == Scan(Png, body, offset)
      decreases |body| - offset
    {
      var length := BigEndian(QuadAt(body, offset));
      if length > |body| - offset - 12 {
        return false;
      }
      if QuadAt(body, offset + 4) == ACTL {
        return true;
      }
      offset := offset + 12 + length;
    }
    return false;
  }

  method WebpAnimated(body: seq<Byte>) returns (r: bool)
    ensures r == Scan(Riff, body, HeaderSize(Riff))
  {
    if |body| < 12 {
      return false;
    }
    var offset := 12;
    while offset + 8 <= |body|
      invariant Scan(Riff, body, 12) == Scan(Riff, body, offset)
      decreases |body| - offset
    {
      var length := LittleEndian(QuadAt(body, offset + 4));
      var padded := length + length % 2;
      if padded > |body| - offset - 8 {
        return false;
      }
      var kind := QuadAt(body, offset);
      if kind == ANIM || kind == ANMF {
        return true;
      }
      offset := offset + 8 + length + length % 2;
    }
    return false;
  }

  // ----- on arbitrary bytes -----

  /** The offsets of consecutive whole chunks, the first of them at start. */
  ghost predicate Walk(l: Layout, body: seq<Byte>, start: nat, offsets: seq<nat>) {
    && offsets != [] && offsets[0] == start
    && (forall i :: 0 <= i < |offsets| ==> ChunkAt(l, body, offsets[i]))
    && (forall i :: 0 < i < |offsets| ==> offsets[i] == offsets[i - 1] + Span(l, LengthAt(l, body, offsets[i - 1])))
  }

  ghost predicate EndsMarked(l: Layout, body: seq<Byte>, offsets: seq<nat>) {
    offsets != [] && ChunkAt(l, body, offsets[|offsets| - 1]) && Marks(l, KindAt(l, body, offsets[|offsets| - 1]))
  }

  lemma Prepended(l: Layout, body: seq<Byte>, start: nat, rest: seq<nat>)
    ensures ChunkAt(l, body, start) && Walk(l, body, start + Span(l, LengthAt(l, body, start)), rest) && EndsMarked(l, body, rest) ==>
              Walk(l, body, start, [start] + rest) && EndsMarked(l, body, [start] + rest)
  {
  }

  lemma {:induction false} ScanFindsWalk(l: Layout, body: seq<Byte>, start: nat) returns (offsets: seq<nat>)
    ensures Scan(l, body, start) ==> Walk(l, body, start, offsets) && EndsMarked(l, body, offsets)
    decreases |body| - start
  {
    offsets := [start];
    if Scan(l, body, start) && !Marks(l, KindAt(l, body, start)) {
      var rest := ScanFindsWalk(l, body, start + Span(l, LengthAt(l, body, start)));
      Prepended(l, body, start, rest);
      offsets := [start] + rest;
    }
  }

  lemma {:induction false} WalkIsScanned(l: Layout, body: seq<Byte>, start: nat, offsets: seq<nat>)
    ensures Walk(l, body, start, offsets) && EndsMarked(l, body, offsets) ==> Scan(l, body, start)
    decreases |offsets|
  {
    if |offsets| > 1 && Walk(l, body, start, offsets) && EndsMarked(l, body, offsets) {
      assert offsets[1..][|offsets| - 2] == offsets[|offsets| - 1];
      WalkIsScanned(l, body, offsets[1], offsets[1..]);
    }
  }

  /** On any bytes at all, the scan reports an animation if and only if an unbroken row of whole chunks
      leads from the header to a marking one. */
  lemma ScanIff(l: Layout, body: seq<Byte>)
    ensures Scan(l, body, HeaderSize(l)) <==> exists offsets :: Walk(l, body, HeaderSize(l), offsets) && EndsMarked(l, body, offsets)
  {
    var found := ScanFindsWalk(l, body, HeaderSize(l));
    forall offsets | Walk(l, body, HeaderSize(l), offsets) && EndsMarked(l, body, offsets) ensures Scan(l, body, HeaderSize(l)) {
      WalkIsScanned(l, body, HeaderSize(l), offsets);
    }
  }

  // ----- on serialised chunks -----

  datatype Chunk = Chunk(kind: Quad, data: seq<Byte>, checksum: Quad)

  /** Chunks whose length can be written in 32 bits. */
  ghost predicate Writable(chunks: seq<Chunk>) {
    forall k :: 0 <= k < |chunks| ==> |chunks[k].data| < 0x1_0000_0000
  }

  lemma Spelled(n: nat) returns (q: Quad)
    requires n < 0x1_0000_0000
    ensures BigEndian(q) == n
  {
    var n1 := n / 256;
    var n2 := n1 / 256;
    q := Quad(n2 / 256, n2 % 256, n1 % 256, n % 256);
  }

  /** The bytes of a length, most significant first. */
  ghost function Big(n: nat): (q: Quad)
    requires n < 0x1_0000_0000
    ensures BigEndian(q) == n
  {
    assert exists q :: BigEndian(q) == n by { var q := Spelled(n); }
    var q :| BigEndian(q) == n;
    q
  }

  function QuadBytes(q: Quad): seq<Byte> {
    [q.a, q.b, q.c, q.d]
  }

  /** What a chunk starts with. */
  ghost function Front(l: Layout, c: Chunk): seq<Byte>
    requires |c.data| < 0x1_0000_0000
  {
    if l.Png? then QuadBytes(Big(|c.data|)) + QuadBytes(c.kind) else QuadBytes(c.kind) + QuadBytes(Reversed(Big(|c.data|)))
  }

  function Tail(l: Layout, c: Chunk): (b: seq<Byte>)
    ensures 8 + |b| == Span(l, |c.data|)
  {
    if l.Png? then c.data + QuadBytes(c.checksum) else c.data + if |c.data| % 2 == 1 then [0] else []
  }

  ghost function Written(l: Layout, c: Chunk): (b: seq<Byte>)
    requires |c.data| < 0x1_0000_0000
    ensures |b| == Span(l, |c.data|)
  {
    Front(l, c) + Tail(l, c)
  }

  /** The chunks from the i-th on, one after another. */
  ghost function AllWritten(l: Layout, chunks: seq<Chunk>, i: nat): seq<Byte>
    requires i <= |chunks| && Writable(chunks)
    decreases |chunks| - i
  {
    if i == |chunks| then [] else Written(l, chunks[i]) + AllWritten(l, chunks, i + 1)
  }

  lemma QuadsAt(before: seq<Byte>, x: Quad, y: Quad, after: seq<Byte>)
    ensures var body := before + (QuadBytes(x) + QuadBytes(y) + after);
      QuadAt(body, |before|) == x && QuadAt(body, |before| + 4) == y
  {
  }

  lemma ReadBack(l: Layout, before: seq<Byte>, c: Chunk, after: seq<Byte>)
    requires |c.data| < 0x1_0000_0000
    ensures var body := before + (Written(l, c) + after);
      ChunkAt(l, body, |before|) && LengthAt(l, body, |before|) == |c.data| && KindAt(l, body, |before|) == c.kind
  {
    assert Written(l, c) + after == Front(l, c) + (Tail(l, c) + after);
    if l.Png? {
      QuadsAt(before, Big(|c.data|), c.kind, Tail(l, c) + after);
    } else {
      QuadsAt(before, c.kind, Reversed(Big(|c.data|)), Tail(l, c) + after);
    }
  }

  lemma ScanOver(l: Layout, body: seq<Byte>, before: seq<Byte>, c: Chunk, after: seq<Byte>)
    requires |c.data| < 0x1_0000_0000 && body == before + (Written(l, c) + after)
    ensures Scan(l, body, |before|) <==> Marks(l, c.kind) || Scan(l, body, |before + Written(l, c)|)
    ensures body == (before + Written(l, c)) + after
  {
    ReadBack(l, before, c, after);
  }

  predicate AnyMarks(l: Layout, chunks: seq<Chunk>, i: nat)
    requires i <= |chunks|
    decreases |chunks| - i
  {
    i < |chunks| && (Marks(l, chunks[i].kind) || AnyMarks(l, chunks, i + 1))
  }

  lemma {:induction false} AnyMarksIff(l: Layout, chunks: seq<Chunk>, i: nat)
    requires i <= |chunks|
    ensures AnyMarks(l, chunks, i) <==> exists j :: i <= j < |chunks| && Marks(l, chunks[j].kind)
    decreases |chunks| - i
  {
    if i < |chunks| {
      AnyMarksIff(l, chunks, i + 1);
    }
  }

  lemma {:induction false} ScanWritten(l: Layout, body: seq<Byte>, before: seq<Byte>, chunks: seq<Chunk>, i: nat)
    requires i <= |chunks| && Writable(chunks) && body == before + AllWritten(l, chunks, i)
    ensures Scan(l, body, |before|) <==> AnyMarks(l, chunks, i)
    decreases |chunks| - i
  {
    if i < |chunks| {
      ScanOver(l, body, before, chunks[i], AllWritten(l, chunks, i + 1));
      ScanWritten(l, body, before + Written(l, chunks[i]), chunks, i + 1);
    }
  }

  /** The bytes of a length are those of its base 256 numeral. */
  lemma BigIsNumeral(n: nat)
    requires n < 0x1_0000_0000
    ensures Big(n) == Quad(n / 16777216, n / 65536 % 256, n / 256 % 256, n % 256)
  {
    var q := Big(n);
    assert n == q.a * 16777216 + q.b * 65536 + q.c * 256 + q.d;
  }

  /** A PNG chunk starts with its length, most significant byte first, and its kind; a RIFF chunk starts with its
      kind and its length, least significant byte first. */
  lemma FrontBytes(l: Layout, c: Chunk)
    requires |c.data| < 0x1_0000_0000
    ensures var n, k := |c.data|, c.kind;
      Front(l, c) ==
      if l.Png? then [n / 16777216, n / 65536 % 256, n / 256 % 256, n % 256, k.a, k.b, k.c, k.d]
      else [k.a, k.b, k.c, k.d, n % 256, n / 256 % 256, n / 65536 % 256, n / 16777216]
  {
    BigIsNumeral(|c.data|);
  }

  /** The letters of a chunk kind. */
  ghost predicate Spells(q: Quad, s: string) {
    |s| == 4 && s[0] as int == q.a && s[1] as int == q.b && s[2] as int == q.c && s[3] as int == q.d
  }

  ghost predicate Announces(l: Layout, kind: Quad) {
    if l.Png? then Spells(kind, "acTL") else Spells(kind, "ANIM") || Spells(kind, "ANMF")
  }

  lemma MarksIff(l: Layout, kind: Quad)
    ensures Marks(l, kind) <==> Announces(l, kind)
  {
    assert "acTL"[0] as int == 97 && "acTL"[1] as int == 99 && "acTL"[2] as int == 84 && "acTL"[3] as int == 76;
    assert "ANIM"[0] as int == 65 && "ANIM"[1] as int == 78 && "ANIM"[2] as int == 73 && "ANIM"[3] as int == 77;
    assert "ANMF"[0] as int == 65 && "ANMF"[1] as int == 78 && "ANMF"[2] as int == 77 && "ANMF"[3] as int == 70;
  }

  function MediaTypeOf(l: Layout): string {
    if l.Png? then PNG else WEBP
  }

  /** A serialised list of chunks is reported as animated if and only if it holds a marking chunk: acTL
      after a PNG signature, ANIM or ANMF after a RIFF header. */
  lemma AnimatedIffChunkPresent(l: Layout, header: seq<Byte>, chunks: seq<Chunk>)
    requires Writable(chunks) && |header| == HeaderSize(l)
    ensures Animated(header + AllWritten(l, chunks, 0), MediaTypeOf(l)) <==> exists j :: 0 <= j < |chunks| && Announces(l, chunks[j].kind)
  {
    forall j | 0 <= j < |chunks| ensures Marks(l, chunks[j].kind) <==> Announces(l, chunks[j].kind) {
      MarksIff(l, chunks[j].kind);
    }
    AnyMarksIff(l, chunks, 0);
    ScanWritten(l, header + AllWritten(l, chunks, 0), header, chunks, 0);
  }
}
