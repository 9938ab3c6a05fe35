// The receipts of recently stopped streams: a bounded list in memory, and the file it is loaded from
// when the process starts again.
module StopReceipts {
  import opened Text
  import opened Sequences

  const MAX_RECEIPTS: nat := 64
  // 24 hours in nanoseconds; times are counted in nanoseconds from the zero time.
  const TTL: int := 86400000000000
  const VERSION: int := 1

  datatype Receipt = Receipt(stream: string, stoppedAt: int)

  // ----- the list -----

  predicate Live(r: Receipt, now: int) {
    r.stoppedAt >= now - TTL
  }

  function Streams(list: seq<Receipt>): set<string> {
    if list == [] then {} else Streams(list[..|list| - 1]) + {list[|list| - 1].stream}
  }

  predicate Distinct(list: seq<Receipt>) {
    list == [] || (Distinct(list[..|list| - 1]) && list[|list| - 1].stream !in Streams(list[..|list| - 1]))
  }

  predicate WellFormed(r: Receipt) {
    r.stream != "" && Trim(r.stream) == r.stream && r.stoppedAt != 0
  }

  predicate AllWellFormed(list: seq<Receipt>) {
    forall i :: 0 <= i < |list| ==> WellFormed(list[i])
  }

  predicate ListOk(list: seq<Receipt>) {
    Distinct(list) && |list| <= MAX_RECEIPTS && AllWellFormed(list)
  }

  /** The list without a stream, and without what has expired. */
  function Without(list: seq<Receipt>, stream: string, now: int): (r: seq<Receipt>)
    ensures |r| <= |list|
  {
    if list == [] then []
    else
      var front, last := list[..|list| - 1], list[|list| - 1];
      if last.stream != stream && Live(last, now) then Without(front, stream, now) + [last] else Without(front, stream, now)
  }

  function Alive(list: seq<Receipt>, now: int): (r: seq<Receipt>)
    ensures |r| <= |list|
  {
    if list == [] then []
    else if Live(list[|list| - 1], now) then Alive(list[..|list| - 1], now) + [list[|list| - 1]]
    else Alive(list[..|list| - 1], now)
  }

  function Remembered(list: seq<Receipt>, stream: string, at: int, now: int): seq<Receipt> {
    TakeLast(MAX_RECEIPTS, Without(list, stream, now) + [Receipt(stream, at)])
  }

  /** The stream has a receipt that has not expired. */
  ghost predicate WasStopped(list: seq<Receipt>, stream: string, now: int) {
    exists r :: r in list && r.stream == stream && Live(r, now)
  }

  /** A stream counts as stopped if and only if it has a receipt not older than 24 hours. */
  lemma WasStoppedIff(list: seq<Receipt>, stream: string, now: int)
    ensures WasStopped(list, stream, now) <==>
            exists i :: 0 <= i < |list| && list[i].stream == stream && now - list[i].stoppedAt <= 24 * 60 * 60 * 1000000000
  {
    if WasStopped(list, stream, now) {
      var r :| r in list && r.stream == stream && Live(r, now);
    }
    forall i | 0 <= i < |list| && list[i].stream == stream && now - list[i].stoppedAt <= 24 * 60 * 60 * 1000000000 ensures WasStopped(list, stream, now) {
      assert list[i] in list && Live(list[i], now);
    }
  }

  lemma {:induction false} InStreams(list: seq<Receipt>, r: Receipt)
    requires r in list
    ensures r.stream in Streams(list)
  {
    var front, last := list[..|list| - 1], list[|list| - 1];
    assert list == front + [last];
    if r in front {
      InStreams(front, r);
    }
  }

  lemma {:induction false} OnlyOne(list: seq<Receipt>, q: Receipt, r: Receipt)
    requires Distinct(list) && q in list && r in list && q.stream == r.stream
    ensures q == r
  {
    var front, last := list[..|list| - 1], list[|list| - 1];
    assert list == front + [last];
    if q in front {
      InStreams(front, q);
    }
    if r in front {
      InStreams(front, r);
    }
    if q in front && r in front {
      OnlyOne(front, q, r);
    }
  }

  lemma {:induction false} WithoutMember(list: seq<Receipt>, stream: string, now: int, r: Receipt)
    ensures r in Without(list, stream, now) <==> r in list && r.stream != stream && Live(r, now)
  {
    if list != [] {
      WithoutMember(list[..|list| - 1], stream, now, r);
      assert list == list[..|list| - 1] + [list[|list| - 1]];
    }
  }

  lemma {:induction false} WithoutStreams(list: seq<Receipt>, stream: string, now: int)
    ensures Streams(Without(list, stream, now)) <= Streams(list) && stream !in Streams(Without(list, stream, now))
    ensures Distinct(list) ==> Distinct(Without(list, stream, now))
  {
    if list != [] {
      var front, last := list[..|list| - 1], list[|list| - 1];
      WithoutStreams(front, stream, now);
      assert (Without(front, stream, now) + [last])[..|Without(front, stream, now)|] == Without(front, stream, now);
    }
  }

  lemma {:induction false} TailStreams(list: seq<Receipt>, n: nat)
    requires n <= |list|
    ensures Streams(list[n..]) <= Streams(list) && (Distinct(list) ==> Distinct(list[n..]))
  {
    if n < |list| {
      var front, last := list[..|list| - 1], list[|list| - 1];
      TailStreams(front, n);
      assert list[n..][..|list| - n - 1] == front[n..] && list[n..][|list| - n - 1] == last;
    }
  }

  lemma AppendStreams(list: seq<Receipt>, r: Receipt)
    ensures Streams(list + [r]) == Streams(list) + {r.stream}
    ensures Distinct(list + [r]) <==> Distinct(list) && r.stream !in Streams(list)
  {
    assert (list + [r])[..|list|] == list;
  }

  lemma WithoutOk(list: seq<Receipt>, stream: string, now: int)
    requires ListOk(list)
    ensures ListOk(Without(list, stream, now)) && !WasStopped(Without(list, stream, now), stream, now)
  {
    var w := Without(list, stream, now);
    WithoutStreams(list, stream, now);
    forall i | 0 <= i < |w| ensures WellFormed(w[i]) {
      WithoutMember(list, stream, now, w[i]);
    }
    forall r | r in w ensures r.stream != stream {
      WithoutMember(list, stream, now, r);
    }
  }

  lemma AppendOk(list: seq<Receipt>, r: Receipt)
    requires Distinct(list) && AllWellFormed(list) && WellFormed(r) && r.stream !in Streams(list)
    ensures Distinct(list + [r]) && AllWellFormed(list + [r])
  {
    AppendStreams(list, r);
  }

  lemma TakeLastOk(list: seq<Receipt>)
    requires Distinct(list) && AllWellFormed(list)
    ensures ListOk(TakeLast(MAX_RECEIPTS, list))
  {
    if |list| > MAX_RECEIPTS {
      TailStreams(list, |list| - MAX_RECEIPTS);
    }
  }

  /** Remembering keeps the list in order, and the new receipt is its last. */
  lemma RememberedOk(list: seq<Receipt>, stream: string, at: int, now: int)
    requires ListOk(list) && WellFormed(Receipt(stream, at))
    ensures var t := Remembered(list, stream, at, now); ListOk(t) && t != [] && t[|t| - 1] == Receipt(stream, at)
  {
    var w, r := Without(list, stream, now), Receipt(stream, at);
    WithoutOk(list, stream, now);
    WithoutStreams(list, stream, now);
    AppendOk(w, r);
    TakeLastOk(w + [r]);
  }

  // ----- how far a receipt is from being pushed out -----

  /** The streams whose receipts stand after that of s. */
  function After(list: seq<Receipt>, s: string): set<string> {
    if list == [] || list[|list| - 1].stream == s then {} else After(list[..|list| - 1], s) + {list[|list| - 1].stream}
  }

  lemma {:induction false} AfterIn(list: seq<Receipt>, s: string)
    ensures After(list, s) <= Streams(list)
  {
    if list != [] {
      AfterIn(list[..|list| - 1], s);
    }
  }

  /** A receipt stands as far from the end as there are streams after it. */
  lemma {:induction false} Position(list: seq<Receipt>, r: Receipt)
    requires Distinct(list) && r in list
    ensures |After(list, r.stream)| < |list| && list[|list| - 1 - |After(list, r.stream)|] == r
  {
    var front, last := list[..|list| - 1], list[|list| - 1];
    assert list == front + [last];
    if last.stream == r.stream {
      OnlyOne(list, last, r);
    } else {
      Position(front, r);
      AfterIn(front, r.stream);
    }
  }

  lemma {:induction false} AfterWithout(list: seq<Receipt>, stream: string, now: int, r: Receipt)
    requires r in list && r.stream != stream && Live(r, now) && Distinct(list)
    ensures After(Without(list, stream, now), r.stream) <= After(list, r.stream)
  {
    var front, last := list[..|list| - 1], list[|list| - 1];
    assert list == front + [last];
    if last.stream == r.stream {
      OnlyOne(list, last, r);
    } else {
      AfterWithout(front, stream, now, r);
    }
  }

  lemma {:induction false} AfterTail(list: seq<Receipt>, n: nat, s: string)
    requires n <= |list|
    ensures After(list[n..], s) <= After(list, s)
  {
    if n < |list| {
      AfterTail(list[..|list| - 1], n, s);
      assert list[n..][..|list| - n - 1] == list[..|list| - 1][n..];
    }
  }

  lemma TakeLastKeeps(list: seq<Receipt>, r: Receipt)
    requires Distinct(list) && r in list && |After(list, r.stream)| < MAX_RECEIPTS
    ensures r in TakeLast(MAX_RECEIPTS, list) && After(TakeLast(MAX_RECEIPTS, list), r.stream) <= After(list, r.stream)
  {
    Position(list, r);
    if |list| > MAX_RECEIPTS {
      var n := |list| - MAX_RECEIPTS;
      AfterTail(list, n, r.stream);
      assert list[n..][|list| - 1 - |After(list, r.stream)| - n] == r;
    }
  }

  lemma AppendAfter(list: seq<Receipt>, r: Receipt, s: string)
    ensures After(list + [r], s) <= After(list, s) + {r.stream}
  {
    assert (list + [r])[..|list|] == list;
  }

  /** A stop puts at most its own stream after a receipt, and pushes out only one that already has 64
      others after it, counting the new one. */
  lemma RememberedKeeps(list: seq<Receipt>, stream: string, at: int, now: int, r: Receipt)
    requires Distinct(list) && r in list && r.stream != stream && Live(r, now)
    requires |After(list, r.stream) + {stream}| < MAX_RECEIPTS
    ensures r in Remembered(list, stream, at, now)
    ensures After(Remembered(list, stream, at, now), r.stream) <= After(list, r.stream) + {stream}
  {
    var w, q := Without(list, stream, now), Receipt(stream, at);
    WithoutMember(list, stream, now, r);
    WithoutStreams(list, stream, now);
    AppendStreams(w, q);
    AfterWithout(list, stream, now, r);
    AppendAfter(w, q, r.stream);
    SubsetSize(After(w + [q], r.stream), After(list, r.stream) + {stream});
    TakeLastKeeps(w + [q], r);
  }

  // ----- loading -----

  datatype LoadError = InvalidStream | MissingTime | DuplicateStream | UnsupportedVersion | Undecodable

  datatype Loaded = Ok(receipts: seq<Receipt>) | Err(error: LoadError)

  /** The file: absent, not one object of the known shape, or decoded. */
  datatype File = Missing | Garbled | Content(version: int, receipts: seq<Receipt>)

  function Accept(list: seq<Receipt>, now: int): Loaded {
    if list == [] then Ok([])
    else
      var front, last := list[..|list| - 1], list[|list| - 1];
      var before := Accept(front, now);
      if before.Err? then before
      else if last.stream == "" || Trim(last.stream) != last.stream then Err(InvalidStream)
      else if last.stoppedAt == 0 then Err(MissingTime)
      else if last.stream in Streams(front) then Err(DuplicateStream)
      else if Live(last, now) then Ok(before.receipts + [last]) else before
  }

  function LoadSpec(file: File, now: int): Loaded {
    match file
    case Missing => Ok([])
    case Garbled => Err(Undecodable)
    case Content(version, receipts) =>
      if version != VERSION then Err(UnsupportedVersion)
      else
        var a := Accept(receipts, now);
        if a.Err? then a else Ok(TakeLast(MAX_RECEIPTS, a.receipts))
  }

  /** A list loads if and only if it is well-formed and without duplicates; what is left is what is alive. */
  lemma {:induction false} AcceptIff(list: seq<Receipt>, now: int)
    ensures Accept(list, now).Ok? <==> Distinct(list) && AllWellFormed(list)
    ensures Accept(list, now).Ok? ==> Accept(list, now).receipts == Alive(list, now)
  {
    if list != [] {
      var front, last := list[..|list| - 1], list[|list| - 1];
      AcceptIff(front, now);
      assert AllWellFormed(list) <==> AllWellFormed(front) && WellFormed(last) by {
        assert list == front + [last];
      }
    }
  }

  lemma {:induction false} AliveOk(list: seq<Receipt>, now: int)
    ensures Streams(Alive(list, now)) <= Streams(list)
    ensures Distinct(list) ==> Distinct(Alive(list, now))
    ensures forall r :: r in Alive(list, now) <==> r in list && Live(r, now)
  {
    if list != [] {
      var front, last := list[..|list| - 1], list[|list| - 1];
      AliveOk(front, now);
      assert list == front + [last];
      AppendStreams(Alive(front, now), last);
    }
  }

  lemma {:induction false} AliveLater(list: seq<Receipt>, now: int, later: int)
    requires now <= later
    ensures Alive(Alive(list, now), later) == Alive(list, later)
  {
    if list != [] {
      AliveLater(list[..|list| - 1], now, later);
      var kept := Alive(list[..|list| - 1], now);
      assert (kept + [list[|list| - 1]])[..|kept|] == kept;
    }
  }

  lemma {:induction false} AfterAlive(list: seq<Receipt>, now: int, r: Receipt)
    requires r in list && Live(r, now) && Distinct(list)
    ensures After(Alive(list, now), r.stream) <= After(list, r.stream)
  {
    var front, last := list[..|list| - 1], list[|list| - 1];
    assert list == front + [last];
    if last.stream == r.stream {
      OnlyOne(list, last, r);
    } else {
      AfterAlive(front, now, r);
    }
  }

  /** Loading what was written returns the list that was in memory, minus what has expired since. */
  lemma LoadReturnsWritten(list: seq<Receipt>, now: int)
    requires ListOk(list)
    ensures LoadSpec(Content(VERSION, list), now) == Ok(Alive(list, now))
  {
    AcceptIff(list, now);
  }

  /** Whatever loads is in order, however the file came about. */
  lemma LoadedOk(file: File, now: int)
    requires LoadSpec(file, now).Ok?
    ensures ListOk(LoadSpec(file, now).receipts)
  {
    if file.Content? {
      var list, a := file.receipts, Alive(file.receipts, now);
      AcceptIff(list, now);
      AliveOk(list, now);
      forall i | 0 <= i < |a| ensures WellFormed(a[i]) {
        assert a[i] in a;
        var k :| 0 <= k < |list| && list[k] == a[i];
      }
      if |a| > MAX_RECEIPTS {
        TailStreams(a, |a| - MAX_RECEIPTS);
      }
    }
  }

  // ----- the receipts of a manager -----

  /** A write fails before the rename, after it, or not at all. */
  datatype Write = Fails | Unsynced | Succeeds

  class Book {
    const durable: bool
    var stoppedOrder: seq<Receipt>
    var disk: File

    constructor (durable: bool, disk: File)
      ensures this.durable == durable && stoppedOrder == [] && this.disk == disk
    {
      this.durable, stoppedOrder, this.disk := durable, [], disk;
    }

    method Load(now: int) returns (e: Option<LoadError>)
      modifies this`stoppedOrder
      ensures durable ==> match LoadSpec(disk, now)
              case Ok(list) => e == None && stoppedOrder == list
              case Err(error) => e == Some(error) && stoppedOrder == old(stoppedOrder)
      ensures !durable ==> e == None && stoppedOrder == []
    {
      if !durable || disk.Missing? {
        stoppedOrder := [];
        return None;
      }
      if disk.Garbled? {
        return Some(Undecodable);
      }
      if disk.version != VERSION {
        return Some(UnsupportedVersion);
      }
      var all := disk.receipts;
      var seen: set<string>, receipts: seq<Receipt> := {}, [];
      for i := 0 to |all|
        invariant seen == Streams(all[..i]) && Accept(all[..i], now) == Ok(receipts)
      {
        var r := all[i];
        assert all[..i + 1][..i] == all[..i] && all[..i + 1][i] == r;
        if r.stream == "" || Trim(r.stream) != r.stream {
          AcceptStops(all, i + 1, now);
          return Some(InvalidStream);
        }
        if r.stoppedAt == 0 {
          AcceptStops(all, i + 1, now);
          return Some(MissingTime);
        }
        if r.stream in seen {
          AcceptStops(all, i + 1, now);
          return Some(DuplicateStream);
        }
        seen := seen + {r.stream};
        if Live(r, now) {
          receipts := receipts + [r];
        }
      }
      assert all[..|all|] == all;
      if |receipts| > MAX_RECEIPTS {
        receipts := receipts[|receipts| - MAX_RECEIPTS..];
      }
      stoppedOrder := receipts;
      return None;
    }

    method Persist(list: seq<Receipt>, w: Write) returns (ok: bool)
      modifies this`disk
      ensures ok == (!durable || w == Succeeds)
      ensures disk == if durable && w != Fails then Content(VERSION, list) else old(disk)
    {
      if !durable {
        return true;
      }
      if w != Fails {
        disk := Content(VERSION, list);
      }
      ok := w == Succeeds;
    }

    method FindStopped(stream: string, now: int) returns (r: bool)
      requires Distinct(stoppedOrder)
      ensures r == WasStopped(stoppedOrder, stream, now)
    {
      for i := 0 to |stoppedOrder|
        invariant forall j :: 0 <= j < i ==> stoppedOrder[j].stream != stream
      {
        if stoppedOrder[i].stream == stream {
          r := Live(stoppedOrder[i], now);
          forall q | q in stoppedOrder && q.stream == stream ensures q == stoppedOrder[i] {
            OnlyOne(stoppedOrder, q, stoppedOrder[i]);
          }
          return;
        }
      }
      return false;
    }

    method WithoutStopped(stream: string, now: int) returns (receipts: seq<Receipt>)
      ensures receipts == Without(stoppedOrder, stream, now)
    {
      receipts := [];
      for i := 0 to |stoppedOrder|
        invariant receipts == Without(stoppedOrder[..i], stream, now)
      {
        assert stoppedOrder[..i + 1][..i] == stoppedOrder[..i];
        if stoppedOrder[i].stream != stream && Live(stoppedOrder[i], now) {
          receipts := receipts + [stoppedOrder[i]];
        }
      }
      assert stoppedOrder[..|stoppedOrder|] == stoppedOrder;
    }

    /** rememberStoppedTargetLocked: without a successful write the list stays as it was. */
    method Remember(stream: string, now: int, w: Write) returns (ok: bool)
      modifies this
      ensures ok == (stream == "" || !durable || w == Succeeds)
      ensures stoppedOrder == if ok && stream != "" then Remembered(old(stoppedOrder), stream, now, now) else old(stoppedOrder)
      ensures ok && stream != "" && durable ==> disk == Content(VERSION, stoppedOrder)
    {
      if stream == "" {
        return true;
      }
      var receipts := WithoutStopped(stream, now);
      receipts := receipts + [Receipt(stream, now)];
      if |receipts| > MAX_RECEIPTS {
        receipts := receipts[|receipts| - MAX_RECEIPTS..];
      }
      ok := Persist(receipts, w);
      if ok {
        stoppedOrder := receipts;
      }
    }

    method RememberInMemory(stream: string, at: int, now: int)
      modifies this`stoppedOrder
      ensures stoppedOrder == if Trim(stream) != "" then Remembered(old(stoppedOrder), Trim(stream), at, now) else old(stoppedOrder)
    {
      if Trim(stream) == "" {
        return;
      }
      var receipts := WithoutStopped(Trim(stream), now);
      receipts := receipts + [Receipt(Trim(stream), at)];
      if |receipts| > MAX_RECEIPTS {
        receipts := receipts[|receipts| - MAX_RECEIPTS..];
      }
      stoppedOrder := receipts;
    }

    /** forgetStoppedTargetLocked: nothing is written when there is nothing to forget. */
    method Forget(stream: string, now: int, w: Write) returns (ok: bool)
      requires Distinct(stoppedOrder)
      modifies this
      ensures ok == (!WasStopped(old(stoppedOrder), stream, now) || !durable || w == Succeeds)
      ensures stoppedOrder == if ok && WasStopped(old(stoppedOrder), stream, now) then Without(old(stoppedOrder), stream, now) else old(stoppedOrder)
    {
      var stopped := FindStopped(stream, now);
      if !stopped {
        return true;
      }
      var receipts := WithoutStopped(stream, now);
      ok := Persist(receipts, w);
      if ok {
        stoppedOrder := receipts;
      }
    }
  }

  lemma {:induction false} AcceptStops(list: seq<Receipt>, i: nat, now: int)
    requires i <= |list| && Accept(list[..i], now).Err?
    ensures Accept(list, now) == Accept(list[..i], now)
    decreases |list|
  {
    if i < |list| {
      var front := list[..|list| - 1];
      assert front[..i] == list[..i];
      AcceptStops(front, i, now);
    } else {
      assert list[..i] == list;
    }
  }
}
