// The bounded queue between the caption audio endpoint and the goroutine that feeds the provider.
module CaptionQueue {
  import opened Text

  const MAX_BATCHES: nat := 128
  const MAX_PACKETS: nat := 1024
  const MAX_BYTES: nat := 8388608
  const PACKET_OVERHEAD: nat := 128
  const MAX_USER_ID: nat := 128

  /** The user ID is the bytes of a string. */
  datatype Packet = Packet(ssrc: nat, userID: seq<bv8>, jobGeneration: nat, connectionGeneration: nat, sequence: nat, opus: seq<bv8>)

  datatype Batch = Batch(stream: string, generation: nat, connectionGeneration: nat, packets: seq<Packet>, bytes: int)

  datatype Invalid = Empty | PayloadInvalid | GenerationRequired | GenerationMismatch | ConnectionGenerationRequired | QueueFull

  datatype Validation = Accepted(bytes: nat) | Refused(error: Invalid)

  // ----- validation of an incoming batch -----

  function Retained(p: Packet): nat { |p.opus| + |p.userID| + PACKET_OVERHEAD }

  function RetainedBytes(packets: seq<Packet>): nat {
    if packets == [] then 0 else RetainedBytes(packets[..|packets| - 1]) + Retained(packets[|packets| - 1])
  }

  predicate PacketOk(p: Packet, generation: nat, connectionGeneration: nat) {
    p.opus != [] && |p.userID| <= MAX_USER_ID && p.jobGeneration != 0 && p.jobGeneration == generation &&
    p.connectionGeneration != 0 && p.connectionGeneration == connectionGeneration
  }

  /** What is wrong with one packet, in the order the checks are made. */
  function PacketError(p: Packet, generation: nat, connectionGeneration: nat): (e: Option<Invalid>)
    ensures e.None? <==> PacketOk(p, generation, connectionGeneration)
    ensures e.None? ==> |p.userID| <= 128
    ensures e == Some(PayloadInvalid) <==>
            p.opus == [] || |p.userID| > 128 || (p.jobGeneration == generation != 0 && p.connectionGeneration != 0 && p.connectionGeneration != connectionGeneration)
  {
    if p.opus == [] || |p.userID| > MAX_USER_ID then Some(PayloadInvalid)
    else if p.jobGeneration == 0 then Some(GenerationRequired)
    else if p.jobGeneration != generation then Some(GenerationMismatch)
    else if p.connectionGeneration == 0 then Some(ConnectionGenerationRequired)
    else if p.connectionGeneration != connectionGeneration then Some(PayloadInvalid)
    else None
  }

  /** Packet i is the first to be refused, for the reason e. */
  ghost predicate FirstRefused(packets: seq<Packet>, generation: nat, connectionGeneration: nat, i: nat, e: Invalid) {
    && i < |packets| && RetainedBytes(packets[..i]) <= MAX_BYTES
    && (forall j :: 0 <= j < i ==> PacketOk(packets[j], generation, connectionGeneration))
    && if PacketOk(packets[i], generation, connectionGeneration) then e == QueueFull && RetainedBytes(packets[..i + 1]) > MAX_BYTES
       else PacketError(packets[i], generation, connectionGeneration) == Some(e)
  }

  /** What the payloads and the user IDs take. */
  ghost function Payload(packets: seq<Packet>): nat {
    if packets == [] then 0 else |packets[0].opus| + |packets[0].userID| + Payload(packets[1..])
  }

  /** A batch retains its payloads, its user IDs and 128 bytes a packet. */
  lemma {:induction false} RetainedIs(packets: seq<Packet>)
    ensures RetainedBytes(packets) == Payload(packets) + 128 * |packets|
  {
    if packets != [] {
      var front, last := packets[..|packets| - 1], packets[|packets| - 1];
      RetainedIs(front);
      assert packets == front + [last];
      PayloadAppend(front, last);
    }
  }

  lemma {:induction false} PayloadAppend(packets: seq<Packet>, p: Packet)
    ensures Payload(packets + [p]) == Payload(packets) + |p.opus| + |p.userID|
  {
    if packets != [] {
      assert (packets + [p])[1..] == packets[1..] + [p];
      PayloadAppend(packets[1..], p);
    } else {
      assert [p][1..] == [];
    }
  }

  lemma {:induction false} RetainedGrows(packets: seq<Packet>, i: nat)
    requires i <= |packets|
    ensures RetainedBytes(packets[..i]) <= RetainedBytes(packets)
  {
    if i < |packets| {
      var front := packets[..|packets| - 1];
      assert front[..i] == packets[..i];
      RetainedGrows(front, i);
    } else {
      assert packets[..i] == packets;
    }
  }

  /** A batch is accepted exactly when it is not empty, every packet is in order and of the one
      generation pair, and the whole fits the byte budget; the bytes returned are the whole. */
  method Validate(packets: seq<Packet>, generation: nat, connectionGeneration: nat) returns (r: Validation)
    ensures r.Accepted? <==> packets != [] && RetainedBytes(packets) <= 8 * 1024 * 1024 &&
                             forall i :: 0 <= i < |packets| ==> PacketOk(packets[i], generation, connectionGeneration)
    ensures r.Accepted? ==> r.bytes == RetainedBytes(packets)
    ensures r.Refused? && packets != [] ==> exists i :: FirstRefused(packets, generation, connectionGeneration, i, r.error)
  {
    if packets == [] {
      return Refused(Empty);
    }
    var retained := 0;
    for i := 0 to |packets|
      invariant retained == RetainedBytes(packets[..i]) <= MAX_BYTES
      invariant forall j :: 0 <= j < i ==> PacketOk(packets[j], generation, connectionGeneration)
    {
      var p := packets[i];
      if p.opus == [] || |p.userID| > MAX_USER_ID {
        assert FirstRefused(packets, generation, connectionGeneration, i, PayloadInvalid);
        return Refused(PayloadInvalid);
      }
      if p.jobGeneration == 0 {
        assert FirstRefused(packets, generation, connectionGeneration, i, GenerationRequired);
        return Refused(GenerationRequired);
      }
      if p.jobGeneration != generation {
        assert FirstRefused(packets, generation, connectionGeneration, i, GenerationMismatch);
        return Refused(GenerationMismatch);
      }
      if p.connectionGeneration == 0 {
        assert FirstRefused(packets, generation, connectionGeneration, i, ConnectionGenerationRequired);
        return Refused(ConnectionGenerationRequired);
      }
      if p.connectionGeneration != connectionGeneration {
        assert FirstRefused(packets, generation, connectionGeneration, i, PayloadInvalid);
        return Refused(PayloadInvalid);
      }
      retained := retained + |p.opus| + |p.userID| + PACKET_OVERHEAD;
      assert packets[..i + 1][..i] == packets[..i];
      if retained > MAX_BYTES {
        RetainedGrows(packets, i + 1);
        assert FirstRefused(packets, generation, connectionGeneration, i, QueueFull);
        return Refused(QueueFull);
      }
    }
    assert packets[..|packets|] == packets;
    r := Accepted(retained);
  }

  // ----- metering -----

  function PacketCount(batches: seq<Batch>): nat {
    if batches == [] then 0 else |batches[0].packets| + PacketCount(batches[1..])
  }

  function ByteCount(batches: seq<Batch>): int {
    if batches == [] then 0 else batches[0].bytes + ByteCount(batches[1..])
  }

  lemma {:induction false} CountsAppend(batches: seq<Batch>, b: Batch)
    ensures PacketCount(batches + [b]) == PacketCount(batches) + |b.packets|
    ensures ByteCount(batches + [b]) == ByteCount(batches) + b.bytes
  {
    if batches != [] {
      assert (batches + [b])[1..] == batches[1..] + [b];
      CountsAppend(batches[1..], b);
    } else {
      assert [b][1..] == [];
    }
  }

  lemma SuffixAppend(batches: seq<Batch>, b: Batch, k: nat)
    requires k <= |batches|
    ensures (batches + [b])[k..] == batches[k..] + [b]
    ensures PacketCount((batches + [b])[k..]) == PacketCount(batches[k..]) + |b.packets|
    ensures ByteCount((batches + [b])[k..]) == ByteCount(batches[k..]) + b.bytes
  {
    CountsAppend(batches[k..], b);
    assert (batches + [b])[k..] == batches[k..] + [b];
  }

  function ClampedSub(a: int, b: int): int { if a - b < 0 then 0 else a - b }

  predicate BatchOk(b: Batch) {
    0 < |b.packets| <= MAX_PACKETS && 0 <= b.bytes <= MAX_BYTES
  }

  /** Every batch ever accepted, in order; how many of them were received and metered out. */
  datatype Log = Log(accepted: seq<Batch>, received: nat, marked: nat, cancelled: bool)

  const EMPTY: Log := Log([], 0, 0, false)

  /** What the counters say: everything that was not metered out yet. */
  function Metered(l: Log): nat
    requires l.marked <= |l.accepted|
  {
    PacketCount(l.accepted[l.marked..])
  }

  ghost predicate LogOk(l: Log) {
    && l.marked <= l.received <= |l.accepted| && l.received - l.marked <= 1 && |l.accepted| - l.received <= MAX_BATCHES
    && (forall i :: 0 <= i < |l.accepted| ==> BatchOk(l.accepted[i]))
    && PacketCount(l.accepted[l.marked..]) <= MAX_PACKETS && ByteCount(l.accepted[l.marked..]) <= MAX_BYTES
  }

  function EnqueueSpec(l: Log, b: Batch): (Log, bool)
    requires l.marked <= l.received <= |l.accepted|
  {
    if BatchOk(b) && !l.cancelled && PacketCount(l.accepted[l.marked..]) + |b.packets| <= MAX_PACKETS &&
       ByteCount(l.accepted[l.marked..]) + b.bytes <= MAX_BYTES && |l.accepted| - l.received < MAX_BATCHES
    then (l.(accepted := l.accepted + [b]), true) else (l, false)
  }

  /** A batch is taken exactly when, with it, at most 1024 packets and 8 MiB are metered and at most 128
      batches wait, as long as the ingress is not cancelled; one that is taken is the last. */
  lemma TakenIff(l: Log, b: Batch)
    requires LogOk(l)
    ensures var (t, ok) := EnqueueSpec(l, b);
      && (ok <==> b.packets != [] && b.bytes >= 0 && !l.cancelled
                  && PacketCount(l.accepted[l.marked..] + [b]) <= 1024 && ByteCount(l.accepted[l.marked..] + [b]) <= 8 * 1024 * 1024
                  && |l.accepted[l.received..] + [b]| <= 128)
      && t == if ok then l.(accepted := l.accepted + [b]) else l
  {
    CountsAppend(l.accepted[l.marked..], b);
    NonNegative(l.accepted[l.marked..]);
  }

  lemma EnqueueOk(l: Log, b: Batch)
    requires LogOk(l)
    ensures LogOk(EnqueueSpec(l, b).0)
  {
    SuffixAppend(l.accepted, b, l.marked);
  }

  lemma MarkOk(l: Log)
    requires LogOk(l) && l.marked < l.received
    ensures LogOk(l.(marked := l.marked + 1))
    ensures var b := l.accepted[l.marked];
      && PacketCount(l.accepted[l.marked..]) - |b.packets| == PacketCount(l.accepted[l.marked + 1..]) >= 0
      && ByteCount(l.accepted[l.marked..]) - b.bytes == ByteCount(l.accepted[l.marked + 1..]) >= 0
  {
    assert l.accepted[l.marked..][1..] == l.accepted[l.marked + 1..];
    NonNegative(l.accepted[l.marked + 1..]);
  }

  class Ingress {
    var cancelled: bool
    var channel: seq<Batch>
    var queuedPackets: int
    var queuedBytes: int
    ghost var accepted: seq<Batch>
    ghost var received: nat
    ghost var marked: nat

    ghost function View(): Log reads this {
      Log(accepted, received, marked, cancelled)
    }

    /** The counters meter the channel and the batch in hand, and order is first in, first out. */
    ghost predicate Valid() reads this {
      && LogOk(View()) && channel == accepted[received..]
      && queuedPackets == PacketCount(accepted[marked..]) && queuedBytes == ByteCount(accepted[marked..])
    }

    constructor ()
      ensures Valid() && View() == EMPTY
    {
      cancelled, channel, queuedPackets, queuedBytes := false, [], 0, 0;
      accepted, received, marked := [], 0, 0;
    }

    method Enqueue(b: Batch) returns (ok: bool)
      requires Valid()
      modifies this
      ensures Valid() && (View(), ok) == EnqueueSpec(old(View()), b)
      ensures channel == if ok then old(channel) + [b] else old(channel)
    {
      if |b.packets| == 0 || |b.packets| > MAX_PACKETS || b.bytes < 0 || b.bytes > MAX_BYTES {
        return false;
      }
      if cancelled || queuedPackets + |b.packets| > MAX_PACKETS || queuedBytes + b.bytes > MAX_BYTES {
        return false;
      }
      if |channel| >= MAX_BATCHES {
        return false;
      }
      Append(b);
      ok := true;
    }

    /** A batch for which there is room enters the channel and the counters. */
    method Append(b: Batch)
      requires Valid() && EnqueueSpec(View(), b).1
      modifies this
      ensures Valid() && View() == EnqueueSpec(old(View()), b).0 && channel == old(channel) + [b]
    {
      EnqueueOk(View(), b);
      SuffixAppend(accepted, b, marked);
      SuffixAppend(accepted, b, received);
      channel := channel + [b];
      accepted := accepted + [b];
      queuedPackets := queuedPackets + |b.packets|;
      queuedBytes := queuedBytes + b.bytes;
    }

    /** The consumer takes the oldest batch off the channel; it is still metered. */
    method Receive() returns (b: Batch)
      requires Valid() && received == marked && channel != []
      modifies this
      ensures Valid() && View() == old(View()).(received := old(received) + 1)
      ensures b == old(channel)[0] == accepted[old(received)] && channel == old(channel)[1..] && queuedPackets == old(queuedPackets)
    {
      b := channel[0];
      channel := channel[1..];
      received := received + 1;
    }

    /** The clamps at zero are never taken: the counters go down by exactly what the batch holds. */
    method MarkDequeued(b: Batch)
      requires Valid() && marked < received && b == accepted[marked]
      modifies this
      ensures Valid() && View() == old(View()).(marked := old(marked) + 1)
      ensures queuedPackets == old(queuedPackets) - |b.packets| && queuedBytes == old(queuedBytes) - b.bytes
    {
      MarkOk(View());
      queuedPackets := ClampedSub(queuedPackets, |b.packets|);
      queuedBytes := ClampedSub(queuedBytes, b.bytes);
      marked := marked + 1;
    }

    method Snapshot() returns (batches: nat, packets: int, bytes: int)
      requires Valid()
      ensures batches == |accepted| - received && packets == Metered(View()) && bytes == ByteCount(accepted[marked..])
    {
      batches, packets, bytes := |channel|, queuedPackets, queuedBytes;
    }

    method Cancel()
      requires Valid()
      modifies this`cancelled
      ensures Valid() && View() == old(View()).(cancelled := true)
    {
      cancelled := true;
    }
  }

  lemma {:induction false} NonNegative(batches: seq<Batch>)
    requires forall i :: 0 <= i < |batches| ==> BatchOk(batches[i])
    ensures PacketCount(batches) >= 0 && ByteCount(batches) >= 0
  {
    if batches != [] {
      NonNegative(batches[1..]);
    }
  }
}
