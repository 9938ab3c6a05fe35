// The provider session's connection table: one connection per speaker, all of the newest
// connection generation, with a cap. Each method is one section under Session.mu.
module Connections {
  import opened Text
  import opened Sequences

  /** A resolved user, or the SSRC of a packet whose user is not known yet. */
  datatype Key = Key(userID: string, generation: nat, unresolvedSSRC: nat)

  datatype Packet = Packet(ssrc: nat, userID: string, generation: nat)

  datatype Error = ErrClosed | ErrStale | ErrUnavailable | ErrCanceled | ErrProvider(code: nat)

  /** The connection made over a socket; the socket number is its identity. */
  datatype Conn = Conn(socket: nat, key: Key, ssrc: nat)

  datatype Table = Table(closed: bool, latest: nat, conns: map<Key, Conn>, dialing: map<Key, nat>, terminal: Option<Error>, max: nat)

  /** What one pass of the retry loop in connection decides. */
  datatype Outcome = Failed(error: Error) | Evicted(conns: set<Conn>, dials: set<nat>) | Found(conn: Conn) | Await(call: nat) | Dial(call: nat)

  function KeyFor(p: Packet): Key {
    if p.userID != "" then Key(p.userID, p.generation, 0) else Key("", p.generation, p.ssrc)
  }

  // ----- specification -----

  function OldConns(t: Table, generation: nat): set<Conn> {
    set k | k in t.conns && k.generation < generation :: t.conns[k]
  }

  function OldDials(t: Table, generation: nat): set<nat> {
    set k | k in t.dialing && k.generation < generation :: t.dialing[k]
  }

  function Advance(t: Table, generation: nat): Table {
    t.(latest := generation,
       conns := map k | k in t.conns && k.generation >= generation :: t.conns[k],
       dialing := map k | k in t.dialing && k.generation >= generation :: t.dialing[k])
  }

  /** Another entry for the packet's user, or for its SSRC. */
  predicate Rival(t: Table, p: Packet, k: Key) {
    k in t.conns && k != KeyFor(p) && (p.userID != "" || p.generation != 0) &&
    ((p.userID != "" && k.userID == p.userID) || (p.ssrc != 0 && t.conns[k].ssrc == p.ssrc))
  }

  function Rivals(t: Table, p: Packet): set<Conn> {
    set k | k in t.conns && Rival(t, p, k) :: t.conns[k]
  }

  function WithoutRivals(t: Table, p: Packet): Table {
    t.(conns := map k | k in t.conns && !Rival(t, p, k) :: t.conns[k])
  }

  function Lookup(t: Table, p: Packet, call: nat): (Table, Outcome) {
    var key := KeyFor(p);
    if t.terminal.Some? then (t, Failed(t.terminal.value))
    else if key in t.conns then (t, Found(t.conns[key]))
    else if Rivals(t, p) != {} then (WithoutRivals(t, p), Evicted(Rivals(t, p), {}))
    else if key in t.dialing then (t, Await(t.dialing[key]))
    else if |t.conns| + |t.dialing| >= t.max then (t, Failed(ErrUnavailable))
    else (t.(dialing := t.dialing[key := call]), Dial(call))
  }

  function AttemptSpec(t: Table, p: Packet, call: nat): (Table, Outcome) {
    if t.closed then (t, Failed(ErrClosed))
    else if t.latest > 0 && p.generation < t.latest then (t, Failed(ErrStale))
    else if p.generation > t.latest then
      var conns, dials := OldConns(t, p.generation), OldDials(t, p.generation);
      if conns != {} || dials != {} then (Advance(t, p.generation), Evicted(conns, dials))
      else Lookup(t.(latest := p.generation), p, call)
    else Lookup(t, p, call)
  }

  /** A dial may fail and hand over a socket all the same. */
  datatype DialResult = Dialled(socket: nat) | DialFailed(error: Error, retryable: bool, leftover: Option<nat>)

  /** completeDial's locked section: installs the socket unless the session is closed or moved on. */
  function CompleteSpec(t: Table, key: Key, ssrc: nat, r: DialResult): (Table, Option<Conn>) {
    var u := t.(dialing := t.dialing - {key});
    if r.DialFailed? then (if r.error.ErrProvider? && !r.retryable then u.(terminal := Some(r.error)) else u, None)
    else if t.closed || (t.latest > 0 && key.generation < t.latest) then (u, None)
    else (u.(conns := u.conns[key := Conn(r.socket, key, ssrc)]), Some(Conn(r.socket, key, ssrc)))
  }

  function DiscardSpec(t: Table, c: Conn): Table {
    if c.key in t.conns && t.conns[c.key] == c then t.(conns := t.conns - {c.key}) else t
  }

  function CloseSpec(t: Table): Table { t.(closed := true, conns := map[]) }

  // ----- what the table keeps -----

  predicate WellFormedKey(k: Key) {
    k.userID != "" ==> k.unresolvedSSRC == 0
  }

  ghost predicate TableOk(t: Table) {
    && (forall k :: k in t.conns ==> k.generation == t.latest && t.conns[k].key == k && WellFormedKey(k))
    && (forall k :: k in t.dialing ==> k.generation == t.latest && WellFormedKey(k))
    && t.conns.Keys !! t.dialing.Keys
    && |t.conns| + |t.dialing| <= t.max
    && (t.closed ==> t.conns == map[])
  }

  lemma AdvanceOk(t: Table, generation: nat)
    requires TableOk(t) && generation > t.latest
    ensures Advance(t, generation).conns == map[] && Advance(t, generation).dialing == map[] && TableOk(Advance(t, generation))
  {
  }

  lemma NothingOld(t: Table, generation: nat)
    requires TableOk(t) && generation > t.latest
    ensures OldConns(t, generation) == {} ==> t.conns == map[]
    ensures OldDials(t, generation) == {} ==> t.dialing == map[]
  {
    assert forall k :: k in t.conns ==> t.conns[k] in OldConns(t, generation);
    assert forall k :: k in t.dialing ==> t.dialing[k] in OldDials(t, generation);
  }

  lemma FewerConns(t: Table, conns: map<Key, Conn>)
    requires TableOk(t) && (forall k :: k in conns ==> k in t.conns && conns[k] == t.conns[k])
    ensures TableOk(t.(conns := conns))
  {
    assert conns.Keys <= t.conns.Keys;
    SubsetSize(conns.Keys, t.conns.Keys);
  }

  lemma LookupOk(t: Table, p: Packet, call: nat)
    requires TableOk(t) && !t.closed && p.generation == t.latest
    ensures TableOk(Lookup(t, p, call).0)
  {
    FewerConns(t, WithoutRivals(t, p).conns);
  }

  /** Every pass keeps the table in order: entries only of the latest generation, no key both live
      and dialling, and never more than the cap. */
  lemma AttemptOk(t: Table, p: Packet, call: nat)
    requires TableOk(t)
    ensures TableOk(AttemptSpec(t, p, call).0)
  {
    if !t.closed && p.generation >= t.latest {
      if p.generation > t.latest {
        AdvanceOk(t, p.generation);
        if OldConns(t, p.generation) == {} && OldDials(t, p.generation) == {} {
          NothingOld(t, p.generation);
          LookupOk(t.(latest := p.generation), p, call);
        }
      } else {
        LookupOk(t, p, call);
      }
    }
  }

  lemma DiscardOk(t: Table, c: Conn)
    requires TableOk(t)
    ensures TableOk(DiscardSpec(t, c))
  {
    FewerConns(t, DiscardSpec(t, c).conns);
  }

  lemma UnlistedOk(t: Table, key: Key, ssrc: nat, r: DialResult)
    requires TableOk(t) && key !in t.dialing && key.generation < t.latest
    ensures CompleteSpec(t, key, ssrc, r).0 == t.(terminal := CompleteSpec(t, key, ssrc, r).0.terminal)
    ensures CompleteSpec(t, key, ssrc, r).1 == None
  {
    assert t.dialing - {key} == t.dialing;
  }

  lemma InstallOk(t: Table, key: Key, c: Conn)
    requires TableOk(t) && key in t.dialing && c.key == key && !t.closed
    ensures TableOk(t.(dialing := t.dialing - {key}, conns := t.conns[key := c]))
  {
    assert (t.dialing - {key}).Keys == t.dialing.Keys - {key};
    assert |t.dialing - {key}| == |t.dialing| - 1;
    assert |t.conns[key := c]| == |t.conns| + 1;
  }

  lemma DropDialOk(t: Table, key: Key)
    requires TableOk(t)
    ensures TableOk(t.(dialing := t.dialing - {key}))
  {
    SubsetSize((t.dialing - {key}).Keys, t.dialing.Keys);
  }

  /** A dial that is still listed under its key moves to the live table; one that is not listed any
      more was superseded, so nothing of another dial is removed and nothing is installed. */
  lemma CompleteOk(t: Table, key: Key, ssrc: nat, r: DialResult)
    requires TableOk(t) && (key in t.dialing || key.generation < t.latest)
    ensures var (u, installed) := CompleteSpec(t, key, ssrc, r);
      && TableOk(u)
      && (key !in t.dialing ==> u.dialing == t.dialing && installed == None)
      && (installed.Some? <==> r.Dialled? && !t.closed && key in t.dialing)
  {
    DropDialOk(t, key);
    if key !in t.dialing {
      UnlistedOk(t, key, ssrc, r);
    } else if !t.closed && r.Dialled? {
      InstallOk(t, key, Conn(r.socket, key, ssrc));
    }
  }

  /** A resolved user has at most one live connection. */
  lemma OneConnectionPerUser(t: Table, j: Key, k: Key)
    requires TableOk(t) && j in t.conns && k in t.conns && j.userID != "" && j.userID == k.userID
    ensures j == k && t.conns[j] == t.conns[k]
  {
  }

  /** A packet gets a connection only if it is the current one of its own speaker and generation. */
  lemma FoundIsCurrent(t: Table, p: Packet, call: nat, c: Conn)
    requires TableOk(t) && AttemptSpec(t, p, call).1 == Found(c)
    ensures c.key == KeyFor(p) && p.generation == AttemptSpec(t, p, call).0.latest && !t.closed
    ensures KeyFor(p) in AttemptSpec(t, p, call).0.conns && AttemptSpec(t, p, call).0.conns[KeyFor(p)] == c
  {
  }

  class Session {
    var closed: bool
    var latest: nat
    var conns: map<Key, Conn>
    var dialing: map<Key, nat>
    var terminal: Option<Error>
    const max: nat
    var nextCall: nat

    ghost function View(): Table reads this {
      Table(closed, latest, conns, dialing, terminal, max)
    }

    ghost predicate Valid() reads this { TableOk(View()) }

    constructor (max: nat)
      ensures Valid() && View() == Table(false, 0, map[], map[], None, max)
    {
      this.max := max;
      closed, latest, conns, dialing, terminal, nextCall := false, 0, map[], map[], None, 0;
    }

    method DropOldDials(generation: nat) returns (stale: set<nat>)
      modifies this`dialing
      ensures stale == OldDials(old(View()), generation)
      ensures dialing == Advance(old(View()), generation).dialing
    {
      stale := {};
      var todo := dialing.Keys;
      while todo != {}
        invariant todo <= old(dialing).Keys
        invariant forall k :: k in dialing <==> k in old(dialing) && (k in todo || k.generation >= generation)
        invariant forall k :: k in dialing ==> dialing[k] == old(dialing)[k]
        invariant stale == set k | k in old(dialing) && k !in todo && k.generation < generation :: old(dialing)[k]
        decreases todo
      {
        var k :| k in todo;
        todo := todo - {k};
        if k.generation < generation {
          stale := stale + {dialing[k]};
          dialing := dialing - {k};
        }
      }
    }

    method DropOldConns(generation: nat) returns (stale: set<Conn>)
      modifies this`conns
      ensures stale == OldConns(old(View()), generation)
      ensures conns == Advance(old(View()), generation).conns
    {
      stale := {};
      var todo := conns.Keys;
      while todo != {}
        invariant todo <= old(conns).Keys
        invariant forall k :: k in conns <==> k in old(conns) && (k in todo || k.generation >= generation)
        invariant forall k :: k in conns ==> conns[k] == old(conns)[k]
        invariant stale == set k | k in old(conns) && k !in todo && k.generation < generation :: old(conns)[k]
        decreases todo
      {
        var k :| k in todo;
        todo := todo - {k};
        if k.generation < generation {
          stale := stale + {conns[k]};
          conns := conns - {k};
        }
      }
    }

    method DropRivals(p: Packet) returns (stale: set<Conn>)
      modifies this`conns
      ensures stale == Rivals(old(View()), p)
      ensures View() == WithoutRivals(old(View()), p)
    {
      stale := {};
      if p.userID != "" || p.generation != 0 {
        var todo := conns.Keys;
        while todo != {}
          invariant todo <= old(conns).Keys
          invariant forall k :: k in conns <==> k in old(conns) && (k in todo || !Rival(old(View()), p, k))
          invariant forall k :: k in conns ==> conns[k] == old(conns)[k]
          invariant stale == set k | k in old(conns) && k !in todo && Rival(old(View()), p, k) :: old(conns)[k]
          decreases todo
        {
          var k :| k in todo;
          todo := todo - {k};
          if k != KeyFor(p) {
            var sameUser := p.userID != "" && k.userID == p.userID;
            var sameSSRC := p.ssrc != 0 && conns[k].ssrc == p.ssrc;
            if sameUser || sameSSRC {
              stale := stale + {conns[k]};
              conns := conns - {k};
            }
          }
        }
      }
    }

    /** Moves the table to a newer generation, which clears it. */
    method MoveTo(generation: nat) returns (stale: set<Conn>, staleDials: set<nat>)
      requires Valid() && generation > latest
      modifies this`latest, this`conns, this`dialing
      ensures stale == OldConns(old(View()), generation) && staleDials == OldDials(old(View()), generation)
      ensures View() == Advance(old(View()), generation)
      ensures stale == {} && staleDials == {} ==> View() == old(View()).(latest := generation)
    {
      NothingOld(View(), generation);
      AdvanceOk(View(), generation);
      staleDials := DropOldDials(generation);
      stale := DropOldConns(generation);
      latest := generation;
    }

    /** One pass of the loop in connection, up to the unlock. */
    method TryConnection(p: Packet) returns (out: Outcome)
      requires Valid()
      modifies this
      ensures Valid() && (View(), out) == AttemptSpec(old(View()), p, old(nextCall))
      ensures nextCall == old(nextCall) + if out.Dial? then 1 else 0
    {
      AttemptOk(View(), p, nextCall);
      if closed {
        return Failed(ErrClosed);
      }
      if latest > 0 && p.generation < latest {
        return Failed(ErrStale);
      }
      if p.generation > latest {
        var stale, staleDials := MoveTo(p.generation);
        if stale != {} || staleDials != {} {
          return Evicted(stale, staleDials);
        }
      }
      out := FindOrDial(p);
    }

    method FindOrDial(p: Packet) returns (out: Outcome)
      modifies this
      ensures (View(), out) == Lookup(old(View()), p, old(nextCall))
      ensures nextCall == old(nextCall) + if out.Dial? then 1 else 0
    {
      var key := KeyFor(p);
      if terminal.Some? {
        return Failed(terminal.value);
      }
      if key in conns {
        return Found(conns[key]);
      }
      var stale := DropRivals(p);
      if stale != {} {
        return Evicted(stale, {});
      }
      NoRivals(old(View()), p);
      if key in dialing {
        return Await(dialing[key]);
      }
      if |conns| + |dialing| >= max {
        return Failed(ErrUnavailable);
      }
      dialing := dialing[key := nextCall];
      out := Dial(nextCall);
      nextCall := nextCall + 1;
    }

    method CompleteDial(key: Key, ssrc: nat, r: DialResult) returns (installed: Option<Conn>, closeSocket: bool)
      requires Valid() && (key in dialing || key.generation < latest)
      modifies this
      ensures Valid() && (View(), installed) == CompleteSpec(old(View()), key, ssrc, r)
      ensures closeSocket <==> installed.None? && (r.Dialled? || r.leftover.Some?)
    {
      CompleteOk(View(), key, ssrc, r);
      dialing := dialing - {key};
      installed, closeSocket := None, false;
      if r.DialFailed? {
        if r.error.ErrProvider? && !r.retryable {
          terminal := Some(r.error);
        }
        closeSocket := r.leftover.Some?;
      } else if closed {
        closeSocket := true;
      } else if latest > 0 && key.generation < latest {
        closeSocket := true;
      } else {
        installed := Some(Conn(r.socket, key, ssrc));
        conns := conns[key := installed.value];
      }
    }

    method Discard(c: Conn)
      requires Valid()
      modifies this
      ensures Valid() && View() == DiscardSpec(old(View()), c)
    {
      DiscardOk(View(), c);
      if c.key in conns && conns[c.key] == c {
        conns := conns - {c.key};
      }
    }

    /** The first section of Close: the caller closes the returned connections gracefully. */
    method Close() returns (open: set<Conn>)
      requires Valid()
      modifies this
      ensures Valid() && View() == CloseSpec(old(View()))
      ensures open == set k | k in old(conns) :: old(conns)[k]
    {
      closed := true;
      open := set k | k in conns :: conns[k];
      conns := map[];
    }
  }

  lemma NoRivals(t: Table, p: Packet)
    ensures Rivals(t, p) == {} ==> WithoutRivals(t, p) == t
  {
    assert forall k :: k in t.conns && Rival(t, p, k) ==> t.conns[k] in Rivals(t, p);
  }
}
