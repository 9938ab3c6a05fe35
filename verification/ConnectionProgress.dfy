// When a packet gets a connection: what one pass over the table decides, that a decision is never more than
// two passes away, and that the table can be filled to its cap.
module ConnectionProgress {
  import opened Text
  import opened Sequences
  import opened Connections
  import opened ConnectionProtocol

  /** The packet may be decided on: the session is open and the packet is of the latest generation. */
  ghost predicate Ready(t: Table, p: Packet) {
    !t.closed && t.terminal.None? && p.generation == t.latest
  }

  /** No other live connection is of the packet's user or carries its SSRC. */
  ghost predicate Unrivalled(t: Table, p: Packet) {
    forall k :: k in t.conns && k != KeyFor(p) ==> (p.userID != "" ==> k.userID != p.userID) && (p.ssrc != 0 ==> t.conns[k].ssrc != p.ssrc)
  }

  /** A key is a resolved user of a generation, or an SSRC whose user is not known. */
  lemma KeyIs(p: Packet)
    ensures KeyFor(p).generation == p.generation && KeyFor(p).userID == p.userID
    ensures KeyFor(p).unresolvedSSRC == if p.userID == "" then p.ssrc else 0
  {
  }

  lemma NoRivals(t: Table, p: Packet)
    requires Unrivalled(t, p)
    ensures Rivals(t, p) == {}
  {
  }

  /** What one pass decides for a packet of the latest generation. A live connection is found. Failing that
      and without a rival, a dial in progress is awaited, and a dial is started if and only if live and
      dialling connections together are below the cap. */
  lemma PassDecides(t: Table, p: Packet, call: nat)
    requires Ready(t, p)
    ensures var (u, out) := AttemptSpec(t, p, call); var key := KeyFor(p);
      && (key in t.conns ==> out == Found(t.conns[key]) && u == t)
      && (key !in t.conns && Unrivalled(t, p) && key in t.dialing ==> out == Await(t.dialing[key]) && u == t)
      && (key !in t.conns && Unrivalled(t, p) && key !in t.dialing ==>
            && (out.Dial? <==> |t.conns| + |t.dialing| < t.max)
            && (out.Dial? ==> out == Dial(call) && u == t.(dialing := t.dialing[key := call]))
            && (!out.Dial? ==> out == Failed(ErrUnavailable) && u == t))
  {
    if Unrivalled(t, p) {
      NoRivals(t, p);
    }
  }

  /** Who is turned away at once, and with which error. */
  lemma PassRefuses(t: Table, p: Packet, call: nat)
    ensures var (u, out) := AttemptSpec(t, p, call);
      && (t.closed ==> out == Failed(ErrClosed) && u == t)
      && (!t.closed && t.latest > 0 && p.generation < t.latest ==> out == Failed(ErrStale) && u == t)
      && (!t.closed && p.generation == t.latest && t.terminal.Some? ==> out == Failed(t.terminal.value) && u == t)
  {
  }

  lemma EvictionLeaves(t: Table, p: Packet, call: nat)
    requires TableOk(t) && AttemptSpec(t, p, call).1.Evicted?
    ensures var u := AttemptSpec(t, p, call).0;
      && !u.closed && u.latest == p.generation && Unrivalled(u, p) && u.terminal == t.terminal && u.max == t.max
      && forall k :: k in u.conns ==> k in t.conns && u.conns[k] == t.conns[k]
  {
    if p.generation > t.latest {
      AdvanceOk(t, p.generation);
      NothingOld(t, p.generation);
    }
  }

  /** Left alone, a packet has its decision after at most two passes: the first may only make way. */
  lemma DecidedInTwo(t: Table, p: Packet, call: nat)
    requires TableOk(t)
    ensures var (u, out) := AttemptSpec(t, p, call);
      out.Evicted? ==> !AttemptSpec(u, p, call).1.Evicted?
  {
    var (u, out) := AttemptSpec(t, p, call);
    if out.Evicted? {
      EvictionLeaves(t, p, call);
      NoRivals(u, p);
    }
  }

  /** In every run, at every point: a packet that is not stale, in an open session without a terminal error,
      is decided on after at most one eviction, and gets a live connection, a dial to wait for, a dial of its
      own, or is refused for the cap only. */
  lemma EveryPacketDecided(max: nat, states: seq<State>, actions: seq<Action>, n: nat, p: Packet, call: nat)
    requires ConnectionProtocol.Run(max, states, actions) && n < |states|
    requires var t := states[n].table; !t.closed && t.terminal.None? && p.generation >= t.latest
    ensures var (u, first) := AttemptSpec(states[n].table, p, call);
      var out := if first.Evicted? then AttemptSpec(u, p, call).1 else first;
      out.Found? || out.Await? || out.Dial? || (out == Failed(ErrUnavailable) && |u.conns| + |u.dialing| >= max)
  {
    RunInv(max, states, actions, n);
    var t := states[n].table;
    var (u, first) := AttemptSpec(t, p, call);
    DecidedInTwo(t, p, call);
    if first.Evicted? {
      EvictionLeaves(t, p, call);
      PassDecides(u, p, call);
    } else if p.generation == t.latest {
      PassDecides(t, p, call);
    }
  }

  /** A dial that brings a socket has it installed if and only if the session is open and no newer generation
      has come; one that fails sets the terminal error if and only if the provider will not have it retried. */
  lemma DialInstalledIff(t: Table, key: Key, ssrc: nat, r: DialResult)
    ensures var (u, installed) := CompleteSpec(t, key, ssrc, r);
      && (installed.Some? <==> r.Dialled? && !t.closed && (t.latest == 0 || t.latest <= key.generation))
      && (installed.Some? ==> installed.value == Conn(r.socket, key, ssrc) && u.conns == t.conns[key := installed.value])
      && (installed.None? ==> u.conns == t.conns)
      && (u.terminal != t.terminal ==> r.DialFailed? && r.error.ErrProvider? && !r.retryable && u.terminal == Some(r.error))
      && (r.DialFailed? && r.error.ErrProvider? && !r.retryable ==> u.terminal == Some(r.error))
      && u.dialing == t.dialing - {key} && u.closed == t.closed && u.latest == t.latest && u.max == t.max
  {
  }

  // ----- a run that fills the table -----

  function User(i: nat): (s: string)
    ensures |s| == i + 1
  {
    seq(i + 1, _ => 'u')
  }

  function PacketOf(i: nat): Packet {
    Packet(i + 1, User(i), 1)
  }

  /** The first n users have live connections, and nothing else is going on. */
  ghost predicate Filled(s: State, max: nat, n: nat) {
    && s.table == Table(false, if n == 0 then 0 else 1, s.table.conns, map[], None, max)
    && |s.table.conns| == n && (forall k :: k in s.table.conns ==> |k.userID| <= n && s.table.conns[k].ssrc <= n)
    && (forall c :: c in s.calls ==> c < n) && (forall x :: x in s.sockets ==> x < n)
  }

  ghost predicate Reached(max: nat, s: State) {
    exists states, actions :: ConnectionProtocol.Run(max, states, actions) && states[|states| - 1] == s
  }

  lemma ReachedStep(max: nat, s: State, a: Action, t: State)
    requires Reached(max, s) && Step(s, a, t)
    ensures Reached(max, t)
  {
    var states, actions :| ConnectionProtocol.Run(max, states, actions) && states[|states| - 1] == s;
    assert ConnectionProtocol.Run(max, states + [t], actions + [a]);
  }

  lemma NextUserDials(t: Table, n: nat)
    requires t == Table(false, if n == 0 then 0 else 1, t.conns, map[], None, t.max) && |t.conns| == n < t.max
    requires forall k :: k in t.conns ==> |k.userID| <= n && t.conns[k].ssrc <= n
    ensures AttemptSpec(t, PacketOf(n), n) == (t.(latest := 1, dialing := map[KeyFor(PacketOf(n)) := n]), Dial(n))
    ensures KeyFor(PacketOf(n)) !in t.conns && KeyFor(PacketOf(n)) == Key(User(n), 1, 0)
  {
    var p, u := PacketOf(n), t.(latest := 1);
    assert u.dialing[KeyFor(p) := n] == map[KeyFor(p) := n];
    PassDecides(u, p, n);
    if n == 0 {
      assert OldConns(t, 1) == {} && OldDials(t, 1) == {};
    }
  }

  lemma UserDials(s: State, max: nat, n: nat) returns (t: State)
    requires Reached(max, s) && Filled(s, max, n) && n < max
    ensures Reached(max, t)
    ensures var key := KeyFor(PacketOf(n));
      && key == Key(User(n), 1, 0) && key !in s.table.conns
      && t == s.(table := s.table.(latest := 1, dialing := map[key := n]), calls := s.calls[n := Call(key, n + 1, Dialling)])
  {
    NextUserDials(s.table, n);
    var key := KeyFor(PacketOf(n));
    t := s.(table := s.table.(latest := 1, dialing := map[key := n]), calls := s.calls[n := Call(key, n + 1, Dialling)]);
    ReachedStep(max, s, Attempt(PacketOf(n), n), t);
  }

  lemma DialSucceeds(s: State, max: nat, n: nat, key: Key) returns (t: State)
    requires Reached(max, s) && n in s.calls && s.calls[n] == Call(key, n + 1, Dialling) && n !in s.sockets
    ensures Reached(max, t) && t == s.(calls := s.calls[n := Call(key, n + 1, Carrying(n))], sockets := s.sockets[n := Socket(n, 0)])
  {
    t := s.(calls := s.calls[n := Call(key, n + 1, Carrying(n))], sockets := s.sockets[n := Socket(n, 0)]);
    ReachedStep(max, s, DialReturns(n, true, n), t);
  }

  lemma SocketInstalled(s: State, max: nat, n: nat, key: Key) returns (t: State)
    requires Reached(max, s) && n in s.calls && s.calls[n] == Call(key, n + 1, Carrying(n))
    requires !s.table.closed && s.table.latest == key.generation && s.table.dialing == map[key := n]
    ensures Reached(max, t) && t.table == s.table.(dialing := map[], conns := s.table.conns[key := Conn(n, key, n + 1)])
    ensures t.calls == s.calls[n := Call(key, n + 1, Returned)] && t.sockets == s.sockets
  {
    var conn := Conn(n, key, n + 1);
    t := s.(table := s.table.(dialing := map[], conns := s.table.conns[key := conn]), calls := s.calls[n := Call(key, n + 1, Returned)],
            readers := s.readers[n := Reader(conn, Reading)]);
    assert s.table.dialing - {key} == map[];
    ReachedStep(max, s, Complete(n, false, ErrUnavailable, true), t);
  }

  lemma OneMore(s: State, max: nat, n: nat) returns (t: State)
    requires Reached(max, s) && Filled(s, max, n) && n < max
    ensures Reached(max, t) && Filled(t, max, n + 1)
  {
    var key := Key(User(n), 1, 0);
    t := UserDials(s, max, n);
    t := DialSucceeds(t, max, n, key);
    t := SocketInstalled(t, max, n, key);
    assert t.table.conns.Keys == s.table.conns.Keys + {key};
  }

  lemma {:induction false} FillTo(max: nat, n: nat) returns (s: State)
    requires n <= max
    ensures Reached(max, s) && Filled(s, max, n)
  {
    if n == 0 {
      s := Init(max);
      assert ConnectionProtocol.Run(max, [s], []);
    } else {
      s := FillTo(max, n - 1);
      s := OneMore(s, max, n - 1);
    }
  }

  /** As many connections as the cap allows can be live at once, and then the next user is refused. */
  lemma TableFills(max: nat) returns (s: State)
    ensures Reached(max, s) && |s.table.conns| == max && s.table.dialing == map[]
    ensures max > 0 ==> AttemptSpec(s.table, PacketOf(max), 0).1 == Failed(ErrUnavailable)
  {
    s := FillTo(max, max);
    if max > 0 {
      PassDecides(s.table, PacketOf(max), 0);
    }
  }
}
