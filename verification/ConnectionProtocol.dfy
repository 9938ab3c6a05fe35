// Any number of ingest calls, dials, reader loops and Close, interleaved one locked section at a
// time, with every socket followed from the dial that opened it to its close.
module ConnectionProtocol {
  import opened Text
  import opened Connections

  /** A dial call: dialling; holding a socket it has not handed over yet; obliged to close the
      socket itself; or returned. */
  datatype Phase = Dialling | Carrying(socket: nat) | Failing | Closing(socket: nat) | Returned
  datatype Call = Call(key: Key, ssrc: nat, phase: Phase)

  /** The read loop of an installed connection. Its exit discards the connection, and it is only
      gone once that discard has seen the socket closed. */
  datatype Pc = Reading | Leaving | Gone
  datatype Reader = Reader(conn: Conn, pc: Pc)

  /** A dialled socket: the call that dialled it, and how many times it was closed. */
  datatype Socket = Socket(call: nat, closes: nat)

  datatype State = State(table: Table, calls: map<nat, Call>, sockets: map<nat, Socket>, readers: map<nat, Reader>, owed: set<nat>)

  datatype Action =
    | Attempt(p: Packet, call: nat) | DialReturns(call: nat, ok: bool, socket: nat) | Complete(call: nat, failed: bool, error: Error, retryable: bool)
    | CloseOwn(call: nat) | Discard(c: Conn) | ReaderExit(c: Conn) | ReaderGone(socket: nat) | CloseOwed(socket: nat) | CloseSession

  function Init(max: nat): State {
    State(Table(false, 0, map[], map[], None, max), map[], map[], map[], {})
  }

  function SocketsOf(conns: set<Conn>): set<nat> {
    set c | c in conns :: c.socket
  }

  function TableSockets(conns: map<Key, Conn>): set<nat> {
    set k | k in conns :: conns[k].socket
  }

  function Closed(sockets: map<nat, Socket>, x: nat): map<nat, Socket>
    requires x in sockets
  {
    sockets[x := sockets[x].(closes := sockets[x].closes + 1)]
  }

  ghost predicate AttemptStep(s: State, p: Packet, call: nat, t: State) {
    && call !in s.calls
    && var (table, out) := AttemptSpec(s.table, p, call);
       t == s.(table := table,
               calls := if out.Dial? then s.calls[call := Call(KeyFor(p), p.ssrc, Dialling)] else s.calls,
               owed := if out.Evicted? then s.owed + SocketsOf(out.conns) else s.owed)
  }

  ghost predicate DialReturnsStep(s: State, call: nat, ok: bool, socket: nat, t: State) {
    && call in s.calls && s.calls[call].phase == Dialling && (ok ==> socket !in s.sockets)
    && t == s.(calls := s.calls[call := s.calls[call].(phase := if ok then Carrying(socket) else Failing)],
               sockets := if ok then s.sockets[socket := Socket(call, 0)] else s.sockets)
  }

  /** A dial that failed may hand over a socket all the same. */
  function ResultOf(c: Call, failed: bool, error: Error, retryable: bool): DialResult {
    if c.phase.Carrying? && !failed then Dialled(c.phase.socket)
    else DialFailed(error, retryable, if c.phase.Carrying? then Some(c.phase.socket) else None)
  }

  ghost predicate CompleteStep(s: State, call: nat, failed: bool, error: Error, retryable: bool, t: State) {
    && call in s.calls && (s.calls[call].phase.Carrying? || s.calls[call].phase == Failing)
    && var c := s.calls[call];
       var r := ResultOf(c, failed, error, retryable);
       var (table, installed) := CompleteSpec(s.table, c.key, c.ssrc, r);
       t == s.(table := table,
               calls := s.calls[call := c.(phase := if installed.None? && c.phase.Carrying? then Closing(c.phase.socket) else Returned)],
               readers := if installed.Some? then s.readers[installed.value.socket := Reader(installed.value, Reading)] else s.readers)
  }

  /** The dial call closes the socket that could not be installed. */
  ghost predicate CloseOwnStep(s: State, call: nat, t: State) {
    && call in s.calls && s.calls[call].phase.Closing? && s.calls[call].phase.socket in s.sockets
    && t == s.(calls := s.calls[call := s.calls[call].(phase := Returned)], sockets := Closed(s.sockets, s.calls[call].phase.socket))
  }

  /** A failed write, a failed keep-alive, or the idle timeout. */
  ghost predicate DiscardStep(s: State, c: Conn, t: State) {
    && c.socket in s.readers && s.readers[c.socket].conn == c
    && t == s.(table := DiscardSpec(s.table, c), owed := s.owed + {c.socket})
  }

  ghost predicate ReaderExitStep(s: State, c: Conn, t: State) {
    && c.socket in s.readers && s.readers[c.socket] == Reader(c, Reading)
    && t == s.(table := DiscardSpec(s.table, c), owed := s.owed + {c.socket}, readers := s.readers[c.socket := Reader(c, Leaving)])
  }

  /** closeOnce.Do returns to every caller only after the first one has closed the socket. */
  ghost predicate ReaderGoneStep(s: State, socket: nat, t: State) {
    && socket in s.readers && s.readers[socket].pc == Leaving && socket in s.sockets && s.sockets[socket].closes > 0
    && t == s.(readers := s.readers[socket := s.readers[socket].(pc := Gone)])
  }

  /** abort or gracefulClose: whoever comes first closes the socket, the others find closeOnce spent. */
  ghost predicate CloseOwedStep(s: State, socket: nat, t: State) {
    && socket in s.owed && socket in s.sockets
    && t == s.(owed := s.owed - {socket}, sockets := if s.sockets[socket].closes == 0 then Closed(s.sockets, socket) else s.sockets)
  }

  ghost predicate CloseSessionStep(s: State, t: State) {
    t == s.(table := CloseSpec(s.table), owed := s.owed + TableSockets(s.table.conns))
  }

  ghost predicate Step(s: State, a: Action, t: State) {
    match a
    case Attempt(p, call) => AttemptStep(s, p, call, t)
    case DialReturns(call, ok, socket) => DialReturnsStep(s, call, ok, socket, t)
    case Complete(call, failed, error, retryable) => CompleteStep(s, call, failed, error, retryable, t)
    case CloseOwn(call) => CloseOwnStep(s, call, t)
    case Discard(c) => DiscardStep(s, c, t)
    case ReaderExit(c) => ReaderExitStep(s, c, t)
    case ReaderGone(socket) => ReaderGoneStep(s, socket, t)
    case CloseOwed(socket) => CloseOwedStep(s, socket, t)
    case CloseSession => CloseSessionStep(s, t)
  }

  // ----- the invariant -----

  ghost predicate Held(conns: map<Key, Conn>, readers: map<nat, Reader>, x: nat) {
    x in readers && readers[x].conn.key in conns && conns[readers[x].conn.key] == readers[x].conn
  }

  predicate InHand(c: Call, x: nat) { c.phase == Carrying(x) || c.phase == Closing(x) }

  ghost predicate Carried(calls: map<nat, Call>, sockets: map<nat, Socket>, x: nat) {
    x in sockets && sockets[x].call in calls && InHand(calls[sockets[x].call], x)
  }

  predicate InTransit(c: Call) { c.phase == Dialling || c.phase.Carrying? || c.phase == Failing }

  ghost predicate DialsOk(dialing: map<Key, nat>, calls: map<nat, Call>) {
    forall k :: k in dialing ==> dialing[k] in calls && calls[dialing[k]].key == k && InTransit(calls[dialing[k]])
  }

  /** A dial in progress is listed under its key, unless a newer generation superseded it. */
  ghost predicate CallsOk(latest: nat, dialing: map<Key, nat>, calls: map<nat, Call>) {
    forall c :: c in calls && InTransit(calls[c]) ==>
      (calls[c].key in dialing && dialing[calls[c].key] == c) || calls[c].key.generation < latest
  }

  /** A socket in the hands of a dial call is the one it dialled, open and known to nobody else. */
  ghost predicate CarryOk(calls: map<nat, Call>, sockets: map<nat, Socket>, readers: map<nat, Reader>) {
    forall c :: c in calls && (calls[c].phase.Carrying? || calls[c].phase.Closing?) ==>
      var x := calls[c].phase.socket; x in sockets && sockets[x] == Socket(c, 0) && x !in readers
  }

  /** A live connection is being read, its socket is open, and nobody owes it a close. */
  ghost predicate HeldOk(conns: map<Key, Conn>, sockets: map<nat, Socket>, readers: map<nat, Reader>, owed: set<nat>) {
    forall k :: k in conns ==>
      var c := conns[k];
      c.key == k && c.socket in sockets && sockets[c.socket].closes == 0 && c.socket in readers && readers[c.socket] == Reader(c, Reading) && c.socket !in owed
  }

  ghost predicate ReadersOk(sockets: map<nat, Socket>, readers: map<nat, Reader>) {
    forall x :: x in readers ==> x in sockets && readers[x].conn.socket == x && (readers[x].pc == Gone ==> sockets[x].closes > 0)
  }

  ghost predicate OwedOk(readers: map<nat, Reader>, owed: set<nat>) {
    forall x :: x in owed ==> x in readers
  }

  /** Every socket that is still open is somebody's: in the table, in a dial call's hands, or owed a close. */
  ghost predicate AccountedFor(conns: map<Key, Conn>, calls: map<nat, Call>, sockets: map<nat, Socket>, readers: map<nat, Reader>, owed: set<nat>) {
    forall x :: x in sockets && sockets[x].closes == 0 ==> Held(conns, readers, x) || Carried(calls, sockets, x) || x in owed
  }

  ghost predicate OnceClosed(sockets: map<nat, Socket>) {
    forall x :: x in sockets ==> sockets[x].closes <= 1
  }

  ghost predicate SocketsOk(conns: map<Key, Conn>, calls: map<nat, Call>, sockets: map<nat, Socket>, readers: map<nat, Reader>, owed: set<nat>) {
    && CarryOk(calls, sockets, readers) && HeldOk(conns, sockets, readers, owed)
    && ReadersOk(sockets, readers) && OwedOk(readers, owed)
    && AccountedFor(conns, calls, sockets, readers, owed) && OnceClosed(sockets)
  }

  ghost predicate TablesOk(table: Table, calls: map<nat, Call>) {
    TableOk(table) && DialsOk(table.dialing, calls) && CallsOk(table.latest, table.dialing, calls)
  }

  ghost predicate Inv(s: State) {
    TablesOk(s.table, s.calls) && SocketsOk(s.table.conns, s.calls, s.sockets, s.readers, s.owed)
  }

  /** Taking connections out of the table, each in exchange for a debt, loses no socket. */
  lemma Removal(conns: map<Key, Conn>, calls: map<nat, Call>, sockets: map<nat, Socket>, readers: map<nat, Reader>, owed: set<nat>,
                left: map<Key, Conn>, debts: set<nat>)
    requires SocketsOk(conns, calls, sockets, readers, owed)
    requires forall k :: k in left ==> k in conns && left[k] == conns[k] && left[k].socket !in debts
    requires forall k :: k in conns && k !in left ==> conns[k].socket in debts
    requires forall x :: x in owed ==> x in debts
    requires forall x :: x in debts ==> x in owed || x in readers
    ensures SocketsOk(left, calls, sockets, readers, debts)
  {
  }

  /** After a pass the table holds part of what it held, and what is gone was evicted. */
  ghost predicate LeavesFrom(before: map<Key, Conn>, after: map<Key, Conn>, out: Outcome) {
    && (forall k :: k in after ==> k in before && after[k] == before[k])
    && (out.Evicted? ==> forall k :: k in before ==> (k !in after <==> before[k] in out.conns))
    && (out.Evicted? ==> forall c :: c in out.conns ==> c.key in before && before[c.key] == c)
    && (!out.Evicted? ==> after == before)
  }

  lemma LookupLeaves(t: Table, p: Packet, call: nat)
    requires TableOk(t)
    ensures var (u, out) := Lookup(t, p, call); LeavesFrom(t.conns, u.conns, out)
  {
  }

  lemma AdvanceLeaves(t: Table, generation: nat)
    requires TableOk(t)
    ensures LeavesFrom(t.conns, Advance(t, generation).conns, Evicted(OldConns(t, generation), OldDials(t, generation)))
  {
  }

  lemma EvictedLeft(t: Table, p: Packet, call: nat)
    requires TableOk(t)
    ensures var (u, out) := AttemptSpec(t, p, call); LeavesFrom(t.conns, u.conns, out)
  {
    LookupLeaves(t, p, call);
    if p.generation > t.latest {
      AdvanceLeaves(t, p.generation);
      NothingOld(t, p.generation);
    }
  }

  /** What a pass does to the dials: it drops them all for a newer generation, adds its own, or neither. */
  lemma AttemptDials(t: Table, p: Packet, call: nat)
    requires TableOk(t)
    ensures var (u, out) := AttemptSpec(t, p, call);
      && u.latest >= t.latest
      && (out.Dial? ==> out == Dial(call) && KeyFor(p) !in t.dialing && u.dialing == t.dialing[KeyFor(p) := call])
      && (!out.Dial? ==> u.dialing == t.dialing || (u.dialing == map[] && u.latest > t.latest))
  {
    if !t.closed && p.generation > t.latest {
      AdvanceOk(t, p.generation);
    }
  }

  lemma CallsLater(latest: nat, dialing: map<Key, nat>, calls: map<nat, Call>, later: nat)
    requires DialsOk(dialing, calls) && CallsOk(latest, dialing, calls) && latest <= later
    ensures CallsOk(later, dialing, calls)
    ensures (forall k :: k in dialing ==> k.generation == latest) && latest < later ==> CallsOk(later, map[], calls) && DialsOk(map[], calls)
  {
  }

  lemma CallsDial(latest: nat, dialing: map<Key, nat>, calls: map<nat, Call>, key: Key, ssrc: nat, call: nat)
    requires DialsOk(dialing, calls) && CallsOk(latest, dialing, calls) && call !in calls && key !in dialing
    ensures DialsOk(dialing[key := call], calls[call := Call(key, ssrc, Dialling)])
    ensures CallsOk(latest, dialing[key := call], calls[call := Call(key, ssrc, Dialling)])
  {
  }

  lemma AttemptTables(s: State, p: Packet, call: nat, t: State)
    requires TablesOk(s.table, s.calls) && AttemptStep(s, p, call, t)
    ensures TablesOk(t.table, t.calls)
  {
    AttemptOk(s.table, p, call);
    AttemptDials(s.table, p, call);
    CallsLater(s.table.latest, s.table.dialing, s.calls, t.table.latest);
    var out := AttemptSpec(s.table, p, call).1;
    if out.Dial? {
      CallsDial(t.table.latest, s.table.dialing, s.calls, KeyFor(p), p.ssrc, call);
    }
  }

  lemma AttemptSockets(s: State, p: Packet, call: nat, t: State)
    requires Inv(s) && AttemptStep(s, p, call, t)
    ensures SocketsOk(t.table.conns, t.calls, t.sockets, t.readers, t.owed)
  {
    EvictedLeft(s.table, p, call);
    var out := AttemptSpec(s.table, p, call).1;
    if out.Evicted? {
      assert forall c :: c in out.conns ==> c.socket in SocketsOf(out.conns);
      Removal(s.table.conns, s.calls, s.sockets, s.readers, s.owed, t.table.conns, t.owed);
    }
  }

  lemma DialReturnsInv(s: State, call: nat, ok: bool, socket: nat, t: State)
    requires Inv(s) && DialReturnsStep(s, call, ok, socket, t)
    ensures Inv(t)
  {
  }

  lemma CallsComplete(latest: nat, dialing: map<Key, nat>, calls: map<nat, Call>, call: nat, c: Call)
    requires DialsOk(dialing, calls) && CallsOk(latest, dialing, calls) && call in calls && InTransit(calls[call]) && !InTransit(c)
    requires forall k :: k in dialing ==> k.generation == latest
    ensures calls[call].key in dialing || calls[call].key.generation < latest
    ensures DialsOk(dialing - {calls[call].key}, calls[call := c]) && CallsOk(latest, dialing - {calls[call].key}, calls[call := c])
  {
  }

  lemma CompleteTables(s: State, call: nat, failed: bool, error: Error, retryable: bool, t: State)
    requires TablesOk(s.table, s.calls) && CompleteStep(s, call, failed, error, retryable, t)
    ensures TablesOk(t.table, t.calls)
  {
    var c := s.calls[call];
    CallsComplete(s.table.latest, s.table.dialing, s.calls, call, t.calls[call]);
    CompleteOk(s.table, c.key, c.ssrc, ResultOf(c, failed, error, retryable));
  }

  /** A socket goes from the hands of its dial call into the table. */
  lemma InstallSockets(conns: map<Key, Conn>, calls: map<nat, Call>, sockets: map<nat, Socket>, readers: map<nat, Reader>, owed: set<nat>, call: nat)
    requires SocketsOk(conns, calls, sockets, readers, owed) && call in calls && calls[call].phase.Carrying? && calls[call].key !in conns
    ensures var c := calls[call]; var conn := Conn(c.phase.socket, c.key, c.ssrc);
      SocketsOk(conns[c.key := conn], calls[call := c.(phase := Returned)], sockets, readers[c.phase.socket := Reader(conn, Reading)], owed)
  {
  }

  lemma HandSockets(conns: map<Key, Conn>, calls: map<nat, Call>, sockets: map<nat, Socket>, readers: map<nat, Reader>, owed: set<nat>, call: nat, c: Call)
    requires SocketsOk(conns, calls, sockets, readers, owed) && call in calls
    requires if calls[call].phase.Carrying? then c.phase == Closing(calls[call].phase.socket) else calls[call].phase == Failing && c.phase == Returned
    ensures SocketsOk(conns, calls[call := c], sockets, readers, owed)
  {
  }

  lemma CompleteSockets(s: State, call: nat, failed: bool, error: Error, retryable: bool, t: State)
    requires Inv(s) && CompleteStep(s, call, failed, error, retryable, t)
    ensures SocketsOk(t.table.conns, t.calls, t.sockets, t.readers, t.owed)
  {
    var c := s.calls[call];
    var r := ResultOf(c, failed, error, retryable);
    CallsComplete(s.table.latest, s.table.dialing, s.calls, call, t.calls[call]);
    CompleteOk(s.table, c.key, c.ssrc, r);
    if CompleteSpec(s.table, c.key, c.ssrc, r).1.Some? {
      InstallSockets(s.table.conns, s.calls, s.sockets, s.readers, s.owed, call);
    } else {
      HandSockets(s.table.conns, s.calls, s.sockets, s.readers, s.owed, call, t.calls[call]);
    }
  }

  lemma CloseOwnInv(s: State, call: nat, t: State)
    requires Inv(s) && CloseOwnStep(s, call, t)
    ensures Inv(t)
  {
  }

  lemma DiscardSockets(s: State, c: Conn, t: State)
    requires Inv(s) && DiscardStep(s, c, t)
    ensures SocketsOk(t.table.conns, t.calls, t.sockets, t.readers, t.owed)
  {
    Removal(s.table.conns, s.calls, s.sockets, s.readers, s.owed, t.table.conns, t.owed);
  }

  lemma ReaderExitSockets(s: State, c: Conn, t: State)
    requires Inv(s) && ReaderExitStep(s, c, t)
    ensures SocketsOk(t.table.conns, t.calls, t.sockets, t.readers, t.owed)
  {
    Removal(s.table.conns, s.calls, s.sockets, s.readers, s.owed, t.table.conns, t.owed);
  }

  lemma ReaderGoneInv(s: State, socket: nat, t: State)
    requires Inv(s) && ReaderGoneStep(s, socket, t)
    ensures Inv(t)
  {
  }

  lemma CloseOwedInv(s: State, socket: nat, t: State)
    requires Inv(s) && CloseOwedStep(s, socket, t)
    ensures Inv(t)
  {
  }

  lemma CloseSessionInv(s: State, t: State)
    requires Inv(s) && CloseSessionStep(s, t)
    ensures Inv(t)
  {
    Removal(s.table.conns, s.calls, s.sockets, s.readers, s.owed, t.table.conns, t.owed);
  }

  lemma InvStep(s: State, a: Action, t: State)
    requires Inv(s) && Step(s, a, t)
    ensures Inv(t)
  {
    match a {
      case Attempt(p, call) => AttemptTables(s, p, call, t); AttemptSockets(s, p, call, t);
      case DialReturns(call, ok, socket) => DialReturnsInv(s, call, ok, socket, t);
      case Complete(call, failed, error, retryable) => CompleteTables(s, call, failed, error, retryable, t); CompleteSockets(s, call, failed, error, retryable, t);
      case CloseOwn(call) => CloseOwnInv(s, call, t);
      case Discard(c) => DiscardOk(s.table, c); DiscardSockets(s, c, t);
      case ReaderExit(c) => DiscardOk(s.table, c); ReaderExitSockets(s, c, t);
      case ReaderGone(socket) => ReaderGoneInv(s, socket, t);
      case CloseOwed(socket) => CloseOwedInv(s, socket, t);
      case CloseSession => CloseSessionInv(s, t);
    }
  }

  // ----- theorems over every run -----

  ghost predicate Run(max: nat, states: seq<State>, actions: seq<Action>) {
    && |states| == |actions| + 1 && states[0] == Init(max)
    && forall i :: 0 <= i < |actions| ==> Step(states[i], actions[i], states[i + 1])
  }

  lemma {:induction false} RunInv(max: nat, states: seq<State>, actions: seq<Action>, n: nat)
    requires Run(max, states, actions) && n < |states|
    ensures Inv(states[n]) && states[n].table.max == max
  {
    if n > 0 {
      RunInv(max, states, actions, n - 1);
      InvStep(states[n - 1], actions[n - 1], states[n]);
      MaxFixed(states[n - 1], actions[n - 1], states[n]);
    }
  }

  lemma MaxFixed(s: State, a: Action, t: State)
    requires Step(s, a, t)
    ensures t.table.max == s.table.max && (s.table.closed ==> t.table.closed)
  {
  }

  /** At every point of every run: all live and dialling entries are of the latest generation, no key
      is both, the cap holds, a resolved user has one connection, and a closed session has none. */
  lemma TableAlwaysOk(max: nat, states: seq<State>, actions: seq<Action>, n: nat)
    requires Run(max, states, actions) && n < |states|
    ensures var t := states[n].table;
      && (forall k :: k in t.conns ==> k.generation == t.latest) && (forall k :: k in t.dialing ==> k.generation == t.latest)
      && t.conns.Keys !! t.dialing.Keys && |t.conns| + |t.dialing| <= max
      && (forall j, k :: j in t.conns && k in t.conns && j.userID != "" && j.userID == k.userID ==> j == k)
      && (t.closed ==> t.conns == map[])
  {
    RunInv(max, states, actions, n);
  }

  /** Every dialled socket is in exactly one place while it is open: live in the table, in the hands
      of its dial call, or out of the table and owed a close. It is closed at most once. */
  lemma SocketConservation(max: nat, states: seq<State>, actions: seq<Action>, n: nat, x: nat)
    requires Run(max, states, actions) && n < |states| && x in states[n].sockets
    ensures var s := states[n];
      var held, carried, owed := Held(s.table.conns, s.readers, x), Carried(s.calls, s.sockets, x), x in s.owed;
      && s.sockets[x].closes <= 1
      && (s.sockets[x].closes == 0 ==> held || carried || owed)
      && (held ==> s.sockets[x].closes == 0 && !carried && !owed)
      && (carried ==> s.sockets[x].closes == 0 && !held && !owed)
  {
    RunInv(max, states, actions, n);
  }

  /** The socket's connection was installed and is no longer in the table. */
  ghost predicate Left(s: State, x: nat) {
    x in s.readers && !Held(s.table.conns, s.readers, x)
  }

  /** The only step that adds to the table installs a socket nobody has read from. */
  lemma TableGrows(s: State, a: Action, t: State, k: Key)
    requires Inv(s) && Step(s, a, t)
    ensures k in t.table.conns ==> (k in s.table.conns && t.table.conns[k] == s.table.conns[k]) || t.table.conns[k].socket !in s.readers
  {
    match a {
      case Attempt(p, call) => EvictedLeft(s.table, p, call);
      case _ =>
    }
  }

  lemma ReadersKept(s: State, a: Action, t: State, x: nat)
    requires Inv(s) && Step(s, a, t) && x in s.readers
    ensures x in t.readers && t.readers[x].conn == s.readers[x].conn && s.readers[x].conn.socket == x
  {
  }

  lemma LeftStaysOut(s: State, a: Action, t: State, x: nat)
    requires Inv(s) && Step(s, a, t) && Left(s, x)
    ensures Left(t, x)
  {
    ReadersKept(s, a, t, x);
    var c := s.readers[x].conn;
    if c.key in t.table.conns {
      TableGrows(s, a, t, c.key);
    }
  }

  lemma RunLeft(max: nat, states: seq<State>, actions: seq<Action>, n: nat, x: nat)
    requires Run(max, states, actions) && n < |actions| && Left(states[n], x)
    ensures Left(states[n + 1], x)
  {
    RunInv(max, states, actions, n);
    LeftStaysOut(states[n], actions[n], states[n + 1], x);
  }

  /** A connection that left the table never comes back. */
  lemma {:induction false} NeverReinstalled(max: nat, states: seq<State>, actions: seq<Action>, m: nat, n: nat, x: nat)
    requires Run(max, states, actions) && m <= n < |states| && Left(states[m], x)
    ensures Left(states[n], x)
  {
    if m < n {
      NeverReinstalled(max, states, actions, m, n - 1, x);
      RunLeft(max, states, actions, n - 1, x);
    }
  }

  /** When the session is closed and no dial call and no read loop is outstanding, which is what Close
      waits for, every socket that was ever dialled has been closed exactly once. */
  lemma CloseLeavesNothingOpen(max: nat, states: seq<State>, actions: seq<Action>, n: nat)
    requires Run(max, states, actions) && n < |states| && states[n].table.closed
    requires forall c :: c in states[n].calls ==> states[n].calls[c].phase == Returned
    requires forall x :: x in states[n].readers ==> states[n].readers[x].pc == Gone
    ensures forall x :: x in states[n].sockets ==> states[n].sockets[x].closes == 1
  {
    RunInv(max, states, actions, n);
  }

  /** Whatever connection a packet is given is open at that moment, and is of the packet's own user and
      generation, which is the latest. */
  lemma FoundIsOpen(max: nat, states: seq<State>, actions: seq<Action>, n: nat, p: Packet, call: nat)
    requires Run(max, states, actions) && n < |states| && AttemptSpec(states[n].table, p, call).1.Found?
    ensures var s := states[n]; var c := AttemptSpec(s.table, p, call).1.conn;
      && c.socket in s.sockets && s.sockets[c.socket].closes == 0
      && c.key == KeyFor(p) && c.key.generation == p.generation == AttemptSpec(s.table, p, call).0.latest && !s.table.closed
  {
    RunInv(max, states, actions, n);
    FoundIsCurrent(states[n].table, p, call, AttemptSpec(states[n].table, p, call).1.conn);
  }
}
