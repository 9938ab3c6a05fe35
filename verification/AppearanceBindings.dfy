// Which visual generations of a stream the runtime accepts: each stream is bound to the generation it
// last used, for as long as it is among the streams used most recently.
module AppearanceBindings {
  import opened Text
  import opened AppearanceCache

  const MAX_BINDINGS: nat := 128

  datatype Code =
    | CapabilityRequired | StaleJobGeneration | RevisionPayloadConflict | FormatUnsupported | DimensionMismatch
    | TooLarge | DecodeFailed | HashMismatch | Timeout | VariantFailed

  /** Everything visible that a generation stands for. */
  datatype Appearance = Appearance(revision: nat, backgroundMode: string, headerTitleMode: string, customTitle: string,
                                   background: Option<Identity>)

  datatype Binding = Binding(generation: nat, appearance: Appearance, lastUsed: nat)

  type Bindings = map<string, Binding>

  datatype Request = Request(stream: string, generation: nat, appearance: Appearance)

  /** Why a request is refused, if it is. */
  function BindError(b: Bindings, r: Request): Option<Code> {
    if r.stream in b && r.generation < b[r.stream].generation then Some(StaleJobGeneration)
    else if r.stream in b && r.generation == b[r.stream].generation && r.appearance != b[r.stream].appearance then Some(RevisionPayloadConflict)
    else None
  }

  ghost predicate Distinct(b: Bindings) {
    forall s, t {:trigger Differ(b[s], b[t])} :: s in b && t in b && s != t ==> Differ(b[s], b[t])
  }

  predicate Differ(x: Binding, y: Binding) {
    x.lastUsed != y.lastUsed
  }

  ghost predicate BindingsOk(b: Bindings, clock: nat) {
    |b| <= MAX_BINDINGS && Distinct(b) && forall s :: s in b ==> b[s].lastUsed <= clock
  }

  ghost predicate IsOldestOther(b: Bindings, stream: string, x: string) {
    x in b && x != stream && forall s :: s in b && s != stream ==> b[x].lastUsed <= b[s].lastUsed
  }

  /** At most one binding makes room, and it is the one used longest ago. */
  ghost predicate MadeRoom(b: Bindings, stream: string, t: Bindings) {
    if |b| <= MAX_BINDINGS then t == b else exists x :: IsOldestOther(b, stream, x) && t == b - {x}
  }

  /** One call of bindGeneration. */
  ghost predicate Bind(b: Bindings, clock: nat, r: Request, t: Bindings, now: nat) {
    if BindError(b, r).Some? then t == b && now == clock
    else now == clock + 1 && MadeRoom(b[r.stream := Binding(r.generation, r.appearance, now)], r.stream, t)
  }

  /** A request is accepted if and only if its stream is not bound, is bound to an older generation, or is
      bound to the same generation and the same appearance. */
  lemma AcceptedIff(b: Bindings, r: Request)
    ensures BindError(b, r).None? <==>
            r.stream !in b || b[r.stream].generation < r.generation || (b[r.stream].generation == r.generation && b[r.stream].appearance == r.appearance)
    ensures BindError(b, r) == Some(StaleJobGeneration) <==> r.stream in b && r.generation < b[r.stream].generation
  {
  }

  /** A request that is accepted unbinds no other stream while there are at most 128 with it, and otherwise exactly
      the one used longest ago. */
  lemma UnbindsOnlyOldest(b: Bindings, clock: nat, r: Request, t: Bindings, now: nat)
    requires BindingsOk(b, clock) && Bind(b, clock, r, t, now) && BindError(b, r).None?
    ensures |b.Keys + {r.stream}| <= 128 ==> t == b[r.stream := Binding(r.generation, r.appearance, clock + 1)]
    ensures |b.Keys + {r.stream}| > 128 ==>
              exists x :: IsOldestOther(b, r.stream, x) && t == b[r.stream := Binding(r.generation, r.appearance, clock + 1)] - {x}
  {
    var n := b[r.stream := Binding(r.generation, r.appearance, clock + 1)];
    assert n.Keys == b.Keys + {r.stream};
    if |n| > 128 {
      var x :| IsOldestOther(n, r.stream, x) && t == n - {x};
      assert IsOldestOther(b, r.stream, x);
    }
  }

  lemma InsertOk(b: Bindings, clock: nat, r: Request)
    requires BindingsOk(b, clock)
    ensures var n := b[r.stream := Binding(r.generation, r.appearance, clock + 1)];
      |n| <= MAX_BINDINGS + 1 && Distinct(n) && forall s :: s in n ==> n[s].lastUsed <= clock + 1
  {
    assert b[r.stream := Binding(r.generation, r.appearance, clock + 1)].Keys == b.Keys + {r.stream};
  }

  lemma RoomOk(n: Bindings, clock: nat, stream: string, t: Bindings)
    requires |n| <= MAX_BINDINGS + 1 && Distinct(n) && (forall s :: s in n ==> n[s].lastUsed <= clock)
    requires stream in n && MadeRoom(n, stream, t)
    ensures BindingsOk(t, clock) && stream in t && forall s :: s in t ==> s in n && t[s] == n[s]
  {
    if |n| > MAX_BINDINGS {
      var x :| IsOldestOther(n, stream, x) && t == n - {x};
      assert t.Keys == n.Keys - {x};
    }
  }

  lemma BindOk(b: Bindings, clock: nat, r: Request, t: Bindings, now: nat)
    requires BindingsOk(b, clock) && Bind(b, clock, r, t, now)
    ensures BindingsOk(t, now)
    ensures BindError(b, r).None? ==> r.stream in t && t[r.stream] == Binding(r.generation, r.appearance, now)
    ensures forall s :: s in t && s != r.stream ==> s in b && t[s] == b[s]
  {
    if BindError(b, r).None? {
      InsertOk(b, clock, r);
      RoomOk(b[r.stream := Binding(r.generation, r.appearance, now)], now, r.stream, t);
    }
  }

  // ----- any sequence of requests -----

  /** Between requests the clock may move on: cached pictures are stamped from it too. */
  ghost predicate Run(states: seq<Bindings>, clocks: seq<nat>, requests: seq<Request>) {
    && |states| == |clocks| == |requests| + 1 && states[0] == map[] && clocks[0] == 0
    && forall i :: 0 <= i < |requests| ==> StepAt(states, clocks, requests, i)
  }

  ghost predicate StepAt(states: seq<Bindings>, clocks: seq<nat>, requests: seq<Request>, i: nat)
    requires |states| == |clocks| == |requests| + 1 && i < |requests|
  {
    BindLater(states[i], clocks[i], requests[i], states[i + 1], clocks[i + 1])
  }

  ghost predicate BindLater(b: Bindings, since: nat, r: Request, t: Bindings, now: nat) {
    exists clock :: since <= clock && Bind(b, clock, r, t, now)
  }

  lemma {:induction false} RunOk(states: seq<Bindings>, clocks: seq<nat>, requests: seq<Request>, n: nat)
    requires Run(states, clocks, requests) && n < |states|
    ensures BindingsOk(states[n], clocks[n])
  {
    if n > 0 {
      RunOk(states, clocks, requests, n - 1);
      assert StepAt(states, clocks, requests, n - 1);
      var clock :| clocks[n - 1] <= clock && Bind(states[n - 1], clock, requests[n - 1], states[n], clocks[n]);
      BindOk(states[n - 1], clock, requests[n - 1], states[n], clocks[n]);
    }
  }

  /** The request of step i was accepted. */
  ghost predicate Accepted(states: seq<Bindings>, requests: seq<Request>, i: nat)
    requires |states| == |requests| + 1 && i < |requests|
  {
    BindError(states[i], requests[i]).None?
  }

  /** What a stream is bound to is no older than r, and the same where the generation is the same. */
  ghost predicate NotBefore(b: Bindings, r: Request) {
    r.stream in b && r.generation <= b[r.stream].generation &&
    (r.generation == b[r.stream].generation ==> r.appearance == b[r.stream].appearance)
  }

  lemma BindNotBefore(b: Bindings, clock: nat, q: Request, t: Bindings, now: nat, r: Request)
    requires BindingsOk(b, clock) && Bind(b, clock, q, t, now) && r.stream in t
    requires NotBefore(b, r) || (q == r && BindError(b, q).None?)
    ensures NotBefore(t, r)
  {
    BindOk(b, clock, q, t, now);
  }

  lemma {:induction false} BoundSince(states: seq<Bindings>, clocks: seq<nat>, requests: seq<Request>, i: nat, n: nat)
    requires Run(states, clocks, requests) && i < n < |states| && Accepted(states, requests, i)
    requires forall k :: i < k <= n ==> requests[i].stream in states[k]
    ensures NotBefore(states[n], requests[i])
  {
    RunOk(states, clocks, requests, n - 1);
    if n > i + 1 {
      BoundSince(states, clocks, requests, i, n - 1);
    }
    assert StepAt(states, clocks, requests, n - 1);
    var clock :| clocks[n - 1] <= clock && Bind(states[n - 1], clock, requests[n - 1], states[n], clocks[n]);
    BindNotBefore(states[n - 1], clock, requests[n - 1], states[n], clocks[n], requests[i]);
  }

  /** While the binding of a stream is retained, the generations accepted for it never go back, and two
      accepted requests of one generation ask for one and the same appearance. */
  lemma GenerationsNeverGoBack(states: seq<Bindings>, clocks: seq<nat>, requests: seq<Request>, i: nat, j: nat)
    requires Run(states, clocks, requests) && i < j < |requests| && requests[i].stream == requests[j].stream
    requires Accepted(states, requests, i) && Accepted(states, requests, j)
    requires forall k :: i < k <= j ==> requests[i].stream in states[k]
    ensures requests[i].generation <= requests[j].generation
    ensures requests[i].generation == requests[j].generation ==> requests[i].appearance == requests[j].appearance
  {
    BoundSince(states, clocks, requests, i, j);
  }

  /** At every point at most 128 streams are bound, and the stream accepted last is one of them. */
  lemma BindingsBounded(states: seq<Bindings>, clocks: seq<nat>, requests: seq<Request>, i: nat)
    requires Run(states, clocks, requests) && i < |requests|
    ensures |states[i + 1]| <= 128
    ensures Accepted(states, requests, i) ==> requests[i].stream in states[i + 1] && states[i + 1][requests[i].stream].generation == requests[i].generation
  {
    RunOk(states, clocks, requests, i);
    RunOk(states, clocks, requests, i + 1);
    assert StepAt(states, clocks, requests, i);
    var clock :| clocks[i] <= clock && Bind(states[i], clock, requests[i], states[i + 1], clocks[i + 1]);
    BindOk(states[i], clock, requests[i], states[i + 1], clocks[i + 1]);
  }
}
