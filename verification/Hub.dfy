/** The realtime hub: backend/internal/realtime/hub.go, used as backend/internal/api/handlers_realtime.go does.
    Every step is atomic, as the hub's lock and Go's channels make it. */
module Hub {
  import opened Options

  // The capacity of a client's channel.
  const CAPACITY: nat := 32

  type ClientId = nat

  /** A client: its channel, whether its connection was kept, and what its writer took so far. */
  datatype Client = Client(tenant: string, buffer: seq<string>, closed: bool, connected: bool, taken: seq<string>)

  /** The registered clients of each tenant, and all clients that were ever made. */
  datatype State = State(clients: map<string, set<ClientId>>, all: map<ClientId, Client>)

  datatype Step =
    | Register(c: ClientId, tenant: string)
    | Broadcast(tenant: string, payload: string)
    | Write(c: ClientId)
    | Unregister(c: ClientId)

  function Members(clients: map<string, set<ClientId>>, tenant: string): set<ClientId> {
    if tenant in clients then clients[tenant] else {}
  }

  /** A send that never blocks: a full buffer costs the client its connection, not the others theirs. */
  function Offered(cl: Client, payload: string): Client {
    if |cl.buffer| < CAPACITY then cl.(buffer := cl.buffer + [payload]) else cl.(connected := false)
  }

  function OfferedTo(all: map<ClientId, Client>, targets: set<ClientId>, payload: string): map<ClientId, Client> {
    map c | c in all :: if c in targets then Offered(all[c], payload) else all[c]
  }

  function Taken(cl: Client): Client {
    if cl.buffer == [] then cl else cl.(buffer := cl.buffer[1..], taken := cl.taken + [cl.buffer[0]])
  }

  function Left(clients: map<string, set<ClientId>>, tenant: string, c: ClientId): map<string, set<ClientId>> {
    if tenant !in clients then clients
    else if clients[tenant] - {c} == {} then clients - {tenant}
    else clients[tenant := clients[tenant] - {c}]
  }

  /** One step, or None where the Go program panics on a closed channel. */
  function Do(s: State, step: Step): Option<State> {
    match step
    case Register(c, tenant) =>
      Some(State(s.clients[tenant := Members(s.clients, tenant) + {c}],
                 s.all[c := Client(tenant, [], false, true, [])]))
    case Broadcast(tenant, payload) =>
      var targets := Members(s.clients, tenant);
      if exists c :: c in targets && c in s.all && s.all[c].closed then None
      else Some(s.(all := OfferedTo(s.all, targets, payload)))
    case Write(c) =>
      if c !in s.all then Some(s) else Some(s.(all := s.all[c := Taken(s.all[c])]))
    case Unregister(c) =>
      if c !in s.all then Some(s)
      else if s.all[c].closed then None
      else Some(State(Left(s.clients, s.all[c].tenant, c), s.all[c := s.all[c].(closed := true)]))
  }

  class Hub {
    var s: State

    constructor ()
      ensures s == State(map[], map[])
    {
      s := State(map[], map[]);
    }

    method Register(c: ClientId, tenant: string)
      requires c !in s.all
      modifies this
      ensures Some(s) == Do(old(s), Step.Register(c, tenant))
    {
      var clients := s.clients;
      if tenant !in clients {
        clients := clients[tenant := {}];
      }
      clients := clients[tenant := clients[tenant] + {c}];
      assert clients == s.clients[tenant := Members(s.clients, tenant) + {c}];
      s := State(clients, s.all[c := Client(tenant, [], false, true, [])]);
    }

    method Unregister(c: ClientId)
      requires c in s.all && !s.all[c].closed
      modifies this
      ensures Some(s) == Do(old(s), Step.Unregister(c))
    {
      var clients, tenant := s.clients, s.all[c].tenant;
      if tenant in clients {
        clients := clients[tenant := clients[tenant] - {c}];
        if |clients[tenant]| == 0 {
          clients := clients - {tenant};
        }
      }
      assert clients == Left(s.clients, tenant, c);
      s := State(clients, s.all[c := s.all[c].(closed := true)]);
    }

    method Broadcast(tenant: string, payload: string)
      requires forall c :: c in Members(s.clients, tenant) ==> c in s.all && !s.all[c].closed
      modifies this
      ensures Some(s) == Do(old(s), Step.Broadcast(tenant, payload))
    {
      var targets := if tenant in s.clients then s.clients[tenant] else {};
      var todo := targets;
      while todo != {}
        invariant todo <= targets == Members(old(s).clients, tenant)
        invariant s.clients == old(s).clients && s.all.Keys == old(s).all.Keys
        invariant s.all == OfferedTo(old(s).all, targets - todo, payload)
        decreases todo
      {
        var c :| c in todo;
        todo := todo - {c};
        var cl := s.all[c];
        if |cl.buffer| < CAPACITY {
          cl := cl.(buffer := cl.buffer + [payload]);
        } else {
          cl := cl.(connected := false);
        }
        s := s.(all := s.all[c := cl]);
      }
      assert s.all == OfferedTo(old(s).all, targets, payload);
    }

    // One turn of the client's writer loop.
    method Write(c: ClientId) returns (msg: Option<string>)
      requires c in s.all
      modifies this
      ensures Some(s) == Do(old(s), Step.Write(c))
      ensures msg == if old(s).all[c].buffer == [] then None else Some(old(s).all[c].buffer[0])
    {
      var cl := s.all[c];
      if |cl.buffer| == 0 {
        assert s.all[c := cl] == s.all;
        return None;
      }
      msg := Some(cl.buffer[0]);
      s := s.(all := s.all[c := cl.(buffer := cl.buffer[1..], taken := cl.taken + [cl.buffer[0]])]);
    }
  }

  // ----- every interleaving

  function Run(steps: seq<Step>): Option<State> {
    if steps == [] then Some(State(map[], map[]))
    else
      var s :- Run(steps[..|steps| - 1]);
      Do(s, steps[|steps| - 1])
  }

  ghost predicate Registered(steps: seq<Step>, c: ClientId) {
    exists i :: 0 <= i < |steps| && steps[i].Register? && steps[i].c == c
  }

  /** Every client object is registered once, before it is written for or unregistered. */
  ghost predicate Proper(steps: seq<Step>) {
    forall i :: 0 <= i < |steps| ==>
      match steps[i]
      case Register(c, _) => !Registered(steps[..i], c)
      case Write(c) => Registered(steps[..i], c)
      case Unregister(c) => Registered(steps[..i], c)
      case Broadcast(_, _) => true
  }

  ghost predicate UnregisteredBy(steps: seq<Step>, c: ClientId) {
    exists i :: 0 <= i < |steps| && steps[i] == Unregister(c)
  }

  /** The handler unregisters each client once. */
  ghost predicate UnregistersOnce(steps: seq<Step>) {
    forall i, c :: 0 <= i < |steps| && steps[i] == Unregister(c) ==> !UnregisteredBy(steps[..i], c)
  }

  /** The registered clients are exactly the ones whose channel is open, each under its own tenant. */
  ghost predicate Inv(s: State) {
    && (forall t :: t in s.clients ==> s.clients[t] != {})
    && (forall t, c :: t in s.clients && c in s.clients[t] ==> c in s.all && s.all[c].tenant == t && !s.all[c].closed)
    && (forall c :: c in s.all && !s.all[c].closed ==> c in Members(s.clients, s.all[c].tenant))
    && (forall c :: c in s.all ==> |s.all[c].buffer| <= CAPACITY)
  }

  lemma RegisterKeepsInv(s: State, c: ClientId, tenant: string)
    requires Inv(s) && c !in s.all
    ensures Do(s, Register(c, tenant)).Some? && Inv(Do(s, Register(c, tenant)).value)
  {
  }

  lemma BroadcastKeepsInv(s: State, tenant: string, payload: string)
    requires Inv(s)
    ensures Do(s, Broadcast(tenant, payload)).Some? && Inv(Do(s, Broadcast(tenant, payload)).value)
  {
  }

  lemma WriteKeepsInv(s: State, c: ClientId)
    requires Inv(s)
    ensures Do(s, Write(c)).Some? && Inv(Do(s, Write(c)).value)
  {
  }

  lemma UnregisterKeepsInv(s: State, c: ClientId)
    requires Inv(s)
    ensures Do(s, Unregister(c)).None? <==> c in s.all && s.all[c].closed
    ensures Do(s, Unregister(c)).Some? ==> Inv(Do(s, Unregister(c)).value)
  {
  }

  lemma DoKeepsInv(s: State, step: Step)
    requires Inv(s) && (step.Register? ==> step.c !in s.all)
    ensures Do(s, step).Some? ==> Inv(Do(s, step).value)
    ensures Do(s, step).None? <==> step.Unregister? && step.c in s.all && s.all[step.c].closed
  {
    hide Inv, Do;
    match step {
      case Register(c, tenant) => RegisterKeepsInv(s, c, tenant);
      case Broadcast(tenant, payload) => BroadcastKeepsInv(s, tenant, payload);
      case Write(c) => WriteKeepsInv(s, c);
      case Unregister(c) => UnregisterKeepsInv(s, c);
    }
  }

  /** What the run knows about each client: whether it exists, and whether it was unregistered. */
  ghost predicate Tracks(s: State, steps: seq<Step>) {
    && (forall c :: c in s.all <==> Registered(steps, c))
    && (forall c :: c in s.all ==> (s.all[c].closed <==> UnregisteredBy(steps, c)))
  }

  lemma RegisteredSnoc(steps: seq<Step>, step: Step, c: ClientId)
    ensures Registered(steps + [step], c) <==> Registered(steps, c) || (step.Register? && step.c == c)
    ensures UnregisteredBy(steps + [step], c) <==> UnregisteredBy(steps, c) || step == Unregister(c)
  {
    var all := steps + [step];
    assert all[|steps|] == step;
    assert forall i :: 0 <= i < |steps| ==> all[i] == steps[i];
  }

  lemma {:induction false} UnregisteredWasRegistered(steps: seq<Step>, c: ClientId)
    requires Proper(steps) && UnregisteredBy(steps, c)
    ensures Registered(steps, c)
  {
    var i :| 0 <= i < |steps| && steps[i] == Unregister(c);
    var j :| 0 <= j < i && steps[..i][j].Register? && steps[..i][j].c == c;
    assert steps[j].Register? && steps[j].c == c;
  }

  lemma ProperPrefix(steps: seq<Step>)
    requires steps != [] && Proper(steps)
    ensures Proper(steps[..|steps| - 1])
    ensures UnregistersOnce(steps) ==> UnregistersOnce(steps[..|steps| - 1])
  {
    var prev := steps[..|steps| - 1];
    assert forall i :: 0 <= i < |prev| ==> prev[i] == steps[i] && prev[..i] == steps[..i];
  }

  /** No step of an interleaving panics exactly when no client is unregistered twice; and then
      buffers stay within capacity and only open channels are registered. */
  lemma {:induction false} NoPanicIffOnce(steps: seq<Step>)
    requires Proper(steps)
    ensures Run(steps).Some? <==> UnregistersOnce(steps)
    ensures Run(steps).Some? ==> Inv(Run(steps).value) && Tracks(Run(steps).value, steps)
    ensures Run(steps).Some? ==>
              forall c :: c in Run(steps).value.all ==> |Run(steps).value.all[c].buffer| <= 32
  {
    if steps != [] {
      var n := |steps| - 1;
      var prev, step := steps[..n], steps[n];
      ProperPrefix(steps);
      NoPanicIffOnce(prev);
      assert prev + [step] == steps;
      if Run(prev).Some? {
        var s := Run(prev).value;
        StepTracks(s, prev, step);
        OnceSnoc(prev, step);
      }
    }
  }

  lemma OnceSnoc(steps: seq<Step>, step: Step)
    requires UnregistersOnce(steps)
    ensures UnregistersOnce(steps + [step]) <==> (step.Unregister? ==> !UnregisteredBy(steps, step.c))
  {
    var all := steps + [step];
    assert forall i :: 0 <= i < |steps| ==> all[i] == steps[i] && all[..i] == steps[..i];
    assert all[|steps|] == step && all[..|steps|] == steps;
  }

  lemma StepTracks(s: State, steps: seq<Step>, step: Step)
    requires Inv(s) && Tracks(s, steps) && Proper(steps + [step]) && Proper(steps)
    ensures Do(s, step).Some? <==> (step.Unregister? ==> !UnregisteredBy(steps, step.c))
    ensures Do(s, step).Some? ==> Inv(Do(s, step).value) && Tracks(Do(s, step).value, steps + [step])
  {
    var all := steps + [step];
    assert all[|steps|] == step && all[..|steps|] == steps;
    DoKeepsInv(s, step);
    forall c
      ensures Registered(all, c) <==> Registered(steps, c) || (step.Register? && step.c == c)
      ensures UnregisteredBy(all, c) <==> UnregisteredBy(steps, c) || step == Unregister(c)
    {
      RegisteredSnoc(steps, step, c);
    }
    if step.Register? && UnregisteredBy(steps, step.c) {
      UnregisteredWasRegistered(steps, step.c);
    }
  }

  // ----- what a client gets

  // One broadcast to a client, with the number of messages it found waiting.
  datatype Offer = Offer(payload: string, waiting: nat)

  predicate Concerns(s: State, step: Step, c: ClientId) {
    step.Broadcast? && c in s.all && !s.all[c].closed && s.all[c].tenant == step.tenant
  }

  /** The broadcasts of its own tenant while the client was registered, in order. */
  function Offers(steps: seq<Step>, c: ClientId): seq<Offer> {
    if steps == [] then []
    else
      var prev, step := steps[..|steps| - 1], steps[|steps| - 1];
      var s := Run(prev);
      Offers(prev, c)
      + if s.Some? && Concerns(s.value, step, c) then [Offer(step.payload, |s.value.all[c].buffer|)] else []
  }

  /** The offers that found room, in order. */
  function Accepted(offers: seq<Offer>): seq<string> {
    if offers == [] then []
    else
      var last := offers[|offers| - 1];
      Accepted(offers[..|offers| - 1]) + if last.waiting < CAPACITY then [last.payload] else []
  }

  lemma AcceptedSnoc(offers: seq<Offer>, o: Offer)
    ensures Accepted(offers + [o]) == Accepted(offers) + if o.waiting < CAPACITY then [o.payload] else []
  {
    assert (offers + [o])[..|offers|] == offers;
  }

  lemma WrittenIsMoved(cl: Client)
    ensures Taken(cl).taken + Taken(cl).buffer == cl.taken + cl.buffer
  {
    if cl.buffer != [] {
      assert cl.buffer == [cl.buffer[0]] + cl.buffer[1..];
    }
  }

  lemma OneStepDelivers(s: State, step: Step, c: ClientId)
    requires Inv(s) && c in s.all && Do(s, step).Some? && (step.Register? ==> step.c != c)
    ensures var cl := Do(s, step).value.all[c];
      cl.taken + cl.buffer == s.all[c].taken + s.all[c].buffer
        + if Concerns(s, step, c) && |s.all[c].buffer| < CAPACITY then [step.payload] else []
  {
    WrittenIsMoved(s.all[c]);
    var was := s.all[c];
    if step.Broadcast? {
      assert was.taken + (was.buffer + [step.payload]) == was.taken + was.buffer + [step.payload];
    }
  }

  lemma {:induction false} NothingBeforeRegistering(steps: seq<Step>, c: ClientId)
    requires Proper(steps) && Run(steps).Some? && c !in Run(steps).value.all
    ensures Offers(steps, c) == []
  {
    if steps != [] {
      var n := |steps| - 1;
      ProperPrefix(steps);
      NoPanicIffOnce(steps[..n]);
      NothingBeforeRegistering(steps[..n], c);
    }
  }

  lemma RegisteredOnce(steps: seq<Step>, c: ClientId)
    requires steps != [] && Proper(steps) && Run(steps[..|steps| - 1]).Some?
    requires Tracks(Run(steps[..|steps| - 1]).value, steps[..|steps| - 1])
    ensures var (s, step) := (Run(steps[..|steps| - 1]).value, steps[|steps| - 1]);
      step.Register? && step.c == c ==> c !in s.all
  {
  }

  /** In every interleaving, what a client's writer took, followed by what waits in its channel, is its
      own tenant's broadcasts since it registered, in order, without those that found the channel full. */
  lemma {:induction false} ClientsGetTheirBroadcasts(steps: seq<Step>, c: ClientId)
    requires Proper(steps) && Run(steps).Some? && c in Run(steps).value.all
    ensures var cl := Run(steps).value.all[c];
      cl.taken + cl.buffer == Accepted(Offers(steps, c))
  {
    hide Inv, Proper, Tracks, Accepted;
    var n := |steps| - 1;
    var prev, step := steps[..n], steps[n];
    ProperPrefix(steps);
    NoPanicIffOnce(prev);
    var s := Run(prev).value;
    if c in s.all {
      ClientsGetTheirBroadcasts(prev, c);
      RegisteredOnce(steps, c);
      OneStepDelivers(s, step, c);
      var offers := Offers(prev, c);
      assert offers + [] == offers && Accepted(offers) + [] == Accepted(offers);
      AcceptedSnoc(offers, Offer(if step.Broadcast? then step.payload else "", |s.all[c].buffer|));
    } else {
      NothingBeforeRegistering(prev, c);
      AcceptedNone();
    }
  }

  lemma AcceptedNone()
    ensures Accepted([]) == []
  {
  }

  lemma ConnectionAfter(s: State, step: Step, c: ClientId)
    requires Inv(s) && c in s.all && Do(s, step).Some? && (step.Register? ==> step.c != c)
    ensures Do(s, step).value.all[c].connected
            <==> s.all[c].connected && !(Concerns(s, step, c) && |s.all[c].buffer| >= 32)
  {
  }

  /** In every interleaving a client keeps its connection exactly as long as none of its tenant's broadcasts
      finds 32 messages waiting for it. */
  lemma {:induction false} ConnectedUntilFull(steps: seq<Step>, c: ClientId)
    requires Proper(steps) && Run(steps).Some? && c in Run(steps).value.all
    ensures Run(steps).value.all[c].connected <==> forall o :: o in Offers(steps, c) ==> o.waiting < 32
  {
    hide Inv, Proper, Tracks;
    var n := |steps| - 1;
    var prev, step := steps[..n], steps[n];
    ProperPrefix(steps);
    NoPanicIffOnce(prev);
    var s := Run(prev).value;
    if c in s.all {
      ConnectedUntilFull(prev, c);
      RegisteredOnce(steps, c);
      ConnectionAfter(s, step, c);
      var offers := Offers(prev, c);
      assert Offers(steps, c) == offers
        + if Concerns(s, step, c) then [Offer(step.payload, |s.all[c].buffer|)] else [];
    } else {
      NothingBeforeRegistering(prev, c);
      assert !Concerns(s, step, c) && Offers(steps, c) == [];
    }
  }
}
