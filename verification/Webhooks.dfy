/** The webhook dispatcher: backend/internal/outwebhook/outwebhook.go.
    Workers, the queue and the delayed retries are interleaved step by step; the endpoints that are
    subscribed, and how each POST ends, are up to the outside world. */
module Webhooks {

  /** An event, numbered by its call of Dispatch. */
  datatype Event = Event(id: nat, tenant: string, kind: string)

  datatype Worker = Idle | Holding(ev: Event) | Delivering(ev: Event, rest: seq<string>)

  /** How one delivery ends: no request could be built, no answer came, or an answer came. */
  datatype Ending = Unbuilt | NoAnswer | Answer(status: int)

  /** One call of LogWebhookDelivery. */
  datatype Entry = Entry(id: nat, endpoint: string, attempt: nat, ending: Ending)

  datatype Retry = Retry(ev: Event, endpoint: string)

  datatype State = State(
    next: nat,
    queue: seq<Event>,
    workers: seq<Worker>,
    retries: set<Retry>,
    log: seq<Entry>,
    ignored: set<nat>,
    dropped: set<nat>,
    handled: set<nat>,
    listed: set<(nat, string)>)

  datatype Step =
    | Dispatch(tenant: string, kind: string)
    | Take(w: nat)
    | List(w: nat, endpoints: seq<string>, dbOk: bool)
    | Deliver(w: nat, ending: Ending)
    | Fire(retry: Retry, ending: Ending)

  function Initial(workers: int): State {
    State(0, [], seq(if workers <= 0 then 4 else workers, _ => Idle), {}, [], {}, {}, {}, {})
  }

  function Capacity(queueSize: int): int {
    if queueSize <= 0 then 1024 else queueSize
  }

  predicate Success(e: Ending) {
    e.Answer? && e.status < 300
  }

  /** Only a request that went out is tried again, and only once. */
  predicate Retried(attempt: nat, e: Ending) {
    !e.Unbuilt? && !Success(e) && attempt < 2
  }

  function Delivered(s: State, ev: Event, endpoint: string, attempt: nat, e: Ending): State {
    s.(log := s.log + [Entry(ev.id, endpoint, attempt, e)],
       retries := if Retried(attempt, e) then s.retries + {Retry(ev, endpoint)} else s.retries)
  }

  /** The worker goes on with the rest of the endpoints, or is done with the event. */
  function Continue(s: State, w: nat, ev: Event, rest: seq<string>): State
    requires w < |s.workers|
  {
    if rest == [] then s.(workers := s.workers[w := Idle], handled := s.handled + {ev.id})
    else s.(workers := s.workers[w := Delivering(ev, rest)])
  }

  /** Can the step happen? */
  predicate Enabled(s: State, step: Step) {
    match step
    case Dispatch(_, _) => true
    case Take(w) => w < |s.workers| && s.workers[w].Idle? && s.queue != []
    case List(w, _, _) => w < |s.workers| && s.workers[w].Holding?
    case Deliver(w, _) => w < |s.workers| && s.workers[w].Delivering? && s.workers[w].rest != []
    case Fire(r, _) => r in s.retries
  }

  function Do(s: State, step: Step, capacity: int): State
    requires Enabled(s, step)
  {
    match step
    case Dispatch(tenant, kind) =>
      var s' := s.(next := s.next + 1);
      if tenant == "" || kind == "" then s'.(ignored := s.ignored + {s.next})
      else if |s.queue| < capacity then s'.(queue := s.queue + [Event(s.next, tenant, kind)])
      else s'.(dropped := s.dropped + {s.next})
    case Take(w) => s.(workers := s.workers[w := Holding(s.queue[0])], queue := s.queue[1..])
    case List(w, endpoints, dbOk) =>
      var ev := s.workers[w].ev;
      if !dbOk then Continue(s, w, ev, [])
      else Continue(s.(listed := s.listed + set ep | ep in endpoints :: (ev.id, ep)), w, ev, endpoints)
    case Deliver(w, e) =>
      var Delivering(ev, rest) := s.workers[w];
      Continue(Delivered(s, ev, rest[0], 1, e), w, ev, rest[1..])
    case Fire(r, e) => Delivered(s.(retries := s.retries - {r}), r.ev, r.endpoint, 2, e)
  }

  class Dispatcher {
    var s: State
    const capacity: int

    constructor (workers: int, queueSize: int)
      ensures s == Initial(workers) && capacity == Capacity(queueSize)
      ensures |s.workers| == (if workers <= 0 then 4 else workers)
      ensures capacity == (if queueSize <= 0 then 1024 else queueSize)
    {
      var n := workers;
      if n <= 0 {
        n := 4;
      }
      capacity := if queueSize <= 0 then 1024 else queueSize;
      s := State(0, [], seq(n, _ => Idle), {}, [], {}, {}, {}, {});
    }

    // Never blocks: a full queue drops the event.
    method Dispatch(tenant: string, kind: string)
      modifies this
      ensures s == Do(old(s), Step.Dispatch(tenant, kind), capacity)
    {
      var id := s.next;
      s := s.(next := id + 1);
      if tenant == "" || kind == "" {
        s := s.(ignored := s.ignored + {id});
        return;
      }
      if |s.queue| < capacity {
        s := s.(queue := s.queue + [Event(id, tenant, kind)]);
      } else {
        s := s.(dropped := s.dropped + {id});
      }
    }

    // The worker loop and handle(), cut at the points where other goroutines may run.
    method Take(w: nat)
      requires Enabled(s, Step.Take(w))
      modifies this
      ensures s == Do(old(s), Step.Take(w), capacity)
    {
      var ev := s.queue[0];
      s := s.(queue := s.queue[1..]);
      s := s.(workers := s.workers[w := Holding(ev)]);
    }

    method ListEndpoints(w: nat, endpoints: seq<string>, dbOk: bool)
      requires Enabled(s, List(w, endpoints, dbOk))
      modifies this
      ensures s == Do(old(s), List(w, endpoints, dbOk), capacity)
    {
      var ev := s.workers[w].ev;
      if !dbOk {
        s := s.(workers := s.workers[w := Idle], handled := s.handled + {ev.id});
        return;
      }
      s := s.(listed := s.listed + set ep | ep in endpoints :: (ev.id, ep));
      if |endpoints| == 0 {
        s := s.(workers := s.workers[w := Idle], handled := s.handled + {ev.id});
      } else {
        s := s.(workers := s.workers[w := Delivering(ev, endpoints)]);
      }
    }

    method DeliverNext(w: nat, ending: Ending)
      requires Enabled(s, Step.Deliver(w, ending))
      modifies this
      ensures s == Do(old(s), Step.Deliver(w, ending), capacity)
    {
      var ev, rest := s.workers[w].ev, s.workers[w].rest;
      Deliver(ev, rest[0], 1, ending);
      rest := rest[1..];
      if |rest| == 0 {
        s := s.(workers := s.workers[w := Idle], handled := s.handled + {ev.id});
      } else {
        s := s.(workers := s.workers[w := Delivering(ev, rest)]);
      }
    }

    method FireRetry(r: Retry, ending: Ending)
      requires Enabled(s, Fire(r, ending))
      modifies this
      ensures s == Do(old(s), Fire(r, ending), capacity)
    {
      s := s.(retries := s.retries - {r});
      Deliver(r.ev, r.endpoint, 2, ending);
    }

    method Deliver(ev: Event, endpoint: string, attempt: nat, ending: Ending)
      modifies this
      ensures s == Delivered(old(s), ev, endpoint, attempt, ending)
    {
      if ending.Unbuilt? {
        s := s.(log := s.log + [Entry(ev.id, endpoint, attempt, ending)]);
        return;
      }
      if ending.NoAnswer? || ending.status >= 300 {
        s := s.(log := s.log + [Entry(ev.id, endpoint, attempt, ending)]);
        MaybeRetry(ev, endpoint, attempt);
        return;
      }
      s := s.(log := s.log + [Entry(ev.id, endpoint, attempt, ending)]);
    }

    method MaybeRetry(ev: Event, endpoint: string, attempt: nat)
      modifies this
      ensures s == if attempt >= 2 then old(s) else old(s).(retries := old(s).retries + {Retry(ev, endpoint)})
    {
      if attempt >= 2 {
        return;
      }
      s := s.(retries := s.retries + {Retry(ev, endpoint)});
    }
  }

  // ----- every run

  /** Endpoints are listed by their ids, so a listing never repeats one. */
  ghost predicate Distinct(xs: seq<string>) {
    forall i, j :: 0 <= i < j < |xs| ==> xs[i] != xs[j]
  }

  ghost predicate Possible(s: State, step: Step) {
    Enabled(s, step) && (step.List? ==> Distinct(step.endpoints))
  }

  /** A run: from the initial state, one possible step after the other. */
  ghost predicate Reaches(workers: int, capacity: int, steps: seq<Step>, s: State) {
    if steps == [] then s == Initial(workers)
    else
      var last := steps[|steps| - 1];
      exists prev :: Reaches(workers, capacity, steps[..|steps| - 1], prev)
                     && Possible(prev, last) && s == Do(prev, last, capacity)
  }

  // ----- where events are

  ghost predicate InQueue(s: State, id: nat) {
    exists i :: 0 <= i < |s.queue| && s.queue[i].id == id
  }

  ghost predicate InWorker(s: State, id: nat) {
    exists w :: 0 <= w < |s.workers| && !s.workers[w].Idle? && s.workers[w].ev.id == id
  }

  /** Nothing waits or is worked on twice. */
  ghost predicate NoCopies(s: State) {
    && (forall i, j :: 0 <= i < j < |s.queue| ==> s.queue[i].id != s.queue[j].id)
    && (forall v, w :: 0 <= v < w < |s.workers| && !s.workers[v].Idle? && !s.workers[w].Idle? ==>
          s.workers[v].ev.id != s.workers[w].ev.id)
    && (forall i, w :: 0 <= i < |s.queue| && 0 <= w < |s.workers| && !s.workers[w].Idle? ==>
          s.queue[i].id != s.workers[w].ev.id)
  }

  /** Every dispatched event is in exactly one place. */
  ghost predicate Located(s: State) {
    && NoCopies(s)
    && (forall id: nat :: id in s.ignored || id in s.dropped || id in s.handled || InQueue(s, id) || InWorker(s, id)
          <==> id < s.next)
    && s.ignored !! s.dropped !! s.handled
    && (forall id :: InQueue(s, id) || InWorker(s, id) ==> id !in s.ignored + s.dropped + s.handled)
  }

  lemma DispatchLocates(s: State, step: Step, capacity: int)
    requires Located(s) && step.Dispatch?
    ensures Located(Do(s, step, capacity))
  {
    var s' := Do(s, step, capacity);
    assert forall id :: InWorker(s', id) <==> InWorker(s, id);
    var grows := |s'.queue| > |s.queue|;
    assert grows ==> s'.queue[|s.queue|].id == s.next;
    assert forall i :: 0 <= i < |s.queue| ==> s'.queue[i] == s.queue[i];
    assert forall id :: InQueue(s', id) <==> InQueue(s, id) || (grows && id == s.next);
    forall i | 0 <= i < |s.queue|
      ensures s.queue[i].id < s.next
    {
      assert InQueue(s, s.queue[i].id);
    }
    forall w | 0 <= w < |s.workers| && !s.workers[w].Idle?
      ensures s.workers[w].ev.id < s.next
    {
      assert InWorker(s, s.workers[w].ev.id);
    }
  }

  lemma TakeLocates(s: State, w: nat, capacity: int)
    requires Located(s) && Enabled(s, Take(w))
    ensures Located(Do(s, Take(w), capacity))
  {
    var s' := Do(s, Take(w), capacity);
    var id0 := s.queue[0].id;
    assert s'.workers[w].ev.id == id0;
    forall id
      ensures InQueue(s', id) <==> InQueue(s, id) && id != id0
      ensures InWorker(s', id) <==> InWorker(s, id) || id == id0
    {
      if InQueue(s, id) && id != id0 {
        var i :| 0 <= i < |s.queue| && s.queue[i].id == id;
        assert s'.queue[i - 1].id == id;
      }
      if InWorker(s, id) {
        var v :| 0 <= v < |s.workers| && !s.workers[v].Idle? && s.workers[v].ev.id == id;
        assert s'.workers[v].ev.id == id;
      }
    }
    assert InQueue(s, id0);
  }

  lemma ContinueLocates(s: State, w: nat, ev: Event, rest: seq<string>)
    requires Located(s) && w < |s.workers| && !s.workers[w].Idle? && s.workers[w].ev == ev
    ensures Located(Continue(s, w, ev, rest))
  {
    var s' := Continue(s, w, ev, rest);
    forall id
      ensures InWorker(s', id) <==> InWorker(s, id) && (rest != [] || id != ev.id)
      ensures InQueue(s', id) <==> InQueue(s, id)
    {
      if InWorker(s, id) {
        var v :| 0 <= v < |s.workers| && !s.workers[v].Idle? && s.workers[v].ev.id == id;
        assert v != w ==> s'.workers[v] == s.workers[v];
        assert v == w && rest != [] ==> s'.workers[w].ev.id == id;
      }
    }
    assert InWorker(s, ev.id);
  }

  /** The parts that say where events are. */
  ghost predicate SamePlaces(a: State, b: State) {
    && a.next == b.next && a.queue == b.queue && a.workers == b.workers
    && a.ignored == b.ignored && a.dropped == b.dropped && a.handled == b.handled
  }

  lemma SamePlacesLocated(a: State, b: State)
    requires SamePlaces(a, b) && Located(a)
    ensures Located(b)
  {
    assert forall id :: InQueue(a, id) <==> InQueue(b, id);
    assert forall id :: InWorker(a, id) <==> InWorker(b, id);
  }

  lemma StepLocates(s: State, step: Step, capacity: int)
    requires Located(s) && Enabled(s, step)
    ensures Located(Do(s, step, capacity))
  {
    match step {
      case Dispatch(_, _) => DispatchLocates(s, step, capacity);
      case Take(w) => TakeLocates(s, w, capacity);
      case List(w, endpoints, dbOk) =>
        var ev := s.workers[w].ev;
        var s1 := s.(listed := s.listed + set ep | ep in endpoints :: (ev.id, ep));
        SamePlacesLocated(s, s1);
        ContinueLocates(s, w, ev, []);
        ContinueLocates(s1, w, ev, endpoints);
      case Deliver(w, e) =>
        var Delivering(ev, rest) := s.workers[w];
        SamePlacesLocated(s, Delivered(s, ev, rest[0], 1, e));
        ContinueLocates(Delivered(s, ev, rest[0], 1, e), w, ev, rest[1..]);
      case Fire(r, e) =>
        SamePlacesLocated(s, Do(s, step, capacity));
    }
  }

  // ----- what happens to one event at one endpoint

  /** The deliveries of an event to an endpoint, in order. */
  function History(log: seq<Entry>, id: nat, endpoint: string): seq<Entry> {
    if log == [] then []
    else
      var last := log[|log| - 1];
      History(log[..|log| - 1], id, endpoint) + if last.id == id && last.endpoint == endpoint then [last] else []
  }

  ghost predicate Owed(s: State, id: nat, endpoint: string) {
    exists w :: 0 <= w < |s.workers| && s.workers[w].Delivering? && s.workers[w].ev.id == id
                && endpoint in s.workers[w].rest
  }

  ghost predicate Awaited(s: State, id: nat, endpoint: string) {
    exists r :: r in s.retries && r.ev.id == id && r.endpoint == endpoint
  }

  /** One failed first attempt that is to be retried. */
  predicate FirstFailed(h: seq<Entry>) {
    |h| == 1 && h[0].attempt == 1 && Retried(1, h[0].ending)
  }

  /** One attempt that is not retried, or two of which the first failed. */
  predicate Settled(h: seq<Entry>) {
    || (|h| == 1 && h[0].attempt == 1 && !Retried(1, h[0].ending))
    || (|h| == 2 && FirstFailed([h[0]]) && h[1].attempt == 2)
  }

  /** A pair is not subscribed, owed a first attempt, waiting for its retry, or settled. */
  predicate PairState(subscribed: bool, h: seq<Entry>, owed: bool, awaited: bool) {
    if !subscribed then h == [] && !owed && !awaited
    else (h == [] && owed && !awaited) || (FirstFailed(h) && !owed && awaited) || (Settled(h) && !owed && !awaited)
  }

  ghost predicate PairInv(s: State, id: nat, endpoint: string) {
    PairState((id, endpoint) in s.listed, History(s.log, id, endpoint), Owed(s, id, endpoint), Awaited(s, id, endpoint))
  }

  lemma FirstAttempt(h: seq<Entry>, awaited: bool, e: Entry)
    requires PairState(true, h, true, awaited) && e.attempt == 1
    ensures PairState(true, h + [e], false, Retried(1, e.ending))
  {
    assert h + [e] == [e];
  }

  lemma SecondAttempt(h: seq<Entry>, owed: bool, e: Entry)
    requires PairState(true, h, owed, true) && e.attempt == 2
    ensures PairState(true, h + [e], owed, false)
  {
    assert h + [e] == [h[0], e] && h == [h[0]];
  }

  /** Events that no worker has started on have no subscribed endpoints yet. */
  ghost predicate FreshInv(s: State) {
    && (forall id, ep :: (id, ep) in s.listed ==> id < s.next && !InQueue(s, id))
    && (forall w, ep :: 0 <= w < |s.workers| && s.workers[w].Holding? ==> (s.workers[w].ev.id, ep) !in s.listed)
  }

  ghost predicate Inv(s: State) {
    && Located(s)
    && FreshInv(s)
    && (forall w :: 0 <= w < |s.workers| && s.workers[w].Delivering? ==> Distinct(s.workers[w].rest))
    && (forall r1, r2 :: r1 in s.retries && r2 in s.retries && r1.ev.id == r2.ev.id && r1.endpoint == r2.endpoint
          ==> r1 == r2)
    && (forall id, ep :: PairInv(s, id, ep))
  }

  lemma HistorySnoc(log: seq<Entry>, e: Entry, id: nat, endpoint: string)
    ensures History(log + [e], id, endpoint)
            == History(log, id, endpoint) + if e.id == id && e.endpoint == endpoint then [e] else []
  {
    assert (log + [e])[..|log|] == log;
  }

  lemma DispatchKeepsInv(s: State, step: Step, capacity: int)
    requires Inv(s) && step.Dispatch?
    ensures Inv(Do(s, step, capacity))
  {
    hide Located, PairState, History;
    var s' := Do(s, step, capacity);
    StepLocates(s, step, capacity);
    forall id, ep
      ensures PairInv(s', id, ep)
    {
      assert PairInv(s, id, ep);
      assert Owed(s', id, ep) <==> Owed(s, id, ep);
    }
    assert forall id :: InQueue(s', id) ==> InQueue(s, id) || id == s.next;
  }

  lemma TakeKeepsInv(s: State, w: nat, capacity: int)
    requires Inv(s) && Enabled(s, Take(w))
    ensures Inv(Do(s, Take(w), capacity))
  {
    hide Located, PairState, History;
    var s' := Do(s, Take(w), capacity);
    StepLocates(s, Take(w), capacity);
    assert InQueue(s, s.queue[0].id);
    forall id, ep
      ensures PairInv(s', id, ep)
    {
      assert PairInv(s, id, ep);
      OwedElsewhere(s, s', w, id, ep);
    }
    assert forall i :: 0 <= i < |s'.queue| ==> s'.queue[i] == s.queue[i + 1];
    assert forall id :: InQueue(s', id) ==> InQueue(s, id);
  }

  /** A worker that delivers nothing before and after owes nothing. */
  lemma OwedElsewhere(s: State, s': State, w: nat, id: nat, ep: string)
    requires w < |s.workers| == |s'.workers|
    requires !s.workers[w].Delivering? && !s'.workers[w].Delivering?
    requires forall v :: 0 <= v < |s.workers| && v != w ==> s'.workers[v] == s.workers[v]
    ensures Owed(s', id, ep) <==> Owed(s, id, ep)
  {
    if Owed(s, id, ep) {
      var v :| 0 <= v < |s.workers| && s.workers[v].Delivering? && s.workers[v].ev.id == id && ep in s.workers[v].rest;
      assert s'.workers[v] == s.workers[v];
    }
  }

  lemma ListKeepsInv(s: State, w: nat, endpoints: seq<string>, dbOk: bool, capacity: int)
    requires Inv(s) && Possible(s, List(w, endpoints, dbOk))
    ensures Inv(Do(s, List(w, endpoints, dbOk), capacity))
  {
    var step := List(w, endpoints, dbOk);
    var s' := Do(s, step, capacity);
    var ev := s.workers[w].ev;
    StepLocates(s, step, capacity);
    assert InWorker(s, ev.id);
    assert forall id :: InQueue(s', id) <==> InQueue(s, id);
    forall id, ep
      ensures PairInv(s', id, ep)
    {
      assert PairInv(s, id, ep);
      if dbOk && endpoints != [] {
        OwedAfterListing(s, s', w, endpoints, id, ep);
      } else {
        OwedElsewhere(s, s', w, id, ep);
      }
    }
  }

  lemma OwedAfterListing(s: State, s': State, w: nat, endpoints: seq<string>, id: nat, ep: string)
    requires w < |s.workers| && s.workers[w].Holding?
    requires s'.workers == s.workers[w := Delivering(s.workers[w].ev, endpoints)]
    ensures Owed(s', id, ep) <==> Owed(s, id, ep) || (id == s.workers[w].ev.id && ep in endpoints)
  {
    if Owed(s, id, ep) {
      var v :| 0 <= v < |s.workers| && s.workers[v].Delivering? && s.workers[v].ev.id == id && ep in s.workers[v].rest;
      assert s'.workers[v] == s.workers[v];
    }
    assert s'.workers[w] == Delivering(s.workers[w].ev, endpoints);
  }

  lemma DeliverKeepsPair(s: State, w: nat, e: Ending, capacity: int, id: nat, ep: string)
    requires Inv(s) && Enabled(s, Deliver(w, e))
    ensures PairInv(Do(s, Deliver(w, e), capacity), id, ep)
  {
    hide Located, FreshInv, PairState, History;
    var s' := Do(s, Deliver(w, e), capacity);
    var Delivering(ev, rest) := s.workers[w];
    var entry := Entry(ev.id, rest[0], 1, e);
    assert Owed(s, ev.id, rest[0]);
    assert PairInv(s, id, ep);
    AwaitedAfter(s, s', Retry(ev, rest[0]), Retried(1, e));
    HistorySnoc(s.log, entry, id, ep);
    LocatedHasNoCopies(s);
    OwedAfterDelivery(s, s', w, id, ep);
    var h := History(s.log, id, ep);
    hide Owed, Awaited;
    if id == ev.id && ep == rest[0] {
      OwedIsListed(s, id, ep);
      FirstAttempt(h, Awaited(s, id, ep), entry);
    } else {
      assert h + [] == h;
    }
  }

  lemma OwedIsListed(s: State, id: nat, ep: string)
    requires PairInv(s, id, ep) && (Owed(s, id, ep) || Awaited(s, id, ep))
    ensures (id, ep) in s.listed
    ensures Owed(s, id, ep) ==> !Awaited(s, id, ep)
  {
  }

  lemma LocatedHasNoCopies(s: State)
    requires Located(s)
    ensures NoCopies(s)
  {
  }

  lemma DeliverKeepsInv(s: State, w: nat, e: Ending, capacity: int)
    requires Inv(s) && Enabled(s, Deliver(w, e))
    ensures Inv(Do(s, Deliver(w, e), capacity))
  {
    hide History;
    var s' := Do(s, Deliver(w, e), capacity);
    var Delivering(ev, rest) := s.workers[w];
    StepLocates(s, Deliver(w, e), capacity);
    assert InWorker(s, ev.id);
    assert forall id :: InQueue(s', id) <==> InQueue(s, id);
    forall id, ep
      ensures PairInv(s', id, ep)
    {
      DeliverKeepsPair(s, w, e, capacity, id, ep);
    }
    assert PairInv(s, ev.id, rest[0]) && Owed(s, ev.id, rest[0]);
  }

  lemma OwedAfterDelivery(s: State, s': State, w: nat, id: nat, ep: string)
    requires NoCopies(s) && w < |s.workers| && s.workers[w].Delivering? && s.workers[w].rest != []
    requires Distinct(s.workers[w].rest)
    requires var Delivering(ev, rest) := s.workers[w];
      s'.workers == s.workers[w := if rest[1..] == [] then Idle else Delivering(ev, rest[1..])]
    ensures Owed(s', id, ep) <==> Owed(s, id, ep) && !(id == s.workers[w].ev.id && ep == s.workers[w].rest[0])
  {
    var Delivering(ev, rest) := s.workers[w];
    assert forall x :: x in rest[1..] <==> x in rest && x != rest[0];
    if Owed(s, id, ep) && !(id == ev.id && ep == rest[0]) {
      var v :| 0 <= v < |s.workers| && s.workers[v].Delivering? && s.workers[v].ev.id == id && ep in s.workers[v].rest;
      if v == w {
        assert ep in s'.workers[w].rest;
      } else {
        assert s'.workers[v] == s.workers[v];
      }
    }
  }

  lemma AwaitedAfter(s: State, s': State, r: Retry, added: bool)
    requires s'.retries == if added then s.retries + {r} else s.retries
    ensures forall id, ep :: Awaited(s', id, ep) <==>
              Awaited(s, id, ep) || (added && id == r.ev.id && ep == r.endpoint)
  {
    forall id, ep
      ensures Awaited(s', id, ep) <==> Awaited(s, id, ep) || (added && id == r.ev.id && ep == r.endpoint)
    {
      if Awaited(s, id, ep) {
        var q :| q in s.retries && q.ev.id == id && q.endpoint == ep;
        assert q in s'.retries;
      }
      assert added ==> r in s'.retries;
    }
  }

  lemma FireKeepsInv(s: State, r: Retry, e: Ending, capacity: int)
    requires Inv(s) && Enabled(s, Fire(r, e))
    ensures Inv(Do(s, Fire(r, e), capacity))
  {
    hide Located, PairState, History;
    var s' := Do(s, Fire(r, e), capacity);
    StepLocates(s, Fire(r, e), capacity);
    assert forall id :: InQueue(s', id) <==> InQueue(s, id);
    forall id, ep
      ensures PairInv(s', id, ep)
    {
      FireKeepsPair(s, r, e, capacity, id, ep);
    }
  }

  lemma FireKeepsPair(s: State, r: Retry, e: Ending, capacity: int, id: nat, ep: string)
    requires Inv(s) && Enabled(s, Fire(r, e))
    ensures PairInv(Do(s, Fire(r, e), capacity), id, ep)
  {
    hide Located, FreshInv, PairState, History;
    var s' := Do(s, Fire(r, e), capacity);
    var entry := Entry(r.ev.id, r.endpoint, 2, e);
    assert PairInv(s, id, ep);
    HistorySnoc(s.log, entry, id, ep);
    assert Owed(s', id, ep) <==> Owed(s, id, ep);
    var h := History(s.log, id, ep);
    if id == r.ev.id && ep == r.endpoint {
      assert Awaited(s, id, ep) && !Awaited(s', id, ep);
      OwedIsListed(s, id, ep);
      SecondAttempt(h, Owed(s, id, ep), entry);
    } else {
      if Awaited(s, id, ep) {
        var q :| q in s.retries && q.ev.id == id && q.endpoint == ep;
        assert q in s'.retries;
      }
      assert Awaited(s', id, ep) <==> Awaited(s, id, ep);
      assert h + [] == h;
    }
  }

  lemma StepKeepsInv(s: State, step: Step, capacity: int)
    requires Inv(s) && Possible(s, step)
    ensures Inv(Do(s, step, capacity))
  {
    hide Inv;
    match step {
      case Dispatch(_, _) => DispatchKeepsInv(s, step, capacity);
      case Take(w) => TakeKeepsInv(s, w, capacity);
      case List(w, endpoints, dbOk) => ListKeepsInv(s, w, endpoints, dbOk, capacity);
      case Deliver(w, e) => DeliverKeepsInv(s, w, e, capacity);
      case Fire(r, e) => FireKeepsInv(s, r, e, capacity);
    }
  }

  lemma InitialInv(workers: int)
    ensures Inv(Initial(workers))
  {
  }

  lemma {:induction false} EveryRunKeepsInv(workers: int, capacity: int, steps: seq<Step>, s: State)
    requires Reaches(workers, capacity, steps, s)
    ensures Inv(s)
  {
    hide Inv, Do;
    if steps == [] {
      InitialInv(workers);
    } else {
      var last := steps[|steps| - 1];
      var prev :| Reaches(workers, capacity, steps[..|steps| - 1], prev)
                  && Possible(prev, last) && s == Do(prev, last, capacity);
      EveryRunKeepsInv(workers, capacity, steps[..|steps| - 1], prev);
      StepKeepsInv(prev, last, capacity);
    }
  }

  // ----- what every run guarantees

  function Posts(h: seq<Entry>): nat {
    if h == [] then 0 else Posts(h[..|h| - 1]) + if h[|h| - 1].ending.Unbuilt? then 0 else 1
  }

  function Successes(h: seq<Entry>): nat {
    if h == [] then 0 else Successes(h[..|h| - 1]) + if Success(h[|h| - 1].ending) then 1 else 0
  }

  /** In every run each event is in one place, and each event gets at most two POSTs and one success
      at an endpoint, the second attempt only after a first that went out and failed. */
  lemma AtMostOneRetry(workers: int, capacity: int, steps: seq<Step>, s: State, id: nat, endpoint: string)
    requires Reaches(workers, capacity, steps, s)
    ensures Located(s)
    ensures var h := History(s.log, id, endpoint);
      && |h| <= 2 && Posts(h) <= 2 && Successes(h) <= 1
      && (|h| >= 1 ==> h[0].attempt == 1)
      && (|h| == 2 ==> h[1].attempt == 2 && !h[0].ending.Unbuilt? && !Success(h[0].ending))
  {
    EveryRunKeepsInv(workers, capacity, steps, s);
    assert PairInv(s, id, endpoint);
    Bounds(History(s.log, id, endpoint));
  }

  lemma Bounds(h: seq<Entry>)
    requires h == [] || FirstFailed(h) || Settled(h)
    ensures |h| <= 2 && Posts(h) <= 2 && Successes(h) <= 1
    ensures |h| == 2 ==> !h[0].ending.Unbuilt? && !Success(h[0].ending)
  {
    if |h| == 2 {
      assert h[..1] == [h[0]] && [h[0]][..0] == [];
    } else if |h| == 1 {
      assert h[..0] == [];
    }
  }

  /** Nothing is left to do. */
  ghost predicate Quiet(s: State) {
    && s.queue == [] && s.retries == {}
    && forall w :: 0 <= w < |s.workers| ==> s.workers[w].Idle?
  }

  /** Once a run is quiet, every event was ignored, dropped or handled, and every subscribed endpoint
      of a handled event had its first attempt, and a second one exactly if the first went out and failed. */
  lemma QuietMeansSettled(workers: int, capacity: int, steps: seq<Step>, s: State)
    requires Reaches(workers, capacity, steps, s) && Quiet(s)
    ensures forall id: nat :: id < s.next <==> id in s.ignored + s.dropped + s.handled
    ensures forall id: nat, ep :: if (id, ep) in s.listed then Settled(History(s.log, id, ep))
                             else History(s.log, id, ep) == []
  {
    EveryRunKeepsInv(workers, capacity, steps, s);
    forall id: nat, ep
      ensures if (id, ep) in s.listed then Settled(History(s.log, id, ep)) else History(s.log, id, ep) == []
    {
      assert PairInv(s, id, ep);
    }
  }

  /** In every run, a retry of a pair is pending exactly when the pair had one attempt and that went wrong. */
  lemma RetryPendingIff(workers: int, capacity: int, steps: seq<Step>, s: State, id: nat, endpoint: string)
    requires Reaches(workers, capacity, steps, s)
    ensures var h := History(s.log, id, endpoint);
      (exists r :: r in s.retries && r.ev.id == id && r.endpoint == endpoint) <==>
      |h| == 1 && (h[0].ending == NoAnswer || (h[0].ending.Answer? && h[0].ending.status >= 300))
  {
    EveryRunKeepsInv(workers, capacity, steps, s);
    assert PairInv(s, id, endpoint);
  }

  /** Once a run is quiet, a subscribed pair had a second attempt exactly when its first went wrong. */
  lemma SecondAttemptIff(workers: int, capacity: int, steps: seq<Step>, s: State, id: nat, endpoint: string)
    requires Reaches(workers, capacity, steps, s) && Quiet(s) && (id, endpoint) in s.listed
    ensures var h := History(s.log, id, endpoint);
      && 1 <= |h| <= 2
      && (|h| == 2 <==> h[0].ending == NoAnswer || (h[0].ending.Answer? && h[0].ending.status >= 300))
  {
    QuietMeansSettled(workers, capacity, steps, s);
  }

  // ----- first in, first out

  /** Events wait in the order of their dispatch, behind all that were taken. */
  ghost predicate InOrder(s: State) {
    && (forall i, j :: 0 <= i < j < |s.queue| ==> s.queue[i].id < s.queue[j].id)
    && (forall i :: 0 <= i < |s.queue| ==> s.queue[i].id < s.next)
    && forall i, w :: 0 <= i < |s.queue| && 0 <= w < |s.workers| && !s.workers[w].Idle? ==>
         s.workers[w].ev.id < s.queue[i].id
  }

  lemma StepKeepsOrder(s: State, step: Step, capacity: int)
    requires InOrder(s) && Located(s) && Enabled(s, step)
    ensures InOrder(Do(s, step, capacity))
  {
    hide NoCopies;
    if step.Dispatch? {
      forall w | 0 <= w < |s.workers| && !s.workers[w].Idle?
        ensures s.workers[w].ev.id < s.next
      {
        assert InWorker(s, s.workers[w].ev.id);
      }
    }
  }

  /** In every run a worker takes the event that was dispatched first of those that wait. */
  lemma {:induction false} EveryRunIsInOrder(workers: int, capacity: int, steps: seq<Step>, s: State)
    requires Reaches(workers, capacity, steps, s)
    ensures InOrder(s)
  {
    hide Do, InOrder, Located;
    if steps == [] {
      NothingWaits(workers);
    } else {
      var last := steps[|steps| - 1];
      var prev :| Reaches(workers, capacity, steps[..|steps| - 1], prev)
                  && Possible(prev, last) && s == Do(prev, last, capacity);
      EveryRunIsInOrder(workers, capacity, steps[..|steps| - 1], prev);
      EveryRunKeepsInv(workers, capacity, steps[..|steps| - 1], prev);
      InvLocates(prev);
      StepKeepsOrder(prev, last, capacity);
    }
  }

  lemma NothingWaits(workers: int)
    ensures InOrder(Initial(workers))
  {
  }

  lemma InvLocates(s: State)
    requires Inv(s)
    ensures Located(s)
  {
  }

  /** An event is ignored exactly if its tenant or type is missing, and dropped exactly if it is not
      ignored and the queue is full. The queue never holds more than its capacity. */
  lemma {:induction false} DropsOnlyWhenFull(workers: int, capacity: int, steps: seq<Step>, s: State,
                                             tenant: string, kind: string)
    requires Reaches(workers, capacity, steps, s) && capacity >= 0
    ensures |s.queue| <= capacity
    ensures var s' := Do(s, Dispatch(tenant, kind), capacity);
      && (s.next in s'.ignored - s.ignored <==> s.next !in s.ignored && (tenant == "" || kind == ""))
      && (s.next in s'.dropped - s.dropped <==>
            s.next !in s.dropped && tenant != "" && kind != "" && |s.queue| == capacity)
      && (s'.queue == s.queue + [Event(s.next, tenant, kind)] <==>
            tenant != "" && kind != "" && |s.queue| < capacity)
  {
    QueueFits(workers, capacity, steps, s);
    var more := s.queue + [Event(s.next, tenant, kind)];
    assert |more| == |s.queue| + 1;
  }

  lemma {:induction false} QueueFits(workers: int, capacity: int, steps: seq<Step>, s: State)
    requires Reaches(workers, capacity, steps, s) && capacity >= 0
    ensures |s.queue| <= capacity
  {
    if steps != [] {
      var last := steps[|steps| - 1];
      var prev :| Reaches(workers, capacity, steps[..|steps| - 1], prev)
                  && Possible(prev, last) && s == Do(prev, last, capacity);
      QueueFits(workers, capacity, steps[..|steps| - 1], prev);
    }
  }

  // ----- the work goes on until nothing is left

  /** There are workers, and one that delivers has endpoints left. */
  ghost predicate Working(s: State) {
    |s.workers| > 0 && forall w :: 0 <= w < |s.workers| && s.workers[w].Delivering? ==> s.workers[w].rest != []
  }

  lemma StepKeepsWorking(s: State, step: Step, capacity: int)
    requires Working(s) && Enabled(s, step)
    ensures Working(Do(s, step, capacity))
  {
  }

  lemma {:induction false} EveryRunIsWorking(workers: int, capacity: int, steps: seq<Step>, s: State)
    requires Reaches(workers, capacity, steps, s)
    ensures Working(s)
  {
    if steps != [] {
      hide Do, Working;
      var last := steps[|steps| - 1];
      var prev :| Reaches(workers, capacity, steps[..|steps| - 1], prev)
                  && Possible(prev, last) && s == Do(prev, last, capacity);
      EveryRunIsWorking(workers, capacity, steps[..|steps| - 1], prev);
      StepKeepsWorking(prev, last, capacity);
    }
  }

  ghost predicate MayGoOn(s: State) {
    exists step :: Possible(s, step) && !step.Dispatch?
  }

  lemma WorkingGoesOn(s: State)
    requires Working(s) && !Quiet(s)
    ensures MayGoOn(s)
  {
    if r :| r in s.retries {
      assert Possible(s, Fire(r, Unbuilt));
    } else if w :| 0 <= w < |s.workers| && s.workers[w].Holding? {
      assert Possible(s, List(w, [], true));
    } else if w :| 0 <= w < |s.workers| && s.workers[w].Delivering? {
      assert Possible(s, Deliver(w, Unbuilt));
    } else {
      assert forall w :: 0 <= w < |s.workers| ==> s.workers[w].Idle?;
      assert Possible(s, Take(0));
    }
  }

  /** In every run, something other than a new dispatch can happen until nothing is left to do, and
      then no more; since each such step uses up work, the work ends, and it ends settled. */
  lemma GoesOnUntilQuiet(workers: int, capacity: int, steps: seq<Step>, s: State)
    requires Reaches(workers, capacity, steps, s)
    ensures MayGoOn(s) <==> !Quiet(s)
  {
    EveryRunIsWorking(workers, capacity, steps, s);
    if !Quiet(s) {
      WorkingGoesOn(s);
    }
  }

  // ----- the work runs out

  function Held(workers: seq<Worker>): nat {
    if workers == [] then 0 else (if workers[0].Holding? then 1 else 0) + Held(workers[1..])
  }

  function Pending(workers: seq<Worker>): nat {
    if workers == [] then 0 else (if workers[0].Delivering? then |workers[0].rest| else 0) + Pending(workers[1..])
  }

  lemma {:induction false} WorkerUpdate(workers: seq<Worker>, w: nat, x: Worker)
    requires w < |workers|
    ensures Held(workers[w := x]) == Held(workers) - Held([workers[w]]) + Held([x])
    ensures Pending(workers[w := x]) == Pending(workers) - Pending([workers[w]]) + Pending([x])
  {
    if w == 0 {
      assert workers[0 := x][1..] == workers[1..];
    } else {
      assert workers[w := x][1..] == workers[1..][w - 1 := x];
      WorkerUpdate(workers[1..], w - 1, x);
    }
  }

  function Starts(s: State): nat {
    2 * |s.queue| + Held(s.workers)
  }

  function Deliveries(s: State): nat {
    2 * Pending(s.workers) + |s.retries|
  }

  /** Without new dispatches every step uses up work: fewer events to start on, or as many and
      fewer deliveries to make. */
  lemma WorkRunsOut(s: State, step: Step, capacity: int)
    requires Enabled(s, step) && !step.Dispatch?
    ensures var s' := Do(s, step, capacity);
      Starts(s') < Starts(s) || (Starts(s') == Starts(s) && Deliveries(s') < Deliveries(s))
  {
    match step {
      case Take(w) =>
        WorkerUpdate(s.workers, w, Holding(s.queue[0]));
      case List(w, endpoints, dbOk) =>
        WorkerUpdate(s.workers, w, Idle);
        WorkerUpdate(s.workers, w, Delivering(s.workers[w].ev, endpoints));
      case Deliver(w, e) =>
        var Delivering(ev, rest) := s.workers[w];
        WorkerUpdate(s.workers, w, Idle);
        WorkerUpdate(s.workers, w, Delivering(ev, rest[1..]));
      case Fire(r, e) =>
    }
  }
}
