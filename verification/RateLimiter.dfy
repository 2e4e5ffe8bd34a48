/** The login rate limiter: backend/internal/api/ratelimit.go.
    Times are integers (nanoseconds), read by the caller from a clock that never runs backwards. */
module RateLimiter {
  import opened Options

  type Positive = n: int | 0 < n witness 1

  // Buckets that nobody has refilled for longer than this are deleted.
  const TEN_MINUTES: int := 600_000_000_000

  datatype Bucket = Bucket(tokens: int, lastSeen: int)

  datatype Limits = Limits(rate: Positive, burst: Positive)

  type Visitors = map<string, Bucket>

  // ----- one visit

  /** The bucket a visitor is left with, and the answer. */
  function Visit(b: Option<Bucket>, now: int, lim: Limits): (Bucket, bool) {
    match b
    case None => (Bucket(lim.burst - 1, now), true)
    case Some(prior) =>
      var refill := (now - prior.lastSeen) / lim.rate;
      var topped := if refill > 0 then Bucket(Min(prior.tokens + refill, lim.burst), now) else prior;
      if topped.tokens > 0 then (topped.(tokens := topped.tokens - 1), true) else (topped, false)
  }

  function Min(a: int, b: int): int {
    if a < b then a else b
  }

  function Lookup(v: Visitors, key: string): Option<Bucket> {
    if key in v then Some(v[key]) else None
  }

  function Swept(v: Visitors, now: int): Visitors {
    map k | k in v && now - v[k].lastSeen <= TEN_MINUTES :: v[k]
  }

  class Limiter {
    var visitors: Visitors
    const lim: Limits

    constructor (rate: Positive, burst: Positive)
      ensures visitors == map[] && lim == Limits(rate, burst)
    {
      visitors := map[];
      lim := Limits(rate, burst);
    }

    method Allow(key: string, now: int) returns (ok: bool)
      modifies this
      ensures var (b, answer) := Visit(Lookup(old(visitors), key), now, lim);
        visitors == old(visitors)[key := b] && ok == answer
    {
      if key !in visitors {
        visitors := visitors[key := Bucket(lim.burst - 1, now)];
        return true;
      }
      var b := visitors[key];
      var elapsed := now - b.lastSeen;
      var refill := elapsed / lim.rate;
      if refill > 0 {
        b := b.(tokens := b.tokens + refill);
        if b.tokens > lim.burst {
          b := b.(tokens := lim.burst);
        }
        b := b.(lastSeen := now);
      }
      if b.tokens > 0 {
        b := b.(tokens := b.tokens - 1);
        visitors := visitors[key := b];
        return true;
      }
      visitors := visitors[key := b];
      return false;
    }

    // One tick of the janitor.
    method Cleanup(now: int)
      modifies this
      ensures visitors == Swept(old(visitors), now)
    {
      var todo := visitors.Keys;
      while todo != {}
        invariant todo <= visitors.Keys
        invariant forall k :: k in visitors <==>
                    k in todo || k in Swept(old(visitors), now)
        invariant forall k :: k in visitors ==> k in old(visitors) && visitors[k] == old(visitors)[k]
        decreases todo
      {
        var k :| k in todo;
        todo := todo - {k};
        if now - visitors[k].lastSeen > TEN_MINUTES {
          visitors := visitors - {k};
        }
      }
    }
  }

  // ----- whole runs

  datatype Event = Request(key: string, at: int) | Janitor(at: int)

  ghost predicate Chronological(events: seq<Event>) {
    forall i, j :: 0 <= i < j < |events| ==> events[i].at <= events[j].at
  }

  function Step(v: Visitors, e: Event, lim: Limits): Visitors {
    match e
    case Request(key, at) => v[key := Visit(Lookup(v, key), at, lim).0]
    case Janitor(at) => Swept(v, at)
  }

  function After(events: seq<Event>, lim: Limits): Visitors {
    if events == [] then map[]
    else Step(After(events[..|events| - 1], lim), events[|events| - 1], lim)
  }

  predicate Allowed(events: seq<Event>, i: nat, lim: Limits)
    requires i < |events|
  {
    var e := events[i];
    e.Request? && Visit(Lookup(After(events[..i], lim), e.key), e.at, lim).1
  }

  predicate Counts(events: seq<Event>, i: nat, key: string, s: int, t: int, lim: Limits)
    requires i < |events|
  {
    Allowed(events, i, lim) && events[i].key == key && s <= events[i].at <= t
  }

  /** How many requests of the key were allowed from time s to time t. */
  function AllowedIn(events: seq<Event>, key: string, s: int, t: int, lim: Limits): nat {
    if events == [] then 0
    else
      var n := |events| - 1;
      AllowedIn(events[..n], key, s, t, lim) + if Counts(events, n, key, s, t, lim) then 1 else 0
  }

  /** The answers the key was given, in order. */
  function Answers(events: seq<Event>, key: string, lim: Limits): seq<bool> {
    if events == [] then []
    else
      var n := |events| - 1;
      Answers(events[..n], key, lim)
      + if events[n].Request? && events[n].key == key then [Allowed(events, n, lim)] else []
  }

  // ----- the sliding window

  /** A bucket never holds a full burst and was last refilled in the past. */
  ghost predicate BucketInv(b: Option<Bucket>, now: int, lim: Limits) {
    b.Some? ==> 0 <= b.value.tokens < lim.burst && b.value.lastSeen <= now
  }

  /** What the window has used up, weighed against what the bucket can still give. */
  ghost predicate WindowInv(b: Option<Bucket>, used: nat, now: int, s: int, lim: Limits) {
    && BucketInv(b, now, lim)
    && (used > 0 ==> s <= now)
    && (used > 0 && b.None? ==> used <= (now - s) / lim.rate)
    && (used > 0 && b.Some? ==>
          && s - lim.rate < b.value.lastSeen
          && used + b.value.tokens <= lim.burst + (b.value.lastSeen - s) / lim.rate)
  }

  lemma FloorAdd(x: int, y: int, r: Positive)
    ensures x / r + y / r <= (x + y) / r
  {
    var m, n := x / r, y / r;
    assert (m + n) * r <= x + y;
    FloorAtLeast(x + y, m + n, r);
  }

  lemma FloorAtLeast(x: int, q: int, r: Positive)
    requires q * r <= x
    ensures q <= x / r
  {
    var d := q - x / r;
    assert d * r <= x % r by {
      assert x == (x / r) * r + x % r;
    }
    if d > 0 {
      MulAtLeast(d, r);
    }
  }

  lemma MulAtLeast(d: Positive, r: Positive)
    ensures d * r >= r
  {
  }

  lemma FloorMonotone(x: int, y: int, r: Positive)
    requires x <= y
    ensures x / r <= y / r
  {
    FloorAtLeast(y, x / r, r);
  }

  lemma RefillKeeps(b: Bucket, used: nat, at: int, s: int, lim: Limits)
    requires BucketInv(Some(b), at, lim) && used > 0 && s <= at && s - lim.rate < b.lastSeen
    requires used + b.tokens <= lim.burst + (b.lastSeen - s) / lim.rate
    ensures used + (b.tokens + (at - b.lastSeen) / lim.rate) <= lim.burst + (at - s) / lim.rate
  {
    FloorAdd(b.lastSeen - s, at - b.lastSeen, lim.rate);
  }

  lemma FirstInWindow(b: Bucket, at: int, s: int, lim: Limits)
    requires BucketInv(Some(b), at, lim) && s <= at && (at - b.lastSeen) / lim.rate <= 0
    ensures s - lim.rate < b.lastSeen && (b.lastSeen - s) / lim.rate >= -1
  {
    if at - b.lastSeen >= lim.rate {
      FloorAtLeast(at - b.lastSeen, 1, lim.rate);
    }
    FloorAtLeast(b.lastSeen - s, -1, lim.rate);
  }

  lemma VisitKeeps(b: Option<Bucket>, used: nat, now: int, at: int, s: int, lim: Limits)
    requires WindowInv(b, used, now, s, lim) && now <= at
    ensures var (b', ok) := Visit(b, at, lim);
      WindowInv(Some(b'), if ok && s <= at then used + 1 else used, at, s, lim)
  {
    if s <= at {
      FloorMonotone(0, at - s, lim.rate);
      if used > 0 {
        FloorMonotone(now - s, at - s, lim.rate);
      }
      if b.Some? {
        if used > 0 {
          RefillKeeps(b.value, used, at, s, lim);
        }
        if (at - b.value.lastSeen) / lim.rate <= 0 {
          FirstInWindow(b.value, at, s, lim);
        }
      }
    }
  }

  lemma SweepKeeps(b: Option<Bucket>, used: nat, now: int, at: int, s: int, lim: Limits)
    requires WindowInv(b, used, now, s, lim) && now <= at
    requires lim.burst * lim.rate <= TEN_MINUTES + 1
    ensures WindowInv(if b.Some? && at - b.value.lastSeen <= TEN_MINUTES then b else None, used, at, s, lim)
  {
    if used > 0 && b.None? {
      FloorMonotone(now - s, at - s, lim.rate);
    } else if used > 0 && at - b.value.lastSeen > TEN_MINUTES {
      var L := b.value.lastSeen;
      FloorAtLeast(at - L, lim.burst, lim.rate);
      FloorAdd(L - s, at - L, lim.rate);
    }
  }

  ghost predicate NoJanitor(events: seq<Event>) {
    forall i :: 0 <= i < |events| ==> events[i].Request?
  }

  ghost predicate Before(events: seq<Event>, now: int) {
    forall i :: 0 <= i < |events| ==> events[i].at <= now
  }

  lemma {:induction false} WindowHolds(events: seq<Event>, key: string, s: int, t: int, now: int, lim: Limits)
    requires Chronological(events) && Before(events, now) && now <= t
    requires lim.burst * lim.rate <= TEN_MINUTES + 1 || NoJanitor(events)
    ensures WindowInv(Lookup(After(events, lim), key), AllowedIn(events, key, s, t, lim), now, s, lim)
  {
    if events != [] {
      var n := |events| - 1;
      var e := events[n];
      var prev := events[..n];
      var v := After(prev, lim);
      var used := AllowedIn(prev, key, s, t, lim);
      WindowHolds(prev, key, s, t, e.at, lim);
      match e {
        case Request(k, at) =>
          if k == key {
            VisitKeeps(Lookup(v, key), used, at, at, s, lim);
          }
        case Janitor(at) =>
          SweepKeeps(Lookup(v, key), used, at, at, s, lim);
      }
      Later(Lookup(After(events, lim), key), AllowedIn(events, key, s, t, lim), e.at, now, s, lim);
    }
  }

  lemma Later(b: Option<Bucket>, used: nat, at: int, now: int, s: int, lim: Limits)
    requires WindowInv(b, used, at, s, lim) && at <= now
    ensures WindowInv(b, used, now, s, lim)
  {
    FloorMonotone(at - s, now - s, lim.rate);
  }

  /** Any window [s, t] of any run lets at most burst + (t - s) / rate requests of one key through. */
  lemma {:induction false} SlidingWindow(events: seq<Event>, key: string, s: int, t: int, lim: Limits)
    requires Chronological(events) && s <= t
    requires lim.burst * lim.rate <= TEN_MINUTES + 1 || NoJanitor(events)
    ensures AllowedIn(events, key, s, t, lim) <= lim.burst + (t - s) / lim.rate
  {
    FloorMonotone(0, t - s, lim.rate);
    if events != [] {
      var n := |events| - 1;
      if events[n].at > t {
        SlidingWindow(events[..n], key, s, t, lim);
      } else {
        WindowHolds(events, key, s, t, t, lim);
        var b := Lookup(After(events, lim), key);
        if b.Some? {
          FloorMonotone(b.value.lastSeen - s, t - s, lim.rate);
        }
      }
    }
  }

  // ----- the condition on burst and rate is exact

  function Repeated(e: Event, m: nat): seq<Event> {
    seq(m, _ => e)
  }

  lemma RepeatedSnoc(events: seq<Event>, e: Event, m: Positive)
    ensures events + Repeated(e, m) == events + Repeated(e, m - 1) + [e]
  {
    assert Repeated(e, m) == Repeated(e, m - 1) + [e];
  }

  lemma SameInstant(tokens: Positive, at: int, lim: Limits)
    ensures Visit(Some(Bucket(tokens, at)), at, lim) == (Bucket(tokens - 1, at), true)
  {
  }

  lemma {:induction false} BurstFromNothing(events: seq<Event>, key: string, at: int, m: nat, s: int, t: int,
                                            lim: Limits)
    requires Lookup(After(events, lim), key) == None && m <= lim.burst && s <= at <= t
    ensures var all := events + Repeated(Request(key, at), m);
      && AllowedIn(all, key, s, t, lim) == AllowedIn(events, key, s, t, lim) + m
      && (m > 0 ==> Lookup(After(all, lim), key) == Some(Bucket(lim.burst - m, at)))
  {
    var all := events + Repeated(Request(key, at), m);
    if m == 0 {
      assert all == events;
    } else {
      var prev := events + Repeated(Request(key, at), m - 1);
      RepeatedSnoc(events, Request(key, at), m);
      BurstFromNothing(events, key, at, m - 1, s, t, lim);
      if m == 1 {
        assert prev == events;
      } else {
        SameInstant(lim.burst - (m - 1), at, lim);
      }
      AllowedInSnoc(prev, Request(key, at), key, s, t, lim);
    }
  }

  lemma AllowedInSnoc(events: seq<Event>, e: Event, key: string, s: int, t: int, lim: Limits)
    requires e.Request? && e.key == key && s <= e.at <= t
    ensures var (b, ok) := Visit(Lookup(After(events, lim), key), e.at, lim);
      && After(events + [e], lim) == After(events, lim)[key := b]
      && AllowedIn(events + [e], key, s, t, lim) == AllowedIn(events, key, s, t, lim) + if ok then 1 else 0
  {
    assert (events + [e])[..|events|] == events;
  }

  /** Two bursts, with a sweep between them just late enough to delete the bucket. */
  function TwoBursts(key: string, lim: Limits): seq<Event> {
    Repeated(Request(key, 0), lim.burst) + [Janitor(TEN_MINUTES + 1)]
    + Repeated(Request(key, TEN_MINUTES + 1), lim.burst)
  }

  lemma TwoBurstsChronological(key: string, lim: Limits)
    ensures Chronological(TwoBursts(key, lim))
  {
  }

  lemma SweptAway(events: seq<Event>, key: string, s: int, t: int, at: int, lim: Limits)
    requires var b := Lookup(After(events, lim), key); b.Some? ==> at - b.value.lastSeen > TEN_MINUTES
    ensures var all := events + [Janitor(at)];
      Lookup(After(all, lim), key) == None && AllowedIn(all, key, s, t, lim) == AllowedIn(events, key, s, t, lim)
  {
    assert (events + [Janitor(at)])[..|events|] == events;
  }

  lemma TwoBurstsPass(key: string, lim: Limits)
    ensures AllowedIn(TwoBursts(key, lim), key, 0, TEN_MINUTES + 1, lim) == 2 * lim.burst
  {
    var first := Repeated(Request(key, 0), lim.burst);
    BurstFromNothing([], key, 0, lim.burst, 0, TEN_MINUTES + 1, lim);
    assert [] + first == first;
    SweptAway(first, key, 0, TEN_MINUTES + 1, TEN_MINUTES + 1, lim);
    BurstFromNothing(first + [Janitor(TEN_MINUTES + 1)], key, TEN_MINUTES + 1, lim.burst, 0, TEN_MINUTES + 1, lim);
  }

  /** The window bound holds of every run exactly when a full burst refills within ten minutes. */
  lemma WindowIsExact(lim: Limits)
    ensures lim.burst * lim.rate <= 10 * 60 * 1_000_000_000 + 1 <==>
            forall events, key, s, t :: Chronological(events) && s <= t ==>
              AllowedIn(events, key, s, t, lim) <= lim.burst + (t - s) / lim.rate
  {
    if lim.burst * lim.rate <= TEN_MINUTES + 1 {
      forall events, key, s, t | Chronological(events) && s <= t
        ensures AllowedIn(events, key, s, t, lim) <= lim.burst + (t - s) / lim.rate
      {
        SlidingWindow(events, key, s, t, lim);
      }
    } else {
      TwoBurstsChronological("", lim);
      TwoBurstsPass("", lim);
      FloorBelow(TEN_MINUTES + 1, lim.burst, lim.rate);
      assert AllowedIn(TwoBursts("", lim), "", 0, TEN_MINUTES + 1, lim)
             > lim.burst + (TEN_MINUTES + 1 - 0) / lim.rate;
    }
  }

  lemma FloorBelow(x: int, q: int, r: Positive)
    requires x < q * r
    ensures x / r < q
  {
    var d := x / r;
    assert x >= d * r;
    if q <= d {
      MulMonotone(q, d, r);
    }
  }

  lemma MulMonotone(a: int, b: int, r: Positive)
    requires a <= b
    ensures a * r <= b * r
  {
  }

  // ----- the janitor is invisible, and so are other keys

  function WithoutJanitor(events: seq<Event>): seq<Event> {
    if events == [] then []
    else
      var n := |events| - 1;
      WithoutJanitor(events[..n]) + if events[n].Janitor? then [] else [events[n]]
  }

  /** The requests of one key, and the sweeps. */
  function Only(events: seq<Event>, key: string): seq<Event> {
    if events == [] then []
    else
      var n := |events| - 1;
      var e := events[n];
      Only(events[..n], key) + if e.Request? && e.key != key then [] else [e]
  }

  /** The same bucket, or one that was deleted when it had already refilled completely. */
  ghost predicate Similar(b: Option<Bucket>, kept: Option<Bucket>, now: int) {
    b == kept || (b.None? && now - kept.value.lastSeen > TEN_MINUTES)
  }

  lemma VisitSimilar(b: Option<Bucket>, kept: Option<Bucket>, now: int, lim: Limits)
    requires Similar(b, kept, now) && BucketInv(kept, now, lim)
    requires lim.burst * lim.rate <= TEN_MINUTES + 1
    ensures Visit(b, now, lim) == Visit(kept, now, lim)
  {
    if b != kept {
      FloorAtLeast(now - kept.value.lastSeen, lim.burst, lim.rate);
    }
  }

  lemma AnswersSnoc(events: seq<Event>, e: Event, key: string, lim: Limits)
    ensures After(events + [e], lim) == Step(After(events, lim), e, lim)
    ensures Answers(events + [e], key, lim) == Answers(events, key, lim)
      + if e.Request? && e.key == key then [Visit(Lookup(After(events, lim), key), e.at, lim).1] else []
  {
    assert (events + [e])[..|events|] == events;
  }

  lemma {:induction false} BucketsHold(events: seq<Event>, key: string, now: int, lim: Limits)
    requires Chronological(events) && Before(events, now)
    ensures BucketInv(Lookup(After(events, lim), key), now, lim)
  {
    if events != [] {
      var n := |events| - 1;
      BucketsHold(events[..n], key, events[n].at, lim);
    }
  }

  lemma {:induction false} WithoutJanitorBefore(events: seq<Event>, now: int)
    requires Chronological(events) && Before(events, now)
    ensures Chronological(WithoutJanitor(events)) && Before(WithoutJanitor(events), now)
  {
    if events != [] {
      var n := |events| - 1;
      WithoutJanitorBefore(events[..n], events[n].at);
    }
  }

  lemma RequestKeepsSimilar(v: Visitors, kept: Visitors, e: Event, key: string, lim: Limits)
    requires e.Request? && lim.burst * lim.rate <= TEN_MINUTES + 1
    requires Similar(Lookup(v, key), Lookup(kept, key), e.at)
    requires BucketInv(Lookup(kept, key), e.at, lim)
    ensures Similar(Lookup(Step(v, e, lim), key), Lookup(Step(kept, e, lim), key), e.at)
    ensures e.key == key ==> Visit(Lookup(v, key), e.at, lim) == Visit(Lookup(kept, key), e.at, lim)
  {
    hide Visit;
    if e.key == key {
      VisitSimilar(Lookup(v, key), Lookup(kept, key), e.at, lim);
    }
  }

  lemma JanitorKeepsSimilar(v: Visitors, kept: Visitors, e: Event, key: string, lim: Limits)
    requires e.Janitor? && Similar(Lookup(v, key), Lookup(kept, key), e.at)
    ensures Similar(Lookup(Step(v, e, lim), key), Lookup(kept, key), e.at)
  {
  }

  lemma {:induction false} JanitorSimulation(events: seq<Event>, key: string, now: int, lim: Limits)
    requires Chronological(events) && Before(events, now) && lim.burst * lim.rate <= TEN_MINUTES + 1
    ensures var kept := WithoutJanitor(events);
      && Similar(Lookup(After(events, lim), key), Lookup(After(kept, lim), key), now)
      && Answers(events, key, lim) == Answers(kept, key, lim)
  {
    if events != [] {
      var n := |events| - 1;
      var prev, e := events[..n], events[n];
      var kept := WithoutJanitor(prev);
      JanitorSimulation(prev, key, e.at, lim);
      assert prev + [e] == events;
      AnswersSnoc(prev, e, key, lim);
      WithoutJanitorBefore(prev, e.at);
      BucketsHold(kept, key, e.at, lim);
      var v, vk := After(prev, lim), After(kept, lim);
      hide Visit, Step, After, Answers, Lookup, BucketInv, Swept;
      if e.Request? {
        AnswersSnoc(kept, e, key, lim);
        RequestKeepsSimilar(v, vk, e, key, lim);
      } else {
        JanitorKeepsSimilar(v, vk, e, key, lim);
        assert Answers(events, key, lim) == Answers(prev, key, lim) + [];
        assert kept + [] == kept;
      }
    }
  }

  /** Every request is answered as if no bucket were ever deleted. */
  lemma JanitorIsInvisible(events: seq<Event>, key: string, lim: Limits)
    requires Chronological(events) && lim.burst * lim.rate <= TEN_MINUTES + 1
    ensures Answers(events, key, lim) == Answers(WithoutJanitor(events), key, lim)
  {
    JanitorSimulation(events, key, if events == [] then 0 else events[|events| - 1].at, lim);
  }

  function Trues(answers: seq<bool>): nat {
    if answers == [] then 0
    else Trues(answers[..|answers| - 1]) + if answers[|answers| - 1] then 1 else 0
  }

  lemma TruesSnoc(answers: seq<bool>, ok: bool)
    ensures Trues(answers + [ok]) == Trues(answers) + if ok then 1 else 0
  {
    assert (answers + [ok])[..|answers|] == answers;
  }

  lemma {:induction false} AllowedAreTrues(events: seq<Event>, key: string, s: int, t: int, lim: Limits)
    requires forall e :: e in events ==> s <= e.at <= t
    ensures AllowedIn(events, key, s, t, lim) == Trues(Answers(events, key, lim))
  {
    if events != [] {
      var n := |events| - 1;
      assert !events[n].Request? ==> !Allowed(events, n, lim);
      hide Allowed;
      AllowedAreTrues(events[..n], key, s, t, lim);
      assert events[n] in events;
      var before := Answers(events[..n], key, lim);
      assert before + [] == before;
      TruesSnoc(before, Allowed(events, n, lim));
    }
  }

  lemma {:induction false} WithoutJanitorIsRequests(events: seq<Event>)
    ensures NoJanitor(WithoutJanitor(events))
    ensures forall e :: e in WithoutJanitor(events) ==> e in events
  {
    if events != [] {
      var n := |events| - 1;
      WithoutJanitorIsRequests(events[..n]);
      assert events[n] in events;
    }
  }

  lemma TwoBurstsTimes(key: string, lim: Limits)
    ensures Before(TwoBursts(key, lim), TEN_MINUTES + 1)
    ensures forall e :: e in TwoBursts(key, lim) ==> 0 <= e.at <= TEN_MINUTES + 1
  {
  }

  lemma TwoBurstsTellThemApart(key: string, lim: Limits)
    requires lim.burst * lim.rate > TEN_MINUTES + 1
    ensures Answers(TwoBursts(key, lim), key, lim) != Answers(WithoutJanitor(TwoBursts(key, lim)), key, lim)
  {
    var events, end := TwoBursts(key, lim), TEN_MINUTES + 1;
    var kept := WithoutJanitor(events);
    TwoBurstsChronological(key, lim);
    TwoBurstsPass(key, lim);
    TwoBurstsTimes(key, lim);
    assert end > 0;
    hide *;
    WithoutJanitorBefore(events, end);
    WithoutJanitorIsRequests(events);
    AllowedAreTrues(events, key, 0, end, lim);
    AllowedAreTrues(kept, key, 0, end, lim);
    SlidingWindow(kept, key, 0, end, lim);
    FloorBelow(end, lim.burst, lim.rate);
  }

  /** The janitor cannot be noticed, by any key in any run, exactly when a full burst refills within ten minutes. */
  lemma JanitorIsInvisibleIff(lim: Limits)
    ensures lim.burst * lim.rate <= 10 * 60 * 1_000_000_000 + 1 <==>
            forall events, key :: Chronological(events) ==>
              Answers(events, key, lim) == Answers(WithoutJanitor(events), key, lim)
  {
    if lim.burst * lim.rate <= TEN_MINUTES + 1 {
      forall events, key | Chronological(events)
        ensures Answers(events, key, lim) == Answers(WithoutJanitor(events), key, lim)
      {
        JanitorIsInvisible(events, key, lim);
      }
    } else {
      TwoBurstsChronological("", lim);
      TwoBurstsTellThemApart("", lim);
    }
  }

  /** What other keys do changes neither a key's bucket nor its answers. */
  lemma {:induction false} KeysAreIndependent(events: seq<Event>, key: string, lim: Limits)
    ensures Lookup(After(events, lim), key) == Lookup(After(Only(events, key), lim), key)
    ensures Answers(events, key, lim) == Answers(Only(events, key), key, lim)
  {
    if events != [] {
      var n := |events| - 1;
      var prev, e := events[..n], events[n];
      KeysAreIndependent(prev, key, lim);
      assert prev + [e] == events;
      AnswersSnoc(prev, e, key, lim);
      AnswersSnoc(Only(prev, key), e, key, lim);
      assert Only(prev, key) + [] == Only(prev, key);
    }
  }

  // ----- a denial is recent

  lemma {:induction false} LastSeenWasAllowed(events: seq<Event>, key: string, lim: Limits)
    requires Chronological(events)
    ensures var v := After(events, lim);
      key in v ==> exists j :: 0 <= j < |events| && Allowed(events, j, lim)
                     && events[j].key == key && events[j].at == v[key].lastSeen
  {
    if events != [] && key in After(events, lim) {
      var n := |events| - 1;
      var prev := events[..n];
      LastSeenWasAllowed(prev, key, lim);
      var seen := After(events, lim)[key].lastSeen;
      if key in After(prev, lim) && After(prev, lim)[key].lastSeen == seen {
        var j :| 0 <= j < n && Allowed(prev, j, lim) && prev[j].key == key && prev[j].at == seen;
        assert events[..j] == prev[..j] && events[j] == prev[j];
        assert Allowed(events, j, lim);
      } else {
        BucketsHold(prev, key, events[n].at, lim);
        assert events[n] == Request(key, seen);
        RefilledIsAllowed(Lookup(After(prev, lim), key), seen, lim);
        assert Allowed(events, n, lim);
      }
    }
  }

  lemma RefilledIsAllowed(b: Option<Bucket>, now: int, lim: Limits)
    requires b.None? || (b.value.tokens >= 0 && Visit(b, now, lim).0.lastSeen != b.value.lastSeen)
    ensures Visit(b, now, lim).1
  {
  }

  lemma DeniedBucket(b: Option<Bucket>, now: int, lim: Limits)
    requires !Visit(b, now, lim).1 && BucketInv(b, now, lim)
    ensures b.Some? && now - b.value.lastSeen < lim.rate
  {
    if b.Some? && now - b.value.lastSeen >= lim.rate {
      FloorAtLeast(now - b.value.lastSeen, 1, lim.rate);
    }
  }

  /** A request is denied only less than `rate` after an allowed one of the same key. */
  lemma DeniedOnlySoon(events: seq<Event>, i: nat, lim: Limits)
    requires Chronological(events) && i < |events| && events[i].Request? && !Allowed(events, i, lim)
    ensures exists j :: 0 <= j < i && Allowed(events, j, lim)
              && events[j].key == events[i].key && events[i].at - events[j].at < lim.rate
  {
    var prev, e := events[..i], events[i];
    var v := After(prev, lim);
    BucketsHold(prev, e.key, e.at, lim);
    LastSeenWasAllowed(prev, e.key, lim);
    DeniedBucket(Lookup(v, e.key), e.at, lim);
    hide After, Chronological, BucketInv, Visit;
    var j :| 0 <= j < i && Allowed(prev, j, lim) && prev[j].key == e.key && prev[j].at == v[e.key].lastSeen;
    assert prev[..j] == events[..j];
  }
}
