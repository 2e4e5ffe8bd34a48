/** Keeping and deleting call recordings: backend/internal/worker/retention.go and
    backend/internal/store/call_recordings.go. */
module Retention {
  import opened Options

  datatype Status = Available | Archived

  datatype Recording = Recording(call: string, tenant: string, key: string, status: Status,
                                 deletedAt: Option<int>, due: Option<int>)

  type Recordings = map<string, Recording>

  predicate Live(r: Recording) {
    r.deletedAt.None?
  }

  predicate Due(r: Recording, now: int) {
    Live(r) && r.due.Some? && r.due.value <= now
  }

  /** The number of rows a pass asks for. */
  function Limit(n: int): (limit: nat)
    ensures 1 <= limit <= 500
    ensures limit == n <==> 1 <= n <= 500
    ensures limit != n ==> limit == 100
  {
    if n <= 0 || n > 500 then 100 else n
  }

  /** What the query for expired recordings may answer: up to `limit` due rows, longest due first. */
  ghost predicate Listing(recs: Recordings, now: int, limit: nat, ids: seq<string>) {
    && (forall i, j :: 0 <= i < j < |ids| ==> ids[i] != ids[j])
    && (forall id :: id in ids ==> id in recs && Due(recs[id], now))
    && (forall i, j :: 0 <= i < j < |ids| ==> recs[ids[i]].due.value <= recs[ids[j]].due.value)
    && |ids| <= limit
    && (|ids| < limit ==> forall id :: id in recs && Due(recs[id], now) ==> id in ids)
    && (forall id, x :: id in recs && Due(recs[id], now) && id !in ids && x in ids ==>
          recs[x].due.value <= recs[id].due.value)
  }

  function SoftDeleted(recs: Recordings, tenant: string, id: string, now: int): Option<Recordings> {
    if id in recs && recs[id].tenant == tenant && Live(recs[id])
    then Some(recs[id := recs[id].(deletedAt := Some(now))])
    else None
  }

  /** The older recordings of a call step back for a new one. */
  function Stepped(recs: Recordings, call: string): Recordings {
    map id | id in recs ::
      if recs[id].call == call && Playable(recs[id])
      then recs[id].(status := Archived) else recs[id]
  }

  const DAY: int := 86_400_000_000_000

  function Uploaded(recs: Recordings, id: string, r: Recording, retentionDays: int, now: int): Recordings {
    var due := if retentionDays > 0 then Some(now + retentionDays * DAY) else None;
    Stepped(recs, r.call)[id := r.(deletedAt := None, due := due)]
  }

  // What goes wrong during a pass: removing an object, or marking a row.
  datatype World = World(removeFails: string -> bool, markFails: string -> bool)

  class Store {
    var recs: Recordings
    var objects: set<string>

    method CreateCallRecording(id: string, r: Recording, retentionDays: int, now: int, dbOk: bool) returns (ok: bool)
      modifies this`recs
      ensures ok == (dbOk && id !in old(recs))
      ensures recs == if ok then Uploaded(old(recs), id, r, retentionDays, now) else old(recs)
    {
      var tx := Stepped(recs, r.call);
      var due := None;
      if retentionDays > 0 {
        due := Some(now + retentionDays * DAY);
      }
      if !dbOk || id in tx {
        return false;
      }
      recs := tx[id := r.(deletedAt := None, due := due)];
      return true;
    }

    method SoftDelete(tenant: string, id: string, now: int, dbOk: bool) returns (ok: bool)
      modifies this`recs
      ensures ok == (dbOk && SoftDeleted(old(recs), tenant, id, now).Some?)
      ensures recs == if ok then SoftDeleted(old(recs), tenant, id, now).value else old(recs)
    {
      if !dbOk || id !in recs || recs[id].tenant != tenant || !Live(recs[id]) {
        return false;
      }
      recs := recs[id := recs[id].(deletedAt := Some(now))];
      return true;
    }

    /** One pass over the rows the query listed. */
    method Tick(now: int, batchSize: int, ids: seq<string>, storageOn: bool, w: World) returns (deleted: nat)
      requires Listing(recs, now, Limit(batchSize), ids)
      modifies this
      ensures recs == Marked(old(recs), ids, storageOn, w, now)
      ensures objects == if storageOn then old(objects) - Removed(old(recs), ids, w) else old(objects)
      ensures deleted == |Cleared(ids, storageOn, w)|
    {
      hide Listing, Marked, Removed, Cleared;
      deleted := 0;
      NothingListed(recs, storageOn, w, now);
      ghost var was, before := recs, objects;
      for i := 0 to |ids|
        invariant recs == Marked(was, ids[..i], storageOn, w, now)
        invariant objects == if storageOn then before - Removed(was, ids[..i], w) else before
        invariant deleted == |Cleared(ids[..i], storageOn, w)|
      {
        ListedRow(was, now, Limit(batchSize), ids, i, storageOn, w);
        var id := ids[i];
        var r := recs[id];
        if storageOn {
          if w.removeFails(id) {
            continue;
          }
          objects := objects - {r.key};
        }
        var ok := SoftDelete(r.tenant, id, now, !w.markFails(id));
        if !ok {
          continue;
        }
        deleted := deleted + 1;
      }
      assert ids[..|ids|] == ids;
    }
  }

  predicate Clears(id: string, storageOn: bool, w: World) {
    (storageOn ==> !w.removeFails(id)) && !w.markFails(id)
  }

  /** The rows after a pass: the listed ones that nothing went wrong with are marked as deleted. */
  function Marked(recs: Recordings, ids: seq<string>, storageOn: bool, w: World, now: int): Recordings {
    map id | id in recs :: if id in ids && Clears(id, storageOn, w) then recs[id].(deletedAt := Some(now)) else recs[id]
  }

  /** The objects of the listed rows that could be removed. */
  function Removed(recs: Recordings, ids: seq<string>, w: World): set<string> {
    set id | id in ids && id in recs && !w.removeFails(id) :: recs[id].key
  }

  function Cleared(ids: seq<string>, storageOn: bool, w: World): set<string> {
    set id | id in ids && Clears(id, storageOn, w)
  }

  lemma NothingListed(recs: Recordings, storageOn: bool, w: World, now: int)
    ensures Marked(recs, [], storageOn, w, now) == recs
    ensures Removed(recs, [], w) == {} == Cleared([], storageOn, w)
  {
  }

  /** What one more listed row adds to a pass that has handled those before it. */
  lemma ListedRow(recs: Recordings, now: int, limit: nat, ids: seq<string>, i: nat, storageOn: bool, w: World)
    requires Listing(recs, now, limit, ids) && i < |ids|
    ensures var id, m := ids[i], Marked(recs, ids[..i], storageOn, w, now);
      && id in recs && id in m && m[id] == recs[id] && Live(recs[id])
      && Marked(recs, ids[..i + 1], storageOn, w, now)
         == (if Clears(id, storageOn, w) then m[id := m[id].(deletedAt := Some(now))] else m)
      && Removed(recs, ids[..i + 1], w)
         == Removed(recs, ids[..i], w) + (if w.removeFails(id) then {} else {recs[id].key})
      && |Cleared(ids[..i + 1], storageOn, w)|
         == |Cleared(ids[..i], storageOn, w)| + (if Clears(id, storageOn, w) then 1 else 0)
  {
    var id := ids[i];
    assert id in ids;
    assert id !in ids[..i];
    assert ids[..i + 1] == ids[..i] + [id];
    OneMore(recs, ids[..i], id, storageOn, w, now);
  }

  lemma OneMore(recs: Recordings, ids: seq<string>, id: string, storageOn: bool, w: World, now: int)
    requires id in recs && id !in ids
    ensures var m := Marked(recs, ids, storageOn, w, now);
      && id in m && m[id] == recs[id]
      && Marked(recs, ids + [id], storageOn, w, now)
         == (if Clears(id, storageOn, w) then m[id := m[id].(deletedAt := Some(now))] else m)
      && Removed(recs, ids + [id], w) == Removed(recs, ids, w) + (if w.removeFails(id) then {} else {recs[id].key})
      && |Cleared(ids + [id], storageOn, w)|
         == |Cleared(ids, storageOn, w)| + (if Clears(id, storageOn, w) then 1 else 0)
  {
    OneMoreRemoved(recs, ids, id, w);
    OneMoreMarked(recs, ids, id, storageOn, w, now);
    hide Removed, Marked;
    var c := Cleared(ids, storageOn, w);
    assert Cleared(ids + [id], storageOn, w) == if Clears(id, storageOn, w) then c + {id} else c;
  }

  lemma OneMoreMarked(recs: Recordings, ids: seq<string>, id: string, storageOn: bool, w: World, now: int)
    requires id in recs && id !in ids
    ensures var m := Marked(recs, ids, storageOn, w, now);
      && id in m && m[id] == recs[id]
      && Marked(recs, ids + [id], storageOn, w, now)
         == (if Clears(id, storageOn, w) then m[id := m[id].(deletedAt := Some(now))] else m)
  {
    hide Clears;
    var m, m' := Marked(recs, ids, storageOn, w, now), Marked(recs, ids + [id], storageOn, w, now);
    assert forall x :: x in ids + [id] <==> x in ids || x == id;
    assert m'.Keys == m.Keys;
  }

  lemma OneMoreRemoved(recs: Recordings, ids: seq<string>, id: string, w: World)
    requires id in recs
    ensures Removed(recs, ids + [id], w) == Removed(recs, ids, w) + (if w.removeFails(id) then {} else {recs[id].key})
  {
    forall k | k in Removed(recs, ids, w)
      ensures k in Removed(recs, ids + [id], w)
    {
      var x :| x in ids && x in recs && !w.removeFails(x) && recs[x].key == k;
      assert x in ids + [id];
    }
    assert id in ids + [id];
  }

  // ----- what an upload and a deletion do

  /** An upload adds one live row, due the given number of days later or never, and archives the live available
      rows of its call; nothing else changes. */
  lemma UploadInFull(recs: Recordings, id: string, r: Recording, retentionDays: int, now: int)
    requires id !in recs
    ensures var recs' := Uploaded(recs, id, r, retentionDays, now);
      && recs'.Keys == recs.Keys + {id}
      && recs'[id].deletedAt == None
      && recs'[id].due == (if retentionDays > 0 then Some(now + retentionDays * 24 * 60 * 60 * 1_000_000_000) else None)
      && recs'[id].call == r.call && recs'[id].tenant == r.tenant && recs'[id].key == r.key
      && recs'[id].status == r.status
      && forall x :: x in recs ==>
           recs'[x] == if recs[x].call == r.call && recs[x].status == Available && recs[x].deletedAt == None
                       then recs[x].(status := Archived) else recs[x]
  {
  }

  /** A deletion marks one row, if it is live and belongs to the tenant; nothing else changes. */
  lemma DeletionInFull(recs: Recordings, tenant: string, id: string, now: int)
    ensures var d := SoftDeleted(recs, tenant, id, now);
      && (d.Some? <==> id in recs && recs[id].tenant == tenant && recs[id].deletedAt == None)
      && (d.Some? ==>
            && d.value.Keys == recs.Keys
            && d.value[id] == recs[id].(deletedAt := Some(now))
            && forall x :: x in recs && x != id ==> d.value[x] == recs[x])
  {
  }

  // ----- a pass is careful

  /** A pass changes only rows that were due and live, and only by marking them deleted; with storage
      on, a row is marked only once its object is gone. Only objects of due rows go. */
  lemma PassIsCareful(recs: Recordings, objects: set<string>, now: int, limit: nat, ids: seq<string>,
                      storageOn: bool, w: World)
    requires Listing(recs, now, limit, ids)
    ensures var recs' := Marked(recs, ids, storageOn, w, now);
      var objects' := if storageOn then objects - Removed(recs, ids, w) else objects;
      && recs'.Keys == recs.Keys
      && (forall id :: id in recs && recs'[id] != recs[id] ==>
            && Due(recs[id], now) && recs'[id] == recs[id].(deletedAt := Some(now))
            && (storageOn ==> recs[id].key !in objects'))
      && (forall key :: key in objects && key !in objects' ==>
            exists id :: id in recs && Due(recs[id], now) && recs[id].key == key)
  {
  }

  /** No live row outside the batch loses its object. */
  ghost predicate SparesOthers(recs: Recordings, ids: seq<string>, w: World) {
    forall id :: id in recs && Live(recs[id]) && id !in ids ==> recs[id].key !in Removed(recs, ids, w)
  }

  /** A live row that will be due shares its object with no other live row. */
  ghost predicate KeysApart(recs: Recordings) {
    forall a, b :: a in recs && b in recs && a != b && Live(recs[a]) && Live(recs[b]) && recs[a].due.Some? ==>
      recs[a].key != recs[b].key
  }

  lemma LatestRow(recs: Recordings, s: set<string>) returns (m: string)
    requires s != {} && forall id :: id in s ==> id in recs && recs[id].due.Some?
    ensures m in s && forall id :: id in s ==> recs[id].due.value <= recs[m].due.value
  {
    m :| m in s;
    if s != {m} {
      assert s - {m} != {};
      var m' := LatestRow(recs, s - {m});
      if recs[m].due.value < recs[m'].due.value {
        m := m';
      }
    }
  }

  /** Any set of rows can be listed by due date. */
  lemma SortRows(recs: Recordings, s: set<string>) returns (ids: seq<string>)
    requires forall id :: id in s ==> id in recs && recs[id].due.Some?
    ensures forall i, j :: 0 <= i < j < |ids| ==> ids[i] != ids[j]
    ensures forall id :: id in ids <==> id in s
    ensures forall i, j :: 0 <= i < j < |ids| ==> recs[ids[i]].due.value <= recs[ids[j]].due.value
  {
    ids := [];
    if s != {} {
      var m := LatestRow(recs, s);
      var rest := SortRows(recs, s - {m});
      assert forall i :: 0 <= i < |rest| ==> rest[i] in s - {m};
      ids := rest + [m];
    }
  }

  lemma LastOfBatch(recs: Recordings, rest: seq<string>, a: string)
    requires a in recs && Live(recs[a]) && recs[a].due.Some?
    requires forall i, j :: 0 <= i < j < |rest| ==> rest[i] != rest[j]
    requires forall id :: id in rest <==>
               id in recs && Live(recs[id]) && recs[id].due.Some? && recs[id].due.value < recs[a].due.value
    requires forall i, j :: 0 <= i < j < |rest| ==> recs[rest[i]].due.value <= recs[rest[j]].due.value
    ensures Listing(recs, recs[a].due.value, |rest| + 1, rest + [a])
  {
    var ids := rest + [a];
    forall i | 0 <= i < |ids|
      ensures ids[i] in recs && Due(recs[ids[i]], recs[a].due.value)
      ensures i < |rest| ==> ids[i] == rest[i] && ids[i] in rest
    {
    }
  }

  lemma SharedKeyIsHit(recs: Recordings, a: string, b: string)
    requires a in recs && b in recs && a != b && Live(recs[a]) && Live(recs[b]) && recs[a].key == recs[b].key
    requires recs[a].due.Some? && (recs[b].due.Some? ==> recs[a].due.value <= recs[b].due.value)
    ensures exists now, limit: nat, ids, w :: Listing(recs, now, limit, ids) && !SparesOthers(recs, ids, w)
  {
    var now := recs[a].due.value;
    var earlier := set id | id in recs && Live(recs[id]) && recs[id].due.Some? && recs[id].due.value < now;
    var rest := SortRows(recs, earlier);
    assert forall i :: 0 <= i < |rest| ==> rest[i] in earlier;
    var ids := rest + [a];
    LastOfBatch(recs, rest, a);
    hide Listing;
    var w := World(_ => false, _ => false);
    assert a in ids && recs[a].key in Removed(recs, ids, w);
    assert !SparesOthers(recs, ids, w);
  }

  /** Passes of any size at any time spare the objects of all live rows outside their batches exactly
      when no live row that will be due shares its object. */
  lemma SparesOthersIffKeysApart(recs: Recordings)
    ensures KeysApart(recs) <==>
            forall now, limit: nat, ids, w :: Listing(recs, now, limit, ids) ==> SparesOthers(recs, ids, w)
  {
    hide Listing;
    if KeysApart(recs) {
      forall now, limit: nat, ids, w | Listing(recs, now, limit, ids)
        ensures SparesOthers(recs, ids, w)
      {
        ListedAreDue(recs, now, limit, ids);
      }
    } else {
      var a, b :| a in recs && b in recs && a != b && Live(recs[a]) && Live(recs[b]) && recs[a].due.Some?
                  && recs[a].key == recs[b].key;
      if recs[b].due.Some? && recs[b].due.value < recs[a].due.value {
        SharedKeyIsHit(recs, b, a);
      } else {
        SharedKeyIsHit(recs, a, b);
      }
    }
  }

  lemma ListedAreDue(recs: Recordings, now: int, limit: nat, ids: seq<string>)
    requires Listing(recs, now, limit, ids)
    ensures forall id :: id in ids ==> id in recs && Due(recs[id], now)
  {
  }

  /** Two uploads of a call within a second get the same key: when the first is due, its pass takes the
      object from the second, which is still the one to play. */
  lemma SameSecondUploads(r: Recording)
    ensures var recs := After([Upload("a", r.(status := Available), 1, 0, true),
                               Upload("b", r.(status := Available), 1, 1, true)]);
      && Listing(recs, DAY, 100, ["a"])
      && "b" in recs && Playable(recs["b"])
      && recs["b"].key in Removed(recs, ["a"], World(_ => false, _ => false))
  {
    var up := [Upload("a", r.(status := Available), 1, 0, true), Upload("b", r.(status := Available), 1, 1, true)];
    var one := After([up[0]]);
    assert [up[0]][..0] == [] && up[..1] == [up[0]];
    assert one == Step(After([]), up[0]);
    assert one == Uploaded(map[], "a", up[0].r, 1, 0);
    assert After(up) == Step(one, up[1]);
    assert After(up) == Uploaded(one, "b", up[1].r, 1, 1);
    assert "a" in ["a"];
  }

  // ----- the backlog clears

  /** The live rows due by a given time. */
  function Backlog(recs: Recordings, t: int): set<string> {
    set id | id in recs && Due(recs[id], t)
  }

  function Minus(a: nat, b: nat): nat {
    if a <= b then 0 else a - b
  }

  function SetOf(ids: seq<string>): set<string> {
    set id | id in ids
  }

  lemma {:induction false} SizeOfDistinct(ids: seq<string>)
    requires forall i, j :: 0 <= i < j < |ids| ==> ids[i] != ids[j]
    ensures |SetOf(ids)| == |ids|
  {
    if ids != [] {
      var n := |ids| - 1;
      SizeOfDistinct(ids[..n]);
      assert SetOf(ids) == SetOf(ids[..n]) + {ids[n]};
      assert ids[n] !in ids[..n];
    }
  }

  lemma {:induction false} SmallerSet(a: set<string>, b: set<string>)
    requires a <= b
    ensures |b - a| == |b| - |a|
  {
    assert b == a + (b - a);
  }

  /** A pass at any later time that can fail only on the rows in `stuck` takes at least the rest of a
      full batch off the clearable backlog, or clears it. */
  lemma PassShrinksBacklog(recs: Recordings, t: int, now: int, limit: nat, ids: seq<string>,
                           storageOn: bool, w: World, stuck: set<string>)
    requires t <= now && Listing(recs, now, limit, ids)
    requires forall id :: id !in stuck ==> Clears(id, storageOn, w)
    ensures |Backlog(Marked(recs, ids, storageOn, w, now), t) - stuck|
         <= Minus(|Backlog(recs, t) - stuck|, Minus(limit, |stuck|))
  {
    var s, b := SetOf(ids), Backlog(recs, t) - stuck;
    var b' := Backlog(Marked(recs, ids, storageOn, w, now), t) - stuck;
    PassTakes(recs, t, now, ids, storageOn, w, stuck);
    BatchIsOldest(recs, t, now, limit, ids);
    hide *;
    BatchSizes(b, b', s, stuck, limit);
  }

  lemma BatchSizes(b: set<string>, b': set<string>, s: set<string>, stuck: set<string>, limit: nat)
    requires b' <= b - s
    requires b <= s || (s - stuck <= b && |s| == limit)
    ensures |b'| <= Minus(|b|, Minus(limit, |stuck|))
  {
    if b <= s {
      assert b' == {};
    } else {
      SmallerSet(s - stuck, b);
      SmallerSet(b', b - (s - stuck));
      SizeOfDifference(s, stuck);
    }
  }

  lemma PassTakes(recs: Recordings, t: int, now: int, ids: seq<string>, storageOn: bool, w: World, stuck: set<string>)
    requires forall id :: id !in stuck ==> Clears(id, storageOn, w)
    ensures Backlog(Marked(recs, ids, storageOn, w, now), t) - stuck <= Backlog(recs, t) - stuck - SetOf(ids)
  {
  }

  /** A batch that leaves a due row behind is a full one, and all of its rows were due before that one. */
  lemma BatchIsOldest(recs: Recordings, t: int, now: int, limit: nat, ids: seq<string>)
    requires t <= now && Listing(recs, now, limit, ids)
    ensures Backlog(recs, t) <= SetOf(ids) || (SetOf(ids) <= Backlog(recs, t) && |SetOf(ids)| == limit)
  {
    SizeOfDistinct(ids);
    if x :| x in Backlog(recs, t) && x !in SetOf(ids) {
      assert |ids| == limit;
      forall id | id in ids
        ensures id in Backlog(recs, t)
      {
        assert recs[id].due.value <= recs[x].due.value;
      }
    }
  }

  lemma SizeOfDifference(s: set<string>, stuck: set<string>)
    ensures |s - stuck| >= Minus(|s|, |stuck|)
  {
    SmallerSet(s * stuck, s);
    SmallerSet(s * stuck, stuck);
    assert s - s * stuck == s - stuck;
  }

  /** One pass that can fail only on the rows in `stuck`. */
  ghost predicate PassAfter(recs: Recordings, recs': Recordings, t: int, limit: nat, stuck: set<string>) {
    exists now, ids, storageOn, w :: t <= now && Listing(recs, now, limit, ids)
      && (forall id :: id !in stuck ==> Clears(id, storageOn, w)) && recs' == Marked(recs, ids, storageOn, w, now)
  }

  /** What may happen between passes from time t on: an upload or a deletion. */
  ghost predicate OtherAfter(recs: Recordings, recs': Recordings, t: int) {
    exists c: Command :: (c.Delete? || (c.Upload? && t <= c.now)) && recs' == Step(recs, c)
  }

  datatype Turn = Sweep | Other

  function Sweeps(turns: seq<Turn>): nat {
    if turns == [] then 0
    else Sweeps(turns[..|turns| - 1]) + if turns[|turns| - 1].Sweep? then 1 else 0
  }

  /** A run from time t on: passes that can fail only on the rows in `stuck`, and what happens between them. */
  ghost predicate Run(states: seq<Recordings>, turns: seq<Turn>, t: int, limit: nat, stuck: set<string>) {
    && |states| == |turns| + 1
    && forall i :: 0 <= i < |turns| ==>
         if turns[i].Sweep? then PassAfter(states[i], states[i + 1], t, limit, stuck)
         else OtherAfter(states[i], states[i + 1], t)
  }

  lemma OtherShrinks(recs: Recordings, recs': Recordings, t: int, stuck: set<string>)
    requires OtherAfter(recs, recs', t)
    ensures |Backlog(recs', t) - stuck| <= |Backlog(recs, t) - stuck|
  {
    var c: Command :| (c.Delete? || (c.Upload? && t <= c.now)) && recs' == Step(recs, c);
    assert Backlog(recs', t) <= Backlog(recs, t);
    SmallerSet(Backlog(recs', t) - stuck, Backlog(recs, t) - stuck);
  }

  lemma PassAfterShrinks(recs: Recordings, recs': Recordings, t: int, limit: nat, stuck: set<string>)
    requires PassAfter(recs, recs', t, limit, stuck)
    ensures |Backlog(recs', t) - stuck| <= Minus(|Backlog(recs, t) - stuck|, Minus(limit, |stuck|))
  {
    hide Listing, Marked, Backlog;
    var now, ids, storageOn, w :| t <= now && Listing(recs, now, limit, ids)
      && (forall id :: id !in stuck ==> Clears(id, storageOn, w)) && recs' == Marked(recs, ids, storageOn, w, now);
    PassShrinksBacklog(recs, t, now, limit, ids, storageOn, w, stuck);
  }

  /** What is left of a backlog of `n` rows after `k` passes of `batch` rows each. */
  function Left(n: nat, k: nat, batch: nat): nat {
    if k == 0 then n else Minus(Left(n, k - 1, batch), batch)
  }

  lemma {:induction false} LeftIsAProduct(n: nat, k: nat, batch: nat)
    ensures Left(n, k, batch) == if n <= k * batch then 0 else n - k * batch
  {
    if k > 0 {
      LeftIsAProduct(n, k - 1, batch);
      assert k * batch == (k - 1) * batch + batch;
    }
  }

  lemma {:induction false} RunShrinks(states: seq<Recordings>, turns: seq<Turn>, t: int, limit: nat,
                                      stuck: set<string>)
    requires Run(states, turns, t, limit, stuck)
    ensures |Backlog(states[|turns|], t) - stuck|
         <= Left(|Backlog(states[0], t) - stuck|, Sweeps(turns), Minus(limit, |stuck|))
  {
    hide Backlog, PassAfter, OtherAfter;
    if turns != [] {
      var n := |turns| - 1;
      assert states[..n + 1][n] == states[n];
      RunShrinks(states[..n + 1], turns[..n], t, limit, stuck);
      if turns[n].Sweep? {
        PassAfterShrinks(states[n], states[n + 1], t, limit, stuck);
      } else {
        OtherShrinks(states[n], states[n + 1], t, stuck);
      }
    }
  }

  /** Of every batch, the rows that cannot be cleared take their places and the others go: k passes
      clear any backlog of at most k * (limit - |stuck|) clearable rows, and without failures
      ceil(n / limit) passes clear n rows, whatever else is uploaded or deleted meanwhile. */
  lemma BacklogClears(states: seq<Recordings>, turns: seq<Turn>, t: int, limit: nat, stuck: set<string>)
    requires Run(states, turns, t, limit, stuck)
    requires |Backlog(states[0], t) - stuck| <= Sweeps(turns) * Minus(limit, |stuck|)
    ensures Backlog(states[|turns|], t) <= stuck
  {
    RunShrinks(states, turns, t, limit, stuck);
    hide Run, Backlog;
    LeftIsAProduct(|Backlog(states[0], t) - stuck|, Sweeps(turns), Minus(limit, |stuck|));
    var rest := Backlog(states[|turns|], t) - stuck;
    assert rest == {};
    assert forall id :: id in Backlog(states[|turns|], t) && id !in stuck ==> id in rest;
  }

  // ----- fewer stuck rows than a batch holds

  /** Every run of at least k passes from these rows clears all that was due by t, but for the stuck ones. */
  ghost predicate ClearedBy(recs: Recordings, t: int, limit: nat, stuck: set<string>, k: nat) {
    forall states, turns :: Run(states, turns, t, limit, stuck) && states[0] == recs && Sweeps(turns) >= k ==>
      Backlog(states[|turns|], t) <= stuck
  }

  ghost predicate ClearsUp(recs: Recordings, t: int, limit: nat, stuck: set<string>) {
    exists k: nat :: ClearedBy(recs, t, limit, stuck, k)
  }

  lemma ClearedByBacklog(recs: Recordings, t: int, limit: nat, stuck: set<string>)
    requires |stuck| < limit
    ensures ClearedBy(recs, t, limit, stuck, |Backlog(recs, t)|)
  {
    hide Backlog;
    forall states, turns |
      Run(states, turns, t, limit, stuck) && states[0] == recs && Sweeps(turns) >= |Backlog(recs, t)|
      ensures Backlog(states[|turns|], t) <= stuck
    {
      SmallerSet(Backlog(recs, t) - stuck, Backlog(recs, t));
      TimesAtLeast(Sweeps(turns), Minus(limit, |stuck|));
      BacklogClears(states, turns, t, limit, stuck);
    }
  }

  lemma TimesAtLeast(k: nat, m: nat)
    requires m >= 1
    ensures k * m >= k
  {
  }

  /** As many stuck rows as a batch holds, all due before every other row, starve the rest: whatever the
      query lists while they fail, at whatever time, is made of them, and the pass changes nothing. */
  lemma StuckBatchStarvesTheRest(recs: Recordings, now: int, limit: nat, ids: seq<string>, storageOn: bool, w: World,
                                 stuck: set<string>)
    requires Listing(recs, now, limit, ids) && limit <= |stuck|
    requires forall x :: x in stuck ==> x in recs && Due(recs[x], now) && !Clears(x, storageOn, w)
    requires forall id, x :: id in recs && Due(recs[id], now) && id !in stuck && x in stuck ==>
               recs[x].due.value < recs[id].due.value
    ensures SetOf(ids) <= stuck
    ensures Marked(recs, ids, storageOn, w, now) == recs
  {
    hide Listing;
    BatchOf(recs, now, limit, ids);
    forall id | id in SetOf(ids)
      ensures id in stuck
    {
      if id !in stuck {
        var x := LeftOut(SetOf(ids), stuck, id);
        ListedFirst(recs, now, limit, ids, id, x);
      }
    }
  }

  lemma BatchOf(recs: Recordings, now: int, limit: nat, ids: seq<string>)
    requires Listing(recs, now, limit, ids)
    ensures |SetOf(ids)| <= limit
    ensures forall id :: id in ids ==> id in recs && Due(recs[id], now)
  {
    SizeOfDistinct(ids);
  }

  lemma ListedFirst(recs: Recordings, now: int, limit: nat, ids: seq<string>, id: string, x: string)
    requires Listing(recs, now, limit, ids) && id in ids && x !in ids
    requires id in recs && Due(recs[id], now) && x in recs && Due(recs[x], now)
    ensures recs[id].due.value <= recs[x].due.value
  {
  }

  lemma LeftOut(listed: set<string>, stuck: set<string>, id: string) returns (x: string)
    requires |listed| <= |stuck| && id in listed && id !in stuck
    ensures x in stuck && x !in listed
  {
    SmallerSet(listed * stuck, listed);
    SmallerSet(listed * stuck, stuck);
    assert id in listed - listed * stuck;
    x :| x in stuck - listed * stuck;
  }

  lemma {:induction false} LongerThanAll(s: set<string>) returns (n: nat)
    ensures forall x :: x in s ==> |x| < n
  {
    n := 0;
    if s != {} {
      var y :| y in s;
      n := LongerThanAll(s - {y});
      if n <= |y| {
        n := |y| + 1;
      }
    }
  }

  /** The stuck rows are due at 0, and one more row at 1. */
  function Starved(stuck: set<string>, x: string): Recordings {
    map id | id in stuck + {x} :: Recording("", "", id, Archived, None, Some(if id in stuck then 0 else 1))
  }

  lemma StarvedBatch(stuck: set<string>, x: string, limit: nat) returns (ids: seq<string>)
    requires x !in stuck && limit <= |stuck|
    ensures Listing(Starved(stuck, x), 1, limit, ids)
    ensures forall id :: id in ids ==> id in stuck
  {
    var recs := Starved(stuck, x);
    var all := SortRows(recs, stuck);
    assert |all| == |stuck| by {
      SizeOfDistinct(all);
      assert SetOf(all) == stuck;
    }
    ids := all[..limit];
    assert forall i :: 0 <= i < |all| ==> all[i] in stuck && recs[all[i]].due == Some(0);
    assert forall i :: 0 <= i < limit ==> ids[i] == all[i];
    assert forall id :: id in recs ==> recs[id].due.value >= 0;
  }

  lemma StarvedPass(stuck: set<string>, x: string, limit: nat)
    requires x !in stuck && limit <= |stuck|
    ensures PassAfter(Starved(stuck, x), Starved(stuck, x), 1, limit, stuck)
  {
    var recs := Starved(stuck, x);
    var w := World(_ => false, id => id in stuck);
    var ids := StarvedBatch(stuck, x, limit);
    hide Listing, Starved;
    assert forall id :: id !in stuck ==> Clears(id, false, w);
    assert Marked(recs, ids, false, w, 1) == recs;
  }

  lemma {:induction false} SweepsOf(k: nat)
    ensures Sweeps(seq(k, _ => Sweep)) == k
  {
    if k > 0 {
      SweepsOf(k - 1);
      assert seq(k, _ => Sweep)[..k - 1] == seq(k - 1, _ => Sweep);
    }
  }

  lemma NeverCleared(stuck: set<string>, x: string, limit: nat)
    requires x !in stuck && limit <= |stuck|
    ensures !ClearsUp(Starved(stuck, x), 1, limit, stuck)
  {
    var recs := Starved(stuck, x);
    StarvedPass(stuck, x, limit);
    assert x in Backlog(recs, 1);
    hide PassAfter, Starved, Backlog;
    forall k: nat
      ensures !ClearedBy(recs, 1, limit, stuck, k)
    {
      var states, turns := seq(k + 1, _ => recs), seq(k, _ => Sweep);
      SweepsOf(k);
      assert Run(states, turns, 1, limit, stuck);
      assert states[0] == recs && states[|turns|] == recs;
    }
  }

  /** Passes that can fail only on `stuck` clear every other row sooner or later, whatever the rows are,
      exactly when fewer rows are stuck than a batch holds. */
  lemma ClearsUpIffRoomInBatch(limit: nat, stuck: set<string>)
    ensures |stuck| < limit <==> forall recs, t :: ClearsUp(recs, t, limit, stuck)
  {
    if |stuck| < limit {
      forall recs, t
        ensures ClearsUp(recs, t, limit, stuck)
      {
        ClearedByBacklog(recs, t, limit, stuck);
      }
    } else {
      var n := LongerThanAll(stuck);
      var x := seq(n, _ => 'x');
      NeverCleared(stuck, x, limit);
    }
  }

  // ----- one recording to play per call

  predicate Playable(r: Recording) {
    r.status == Available && Live(r)
  }

  ghost predicate OneAvailable(recs: Recordings) {
    forall a, b :: a in recs && b in recs && recs[a].call == recs[b].call && Playable(recs[a]) && Playable(recs[b]) ==>
      a == b
  }

  datatype Command =
    | Upload(id: string, r: Recording, retentionDays: int, now: int, dbOk: bool)
    | Delete(tenant: string, id: string, now: int)
    | Pass(ids: seq<string>, storageOn: bool, w: World, now: int)

  function Step(recs: Recordings, c: Command): Recordings {
    match c
    case Upload(id, r, days, now, dbOk) => if dbOk && id !in recs then Uploaded(recs, id, r, days, now) else recs
    case Delete(tenant, id, now) =>
      var d := SoftDeleted(recs, tenant, id, now);
      if d.Some? then d.value else recs
    case Pass(ids, storageOn, w, now) => Marked(recs, ids, storageOn, w, now)
  }

  function After(commands: seq<Command>): Recordings {
    if commands == [] then map[]
    else Step(After(commands[..|commands| - 1]), commands[|commands| - 1])
  }

  lemma UploadKeepsOneAvailable(recs: Recordings, id: string, r: Recording, days: int, now: int)
    requires OneAvailable(recs)
    ensures OneAvailable(Uploaded(recs, id, r, days, now))
  {
    var stepped := Stepped(recs, r.call);
    assert forall x :: x in stepped ==> (Playable(stepped[x]) <==> Playable(recs[x]) && recs[x].call != r.call);
  }

  lemma StepKeepsOneAvailable(recs: Recordings, c: Command)
    requires OneAvailable(recs)
    ensures OneAvailable(Step(recs, c))
  {
    match c
    case Upload(id, r, days, now, dbOk) =>
      if dbOk && id !in recs {
        UploadKeepsOneAvailable(recs, id, r, days, now);
      }
    case Delete(tenant, id, now) =>
    case Pass(ids, storageOn, w, now) =>
  }

  /** However uploads, deletions and passes follow each other, a call has at most one live,
      available recording. */
  lemma {:induction false} EveryRunHasOneAvailable(commands: seq<Command>)
    ensures OneAvailable(After(commands))
  {
    if commands != [] {
      hide OneAvailable, Step;
      EveryRunHasOneAvailable(commands[..|commands| - 1]);
      StepKeepsOneAvailable(After(commands[..|commands| - 1]), commands[|commands| - 1]);
    }
  }
}
