/** Turning a document into stored, embedded chunks:
    backend/internal/kb/ingest.go, backend/internal/kb/embeddings.go and
    backend/internal/store/knowledge_base.go. */
module Ingest {
  import opened Options
  import opened Chunker

  type Vector = seq<real>

  const EMBEDDING_DIM: nat := 1536
  const MAX_BATCH_INPUTS: nat := 100

  // One entry of the provider's answer; a null embedding is None.
  datatype Item = Item(index: int, embedding: Option<Vector>)

  // The provider may answer with any list of entries, or not at all.
  datatype Reply = NoReply | Data(items: seq<Item>)

  datatype Embedded = EmbedError | Vectors(vecs: seq<Vector>)

  // ----- embedding a batch

  /** The embedding of the last entry for an input. */
  function LastFor(items: seq<Item>, i: int): Option<Vector> {
    if items == [] then None
    else
      var n := |items| - 1;
      if items[n].index == i then items[n].embedding else LastFor(items[..n], i)
  }

  ghost predicate Complete(items: seq<Item>, n: nat) {
    forall i :: 0 <= i < n ==> LastFor(items, i).Some? && |LastFor(items, i).value| == 1536
  }

  ghost predicate EmbedSucceeds(enabled: bool, n: nat, reply: Reply) {
    enabled && (n == 0 || (n <= 100 && reply.Data? && Complete(reply.items, n)))
  }

  method Embed(enabled: bool, inputs: seq<string>, reply: Reply) returns (r: Embedded)
    ensures r.Vectors? <==> EmbedSucceeds(enabled, |inputs|, reply)
    ensures r.Vectors? ==> |r.vecs| == |inputs|
    ensures r.Vectors? && inputs != [] ==>
              forall i :: 0 <= i < |inputs| ==> LastFor(reply.items, i) == Some(r.vecs[i])
  {
    if !enabled {
      return EmbedError;
    }
    if |inputs| == 0 {
      return Vectors([]);
    }
    if |inputs| > MAX_BATCH_INPUTS || reply.NoReply? {
      return EmbedError;
    }
    var slots := new Option<Vector>[|inputs|](_ => None);
    for k := 0 to |reply.items|
      invariant forall i :: 0 <= i < |inputs| ==> slots[i] == LastFor(reply.items[..k], i)
    {
      assert reply.items[..k + 1][..k] == reply.items[..k];
      var d := reply.items[k];
      if 0 <= d.index < |inputs| {
        slots[d.index] := d.embedding;
      }
    }
    assert reply.items[..|reply.items|] == reply.items;
    var vecs: seq<Vector> := [];
    for i := 0 to |inputs|
      invariant |vecs| == i
      invariant forall j :: 0 <= j < i ==> slots[j] == Some(vecs[j]) && |vecs[j]| == EMBEDDING_DIM
    {
      if slots[i].None? || |slots[i].value| != EMBEDDING_DIM {
        assert LastFor(reply.items, i) == slots[i];
        return EmbedError;
      }
      vecs := vecs + [slots[i].value];
    }
    return Vectors(vecs);
  }

  /** Of several entries for an input the last one counts. */
  lemma {:induction false} LastForIsLast(items: seq<Item>, i: int)
    ensures (exists k :: 0 <= k < |items| && items[k].index == i
               && LastFor(items, i) == items[k].embedding
               && forall j :: k < j < |items| ==> items[j].index != i)
            || (LastFor(items, i) == None && forall k :: 0 <= k < |items| ==> items[k].index != i)
  {
    if items != [] {
      var n := |items| - 1;
      if items[n].index != i {
        LastForIsLast(items[..n], i);
        if k :| 0 <= k < n && items[..n][k].index == i && LastFor(items[..n], i) == items[..n][k].embedding
                && forall j :: k < j < n ==> items[..n][j].index != i {
          assert items[k] == items[..n][k];
          assert forall j :: k < j < n ==> items[j] == items[..n][j];
        } else {
          assert forall k :: 0 <= k < n ==> items[k] == items[..n][k];
        }
      }
    }
  }

  ghost predicate DistinctIndexes(items: seq<Item>) {
    forall a, b :: 0 <= a < b < |items| ==> items[a].index != items[b].index
  }

  lemma {:induction false} OnlyEntryIsLast(items: seq<Item>, k: nat)
    requires DistinctIndexes(items) && k < |items|
    ensures LastFor(items, items[k].index) == items[k].embedding
  {
    if k < |items| - 1 {
      OnlyEntryIsLast(items[..|items| - 1], k);
    }
  }

  lemma {:induction false} NoEntryIsNone(items: seq<Item>, i: int)
    requires forall k :: 0 <= k < |items| ==> items[k].index != i
    ensures LastFor(items, i) == None
  {
    if items != [] {
      NoEntryIsNone(items[..|items| - 1], i);
    }
  }

  /** The order in which the provider lists its entries does not matter. */
  lemma ReplyOrderIsIrrelevant(items: seq<Item>, shuffled: seq<Item>, i: int)
    requires multiset(items) == multiset(shuffled)
    requires DistinctIndexes(items) && DistinctIndexes(shuffled)
    ensures LastFor(items, i) == LastFor(shuffled, i)
  {
    if k :| 0 <= k < |items| && items[k].index == i {
      assert items[k] in multiset(shuffled);
      var j :| 0 <= j < |shuffled| && shuffled[j] == items[k];
      OnlyEntryIsLast(items, k);
      OnlyEntryIsLast(shuffled, j);
    } else {
      forall j | 0 <= j < |shuffled|
        ensures shuffled[j].index != i
      {
        assert shuffled[j] in multiset(items);
      }
      NoEntryIsNone(items, i);
      NoEntryIsNone(shuffled, i);
    }
  }

  // ----- the store

  datatype Status = Pending | Processing | Ready | Failed

  datatype Document = Document(status: Status, chunkCount: nat)

  datatype Row = Row(tenant: string, document: string, index: nat, content: string, tokens: nat, embedding: Vector)

  // What may go wrong around one batch: the process dies before it, the provider's answer
  // is bad, or the insert transaction fails at some row or at its commit.
  datatype Batch = Dies | Runs(reply: Reply, insertOk: bool)

  /** The row that chunk k of a document must be stored as. */
  ghost function RowOf(tenant: string, doc: string, chunks: seq<Chunk>, world: nat -> Batch, k: nat): Row
    requires k < |chunks|
    requires world(k / MAX_BATCH_INPUTS).Runs? && world(k / MAX_BATCH_INPUTS).reply.Data?
    requires LastFor(world(k / MAX_BATCH_INPUTS).reply.items, k % MAX_BATCH_INPUTS).Some?
  {
    var items := world(k / MAX_BATCH_INPUTS).reply.items;
    Row(tenant, doc, k, chunks[k].content, chunks[k].tokens, LastFor(items, k % MAX_BATCH_INPUTS).value)
  }

  ghost predicate BatchSucceeds(enabled: bool, n: nat, b: Batch) {
    b.Runs? && EmbedSucceeds(enabled, n, b.reply) && b.insertOk
  }

  function BatchEnd(start: nat, n: nat): nat {
    if start + MAX_BATCH_INPUTS > n then n else start + MAX_BATCH_INPUTS
  }

  /** How many of n chunks get stored: all before the first batch that fails. */
  ghost function StoredFrom(start: nat, n: nat, enabled: bool, world: nat -> Batch): nat
    requires start % MAX_BATCH_INPUTS == 0
    decreases n - start
  {
    if start >= n then n
    else if BatchSucceeds(enabled, BatchEnd(start, n) - start, world(start / MAX_BATCH_INPUTS))
    then StoredFrom(start + MAX_BATCH_INPUTS, n, enabled, world)
    else start
  }

  /** The rows of the first m chunks, each with the vector for its own input. */
  ghost predicate Holds(rows: seq<Row>, m: nat, tenant: string, doc: string, chunks: seq<Chunk>, world: nat -> Batch) {
    && |rows| == m <= |chunks|
    && forall k {:trigger rows[k]} :: 0 <= k < m ==>
         && world(k / MAX_BATCH_INPUTS).Runs? && world(k / MAX_BATCH_INPUTS).reply.Data?
         && LastFor(world(k / MAX_BATCH_INPUTS).reply.items, k % MAX_BATCH_INPUTS).Some?
         && rows[k] == RowOf(tenant, doc, chunks, world, k)
  }

  /** Row k holds chunk k of the document, with its number and size, and the vector that the reply to its batch
      gave for it. */
  lemma HoldsInFull(rows: seq<Row>, m: nat, tenant: string, doc: string, chunks: seq<Chunk>, world: nat -> Batch,
                    k: nat)
    requires Holds(rows, m, tenant, doc, chunks, world) && k < m
    ensures m == |rows| <= |chunks|
    ensures var row := rows[k];
      && row.tenant == tenant && row.document == doc && row.index == k
      && row.content == chunks[k].content && row.tokens == chunks[k].tokens
      && world(k / 100).Runs? && world(k / 100).reply.Data?
      && LastFor(world(k / 100).reply.items, k % 100) == Some(row.embedding)
  {
  }

  class KnowledgeBase {
    var rows: seq<Row>
    var docs: map<string, Document>

    method MarkStatus(id: string, status: Status, chunkCount: nat, dbOk: bool) returns (ok: bool)
      modifies this`docs
      ensures ok == (dbOk && id in old(docs))
      ensures docs == if ok then old(docs)[id := Document(status, chunkCount)] else old(docs)
    {
      ok := dbOk && id in docs;
      if ok {
        docs := docs[id := Document(status, chunkCount)];
      }
    }

    // One transaction: either every row or none.
    method InsertChunks(batch: seq<Row>, dbOk: bool) returns (ok: bool)
      modifies this`rows
      ensures ok == (batch == [] || dbOk)
      ensures rows == if ok then old(rows) + batch else old(rows)
    {
      if |batch| == 0 {
        return true;
      }
      var tx := rows;
      for i := 0 to |batch|
        invariant tx == rows + batch[..i]
      {
        tx := tx + [batch[i]];
      }
      assert batch[..|batch|] == batch;
      if dbOk {
        rows := tx;
      }
      return dbOk;
    }

    // The body of the batch loop: embed the contents, pair them up, insert the rows.
    method StoreBatch(tenant: string, doc: string, chunks: seq<Chunk>, start: nat, end: nat, enabled: bool,
                      reply: Reply, insertOk: bool) returns (ok: bool, ghost batch: seq<Row>)
      requires start < end <= |chunks|
      requires forall k :: 0 <= k < |chunks| ==> chunks[k].index == k
      modifies this`rows
      ensures ok == (EmbedSucceeds(enabled, end - start, reply) && insertOk)
      ensures rows == if ok then old(rows) + batch else old(rows)
      ensures ok ==> |batch| == end - start && BatchRows(batch, start, tenant, doc, chunks, reply)
    {
      batch := [];
      var inputs := seq(end - start, i requires 0 <= i < end - start => chunks[start + i].content);
      var r := Embed(enabled, inputs, reply);
      if r.EmbedError? {
        return false, batch;
      }
      var pending := seq(end - start, i requires 0 <= i < end - start =>
        Row(tenant, doc, chunks[start + i].index, chunks[start + i].content, chunks[start + i].tokens, r.vecs[i]));
      batch := pending;
      ok := InsertChunks(pending, insertOk);
    }

    // The batch loop of Ingest. It stops at the first batch that fails.
    method StoreChunks(tenant: string, doc: string, chunks: seq<Chunk>, enabled: bool, world: nat -> Batch)
      returns (persisted: nat)
      requires forall k :: 0 <= k < |chunks| ==> chunks[k].index == k
      modifies this`rows
      ensures persisted == StoredFrom(0, |chunks|, enabled, world) <= |chunks|
      ensures exists stored :: rows == old(rows) + stored && Holds(stored, persisted, tenant, doc, chunks, world)
    {
      hide Holds, BatchRows, EmbedSucceeds, RowOf, Complete, LastFor;
      HoldsNothing(tenant, doc, chunks, world);
      persisted := 0;
      ghost var stored: seq<Row> := [];
      var start := 0;
      while start < |chunks|
        invariant start % MAX_BATCH_INPUTS == 0
        invariant persisted == if start < |chunks| then start else |chunks|
        invariant StoredFrom(0, |chunks|, enabled, world) == StoredFrom(start, |chunks|, enabled, world)
        invariant rows == old(rows) + stored && Holds(stored, persisted, tenant, doc, chunks, world)
        decreases |chunks| - start
      {
        var end := start + MAX_BATCH_INPUTS;
        if end > |chunks| {
          end := |chunks|;
        }
        var b := world(start / MAX_BATCH_INPUTS);
        if b.Dies? {
          return;
        }
        var ok, batch := StoreBatch(tenant, doc, chunks, start, end, enabled, b.reply, b.insertOk);
        if !ok {
          return;
        }
        BatchHolds(stored, batch, start, tenant, doc, chunks, world);
        assert old(rows) + stored + batch == old(rows) + (stored + batch);
        stored := stored + batch;
        persisted := persisted + (end - start);
        start := start + MAX_BATCH_INPUTS;
      }
    }

    /** Ingest one document. `world` says what happens around each batch, and `marks` whether
        the status updates at the start and at the end reach the database. */
    method Ingest(tenant: string, doc: string, text: string, enabled: bool,
                  world: nat -> Batch, marks: (bool, bool)) returns (persisted: nat)
      modifies this
      ensures persisted == if marks.0 && doc in old(docs)
                           then StoredFrom(0, |Chunks(text, DEFAULT_OPTIONS)|, enabled, world) else 0
      ensures exists stored :: rows == old(rows) + stored
                && Holds(stored, persisted, tenant, doc, Chunks(text, DEFAULT_OPTIONS), world)
      ensures docs == if doc !in old(docs) || !marks.0 then old(docs)
                      else old(docs)[doc := FinalDocument(|Chunks(text, DEFAULT_OPTIONS)|, persisted, world, marks.1)]
    {
      hide Chunks, Holds;
      HoldsNothing(tenant, doc, Chunks(text, DEFAULT_OPTIONS), world);
      assert rows == rows + [];
      persisted := 0;
      var marked := MarkStatus(doc, Processing, 0, marks.0);
      if !marked {
        return;
      }
      var chunks := ChunkText(text, DEFAULT_OPTIONS);
      if |chunks| == 0 {
        var _ := MarkStatus(doc, Failed, 0, marks.1);
        return;
      }
      ChunksFit(text, DEFAULT_OPTIONS);
      persisted := StoreChunks(tenant, doc, chunks, enabled, world);
      if persisted < |chunks| && world(persisted / MAX_BATCH_INPUTS).Dies? {
        return;
      }
      var status := if persisted < |chunks| then Failed else Ready;
      var _ := MarkStatus(doc, status, persisted, marks.1);
    }
  }

  /** What the document row says at the end: `ready` needs every chunk stored, and a recorded
      count is the number of rows. */
  ghost function FinalDocument(n: nat, persisted: nat, world: nat -> Batch, markOk: bool): (d: Document)
    ensures d.status == Ready ==> persisted == n > 0
    ensures d.status in {Ready, Failed} ==> d.chunkCount == persisted
  {
    if !markOk || (persisted < n && world(persisted / MAX_BATCH_INPUTS).Dies?) then Document(Processing, 0)
    else Document(if persisted == n > 0 then Ready else Failed, persisted)
  }

  ghost predicate BatchRows(batch: seq<Row>, start: nat, tenant: string, doc: string, chunks: seq<Chunk>,
                            reply: Reply) {
    && start + |batch| <= |chunks| && reply.Data?
    && forall i :: 0 <= i < |batch| ==>
         && LastFor(reply.items, i) == Some(batch[i].embedding)
         && batch[i] == Row(tenant, doc, start + i, chunks[start + i].content, chunks[start + i].tokens,
                            batch[i].embedding)
  }

  lemma HoldsNothing(tenant: string, doc: string, chunks: seq<Chunk>, world: nat -> Batch)
    ensures Holds([], 0, tenant, doc, chunks, world)
  {
  }

  lemma BatchHolds(stored: seq<Row>, batch: seq<Row>, start: nat,
                   tenant: string, doc: string, chunks: seq<Chunk>, world: nat -> Batch)
    requires start % MAX_BATCH_INPUTS == 0 && |batch| <= MAX_BATCH_INPUTS && start + |batch| <= |chunks|
    requires Holds(stored, start, tenant, doc, chunks, world)
    requires world(start / MAX_BATCH_INPUTS).Runs?
    requires BatchRows(batch, start, tenant, doc, chunks, world(start / MAX_BATCH_INPUTS).reply)
    ensures Holds(stored + batch, start + |batch|, tenant, doc, chunks, world)
  {
    var rows := stored + batch;
    forall k | 0 <= k < start + |batch|
      ensures world(k / MAX_BATCH_INPUTS).Runs? && world(k / MAX_BATCH_INPUTS).reply.Data?
      ensures LastFor(world(k / MAX_BATCH_INPUTS).reply.items, k % MAX_BATCH_INPUTS).Some?
      ensures rows[k] == RowOf(tenant, doc, chunks, world, k)
    {
      if k < start {
        assert rows[k] == stored[k];
      } else {
        assert k / MAX_BATCH_INPUTS == start / MAX_BATCH_INPUTS && k % MAX_BATCH_INPUTS == k - start;
        assert rows[k] == batch[k - start];
      }
    }
  }

  /** Everything is stored exactly when every batch succeeds; otherwise the batches before the first that fails. */
  lemma {:induction false} StoredIffAllSucceed(start: nat, n: nat, enabled: bool, world: nat -> Batch)
    requires start % MAX_BATCH_INPUTS == 0
    ensures var m := StoredFrom(start, n, enabled, world);
      && m <= n
      && (m < n ==>
            && m % 100 == 0
            && !BatchSucceeds(enabled, BatchEnd(m, n) - m, world(m / 100))
            && forall b: nat {:trigger world(b)} :: start <= b * 100 < m ==>
                 BatchSucceeds(enabled, BatchEnd(b * 100, n) - b * 100, world(b)))
      && (m == n <==> forall b: nat {:trigger world(b)} :: start <= b * MAX_BATCH_INPUTS < n ==>
            BatchSucceeds(enabled, BatchEnd(b * MAX_BATCH_INPUTS, n) - b * MAX_BATCH_INPUTS, world(b)))
    decreases n - start
  {
    hide EmbedSucceeds;
    if start < n {
      var first := start / MAX_BATCH_INPUTS;
      assert first * MAX_BATCH_INPUTS == start;
      var _ := world(first);
      StoredIffAllSucceed(start + MAX_BATCH_INPUTS, n, enabled, world);
    }
  }
}
