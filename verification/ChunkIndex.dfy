/** The chunk table, its full-text index and its vector table under re-chunk jobs run one at a time. */
module ChunkIndex {
  import opened ChunkId
  import opened MemoryChunker

  datatype Row = Row(
    chunkId: string, docKey: string, kind: string, day: string, heading: string,
    startLine: int, endLine: int, content: string, contentHash: string)

  const MAX_EMBED_CHARS: nat := 2000

  /** A hash without collisions whose values hold no colon. */
  ghost predicate GoodHash(hash: string -> string) {
    && (forall a, b :: hash(a) == hash(b) ==> a == b)
    && forall a :: NoColon(hash(a))
  }

  ghost predicate MadeBy(hash: string -> string, docKey: string, c: Chunk) {
    c.contentHash == hash(c.content) && c.id == hash(IdText(docKey, c.startLine, c.endLine, c.contentHash))
  }

  lemma {:induction false} ChunksAreMade(hash: string -> string, docKey: string, section: Section, packets: seq<Packet>)
    ensures forall c :: c in ChunksOf(section, packets, docKey, hash) ==> MadeBy(hash, docKey, c)
  {
    if packets != [] {
      ChunksAreMade(hash, docKey, section, packets[..|packets| - 1]);
    }
  }

  lemma {:induction false} AllAreMade(hash: string -> string, docKey: string, sections: seq<Section>,
                                      cuts: seq<seq<Packet>>)
    requires |cuts| == |sections|
    ensures forall c :: c in AllChunks(sections, cuts, docKey, hash) ==> MadeBy(hash, docKey, c)
  {
    if sections != [] {
      var n := |sections| - 1;
      AllAreMade(hash, docKey, sections[..n], cuts[..n]);
      ChunksAreMade(hash, docKey, sections[n], cuts[n]);
    }
  }

  predicate Matches(row: Row, c: Chunk) {
    row.chunkId == c.id && row.startLine == c.startLine && row.endLine == c.endLine
    && row.content == c.content && row.contentHash == c.contentHash
  }

  /** The rows of a document are its chunks, no more and no fewer. */
  ghost predicate Agrees(rows: map<nat, Row>, docKey: string, chunks: seq<Chunk>) {
    && (forall c :: c in chunks ==> Stored(rows, docKey, c))
    && (forall r :: r in rows && rows[r].docKey == docKey ==> Wanted(rows[r], chunks))
  }

  ghost predicate Stored(rows: map<nat, Row>, docKey: string, c: Chunk) {
    exists r :: r in rows && rows[r].docKey == docKey && Matches(rows[r], c)
  }

  ghost predicate Wanted(row: Row, chunks: seq<Chunk>) {
    exists c :: c in chunks && Matches(row, c)
  }

  ghost predicate HasId(rows: map<nat, Row>, id: string) {
    exists q :: q in rows && rows[q].chunkId == id
  }

  ghost predicate RowOk(hash: string -> string, row: Row) {
    && row.contentHash == hash(row.content)
    && row.chunkId == hash(IdText(row.docKey, row.startLine, row.endLine, row.contentHash))
  }

  ghost predicate RowsOk(hash: string -> string, rows: map<nat, Row>) {
    && (forall r :: r in rows ==> RowOk(hash, rows[r]))
    && (forall r, q :: r in rows && q in rows && rows[r].chunkId == rows[q].chunkId ==> r == q)
  }

  /** The full-text index holds exactly the content column. */
  ghost predicate IndexOk(rows: map<nat, Row>, fts: map<nat, string>) {
    fts.Keys == rows.Keys && forall r :: r in rows ==> fts[r] == rows[r].content
  }

  function Clip(s: string): (r: string)
    ensures r <= s && |r| <= 2000 && (r == s || |r| == 2000)
  {
    if |s| > MAX_EMBED_CHARS then s[..MAX_EMBED_CHARS] else s
  }

  /** Every vector belongs to a live row and was computed from that row's content. */
  ghost predicate VectorsOk<V(!new)>(rows: map<nat, Row>, vec: map<nat, V>, embed: string -> V) {
    forall r :: r in vec ==> r in rows && vec[r] == embed(Clip(rows[r].content))
  }

  lemma SameIdSameChunk(hash: string -> string, row: Row, docKey: string, c: Chunk)
    requires GoodHash(hash) && RowOk(hash, row) && MadeBy(hash, docKey, c) && row.chunkId == c.id
    ensures row.docKey == docKey && Matches(row, c)
  {
    IdTextInjective(row.docKey, row.startLine, row.endLine, row.contentHash, docKey, c.startLine, c.endLine,
      c.contentHash);
  }

  // ---- The store ----

  /** Tables by row id. `V` is the type of vectors. */
  class ChunkStore<V(!new)> {
    var rows: map<nat, Row>
    var fts: map<nat, string>
    var vec: map<nat, V>

    constructor ()
      ensures rows == map[] && fts == map[] && vec == map[]
    {
      rows, fts, vec := map[], map[], map[];
    }

    ghost predicate Ok(hash: string -> string, embed: string -> V)
      reads this
    {
      RowsOk(hash, rows) && IndexOk(rows, fts) && VectorsOk(rows, vec, embed)
    }

    /** One more than the largest row id in use, as the table allots them. */
    method NextRowid() returns (r: nat)
      ensures r !in rows
    {
      r := 1;
      var left := rows.Keys;
      while left != {}
        invariant left <= rows.Keys
        invariant forall k :: k in rows && k !in left ==> k < r
        decreases left
      {
        var k :| k in left;
        if k >= r {
          r := k + 1;
        }
        left := left - {k};
      }
    }

    /** Deletes a row; the delete trigger takes it out of the full-text index. */
    method DeleteRow(r: nat)
      requires r in rows
      modifies this`rows, this`fts
      ensures rows == old(rows) - {r} && fts == old(fts) - {r}
    {
      rows := rows - {r};
      fts := fts - {r};
    }

    /** `INSERT … ON CONFLICT(chunk_id) DO UPDATE`: a row with the same id gets the new content and hash, and no
        trigger tells the index; otherwise a new row is added and the insert trigger indexes it. */
    method Upsert(row: Row) returns (r: nat)
      modifies this`rows, this`fts
      ensures r in old(rows) <==> HasId(old(rows), row.chunkId)
      ensures r in old(rows) ==>
        && old(rows)[r].chunkId == row.chunkId && fts == old(fts)
        && rows == old(rows)[r := old(rows)[r].(content := row.content, contentHash := row.contentHash)]
      ensures r !in old(rows) ==> rows == old(rows)[r := row] && fts == old(fts)[r := row.content]
    {
      if q :| q in rows && rows[q].chunkId == row.chunkId {
        r := q;
        rows := rows[r := rows[r].(content := row.content, contentHash := row.contentHash)];
      } else {
        r := NextRowid();
        rows := rows[r := row];
        fts := fts[r := row.content];
      }
    }

    /** Drops the document's rows whose ids are gone, vectors first. */
    method DropGone(docKey: string, newIds: set<string>)
      modifies this
      ensures
        var gone := Gone(old(rows), docKey, newIds);
        rows == old(rows) - gone && fts == old(fts) - gone && vec == old(vec) - gone
    {
      var gone := Gone(rows, docKey, newIds);
      vec := vec - gone;
      var left := gone;
      while left != {}
        invariant left <= gone && left <= rows.Keys
        invariant rows == old(rows) - (gone - left) && fts == old(fts) - (gone - left)
        invariant vec == old(vec) - gone
        decreases left
      {
        var r :| r in left;
        DeleteRow(r);
        left := left - {r};
      }
    }

    /** Embeds the rows with these ids and stores their vectors, replacing any they had. */
    method EmbedNew(ids: set<string>, embed: string -> V)
      modifies this`vec
      ensures vec == old(vec) + NewVectors(rows, ids, embed)
    {
      ghost var made := NewVectors(rows, ids, embed);
      var left := set r | r in rows && rows[r].chunkId in ids;
      while left != {}
        invariant left <= made.Keys
        invariant vec == old(vec) + (made - left)
        decreases left
      {
        var r :| r in left;
        vec := vec[r := embed(Clip(rows[r].content))];
        left := left - {r};
      }
    }

    /** Writes the row of a chunk that had none when the job began. */
    method Write(docKey: string, kind: string, day: string, c: Chunk, ghost hash: string -> string,
                 ghost embed: string -> V,
                 ghost kept: map<nat, Row>, ghost done: seq<Chunk>, ghost upserted: set<string>)
      requires GoodHash(hash) && Ok(hash, embed) && MadeBy(hash, docKey, c)
      requires Filled(kept, rows, docKey, done, upserted) && !HasId(kept, c.id)
      requires Described(kept, rows, docKey, kind, day, done)
      modifies this`rows, this`fts
      ensures Ok(hash, embed)
      ensures Described(kept, rows, docKey, kind, day, done + [c])
      ensures Filled(kept, rows, docKey, done + [c], upserted + {c.id})
    {
      ghost var before := rows;
      var row := Row(c.id, docKey, kind, day, c.heading, c.startLine, c.endLine, c.content, c.contentHash);
      var r := Upsert(row);
      DescribedOneMore(kept, before, docKey, kind, day, done, c, r);
      if r in before {
        UpdateChangesNothing(hash, before, docKey, c, r);
        HeldFills(kept, rows, docKey, done, c, upserted, upserted + {c.id});
      } else {
        InsertFills(kept, before, docKey, done, c, upserted, r, row);
        InsertOk(hash, before, old(fts), vec, embed, docKey, c, r, row);
      }
    }

    /** Upserts the chunks that had no row with their id and hash; says which ids it wrote. */
    method UpsertChanged(docKey: string, kind: string, day: string, chunks: seq<Chunk>, existing: map<string, string>,
                         ghost hash: string -> string, ghost embed: string -> V) returns (upserted: set<string>)
      requires GoodHash(hash) && Ok(hash, embed)
      requires forall c :: c in chunks ==> MadeBy(hash, docKey, c)
      requires forall c :: c in chunks ==> (Recorded(existing, c) <==> Stored(rows, docKey, c))
      modifies this`rows, this`fts
      ensures Ok(hash, embed)
      ensures Filled(old(rows), rows, docKey, chunks, upserted)
      ensures Described(old(rows), rows, docKey, kind, day, chunks)
      ensures upserted == Missing(existing, chunks)
    {
      upserted := {};
      for i := 0 to |chunks|
        invariant Ok(hash, embed)
        invariant Filled(old(rows), rows, docKey, chunks[..i], upserted)
        invariant Described(old(rows), rows, docKey, kind, day, chunks[..i])
        invariant upserted == Missing(existing, chunks[..i])
      {
        var c := chunks[i];
        assert chunks[..i + 1] == chunks[..i] + [c];
        MissingSnoc(existing, chunks[..i], c);
        if !Recorded(existing, c) {
          NotStored(hash, old(rows), docKey, c);
          Write(docKey, kind, day, c, hash, embed, old(rows), chunks[..i], upserted);
          upserted := upserted + {c.id};
        } else {
          StillStored(old(rows), rows, docKey, c);
          DescribedWider(old(rows), rows, docKey, kind, day, chunks[..i], c);
          HeldFills(old(rows), rows, docKey, chunks[..i], c, upserted, upserted);
        }
      }
      assert chunks[..|chunks|] == chunks;
    }

    /** The tables' part of a job: diff against the document's rows, delete, upsert. */
    method Reindex(docKey: string, kind: string, day: string, chunks: seq<Chunk>, ghost hash: string -> string,
                   ghost embed: string -> V) returns (upserted: set<string>)
      requires GoodHash(hash) && Ok(hash, embed)
      requires forall c :: c in chunks ==> MadeBy(hash, docKey, c)
      modifies this
      ensures Ok(hash, embed)
      ensures Agrees(rows, docKey, chunks)
      ensures Renewed(old(rows), rows, docKey, upserted)
      ensures NewDescribed(old(rows), rows, docKey, kind, day, chunks)
      ensures vec == old(vec) - Gone(old(rows), docKey, Ids(chunks))
      ensures Agrees(old(rows), docKey, chunks) ==>
        rows == old(rows) && fts == old(fts) && vec == old(vec) && upserted == {}
    {
      var newIds := Ids(chunks);
      var existing := HashById(rows, docKey);
      DropGone(docKey, newIds);
      ghost var kept := rows;
      Dropped(hash, old(rows), old(fts), old(vec), docKey, chunks, embed, existing);
      upserted := UpsertChanged(docKey, kind, day, chunks, existing, hash, embed);
      Reindexed(hash, old(rows), old(fts), old(vec), kept, rows, fts, docKey, chunks, existing, upserted);
      DescribedAnew(old(rows), kept, rows, docKey, kind, day, chunks);
    }

    /** Brings the tables in line with the chunks, then embeds what was upserted if the embedding service answers. */
    method Store(docKey: string, kind: string, day: string, chunks: seq<Chunk>, ghost hash: string -> string,
                 embed: string -> V, answered: bool)
      requires GoodHash(hash) && Ok(hash, embed)
      requires forall c :: c in chunks ==> MadeBy(hash, docKey, c)
      modifies this
      ensures Ok(hash, embed)
      ensures Agrees(rows, docKey, chunks)
      ensures Untouched(old(rows), rows, docKey) && Untouched(rows, old(rows), docKey)
      ensures VectorsUntouched(old(rows), old(vec), vec, docKey)
      ensures answered ==> Embedded(old(rows), rows, vec)
      ensures NewDescribed(old(rows), rows, docKey, kind, day, chunks)
      ensures Agrees(old(rows), docKey, chunks) ==> rows == old(rows) && fts == old(fts) && vec == old(vec)
    {
      var upserted := Reindex(docKey, kind, day, chunks, hash, embed);
      EmbedKeeps(old(rows), old(vec), rows, vec, docKey, Ids(chunks), upserted, embed);
      if answered && upserted != {} {
        EmbedNew(upserted, embed);
      }
    }

    /** One re-chunk job. A document whose rows agree with it already costs nothing. */
    method Rechunk(docKey: string, kind: string, day: string, content: string, hash: string -> string,
                   embed: string -> V, answered: bool)
      returns (chunks: seq<Chunk>, ghost sections: seq<Section>, ghost cuts: seq<seq<Packet>>)
      requires GoodHash(hash) && Ok(hash, embed)
      modifies this
      ensures Chunked(content, docKey, hash, sections, cuts, chunks)
      ensures Ok(hash, embed)
      ensures Agrees(rows, docKey, chunks)
      ensures Untouched(old(rows), rows, docKey) && Untouched(rows, old(rows), docKey)
      ensures VectorsUntouched(old(rows), old(vec), vec, docKey)
      ensures answered ==> Embedded(old(rows), rows, vec)
      ensures NewDescribed(old(rows), rows, docKey, kind, day, chunks)
      ensures Agrees(old(rows), docKey, chunks) ==> rows == old(rows) && fts == old(fts) && vec == old(vec)
    {
      chunks, sections, cuts := ChunkMarkdown(content, docKey, hash);
      AllAreMade(hash, docKey, sections, cuts);
      Store(docKey, kind, day, chunks, hash, embed, answered);
    }
  }

  /** The row holds all that is known of a chunk. */
  predicate Describes(row: Row, docKey: string, kind: string, day: string, c: Chunk) {
    && row.docKey == docKey && row.kind == kind && row.day == day && row.heading == c.heading && Matches(row, c)
  }

  ghost predicate DescribesOne(row: Row, docKey: string, kind: string, day: string, chunks: seq<Chunk>) {
    exists c :: c in chunks && Describes(row, docKey, kind, day, c)
  }

  /** The rows added to those kept describe these chunks. */
  ghost predicate Described(kept: map<nat, Row>, rows: map<nat, Row>, docKey: string, kind: string, day: string,
                            chunks: seq<Chunk>) {
    forall r :: r in rows && r !in kept ==> DescribesOne(rows[r], docKey, kind, day, chunks)
  }

  /** Every row whose chunk id the table did not hold before describes one of these chunks. */
  ghost predicate NewDescribed(before: map<nat, Row>, rows: map<nat, Row>, docKey: string, kind: string, day: string,
                               chunks: seq<Chunk>) {
    forall r :: r in rows && !HasId(before, rows[r].chunkId) ==> DescribesOne(rows[r], docKey, kind, day, chunks)
  }

  lemma DescribedWider(kept: map<nat, Row>, rows: map<nat, Row>, docKey: string, kind: string, day: string,
                       chunks: seq<Chunk>, c: Chunk)
    requires Described(kept, rows, docKey, kind, day, chunks)
    ensures Described(kept, rows, docKey, kind, day, chunks + [c])
  {
    forall r | r in rows && r !in kept
      ensures DescribesOne(rows[r], docKey, kind, day, chunks + [c])
    {
      var d :| d in chunks && Describes(rows[r], docKey, kind, day, d);
      assert d in chunks + [c];
    }
  }

  /** A row added for a chunk describes it. */
  lemma DescribedOneMore(kept: map<nat, Row>, rows: map<nat, Row>, docKey: string, kind: string, day: string,
                         chunks: seq<Chunk>, c: Chunk, r: nat)
    requires Described(kept, rows, docKey, kind, day, chunks)
    ensures
      var row := Row(c.id, docKey, kind, day, c.heading, c.startLine, c.endLine, c.content, c.contentHash);
      && Described(kept, rows, docKey, kind, day, chunks + [c])
      && Described(kept, rows[r := row], docKey, kind, day, chunks + [c])
  {
    DescribedWider(kept, rows, docKey, kind, day, chunks, c);
    assert c in chunks + [c];
  }

  lemma DescribedAnew(before: map<nat, Row>, kept: map<nat, Row>, rows: map<nat, Row>, docKey: string, kind: string,
                      day: string, chunks: seq<Chunk>)
    requires Described(kept, rows, docKey, kind, day, chunks)
    requires forall r :: r in kept ==> r in before && kept[r] == before[r] && (r in rows ==> rows[r] == kept[r])
    ensures NewDescribed(before, rows, docKey, kind, day, chunks)
  {
  }

  /** The ids of the chunks not recorded under their hash. */
  function Missing(existing: map<string, string>, chunks: seq<Chunk>): set<string> {
    set c | c in chunks && !Recorded(existing, c) :: c.id
  }

  lemma MissingSnoc(existing: map<string, string>, chunks: seq<Chunk>, c: Chunk)
    ensures Missing(existing, chunks + [c]) == Missing(existing, chunks) + if Recorded(existing, c) then {} else {c.id}
  {
    assert forall d :: d in chunks + [c] <==> d in chunks || d == c;
  }

  /** Rows that agree with the chunks need no work. */
  lemma NothingToDo(prior: map<nat, Row>, kept: map<nat, Row>, rows: map<nat, Row>, docKey: string, chunks: seq<Chunk>,
                    existing: map<string, string>, upserted: set<string>)
    requires kept == prior - Gone(prior, docKey, Ids(chunks)) && Filled(kept, rows, docKey, chunks, upserted)
    requires upserted == Missing(existing, chunks)
    requires forall c :: c in chunks ==> (Recorded(existing, c) <==> Stored(kept, docKey, c))
    ensures Agrees(prior, docKey, chunks) ==> rows == prior && Gone(prior, docKey, Ids(chunks)) == {} && upserted == {}
  {
    if Agrees(prior, docKey, chunks) {
      NoneGone(prior, docKey, chunks);
      assert kept == prior;
      assert upserted == {};
      assert forall r :: r in rows ==> r in kept;
      assert rows.Keys == prior.Keys;
    }
  }

  lemma Reindexed<V(!new)>(hash: string -> string, prior: map<nat, Row>, oldFts: map<nat, string>, oldVec: map<nat, V>,
                           kept: map<nat, Row>, rows: map<nat, Row>, fts: map<nat, string>, docKey: string,
                           chunks: seq<Chunk>, existing: map<string, string>, upserted: set<string>)
    requires GoodHash(hash) && RowsOk(hash, prior) && IndexOk(prior, oldFts) && IndexOk(rows, fts)
    requires forall c :: c in chunks ==> MadeBy(hash, docKey, c)
    requires kept == prior - Gone(prior, docKey, Ids(chunks)) && Filled(kept, rows, docKey, chunks, upserted)
    requires upserted == Missing(existing, chunks)
    requires forall c :: c in chunks ==> (Recorded(existing, c) <==> Stored(kept, docKey, c))
    ensures Agrees(rows, docKey, chunks) && Renewed(prior, rows, docKey, upserted)
    ensures Agrees(prior, docKey, chunks) ==>
      rows == prior && fts == oldFts && oldVec - Gone(prior, docKey, Ids(chunks)) == oldVec && upserted == {}
  {
    SameRowsSameIndex(prior, oldFts, rows, fts);
    FilledAgrees(hash, kept, rows, docKey, chunks, upserted);
    FilledRenewed(prior, kept, rows, docKey, Ids(chunks), chunks, upserted);
    NothingToDo(prior, kept, rows, docKey, chunks, existing, upserted);
  }

  lemma NoneGone(rows: map<nat, Row>, docKey: string, chunks: seq<Chunk>)
    requires Agrees(rows, docKey, chunks)
    ensures Gone(rows, docKey, Ids(chunks)) == {}
  {
    forall r | r in rows && rows[r].docKey == docKey
      ensures rows[r].chunkId in Ids(chunks)
    {
      var c :| c in chunks && Matches(rows[r], c);
    }
  }

  /** An index is determined by its rows. */
  lemma SameRowsSameIndex(rows: map<nat, Row>, fts: map<nat, string>, rows': map<nat, Row>, fts': map<nat, string>)
    requires IndexOk(rows, fts) && IndexOk(rows', fts')
    ensures rows == rows' ==> fts == fts'
  {
  }

  /** The other documents' rows stand as they were, and every other row stood already or is written anew. */
  ghost predicate Renewed(before: map<nat, Row>, rows: map<nat, Row>, docKey: string, upserted: set<string>) {
    && Untouched(before, rows, docKey) && Untouched(rows, before, docKey)
    && (forall r :: r in rows && rows[r].chunkId in upserted ==> rows[r].docKey == docKey)
    && (forall r :: r in rows && rows[r].chunkId !in upserted ==> HasId(before, rows[r].chunkId))
  }

  function Ids(chunks: seq<Chunk>): set<string> {
    set c | c in chunks :: c.id
  }

  /** The document's content hashes by chunk id. */
  function HashById(rows: map<nat, Row>, docKey: string): map<string, string>
    requires forall r, q :: r in rows && q in rows && rows[r].chunkId == rows[q].chunkId ==> r == q
  {
    map r | r in rows && rows[r].docKey == docKey :: rows[r].chunkId := rows[r].contentHash
  }

  /** The document's rows whose ids are gone. */
  function Gone(rows: map<nat, Row>, docKey: string, newIds: set<string>): set<nat> {
    set r | r in rows && rows[r].docKey == docKey && rows[r].chunkId !in newIds
  }

  function NewVectors<V(!new)>(rows: map<nat, Row>, ids: set<string>, embed: string -> V): map<nat, V> {
    map r | r in rows && rows[r].chunkId in ids :: embed(Clip(rows[r].content))
  }

  lemma DropOk<V(!new)>(hash: string -> string, rows: map<nat, Row>, vec: map<nat, V>, gone: set<nat>,
                        embed: string -> V)
    requires RowsOk(hash, rows) && VectorsOk(rows, vec, embed)
    ensures RowsOk(hash, rows - gone) && VectorsOk(rows - gone, vec - gone, embed)
  {
  }

  lemma FilledRenewed(prior: map<nat, Row>, kept: map<nat, Row>, rows: map<nat, Row>, docKey: string,
                      newIds: set<string>,
                      chunks: seq<Chunk>, upserted: set<string>)
    requires kept == prior - Gone(prior, docKey, newIds) && Filled(kept, rows, docKey, chunks, upserted)
    ensures Renewed(prior, rows, docKey, upserted)
  {
    forall r | r in rows && rows[r].chunkId !in upserted
      ensures HasId(prior, rows[r].chunkId)
    {
      assert r in prior && prior[r] == rows[r];
    }
  }

  /** Other documents keep their vectors, whether or not the new rows are embedded. */
  lemma EmbedKeeps<V(!new)>(prior: map<nat, Row>, oldVec: map<nat, V>, rows: map<nat, Row>, vec: map<nat, V>,
                     docKey: string,
                            newIds: set<string>, upserted: set<string>, embed: string -> V)
    requires Renewed(prior, rows, docKey, upserted) && VectorsOk(rows, vec, embed)
    requires vec == oldVec - Gone(prior, docKey, newIds)
    ensures VectorsUntouched(prior, oldVec, vec, docKey)
    ensures upserted == {} ==> Embedded(prior, rows, vec)
    ensures var vec' := vec + NewVectors(rows, upserted, embed);
      VectorsOk(rows, vec', embed) && VectorsUntouched(prior, oldVec, vec', docKey) && Embedded(prior, rows, vec')
  {
    var vec' := vec + NewVectors(rows, upserted, embed);
    forall r | r in rows && !HasId(prior, rows[r].chunkId)
      ensures r in vec'
    {
    }
  }

  /** A job on one document leaves every other document in agreement with its chunks. */
  lemma OthersStillAgree(rows: map<nat, Row>, rows': map<nat, Row>, docKey: string, other: string, chunks: seq<Chunk>)
    requires Untouched(rows, rows', docKey) && Untouched(rows', rows, docKey) && other != docKey
    requires Agrees(rows, other, chunks)
    ensures Agrees(rows', other, chunks)
  {
    forall c | c in chunks
      ensures Stored(rows', other, c)
    {
      var r :| r in rows && rows[r].docKey == other && Matches(rows[r], c);
      assert r in rows' && rows'[r] == rows[r];
    }
  }

  predicate Recorded(existing: map<string, string>, c: Chunk) {
    c.id in existing && existing[c.id] == c.contentHash
  }

  /** Rows of other documents in `rows` are the same in `rows'`. */
  ghost predicate Untouched(rows: map<nat, Row>, rows': map<nat, Row>, docKey: string) {
    forall r :: r in rows && rows[r].docKey != docKey ==> r in rows' && rows'[r] == rows[r]
  }

  ghost predicate VectorsUntouched<V(!new)>(rows: map<nat, Row>, vec: map<nat, V>, vec': map<nat, V>, docKey: string) {
    forall r :: r in rows && rows[r].docKey != docKey ==>
      (r in vec <==> r in vec') && (r in vec ==> vec'[r] == vec[r])
  }

  /** Every row whose chunk id the table did not hold before has its vector. */
  ghost predicate Embedded<V(!new)>(before: map<nat, Row>, rows: map<nat, Row>, vec: map<nat, V>) {
    forall r :: r in rows && !HasId(before, rows[r].chunkId) ==> r in vec
  }

  lemma RecordedIsStored(hash: string -> string, prior: map<nat, Row>, rows: map<nat, Row>, docKey: string, c: Chunk,
                         newIds: set<string>, existing: map<string, string>)
    requires GoodHash(hash) && RowsOk(hash, prior) && MadeBy(hash, docKey, c) && c.id in newIds
    requires rows == prior - Gone(prior, docKey, newIds)
    requires existing == HashById(prior, docKey)
    ensures Recorded(existing, c) <==> Stored(rows, docKey, c)
  {
    if Recorded(existing, c) {
      var r :| r in prior && prior[r].docKey == docKey && prior[r].chunkId == c.id;
      SameIdSameChunk(hash, prior[r], docKey, c);
      assert r in rows && rows[r] == prior[r];
    }
    if Stored(rows, docKey, c) {
      var r :| r in rows && rows[r].docKey == docKey && Matches(rows[r], c);
      assert r in prior && prior[r] == rows[r];
    }
  }

  /** The update branch writes back what is there: the id embeds the content hash. */
  lemma UpdateChangesNothing(hash: string -> string, rows: map<nat, Row>, docKey: string, c: Chunk, r: nat)
    requires GoodHash(hash) && RowsOk(hash, rows) && MadeBy(hash, docKey, c)
    requires r in rows && rows[r].chunkId == c.id
    ensures Stored(rows, docKey, c)
    ensures rows[r := rows[r].(content := c.content, contentHash := c.contentHash)] == rows
  {
    SameIdSameChunk(hash, rows[r], docKey, c);
    assert rows[r].(content := c.content, contentHash := c.contentHash) == rows[r];
  }

  lemma InsertOk<V(!new)>(hash: string -> string, rows: map<nat, Row>, fts: map<nat, string>, vec: map<nat, V>,
                          embed: string -> V, docKey: string, c: Chunk, r: nat, row: Row)
    requires RowsOk(hash, rows) && IndexOk(rows, fts) && VectorsOk(rows, vec, embed)
    requires MadeBy(hash, docKey, c) && r !in rows && !HasId(rows, c.id)
    requires Matches(row, c) && row.docKey == docKey
    ensures RowsOk(hash, rows[r := row]) && IndexOk(rows[r := row], fts[r := row.content])
    ensures VectorsOk(rows[r := row], vec, embed)
  {
  }

  lemma RecordedAreStored(hash: string -> string, prior: map<nat, Row>, docKey: string, chunks: seq<Chunk>,
                          newIds: set<string>, existing: map<string, string>)
    requires GoodHash(hash) && RowsOk(hash, prior) && newIds == Ids(chunks)
    requires forall c :: c in chunks ==> MadeBy(hash, docKey, c)
    requires existing == HashById(prior, docKey)
    ensures forall c :: c in chunks ==> (Recorded(existing, c) <==>
      Stored(prior - Gone(prior, docKey, newIds), docKey, c))
  {
    forall c | c in chunks
      ensures Recorded(existing, c) <==> Stored(prior - Gone(prior, docKey, newIds), docKey, c)
    {
      RecordedIsStored(hash, prior, prior - Gone(prior, docKey, newIds), docKey, c, newIds, existing);
    }
  }

  lemma Dropped<V(!new)>(hash: string -> string, rows: map<nat, Row>, fts: map<nat, string>, vec: map<nat, V>,
                  docKey: string,
                         chunks: seq<Chunk>, embed: string -> V, existing: map<string, string>)
    requires GoodHash(hash) && RowsOk(hash, rows) && IndexOk(rows, fts) && VectorsOk(rows, vec, embed)
    requires forall c :: c in chunks ==> MadeBy(hash, docKey, c)
    requires existing == HashById(rows, docKey)
    ensures var gone := Gone(rows, docKey, Ids(chunks));
      && RowsOk(hash, rows - gone) && IndexOk(rows - gone, fts - gone) && VectorsOk(rows - gone, vec - gone, embed)
      && forall c :: c in chunks ==> (Recorded(existing, c) <==> Stored(rows - gone, docKey, c))
  {
    RecordedAreStored(hash, rows, docKey, chunks, Ids(chunks), existing);
    DropOk(hash, rows, vec, Gone(rows, docKey, Ids(chunks)), embed);
  }

  lemma NotStored(hash: string -> string, rows: map<nat, Row>, docKey: string, c: Chunk)
    requires GoodHash(hash) && RowsOk(hash, rows) && MadeBy(hash, docKey, c) && !Stored(rows, docKey, c)
    ensures !HasId(rows, c.id)
  {
    forall q | q in rows && rows[q].chunkId == c.id
      ensures false
    {
      SameIdSameChunk(hash, rows[q], docKey, c);
    }
  }

  lemma StillStored(kept: map<nat, Row>, rows: map<nat, Row>, docKey: string, c: Chunk)
    requires Stored(kept, docKey, c) && forall r :: r in kept ==> r in rows && rows[r] == kept[r]
    ensures Stored(rows, docKey, c)
  {
    var r :| r in kept && kept[r].docKey == docKey && Matches(kept[r], c);
    assert r in rows && rows[r] == kept[r];
  }

  /** The kept rows, plus one row for each of these chunks that had none; `upserted` are the ids of the added rows. */
  ghost predicate Filled(kept: map<nat, Row>, rows: map<nat, Row>, docKey: string, chunks: seq<Chunk>,
                         upserted: set<string>) {
    && (forall r :: r in kept ==> r in rows && rows[r] == kept[r] && kept[r].chunkId !in upserted)
    && (forall r :: r in rows && r !in kept ==>
          rows[r].docKey == docKey && rows[r].chunkId in upserted && Wanted(rows[r], chunks))
    && (forall c :: c in chunks ==> Stored(rows, docKey, c))
  }

  lemma FilledAgrees(hash: string -> string, kept: map<nat, Row>, rows: map<nat, Row>, docKey: string,
                     chunks: seq<Chunk>,
                     upserted: set<string>)
    requires GoodHash(hash) && RowsOk(hash, kept) && Filled(kept, rows, docKey, chunks, upserted)
    requires forall c :: c in chunks ==> MadeBy(hash, docKey, c)
    requires forall r :: r in kept && kept[r].docKey == docKey ==> exists c :: c in chunks && c.id == kept[r].chunkId
    ensures Agrees(rows, docKey, chunks)
  {
    forall r | r in kept && kept[r].docKey == docKey
      ensures Wanted(kept[r], chunks)
    {
      var c :| c in chunks && c.id == kept[r].chunkId;
      SameIdSameChunk(hash, kept[r], docKey, c);
    }
  }

  /** A chunk whose row is there already changes nothing. */
  lemma HeldFills(kept: map<nat, Row>, rows: map<nat, Row>, docKey: string, chunks: seq<Chunk>, c: Chunk,
                  upserted: set<string>, wider: set<string>)
    requires Filled(kept, rows, docKey, chunks, upserted) && Stored(rows, docKey, c)
    requires upserted <= wider && forall r :: r in kept ==> kept[r].chunkId !in wider
    ensures Filled(kept, rows, docKey, chunks + [c], wider)
  {
    forall r | r in rows && r !in kept
      ensures Wanted(rows[r], chunks + [c])
    {
      WantedGrows(rows[r], chunks, c);
    }
  }

  lemma WantedGrows(row: Row, chunks: seq<Chunk>, c: Chunk)
    requires Wanted(row, chunks) || Matches(row, c)
    ensures Wanted(row, chunks + [c])
  {
    if Matches(row, c) {
      assert c in chunks + [c];
    } else {
      var d :| d in chunks && Matches(row, d);
      assert d in chunks + [c];
    }
  }

  /** Inserting the row of a chunk that had none. */
  lemma InsertFills(kept: map<nat, Row>, before: map<nat, Row>, docKey: string, chunks: seq<Chunk>, c: Chunk,
                    upserted: set<string>, r: nat, row: Row)
    requires Filled(kept, before, docKey, chunks, upserted) && r !in before
    requires Matches(row, c) && row.docKey == docKey
    requires !HasId(kept, c.id)
    ensures Filled(kept, before[r := row], docKey, chunks + [c], upserted + {c.id})
  {
    var rows := before[r := row];
    forall q | q in rows && q !in kept
      ensures rows[q].docKey == docKey && rows[q].chunkId in upserted + {c.id} && Wanted(rows[q], chunks + [c])
    {
      WantedGrows(rows[q], chunks, c);
    }
    forall d | d in chunks + [c]
      ensures Stored(rows, docKey, d)
    {
      if d in chunks {
        var q :| q in before && before[q].docKey == docKey && Matches(before[q], d);
        assert q in rows && rows[q] == before[q];
      } else {
        assert r in rows && rows[r] == row;
      }
    }
  }
}
