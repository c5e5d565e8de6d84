/** Ingestion: giving every chunk a deterministic id (`calculate_chunk_ids`)
    and adding to the vector store only the chunks whose id it does not hold
    yet (`add_to_chroma`). */
module PopulateDatabase {
  import opened Text
  import opened Documents

  // ---------------------------------------------------------------------------
  // calculate_chunk_ids
  // ---------------------------------------------------------------------------

  /** The state the id loop carries from one chunk to the next:
      `(last_page_id, current_chunk_index)`. */
  datatype IdState = IdState(lastPageId: Option<string>, currentChunkIndex: nat)

  /** The loop's state before the first chunk. */
  const INITIAL_STATE := IdState(None, 0)

  /** One iteration of the loop, for a chunk whose page id is `pageId`: the
      index goes up by one on the page seen last and restarts at 0 otherwise. */
  function Step(st: IdState, pageId: string): IdState {
    var index := if Some(pageId) == st.lastPageId then st.currentChunkIndex + 1 else 0;
    IdState(Some(pageId), index)
  }

  /** The loop's state once it has seen the page ids `pageIds`, in order. */
  function Run(pageIds: seq<string>): (r: IdState)
    ensures |pageIds| > 0 ==> r.lastPageId == Some(pageIds[|pageIds| - 1])
  {
    if |pageIds| == 0 then INITIAL_STATE
    else Step(Run(pageIds[..|pageIds| - 1]), pageIds[|pageIds| - 1])
  }

  /** The page id of every chunk, in order. */
  function PageIds(chunks: seq<Chunk>): (r: seq<string>)
    ensures |r| == |chunks|
  {
    seq(|chunks|, i requires 0 <= i < |chunks| => PageId(chunks[i].source, chunks[i].page))
  }

  /** The index the loop gives the chunk at position `i`. */
  function IndexAt(pageIds: seq<string>, i: nat): nat
    requires i < |pageIds|
  {
    Run(pageIds[..i + 1]).currentChunkIndex
  }

  /** The triple the id of the chunk at position `i` is rendered from. */
  function KeyAt(chunks: seq<Chunk>, i: nat): ChunkKey
    requires i < |chunks|
  {
    ChunkKey(chunks[i].source, chunks[i].page, IndexAt(PageIds(chunks), i))
  }

  /** The chunks as the loop leaves them: the same chunks in the same order,
      with `metadata["id"]` set and nothing else touched. */
  function WithIds(chunks: seq<Chunk>): (r: seq<Chunk>)
    ensures |r| == |chunks|
    ensures forall i :: 0 <= i < |r| ==> r[i].id.Some? && r[i] == chunks[i].(id := r[i].id)
  {
    seq(|chunks|, i requires 0 <= i < |chunks| => chunks[i].(id := Some(RenderId(KeyAt(chunks, i)))))
  }

  /** The loop of `calculate_chunk_ids`, writing each chunk's id in place and
      returning the same list. */
  method CalculateChunkIds(chunks: array<Chunk>) returns (result: array<Chunk>)
    modifies chunks
    ensures result == chunks
    ensures chunks[..] == WithIds(old(chunks[..]))
  {
    ghost var input := chunks[..];
    ghost var pageIds := PageIds(input);
    ghost var expected := WithIds(input);
    var lastPageId: Option<string> := None;
    var currentChunkIndex: nat := 0;
    for i := 0 to chunks.Length
      invariant forall k :: 0 <= k < i ==> chunks[k] == expected[k]
      invariant forall k :: i <= k < chunks.Length ==> chunks[k] == input[k]
      invariant IdState(lastPageId, currentChunkIndex) == Run(pageIds[..i])
    {
      var source := chunks[i].source;
      var page := chunks[i].page;
      var currentPageId := PageId(source, page);
      if Some(currentPageId) == lastPageId {
        currentChunkIndex := currentChunkIndex + 1;
      } else {
        currentChunkIndex := 0;
      }
      var chunkId := currentPageId + ":" + NatToString(currentChunkIndex);
      lastPageId := Some(currentPageId);
      assert IdState(lastPageId, currentChunkIndex) == Run(pageIds[..i + 1])
          && chunks[i].(id := Some(chunkId)) == expected[i] by {
        LoopStep(input, i);
      }
      chunks[i] := chunks[i].(id := Some(chunkId));
    }
    assert chunks[..] == expected;
    result := chunks;
  }

  /** What one iteration of the loop computes for the chunk at position `i`:
      the state after it, and the id `WithIds` gives that chunk. */
  lemma LoopStep(chunks: seq<Chunk>, i: nat)
    requires i < |chunks|
    ensures var pageId := PageId(chunks[i].source, chunks[i].page);
            var next := Step(Run(PageIds(chunks)[..i]), pageId);
            && next == Run(PageIds(chunks)[..i + 1])
            && WithIds(chunks)[i] == chunks[i].(id := Some(pageId + ":" + NatToString(next.currentChunkIndex)))
  {
    RunExtends(PageIds(chunks), i);
  }

  /** Running the loop over one more page id is one more step. */
  lemma RunExtends(pageIds: seq<string>, i: nat)
    requires i < |pageIds|
    ensures Run(pageIds[..i + 1]) == Step(Run(pageIds[..i]), pageIds[i])
  {
    assert pageIds[..i + 1][..i] == pageIds[..i];
  }

  // ---------------------------------------------------------------------------
  // What the ids are
  // ---------------------------------------------------------------------------

  /** Two chunks lie on the same page of the same source. */
  predicate SamePage(a: Chunk, b: Chunk) {
    a.source == b.source && a.page == b.page
  }

  lemma SamePageIffSamePageId(a: Chunk, b: Chunk)
    ensures SamePage(a, b) <==> PageId(a.source, a.page) == PageId(b.source, b.page)
  {
    if PageId(a.source, a.page) == PageId(b.source, b.page) {
      PageIdInjective(a.source, a.page, b.source, b.page);
    }
  }

  /** Every assigned id is `source:page:index` for that chunk's own source
      and page, where the index is the one the loop computed for it. */
  lemma IdIsRenderedKey(chunks: seq<Chunk>, i: nat)
    requires i < |chunks|
    ensures WithIds(chunks)[i].id
         == Some(PageId(chunks[i].source, chunks[i].page) + ":" + NatToString(IndexAt(PageIds(chunks), i)))
  {
  }

  /** The first chunk always gets index 0. */
  lemma {:induction false} FirstChunkIndexZero(chunks: seq<Chunk>)
    requires |chunks| > 0
    ensures KeyAt(chunks, 0).index == 0
    ensures WithIds(chunks)[0].id == Some(PageId(chunks[0].source, chunks[0].page) + ":0")
  {
    RunExtends(PageIds(chunks), 0);
    var pageId := PageId(chunks[0].source, chunks[0].page);
    assert NatToString(0) == "0";
    assert RenderId(KeyAt(chunks, 0)) == pageId + ":" + "0" == pageId + ":0";
    assert WithIds(chunks)[0].id == Some(RenderId(KeyAt(chunks, 0)));
  }

  /** The loop's recurrence on indices: one more than the previous chunk's on
      the same page, 0 on a page change. */
  lemma {:induction false} IndexRecurrence(pageIds: seq<string>, i: nat)
    requires 0 < i < |pageIds|
    ensures IndexAt(pageIds, i)
         == if pageIds[i - 1] == pageIds[i] then IndexAt(pageIds, i - 1) + 1 else 0
  {
    RunExtends(pageIds, i);
    assert pageIds[..i][i - 1] == pageIds[i - 1];
  }

  /** The same recurrence on chunks, stated on their (source, page) pairs. */
  lemma ChunkIndexRecurrence(chunks: seq<Chunk>, i: nat)
    requires 0 < i < |chunks|
    ensures KeyAt(chunks, i).index
         == if SamePage(chunks[i - 1], chunks[i]) then KeyAt(chunks, i - 1).index + 1 else 0
  {
    var ids := PageIds(chunks);
    IndexRecurrence(ids, i);
    SamePageIffSamePageId(chunks[i - 1], chunks[i]);
    assert ids[i - 1] == PageId(chunks[i - 1].source, chunks[i - 1].page);
    assert ids[i] == PageId(chunks[i].source, chunks[i].page);
  }

  /** Closed form of the index: it counts the chunks just before position `i`
      that share its page id, back to the last page change. */
  lemma {:induction false} IndexCountsRunOfSamePage(pageIds: seq<string>, i: nat)
    requires i < |pageIds|
    ensures IndexAt(pageIds, i) <= i
    ensures forall j :: i - IndexAt(pageIds, i) <= j <= i ==> pageIds[j] == pageIds[i]
    ensures IndexAt(pageIds, i) < i ==> pageIds[i - IndexAt(pageIds, i) - 1] != pageIds[i]
  {
    if i > 0 {
      IndexRecurrence(pageIds, i);
      IndexCountsRunOfSamePage(pageIds, i - 1);
    } else {
      RunExtends(pageIds, 0);
    }
  }

  /** Along a stretch of one page id the index grows by one per chunk. */
  lemma {:induction false} IndexGrowsAlongPage(pageIds: seq<string>, i: nat, j: nat)
    requires i <= j < |pageIds|
    requires forall m :: i <= m <= j ==> pageIds[m] == pageIds[i]
    ensures IndexAt(pageIds, j) == IndexAt(pageIds, i) + (j - i)
    decreases j
  {
    if i < j {
      IndexGrowsAlongPage(pageIds, i, j - 1);
      IndexRecurrence(pageIds, j);
    }
  }

  /** Determinism: the ids depend only on the sequence of (source, page) pairs. */
  lemma IdsDependOnlyOnPages(a: seq<Chunk>, b: seq<Chunk>)
    requires |a| == |b|
    requires forall i :: 0 <= i < |a| ==> SamePage(a[i], b[i])
    ensures forall i :: 0 <= i < |a| ==> WithIds(a)[i].id == WithIds(b)[i].id
  {
    assert PageIds(a) == PageIds(b);
  }

  /** Recomputing the ids of chunks that already carry them changes nothing. */
  lemma WithIdsIdempotent(chunks: seq<Chunk>)
    ensures WithIds(WithIds(chunks)) == WithIds(chunks)
  {
    var w := WithIds(chunks);
    assert PageIds(w) == PageIds(chunks);
    forall i | 0 <= i < |w|
      ensures WithIds(w)[i] == w[i]
    {
      assert KeyAt(w, i) == KeyAt(chunks, i);
    }
  }

  /** All chunks of each page are next to each other in the list. */
  ghost predicate PagesContiguous(chunks: seq<Chunk>) {
    forall i, j, k :: 0 <= i < j < k < |chunks| ==> NoOtherPageBetween(chunks, i, j, k)
  }

  /** When positions `i` and `k` hold the same page, so does `j`. */
  predicate NoOtherPageBetween(chunks: seq<Chunk>, i: nat, j: nat, k: nat)
    requires i < j < k < |chunks|
  {
    SamePage(chunks[i], chunks[k]) ==> SamePage(chunks[i], chunks[j])
  }

  /** Uniqueness: when each page's chunks are contiguous, no two chunks get
      the same triple, and hence no two get the same id. */
  lemma UniqueIdsForContiguousPages(chunks: seq<Chunk>)
    requires PagesContiguous(chunks)
    ensures forall i, j :: 0 <= i < j < |chunks| ==> KeyAt(chunks, i) != KeyAt(chunks, j)
    ensures forall i, j :: 0 <= i < j < |chunks| ==> WithIds(chunks)[i].id != WithIds(chunks)[j].id
  {
    forall i, j | 0 <= i < j < |chunks|
      ensures KeyAt(chunks, i) != KeyAt(chunks, j)
      ensures WithIds(chunks)[i].id != WithIds(chunks)[j].id
    {
      UniqueIdPair(chunks, i, j);
    }
  }

  /** Uniqueness for one pair of positions. */
  lemma UniqueIdPair(chunks: seq<Chunk>, i: nat, j: nat)
    requires PagesContiguous(chunks)
    requires i < j < |chunks|
    ensures KeyAt(chunks, i) != KeyAt(chunks, j)
    ensures WithIds(chunks)[i].id != WithIds(chunks)[j].id
  {
    DistinctKeysUnderContiguity(chunks, i, j);
    DistinctIdsFromDistinctKeys(chunks, i, j);
  }

  /** Positions with different triples get different ids. */
  lemma DistinctIdsFromDistinctKeys(chunks: seq<Chunk>, i: nat, j: nat)
    requires i < |chunks| && j < |chunks|
    requires KeyAt(chunks, i) != KeyAt(chunks, j)
    ensures WithIds(chunks)[i].id != WithIds(chunks)[j].id
  {
    WithIdsAt(chunks, i);
    WithIdsAt(chunks, j);
    if RenderId(KeyAt(chunks, i)) == RenderId(KeyAt(chunks, j)) {
      RenderIdInjective(KeyAt(chunks, i), KeyAt(chunks, j));
    }
  }

  /** Two positions get different triples when pages are contiguous: on one
      page the index has grown in between. */
  lemma DistinctKeysUnderContiguity(chunks: seq<Chunk>, i: nat, j: nat)
    requires PagesContiguous(chunks)
    requires i < j < |chunks|
    ensures KeyAt(chunks, i) != KeyAt(chunks, j)
  {
    if SamePage(chunks[i], chunks[j]) {
      var ids := PageIds(chunks);
      forall m | i <= m <= j
        ensures ids[m] == ids[i]
      {
        if i < m < j {
          assert NoOtherPageBetween(chunks, i, m, j);
        }
        SamePageIffSamePageId(chunks[i], chunks[m]);
      }
      IndexGrowsAlongPage(ids, i, j);
    }
  }

  /** The id `WithIds` gives position `i` is the rendering of its triple. */
  lemma WithIdsAt(chunks: seq<Chunk>, i: nat)
    requires i < |chunks|
    ensures WithIds(chunks)[i].id == Some(RenderId(KeyAt(chunks, i)))
  {
  }

  /** Without contiguity ids repeat: a page that comes back after another
      page restarts at index 0. */
  lemma NonContiguousPagesRepeatIds(a: Chunk, b: Chunk)
    requires !SamePage(a, b)
    ensures WithIds([a, b, a])[0].id == WithIds([a, b, a])[2].id
  {
    var ids := PageIds([a, b, a]);
    SamePageIffSamePageId(a, b);
    FirstChunkIndexZero([a, b, a]);
    IndexRecurrence(ids, 1);
    IndexRecurrence(ids, 2);
  }

  // ---------------------------------------------------------------------------
  // add_to_chroma
  // ---------------------------------------------------------------------------

  /** Every chunk carries `metadata["id"]`. */
  predicate HasIds(chunks: seq<Chunk>) {
    forall i :: 0 <= i < |chunks| ==> chunks[i].id.Some?
  }

  /** The ids of the chunks, in order. */
  function IdsOf(chunks: seq<Chunk>): (r: seq<string>)
    requires HasIds(chunks)
    ensures |r| == |chunks|
  {
    seq(|chunks|, i requires 0 <= i < |chunks| && HasIds(chunks) => chunks[i].id.value)
  }

  /** `a` is `b` with some elements left out and the rest in the same order. */
  predicate IsSubsequence<T(==)>(a: seq<T>, b: seq<T>)
    decreases |b|
  {
    if |a| == 0 then true
    else if |b| == 0 then false
    else if a[0] == b[0] then IsSubsequence(a[1..], b[1..])
    else IsSubsequence(a, b[1..])
  }

  /** The chunks whose id is not in `existing`, in input order. */
  function NewChunks(chunks: seq<Chunk>, existing: set<string>): (r: seq<Chunk>)
    requires HasIds(chunks)
    ensures HasIds(r)
    ensures forall c :: c in r <==> c in chunks && c.id.value !in existing
    ensures forall c :: multiset(r)[c] == if c.id.Some? && c.id.value !in existing then multiset(chunks)[c] else 0
    ensures IsSubsequence(r, chunks)
  {
    if |chunks| == 0 then []
    else
      assert chunks == [chunks[0]] + chunks[1..];
      var rest := NewChunks(chunks[1..], existing);
      if chunks[0].id.value !in existing then [chunks[0]] + rest else rest
  }

  /** The store after a batch insert: each chunk is put under the id at the
      same position. */
  function Inserted(m: map<string, Chunk>, batch: seq<Chunk>, ids: seq<string>): (r: map<string, Chunk>)
    requires |batch| == |ids|
    ensures forall k :: k in r <==> k in m || k in ids
    ensures forall k :: k in m && k !in ids ==> r[k] == m[k]
    decreases |batch|
  {
    if |batch| == 0 then m
    else Inserted(m[ids[0] := batch[0]], batch[1..], ids[1..])
  }

  /** No id occurs twice. */
  predicate Distinct(ids: seq<string>) {
    forall i, j :: 0 <= i < j < |ids| ==> ids[i] != ids[j]
  }

  /** When the ids of a batch are distinct, every chunk of the batch sits
      under its own id after the insert. */
  lemma {:induction false} InsertedContents(m: map<string, Chunk>, batch: seq<Chunk>, ids: seq<string>)
    requires |batch| == |ids|
    ensures Distinct(ids) ==> forall i :: 0 <= i < |ids| ==>
              ids[i] in Inserted(m, batch, ids) && Inserted(m, batch, ids)[ids[i]] == batch[i]
    decreases |batch|
  {
    if |batch| > 0 {
      var m' := m[ids[0] := batch[0]];
      InsertedContents(m', batch[1..], ids[1..]);
      assert ids == [ids[0]] + ids[1..];
      if Distinct(ids) {
        forall i | 0 <= i < |ids|
          ensures ids[i] in Inserted(m, batch, ids) && Inserted(m, batch, ids)[ids[i]] == batch[i]
        {
          if i > 0 {
            assert ids[i] == ids[1..][i - 1];
          } else {
            assert forall j :: 0 <= j < |ids[1..]| ==> ids[1..][j] == ids[j + 1];
          }
        }
      }
    }
  }

  /** Inserting a batch of distinct ids none of which is stored grows the
      store by the size of the batch. */
  lemma {:induction false} InsertedSize(m: map<string, Chunk>, batch: seq<Chunk>, ids: seq<string>)
    requires |batch| == |ids|
    requires Distinct(ids)
    requires forall i :: 0 <= i < |ids| ==> ids[i] !in m
    ensures |Inserted(m, batch, ids)| == |m| + |batch|
    decreases |batch|
  {
    if |batch| > 0 {
      var m' := m[ids[0] := batch[0]];
      forall i | 0 <= i < |ids[1..]|
        ensures ids[1..][i] !in m'
      {
        assert ids[1..][i] == ids[i + 1];
      }
      InsertedSize(m', batch[1..], ids[1..]);
    }
  }

  /** The vector store, reduced to what ingestion sees of it: the stored
      chunks by id. */
  class ChromaStore {
    var docs: map<string, Chunk>

    constructor ()
      ensures docs == map[]
    {
      docs := map[];
    }

    /** The set of ids the store holds. */
    method ExistingIds() returns (ids: set<string>)
      ensures ids == docs.Keys
    {
      ids := docs.Keys;
    }

    /** Adds the batch, each chunk under the id at the same position. */
    method AddDocuments(batch: seq<Chunk>, ids: seq<string>)
      requires |batch| == |ids|
      modifies this
      ensures docs == Inserted(old(docs), batch, ids)
    {
      docs := Inserted(docs, batch, ids);
    }
  }

  /** The batch one ingestion run of `chunks` hands to the store `m`. */
  function NewBatch(m: map<string, Chunk>, chunks: seq<Chunk>): (r: seq<Chunk>)
    ensures HasIds(r)
  {
    NewChunks(WithIds(chunks), m.Keys)
  }

  /** The store after one ingestion run of `chunks`. */
  function Ingest(m: map<string, Chunk>, chunks: seq<Chunk>): (r: map<string, Chunk>)
    ensures forall k :: k in m ==> k in r && r[k] == m[k]
  {
    var added := NewBatch(m, chunks);
    NewChunksIds(WithIds(chunks), m.Keys);
    Inserted(m, added, IdsOf(added))
  }

  /** `add_to_chroma` against the store `db`: assigns the ids in
      place, then inserts, under their own ids and in input order, exactly the
      chunks whose id the store does not hold; returns that batch. */
  method AddToChroma(db: ChromaStore, chunks: array<Chunk>) returns (added: seq<Chunk>)
    modifies db, chunks
    ensures chunks[..] == WithIds(old(chunks[..]))
    ensures added == NewBatch(old(db.docs), old(chunks[..]))
    ensures db.docs == Ingest(old(db.docs), old(chunks[..]))
    ensures |added| == 0 ==> db.docs == old(db.docs)
  {
    var chunksWithIds := CalculateChunkIds(chunks);
    var existingIds := db.ExistingIds();
    var newChunks := NewChunks(chunksWithIds[..], existingIds);
    if |newChunks| > 0 {
      var newChunkIds := IdsOf(newChunks);
      db.AddDocuments(newChunks, newChunkIds);
    }
    added := newChunks;
  }

  /** The ids the filter keeps are exactly the ids of the input that are not
      in `existing`. */
  lemma NewChunksIds(w: seq<Chunk>, existing: set<string>)
    requires HasIds(w)
    ensures forall k :: k in IdsOf(NewChunks(w, existing)) <==> k in IdsOf(w) && k !in existing
  {
    var added := NewChunks(w, existing);
    var ids := IdsOf(added);
    forall k | k in ids
      ensures k in IdsOf(w) && k !in existing
    {
      var i :| 0 <= i < |ids| && ids[i] == k;
      assert added[i] in added;
      var j :| 0 <= j < |w| && w[j] == added[i];
      assert IdsOf(w)[j] == k;
    }
    forall k | k in IdsOf(w) && k !in existing
      ensures k in ids
    {
      var j :| 0 <= j < |w| && IdsOf(w)[j] == k;
      assert w[j] in added;
      var i :| 0 <= i < |added| && added[i] == w[j];
      assert ids[i] == k;
    }
  }

  /** The filter keeps nothing when every id is already present. */
  lemma {:induction false} NewChunksEmpty(w: seq<Chunk>, existing: set<string>)
    requires HasIds(w)
    requires forall i :: 0 <= i < |w| ==> w[i].id.value in existing
    ensures NewChunks(w, existing) == []
  {
    if |w| > 0 {
      NewChunksEmpty(w[1..], existing);
    }
  }

  /** After one ingestion run the store holds exactly its old ids and every
      id of the run. */
  lemma IngestAddsRunIds(m: map<string, Chunk>, chunks: seq<Chunk>)
    ensures forall k :: k in Ingest(m, chunks) <==> k in m || k in IdsOf(WithIds(chunks))
  {
    var w := WithIds(chunks);
    var added := NewBatch(m, chunks);
    var ids := IdsOf(added);
    assert Ingest(m, chunks) == Inserted(m, added, ids);
    NewChunksIds(w, m.Keys);
  }

  /** Ids kept by the filter are pairwise distinct when the input's are. */
  lemma NewChunksDistinct(w: seq<Chunk>, existing: set<string>)
    requires HasIds(w)
    requires forall a, b :: 0 <= a < b < |w| ==> w[a].id != w[b].id
    ensures Distinct(IdsOf(NewChunks(w, existing)))
  {
    var added := NewChunks(w, existing);
    var ids := IdsOf(added);
    forall i, j | 0 <= i < j < |ids|
      ensures ids[i] != ids[j]
    {
      SubsequenceIndices(added, w, i, j);
    }
  }

  /** Inserting the filtered chunks of a list with distinct ids puts each of
      them under its own id and grows the store by their number. */
  lemma InsertNewChunks(m: map<string, Chunk>, w: seq<Chunk>)
    requires HasIds(w)
    requires forall a, b :: 0 <= a < b < |w| ==> w[a].id != w[b].id
    ensures var added := NewChunks(w, m.Keys);
            && (forall c :: c in added ==>
                  c.id.value in Inserted(m, added, IdsOf(added)) && Inserted(m, added, IdsOf(added))[c.id.value] == c)
            && |Inserted(m, added, IdsOf(added))| == |m| + |added|
  {
    var added := NewChunks(w, m.Keys);
    var ids := IdsOf(added);
    NewChunksDistinct(w, m.Keys);
    InsertedContents(m, added, ids);
    forall c | c in added
      ensures c.id.value in Inserted(m, added, ids) && Inserted(m, added, ids)[c.id.value] == c
    {
      var i :| 0 <= i < |added| && added[i] == c;
      assert ids[i] == c.id.value;
    }
    NewChunksIds(w, m.Keys);
    forall i | 0 <= i < |ids|
      ensures ids[i] !in m
    {
      assert ids[i] in ids;
    }
    InsertedSize(m, added, ids);
  }

  /** With contiguous pages, each chunk of the batch is stored under its own
      id and the store grows by exactly the size of the batch. */
  lemma IngestStoresNewChunksUnderOwnIds(m: map<string, Chunk>, chunks: seq<Chunk>)
    requires PagesContiguous(chunks)
    ensures forall c :: c in NewBatch(m, chunks) ==>
              c.id.value in Ingest(m, chunks) && Ingest(m, chunks)[c.id.value] == c
    ensures |Ingest(m, chunks)| == |m| + |NewBatch(m, chunks)|
  {
    UniqueIdsForContiguousPages(chunks);
    InsertNewChunks(m, WithIds(chunks));
  }

  /** Two positions of a subsequence come from two increasing positions of the
      whole sequence. */
  lemma {:induction false} SubsequenceIndices<T>(a: seq<T>, b: seq<T>, i: nat, j: nat)
    requires IsSubsequence(a, b)
    requires i < j < |a|
    ensures exists p, q :: 0 <= p < q < |b| && b[p] == a[i] && b[q] == a[j]
    decreases |b|
  {
    if a[0] == b[0] {
      if i == 0 {
        var q := SubsequenceIndex(a[1..], b[1..], j - 1);
        assert b[0] == a[0] && b[q + 1] == a[j];
      } else {
        SubsequenceIndices(a[1..], b[1..], i - 1, j - 1);
        var p, q :| 0 <= p < q < |b[1..]| && b[1..][p] == a[1..][i - 1] && b[1..][q] == a[1..][j - 1];
        assert b[p + 1] == a[i] && b[q + 1] == a[j];
      }
    } else {
      SubsequenceIndices(a, b[1..], i, j);
      var p, q :| 0 <= p < q < |b[1..]| && b[1..][p] == a[i] && b[1..][q] == a[j];
      assert b[p + 1] == a[i] && b[q + 1] == a[j];
    }
  }

  /** Every position of a subsequence comes from some position of the whole. */
  lemma {:induction false} SubsequenceIndex<T>(a: seq<T>, b: seq<T>, i: nat) returns (p: nat)
    requires IsSubsequence(a, b)
    requires i < |a|
    ensures p < |b| && b[p] == a[i]
    decreases |b|
  {
    if a[0] == b[0] {
      if i == 0 {
        p := 0;
      } else {
        var q := SubsequenceIndex(a[1..], b[1..], i - 1);
        p := q + 1;
      }
    } else {
      var q := SubsequenceIndex(a, b[1..], i);
      p := q + 1;
    }
  }

  /** Re-ingesting the same chunks adds nothing: after one run, a second run
      on the same chunks (with or without the ids the first run wrote) hands no
      chunk to the store and leaves it as it is. */
  lemma ReingestionAddsNothing(m: map<string, Chunk>, chunks: seq<Chunk>)
    ensures NewBatch(Ingest(m, chunks), chunks) == []
    ensures NewBatch(Ingest(m, chunks), WithIds(chunks)) == []
    ensures Ingest(Ingest(m, chunks), chunks) == Ingest(m, chunks)
  {
    var w := WithIds(chunks);
    var m' := Ingest(m, chunks);
    RunIdsStored(m, chunks);
    NewChunksEmpty(w, m'.Keys);
    WithIdsIdempotent(chunks);
    assert NewBatch(m', chunks) == [];
    assert IdsOf(NewBatch(m', chunks)) == [];
  }

  /** After one ingestion run every id of the run is in the store. */
  lemma RunIdsStored(m: map<string, Chunk>, chunks: seq<Chunk>)
    ensures forall i :: 0 <= i < |chunks| ==> WithIds(chunks)[i].id.value in Ingest(m, chunks)
  {
    var w := WithIds(chunks);
    IngestAddsRunIds(m, chunks);
    forall i | 0 <= i < |w|
      ensures w[i].id.value in Ingest(m, chunks)
    {
      assert IdsOf(w)[i] == w[i].id.value;
    }
  }
}
