/** Retrieval and answer assembly: `query_rag` against the vector store,
    `get_similar_chunks` and `query_rag_with_postgres` against the relational
    store. The embedding model, the language model and the stores are outside
    the model: every stored chunk comes with its cosine distance to the query
    already computed, and the model's streamed answer is represented by the
    prompt it was asked to complete. */
module QueryData {
  import opened Text
  import opened Documents

  /** The most chunks `query_rag` retrieves. */
  const MAX_RESULTS := 5
  /** The default `top_k` of `get_similar_chunks`. */
  const DEFAULT_TOP_K := 5
  const CONTEXT_SEPARATOR := "\n\n---\n\n"
  const EMPTY_STORE_MESSAGE :=
    "Désolé, la base de connaissances est vide. Veuillez ajouter des documents avant de poser une question."
  const NO_RELEVANT_DOCUMENT_MESSAGE := "Désolé, aucun document pertinent trouvé."

  /** A stored item with its distance to the query embedding; smaller is closer. */
  datatype Scored<T> = Scored(item: T, distance: real)

  /** The configured prompt template filled with its two placeholders. */
  datatype Prompt = Prompt(context: string, question: string)

  /** The answer stream: either an iterator over fixed messages, or the
      language model's stream of its answer to a prompt. */
  datatype Response = Messages(items: seq<string>) | ModelStream(prompt: Prompt)

  /** What both query functions return: the stream and the list of sources. */
  datatype Answer = Answer(response: Response, sources: seq<string>)

  /** A row of the relational `Chunk` table, with the name of the file of
      the document it belongs to. */
  datatype PgChunk = PgChunk(fileName: string, source: string, page: int, chunkIndex: int, content: string)

  function Min(a: nat, b: nat): nat {
    if a <= b then a else b
  }

  // ---------------------------------------------------------------------------
  // Nearest-first search
  // ---------------------------------------------------------------------------

  predicate SortedByDistance<T>(s: seq<Scored<T>>) {
    forall i, j :: 0 <= i < j < |s| ==> s[i].distance <= s[j].distance
  }

  /** `results` are the `k` candidates nearest to the query (all of them if
      there are fewer), nearest first: sorted by non-decreasing distance,
      taken from the candidates, and no candidate left out is strictly closer
      than one that was kept. */
  ghost predicate IsNearest<T>(results: seq<Scored<T>>, candidates: seq<Scored<T>>, k: nat) {
    && |results| == Min(k, |candidates|)
    && SortedByDistance(results)
    && multiset(results) <= multiset(candidates)
    && forall e, j :: e in multiset(candidates) - multiset(results) && 0 <= j < |results| ==>
         results[j].distance <= e.distance
  }

  function InsertByDistance<T(==)>(x: Scored<T>, s: seq<Scored<T>>): (r: seq<Scored<T>>)
    requires SortedByDistance(s)
    ensures SortedByDistance(r)
    ensures multiset(r) == multiset(s) + multiset{x}
    ensures |r| > 0 && (r[0] == x || (|s| > 0 && r[0] == s[0]))
  {
    if |s| == 0 || x.distance <= s[0].distance then [x] + s
    else
      assert s == [s[0]] + s[1..];
      [s[0]] + InsertByDistance(x, s[1..])
  }

  /** The candidates in order of non-decreasing distance. */
  function SortByDistance<T(==)>(s: seq<Scored<T>>): (r: seq<Scored<T>>)
    ensures SortedByDistance(r)
    ensures multiset(r) == multiset(s)
  {
    if |s| == 0 then []
    else
      assert s == [s[0]] + s[1..];
      InsertByDistance(s[0], SortByDistance(s[1..]))
  }

  lemma PrefixOfSortedIsNearest<T>(sorted: seq<Scored<T>>, candidates: seq<Scored<T>>, k: nat)
    requires SortedByDistance(sorted)
    requires multiset(sorted) == multiset(candidates)
    ensures |sorted| == |candidates|
    ensures IsNearest(sorted[..Min(k, |candidates|)], candidates, k)
  {
    assert |multiset(sorted)| == |multiset(candidates)|;
    var m := Min(k, |candidates|);
    var kept, rest := sorted[..m], sorted[m..];
    assert sorted == kept + rest;
    assert multiset(sorted) == multiset(kept) + multiset(rest);
    forall e, j | e in multiset(candidates) - multiset(kept) && 0 <= j < |kept|
      ensures kept[j].distance <= e.distance
    {
      assert e in rest;
      var p :| 0 <= p < |rest| && rest[p] == e;
      assert sorted[m + p] == e;
    }
  }

  /** Sort by distance, ascending, and keep the first `k`: the model of both
      the vector store's scored similarity search and the ORM query of
      `get_similar_chunks`. */
  function SimilaritySearch<T(==)>(candidates: seq<Scored<T>>, k: nat): (r: seq<Scored<T>>)
    ensures IsNearest(r, candidates, k)
    ensures |r| <= k && |r| <= |candidates|
  {
    var sorted := SortByDistance(candidates);
    PrefixOfSortedIsNearest(sorted, candidates, k);
    sorted[..Min(k, |candidates|)]
  }

  // ---------------------------------------------------------------------------
  // query_rag
  // ---------------------------------------------------------------------------

  /** The number of chunks to retrieve from a store of `n > 0` chunks. */
  function SearchSize(n: nat): (k: nat)
    requires n > 0
    ensures 1 <= k <= MAX_RESULTS && k <= n
    ensures k == MAX_RESULTS || k == n
  {
    Min(MAX_RESULTS, n)
  }

  /** The chunk's id, or the empty string when it has none. */
  function SourceId(c: Chunk): (r: string)
    ensures c.id.Some? ==> r == c.id.value
    ensures c.id.None? ==> r == ""
  {
    match c.id
    case Some(v) => v
    case None => ""
  }

  function ChunkContents(results: seq<Scored<Chunk>>): (r: seq<string>)
    ensures |r| == |results|
  {
    seq(|results|, i requires 0 <= i < |results| => results[i].item.pageContent)
  }

  function SourceIds(results: seq<Scored<Chunk>>): (r: seq<string>)
    ensures |r| == |results|
  {
    seq(|results|, i requires 0 <= i < |results| => SourceId(results[i].item))
  }

  /** `query_rag` on a vector store whose chunks are `store`,
      each with its distance to the query. */
  function QueryRag(store: seq<Scored<Chunk>>, queryText: string): (a: Answer)
    ensures |store| == 0 <==> a == Answer(Messages([EMPTY_STORE_MESSAGE]), [])
    ensures |store| > 0 ==> a.response.ModelStream? && a.response.prompt.question == queryText
    ensures |store| > 0 ==> |a.sources| == SearchSize(|store|)
  {
    if |store| == 0 then Answer(Messages([EMPTY_STORE_MESSAGE]), [])
    else
      var k := SearchSize(|store|);
      var results := SimilaritySearch(store, k);
      var contextText := Join(ChunkContents(results), CONTEXT_SEPARATOR);
      var prompt := Prompt(contextText, queryText);
      Answer(ModelStream(prompt), SourceIds(results))
  }

  /** On a non-empty store the answer is built from the `min(5, n)` chunks
      nearest to the query, nearest first: the prompt holds their contents
      joined by the separator and the question, and the sources are their
      ids in the same order. */
  lemma QueryRagUsesNearestChunks(store: seq<Scored<Chunk>>, queryText: string)
    requires |store| > 0
    ensures exists results :: IsNearest(results, store, SearchSize(|store|))
              && QueryRag(store, queryText).response
                 == ModelStream(Prompt(Join(ChunkContents(results), CONTEXT_SEPARATOR), queryText))
              && QueryRag(store, queryText).sources == SourceIds(results)
  {
    var results := SimilaritySearch(store, SearchSize(|store|));
    assert IsNearest(results, store, SearchSize(|store|));
  }

  /** A single stored chunk is the whole context: no separator is added. */
  lemma QueryRagSingleChunkContext(store: seq<Scored<Chunk>>, queryText: string)
    requires |store| == 1
    ensures QueryRag(store, queryText).response
         == ModelStream(Prompt(store[0].item.pageContent, queryText))
    ensures QueryRag(store, queryText).sources == [SourceId(store[0].item)]
  {
    var results := SimilaritySearch(store, 1);
    assert multiset(results) <= multiset(store);
    assert results[0] in multiset(store);
    assert results == store;
  }

  // ---------------------------------------------------------------------------
  // get_similar_chunks and query_rag_with_postgres
  // ---------------------------------------------------------------------------

  /** `get_similar_chunks` over the rows of the
      `Chunk` table, each with its cosine distance to the query embedding. */
  function GetSimilarChunks(rows: seq<Scored<PgChunk>>, topK: nat): (r: seq<Scored<PgChunk>>)
    ensures |r| <= topK
    ensures IsNearest(r, rows, topK)
  {
    SimilaritySearch(rows, topK)
  }

  /** The label of a source row: its file name, page and chunk index. */
  function FormatSource(c: PgChunk): (r: string)
    ensures c.fileName + ": Page " <= r
  {
    c.fileName + ": Page " + IntToString(c.page) + ", Chunk " + IntToString(c.chunkIndex)
  }

  /** The chunk index reads back from a source label: it is the number after
      the label's last space. */
  lemma FormatSourceIndexReadsBack(c: PgChunk)
    ensures var r := FormatSource(c);
            var p := LastIndexBelow(r, ' ', |r|);
            p >= 0 && SignedValue(r[p + 1..]) == c.chunkIndex
  {
    var x := c.fileName + ": Page " + IntToString(c.page) + ", Chunk";
    var index := IntToString(c.chunkIndex);
    assert FormatSource(c) == x + [' '] + index;
    IntToStringHasNo(c.chunkIndex, ' ');
    LastIndexBelowJoined(x, ' ', index);
    assert FormatSource(c)[|x| + 1..] == index;
    IntToStringValue(c.chunkIndex);
  }

  lemma IntToStringHasNo(i: int, c: char)
    requires !IsDigit(c) && c != '-'
    ensures c !in IntToString(i)
  {
    var s := IntToString(i);
    forall k | 0 <= k < |s|
      ensures s[k] != c
    {
      if k == 0 {
        assert s[0] == '-' || IsDigit(s[0]);
      }
    }
  }

  /** A formatted source names its file, page and chunk index unambiguously,
      whatever the file name contains. */
  lemma FormatSourceInjective(a: PgChunk, b: PgChunk)
    requires FormatSource(a) == FormatSource(b)
    ensures a.fileName == b.fileName && a.page == b.page && a.chunkIndex == b.chunkIndex
  {
    var pa, pb := IntToString(a.page), IntToString(b.page);
    var ia, ib := IntToString(a.chunkIndex), IntToString(b.chunkIndex);
    IntToStringHasNo(a.chunkIndex, ' ');
    IntToStringHasNo(b.chunkIndex, ' ');
    IntToStringHasNo(a.page, ' ');
    IntToStringHasNo(b.page, ' ');
    // "<file>: Page <page>, Chunk" + " " + "<index>"
    var xa, xb := a.fileName + ": Page " + pa + ", Chunk", b.fileName + ": Page " + pb + ", Chunk";
    assert FormatSource(a) == xa + [' '] + ia;
    assert FormatSource(b) == xb + [' '] + ib;
    SplitAtLast(xa, ia, xb, ib, ' ');
    // "<file>: Page <page>," + " " + "Chunk"
    var ya, yb := a.fileName + ": Page " + pa + ",", b.fileName + ": Page " + pb + ",";
    assert xa == ya + [' '] + "Chunk";
    assert xb == yb + [' '] + "Chunk";
    SplitAtLast(ya, "Chunk", yb, "Chunk", ' ');
    // "<file>: Page <page>" + ","
    var za, zb := a.fileName + ": Page " + pa, b.fileName + ": Page " + pb;
    assert ya == za + [','] + "";
    assert yb == zb + [','] + "";
    SplitAtLast(za, "", zb, "", ',');
    // "<file>: Page" + " " + "<page>"
    var wa, wb := a.fileName + ": Page", b.fileName + ": Page";
    assert za == wa + [' '] + pa;
    assert zb == wb + [' '] + pb;
    SplitAtLast(wa, pa, wb, pb, ' ');
    assert a.fileName == wa[..|wa| - 6];
    assert b.fileName == wb[..|wb| - 6];
    IntToStringInjective(a.page, b.page);
    IntToStringInjective(a.chunkIndex, b.chunkIndex);
  }

  function RowContents(rows: seq<Scored<PgChunk>>): (r: seq<string>)
    ensures |r| == |rows|
  {
    seq(|rows|, i requires 0 <= i < |rows| => rows[i].item.content)
  }

  function FormattedSources(rows: seq<Scored<PgChunk>>): (r: seq<string>)
    ensures |r| == |rows|
  {
    seq(|rows|, i requires 0 <= i < |rows| => FormatSource(rows[i].item))
  }

  /** `query_rag_with_postgres` on a table whose rows are `rows`,
      each with its distance to the query embedding. */
  function QueryRagWithPostgres(rows: seq<Scored<PgChunk>>, queryText: string): (a: Answer)
    ensures |rows| == 0 <==> a == Answer(Messages([NO_RELEVANT_DOCUMENT_MESSAGE]), [])
    ensures |rows| > 0 ==> a.response.ModelStream? && a.response.prompt.question == queryText
    ensures |rows| > 0 ==> |a.sources| == Min(DEFAULT_TOP_K, |rows|)
  {
    var similarChunks := GetSimilarChunks(rows, DEFAULT_TOP_K);
    if |similarChunks| == 0 then Answer(Messages([NO_RELEVANT_DOCUMENT_MESSAGE]), [])
    else
      var contextText := Join(RowContents(similarChunks), CONTEXT_SEPARATOR);
      var prompt := Prompt(contextText, queryText);
      Answer(ModelStream(prompt), FormattedSources(similarChunks))
  }

  /** On a non-empty table the answer is built from the five rows nearest to
      the query (all rows if fewer), nearest first: the prompt holds their
      contents joined by the separator, and the i-th source names the file,
      page and chunk index of the i-th of them. */
  lemma QueryRagWithPostgresUsesNearestRows(rows: seq<Scored<PgChunk>>, queryText: string)
    requires |rows| > 0
    ensures exists results :: IsNearest(results, rows, DEFAULT_TOP_K)
              && QueryRagWithPostgres(rows, queryText).response
                 == ModelStream(Prompt(Join(RowContents(results), CONTEXT_SEPARATOR), queryText))
              && QueryRagWithPostgres(rows, queryText).sources == FormattedSources(results)
  {
    var results := GetSimilarChunks(rows, DEFAULT_TOP_K);
    assert IsNearest(results, rows, DEFAULT_TOP_K);
  }
}
