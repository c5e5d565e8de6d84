# Verified model of the RAG ingestion and retrieval core

This project is a Dafny model of the core of a retrieval-augmented question
answering server. Ingestion splits PDF pages into chunks, gives each chunk a
deterministic id `"<source>:<page>:<index>"` and adds to a vector store only
the chunks whose id the store does not hold yet. A query fetches the chunks
nearest to the question and joins their text into the context of a prompt.
The language model's streamed answer is returned together with the list of
sources used.

The model has four modules:

- `Text` (`text.dfy`) covers Python's decimal rendering of integers in
  f-strings, with the number the digits denote, `str.join`, and splitting a
  string at its last separator. The last lets rendered ids be shown
  injective even when a file name contains colons.
- `Documents` (`documents.dfy`) holds the chunk record: page content,
  `metadata["source"]`, `metadata["page"]` and `metadata["id"]`. It also
  holds the page id `"<source>:<page>"`, the structured id triple
  `ChunkKey(source, page, index)` and its rendering.
- `PopulateDatabase` (`populate_database.dfy`) models `calculate_chunk_ids`
  as an in-place loop over an array of chunks. The loop is proved equal to a
  specification function built from the loop's own state machine
  `(last_page_id, current_chunk_index)`. The module also models
  `add_to_chroma` as a method on a store whose contents are a map from id to
  chunk.
- `QueryData` (`query_data.dfy`) models `query_rag`, `get_similar_chunks`
  and `query_rag_with_postgres` as functions. Each takes the store's contents
  as a sequence, with every chunk paired with its distance to the query
  embedding.

Rendering conventions:

- A missing page is rendered `None`, as Python renders it.
- The language model's stream is represented by the prompt it was given:
  `ModelStream(Prompt(context, question))`.
- A fixed-message iterator is represented as `Messages([...])`.

## Model

| member | source | states |
|---|---|---|
| `Text.NatToString` | server/rag/populate_database.py:110 | the rendered index has at least one character, all decimal digits, no leading zero, and is a single digit exactly for values below 10 |
| `Text.NatToStringValue` | server/rag/populate_database.py:110 | the digits of a rendered index, read left to right, denote that index |
| `Text.NatToStringInjective` | server/rag/populate_database.py:110 | two indices with the same rendering are equal |
| `Text.IntToString` | server/rag/query_data.py:125 | an `int` renders as optional minus sign then digits; the minus sign appears exactly for negative values |
| `Text.IntToStringValue` | server/rag/query_data.py:125 | a rendered `int` reads back as that integer, the minus sign negating the digits' value |
| `Text.IntToStringInjective` | server/rag/query_data.py:125 | two integers with the same rendering are equal |
| `Text.SplitAtLast` | server/rag/populate_database.py:101-110 | `x + c + y` determines both `x` and `y` when `y` holds no `c` |
| `Text.Join` | server/rag/query_data.py:41 | a joined list of at least one part starts with its first part, and with more than one part the first separator follows it |
| `Text.JoinAppend` | server/rag/query_data.py:41 | joining two non-empty lists is joining each with exactly one separator between them |
| `Text.JoinLength` | server/rag/query_data.py:41 | a joined context is as long as its parts plus one separator per gap between neighbours |
| `Documents.PageText` | server/rag/populate_database.py:100-101 | a rendered page holds no colon; it starts with a digit exactly when the page number is present (`None` otherwise) |
| `Documents.PageId` | server/rag/populate_database.py:101 | definition only (no contract): the page id is the source, a colon and the rendered page; what it determines is stated by `Documents.PageIdInjective` |
| `Documents.PageTextInjective` | server/rag/populate_database.py:100-101 | two pages with the same rendering are the same page |
| `Documents.PageIdInjective` | server/rag/populate_database.py:99-101 | equal page ids `source:page` mean equal source and equal page, whatever the source name contains |
| `Documents.RenderId` | server/rag/populate_database.py:110 | a chunk id starts with its page id followed by a colon, and something follows the colon |
| `Documents.RenderIdIndexReadsBack` | server/rag/populate_database.py:110 | after the page id and its colon a chunk id holds only decimal digits, and they denote the chunk index |
| `Documents.RenderIdInjective` | server/rag/populate_database.py:110 | equal chunk ids mean equal (source, page, index) triples, so uniqueness of triples carries to the id strings |
| `PopulateDatabase.Step` | server/rag/populate_database.py:104-111 | definition only (no contract): one loop iteration; its effect is stated by `PopulateDatabase.LoopStep` and `PopulateDatabase.IndexRecurrence` |
| `PopulateDatabase.Run` | server/rag/populate_database.py:95-111 | after a non-empty run of chunks, `last_page_id` is the page id of the last one |
| `PopulateDatabase.WithIds` | server/rag/populate_database.py:98-116 | the result has the same chunks in the same order; every chunk now has an id, and no other field changes |
| `PopulateDatabase.CalculateChunkIds` | server/rag/populate_database.py:88-116 | the loop over the list writes each chunk's id in place; the array afterwards equals `WithIds` of its old contents, and the same array is returned |
| `PopulateDatabase.LoopStep` | server/rag/populate_database.py:99-114 | one iteration moves the state `(last_page_id, current_chunk_index)` one step on, and writes the id `page_id:index` that `WithIds` gives that chunk |
| `PopulateDatabase.RunExtends` | server/rag/populate_database.py:98-111 | running the state machine over one more chunk is one more loop step |
| `PopulateDatabase.IdIsRenderedKey` | server/rag/populate_database.py:99-110 | each id is the chunk's own `source:page` followed by `:` and the decimal index the loop computed |
| `PopulateDatabase.FirstChunkIndexZero` | server/rag/populate_database.py:95-107 | the first chunk always gets index 0, so its id is `source:page:0` |
| `PopulateDatabase.IndexRecurrence` | server/rag/populate_database.py:104-111 | a chunk whose page id equals the previous chunk's gets the previous index + 1; otherwise it gets 0 |
| `PopulateDatabase.SamePageIffSamePageId` | server/rag/populate_database.py:99-104 | comparing page-id strings is the same as comparing (source, page) pairs |
| `PopulateDatabase.ChunkIndexRecurrence` | server/rag/populate_database.py:99-111 | the index recurrence, stated on (source, page) pairs |
| `PopulateDatabase.IndexCountsRunOfSamePage` | server/rag/populate_database.py:95-111 | closed form: a chunk's index is the number of chunks just before it with its page id, counted back to the last page change |
| `PopulateDatabase.IndexGrowsAlongPage` | server/rag/populate_database.py:104-105 | along a stretch of one page, the index grows by one per chunk |
| `PopulateDatabase.IdsDependOnlyOnPages` | server/rag/populate_database.py:95-114 | determinism: two lists with the same sequence of (source, page) pairs get the same ids |
| `PopulateDatabase.WithIdsIdempotent` | server/rag/populate_database.py:95-114 | recomputing ids on chunks that already carry them changes nothing |
| `PopulateDatabase.UniqueIdsForContiguousPages` | server/rag/populate_database.py:88-110 | when each page's chunks are contiguous, no two chunks share a (source, page, index) triple or an id |
| `PopulateDatabase.NonContiguousPagesRepeatIds` | server/rag/populate_database.py:104-110 | without contiguity ids repeat: in pages A, B, A the first and third chunks both get `A:0` |
| `PopulateDatabase.NewChunks` | server/rag/populate_database.py:78 | the kept chunks are the input chunks whose id is not already stored, each kept as often as it occurs in the input, in input order (a subsequence of the input) |
| `PopulateDatabase.NewChunksIds` | server/rag/populate_database.py:78-82 | the ids of the kept chunks are exactly the input ids not already stored |
| `PopulateDatabase.NewChunksEmpty` | server/rag/populate_database.py:78-85 | when every id is already stored, nothing is kept |
| `PopulateDatabase.NewChunksDistinct` | server/rag/populate_database.py:78-83 | kept ids are pairwise distinct when the input's ids are |
| `PopulateDatabase.Inserted` | server/rag/populate_database.py:83 | a batch insert adds exactly the batch's ids to the store, and every key outside the batch keeps its chunk |
| `PopulateDatabase.InsertedContents` | server/rag/populate_database.py:83 | with distinct ids each chunk of the batch is stored under its own id |
| `PopulateDatabase.InsertedSize` | server/rag/populate_database.py:83 | inserting distinct new ids grows the store by the batch size |
| `PopulateDatabase.ChromaStore.ExistingIds` | server/rag/populate_database.py:73-74 | the set of ids is exactly the store's keys |
| `PopulateDatabase.ChromaStore.AddDocuments` | server/rag/populate_database.py:83 | the store afterwards is the old store with the batch inserted under the given ids |
| `PopulateDatabase.Ingest` | server/rag/populate_database.py:69-85 | one ingestion run never overwrites or removes a stored chunk |
| `PopulateDatabase.AddToChroma` | server/rag/populate_database.py:56-85 | writes the ids in place; the batch added is the chunks whose id the store lacks, in input order; the store becomes the batch-inserted store; with no new chunk the store is unchanged |
| `PopulateDatabase.IngestAddsRunIds` | server/rag/populate_database.py:69-85 | after a run the store holds exactly its old ids plus every id of the run |
| `PopulateDatabase.InsertNewChunks` | server/rag/populate_database.py:78-83 | inserting the kept chunks of a list with distinct ids stores each under its own id and grows the store by their number |
| `PopulateDatabase.IngestStoresNewChunksUnderOwnIds` | server/rag/populate_database.py:69-85 | with contiguous pages, each inserted chunk is stored under its own id and the store grows by exactly the number inserted |
| `PopulateDatabase.ReingestionAddsNothing` | server/rag/populate_database.py:69-85 | a second run on the same chunks, with or without the ids already written, hands no chunk to the store and leaves it unchanged |
| `QueryData.InsertByDistance` | server/rag/query_data.py:80-82 | inserting into a distance-sorted list keeps it sorted and adds exactly that element |
| `QueryData.SortByDistance` | server/rag/query_data.py:80-82 | `order_by("similarity")`: the result is sorted by non-decreasing distance and is a permutation of the input |
| `QueryData.PrefixOfSortedIsNearest` | server/rag/query_data.py:78-84 | the first `k` elements of a sorted permutation are `k` nearest candidates |
| `QueryData.SimilaritySearch` | server/rag/query_data.py:78-84 | the result has `min(k, n)` candidates drawn from the input, sorted by distance, and no omitted candidate is strictly closer than a returned one |
| `QueryData.SearchSize` | server/rag/query_data.py:35 | for a non-empty store of n chunks, `k = min(5, n)`: 1 ≤ k ≤ 5, k ≤ n, and k is 5 or n |
| `QueryData.SourceId` | server/rag/query_data.py:59 | a chunk's source is its id when it has one, and `""` when it has none |
| `QueryData.QueryRag` | server/rag/query_data.py:12-61 | an empty store yields exactly the fixed "base de connaissances est vide" message, no sources and no model call; otherwise the model is asked about `query_text`, with `min(5, n)` sources |
| `QueryData.QueryRagUsesNearestChunks` | server/rag/query_data.py:35-60 | for a non-empty store the prompt context is the contents of the `min(5, n)` nearest chunks, nearest first, joined by `"\n\n---\n\n"`; the question is `query_text`; the sources are those chunks' ids (`""` when absent), in the same order |
| `QueryData.QueryRagSingleChunkContext` | server/rag/query_data.py:41-60 | with one stored chunk the context is exactly its content, with no separator, and the sources list holds its id alone |
| `QueryData.GetSimilarChunks` | server/rag/query_data.py:69-86 | at most `top_k` rows, namely the `min(top_k, n)` nearest, sorted by non-decreasing distance; no omitted row is strictly closer |
| `QueryData.FormatSource` | server/rag/query_data.py:125 | a source label starts with the file name followed by `": Page "` |
| `QueryData.FormatSourceIndexReadsBack` | server/rag/query_data.py:125 | the text after a source label's last space reads back as the chunk index |
| `QueryData.FormatSourceInjective` | server/rag/query_data.py:124-127 | a source string `"<file>: Page <p>, Chunk <i>"` determines the file name, page and chunk index |
| `QueryData.QueryRagWithPostgres` | server/rag/query_data.py:96-129 | no rows yields exactly "Désolé, aucun document pertinent trouvé." and no sources; otherwise the model is asked about `query_text`, with `min(5, n)` sources |
| `QueryData.QueryRagWithPostgresUsesNearestRows` | server/rag/query_data.py:109-127 | for a non-empty table the context is the nearest rows' contents joined by the separator, and the sources are `"<file>: Page <p>, Chunk <i>"` for those rows, in the same order |

## Left out

- PDF loading (`load_documents`) and deleting the store's directory (`clear_database`) are left out as file-system I/O. `populate_database` and `reset_database` only chain these steps.
- Text splitting (`split_documents`) is left out. It is a call into a text-splitting library whose code is not part of this model, so neither chunk length nor overlap is modelled.
- Embeddings are left out: computing them, cosine distances, and the vector index. A query's distance to each stored chunk is given as an input (`Scored.distance`, a `real`). Floating-point rounding is not modelled.
- `QueryData.SimilaritySearch`: Chroma's search and the IVFFlat index on the `Chunk` table (server/rag/models.py:26-32) are approximate in practice; the model takes the exact semantics of the query, "order by distance, keep the first k", so its nearest-first promise is about that exact query.
- The language model is left out. `OllamaLLM.stream` is a network call; its stream is represented by the prompt it receives. Laziness, single-pass consumption and cancellation are not modelled.
- The prompt template is left out. The configured template text is outside the code, so a prompt is modelled as the pair of values filled into its two placeholders.
- Opening and persisting the vector store, the relational ORM and the Django views are left out. The query functions take the store's contents as a sequence, not the `ChromaStore` object.
- Log messages printed by `add_to_chroma` are left out.
- The core has no retry on a missing language model and no deletion of chunks by source; neither is modelled.
- `PopulateDatabase.Inserted`: when one batch holds two chunks with the same id (possible only if a page's chunks are not contiguous), the later one wins. The vector store's own behaviour in that case is not part of this model.
- `PopulateDatabase.CalculateChunkIds`: chunks are values in an array. The case where one document object appears twice in the list, so that writing one entry also changes another, is not modelled.
- `QueryData.SimilaritySearch`: the model breaks ties between equal distances in insertion-sort order. Neither store promises an order among equal distances, so no contract claims one.
- `Documents.Chunk`: a missing `source` renders as `None` in Python. The model takes the source as a string, so a missing source is the string `None`. A chunk without a page renders its page as `None`.
- `QueryData.PgChunk`: the file name of a row's document (`chunk.document.file.name`, server/rag/query_data.py:125) is a field of the row in the model. The `Chunk` model (server/rag/models.py:18-23) declares no relation to a document, so where that name comes from is not part of this model.
- `QueryData.QueryRag`: the sources are the full chunk ids (`source:page:index`) of the retrieved chunks, not the source file names.
- `QueryData.QueryRagWithPostgres` computes the query embedding before it searches, even for an empty table. With embeddings given as inputs, that call is not modelled.
- `QueryData.GetSimilarChunks`: `top_k` is a `nat`, because the ORM refuses negative slice bounds.
- `PopulateDatabase.AddToChroma`: duplicates are filtered out before the insert, as the code does; the store is never asked to ignore a duplicate id.
