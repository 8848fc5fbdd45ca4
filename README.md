# localRAG retrieval core in Dafny

This project models the retrieval core of localRAG. localRAG indexes documents into overlapping text chunks, stores their embeddings in a local Qdrant collection tagged by data name, and serves two MCP tools that search and list the configured data sources.

The model covers three Python modules:

- **`document_processor.py`** (module `Chunking`).
  - `chunk_text` is an imperative method. Its `while` loop is proved against the function `Chunks`, the non-blank windows `text[k*(S-O) : k*(S-O)+S]`.
  - `is_supported_file` is a predicate over posix `splitext`, lower-cased.
  - `convert_to_markdown` and its error prefix, and `process_document`.
  - MarkItDown and SentenceTransformer are function-valued fields of the processor.
- **`vector_db.py`** (module `VectorDb`, over the client model in module `Qdrant`).
  - The `VectorDatabase` class holds the shared client. The "documents" collection is a sequence of points with payloads.
  - `_ensure_collection`, `insert_documents` (the `zip` loop with `chunk_index`, then upsert) and `search` (filter construction and result mapping).
  - `get_all_data_names` (one scroll page of at most 1000 points, collected into a set, then sorted).
  - `delete_by_data_name` (one filtered page of ids, then a delete) and `get_stats`.
- **`mcp_server.py`** (module `McpServer`).
  - A `Server` class whose fields are the module globals.
  - `initialize_server`.
  - `search_documents`: empty-query rejection, the `max(1, min(20, limit))` clamp, the `None` filter for an empty configuration, the report built by `+=`, and every exception turned into text.
  - `list_data_sources`.

Supporting modules:

- `Text`: Python's `str.isspace` and `strip()`, ASCII lower-casing, `rfind`, `str(n)`, the order of `str`, and `sorted(set)`.
- `Config`: the constants of `config.py`.
- `Wrappers`: `Option`/`Result`.

Three behaviours of the code are easy to miss. The model follows the code in each:

- `chunk_text` does not reject `overlap >= chunk_size`. It loops forever, which `LoopNeverExitsWhenOverlapTooLarge` shows.
- Name enumeration and delete-by-name read a single scroll page of at most 1000 points (vector_db.py:134, vector_db.py:167), although the comments promise all points. They are modelled that way: their contracts speak of that page, and `ScrollWholeCollection` and `DeletionWithinOnePage` say what holds when a single page holds everything.
- `search` builds a `must` filter, which is an AND of the names. The program expects an OR:
  - `search`'s docstring describes `data_names` as the names to search in (vector_db.py:88);
  - the server takes one or more names (`nargs="+"`, mcp_server.py:206);
  - the GUI starts it with every selected name (gui_app.py:266).

  This is reported under Findings below. The model keeps both: `SearchAsWritten` has the code's filter, and `Search` has the corrected one.

## Model

| member | source | states |
|---|---|---|
| Chunking.DocumentProcessor.ChunkText | document_processor.py:33-61 | The loop returns exactly `Chunks(text, size, overlap)` for the resolved parameters. Empty text gives `[]`. Every chunk has a non-empty `strip()` and at most `chunk_size` characters. |
| Chunking.ChunkLoopStep | document_processor.py:54-59 | One iteration keeps the invariant "chunks so far + non-blank windows from `start` = all chunks". `start` moves to `end - overlap`, and the window is kept iff `strip()` is non-empty. |
| Chunking.StartAdvancesBySteps | document_processor.py:54-59 | With `0 <= overlap < size`, after n iterations `start` is `n*(size-overlap)`, and it strictly increases, so the loop terminates. |
| Chunking.LoopNeverExitsWhenOverlapTooLarge | document_processor.py:54-59 | With `overlap >= size`, `start` never becomes positive, so on non-empty text the loop condition holds forever. |
| Chunking.WindowsAt | document_processor.py:54-59 | Window k exists iff `k*(S-O) < len(text)`, and it is `text[k*(S-O) : k*(S-O)+S]` clipped to the text. |
| Chunking.ChunksAreNonBlankWindows | document_processor.py:54-59 | Chunk i is the window at index `ks[i]` for a strictly increasing `ks`. Each is a non-blank substring of at most S characters, and every non-blank window is emitted. |
| Chunking.ChunksNonBlankAndBounded | document_processor.py:57-58 | Every chunk is not all whitespace and has length at most `size`. |
| Chunking.FinalWindowInsidePrevious | document_processor.py:55-59 | Since `start` comes from the unclipped `end`: when the text ends within the last `overlap` characters of window k-1, window k exists and is the suffix of window k-1 after its first `size - overlap` characters. So it adds no new text. |
| Chunking.RedundantFinalWindow | document_processor.py:55-59 | An instance of `FinalWindowInsidePrevious`: "abcdef" with size 4 and overlap 2 gives "abcd", "cdef" and "ef", and "ef" is the tail of "cdef". |
| Chunking.DefaultsTerminate | document_processor.py:45-48 | With both parameters `None`, the defaults 500 and 50 are used, they satisfy `0 <= overlap < size`, and windows are 450 apart. |
| Chunking.DocumentProcessor.constructor | document_processor.py:12-15 | The processor holds the given MarkItDown conversion and embedding model. |
| Chunking.DocumentProcessor.EmbedText | document_processor.py:63-74 | `embed_text` returns exactly the embedding model's vectors for the list of texts, or fails with the model's error. |
| Text.StripEmptyIffBlank | document_processor.py:57 | `strip()` is empty iff every character is Python whitespace. |
| Chunking.DocumentProcessor.ConvertToMarkdown | document_processor.py:17-31 | The conversion succeeds iff MarkItDown does, and passes the text through. A failure's message is `文件轉換失敗: ` followed by the library's message. |
| Chunking.DocumentProcessor.ProcessDocument | document_processor.py:76-103 | A conversion failure gives the prefixed error. An embedding failure gives its error. Otherwise the result holds `basename(path)`, the data name unchanged, the text, the chunks of the text with the defaults, and their embeddings. |
| Chunking.Basename | document_processor.py:98 | The result has no '/'. It is a suffix of the path, preceded by '/' whenever it is shorter than the path. |
| Chunking.SplitExtension | document_processor.py:116 | posixpath `splitext`'s extension is empty, or a suffix of the path that starts with '.'. |
| Chunking.IsSupportedFile | document_processor.py:105-117 | Whenever `is_supported_file` accepts a path, the path ends, in any ASCII case, with one of the nine extensions. |
| Chunking.SupportedIffEndsWithExtension | document_processor.py:116-117 | A file is supported iff its last path component has a non-dot character and then one of the nine extensions, in any ASCII case, at its end. |
| Chunking.SupportedIsCaseInsensitive | document_processor.py:116-117 | `is_supported_file(p) == is_supported_file(p.lower())`. |
| Chunking.NoDotNotSupported | document_processor.py:116-117 | A path without '.' is never supported. |
| Qdrant.Scroll | vector_db.py:132-137 | A scroll page has at most `limit` points, all stored in the collection and admitted by the filter. |
| Qdrant.SortByScore | vector_db.py:111 | Search results are in non-increasing score order, and they are the scored points rearranged (same multiset). |
| Qdrant.SearchPointsSound | vector_db.py:111 | `client.search` returns at most `limit` hits, best first. Each is an admitted point of the collection, scored against the query. |
| Qdrant.SearchPointsReturnsAllWithinLimit | vector_db.py:111 | When at most `limit` points are admitted, the hits are exactly the admitted points with their scores (same multiset). Every admitted point appears with its similarity. |
| Qdrant.UpsertFreshAppends | vector_db.py:59-79 | Upserting points with fresh, distinct ids appends them and leaves every stored point unchanged. |
| Qdrant.DeleteIds | vector_db.py:174-178 | After the delete, a point remains iff it was stored and its id was not selected. |
| Qdrant.DeleteKeepsDistinct | vector_db.py:174-178 | Deleting keeps point ids distinct. |
| VectorDb.EnsureCollectionEffect | vector_db.py:30-43 | Afterwards the collection exists. If it was absent, it is created empty with size 384 and cosine distance. No other collection is touched. |
| VectorDb.EnsureCollectionIdempotent | vector_db.py:30-43 | Ensuring twice is the same as ensuring once, so the collection is created at most once. |
| VectorDb.VectorDatabase.constructor | vector_db.py:24-28 | Wraps the given shared client and leaves its collections as `_ensure_collection` makes them. |
| VectorDb.VectorDatabase.EnsureCollection | vector_db.py:30-43 | The new collections are the ensured collections of the old ones, and the database invariant holds. |
| VectorDb.VectorDatabase.InsertDocuments | vector_db.py:45-79 | Returns `min(len(chunks), len(embeddings))`. The old points stay, unchanged and first. New point i has id `ids[i]`, vector `embeddings[i]`, and payload text `chunks[i]`, the given file and data name, and `chunk_index` i. Other collections do not change. |
| VectorDb.BuildFilter | vector_db.py:100-109 | `None` or `[]` gives no filter. Otherwise the filter is a `must` filter with one `data_name` condition per name, in order. |
| VectorDb.BuildFilterMeaning | vector_db.py:100-109 | As written, a point passes the filter iff its `data_name` equals every listed name. `None` or `[]` means no filter. |
| VectorDb.MustFilterAdmitsNothing | vector_db.py:101-109 | With two different names in the list, no point passes the as-written filter. |
| VectorDb.MustFilterMatchesNothing | vector_db.py:101-109 | A list with two different names selects no point of any collection. |
| VectorDb.SearchAsWrittenFindsNothing | vector_db.py:101-111 | Searching `["manual", "faq"]` with the as-written filter returns no hits at all, whatever the collection holds. |
| VectorDb.BuildIntendedFilterMeaning | vector_db.py:100-109 | The intended filter admits a point iff its `data_name` is one of the listed names. `None` or `[]` admits everything. |
| VectorDb.FiltersAgreeOnOneName | vector_db.py:100-109 | When the list holds a single name (possibly repeated), the as-written and the intended filter admit the same points. |
| VectorDb.ToHits | vector_db.py:113-122 | The mapping succeeds iff every result has all four payload keys. Hit i then carries result i's score and payload. Otherwise the error is the KeyError text of the first missing key of the first incomplete result. |
| VectorDb.HitsSound | vector_db.py:94-122 | Mapped hits number at most `limit`, are best first, and each is the payload of an admitted stored point with its score. |
| VectorDb.VectorDatabase.Search | vector_db.py:81-122 | `search` with the corrected should-filter. A query vector of the wrong dimension is an error. Otherwise there are at most `limit` hits, best first, and each is a stored point the corrected filter admits. With a non-empty name list, every hit's data name is in the list. |
| VectorDb.VectorDatabase.SearchAsWritten | vector_db.py:81-122 | `search` with the code's must-filter. A query vector of the wrong dimension is an error. Otherwise two different names give `Success([])` whatever the collection holds. |
| VectorDb.VectorDatabase.SearchesAgreeOnOneName | vector_db.py:100-111 | With no names, or with the same name repeated, the as-written and the corrected search return the same result. |
| VectorDb.VectorDatabase.GetAllDataNames | vector_db.py:124-144 | The result is strictly sorted, so it has no duplicates, and it holds exactly the data names of the first scroll page of at most 1000 points. Points without a data name are skipped. |
| VectorDb.DataNamesOfMeaning | vector_db.py:139-142 | A name is collected iff some point of the page carries it as its `data_name`. |
| VectorDb.ScrollWholeCollection | vector_db.py:132-137 | A collection of at most 1000 points is scrolled in one page, in full and in order. |
| VectorDb.VectorDatabase.DeleteByDataName | vector_db.py:146-180 | Returns the size of the filtered page and removes exactly the ids on it. With no match, nothing changes and it returns 0. The database invariant is kept. |
| VectorDb.DeletionRemovesOnlyThatName | vector_db.py:157-180 | Every selected point carries the name. A stored point is removed iff it was selected, so points under other names are all kept. |
| VectorDb.DeletionWithinOnePage | vector_db.py:157-180 | With at most 1000 matching points, the count equals the number of matches and the name disappears from the collection. |
| VectorDb.VectorDatabase.GetStats | vector_db.py:182-194 | Reports the number of points, the collection's vector size, and `data_names_count == len(get_all_data_names())`. |
| Text.SortedList | vector_db.py:144 | `sorted(list(names))`: strictly increasing, with exactly the set's members and its size. |
| Text.InsertSorted | vector_db.py:144 | Insertion into a strictly sorted list keeps it strictly sorted and adds exactly the new element. |
| McpServer.ClampLimit | mcp_server.py:80 | The limit is always in [1, 20]. In-range values pass unchanged, below 1 gives 1, above 20 gives 20. |
| McpServer.ClampLimitIdempotent | mcp_server.py:63-80 | Clamping twice is clamping once. 0 becomes 1, 100 becomes 20, and the default limit 5 is kept. |
| McpServer.FilterNames | mcp_server.py:91 | The store receives `None` iff the configured list is empty, and the list itself otherwise. |
| McpServer.FilterNamesSearchScope | mcp_server.py:89-93 | Under the corrected should-filter, an empty configuration searches every point, and otherwise exactly the points under a configured name. |
| McpServer.AsWrittenSearchReportsNothing | mcp_server.py:89-115 | With the code's must-filter and two different configured names, `search_documents` returns the "not found" report for the query, whatever the collection holds. |
| McpServer.Server.InitializeServer | mcp_server.py:34-59 | Stores the names verbatim. A supplied processor or database is used as is. Only a missing one is built: a new processor from the libraries, or a new database over the shared client, whose collection it then ensures. |
| McpServer.Server.constructor | mcp_server.py:25-27 | Before initialisation there are no names, no processor and no database. |
| McpServer.Server.SearchDocuments | mcp_server.py:62-115 | An empty query gives the fixed error without embedding. A missing processor or database, an embedding or search failure, or an empty embedding list give `搜尋錯誤: ` followed by the message. Otherwise the result is the report of the store's hits, through the corrected should-filter, for the clamped limit and the configured names. Every outcome is the empty-query text, an error behind the prefix, or a report. |
| McpServer.Server.FormatReport | mcp_server.py:96-109 | The `+=` loop builds exactly `Report(query, hits)`: the not-found text for no hits, otherwise a header and one section per hit. |
| McpServer.ReportLoopStep | mcp_server.py:103-109 | After hit i's six lines, the text is the header followed by the sections of hits 0..i. |
| McpServer.ReportStartsWithTitle | mcp_server.py:96-99 | Every report starts with `# 搜尋結果`. |
| McpServer.ReportCountLine | mcp_server.py:99-100 | The count line holds the decimal number of hits, which reads back as that number. |
| McpServer.ReportSectionAt | mcp_server.py:103-109 | Hit k, in store order, has its own section, numbered k+1, right after the header and the sections before it. |
| Text.ParseNatToString | mcp_server.py:100 | `int(str(n)) == n` for the counts written into the reports. |
| McpServer.Server.ListDataSources | mcp_server.py:118-135 | The loop builds exactly `SourcesReport(names)` from the configured names alone. The store is not consulted. |
| McpServer.SourcesCountRoundTrip | mcp_server.py:131 | The count line holds the number of configured names, which reads back as that number. |
| McpServer.SourcesBulletAt | mcp_server.py:132-133 | Name k has its `- **name**` bullet, in configured order. |
| McpServer.SourcesEmptyIff | mcp_server.py:128-129 | The "no data sources" text is returned iff no names are configured. |

## Left out

- File I/O, the `print` logging, the async MCP transports (`create_starlette_app`, `main`), the GUI and the launcher scripts: these are I/O and process control.
- MarkItDown's `convert` and SentenceTransformer's `encode` are uninterpreted function fields of the processor; their exceptions are `Failure` values.
- Qdrant's cosine similarity is an uninterpreted `similarity` function, because it is floating point. Ties are ranked in stable insertion order, which Qdrant does not promise.
- `f"{score:.4f}"` is the uninterpreted `formatScore` field of the server.
- `get_qdrant_client`'s process-wide singleton and on-disk persistence are not modelled. The shared client is an object passed in, and concurrent access from several processes is left out.
- `VectorDb.VectorDatabase.InsertDocuments`: the uuid4 ids are the `ids` parameter, required distinct and absent from the collection, because a uuid4 collision is not modelled.
- `VectorDb.VectorDatabase.InsertDocuments`: requires every embedding that `zip` pairs with a chunk to have the collection's dimension. Qdrant raises on a mismatch, and that error path (with any partial write) is not modelled.
- `VectorDb.VectorDatabase.constructor` and `McpServer.Server.InitializeServer`: require that an existing "documents" collection already has distinct point ids. Qdrant keys points by id, and the model's sequence of points does not enforce that by itself.
- `VectorDb.VectorDatabase.Search`: uses the corrected `should` filter, not the `must` filter at vector_db.py:102-109 (see Findings). `McpServer.Server.SearchDocuments` and `McpServer.FilterNamesSearchScope` are built on it, so with two or more different configured names they describe the intended search, not the code's. The code's behaviour is `VectorDb.VectorDatabase.SearchAsWritten` and `McpServer.AsWrittenSearchReportsNothing`.
- `VectorDb.VectorDatabase.Search`: a wrong query dimension fails with a fixed placeholder message, not the library's own text. Payload values of unexpected types are not modelled; payloads are typed.
- `Chunking.DocumentProcessor.ChunkText`: requires the resolved `0 <= overlap < chunk_size`. For `overlap >= chunk_size` the source never returns (proved separately). The requires also excludes cases where the source does return:
  - a negative overlap with a positive size, e.g. `chunk_text("abcdef", 2, -1) == ["ab", "de"]`, where windows are `size - overlap` apart and characters are skipped;
  - non-positive sizes, which bring in Python's negative slice indices.

  Neither is modelled.
- `Chunking.IsSupportedFile`: uses the posix `splitext` and ASCII lower-casing; `ntpath` is not modelled. Unicode `str.lower` also lowers non-ASCII letters (e.g. 'Ä' to 'ä'), but that cannot change the answer. The only non-ASCII characters whose lower-case form contains an ASCII letter are U+212A KELVIN SIGN (to 'k') and U+0130 (to 'i' followed by U+0307). No supported extension contains 'i' or 'k', so membership is unaffected.
- `Chunking.Basename`: models `posixpath.basename` only; `ntpath`'s handling of '\\' and drive letters is not modelled.
- `Qdrant.Collection`: the order of a collection's points stands for the order in which Qdrant's scroll pages through them, which is by point id. The model puts new points last. With uuid4 ids, which points fall on the first 1000-point page of a larger collection is not modelled faithfully. Contracts of `GetAllDataNames` and `DeleteByDataName` that speak of "the first page" hold for the model's order.
- `McpServer.Server.SearchDocuments`: takes `limit` explicitly. A call without it corresponds to passing `McpServer.DEFAULT_LIMIT` (5), which the clamp keeps as it is.
- `VectorDb.VectorDatabase.GetStats`: `points_count` is taken to be the exact number of stored points.
- `config.py`'s `os.makedirs` side effect and its path constants are not part of this model.

## Findings

| source | as written | input that shows it | evidently intended | confidence | as-written member | corrected member |
|---|---|---|---|---|---|---|
| vector_db.py:101-109 | `Filter(must=[...])` requires a point's single `data_name` to equal every selected name | `data_names = ["manual", "faq"]`: no point can pass, so search finds nothing even when both sources hold matching chunks | `Filter(should=[...])`: a point passes when its `data_name` is any selected name | high (not executed) | VectorDb.VectorDatabase.SearchAsWritten | VectorDb.BuildIntendedFilterMeaning |

The code's behaviour is shown by several members:
- `VectorDb.VectorDatabase.SearchAsWritten`;
- `VectorDb.SearchAsWrittenFindsNothing`;
- `McpServer.AsWrittenSearchReportsNothing`, for the tool's outcome.

`VectorDb.VectorDatabase.Search`, and through it `McpServer.Server.SearchDocuments`, use the corrected filter. With a single selected name the two searches agree (`VectorDb.VectorDatabase.SearchesAgreeOnOneName`).
