# PDF RAG chat: a verified model of its core

The system is a small retrieval-augmented chat application. A React page posts chat
requests and streams the reply into the page. A FastAPI server accepts a PDF upload,
splits its text into chunks and indexes their embeddings. It then answers questions with
the three best-matching chunks as context. The index is an in-memory keyed vector store.

This project models three parts of that system in Dafny and proves what each promises:

- `vector_database.dfy` (module `VectorDb`) models the vector store of
  `aimakerspace/vectordatabase.py`. The class `VectorDatabase` holds the `vectors` and
  `metadata` dictionaries as maps, each with the sequence of its keys in insertion order,
  because Python dictionaries iterate in that order. Each method is proved against a pure
  function of the store (`Inserted`, `MetadataUpdated`, `SearchResults`, `KeysMatching`,
  `Built`). Lemmas about those functions prove the rest:
  - insert overwrites;
  - a failed metadata merge leaves the store unchanged;
  - the filter admits exactly the matching keys;
  - search returns min(k, matching) hits in descending score order;
  - search is stable, so equal scores keep insertion order;
  - search keeps the best scores;
  - a bulk build keys each text by itself and the last duplicate wins.

  The similarity function is a parameter that returns an integer, so no floating point is
  involved.
- `api.dfy` (module `Api`) models the server of `api/app.py`. The module globals
  `vector_db` and `pdf_content` are the fields of the class `Server`. It covers:
  - the upload state machine, with the exact error details the client receives;
  - the readiness gate of the PDF chat endpoint;
  - the status report;
  - the message lists sent to the completion service;
  - the filter that passes only non-None stream deltas.
- `frontend.dfy` (module `Frontend`) models the page of `frontend/src/App.jsx`. The class
  `App` holds `formData`, `response`, `isLoading` and `error`. It covers:
  - field edits;
  - the required-field check;
  - the submit handler whose read loop appends each decoded chunk to the response shown;
  - the health check.

  A ghost field `shown` records every value the page displays while a reply streams in.
- `text.dfy` (module `Text`) holds the string operations the three parts share:
  - concatenation;
  - Python's `str.join`;
  - decimal rendering of a number;
  - ASCII lower-casing;
  - suffix test;
  - `strip`/`trim` over a given set of white-space characters.
- `wrappers.dfy` holds `Option` and `Result`.

## Model

| member | source | states |
|---|---|---|
| VectorDb.InsertedSpec | aimakerspace/vectordatabase.py:79-83 | insert always stores the vector under the key, overwriting an earlier one, and adds the key to the key set. Metadata is replaced only when the supplied dictionary is non-empty; otherwise the earlier metadata stays. Every other key keeps its vector and metadata, and store validity is preserved |
| VectorDb.MetadataUpdated | aimakerspace/vectordatabase.py:142-147 | fails with KeyError "Document with key '<key>' not found" exactly when the key has no vector. Otherwise the key's metadata (an empty dictionary when absent) is merged with the new entries, and the new entries win. The metadata entry then exists, vectors and all other keys are unchanged, and validity is preserved |
| VectorDb.PyEqSpec | aimakerspace/vectordatabase.py:153 | the metadata comparison is Python's `==`: symmetric and reflexive, True equals 1 and False equals 0, None equals only None, and values that are not bools are equal only when identical |
| VectorDb.MatchesCrossType | aimakerspace/vectordatabase.py:99 | a document tagged True passes a filter asking for 1 (and False for 0) but not one asking for 0, and a missing entry passes a filter asking for None |
| VectorDb.KeysMatching | aimakerspace/vectordatabase.py:149-156 | a key is in the result iff it is in the scanned keys and its metadata, with missing entries read as None, equals the filter on every filter entry under Python's `==` (so True matches 1); the result is no longer than the input and has no duplicates when the input has none |
| VectorDb.KeysMatchingOrdered | aimakerspace/vectordatabase.py:149-156 | scanning the whole key order of the metadata dictionary yields each key once, and exactly the keys whose stored metadata passes the filter |
| VectorDb.Candidates | aimakerspace/vectordatabase.py:93-104 | the unsorted score list holds exactly the filter-passing keys, in insertion order, each with the score the measure gives its own vector |
| VectorDb.InsertDescPerm | aimakerspace/vectordatabase.py:106 | one step of the descending sort adds exactly the inserted hit |
| VectorDb.InsertDescSorted | aimakerspace/vectordatabase.py:106 | one step of the descending sort keeps the list in non-increasing score order |
| VectorDb.InsertDescTies | aimakerspace/vectordatabase.py:106 | among hits of equal score, the inserted hit comes first, so the earlier input element ends up first |
| VectorDb.SortDescSorted | aimakerspace/vectordatabase.py:106 | `sorted(..., reverse=True)` by score yields non-increasing scores |
| VectorDb.SortDescPerm | aimakerspace/vectordatabase.py:106 | the sort is a permutation of its input (same multiset, same length) |
| VectorDb.SortDescStable | aimakerspace/vectordatabase.py:106 | the sort is stable: for every score, the hits with that score appear in their input order |
| VectorDb.TiesOfPrefix | aimakerspace/vectordatabase.py:106 | truncating a list keeps, for every score, a prefix of the hits with that score |
| VectorDb.SliceTo | aimakerspace/vectordatabase.py:106 | Python's `[:k]` is a prefix of length min(k, n) for k >= 0 and drops -k trailing items for negative k |
| VectorDb.TruncatedSortSpec | aimakerspace/vectordatabase.py:106 | the sorted, truncated list has min(k, n) items, descending, drawn from the input, with ties in input order, and no omitted hit scores above a returned one |
| VectorDb.SearchResultsSpec | aimakerspace/vectordatabase.py:85-106 | for k >= 0, search returns min(k, number of keys passing the filter) hits, in non-increasing score order. Every hit is a stored key whose metadata passes the filter, scored by the measure on its own vector. Equal scores keep the insertion order of `vectors`, and every left-out candidate scores at most every returned hit |
| VectorDb.BuiltPrefixVectors | aimakerspace/vectordatabase.py:162-164 | the build loop changes `vectors` only by writing each embedding under its text, in order |
| VectorDb.BuiltVectorsKeys | aimakerspace/vectordatabase.py:162-164 | after the first n inserts of the build loop the key set is the earlier keys plus the first n texts |
| VectorDb.BuiltVectorsLastWins | aimakerspace/vectordatabase.py:162-164 | each text is keyed by itself and holds the embedding of its last occurrence (last write wins) |
| VectorDb.BuiltVectorsUntouched | aimakerspace/vectordatabase.py:162-164 | a key that none of the inserted texts names keeps its earlier vector |
| VectorDb.BuiltDistinctKeys | aimakerspace/vectordatabase.py:158-166 | building a fresh store inserts n = min(len(texts), len(embeddings)) pairs: its keys are exactly those texts, so it holds at most n vectors, and strictly fewer when a text repeats among the first n |
| VectorDb.TextsUpToMember | aimakerspace/vectordatabase.py:162-164 | every inserted text is among the keys |
| VectorDb.TextsUpToRepeat | aimakerspace/vectordatabase.py:162-164 | a text occurring twice among the first n leaves fewer than n distinct keys |
| VectorDb.TextsUpToSize | aimakerspace/vectordatabase.py:162 | n texts name at most n distinct keys |
| VectorDb.InsertedWithoutMetadataUnlisted | aimakerspace/vectordatabase.py:149-156 | a key inserted without metadata has a vector but is missing from `filter_by_metadata` under every filter, the empty one included |
| VectorDb.UpdatedMetadataListed | aimakerspace/vectordatabase.py:142-147 | once `update_metadata` succeeds on a stored key, that key has a metadata entry and passes the empty filter of `filter_by_metadata` |
| VectorDb.MetricByName | aimakerspace/vectordatabase.py:64-70 | a name has a metric exactly when it is one of the five keys of `DISTANCE_METRICS` |
| VectorDb.MetricName | aimakerspace/vectordatabase.py:64-70 | each metric's table key is in the table and looks up to that metric |
| VectorDb.VectorDatabase.constructor | aimakerspace/vectordatabase.py:74-77 | a new database has no vectors and no metadata |
| VectorDb.VectorDatabase.Insert | aimakerspace/vectordatabase.py:79-83 | the new state is the insert of the old one, and the class invariant is kept |
| VectorDb.VectorDatabase.Search | aimakerspace/vectordatabase.py:85-106 | the loop computes the specified results. They have the promised size, are in descending order, contain only stored keys passing the filter, and keep ties in insertion order |
| VectorDb.VectorDatabase.SearchByText | aimakerspace/vectordatabase.py:108-118 | returns the search results, or with `return_as_text` exactly their keys in the same order |
| VectorDb.VectorDatabase.SearchByMetricName | aimakerspace/vectordatabase.py:120-133 | a name outside the table gives ValueError "Unknown metric: <name>. Available: ['cosine', 'euclidean', 'manhattan', 'dot_product', 'jaccard']". A name in the table gives what `search_by_text` gives with that table entry's metric |
| VectorDb.VectorDatabase.RetrieveFromKey | aimakerspace/vectordatabase.py:135-136 | the stored vector, or None exactly when the key has none |
| VectorDb.VectorDatabase.GetMetadata | aimakerspace/vectordatabase.py:138-140 | the key's metadata, or an empty dictionary when it has none |
| VectorDb.VectorDatabase.UpdateMetadata | aimakerspace/vectordatabase.py:142-147 | raises exactly the KeyError of the specification function and then changes nothing; otherwise the new state is the merged one |
| VectorDb.VectorDatabase.FilterByMetadata | aimakerspace/vectordatabase.py:149-156 | returns, in metadata order and without duplicates, exactly the keys with a metadata entry that matches every filter pair |
| VectorDb.VectorDatabase.AbuildFromList | aimakerspace/vectordatabase.py:158-166 | the loop performs the inserts of the build in order, using `metadata_list[i]` only when i is in range, and keeps the class invariant |
| Text.StripEmptyIffBlank | api/app.py:107 | `s.strip()` is empty exactly when every character of `s` is white space |
| Text.JoinLength | api/app.py:161 | the joined context is as long as the chunks plus one separator between each pair |
| Text.NatToStringRoundTrip | frontend/src/App.jsx:65 | a status code renders as a non-empty run of decimal digits that reads back as the code |
| Api.UploadFailure | api/app.py:136-137 | every failure of the upload handler reaches the client as a 500 whose detail starts "Error processing PDF: " |
| Api.RagSystemMessage | api/app.py:164-169 | the RAG system message is the fixed instructions ending "Context from PDF:\n", followed by the context unchanged |
| Api.YieldedAppend | api/app.py:73-75 | the delta filter works piece by piece: filtering a longer stream extends what its prefix yielded |
| Api.YieldedBounds | api/app.py:73-75 | the filter yields at most one text per delta, all of them when none is None, nothing when all are None, and only texts the stream carried |
| Api.StreamDeltas | api/app.py:73-75 | the generator loop yields exactly the non-None deltas in stream order |
| Api.Chat | api/app.py:54-82 | the chat request sends the requested model and exactly [developer: developer_message, user: user_message], and streams the non-None deltas |
| Api.EmptyIndexContext | api/app.py:154-169 | searching an empty index finds nothing, so the system message carries the instructions with an empty context |
| Api.Server.constructor | api/app.py:25-27 | both globals start as None |
| Api.IndexedChunkCount | api/app.py:119-129 | the database built from the chunks holds at most len(chunks) vectors, and strictly fewer when two chunks are equal, because equal chunks share one key |
| Api.Server.PdfStatusReply | api/app.py:199-215 | the status says not uploaded exactly when `vector_db` or `pdf_content` is None. Otherwise it says ready, with the number of distinct stored keys and the length of the text |
| Api.Server.UploadPdf | api/app.py:85-137 | the upload handler's transitions: **(1) bad name:** a name not ending ".pdf" in any case gives 500 "Error processing PDF: 400: Only PDF files are allowed" and changes nothing. **(2) load failure:** changes nothing. **(3) blank text:** `pdf_content` is overwritten before the check, so a blank text fails with the wrapped 400 and leaves the old database. **(4) model unavailable:** keeps the old database. **(5) embedding failure:** a fresh database has already replaced the old one, so it stays empty and the status reports it ready. **(6) success:** a fresh database holds the build of the chunks, and the reply reports len(chunks) and len(text). The status count is at most len(chunks), and strictly less when a chunk repeats |
| Api.Server.ChatWithPdf | api/app.py:140-196 | with no database the 400 is re-raised as 500 "400: No PDF has been uploaded yet. Please upload a PDF first."; an embedding failure becomes a 500 with its text. Otherwise it sends [system: instructions + top-3 keys joined by blank lines, user: message] and streams the non-None deltas |
| Frontend.InitialForm | frontend/src/App.jsx:9-14 | the form starts with all four fields, the model "gpt-4.1-mini" and the others empty |
| Frontend.ApplyInput | frontend/src/App.jsx:24-30 | an input change sets the named field to the value and leaves every other field unchanged |
| Frontend.FilledIffTrimmed | frontend/src/App.jsx:40 | the form passes validation exactly when the developer message, user message and API key are each non-empty after `trim()` |
| Frontend.RequestBody | frontend/src/App.jsx:56-61 | the posted body carries the four form fields under their API names |
| Frontend.ReadAt | frontend/src/App.jsx:80-84 | a read yields the next chunk while chunks remain, then `done` or the stream's error |
| Frontend.SubmitFailure | frontend/src/App.jsx:92-94 | a caught error shows as "Failed to get response: " followed by its message |
| Frontend.ApiError | frontend/src/App.jsx:64-66 | a non-ok response throws "API Error: <status> <statusText>" |
| Frontend.Snapshots | frontend/src/App.jsx:76-90 | after the k-th chunk the response shown is the concatenation of the first k chunks |
| Frontend.SnapshotsStep | frontend/src/App.jsx:86-89 | reading one more chunk appends it to the accumulated text and shows that text |
| Frontend.SnapshotsGrow | frontend/src/App.jsx:76-90 | text is only ever appended: each value shown extends every earlier one, and the last is the whole body |
| Frontend.HealthError | frontend/src/App.jsx:108-116 | the error is cleared exactly when the server reports status "ok". Any other report gives "API health check failed", and a failed request gives "Health check failed: <message>" |
| Frontend.App.constructor | frontend/src/App.jsx:9-18 | the page starts with the initial form, no response, not loading and no error |
| Frontend.App.HandleInputChange | frontend/src/App.jsx:24-30 | only `formData` changes, by the input change |
| Frontend.App.HandleSubmit | frontend/src/App.jsx:36-98 | **Blank required field:** only the error changes, to "Please fill in all required fields", and no request is made. **Otherwise:** the filled form is posted, loading ends false on every path, and the error and response are cleared first. **Rejected or non-ok:** the response stays empty and the error names the failure. **Body streamed:** every prefix concatenation is shown in turn, the response ends as all chunks read, and a mid-stream error keeps that partial text and sets the error |
| Frontend.App.ReadBody | frontend/src/App.jsx:76-90 | the read loop shows the running concatenation after each chunk and stops at `done` or at the first read error, leaving the partial text |
| Frontend.App.CheckHealth | frontend/src/App.jsx:103-117 | only the error changes, as the health decision says, and the alert appears exactly on "ok" |

## Left out

- The numeric similarity functions of `vectordatabase.py` (cosine, Euclidean, Manhattan, dot product, Jaccard) are not modelled. They compute floating-point numbers over numpy arrays, and a score is an abstract integer-valued function here. `DISTANCE_METRICS` is modelled as the name table plus a caller-supplied map from metric to function.
- VectorDb.VectorDatabase.SearchByText: takes the query embedding instead of the query text. The embedding model is a network client outside this model.
- Api.Server.ChatWithPdf: the question's embedding and the default cosine similarity arrive as parameters, because the embedding call goes over the network. Errors raised by the search appear only as that embedding outcome.
- Api.Server.UploadPdf: reading the upload, the temporary file, `TextFileLoader`, `CharacterTextSplitter` and `EmbeddingModel` are library code or I/O. Their results (loaded documents, chunks, embeddings or the failure text) are parameters, and the chunks are not checked to come from splitting the text. An error raised by `os.unlink` in the `finally` block is not modelled.
- The `OPENAI_API_KEY` environment write, the OpenAI client, `StreamingResponse`, CORS and the health endpoint are framework and network plumbing. The completion stream is a given sequence of optional deltas.
- Api.Chat: an exception raised by the completion call happens after streaming has begun and is not modelled. The outer `except` only wraps failures to create the client.
- Server error details use the framework's text of an HTTPException, "<status>: <detail>". A KeyError is modelled by the message it is raised with, without the quotes `str()` adds.
- Text.Lower: lower-cases ASCII letters only. Python's full Unicode case mapping is not modelled. No non-ASCII character lower-cases to '.', 'p', 'd' or 'f', so the `endswith('.pdf')` test gives the same answer for every file name.
- VectorDb.KeysMatching: metadata values are limited to None, strings, integers and bools. Floats, lists, dictionaries and other objects cannot be stored, so their equality rules (such as 1 == 1.0) are not modelled.
- Api.Chat: the request's `model` is a plain string. The pydantic default "gpt-4.1-mini" for an omitted model, and an explicit null passed on to the completion call, are not modelled.
- The metadata dictionaries are values here. The Python store keeps the caller's dictionary by reference, so later mutation through either side (including `update_metadata` mutating it in place) is aliasing that the model does not capture.
- `get_pdf_status` guards with `if vector_db else 0`. A `VectorDatabase` object is always truthy because it defines neither `__len__` nor `__bool__`, so the model always reports `len(vectors)`.
- Async scheduling is not modelled. Each handler runs to completion as one atomic step, so interleavings between concurrent uploads or between a chat and an upload are not covered.
- Frontend.App.HandleSubmit: modelled as one atomic step. Intermediate renders appear only in the ghost field `shown`. The page prevents a second submit while loading by disabling the button (frontend/src/App.jsx:213), so overlapping submits are not modelled.
- JSX rendering, CSS, `alert` (reported as a returned flag), `console.error`, `fetch` and `TextDecoder` are UI and browser APIs. Each read yields an already decoded string.
- Frontend.HealthError: a `status` field that is absent or not a string is modelled as None, which is never "ok", as in the source.
- The `__main__` demo blocks of `vectordatabase.py` and `app.py` are not modelled.
