# RAG-ACL: a Dafny model of the access-control and audit layer

This project models the part of the RAG-ACL repository that decides what a
signed-in user may read and how each interaction is recorded.

- **The Convex data layer.** Five tables: users, documents, chunks,
  queryLogs and feedback. They are held by one `Store.Db` object, a map from
  id to row per table. Each mutation is a method that changes its own table
  and states that nothing else changes. The modules are `Users`,
  `Documents`, `Chunks`, `Ingest`, `Logs` and `Auth`, one per Convex file.
- **The FastAPI server** (`Api`). It derives the caller's allowed sources,
  reads the bearer token, authenticates the caller, and gates document reads
  with 404 and 403. It assembles a chat answer from the FAISS hits, writes
  the query log, and forwards feedback.
- **The two ingestion scripts.** `IngestScript` is the greedy chunker with
  no overlap. `IngestFolder` is the chunker with overlap, plus the file title
  and the Slack-export text. Both use the shared paragraph splitting in
  `Chunking`.
- **Three client components.** `ChatUi` covers the suggestion list, quick
  starts, feedback bookkeeping and the become-admin button. `SourceViewer`
  covers the text highlight. `AdminPanel` covers source toggling and the
  Cancel and Save handlers.

The central theorem is `Api.ExpectedSound`, together with `Api.Chat`. Every
hit a chat returns or logs names a stored chunk of the caller's tenant,
and that chunk's own source is allowed to the caller. The chunk's document
is also stored and belongs to the same tenant. This holds although
`chunks:getMany` (`Chunks.GetMany`) filters by nothing: `Chunks.PresentIgnoresTenant`
shows that it returns chunks of any tenant.

Outside calls become parameters:

- the FAISS search result is `faissHits`;
- the chat model is a function `llm` from prompt to answer;
- what `users:currentUser` and `users:get` return is given to `Api.RequireUser`;
- the clock is `now`;
- what a document parser extracted is part of `IngestFolder.FileInput`.

Some behaviours of the code are easy to get wrong when reading it:

- `convex/chunks.ts` does not filter chunk reads by tenant. The API filters
  afterwards.
- The schema stores any string as a role. Signup keeps a client-supplied
  role as sent, "admin" included (`Auth.Profile`,
  `ChatUi.SignupAndBecomeAdmin`).
- `addFeedback` lets an admin give feedback on any log. It never compares
  tenants (`Logs.FeedbackRejection`).
- The bulk reads `getMany` keep input order and keep repeats
  (`Documents.VisibleAppend`, `Chunks.PresentAppend`).

## Model

| member | source | states |
|---|---|---|
| `Store.Db.constructor` | rag-faiss-convex/convex/schema.ts:5-68 | an empty database: the five tables are empty and every id in use lies below the id counter |
| `Store.Db.InsertUser` | rag-faiss-convex/convex/users.ts:19 | `insert` into users adds the row under an id no user had, and no other table changes |
| `Store.Db.InsertDocument` | rag-faiss-convex/convex/ingest.ts:12 | `insert` into documents adds the row under a fresh id, and nothing else changes |
| `Store.Db.InsertChunk` | rag-faiss-convex/convex/ingest.ts:25-31 | `insert` into chunks adds the row under a fresh id, and nothing else changes |
| `Store.Db.InsertQueryLog` | rag-faiss-convex/convex/logs.ts:24 | `insert` into queryLogs adds the row under a fresh id, and nothing else changes |
| `Store.Db.InsertFeedback` | rag-faiss-convex/convex/logs.ts:53-56 | `insert` into feedback adds the row under a fresh id, and nothing else changes |
| `Users.Create` | rag-faiss-convex/convex/users.ts:4-21 | one user under (tenantId, email): its id is returned and nothing is written, so the new role and sources are ignored. No user: exactly the arguments are inserted under a new id. Several users: `.unique()` fails and nothing is written. Other tables never change |
| `Users.CreateIsIdempotent` | rag-faiss-convex/convex/users.ts:11-20 | two `create` calls with the same tenant and email give the same answer, add at most one user, and leave every existing user's record as it was |
| `Users.Get` | rag-faiss-convex/convex/users.ts:23-26 | the stored record when the id has one, otherwise nothing; a read, so no state changes |
| `Documents.Get` | rag-faiss-convex/convex/documents.ts:16-23 | the document exactly when it exists and its tenantId equals the given tenant; another tenant's document and a missing one both give null |
| `Documents.GetMany` | rag-faiss-convex/convex/documents.ts:4-14 | the loop's output is `Visible`: the requested ids, in order, that name a document of the tenant, each with its document; read-only |
| `Documents.VisibleAreInTenant` | rag-faiss-convex/convex/documents.ts:10 | every document returned was requested, is stored under its id, and has the caller's tenantId |
| `Documents.VisibleComplete` | rag-faiss-convex/convex/documents.ts:8-11 | every requested id that names a document of the tenant is in the output |
| `Documents.VisibleLength` | rag-faiss-convex/convex/documents.ts:7-12 | the output is never longer than the request |
| `Documents.VisibleAppend` | rag-faiss-convex/convex/documents.ts:8-11 | the output for a + b is the output for a followed by that for b, so input order is kept and a repeated id is answered each time |
| `Chunks.GetMany` | rag-faiss-convex/convex/chunks.ts:4-14 | the loop's output is `Present`: the requested ids, in order, that name a chunk, each with its chunk; read-only |
| `Chunks.Call` | rag-faiss-convex/convex/chunks.ts:4-5 | a call is refused by argument validation unless it sends exactly the declared `ids`. An accepted call returns the handler's result |
| `Chunks.PresentAreStored` | rag-faiss-convex/convex/chunks.ts:8-10 | every chunk returned was requested and is stored under its id |
| `Chunks.PresentIgnoresTenant` | rag-faiss-convex/convex/chunks.ts:5-10 | every requested chunk that exists is returned whatever its tenant: there is no tenant filter |
| `Chunks.PresentLength` | rag-faiss-convex/convex/chunks.ts:8-11 | the output is never longer than the request |
| `Chunks.PresentAppend` | rag-faiss-convex/convex/chunks.ts:8-11 | the output for a + b is the output for a followed by that for b, so order is kept and duplicates are preserved |
| `Ingest.Stamp` | rag-faiss-convex/convex/ingest.ts:25-31 | a stored chunk takes tenant, source and document from the call, and index and text from its input row |
| `Ingest.AddDocument` | rag-faiss-convex/convex/ingest.ts:4-13 | exactly its arguments are inserted as one new document and its id returned; only the documents table changes |
| `Ingest.AddChunks` | rag-faiss-convex/convex/ingest.ts:15-36 | one new, distinct id per input row, in row order; the chunk under ids[k] is row k stamped with the call's tenant, source and docId; no other chunk or table changes; docId is not checked |
| `Logs.Add` | rag-faiss-convex/convex/logs.ts:5-25 | exactly one query log equal to the arguments plus createdAt is added under a new id, and nothing else changes |
| `Logs.FeedbackRejection` | rag-faiss-convex/convex/logs.ts:35-51 | checks run in order. A missing log gives "Log not found" whether or not the user exists. Otherwise a missing user gives "User not found". Otherwise a user who is neither admin nor the log's owner gives "Not authorized". It passes iff the log and user exist and the user is admin or owns the log. Tenants are never compared |
| `Logs.AddFeedback` | rag-faiss-convex/convex/logs.ts:27-58 | it fails iff `FeedbackRejection` rejects, with that message, and then no feedback is written. On success exactly one feedback equal to the arguments plus createdAt is appended under a new id, so repeats accumulate. Other tables never change |
| `Auth.OrDefault` | rag-faiss-convex/convex/auth.ts:11-12 | JavaScript `x \|\| fallback` on a string: the value when present and non-empty, otherwise the fallback |
| `Auth.Profile` | rag-faiss-convex/convex/auth.ts:7-15 | email copied from params; role is params.role when non-empty, else "member"; tenantId is params.tenantId when non-empty, else "acme"; allowedSources empty |
| `Api.AllowedSources` | rag-faiss-convex/api/main.py:27-31 | role "admin" gets all eight sources whatever is stored; any other role gets the stored list |
| `Api.AuthToken` | rag-faiss-convex/api/main.py:65-74 | a header starting with "Bearer " yields what follows the first 7 characters; any other header, or none, yields the `__convexAuthToken` cookie |
| `Api.BearerRoundTrip` | rag-faiss-convex/api/main.py:69-70 | a token sent as "Bearer " + token is read back exactly, whatever the cookie |
| `Api.RequireUser` | rag-faiss-convex/api/main.py:77-100 | with no token, only a header lookup (tried only when ALLOW_HEADER_AUTH is "true" and x-user-id is set) that finds a user admits the caller, and otherwise the result is 401 "Not authenticated". A header lookup that fails is a 500. With a token the header is never consulted: the session decides, and each failure is a 401 "Authentication failed: …" |
| `Api.MakeSnippet` | rag-faiss-convex/api/main.py:113-117 | after whitespace is collapsed, text within max_len is returned unchanged. Longer text is cut at max_len, right-stripped and given "...". The result has length ≤ max_len + 3 and ends in a non-space before the dots |
| `Api.ShortSnippetKeepsWords` | rag-faiss-convex/api/main.py:114-116 | an uncut snippet has exactly the words of the text |
| `Api.GetDocument` | rag-faiss-convex/api/main.py:132-150 | 404 iff the tenant-scoped lookup finds nothing. 403 iff it finds a document whose source is not allowed. Otherwise the result is that document's id, title, source, text and URL |
| `Api.Feedback` | rag-faiss-convex/api/main.py:153-167 | `addFeedback` is called with the authenticated caller's id as userId and the comment only when there is one. It returns "ok" iff the rule passes, and then exactly that feedback is appended. A rejection writes nothing and surfaces as a 500 carrying the message |
| `Api.ToLog` | rag-faiss-convex/api/main.py:244-253 | a log entry carries exactly the six log fields of the returned hit |
| `Api.LogEntries` | rag-faiss-convex/api/main.py:222-253 | the log list has one entry per returned hit, in the same order, agreeing on the six fields |
| `Api.Top` | rag-faiss-convex/api/main.py:194 | `hits[:8]`: a prefix of the FAISS order. It is all the hits when there are at most 8, and exactly the first 8 otherwise |
| `Api.ChunkIds` | rag-faiss-convex/api/main.py:195 | the chunk id of each hit, in hit order |
| `Api.ToMap` | rag-faiss-convex/api/main.py:198 | every pair's key is in the dict, and every dict entry is one of the pairs |
| `Api.Resolve` | rag-faiss-convex/api/main.py:202 | the lookup of the ids in `by_id` is no longer than the ids |
| `Api.KeepAllowed` | rag-faiss-convex/api/main.py:201-203 | exactly the chunks of the caller's tenant with an allowed source are kept |
| `Api.ContextChunksAllowed` | rag-faiss-convex/api/main.py:200-205 | every chunk put in the model's context is stored, belongs to the tenant and has an allowed source |
| `Api.ContextChunksAppend` | rag-faiss-convex/api/main.py:202 | the context distributes over concatenation of the hits, so FAISS order is kept |
| `Api.OrderedIsContextChunks` | rag-faiss-convex/api/main.py:197-203 | over a `by_id` that agrees with the chunk table, the two comprehensions compute exactly the tenant- and source-filtered chunks of the ids, in order |
| `Api.DocIds` | rag-faiss-convex/api/main.py:218 | the set of the ordered chunks' docIds as a list without repeats: every docId is listed, and only those |
| `Api.ExpectedSound` | rag-faiss-convex/api/main.py:222-243 | every reported hit names a stored chunk of the tenant whose own source is allowed. That chunk's document is stored in the same tenant. Title, URL, index, text and snippet are taken from that chunk and document |
| `Api.ExpectedFromHits` | rag-faiss-convex/api/main.py:224-235 | every reported hit is one of FAISS's hits with its score and label, and there are no more reports than hits |
| `Api.ReportedLabelsAllowed` | rag-faiss-convex/api/main.py:233 | the reported sourceKey is FAISS's label; it is allowed whenever FAISS returned only allowed labels |
| `Api.ExpectedAppend` | rag-faiss-convex/api/main.py:224 | the report distributes over concatenation of the hits, so hit order is kept |
| `Api.AssembledIsExpected` | rag-faiss-convex/api/main.py:218-230 | with `by_id` and `doc_by_id` built from the two Convex reads, the loop's result equals the report stated on the tables. A hit is skipped when its chunk is missing, its tenant is wrong, its source is not allowed, or its document is missing |
| `Api.AssembleHits` | rag-faiss-convex/api/main.py:222-253 | the loop builds `retrieved` as `Assembled`, and `retrieved_for_log` as its six-field image of the same length |
| `Api.Chat` | rag-faiss-convex/api/main.py:170-272 | no allowed sources: the fixed answer, an empty `retrieved`, and still one log. Otherwise `retrieved` is the report over the first 8 hits, and the answer is the model's reply to the prompt built from the filtered context. Exactly one query log is added, holding the allowed sources and the six fields of each hit. No other table changes. Chunks are fetched with the corrected call `Api.FetchChunks` |
| `Api.ChunkTableAgrees` | rag-faiss-convex/api/main.py:197-198 | `by_id` agrees with the chunk table on every requested id, whatever its tenant |
| `Api.DocTableAgrees` | rag-faiss-convex/api/main.py:219-220 | `doc_by_id` holds exactly the tenant's documents among the requested ids: a requested id is a key iff it names a document of the tenant, and every key was requested, belongs to the tenant and maps to the stored document |
| `Api.FetchChunksAsWritten` | rag-faiss-convex/api/main.py:197 | the `chunks:getMany` call as written sends `ids` and `tenantId`. Convex refuses it whatever the ids |
| `Api.FetchChunks` | rag-faiss-convex/api/main.py:197-198 | the call with `ids` alone is accepted and returns exactly `getMany`'s result on the requested ids |
| `Api.PassingDocsRequested` | rag-faiss-convex/api/main.py:218-229 | the document of every hit that passes the tenant and source check was requested |
| `Chunking.StripNonEmptyTrimmed` | rag-faiss-convex/scripts/ingest.py:33-36 | every kept paragraph is stripped and non-empty, and there are no more paragraphs than pieces |
| `Chunking.BlankTextHasNoParagraphs` | rag-faiss-convex/scripts/ingest_folder.py:75-78 | a text has no paragraphs iff it is whitespace only |
| `Chunking.SplitGroup` | rag-faiss-convex/scripts/ingest.py:40-46 | paragraphs of a text joined with "\n\n" split back into exactly themselves |
| `IngestScript.ChunkText` | rag-faiss-convex/scripts/ingest.py:29-47 | the result is `ChunksOf`, the loop followed by the last flush. Each chunk joins a non-empty group of paragraphs. The groups, and the chunks split back, concatenate to the paragraph list with nothing lost, repeated or reordered. A chunk over max_chars is one paragraph. For consecutive chunks, len(chunk_i) + 2 + len(first paragraph of chunk_i+1) > max_chars |
| `IngestScript.ChunkPieces` | rag-faiss-convex/scripts/ingest.py:30-47 | the loop follows the step function piece by piece and ends with the final flush |
| `IngestScript.RunCollecting` | rag-faiss-convex/scripts/ingest.py:33-44 | at every step cur_len equals the length of "\n\n".join(cur), the chunks so far are greedy, and the closed groups followed by cur are the paragraphs seen so far |
| `IngestScript.Flush` | rag-faiss-convex/scripts/ingest.py:39-42 | closing the chunk when the next paragraph does not fit keeps the invariant |
| `IngestScript.Extend` | rag-faiss-convex/scripts/ingest.py:38-44 | adding a paragraph that fits, or the first one, keeps the invariant and the running length |
| `IngestScript.Skip` | rag-faiss-convex/scripts/ingest.py:34-36 | a piece that is blank once stripped changes nothing |
| `IngestScript.RunChunked` | rag-faiss-convex/scripts/ingest.py:29-47 | the loop and the final flush keep every promise of `chunk_text` |
| `IngestScript.SplitBack` | rag-faiss-convex/scripts/ingest.py:40-46 | each chunk split on "\n\n" gives back its group of paragraphs |
| `IngestScript.ChunkRows` | rag-faiss-convex/scripts/ingest.py:72 | row i has chunkIndex i and text pieces[i] |
| `IngestScript.DocumentArgs` | rag-faiss-convex/scripts/ingest.py:54-61 | the document carries the given fields, and sourceUrl only when one is given and non-empty |
| `IngestScript.IngestDoc` | rag-faiss-convex/scripts/ingest.py:53-81 | the document is always stored. The pieces are `chunk_text(raw_text)` (`ChunksOf`). No pieces means no chunk insert. Otherwise chunk k is stored under a new id with the call's tenant, source and document, index k and text pieces[k]. Pieces are empty iff the text has no paragraphs |
| `IngestFolder.CostIsChunkLength` | rag-faiss-convex/scripts/ingest_folder.py:88-107 | the running count Σ(len + 2) of a group is the length of the joined chunk plus 2 |
| `IngestFolder.OverlapIsSuffix` | rag-faiss-convex/scripts/ingest_folder.py:94-101 | the overlap is a contiguous suffix of the previous chunk's paragraphs |
| `IngestFolder.OverlapFits` | rag-faiss-convex/scripts/ingest_folder.py:96-99 | the overlap's Σ(len + 2) is at most overlap_chars |
| `IngestFolder.OverlapMaximal` | rag-faiss-convex/scripts/ingest_folder.py:96-101 | the overlap is the whole chunk, or one more paragraph would not fit in overlap_chars |
| `IngestFolder.TakeOverlap` | rag-faiss-convex/scripts/ingest_folder.py:94-104 | the reverse loop with `insert(0, …)` computes the overlap, and its overlap_len equals Σ(len + 2) of it |
| `IngestFolder.ChunkParagraphs` | rag-faiss-convex/scripts/ingest_folder.py:80-111 | the loop follows the step function paragraph by paragraph and ends with the final flush |
| `IngestFolder.RunCollecting` | rag-faiss-convex/scripts/ingest_folder.py:84-107 | at every step current_len equals Σ(len + 2) over current_chunk, and the groups form a chain whose new paragraphs are those seen so far |
| `IngestFolder.Flush` | rag-faiss-convex/scripts/ingest_folder.py:88-104 | a flush, made only when the chunk is non-empty and current_len + para_len + 2 > max_chars, keeps the invariant |
| `IngestFolder.Extend` | rag-faiss-convex/scripts/ingest_folder.py:106-107 | appending a paragraph that fits keeps the invariant |
| `IngestFolder.RunChunked` | rag-faiss-convex/scripts/ingest_folder.py:84-111 | the loop and the final flush give joined chunks forming a chain whose new paragraphs concatenate to the input |
| `IngestFolder.ChunkText` | rag-faiss-convex/scripts/ingest_folder.py:62-113 | the result is `ChunksOf`, the loop followed by the last flush, and it is [] iff there are no paragraphs. Each chunk joins its group. A later group is the overlap of the one before followed by at least one new paragraph, and the new paragraphs are exactly the text's paragraphs in order. A paragraph is added only while it fits, and a chunk is closed only when the next does not. Every paragraph lies in some chunk |
| `IngestFolder.EveryParagraphChunked` | rag-faiss-convex/scripts/ingest_folder.py:84-111 | every paragraph of the text is in at least one chunk |
| `IngestFolder.LastChunkEndsWithLastParagraph` | rag-faiss-convex/scripts/ingest_folder.py:106-111 | the last chunk ends with the last paragraph |
| `IngestFolder.GroupOfParagraphs` | rag-faiss-convex/scripts/ingest_folder.py:94-106 | every paragraph of a chunk, overlap included, is a paragraph of the text |
| `IngestFolder.ChunksSplitBack` | rag-faiss-convex/scripts/ingest_folder.py:89-111 | each chunk split on "\n\n" gives back its paragraphs, overlap included |
| `IngestFolder.ChunksCoverText` | rag-faiss-convex/scripts/ingest_folder.py:84-111 | splitting the chunks gives exactly the text's paragraphs, each at least once |
| `IngestFolder.Basename` | rag-faiss-convex/scripts/ingest_folder.py:190 | the name has no "/" and ends the path; a path without "/" is its own name |
| `IngestFolder.SplitExt` | rag-faiss-convex/scripts/ingest_folder.py:191-192 | stem + extension is the path; the extension is empty or a dot followed by no dot and no "/" |
| `IngestFolder.UnderscoresToSpaces` | rag-faiss-convex/scripts/ingest_folder.py:191 | same length, no "_" left, every other character kept |
| `IngestFolder.TitleAndExtension` | rag-faiss-convex/scripts/ingest_folder.py:190-192 | `dir/stem.e` is titled by its stem with "_" read as " ", and parsed by its lower-cased extension |
| `IngestFolder.SlackLines` | rag-faiss-convex/scripts/ingest_folder.py:204-206 | "Channel: <channel or unknown>" and then one "<user or ?>: <text or ''>" line per message, in order |
| `IngestFolder.SlackText` | rag-faiss-convex/scripts/ingest_folder.py:203-207 | the loop's text is those lines joined with "\n" |
| `IngestFolder.SlackTextLines` | rag-faiss-convex/scripts/ingest_folder.py:204-207 | when no field holds a newline, the text splits back into exactly those lines |
| `IngestFolder.ParseFileToText` | rag-faiss-convex/scripts/ingest_folder.py:179-248 | the result is `Parsed`. ".md" and ".txt" give their contents, and ".json" gives the Slack text or the JSON dump. Document formats give the extracted text, or nothing when there is none. Anything else gives nothing. When there is a result, the title is the file's title |
| `IngestFolder.FileToIngest` | rag-faiss-convex/scripts/ingest_folder.py:297-316 | the result is `Ingestible` |
| `IngestFolder.Ingestible` | rag-faiss-convex/scripts/ingest_folder.py:297-316 | a file is ingested iff it is not hidden, the parser gives a result, and that text is not all whitespace. Then it is ingested with the parsed title and text, and the text has paragraphs |
| `IngestFolder.NonBlank` | rag-faiss-convex/scripts/ingest_folder.py:311-314 | a parse result is kept iff its text is not all whitespace, and a kept text has paragraphs |
| `IngestFolder.IngestDoc` | rag-faiss-convex/scripts/ingest_folder.py:250-280 | the document is always stored. The pieces are the overlapping `chunk_text(raw_text)` (`ChunksOf`). Chunk k is stored under a new id with the call's tenant, source and document, index k and text pieces[k]. No other chunk changes. Every paragraph lies in some stored chunk |
| `IngestFolder.IngestFile` | rag-faiss-convex/scripts/ingest_folder.py:296-317 | a document is stored iff the file is `Ingestible`. It has the parsed title and text, the given tenant and source, and no URL. Its overlapping chunks are stored with index k and text chunk k, and there is at least one. Any other file leaves documents and chunks as they were. Other tables never change |
| `Lists.DedupFrom` | rag-faiss-convex/components/Chat.tsx:56-64 | keeps exactly the elements not already seen, without repeats, and never grows the input |
| `Lists.DedupAppend` | rag-faiss-convex/components/Chat.tsx:66-70 | de-duplicating a + b is de-duplicating a, then b against everything in a |
| `Lists.DedupKeepsFirstOrder` | rag-faiss-convex/components/Chat.tsx:58-61 | results appear in the order of their first occurrence in the input |
| `ChatUi.Add` | rag-faiss-convex/components/Chat.tsx:56-64 | `add` appends each item not yet seen, once, in order, and records all items as seen |
| `ChatUi.BuildSuggestions` | rag-faiss-convex/components/Chat.tsx:52-73 | the output has no duplicates. It is the first-occurrence order of BASE ++ ROLE[role] ++ SOURCE[s] over the allowed sources in order. Its members are exactly those candidates |
| `ChatUi.AddSources` | rag-faiss-convex/components/Chat.tsx:68-70 | the loop over the allowed sources ends as if everything had been offered to `add` at once |
| `ChatUi.SuggestionsStartWithBase` | rag-faiss-convex/components/Chat.tsx:66 | the three base suggestions form the prefix of every user's suggestions |
| `ChatUi.UnknownRoleAddsNothing` | rag-faiss-convex/components/Chat.tsx:56-67 | a role without an entry adds nothing |
| `ChatUi.UnknownSourceAddsNothing` | rag-faiss-convex/components/Chat.tsx:56-70 | a source without an entry changes nothing, wherever it stands |
| `ChatUi.SuggestionsKeepFirstOrder` | rag-faiss-convex/components/Chat.tsx:58-61 | suggestions appear in the order of their first occurrence among the candidates |
| `ChatUi.Take` | rag-faiss-convex/components/Chat.tsx:141-142 | `slice(0, n)`: the first n elements, or all when there are fewer |
| `ChatUi.QuickStartsArePrefix` | rag-faiss-convex/components/Chat.tsx:141-142 | quickStarts (first 4) hold the base suggestions first and are a prefix of askSuggestions (first 6) |
| `ChatUi.MarkFeedbackChangesOnlyThatLog` | rag-faiss-convex/components/Chat.tsx:217-223 | only messages whose logId equals the submitted one change, and their feedback becomes "yes" or "no" per `helpful` |
| `ChatUi.MarkFeedbackIdempotent` | rag-faiss-convex/components/Chat.tsx:217-223 | marking the same verdict twice equals marking it once |
| `ChatUi.HandleFeedback` | rag-faiss-convex/components/Chat.tsx:202-233 | an empty logId changes nothing. Otherwise the log's pending entry is gone afterwards and every other entry is kept. A failed request leaves the messages as they were |
| `ChatUi.AcceptedFeedbackMarksLog` | rag-faiss-convex/components/Chat.tsx:214-223 | a successful request marks the messages of that log; a failed one changes no message |
| `ChatUi.PendingClearedAfterAttempt` | rag-faiss-convex/components/Chat.tsx:204-231 | after every attempt the pending record is as before the click |
| `ChatUi.BecomeAdminIffNoSources` | rag-faiss-convex/components/Chat.tsx:292 | the button shows iff the role is not "admin" and no source is stored, which is exactly when a non-admin's chat has no sources; an admin never sees it |
| `ChatUi.SignupAndBecomeAdmin` | rag-faiss-convex/components/Chat.tsx:292 | a fresh signup without a role sees the button. One that asked for "admin" does not, and has every source |
| `SourceViewer.DocumentText` | rag-faiss-convex/components/SourceViewer.tsx:24 | the document's text, or "" when there is no document |
| `SourceViewer.Target` | rag-faiss-convex/components/SourceViewer.tsx:25 | chunkText when non-empty, else snippet |
| `SourceViewer.HighlightOf` | rag-faiss-convex/components/SourceViewer.tsx:23-38 | before ++ match ++ after is always the text. An empty or missing target gives (text, "", ""). Otherwise match is the target and before ends where its first occurrence starts |
| `SourceViewer.HighlightIsFirstOccurrence` | rag-faiss-convex/components/SourceViewer.tsx:29-37 | the match occurs right after `before`, and at no earlier position of the text |
| `SourceViewer.NoHighlightMeansAbsent` | rag-faiss-convex/components/SourceViewer.tsx:29-32 | with a non-empty target, no highlight means the target occurs nowhere in the text |
| `SourceViewer.HighlightLocatesChunk` | rag-faiss-convex/components/SourceViewer.tsx:29-37 | a text front + chunk + back, where the chunk first occurs after front, is split into exactly those three parts |
| `AdminPanel.Remove` | rag-faiss-convex/components/AdminPanel.tsx:54 | `filter` keeps exactly the other elements and never grows the list |
| `AdminPanel.RemoveAppend` | rag-faiss-convex/components/AdminPanel.tsx:54 | filtering distributes over concatenation, so the others keep their order |
| `AdminPanel.RemoveAbsent` | rag-faiss-convex/components/AdminPanel.tsx:54 | filtering out an absent value changes nothing |
| `AdminPanel.Toggle` | rag-faiss-convex/components/AdminPanel.tsx:51-57 | a present source is removed, every copy of it, and the other members are kept. An absent one is appended at the end |
| `AdminPanel.ToggleTwiceRestores` | rag-faiss-convex/components/AdminPanel.tsx:51-57 | toggling an absent source twice returns the original list exactly |
| `AdminPanel.ToggleTwiceMovesToEnd` | rag-faiss-convex/components/AdminPanel.tsx:51-57 | toggling a present source twice moves one copy of it to the end |
| `AdminPanel.ToggleKeepsDistinct` | rag-faiss-convex/components/AdminPanel.tsx:51-57 | on a list without repeats, a toggle keeps it without repeats and flips membership of that one source |
| `AdminPanel.Initial` | rag-faiss-convex/components/AdminPanel.tsx:20-23 | a row starts not editing and not saving, with the stored role and sources selected |
| `AdminPanel.Cancel` | rag-faiss-convex/components/AdminPanel.tsx:45-49 | the selection goes back to the user's stored role and sources, and editing ends |
| `AdminPanel.CancelUndoesEdits` | rag-faiss-convex/components/AdminPanel.tsx:45-49 | whatever was edited, Cancel returns the row to its first state |
| `AdminPanel.SavePayload` | rag-faiss-convex/components/AdminPanel.tsx:30-34 | Save sends the user's id with the selected role and source list wholesale |
| `AdminPanel.SaveDone` | rag-faiss-convex/components/AdminPanel.tsx:35-42 | editing ends only on success, and saving ends either way; the selection is kept |
| `AdminPanel.SaveWithoutEditsSendsStored` | rag-faiss-convex/components/AdminPanel.tsx:30-34 | saving right after Edit sends the stored values back |
| `AdminPanel.SaveAfterCheckingOne` | rag-faiss-convex/components/AdminPanel.tsx:30-57 | checking one new source and saving sends the stored list with that source appended |
| `Strings.IndexOf` | rag-faiss-convex/components/SourceViewer.tsx:29 | `indexOf` gives -1 or a position where the target occurs |
| `Strings.IndexOfFirst` | rag-faiss-convex/components/SourceViewer.tsx:29 | no occurrence comes before the position found |
| `Strings.IndexOfMissing` | rag-faiss-convex/components/SourceViewer.tsx:30 | -1 iff the target occurs nowhere |
| `Strings.SplitOn` | rag-faiss-convex/scripts/ingest.py:33 | `str.split(sep)` gives at least one piece |
| `Strings.JoinSplit` | rag-faiss-convex/scripts/ingest.py:33 | joining the pieces of a split with the separator gives the text back |
| `Strings.Strip` | rag-faiss-convex/scripts/ingest.py:34 | `str.strip()` gives a trimmed slice of the text |
| `Strings.RStrip` | rag-faiss-convex/api/main.py:117 | `rstrip()` gives a prefix that is empty or ends in a non-space |
| `Strings.Words` | rag-faiss-convex/api/main.py:114 | `split()` gives the non-empty whitespace-free words |
| `Strings.CollapseKeepsWords` | rag-faiss-convex/api/main.py:114 | `" ".join(text.split())` keeps exactly the words of the text |
| `Strings.LowerAscii` | rag-faiss-convex/api/main.py:82 | `lower()` maps "A".."Z" to "a".."z" and keeps every other character |

## Findings

| source | as written | input that shows it | evidently intended | confidence | as-written member | corrected member |
|---|---|---|---|---|---|---|
| rag-faiss-convex/api/main.py:197 | POST /chat calls `chunks:getMany` with `{"ids": chunk_ids, "tenantId": tenant_id}`, but convex/chunks.ts:5 declares only `ids` | any chat by a caller with at least one allowed source: Convex's argument validation refuses the undeclared `tenantId`, and `convex_call` raises a 500 before an answer or a log is produced | send `{"ids": chunk_ids}`; the tenant check already happens at main.py:203 | not executed; rests on Convex refusing fields a validator does not declare | `Api.FetchChunksAsWritten` | `Api.FetchChunks` |

## Left out

- The admin guard, `updateUser`, the first-admin bootstrap, `listAll`, `currentUser`, and the available sources and roles are called from AdminPanel.tsx, Chat.tsx and main.py. Their Convex implementations are not part of this model, and none of them is invented. What `users:currentUser` returns is a parameter of `Api.RequireUser`.
- `api/faiss_store.py` (vector normalisation, the faiss library, locking, files) is not part of this model. A search result is the input `faissHits`.
- `Api.ReportedLabelsAllowed`: holds only when FAISS returns labels among the requested sources, which faiss_store.py would have to guarantee. The chunk's own source is allowed regardless (`Api.ExpectedSound`).
- OpenAI embeddings and chat completions are foreign calls. The answer is a function `llm` of the prompt, and the embedding is omitted.
- Convex HTTP plumbing (`convex_call`, `convex_mutation`, `requests`, timeouts, `raise_for_status`) is foreign I/O. In `Api.RequireUser`, a Convex call that raises is an `Err` carrying its message.
- `Api.Chat`: the embedding, the two `getMany` reads, the chat completion and `logs:add` are assumed to succeed. In the source, any of them raising produces a 500. If that happens before `logs:add`, no log is written. The model has no such failure outcome.
- Convex argument validation is modelled only as far as field names go (`Chunks.ArgsAccepted`), and only for `chunks:getMany`. Value types, such as an id of the wrong table, are not checked.
- Convex ids are typed values drawn from one counter. A malformed id string, which would make Convex throw, cannot be written.
- `Date.now()` timestamps are the input `now`.
- Convex transaction semantics and concurrency are not modelled. Each mutation is one atomic step.
- `parse_pdf`, `parse_pptx` and `parse_xlsx` wrap PyPDF2, python-pptx and openpyxl. Their extracted text is an input, and "none" stands for a missing library or a parse error.
- `json.load` and `json.dumps` are not modelled. The parsed shape and the dumped text are inputs.
- `doc_ids = list({…})` uses a Python set, whose order is unspecified. The model keeps first occurrences. The list only feeds `documents:getMany` and a dict, so its order does not affect the result.
- `embed`, `faiss_store.add`, printing, walking the data directory and reading files are left out. `main` is modelled one file at a time (`IngestFolder.IngestFile`), and the totals it prints are left out.
- The `/me` endpoint is outside the core, and is not modelled.
- `generate_sample_docs.py`, `seed_users.py` and `test_acl.py` are scripts that use the network or randomness.
- UI rendering is not modelled: index.ts, frontend.tsx, SignIn.tsx, MessageList.tsx, MessageInput.tsx, SourcePanel.tsx, UserSelector.tsx and the JSX of the three components. Also left out are the fetch effects, `scrollIntoView`, `alert` and `onUpdate`, and the `saving := true` set before a save starts.
- `ChatUi.Lookup` treats roles or sources with no entry as contributing nothing. JavaScript object lookups of prototype keys such as "constructor" would find an inherited value; this is not modelled.
- Retrieval scores are `real`, and floating-point behaviour is not modelled.
- Strings are sequences of characters. JavaScript's UTF-16 code units and Python's code points are not distinguished. `Strings.LowerAscii` lower-cases ASCII letters only, which is enough for the values compared here ("true", file extensions).
