/**
 * api/main.py: the FastAPI server's decisions. The Convex queries and
 * mutations it calls over HTTP are the model's own operations on `Store.Db`;
 * what it gets from OpenAI and from the per-source FAISS indexes, and the
 * `currentUser` and header lookups it cannot see, arrive as parameters.
 */
module Api {
  import opened Wrappers
  import opened Schema
  import opened Strings
  import Lists
  import Store
  import Users
  import Documents
  import Chunks
  import Logs

  /** Every source the system knows of, in this order. */
  const ALL_SOURCES: seq<string> := ["gdrive", "confluence", "slack", "notion", "public", "finance", "engineering", "hr"]
  const NO_SOURCES_ANSWER := "No sources available for this user."
  /** The default `max_len` of `_make_snippet`. */
  const SNIPPET_MAX: nat := 220
  /** How many FAISS hits a chat considers. */
  const TOP_K: nat := 8

  /** An `HTTPException`: status code and detail. */
  datatype HttpError = HttpError(status: int, detail: string)

  /** A user as Convex returns it to the API: the stored record and its `_id`. */
  datatype Caller = Caller(id: UserId, user: User)

  // ---------------------------------------------------------------------------
  // get_allowed_sources, get_auth_token, _require_user
  // ---------------------------------------------------------------------------

  /** `get_allowed_sources`: an admin gets every source whatever is stored; anyone else gets the stored list. */
  function AllowedSources(u: User): (r: seq<string>)
    ensures u.role == "admin" ==> r == ALL_SOURCES
    ensures u.role != "admin" ==> r == u.allowedSources
  {
    if u.role == "admin" then ALL_SOURCES else u.allowedSources
  }

  predicate StartsWith(s: string, prefix: string) {
    |prefix| <= |s| && s[..|prefix|] == prefix
  }

  /**
   * `get_auth_token`: an Authorization header that starts with "Bearer " gives
   * the rest of the header; any other header is ignored and the
   * `__convexAuthToken` cookie, if any, is the token.
   */
  function AuthToken(authorization: Option<string>, cookie: Option<string>): (r: Option<string>)
    ensures authorization.Some? && StartsWith(authorization.value, "Bearer ") ==>
      r.Some? && authorization.value == "Bearer " + r.value
    ensures !(authorization.Some? && StartsWith(authorization.value, "Bearer ")) ==> r == cookie
  {
    if authorization.Some? && StartsWith(authorization.value, "Bearer ") then Some(authorization.value[7..])
    else cookie
  }

  /** A token sent as a bearer header is read back exactly, whatever cookie there is. */
  lemma BearerRoundTrip(token: string, cookie: Option<string>)
    ensures AuthToken(Some("Bearer " + token), cookie) == Some(token)
  {
    var h := "Bearer " + token;
    assert h[..7] == "Bearer ";
    assert h[7..] == token;
  }

  /** Python's `not token`. */
  predicate Falsy(token: Option<string>) {
    token.None? || token.value == ""
  }

  /**
   * Whether `_require_user` looks the `x-user-id` header up: only with no
   * token, `ALLOW_HEADER_AUTH` equal to "true" in any letter case, and a
   * non-empty header.
   */
  predicate HeaderAuthTried(token: Option<string>, allowHeaderAuth: string, headerUserId: Option<string>) {
    Falsy(token) && LowerAscii(allowHeaderAuth) == "true" && headerUserId.Some? && headerUserId.value != ""
  }

  const NOT_AUTHENTICATED := HttpError(401, "Not authenticated")
  const AUTH_FAILED := "Authentication failed: "
  /** `str()` of the 401 "User not found" exception, which the surrounding `except` catches and wraps. */
  const USER_NOT_FOUND_TEXT := "401: User not found"

  /**
   * `_require_user`. The two Convex lookups are parameters: `headerLookup` is
   * what `users:get` gives for the header's id (Err when the call raised),
   * `currentUser` what `users:currentUser` gives for the token (Err carrying
   * `str()` of the exception it raised). `allowHeaderAuth` is the
   * environment variable, "" when unset.
   */
  function RequireUser(token: Option<string>, allowHeaderAuth: string, headerUserId: Option<string>,
                       headerLookup: Result<Option<Caller>, string>,
                       currentUser: Result<Option<Caller>, string>): (r: Result<Caller, HttpError>)
    // with no token, only a header lookup that finds a user lets the caller in
    ensures Falsy(token) && r.Ok? ==>
      HeaderAuthTried(token, allowHeaderAuth, headerUserId) && headerLookup == Ok(Some(r.value))
    ensures Falsy(token) && !HeaderAuthTried(token, allowHeaderAuth, headerUserId) ==> r == Err(NOT_AUTHENTICATED)
    ensures HeaderAuthTried(token, allowHeaderAuth, headerUserId) && headerLookup == Ok(None) ==>
      r == Err(NOT_AUTHENTICATED)
    ensures HeaderAuthTried(token, allowHeaderAuth, headerUserId) && headerLookup.Err? ==>
      r == Err(HttpError(500, headerLookup.error))
    // with a token, the header is never consulted: the session decides, and every failure is a 401
    ensures !Falsy(token) ==> (r.Ok? <==> currentUser.Ok? && currentUser.value.Some?)
    ensures !Falsy(token) && r.Ok? ==> r.value == currentUser.value.value
    ensures !Falsy(token) && currentUser == Ok(None) ==> r == Err(HttpError(401, AUTH_FAILED + USER_NOT_FOUND_TEXT))
    ensures !Falsy(token) && currentUser.Err? ==> r == Err(HttpError(401, AUTH_FAILED + currentUser.error))
  {
    if HeaderAuthTried(token, allowHeaderAuth, headerUserId) && headerLookup.Err? then
      Err(HttpError(500, headerLookup.error))
    else if HeaderAuthTried(token, allowHeaderAuth, headerUserId) && headerLookup.value.Some? then
      Ok(headerLookup.value.value)
    else if Falsy(token) then
      Err(NOT_AUTHENTICATED)
    else match currentUser
      case Err(e) => Err(HttpError(401, AUTH_FAILED + e))
      case Ok(None) => Err(HttpError(401, AUTH_FAILED + USER_NOT_FOUND_TEXT))
      case Ok(Some(u)) => Ok(u)
  }

  // ---------------------------------------------------------------------------
  // _make_snippet
  // ---------------------------------------------------------------------------

  /**
   * `_make_snippet`: whitespace collapsed to single spaces; text that then fits
   * in `maxLen` is returned as is, anything longer is cut at `maxLen`, stripped
   * of trailing whitespace, and given "...".
   */
  function MakeSnippet(text: string, maxLen: nat): (r: string)
    ensures |r| <= maxLen + 3
    ensures |Collapse(text)| <= maxLen ==> r == Collapse(text)
    ensures |Collapse(text)| > maxLen ==>
      var keep := |r| - 3;
      0 <= keep <= maxLen && r[keep..] == "..." && r[..keep] == Collapse(text)[..keep] &&
      (keep == 0 || !IsSpace(r[keep - 1])) &&
      forall i :: keep <= i < maxLen ==> IsSpace(Collapse(text)[i])
  {
    var cleaned := Collapse(text);
    if |cleaned| <= maxLen then cleaned
    else
      RStripCutsSpace(cleaned[..maxLen]);
      RStrip(cleaned[..maxLen]) + "..."
  }

  /** A snippet that was not cut has exactly the words of the text. */
  lemma ShortSnippetKeepsWords(text: string, maxLen: nat)
    requires |Collapse(text)| <= maxLen
    ensures Words(MakeSnippet(text, maxLen)) == Words(text)
  {
    CollapseKeepsWords(text);
  }

  // ---------------------------------------------------------------------------
  // get_document and feedback
  // ---------------------------------------------------------------------------

  /** The fields `get_document` returns. */
  datatype DocumentView = DocumentView(id: DocId, title: string, sourceKey: string, rawText: string,
                                       sourceUrl: Option<string>)

  /**
   * `get_document`: 404 when the tenant-scoped `documents:get` finds nothing
   * (missing, or another tenant's), 403 when the document's source is not
   * allowed to the caller, otherwise the document's fields.
   */
  function GetDocument(db: Store.Db, caller: Caller, docId: DocId): (r: Result<DocumentView, HttpError>)
    reads db
    ensures r == Err(HttpError(404, "Document not found")) <==>
      !(docId in db.documents && db.documents[docId].tenantId == caller.user.tenantId)
    ensures r == Err(HttpError(403, "Access denied")) <==>
      docId in db.documents && db.documents[docId].tenantId == caller.user.tenantId &&
      db.documents[docId].sourceKey !in AllowedSources(caller.user)
    ensures r.Ok? <==>
      docId in db.documents && db.documents[docId].tenantId == caller.user.tenantId &&
      db.documents[docId].sourceKey in AllowedSources(caller.user)
    ensures r.Ok? ==>
      var d := db.documents[docId];
      r.value == DocumentView(docId, d.title, d.sourceKey, d.rawText, d.sourceUrl)
  {
    match Documents.Get(db, docId, caller.user.tenantId)
    case None => Err(HttpError(404, "Document not found"))
    case Some(d) =>
      if d.sourceKey !in AllowedSources(caller.user) then Err(HttpError(403, "Access denied"))
      else Ok(DocumentView(docId, d.title, d.sourceKey, d.rawText, d.sourceUrl))
  }

  /** The body of POST /feedback. */
  datatype FeedbackIn = FeedbackIn(logId: LogId, helpful: bool, comment: Option<string>)

  /**
   * POST /feedback: `logs:addFeedback` with the authenticated caller as the
   * user and the comment passed on only when there is one. A rejection from
   * Convex surfaces as a server error carrying its message.
   */
  method Feedback(db: Store.Db, payload: FeedbackIn, caller: Caller, now: int) returns (r: Result<string, HttpError>)
    requires db.Valid()
    modifies db
    ensures db.Valid()
    ensures r.Ok? <==> old(Logs.FeedbackRejection(db, payload.logId, caller.id)).None?
    ensures r.Ok? ==> r.value == "ok"
    ensures r.Ok? ==> exists id :: id !in old(db.feedback) &&
                                   db.feedback == old(db.feedback)[id := Schema.Feedback(payload.logId, caller.id, payload.helpful, payload.comment, now)]
    ensures r.Err? ==> r.error == HttpError(500, old(Logs.FeedbackRejection(db, payload.logId, caller.id)).value) &&
                       db.feedback == old(db.feedback)
    ensures db.users == old(db.users) && db.documents == old(db.documents)
    ensures db.chunks == old(db.chunks) && db.queryLogs == old(db.queryLogs)
  {
    var added := Logs.AddFeedback(db, payload.logId, caller.id, payload.helpful, payload.comment, now);
    if added.Ok? {
      r := Ok("ok");
    } else {
      r := Err(HttpError(500, added.error.message));
    }
  }

  // ---------------------------------------------------------------------------
  // chat
  // ---------------------------------------------------------------------------

  /** A FAISS search result: chunk id, score, and the label of the index it came from. */
  datatype Hit = Hit(chunkId: ChunkId, score: real, sourceKey: string)

  /** One element of the `retrieved` list a chat returns. */
  datatype SourceHit = SourceHit(sourceKey: string, score: real, docId: DocId, docTitle: string,
                                 chunkId: ChunkId, chunkIndex: int, snippet: string, chunkText: string,
                                 sourceUrl: Option<string>)

  datatype ChatResponse = ChatResponse(answer: string, retrieved: seq<SourceHit>, logId: LogId)

  /** The element of `retrieved_for_log` built beside a returned hit: its six log fields. */
  function ToLog(h: SourceHit): (e: RetrievedEntry)
    ensures e.sourceKey == h.sourceKey && e.score == h.score && e.docId == h.docId
    ensures e.docTitle == h.docTitle && e.chunkId == h.chunkId && e.chunkIndex == h.chunkIndex
  {
    RetrievedEntry(h.sourceKey, h.score, h.docId, h.docTitle, h.chunkId, h.chunkIndex)
  }

  function LogEntries(hs: seq<SourceHit>): (r: seq<RetrievedEntry>)
    ensures |r| == |hs| && forall k :: 0 <= k < |hs| ==> r[k] == ToLog(hs[k])
  {
    seq(|hs|, k requires 0 <= k < |hs| => ToLog(hs[k]))
  }

  /** `hits[:8]`. */
  function Top(hits: seq<Hit>): (r: seq<Hit>)
    ensures |r| <= TOP_K && |r| <= |hits| && r == hits[..|r|]
    ensures |hits| <= TOP_K ==> r == hits
    ensures |hits| > TOP_K ==> |r| == TOP_K
  {
    if |hits| <= TOP_K then hits else hits[..TOP_K]
  }

  function ChunkIds(hits: seq<Hit>): (r: seq<ChunkId>)
    ensures |r| == |hits| && forall k :: 0 <= k < |hits| ==> r[k] == hits[k].chunkId
  {
    seq(|hits|, k requires 0 <= k < |hits| => hits[k].chunkId)
  }

  /** A dict built from (key, value) pairs; a later pair wins. */
  function ToMap<K(!new), V>(pairs: seq<(K, V)>): (m: map<K, V>)
    ensures forall p :: p in pairs ==> p.0 in m
    ensures forall k :: k in m ==> (k, m[k]) in pairs
  {
    if pairs == [] then map[]
    else
      var last := pairs[|pairs| - 1];
      ToMap(pairs[..|pairs| - 1])[last.0 := last.1]
  }

  /** `[by_id[cid] for cid in chunk_ids if cid in by_id]`. */
  function Resolve(ids: seq<ChunkId>, byId: map<ChunkId, Chunk>): (r: seq<Chunk>)
    ensures |r| <= |ids|
  {
    if ids == [] then []
    else if ids[0] in byId then [byId[ids[0]]] + Resolve(ids[1..], byId)
    else Resolve(ids[1..], byId)
  }

  /** `[c for c in ordered if c["tenantId"] == tenant_id and c["sourceKey"] in allowed]`. */
  function KeepAllowed(cs: seq<Chunk>, tenantId: string, allowed: seq<string>): (r: seq<Chunk>)
    ensures forall c :: c in r ==> c in cs && c.tenantId == tenantId && c.sourceKey in allowed
    ensures forall c :: c in cs && c.tenantId == tenantId && c.sourceKey in allowed ==> c in r
  {
    if cs == [] then []
    else if cs[0].tenantId == tenantId && cs[0].sourceKey in allowed then [cs[0]] + KeepAllowed(cs[1..], tenantId, allowed)
    else KeepAllowed(cs[1..], tenantId, allowed)
  }

  /**
   * The chunks a chat puts in the model's context, stated on the chunk table
   * itself: each requested id that names a chunk of the tenant with an allowed
   * source, in request order.
   */
  function ContextChunks(chunks: map<ChunkId, Chunk>, ids: seq<ChunkId>, tenantId: string, allowed: seq<string>): seq<Chunk> {
    if ids == [] then []
    else if ids[0] in chunks && chunks[ids[0]].tenantId == tenantId && chunks[ids[0]].sourceKey in allowed then
      [chunks[ids[0]]] + ContextChunks(chunks, ids[1..], tenantId, allowed)
    else ContextChunks(chunks, ids[1..], tenantId, allowed)
  }

  /** Every chunk in a chat's context belongs to the tenant, has an allowed source and is stored. */
  lemma {:induction false} ContextChunksAllowed(chunks: map<ChunkId, Chunk>, ids: seq<ChunkId>, tenantId: string, allowed: seq<string>)
    ensures forall c :: c in ContextChunks(chunks, ids, tenantId, allowed) ==>
      c.tenantId == tenantId && c.sourceKey in allowed && c in chunks.Values
  {
    if ids != [] {
      ContextChunksAllowed(chunks, ids[1..], tenantId, allowed);
    }
  }

  /** The context keeps the order of the FAISS hits: it distributes over concatenation. */
  lemma {:induction false} ContextChunksAppend(chunks: map<ChunkId, Chunk>, a: seq<ChunkId>, b: seq<ChunkId>,
                                               tenantId: string, allowed: seq<string>)
    ensures ContextChunks(chunks, a + b, tenantId, allowed) ==
            ContextChunks(chunks, a, tenantId, allowed) + ContextChunks(chunks, b, tenantId, allowed)
  {
    if a == [] {
      assert a + b == b;
    } else {
      assert (a + b)[0] == a[0] && (a + b)[1..] == a[1..] + b;
      ContextChunksAppend(chunks, a[1..], b, tenantId, allowed);
    }
  }

  /**
   * The two comprehensions over a `by_id` that agrees with the chunk table on
   * the requested ids compute exactly `ContextChunks`.
   */
  lemma {:induction false} OrderedIsContextChunks(chunks: map<ChunkId, Chunk>, byId: map<ChunkId, Chunk>,
                                                  ids: seq<ChunkId>, tenantId: string, allowed: seq<string>)
    requires forall id :: id in ids ==> (id in byId <==> id in chunks)
    requires forall id :: id in ids && id in byId ==> byId[id] == chunks[id]
    ensures KeepAllowed(Resolve(ids, byId), tenantId, allowed) == ContextChunks(chunks, ids, tenantId, allowed)
  {
    if ids != [] {
      assert ids[0] in ids;
      assert forall id :: id in ids[1..] ==> id in ids;
      OrderedIsContextChunks(chunks, byId, ids[1..], tenantId, allowed);
    }
  }

  /** One context block: the chunk's source label and its text. */
  function Block(c: Chunk): string {
    "[source=" + c.sourceKey + "]\n" + c.text
  }

  function Blocks(cs: seq<Chunk>): seq<string> {
    seq(|cs|, k requires 0 <= k < |cs| => Block(cs[k]))
  }

  /** The user message sent to the chat model. */
  function Prompt(ordered: seq<Chunk>, message: string): string {
    "CONTEXT:\n" + Join(Blocks(ordered), "\n\n") + "\n\nQUESTION:\n" + message
  }

  function DocIdSeq(cs: seq<Chunk>): seq<DocId> {
    seq(|cs|, k requires 0 <= k < |cs| => cs[k].docId)
  }

  /**
   * `list({c["docId"] for c in ordered})`: each document id of the ordered
   * chunks once. A Python set has no defined order; the model keeps first
   * occurrences, and the list only feeds `documents:getMany` and a dict.
   */
  function DocIds(ordered: seq<Chunk>): (r: seq<DocId>)
    ensures Lists.NoDuplicates(r)
    ensures forall c :: c in ordered ==> c.docId in r
    ensures forall d :: d in r ==> exists c :: c in ordered && c.docId == d
  {
    var all := DocIdSeq(ordered);
    assert forall c :: c in ordered ==> c.docId in all by {
      forall c | c in ordered ensures c.docId in all {
        var k :| 0 <= k < |ordered| && ordered[k] == c;
        assert all[k] == c.docId;
      }
    }
    assert forall d :: d in all ==> exists c :: c in ordered && c.docId == d by {
      forall d | d in all ensures exists c :: c in ordered && c.docId == d {
        var k :| 0 <= k < |all| && all[k] == d;
        assert ordered[k] in ordered;
      }
    }
    Lists.DedupFrom(all, {})
  }

  /** The entry a passing hit contributes to `retrieved`. */
  function Entry(h: Hit, c: Chunk, d: Document): SourceHit {
    SourceHit(h.sourceKey, h.score, c.docId, d.title, h.chunkId, c.chunkIndex, MakeSnippet(c.text, SNIPPET_MAX),
              c.text, d.sourceUrl)
  }

  /** Whether the loop over hits keeps a hit, judged on `by_id` and `doc_by_id`. */
  predicate Passes(h: Hit, byId: map<ChunkId, Chunk>, docById: map<DocId, Document>, tenantId: string, allowed: seq<string>) {
    h.chunkId in byId && byId[h.chunkId].tenantId == tenantId && byId[h.chunkId].sourceKey in allowed &&
    byId[h.chunkId].docId in docById
  }

  /** What the loop over hits appends to `retrieved`, hit by hit. */
  function Assembled(hits: seq<Hit>, byId: map<ChunkId, Chunk>, docById: map<DocId, Document>,
                     tenantId: string, allowed: seq<string>): seq<SourceHit>
  {
    if hits == [] then []
    else
      var h := hits[|hits| - 1];
      var before := Assembled(hits[..|hits| - 1], byId, docById, tenantId, allowed);
      if Passes(h, byId, docById, tenantId, allowed) then
        before + [Entry(h, byId[h.chunkId], docById[byId[h.chunkId].docId])]
      else before
  }

  /**
   * The hits a chat reports, stated on the tables themselves: each hit whose
   * chunk exists, belongs to the tenant, has an allowed source and whose
   * document exists in the tenant, in hit order.
   */
  function Expected(chunks: map<ChunkId, Chunk>, docs: map<DocId, Document>, hits: seq<Hit>,
                    tenantId: string, allowed: seq<string>): seq<SourceHit>
  {
    if hits == [] then []
    else
      var h := hits[|hits| - 1];
      var before := Expected(chunks, docs, hits[..|hits| - 1], tenantId, allowed);
      if h.chunkId in chunks && chunks[h.chunkId].tenantId == tenantId && chunks[h.chunkId].sourceKey in allowed &&
         chunks[h.chunkId].docId in docs && docs[chunks[h.chunkId].docId].tenantId == tenantId then
        before + [Entry(h, chunks[h.chunkId], docs[chunks[h.chunkId].docId])]
      else before
  }

  /**
   * The access-control theorem: every reported hit names a stored chunk of the
   * tenant whose own source is allowed, and that chunk's stored document of the
   * same tenant; its title, index, text and snippet are theirs.
   */
  lemma {:induction false} ExpectedSound(chunks: map<ChunkId, Chunk>, docs: map<DocId, Document>, hits: seq<Hit>,
                                         tenantId: string, allowed: seq<string>)
    ensures forall e :: e in Expected(chunks, docs, hits, tenantId, allowed) ==>
      e.chunkId in chunks && chunks[e.chunkId].tenantId == tenantId && chunks[e.chunkId].sourceKey in allowed &&
      e.docId == chunks[e.chunkId].docId && e.docId in docs && docs[e.docId].tenantId == tenantId &&
      e.docTitle == docs[e.docId].title && e.sourceUrl == docs[e.docId].sourceUrl &&
      e.chunkIndex == chunks[e.chunkId].chunkIndex && e.chunkText == chunks[e.chunkId].text &&
      e.snippet == MakeSnippet(chunks[e.chunkId].text, SNIPPET_MAX)
  {
    if hits != [] {
      ExpectedSound(chunks, docs, hits[..|hits| - 1], tenantId, allowed);
    }
  }

  /** Every reported hit is one of FAISS's hits, with its score and its index label. */
  lemma {:induction false} ExpectedFromHits(chunks: map<ChunkId, Chunk>, docs: map<DocId, Document>, hits: seq<Hit>,
                                            tenantId: string, allowed: seq<string>)
    ensures forall e :: e in Expected(chunks, docs, hits, tenantId, allowed) ==> Hit(e.chunkId, e.score, e.sourceKey) in hits
    ensures |Expected(chunks, docs, hits, tenantId, allowed)| <= |hits|
  {
    if hits != [] {
      ExpectedFromHits(chunks, docs, hits[..|hits| - 1], tenantId, allowed);
    }
  }

  /**
   * The reported `sourceKey` is FAISS's label, not the chunk's: it is an allowed
   * source whenever FAISS answered only from allowed indexes.
   */
  lemma ReportedLabelsAllowed(chunks: map<ChunkId, Chunk>, docs: map<DocId, Document>, hits: seq<Hit>,
                              tenantId: string, allowed: seq<string>)
    requires forall h :: h in hits ==> h.sourceKey in allowed
    ensures forall e :: e in Expected(chunks, docs, hits, tenantId, allowed) ==> e.sourceKey in allowed
  {
    ExpectedFromHits(chunks, docs, hits, tenantId, allowed);
  }

  /** Reported hits keep FAISS order: the report distributes over concatenation. */
  lemma {:induction false} ExpectedAppend(chunks: map<ChunkId, Chunk>, docs: map<DocId, Document>, a: seq<Hit>, b: seq<Hit>,
                                          tenantId: string, allowed: seq<string>)
    ensures Expected(chunks, docs, a + b, tenantId, allowed) ==
            Expected(chunks, docs, a, tenantId, allowed) + Expected(chunks, docs, b, tenantId, allowed)
    decreases |b|
  {
    if b == [] {
      assert a + b == a;
    } else {
      assert (a + b)[..|a + b| - 1] == a + b[..|b| - 1];
      ExpectedAppend(chunks, docs, a, b[..|b| - 1], tenantId, allowed);
    }
  }

  /**
   * When `by_id` agrees with the chunk table on the hits' ids, and `doc_by_id`
   * holds exactly the tenant's documents for the ids of the chunks that pass
   * the tenant and source check, the loop's result is `Expected`.
   */
  lemma {:induction false} AssembledIsExpected(chunks: map<ChunkId, Chunk>, docs: map<DocId, Document>, hits: seq<Hit>,
                                               byId: map<ChunkId, Chunk>, docById: map<DocId, Document>,
                                               tenantId: string, allowed: seq<string>)
    requires forall h :: h in hits ==> (h.chunkId in byId <==> h.chunkId in chunks)
    requires forall h :: h in hits && h.chunkId in byId ==> byId[h.chunkId] == chunks[h.chunkId]
    requires forall h :: h in hits && h.chunkId in byId && byId[h.chunkId].tenantId == tenantId &&
                         byId[h.chunkId].sourceKey in allowed ==>
      var d := byId[h.chunkId].docId;
      (d in docById <==> d in docs && docs[d].tenantId == tenantId) && (d in docById ==> docById[d] == docs[d])
    ensures Assembled(hits, byId, docById, tenantId, allowed) == Expected(chunks, docs, hits, tenantId, allowed)
  {
    if hits != [] {
      var init := hits[..|hits| - 1];
      assert hits[|hits| - 1] in hits;
      assert forall h :: h in init ==> h in hits;
      AssembledIsExpected(chunks, docs, init, byId, docById, tenantId, allowed);
    }
  }

  /**
   * The loop of `chat` that builds `retrieved` and `retrieved_for_log` side by
   * side: the two lists have the same length and agree on the six log fields.
   */
  method AssembleHits(hits: seq<Hit>, byId: map<ChunkId, Chunk>, docById: map<DocId, Document>,
                      tenantId: string, allowed: seq<string>)
    returns (retrieved: seq<SourceHit>, forLog: seq<RetrievedEntry>)
    ensures retrieved == Assembled(hits, byId, docById, tenantId, allowed)
    ensures forLog == LogEntries(retrieved)
  {
    retrieved, forLog := [], [];
    var i := 0;
    while i < |hits|
      invariant 0 <= i <= |hits|
      invariant retrieved == Assembled(hits[..i], byId, docById, tenantId, allowed)
      invariant forLog == LogEntries(retrieved)
    {
      var h := hits[i];
      assert hits[..i + 1][..i] == hits[..i];
      if h.chunkId in byId && byId[h.chunkId].tenantId == tenantId && byId[h.chunkId].sourceKey in allowed {
        var chunk := byId[h.chunkId];
        if chunk.docId in docById {
          var doc := docById[chunk.docId];
          var e := Entry(h, chunk, doc);
          retrieved := retrieved + [e];
          forLog := forLog + [ToLog(e)];
        }
      }
      i := i + 1;
    }
    assert hits[..|hits|] == hits;
  }

  /**
   * POST /chat for an authenticated caller. `faissHits` is what
   * `faiss_store.search` returned over the caller's allowed sources and `llm`
   * the chat model's answer to a prompt; `now` is the clock. Exactly one query
   * log is written, holding the caller's allowed sources and the six log fields
   * of every reported hit, and the report is `Expected` over the first
   * eight hits.
   */
  method Chat(db: Store.Db, caller: Caller, message: string, faissHits: seq<Hit>, llm: string -> string, now: int)
    returns (resp: ChatResponse)
    requires db.Valid()
    modifies db
    ensures db.Valid()
    ensures var allowed := AllowedSources(caller.user);
      resp.retrieved == (if allowed == [] then []
                         else Expected(old(db.chunks), old(db.documents), Top(faissHits), caller.user.tenantId, allowed))
    ensures var allowed := AllowedSources(caller.user);
      resp.answer == (if allowed == [] then NO_SOURCES_ANSWER
                      else llm(Prompt(ContextChunks(old(db.chunks), ChunkIds(Top(faissHits)), caller.user.tenantId, allowed), message)))
    ensures resp.logId !in old(db.queryLogs)
    ensures db.queryLogs == old(db.queryLogs)[resp.logId := QueryLog(caller.user.tenantId, caller.id, message, resp.answer,
                                                                     AllowedSources(caller.user), LogEntries(resp.retrieved), now)]
    ensures db.users == old(db.users) && db.documents == old(db.documents)
    ensures db.chunks == old(db.chunks) && db.feedback == old(db.feedback)
  {
    var tenantId := caller.user.tenantId;
    var allowed := AllowedSources(caller.user);
    if allowed == [] {
      var logId := Logs.Add(db, tenantId, caller.id, message, NO_SOURCES_ANSWER, allowed, [], now);
      assert LogEntries([]) == [];
      return ChatResponse(NO_SOURCES_ANSWER, [], logId);
    }
    var hits := Top(faissHits);
    var chunkIds := ChunkIds(hits);
    var chunkRows := FetchChunks(db, chunkIds);
    var byId := ToMap(chunkRows);
    ChunkTableAgrees(db.chunks, chunkIds, chunkRows, byId);

    var ordered := KeepAllowed(Resolve(chunkIds, byId), tenantId, allowed);
    OrderedIsContextChunks(db.chunks, byId, chunkIds, tenantId, allowed);
    var answer := llm(Prompt(ordered, message));

    var docIds := DocIds(ordered);
    var docRows := Documents.GetMany(db, docIds, tenantId);
    var docById := ToMap(docRows);
    DocTableAgrees(db.documents, docIds, tenantId, docRows, docById);
    PassingDocsRequested(hits, chunkIds, byId, tenantId, allowed, ordered, docIds);

    var retrieved, forLog := AssembleHits(hits, byId, docById, tenantId, allowed);
    AssembledIsExpected(db.chunks, db.documents, hits, byId, docById, tenantId, allowed);

    var logId := Logs.Add(db, tenantId, caller.id, message, answer, allowed, forLog, now);
    resp := ChatResponse(answer, retrieved, logId);
  }

  /** The argument names main.py sends to `chunks:getMany`: the chunk ids and the caller's tenant. */
  const CHUNK_ARGS_AS_WRITTEN: set<string> := {"ids", "tenantId"}

  /** The argument names `chunks:getMany` declares, which `Chat` sends: the chunk ids alone. */
  const CHUNK_ARGS: set<string> := {"ids"}

  /**
   * The chunk fetch of POST /chat as written. `chunks:getMany` does not declare
   * `tenantId`, so Convex refuses the call whatever the ids are. `convex_call`
   * then raises a 500 before the answer is built or the log is written.
   */
  method FetchChunksAsWritten(db: Store.Db, chunkIds: seq<ChunkId>) returns (r: Option<seq<(ChunkId, Chunk)>>)
    ensures r == None
  {
    r := Chunks.Call(db, CHUNK_ARGS_AS_WRITTEN, chunkIds);
  }

  /** The chunk fetch with the ids alone: accepted, it returns every requested chunk that exists. */
  method FetchChunks(db: Store.Db, chunkIds: seq<ChunkId>) returns (rows: seq<(ChunkId, Chunk)>)
    ensures rows == Chunks.Present(db.chunks, chunkIds)
  {
    var r := Chunks.Call(db, CHUNK_ARGS, chunkIds);
    rows := r.value;
  }

  /** `by_id` built from `chunks:getMany` agrees with the chunk table on every requested id, whatever its tenant. */
  lemma ChunkTableAgrees(chunks: map<ChunkId, Chunk>, ids: seq<ChunkId>, rows: seq<(ChunkId, Chunk)>, byId: map<ChunkId, Chunk>)
    requires rows == Chunks.Present(chunks, ids) && byId == ToMap(rows)
    ensures forall id :: id in ids ==> (id in byId <==> id in chunks)
    ensures forall id :: id in byId ==> id in chunks && byId[id] == chunks[id]
  {
    Chunks.PresentAreStored(chunks, ids);
    Chunks.PresentIgnoresTenant(chunks, ids);
  }

  /** `doc_by_id` built from `documents:getMany` holds exactly the tenant's documents among the requested ids. */
  lemma DocTableAgrees(docs: map<DocId, Document>, ids: seq<DocId>, tenantId: string,
                       rows: seq<(DocId, Document)>, docById: map<DocId, Document>)
    requires rows == Documents.Visible(docs, ids, tenantId) && docById == ToMap(rows)
    ensures forall d :: d in ids ==> (d in docById <==> d in docs && docs[d].tenantId == tenantId)
    ensures forall d :: d in docById ==> d in ids && d in docs && docs[d].tenantId == tenantId && docById[d] == docs[d]
  {
    Documents.VisibleAreInTenant(docs, ids, tenantId);
    Documents.VisibleComplete(docs, ids, tenantId);
  }

  /** The document of every hit that passes the tenant and source check was requested from `documents:getMany`. */
  lemma PassingDocsRequested(hits: seq<Hit>, chunkIds: seq<ChunkId>, byId: map<ChunkId, Chunk>, tenantId: string,
                             allowed: seq<string>, ordered: seq<Chunk>, docIds: seq<DocId>)
    requires chunkIds == ChunkIds(hits)
    requires ordered == KeepAllowed(Resolve(chunkIds, byId), tenantId, allowed) && docIds == DocIds(ordered)
    ensures forall h :: (h in hits && h.chunkId in byId && byId[h.chunkId].tenantId == tenantId &&
                         byId[h.chunkId].sourceKey in allowed) ==> byId[h.chunkId].docId in docIds
  {
    forall h | h in hits && h.chunkId in byId && byId[h.chunkId].tenantId == tenantId && byId[h.chunkId].sourceKey in allowed
      ensures byId[h.chunkId].docId in docIds
    {
      var k :| 0 <= k < |hits| && hits[k] == h;
      assert chunkIds[k] == h.chunkId;
      ResolveHas(chunkIds, byId, k);
    }
  }

  lemma {:induction false} ResolveHas(ids: seq<ChunkId>, byId: map<ChunkId, Chunk>, k: nat)
    requires k < |ids| && ids[k] in byId
    ensures byId[ids[k]] in Resolve(ids, byId)
  {
    if k > 0 {
      assert ids[1..][k - 1] == ids[k];
      ResolveHas(ids[1..], byId, k - 1);
    }
  }
}
