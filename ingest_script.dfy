/**
 * scripts/ingest.py: the greedy paragraph chunker without overlap, and
 * `ingest_doc`, which stores a document and its chunks. The embeddings and
 * the FAISS add are left to the collaborators they belong to.
 */
module IngestScript {
  import opened Wrappers
  import opened Schema
  import opened Strings
  import opened Chunking
  import Store
  import Ingest

  /** The default `max_chars` of `chunk_text`. */
  const MAX_CHARS: int := 1200

  /** The real chunks read back as paragraph groups: each chunk split on blank lines. */
  function SplitEach(chunks: seq<string>): (r: seq<seq<string>>)
    ensures |r| == |chunks|
  {
    seq(|chunks|, i requires 0 <= i < |chunks| => SplitOn(chunks[i], SEP))
  }

  /**
   * `chunk_text`: paragraphs are taken in order onto the current chunk while
   * the joined length stays within `maxChars`; the paragraph that would push it
   * over starts the next chunk. `groups` are the paragraphs of each chunk.
   */
  method ChunkText(text: string, maxChars: int) returns (chunks: seq<string>, ghost groups: seq<seq<string>>)
    ensures chunks == ChunksOf(text, maxChars)
    ensures |groups| == |chunks|
    ensures forall i :: 0 <= i < |chunks| ==> groups[i] != [] && chunks[i] == Join(groups[i], SEP)
    // conservation: nothing lost, duplicated or reordered
    ensures Concat(groups) == Paragraphs(text)
    ensures Concat(SplitEach(chunks)) == Paragraphs(text)
    // only a paragraph that is too long on its own makes an oversize chunk
    ensures forall i :: 0 <= i < |chunks| && |chunks[i]| > maxChars ==> |groups[i]| == 1
    // greedy: the next chunk's first paragraph did not fit after this one
    ensures forall j, k :: 0 <= j && j + 1 == k < |chunks| ==> |chunks[j]| + |SEP| + |groups[k][0]| > maxChars
  {
    chunks, groups := ChunkPieces(SplitOn(text, SEP), maxChars);
    RunChunked(SplitOn(text, SEP), maxChars);
    SplitBack(text, chunks, groups);
  }

  /**
   * The loop of `chunk_text` over the pieces of `text.split("\n\n")`; it
   * follows `Run` piece by piece and ends as `Close` says.
   */
  method ChunkPieces(pieces: seq<string>, maxChars: int) returns (chunks: seq<string>, ghost groups: seq<seq<string>>)
    ensures chunks == Close(Run(pieces, maxChars)).chunks
    ensures groups == Close(Run(pieces, maxChars)).groups
  {
    chunks, groups := [], [];
    var cur: seq<string> := [];
    var curLen := 0;
    var i := 0;
    while i < |pieces|
      invariant 0 <= i <= |pieces|
      invariant Run(pieces[..i], maxChars) == Acc(chunks, groups, cur, curLen)
    {
      ghost var a := Acc(chunks, groups, cur, curLen);
      RunStep(pieces, i, maxChars);
      var para := Strip(pieces[i]);
      if para != [] {
        var addedLen := |para| + (if cur != [] then |SEP| else 0);
        if cur != [] && curLen + addedLen > maxChars {
          chunks := chunks + [Join(cur, SEP)];
          groups := groups + [cur];
          cur, curLen := [], 0;
          addedLen := |para|;
          assert cur + [para] == [para];
        }
        cur := cur + [para];
        curLen := curLen + addedLen;
      }
      assert Step(a, pieces[i], maxChars) == Acc(chunks, groups, cur, curLen);
      assert Run(pieces[..i + 1], maxChars) == Acc(chunks, groups, cur, curLen);
      i := i + 1;
      assert Run(pieces[..i], maxChars) == Acc(chunks, groups, cur, curLen);
    }
    assert pieces[..i] == pieces;
    if cur != [] {
      chunks := chunks + [Join(cur, SEP)];
      groups := groups + [cur];
    }
  }

  /**
   * The chunker's state: the chunks closed so far with their groups of
   * paragraphs, the paragraphs `cur` of the chunk being collected, and its
   * running length `curLen`.
   */
  datatype Acc = Acc(chunks: seq<string>, groups: seq<seq<string>>, cur: seq<string>, curLen: int)

  /** One pass of the loop body on one piece of the text. */
  function Step(a: Acc, piece: string, maxChars: int): Acc {
    var para := Strip(piece);
    if para == [] then a
    else
      var addedLen := |para| + (if a.cur != [] then |SEP| else 0);
      if a.cur != [] && a.curLen + addedLen > maxChars then
        Acc(a.chunks + [Join(a.cur, SEP)], a.groups + [a.cur], [para], |para|)
      else
        Acc(a.chunks, a.groups, a.cur + [para], a.curLen + addedLen)
  }

  /** The state after the loop has seen `pieces`. */
  function Run(pieces: seq<string>, maxChars: int): Acc {
    if pieces == [] then Acc([], [], [], 0)
    else Step(Run(pieces[..|pieces| - 1], maxChars), pieces[|pieces| - 1], maxChars)
  }

  /** One more piece is one more step. */
  lemma RunStep(pieces: seq<string>, i: nat, maxChars: int)
    requires i < |pieces|
    ensures Run(pieces[..i + 1], maxChars) == Step(Run(pieces[..i], maxChars), pieces[i], maxChars)
  {
    assert pieces[..i + 1][..i] == pieces[..i];
  }

  /** After the loop: a non-empty `cur` becomes the last chunk. */
  function Close(a: Acc): Acc {
    if a.cur != [] then Acc(a.chunks + [Join(a.cur, SEP)], a.groups + [a.cur], [], 0) else a
  }

  /** What `chunk_text(text, max_chars)` returns: the loop over the pieces of the text, then the final flush. */
  function ChunksOf(text: string, maxChars: int): seq<string> {
    Close(Run(SplitOn(text, SEP), maxChars)).chunks
  }

  /** The loop's invariant after the pieces `done`, on top of `Greedy`: the running length, and no paragraph lost. */
  ghost predicate Collecting(done: seq<string>, a: Acc, maxChars: int) {
    Greedy(a.chunks, a.groups, a.cur, maxChars) &&
    a.curLen == JoinedLen(a.cur) &&
    Concat(a.groups) + a.cur == StripNonEmpty(done)
  }

  /**
   * The part of the invariant about the chunks: each chunk joins its group;
   * the paragraphs being collected fit; an oversize chunk is one paragraph;
   * each chunk is followed by a paragraph that did not fit after it.
   */
  ghost predicate Greedy(chunks: seq<string>, groups: seq<seq<string>>, cur: seq<string>, maxChars: int) {
    |groups| == |chunks| &&
    (forall k :: 0 <= k < |chunks| ==> groups[k] != [] && chunks[k] == Join(groups[k], SEP)) &&
    (|cur| > 1 ==> JoinedLen(cur) <= maxChars) &&
    (forall k :: 0 <= k < |chunks| && |chunks[k]| > maxChars ==> |groups[k]| == 1) &&
    (forall j, k :: 0 <= j && j + 1 == k < |chunks| ==> |chunks[j]| + |SEP| + |groups[k][0]| > maxChars) &&
    (chunks != [] ==> cur != [] && |chunks[|chunks| - 1]| + |SEP| + |cur[0]| > maxChars)
  }

  /** Closing the current chunk because the next paragraph does not fit starts a new one with it. */
  lemma Flush(done: seq<string>, piece: string, a: Acc, maxChars: int)
    requires Collecting(done, a, maxChars)
    requires Strip(piece) != [] && a.cur != [] && a.curLen + |SEP| + |Strip(piece)| > maxChars
    ensures Collecting(done + [piece], Acc(a.chunks + [Join(a.cur, SEP)], a.groups + [a.cur], [Strip(piece)],
                                          |Strip(piece)|), maxChars)
  {
    var para := Strip(piece);
    FlushGreedy(a.chunks, a.groups, a.cur, para, maxChars);
    assert JoinedLen([para]) == |para|;
    ConcatSnoc(a.groups, a.cur);
    assert StripNonEmpty(done + [piece]) == StripNonEmpty(done) + [para] by {
      assert (done + [piece])[..|done|] == done;
    }
  }

  /** The chunk part of `Flush`. */
  lemma FlushGreedy(chunks: seq<string>, groups: seq<seq<string>>, cur: seq<string>, para: string, maxChars: int)
    requires Greedy(chunks, groups, cur, maxChars)
    requires cur != [] && JoinedLen(cur) + |SEP| + |para| > maxChars
    ensures Greedy(chunks + [Join(cur, SEP)], groups + [cur], [para], maxChars)
  {
    JoinedLenIsLength(cur);
    var cs, gs := chunks + [Join(cur, SEP)], groups + [cur];
    assert forall k :: 0 <= k < |chunks| ==> cs[k] == chunks[k] && gs[k] == groups[k];
    assert cs[|chunks|] == Join(cur, SEP) && gs[|chunks|] == cur;
  }

  /** Adding a paragraph that fits, or the first one, keeps the invariant. */
  lemma Extend(done: seq<string>, piece: string, a: Acc, maxChars: int)
    requires Collecting(done, a, maxChars)
    requires Strip(piece) != []
    requires a.cur != [] ==> a.curLen + |SEP| + |Strip(piece)| <= maxChars
    ensures Collecting(done + [piece], Acc(a.chunks, a.groups, a.cur + [Strip(piece)],
                                          a.curLen + |Strip(piece)| + (if a.cur != [] then |SEP| else 0)), maxChars)
  {
    var para := Strip(piece);
    ExtendGreedy(a.chunks, a.groups, a.cur, para, maxChars);
    AppendAssoc(Concat(a.groups), a.cur, [para]);
    assert StripNonEmpty(done + [piece]) == StripNonEmpty(done) + [para] by {
      assert (done + [piece])[..|done|] == done;
    }
  }

  /** The chunk part of `Extend`, and the running length. */
  lemma ExtendGreedy(chunks: seq<string>, groups: seq<seq<string>>, cur: seq<string>, para: string, maxChars: int)
    requires Greedy(chunks, groups, cur, maxChars)
    requires cur != [] ==> JoinedLen(cur) + |SEP| + |para| <= maxChars
    ensures Greedy(chunks, groups, cur + [para], maxChars)
    ensures JoinedLen(cur + [para]) == JoinedLen(cur) + (if cur != [] then |SEP| else 0) + |para|
  {
    assert (cur + [para])[..|cur|] == cur;
    if cur != [] {
      assert (cur + [para])[0] == cur[0];
    }
  }

  /** A piece that is blank once stripped changes nothing. */
  lemma Skip(done: seq<string>, piece: string, a: Acc, maxChars: int)
    requires Collecting(done, a, maxChars)
    requires Strip(piece) == []
    ensures Collecting(done + [piece], a, maxChars)
  {
    assert (done + [piece])[..|done|] == done;
  }

  /** Every state the loop reaches satisfies its invariant. */
  lemma {:induction false} RunCollecting(pieces: seq<string>, maxChars: int)
    ensures Collecting(pieces, Run(pieces, maxChars), maxChars)
  {
    if pieces == [] {
      assert Concat([]) + [] == StripNonEmpty([]);
    } else {
      var done, piece := pieces[..|pieces| - 1], pieces[|pieces| - 1];
      assert done + [piece] == pieces;
      RunCollecting(done, maxChars);
      var a := Run(done, maxChars);
      if Strip(piece) == [] {
        Skip(done, piece, a, maxChars);
      } else if a.cur != [] && a.curLen + |SEP| + |Strip(piece)| > maxChars {
        Flush(done, piece, a, maxChars);
      } else {
        Extend(done, piece, a, maxChars);
      }
    }
  }

  /** What `chunk_text` promises of its chunks and their groups of paragraphs. */
  ghost predicate Chunked(pieces: seq<string>, chunks: seq<string>, groups: seq<seq<string>>, maxChars: int) {
    Concat(groups) == StripNonEmpty(pieces) && GreedyChunks(chunks, groups, maxChars)
  }

  /** Each chunk joins its group; an oversize chunk is one paragraph; the next chunk's first paragraph did not fit. */
  ghost predicate GreedyChunks(chunks: seq<string>, groups: seq<seq<string>>, maxChars: int) {
    |groups| == |chunks| &&
    (forall k :: 0 <= k < |chunks| ==> groups[k] != [] && chunks[k] == Join(groups[k], SEP)) &&
    (forall k :: 0 <= k < |chunks| && |chunks[k]| > maxChars ==> |groups[k]| == 1) &&
    (forall j, k :: 0 <= j && j + 1 == k < |chunks| ==> |chunks[j]| + |SEP| + |groups[k][0]| > maxChars)
  }

  /** The chunks the whole loop and the final flush produce keep those promises. */
  lemma RunChunked(pieces: seq<string>, maxChars: int)
    ensures Chunked(pieces, Close(Run(pieces, maxChars)).chunks, Close(Run(pieces, maxChars)).groups, maxChars)
  {
    RunCollecting(pieces, maxChars);
    var a := Run(pieces, maxChars);
    if a.cur != [] {
      Finish(pieces, a, maxChars);
    } else {
      FinishEmpty(pieces, a, maxChars);
    }
  }

  /** Closing the last chunk keeps the promises. */
  lemma Finish(pieces: seq<string>, a: Acc, maxChars: int)
    requires Collecting(pieces, a, maxChars) && a.cur != []
    ensures Chunked(pieces, a.chunks + [Join(a.cur, SEP)], a.groups + [a.cur], maxChars)
  {
    ConcatSnoc(a.groups, a.cur);
    FinishGreedy(a.chunks, a.groups, a.cur, maxChars);
  }

  /** The chunk part of `Finish`. */
  lemma FinishGreedy(chunks: seq<string>, groups: seq<seq<string>>, cur: seq<string>, maxChars: int)
    requires Greedy(chunks, groups, cur, maxChars) && cur != []
    ensures GreedyChunks(chunks + [Join(cur, SEP)], groups + [cur], maxChars)
  {
    JoinedLenIsLength(cur);
    var cs, gs := chunks + [Join(cur, SEP)], groups + [cur];
    assert forall k :: 0 <= k < |chunks| ==> cs[k] == chunks[k] && gs[k] == groups[k];
    assert cs[|chunks|] == Join(cur, SEP) && gs[|chunks|] == cur;
  }

  /** With no paragraph left over, the chunks closed so far keep the promises. */
  lemma FinishEmpty(pieces: seq<string>, a: Acc, maxChars: int)
    requires Collecting(pieces, a, maxChars) && a.cur == []
    ensures Chunked(pieces, a.chunks, a.groups, maxChars)
  {
    assert Concat(a.groups) + [] == Concat(a.groups);
  }

  /** Chunks made of groups of paragraphs split back into those groups. */
  lemma SplitBack(text: string, chunks: seq<string>, groups: seq<seq<string>>)
    requires |groups| == |chunks|
    requires forall i :: 0 <= i < |chunks| ==> groups[i] != [] && chunks[i] == Join(groups[i], SEP)
    requires Concat(groups) == Paragraphs(text)
    ensures SplitEach(chunks) == groups
  {
    forall i | 0 <= i < |chunks| ensures SplitOn(chunks[i], SEP) == groups[i] {
      SplitBackOne(text, groups, i);
    }
    SplitEachIs(chunks, groups);
  }

  lemma SplitEachIs(chunks: seq<string>, groups: seq<seq<string>>)
    requires |groups| == |chunks|
    requires forall i :: 0 <= i < |chunks| ==> SplitOn(chunks[i], SEP) == groups[i]
    ensures SplitEach(chunks) == groups
  {
    var r := SplitEach(chunks);
    assert |r| == |groups| && forall i :: 0 <= i < |r| ==> r[i] == groups[i];
  }

  /** One group of the paragraphs, joined, splits back into itself. */
  lemma SplitBackOne(text: string, groups: seq<seq<string>>, i: nat)
    requires i < |groups| && groups[i] != []
    requires Concat(groups) == Paragraphs(text)
    ensures SplitOn(Join(groups[i], SEP), SEP) == groups[i]
  {
    forall p | p in groups[i] ensures p in Paragraphs(text) {
      InConcat(groups, i, p);
    }
    SplitGroup(text, groups[i]);
  }

  /** `chunk_rows`: row i has index i and the text of piece i. */
  function ChunkRows(pieces: seq<string>): (rows: seq<Ingest.ChunkRow>)
    ensures |rows| == |pieces|
    ensures forall i :: 0 <= i < |pieces| ==> rows[i] == Ingest.ChunkRow(i, pieces[i])
  {
    seq(|pieces|, i requires 0 <= i < |pieces| => Ingest.ChunkRow(i, pieces[i]))
  }

  /** The document `ingest_doc` stores: the source URL only when one is given and non-empty. */
  function DocumentArgs(tenantId: string, sourceKey: string, title: string, rawText: string,
                        sourceUrl: Option<string>): (d: Document)
    ensures d.tenantId == tenantId && d.sourceKey == sourceKey && d.title == title && d.rawText == rawText
    ensures d.sourceUrl.Some? <==> sourceUrl.Some? && sourceUrl.value != ""
    ensures d.sourceUrl.Some? ==> d.sourceUrl == sourceUrl
  {
    Document(tenantId, sourceKey, title, rawText,
             if sourceUrl.Some? && sourceUrl.value != "" then sourceUrl else None)
  }

  /**
   * `ingest_doc`: the document is always stored; a text without paragraphs
   * stores no chunks, otherwise chunk i is stored with index i and the text
   * of piece i.
   */
  method IngestDoc(db: Store.Db, tenantId: string, sourceKey: string, title: string, rawText: string,
                   sourceUrl: Option<string>)
    returns (docId: DocId, pieces: seq<string>, chunkIds: seq<ChunkId>)
    requires db.Valid()
    modifies db
    ensures db.Valid()
    ensures docId !in old(db.documents)
    ensures db.documents == old(db.documents)[docId := DocumentArgs(tenantId, sourceKey, title, rawText, sourceUrl)]
    ensures pieces == ChunksOf(rawText, MAX_CHARS)
    ensures Concat(SplitEach(pieces)) == Paragraphs(rawText)
    ensures pieces == [] <==> Paragraphs(rawText) == []
    ensures pieces == [] ==> chunkIds == [] && db.chunks == old(db.chunks)
    ensures |chunkIds| == |pieces|
    ensures forall k :: 0 <= k < |chunkIds| ==>
      chunkIds[k] !in old(db.chunks) && chunkIds[k] in db.chunks &&
      db.chunks[chunkIds[k]] == Chunk(tenantId, sourceKey, docId, k, pieces[k])
    ensures forall id :: id in db.chunks <==> id in old(db.chunks) || id in chunkIds
    ensures forall id :: id in old(db.chunks) ==> db.chunks[id] == old(db.chunks)[id]
    ensures db.users == old(db.users) && db.queryLogs == old(db.queryLogs) && db.feedback == old(db.feedback)
  {
    var d := DocumentArgs(tenantId, sourceKey, title, rawText, sourceUrl);
    docId := Ingest.AddDocument(db, d.tenantId, d.sourceKey, d.title, d.rawText, d.sourceUrl);
    ghost var groups;
    pieces, groups := ChunkText(rawText, MAX_CHARS);
    if pieces == [] {
      return docId, pieces, [];
    }
    chunkIds := Ingest.AddChunks(db, tenantId, sourceKey, docId, ChunkRows(pieces));
  }
}
