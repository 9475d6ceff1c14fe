/** convex/ingest.ts: `addDocument` and `addChunks`. */
module Ingest {
  import opened Wrappers
  import opened Schema
  import Store

  /** One element of `addChunks`' `chunks` argument. */
  datatype ChunkRow = ChunkRow(chunkIndex: int, text: string)

  /** The row `addChunks` stores for one input chunk: the call's tenant, source and document, the row's index and text. */
  function Stamp(tenantId: string, sourceKey: string, docId: DocId, row: ChunkRow): (c: Chunk)
    ensures c.tenantId == tenantId && c.sourceKey == sourceKey && c.docId == docId
    ensures c.chunkIndex == row.chunkIndex && c.text == row.text
  {
    Chunk(tenantId, sourceKey, docId, row.chunkIndex, row.text)
  }

  /** `addDocument`: inserts its arguments as one document and returns the new id. */
  method AddDocument(db: Store.Db, tenantId: string, sourceKey: string, title: string,
                     rawText: string, sourceUrl: Option<string>) returns (id: DocId)
    requires db.Valid()
    modifies db
    ensures db.Valid()
    ensures id !in old(db.documents)
    ensures db.documents == old(db.documents)[id := Document(tenantId, sourceKey, title, rawText, sourceUrl)]
    ensures db.users == old(db.users) && db.chunks == old(db.chunks)
    ensures db.queryLogs == old(db.queryLogs) && db.feedback == old(db.feedback)
  {
    id := db.InsertDocument(Document(tenantId, sourceKey, title, rawText, sourceUrl));
  }

  /**
   * `addChunks`: one insert per input row, in order, each id pushed onto the
   * result. The ids are new and distinct, one per row; the stored chunk under
   * `ids[k]` is row k stamped with the call's tenant, source and document.
   * Nothing checks that `docId` names a document, let alone one of the tenant.
   */
  method AddChunks(db: Store.Db, tenantId: string, sourceKey: string, docId: DocId, rows: seq<ChunkRow>)
    returns (ids: seq<ChunkId>)
    requires db.Valid()
    modifies db
    ensures db.Valid()
    ensures |ids| == |rows|
    ensures forall k :: 0 <= k < |ids| ==> ids[k] !in old(db.chunks)
    ensures forall j, k :: 0 <= j < k < |ids| ==> ids[j] != ids[k]
    ensures forall k :: 0 <= k < |ids| ==>
      ids[k] in db.chunks && db.chunks[ids[k]] == Stamp(tenantId, sourceKey, docId, rows[k])
    ensures forall id :: id in db.chunks <==> id in old(db.chunks) || id in ids
    ensures forall id :: id in old(db.chunks) ==> db.chunks[id] == old(db.chunks)[id]
    ensures db.users == old(db.users) && db.documents == old(db.documents)
    ensures db.queryLogs == old(db.queryLogs) && db.feedback == old(db.feedback)
  {
    ids := [];
    var i := 0;
    while i < |rows|
      invariant 0 <= i <= |rows| && |ids| == i
      invariant db.Valid()
      invariant db.next == old(db.next) + i
      invariant forall k :: 0 <= k < i ==> ids[k] == ChunkId(old(db.next) + k)
      invariant forall k :: 0 <= k < i ==>
        ids[k] in db.chunks && db.chunks[ids[k]] == Stamp(tenantId, sourceKey, docId, rows[k])
      invariant forall id :: id in db.chunks <==> id in old(db.chunks) || id in ids
      invariant forall id :: id in old(db.chunks) ==> db.chunks[id] == old(db.chunks)[id]
      invariant db.users == old(db.users) && db.documents == old(db.documents)
      invariant db.queryLogs == old(db.queryLogs) && db.feedback == old(db.feedback)
    {
      var id := db.InsertChunk(Stamp(tenantId, sourceKey, docId, rows[i]));
      assert id !in ids;
      ids := ids + [id];
      i := i + 1;
    }
  }
}
