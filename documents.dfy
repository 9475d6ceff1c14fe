/** convex/documents.ts: the two tenant-filtered document reads. */
module Documents {
  import opened Wrappers
  import opened Schema
  import Store

  /**
   * `get`: the document when it exists and belongs to the tenant. A document of
   * another tenant gives the same `null` as a missing one.
   */
  function Get(db: Store.Db, id: DocId, tenantId: string): (r: Option<Document>)
    reads db
    ensures r.Some? <==> id in db.documents && db.documents[id].tenantId == tenantId
    ensures r.Some? ==> r.value == db.documents[id]
  {
    if id in db.documents && db.documents[id].tenantId == tenantId then Some(db.documents[id]) else None
  }

  /** What `getMany` returns: each id, in input order, that names a document of the tenant, with that document. */
  function Visible(docs: map<DocId, Document>, ids: seq<DocId>, tenantId: string): seq<(DocId, Document)> {
    if ids == [] then []
    else
      var id := ids[|ids| - 1];
      var before := Visible(docs, ids[..|ids| - 1], tenantId);
      if id in docs && docs[id].tenantId == tenantId then before + [(id, docs[id])] else before
  }

  /** `getMany`: the loop that pushes each matching document onto `out`. */
  method GetMany(db: Store.Db, ids: seq<DocId>, tenantId: string) returns (out: seq<(DocId, Document)>)
    ensures out == Visible(db.documents, ids, tenantId)
  {
    out := [];
    var i := 0;
    while i < |ids|
      invariant 0 <= i <= |ids|
      invariant out == Visible(db.documents, ids[..i], tenantId)
    {
      var id := ids[i];
      assert ids[..i + 1][..i] == ids[..i];
      if id in db.documents && db.documents[id].tenantId == tenantId {
        out := out + [(id, db.documents[id])];
      }
      i := i + 1;
    }
    assert ids[..|ids|] == ids;
  }

  /** Every document `getMany` returns exists under its id, belongs to the tenant, and was asked for. */
  lemma {:induction false} VisibleAreInTenant(docs: map<DocId, Document>, ids: seq<DocId>, tenantId: string)
    ensures forall p :: p in Visible(docs, ids, tenantId) ==>
      p.0 in ids && p.0 in docs && docs[p.0] == p.1 && p.1.tenantId == tenantId
  {
    if ids != [] {
      VisibleAreInTenant(docs, ids[..|ids| - 1], tenantId);
    }
  }

  /** Every requested id that names a document of the tenant is in the result. */
  lemma {:induction false} VisibleComplete(docs: map<DocId, Document>, ids: seq<DocId>, tenantId: string)
    ensures forall id :: id in ids && id in docs && docs[id].tenantId == tenantId ==>
      (id, docs[id]) in Visible(docs, ids, tenantId)
  {
    if ids != [] {
      var init := ids[..|ids| - 1];
      VisibleComplete(docs, init, tenantId);
      assert ids == init + [ids[|ids| - 1]];
    }
  }

  /** The result is never longer than the request. */
  lemma {:induction false} VisibleLength(docs: map<DocId, Document>, ids: seq<DocId>, tenantId: string)
    ensures |Visible(docs, ids, tenantId)| <= |ids|
  {
    if ids != [] {
      VisibleLength(docs, ids[..|ids| - 1], tenantId);
    }
  }

  /**
   * Reading two id lists one after the other gives the two results one after
   * the other: input order is kept and a repeated id is answered each time.
   */
  lemma {:induction false} VisibleAppend(docs: map<DocId, Document>, a: seq<DocId>, b: seq<DocId>, tenantId: string)
    ensures Visible(docs, a + b, tenantId) == Visible(docs, a, tenantId) + Visible(docs, b, tenantId)
    decreases |b|
  {
    if b == [] {
      assert a + b == a;
    } else {
      var init := b[..|b| - 1];
      VisibleAppend(docs, a, init, tenantId);
      assert (a + b)[..|a + b| - 1] == a + init;
    }
  }
}
