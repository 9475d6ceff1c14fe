/** convex/chunks.ts: `getMany`, which keeps every chunk that exists and filters on nothing else. */
module Chunks {
  import opened Wrappers
  import opened Schema
  import Store

  /** What `getMany` returns: each id, in input order, that names a chunk, with that chunk. */
  function Present(chunks: map<ChunkId, Chunk>, ids: seq<ChunkId>): seq<(ChunkId, Chunk)> {
    if ids == [] then []
    else
      var id := ids[|ids| - 1];
      var before := Present(chunks, ids[..|ids| - 1]);
      if id in chunks then before + [(id, chunks[id])] else before
  }

  /** `getMany`: the loop that pushes each existing chunk onto `out`. */
  method GetMany(db: Store.Db, ids: seq<ChunkId>) returns (out: seq<(ChunkId, Chunk)>)
    ensures out == Present(db.chunks, ids)
  {
    out := [];
    var i := 0;
    while i < |ids|
      invariant 0 <= i <= |ids|
      invariant out == Present(db.chunks, ids[..i])
    {
      var id := ids[i];
      assert ids[..i + 1][..i] == ids[..i];
      if id in db.chunks {
        out := out + [(id, db.chunks[id])];
      }
      i := i + 1;
    }
    assert ids[..|ids|] == ids;
  }

  /** The arguments `getMany` declares: `ids`, which is required, and nothing else. */
  const GET_MANY_ARGS: set<string> := {"ids"}

  /**
   * Convex checks a call's arguments against the function's validator before
   * the handler runs: an object validator wants every required field it
   * declares and refuses any field it does not declare.
   */
  predicate ArgsAccepted(declared: set<string>, sent: set<string>) {
    sent == declared
  }

  /**
   * A call of `getMany` that sends the argument names `sent`: refused by
   * argument validation, without running the handler, or the handler's result.
   */
  method Call(db: Store.Db, sent: set<string>, ids: seq<ChunkId>) returns (r: Option<seq<(ChunkId, Chunk)>>)
    ensures r.Some? <==> sent == GET_MANY_ARGS
    ensures r.Some? ==> r.value == Present(db.chunks, ids)
  {
    if !ArgsAccepted(GET_MANY_ARGS, sent) {
      return None;
    }
    var out := GetMany(db, ids);
    return Some(out);
  }

  /** Every chunk returned exists under its id and was asked for. */
  lemma {:induction false} PresentAreStored(chunks: map<ChunkId, Chunk>, ids: seq<ChunkId>)
    ensures forall p :: p in Present(chunks, ids) ==> p.0 in ids && p.0 in chunks && chunks[p.0] == p.1
  {
    if ids != [] {
      PresentAreStored(chunks, ids[..|ids| - 1]);
    }
  }

  /**
   * Every requested id that names a chunk is answered, whatever the chunk's
   * tenant: `getMany` does no tenant filtering.
   */
  lemma {:induction false} PresentIgnoresTenant(chunks: map<ChunkId, Chunk>, ids: seq<ChunkId>)
    ensures forall id :: id in ids && id in chunks ==> (id, chunks[id]) in Present(chunks, ids)
  {
    if ids != [] {
      var init := ids[..|ids| - 1];
      PresentIgnoresTenant(chunks, init);
      assert ids == init + [ids[|ids| - 1]];
    }
  }

  /** The result is never longer than the request. */
  lemma {:induction false} PresentLength(chunks: map<ChunkId, Chunk>, ids: seq<ChunkId>)
    ensures |Present(chunks, ids)| <= |ids|
  {
    if ids != [] {
      PresentLength(chunks, ids[..|ids| - 1]);
    }
  }

  /** Input order is kept and a repeated id is answered each time. */
  lemma {:induction false} PresentAppend(chunks: map<ChunkId, Chunk>, a: seq<ChunkId>, b: seq<ChunkId>)
    ensures Present(chunks, a + b) == Present(chunks, a) + Present(chunks, b)
    decreases |b|
  {
    if b == [] {
      assert a + b == a;
    } else {
      var init := b[..|b| - 1];
      PresentAppend(chunks, a, init);
      assert (a + b)[..|a + b| - 1] == a + init;
    }
  }
}
