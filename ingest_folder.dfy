/**
 * scripts/ingest_folder.py: the paragraph chunker with overlap, the title and
 * text a data file yields, and `ingest_doc`. Reading files, walking the data
 * directory, the embeddings and the FAISS add are left to their collaborators.
 */
module IngestFolder {
  import opened Wrappers
  import opened Schema
  import opened Strings
  import opened Chunking
  import Store
  import Ingest
  import IngestScript

  /** The defaults of `chunk_text`. */
  const MAX_CHARS: int := 1200
  const OVERLAP_CHARS: int := 200

  /** The length `chunk_text` counts for a list of paragraphs: each paragraph plus 2 for its blank line. */
  function Cost(ps: seq<string>): int {
    if ps == [] then 0 else Cost(ps[..|ps| - 1]) + |ps[|ps| - 1]| + 2
  }

  lemma CostSnoc(ps: seq<string>, p: string)
    ensures Cost(ps + [p]) == Cost(ps) + |p| + 2
  {
    assert (ps + [p])[..|ps|] == ps;
  }

  lemma {:induction false} CostCons(p: string, ps: seq<string>)
    ensures Cost([p] + ps) == |p| + 2 + Cost(ps)
  {
    if ps != [] {
      var init := ps[..|ps| - 1];
      CostCons(p, init);
      assert ([p] + ps)[..|ps|] == [p] + init;
    }
  }

  /** Of a non-empty group, the count is the length of the joined chunk plus 2. */
  lemma {:induction false} CostIsChunkLength(g: seq<string>)
    requires g != []
    ensures Cost(g) == |Join(g, SEP)| + |SEP|
  {
    JoinedLenIsLength(g);
    if |g| > 1 {
      var init := g[..|g| - 1];
      CostIsChunkLength(init);
      JoinedLenIsLength(init);
    }
  }

  /**
   * The overlap that starts the next chunk: paragraphs taken from the end of
   * `cur` while each, with its 2, still fits in what is left of `budget`.
   */
  function Overlap(cur: seq<string>, budget: int): seq<string> {
    if cur == [] then []
    else
      var last := cur[|cur| - 1];
      if |last| + 2 > budget then [] else Overlap(cur[..|cur| - 1], budget - (|last| + 2)) + [last]
  }

  /** The overlap is a contiguous suffix of the chunk it comes from. */
  lemma {:induction false} OverlapIsSuffix(cur: seq<string>, budget: int)
    ensures |Overlap(cur, budget)| <= |cur|
    ensures Overlap(cur, budget) == cur[|cur| - |Overlap(cur, budget)|..]
  {
    if cur != [] && |cur[|cur| - 1]| + 2 <= budget {
      var init, last := cur[..|cur| - 1], cur[|cur| - 1];
      OverlapIsSuffix(init, budget - (|last| + 2));
      var r := Overlap(init, budget - (|last| + 2));
      assert cur[|cur| - |r| - 1..] == init[|init| - |r|..] + [last];
    }
  }

  /** The overlap fits in its budget. */
  lemma {:induction false} OverlapFits(cur: seq<string>, budget: int)
    ensures Overlap(cur, budget) == [] || Cost(Overlap(cur, budget)) <= budget
  {
    if cur != [] && |cur[|cur| - 1]| + 2 <= budget {
      var init, last := cur[..|cur| - 1], cur[|cur| - 1];
      OverlapFits(init, budget - (|last| + 2));
      CostSnoc(Overlap(init, budget - (|last| + 2)), last);
    }
  }

  /** The overlap is as long as it can be: either all of `cur`, or one more paragraph would not fit. */
  lemma {:induction false} OverlapMaximal(cur: seq<string>, budget: int)
    ensures |Overlap(cur, budget)| == |cur| ||
            (|Overlap(cur, budget)| < |cur| && Cost(cur[|cur| - |Overlap(cur, budget)| - 1..]) > budget)
  {
    OverlapIsSuffix(cur, budget);
    if cur != [] {
      var init, last := cur[..|cur| - 1], cur[|cur| - 1];
      if |last| + 2 > budget {
        assert cur[|cur| - 1..] == [] + [last];
        CostSnoc([], last);
      } else {
        var b := budget - (|last| + 2);
        OverlapMaximal(init, b);
        var r := Overlap(init, b);
        if |r| < |init| {
          assert cur[|cur| - |r| - 2..] == init[|init| - |r| - 1..] + [last];
          CostSnoc(init[|init| - |r| - 1..], last);
        }
      }
    }
  }

  /**
   * The inner loop of `chunk_text`: walks the chunk from its end, putting
   * each paragraph in front of the overlap while it fits, and stops at the
   * first that does not.
   */
  method TakeOverlap(cur: seq<string>, overlapChars: int) returns (ov: seq<string>, ovLen: int)
    ensures ov == Overlap(cur, overlapChars) && ovLen == Cost(ov)
  {
    ov, ovLen := [], 0;
    var k := |cur|;
    assert cur[..k] == cur && Overlap(cur, overlapChars) + [] == Overlap(cur, overlapChars);
    while k > 0 && ovLen + |cur[k - 1]| + 2 <= overlapChars
      invariant 0 <= k <= |cur|
      invariant ov == cur[k..] && ovLen == Cost(ov)
      invariant Overlap(cur, overlapChars) == Overlap(cur[..k], overlapChars - ovLen) + ov
    {
      var p := cur[k - 1];
      assert cur[..k][..k - 1] == cur[..k - 1];
      AppendAssoc(Overlap(cur[..k - 1], overlapChars - ovLen - (|p| + 2)), [p], ov);
      CostCons(p, ov);
      assert [p] + ov == cur[k - 1..];
      ov := [p] + ov;
      ovLen := ovLen + |p| + 2;
      k := k - 1;
    }
    assert ov + [] == ov;
  }

  /**
   * The chunker's state: the chunks closed so far with their paragraph
   * groups and, of each group, the paragraphs that were new in it (`added`,
   * the rest being the overlap); the paragraphs `cur` of the chunk being
   * collected, those of them that are new, and its running count `curLen`.
   */
  datatype Acc = Acc(chunks: seq<string>, groups: seq<seq<string>>, added: seq<seq<string>>,
                     cur: seq<string>, curAdded: seq<string>, curLen: int)

  /** One pass of the loop body on one paragraph. */
  function Step(a: Acc, para: string, maxChars: int, overlapChars: int): Acc {
    if a.cur != [] && a.curLen + |para| + 2 > maxChars then
      var ov := Overlap(a.cur, overlapChars);
      Acc(a.chunks + [Join(a.cur, SEP)], a.groups + [a.cur], a.added + [a.curAdded],
          ov + [para], [para], Cost(ov) + |para| + 2)
    else
      Acc(a.chunks, a.groups, a.added, a.cur + [para], a.curAdded + [para], a.curLen + |para| + 2)
  }

  /** The state after the loop has seen `paras`. */
  function Run(paras: seq<string>, maxChars: int, overlapChars: int): Acc {
    if paras == [] then Acc([], [], [], [], [], 0)
    else Step(Run(paras[..|paras| - 1], maxChars, overlapChars), paras[|paras| - 1], maxChars, overlapChars)
  }

  lemma RunStep(paras: seq<string>, i: nat, maxChars: int, overlapChars: int)
    requires i < |paras|
    ensures Run(paras[..i + 1], maxChars, overlapChars) ==
            Step(Run(paras[..i], maxChars, overlapChars), paras[i], maxChars, overlapChars)
  {
    assert paras[..i + 1][..i] == paras[..i];
  }

  /** After the loop: a non-empty current chunk becomes the last one. */
  function Close(a: Acc): Acc {
    if a.cur != [] then Acc(a.chunks + [Join(a.cur, SEP)], a.groups + [a.cur], a.added + [a.curAdded], [], [], 0)
    else a
  }

  /**
   * The loop of `chunk_text` over the paragraphs; it follows `Run` paragraph
   * by paragraph and ends as `Close` says.
   */
  method ChunkParagraphs(paras: seq<string>, maxChars: int, overlapChars: int)
    returns (chunks: seq<string>, ghost groups: seq<seq<string>>, ghost added: seq<seq<string>>)
    ensures chunks == Close(Run(paras, maxChars, overlapChars)).chunks
    ensures groups == Close(Run(paras, maxChars, overlapChars)).groups
    ensures added == Close(Run(paras, maxChars, overlapChars)).added
  {
    chunks, groups, added := [], [], [];
    var cur: seq<string> := [];
    ghost var curAdded: seq<string> := [];
    var curLen := 0;
    var i := 0;
    while i < |paras|
      invariant 0 <= i <= |paras|
      invariant Run(paras[..i], maxChars, overlapChars) == Acc(chunks, groups, added, cur, curAdded, curLen)
    {
      ghost var a := Acc(chunks, groups, added, cur, curAdded, curLen);
      RunStep(paras, i, maxChars, overlapChars);
      var para := paras[i];
      var paraLen := |para|;
      if cur != [] && curLen + paraLen + 2 > maxChars {
        chunks := chunks + [Join(cur, SEP)];
        groups, added := groups + [cur], added + [curAdded];
        var ov, ovLen := TakeOverlap(cur, overlapChars);
        cur, curLen := ov, ovLen;
        curAdded := [];
        assert curAdded + [para] == [para];
      }
      cur := cur + [para];
      curAdded := curAdded + [para];
      curLen := curLen + paraLen + 2;
      assert Run(paras[..i + 1], maxChars, overlapChars) == Acc(chunks, groups, added, cur, curAdded, curLen) by {
        assert Step(a, paras[i], maxChars, overlapChars) == Acc(chunks, groups, added, cur, curAdded, curLen);
      }
      i := i + 1;
    }
    assert paras[..i] == paras;
    if cur != [] {
      chunks := chunks + [Join(cur, SEP)];
      groups, added := groups + [cur], added + [curAdded];
    }
  }

  /** Each chunk is its group joined with blank lines. */
  ghost predicate Joined(chunks: seq<string>, groups: seq<seq<string>>) {
    |chunks| == |groups| && forall k :: 0 <= k < |chunks| ==> chunks[k] == Join(groups[k], SEP)
  }

  /**
   * The first group is all new; every later group is the overlap of the one
   * before it followed by its new paragraphs.
   */
  ghost predicate Linked(groups: seq<seq<string>>, added: seq<seq<string>>, overlapChars: int) {
    |groups| == |added| &&
    (groups != [] ==> groups[0] == added[0]) &&
    forall j, k :: 0 <= j && j + 1 == k < |groups| ==> groups[k] == Overlap(groups[j], overlapChars) + added[k]
  }

  /** Every chunk brings at least one new paragraph. */
  ghost predicate AddsSome(added: seq<seq<string>>) {
    forall k :: 0 <= k < |added| ==> added[k] != []
  }

  /** A group over the limit got only one new paragraph: the second would have closed it. */
  ghost predicate Fits(groups: seq<seq<string>>, added: seq<seq<string>>, maxChars: int) {
    |groups| == |added| &&
    forall k :: 0 <= k < |groups| && |added[k]| > 1 ==> Cost(groups[k]) <= maxChars
  }

  /** A chunk was closed only because the next new paragraph did not fit after it. */
  ghost predicate Maximal(groups: seq<seq<string>>, added: seq<seq<string>>, maxChars: int) {
    |groups| == |added| &&
    forall j, k :: 0 <= j && j + 1 == k < |groups| && added[k] != [] ==> Cost(groups[j]) + |added[k][0]| + 2 > maxChars
  }

  ghost predicate Chain(groups: seq<seq<string>>, added: seq<seq<string>>, maxChars: int, overlapChars: int) {
    Linked(groups, added, overlapChars) && AddsSome(added) && Fits(groups, added, maxChars) &&
    Maximal(groups, added, maxChars)
  }

  /**
   * The loop's invariant after the paragraphs `done`: the running count, and
   * the closed groups followed by the current one form a chain whose new
   * paragraphs are exactly `done`.
   */
  ghost predicate Collecting(done: seq<string>, a: Acc, maxChars: int, overlapChars: int) {
    if done == [] then a == Acc([], [], [], [], [], 0)
    else
      a.cur != [] && a.curLen == Cost(a.cur) && Joined(a.chunks, a.groups) &&
      Chain(a.groups + [a.cur], a.added + [a.curAdded], maxChars, overlapChars) &&
      Concat(a.added + [a.curAdded]) == done
  }

  lemma JoinedSnoc(chunks: seq<string>, groups: seq<seq<string>>, g: seq<string>)
    requires Joined(chunks, groups)
    ensures Joined(chunks + [Join(g, SEP)], groups + [g])
  {
    var cs, gs := chunks + [Join(g, SEP)], groups + [g];
    assert forall k :: 0 <= k < |chunks| ==> cs[k] == chunks[k] && gs[k] == groups[k];
  }

  /** The first paragraph starts the first chunk. */
  lemma First(para: string, maxChars: int, overlapChars: int)
    ensures Collecting([para], Acc([], [], [], [para], [para], |para| + 2), maxChars, overlapChars)
  {
    CostSnoc([], para);
    assert [] + [para] == [para];
    ConcatSnoc([], [para]);
  }

  /** A paragraph that fits is added to the current chunk. */
  lemma Extend(done: seq<string>, para: string, a: Acc, maxChars: int, overlapChars: int)
    requires done != [] && Collecting(done, a, maxChars, overlapChars)
    requires a.curLen + |para| + 2 <= maxChars
    ensures Collecting(done + [para], Acc(a.chunks, a.groups, a.added, a.cur + [para], a.curAdded + [para],
                                          a.curLen + |para| + 2), maxChars, overlapChars)
  {
    CostSnoc(a.cur, para);
    ChainExtend(a.groups, a.added, a.cur, a.curAdded, para, maxChars, overlapChars);
    ConcatSnoc(a.added, a.curAdded);
    ConcatSnoc(a.added, a.curAdded + [para]);
  }

  /** A paragraph that does not fit closes the chunk and starts the next after the overlap. */
  lemma Flush(done: seq<string>, para: string, a: Acc, maxChars: int, overlapChars: int)
    requires done != [] && Collecting(done, a, maxChars, overlapChars)
    requires a.curLen + |para| + 2 > maxChars
    ensures Collecting(done + [para],
                       Acc(a.chunks + [Join(a.cur, SEP)], a.groups + [a.cur], a.added + [a.curAdded],
                           Overlap(a.cur, overlapChars) + [para], [para],
                           Cost(Overlap(a.cur, overlapChars)) + |para| + 2), maxChars, overlapChars)
  {
    CostSnoc(Overlap(a.cur, overlapChars), para);
    JoinedSnoc(a.chunks, a.groups, a.cur);
    ChainFlush(a.groups + [a.cur], a.added + [a.curAdded], para, maxChars, overlapChars);
    ConcatSnoc(a.added + [a.curAdded], [para]);
  }

  /** Adding a paragraph that fits to the last group keeps the chain. */
  lemma ChainExtend(gs: seq<seq<string>>, ads: seq<seq<string>>, g: seq<string>, f: seq<string>, para: string,
                    maxChars: int, overlapChars: int)
    requires Chain(gs + [g], ads + [f], maxChars, overlapChars)
    requires Cost(g) + |para| + 2 <= maxChars
    ensures Chain(gs + [g + [para]], ads + [f + [para]], maxChars, overlapChars)
  {
    LinkedExtend(gs, ads, g, f, para, overlapChars);
    CostSnoc(g, para);
    FitsExtend(gs, ads, g, f, para, maxChars);
    assert (ads + [f])[|ads|] == f;
    MaximalExtend(gs, ads, g, f, para, maxChars);
    AddsSomeExtend(ads, f, para);
  }

  lemma AddsSomeExtend(ads: seq<seq<string>>, f: seq<string>, para: string)
    requires AddsSome(ads + [f])
    ensures AddsSome(ads + [f + [para]])
  {
    var f0, f1 := ads + [f], ads + [f + [para]];
    assert forall k :: 0 <= k < |ads| ==> f1[k] == f0[k];
  }

  lemma LinkedExtend(gs: seq<seq<string>>, ads: seq<seq<string>>, g: seq<string>, f: seq<string>, para: string,
                     overlapChars: int)
    requires Linked(gs + [g], ads + [f], overlapChars)
    ensures Linked(gs + [g + [para]], ads + [f + [para]], overlapChars)
  {
    var g0, f0, g1, f1 := gs + [g], ads + [f], gs + [g + [para]], ads + [f + [para]];
    assert forall k :: 0 <= k < |gs| ==> g1[k] == g0[k] && f1[k] == f0[k];
    if gs != [] {
      assert g == Overlap(gs[|gs| - 1], overlapChars) + f by {
        assert g0[|gs| - 1] == gs[|gs| - 1] && g0[|gs|] == g && f0[|gs|] == f;
      }
      AppendAssoc(Overlap(gs[|gs| - 1], overlapChars), f, [para]);
    }
  }

  lemma FitsExtend(gs: seq<seq<string>>, ads: seq<seq<string>>, g: seq<string>, f: seq<string>, para: string,
                   maxChars: int)
    requires Fits(gs + [g], ads + [f], maxChars)
    requires Cost(g + [para]) <= maxChars
    ensures Fits(gs + [g + [para]], ads + [f + [para]], maxChars)
  {
    var g0, f0, g1, f1 := gs + [g], ads + [f], gs + [g + [para]], ads + [f + [para]];
    assert forall k :: 0 <= k < |gs| ==> g1[k] == g0[k] && f1[k] == f0[k];
  }

  lemma MaximalExtend(gs: seq<seq<string>>, ads: seq<seq<string>>, g: seq<string>, f: seq<string>, para: string,
                      maxChars: int)
    requires Maximal(gs + [g], ads + [f], maxChars) && (gs != [] ==> f != [])
    ensures Maximal(gs + [g + [para]], ads + [f + [para]], maxChars)
  {
    var g0, f0, g1, f1 := gs + [g], ads + [f], gs + [g + [para]], ads + [f + [para]];
    assert forall k :: 0 <= k < |gs| ==> g1[k] == g0[k] && f1[k] == f0[k];
    if gs != [] {
      assert f0[|gs|] == f && f1[|gs|][0] == f[0];
    }
  }

  /** Closing the last group and starting one from its overlap and the next paragraph keeps the chain. */
  lemma ChainFlush(gs: seq<seq<string>>, ads: seq<seq<string>>, para: string, maxChars: int, overlapChars: int)
    requires gs != [] && Chain(gs, ads, maxChars, overlapChars)
    requires Cost(gs[|gs| - 1]) + |para| + 2 > maxChars
    ensures Chain(gs + [Overlap(gs[|gs| - 1], overlapChars) + [para]], ads + [[para]], maxChars, overlapChars)
  {
    var g1, f1 := gs + [Overlap(gs[|gs| - 1], overlapChars) + [para]], ads + [[para]];
    assert forall k :: 0 <= k < |gs| ==> g1[k] == gs[k] && f1[k] == ads[k];
  }

  /** Every state the loop reaches satisfies its invariant. */
  lemma {:induction false} RunCollecting(paras: seq<string>, maxChars: int, overlapChars: int)
    ensures Collecting(paras, Run(paras, maxChars, overlapChars), maxChars, overlapChars)
  {
    if paras != [] {
      var done, para := paras[..|paras| - 1], paras[|paras| - 1];
      assert done + [para] == paras;
      RunCollecting(done, maxChars, overlapChars);
      var a := Run(done, maxChars, overlapChars);
      if done == [] {
        First(para, maxChars, overlapChars);
      } else if a.curLen + |para| + 2 > maxChars {
        Flush(done, para, a, maxChars, overlapChars);
      } else {
        Extend(done, para, a, maxChars, overlapChars);
      }
    }
  }

  /** What the whole loop and the final flush produce from `paras`. */
  ghost predicate Chunked(paras: seq<string>, chunks: seq<string>, groups: seq<seq<string>>, added: seq<seq<string>>,
                          maxChars: int, overlapChars: int) {
    Joined(chunks, groups) && Chain(groups, added, maxChars, overlapChars) && Concat(added) == paras
  }

  lemma RunChunked(paras: seq<string>, maxChars: int, overlapChars: int)
    requires paras != []
    ensures Chunked(paras, Close(Run(paras, maxChars, overlapChars)).chunks, Close(Run(paras, maxChars, overlapChars)).groups,
                    Close(Run(paras, maxChars, overlapChars)).added, maxChars, overlapChars)
  {
    RunCollecting(paras, maxChars, overlapChars);
    var a := Run(paras, maxChars, overlapChars);
    JoinedSnoc(a.chunks, a.groups, a.cur);
  }

  /** What `chunk_text(text, max_chars, overlap_chars)` returns: the loop over the paragraphs, then the final flush. */
  function ChunksOf(text: string, maxChars: int, overlapChars: int): seq<string> {
    Close(Run(Paragraphs(text), maxChars, overlapChars)).chunks
  }

  /**
   * `chunk_text` with overlap. `groups[k]` are the paragraphs of chunk k and
   * `added[k]` those of them that chunk k added: the first chunk is all new,
   * every later one starts with the overlap of the one before. The counts are
   * `Cost`, which is the chunk's length plus 2 (`CostIsChunkLength`).
   */
  method ChunkText(text: string, maxChars: int, overlapChars: int)
    returns (chunks: seq<string>, ghost groups: seq<seq<string>>, ghost added: seq<seq<string>>)
    ensures chunks == ChunksOf(text, maxChars, overlapChars)
    ensures chunks == [] <==> Paragraphs(text) == []
    ensures |groups| == |chunks| && |added| == |chunks|
    ensures forall k :: 0 <= k < |chunks| ==> chunks[k] == Join(groups[k], SEP)
    // the new paragraphs, chunk after chunk, are the paragraphs of the text
    ensures Concat(added) == Paragraphs(text)
    ensures forall k :: 0 <= k < |chunks| ==> added[k] != []
    ensures chunks != [] ==> groups[0] == added[0]
    ensures forall j, k :: 0 <= j && j + 1 == k < |chunks| ==> groups[k] == Overlap(groups[j], overlapChars) + added[k]
    // a paragraph is added to a chunk only while it fits ...
    ensures forall k :: 0 <= k < |chunks| && |added[k]| > 1 ==> Cost(groups[k]) <= maxChars
    // ... and a chunk is closed only when the next paragraph does not
    ensures forall j, k :: 0 <= j && j + 1 == k < |chunks| && added[k] != [] ==>
      Cost(groups[j]) + |added[k][0]| + 2 > maxChars
    // every paragraph is in some chunk, and every chunk splits into paragraphs of the text
    ensures Covers(text, chunks)
  {
    var paragraphs := Paragraphs(text);
    if paragraphs == [] {
      return [], [], [];
    }
    chunks, groups, added := ChunkParagraphs(paragraphs, maxChars, overlapChars);
    RunChunked(paragraphs, maxChars, overlapChars);
    ChunksCoverText(text, chunks, groups, added, overlapChars);
  }

  predicate EndsWith(s: string, t: string) {
    |t| <= |s| && s[|s| - |t|..] == t
  }

  /** A paragraph of the concatenation comes from one of its parts. */
  lemma {:induction false} InConcatSome(added: seq<seq<string>>, p: string)
    requires p in Concat(added)
    ensures exists k :: 0 <= k < |added| && p in added[k]
  {
    var init := added[..|added| - 1];
    if p !in added[|added| - 1] {
      InConcatSome(init, p);
      var k :| 0 <= k < |init| && p in init[k];
      assert added[k] == init[k];
    }
  }

  /** Every group ends with the paragraphs it added. */
  lemma GroupEndsWithAdded(groups: seq<seq<string>>, added: seq<seq<string>>, overlapChars: int, k: nat)
    requires Linked(groups, added, overlapChars) && k < |groups|
    ensures |added[k]| <= |groups[k]| && groups[k] == groups[k][..|groups[k]| - |added[k]|] + added[k]
  {
    if k > 0 {
      var j := k - 1;
      assert groups[j + 1] == Overlap(groups[j], overlapChars) + added[j + 1];
    } else {
      assert groups[0][..0] == [];
    }
  }

  /** Every paragraph of the text is in some chunk. */
  lemma EveryParagraphChunked(text: string, groups: seq<seq<string>>, added: seq<seq<string>>, overlapChars: int)
    requires Linked(groups, added, overlapChars) && Concat(added) == Paragraphs(text)
    ensures forall p :: p in Paragraphs(text) ==> exists k :: 0 <= k < |groups| && p in groups[k]
  {
    forall p | p in Paragraphs(text) ensures exists k :: 0 <= k < |groups| && p in groups[k] {
      InConcatSome(added, p);
      var k :| 0 <= k < |added| && p in added[k];
      GroupEndsWithAdded(groups, added, overlapChars, k);
      assert p in groups[k];
    }
  }

  /** The last chunk ends with the last paragraph of the text. */
  lemma LastChunkEndsWithLastParagraph(text: string, chunks: seq<string>, groups: seq<seq<string>>,
                                       added: seq<seq<string>>, overlapChars: int)
    requires chunks != [] && Joined(chunks, groups) && Linked(groups, added, overlapChars) && AddsSome(added)
    requires Concat(added) == Paragraphs(text)
    ensures Paragraphs(text) != [] && EndsWith(chunks[|chunks| - 1], Paragraphs(text)[|Paragraphs(text)| - 1])
  {
    var n := |chunks| - 1;
    ConcatLast(added);
    GroupEndsWithAdded(groups, added, overlapChars, n);
    var g, a := groups[n], added[n];
    assert g[|g| - 1] == a[|a| - 1];
    JoinEndsWithLast(g);
  }

  lemma ConcatLast(added: seq<seq<string>>)
    requires added != [] && added[|added| - 1] != []
    ensures Concat(added) != [] && Concat(added)[|Concat(added)| - 1] == added[|added| - 1][|added[|added| - 1]| - 1]
  {
    var n := |added| - 1;
    assert Concat(added) == Concat(added[..n]) + added[n];
  }

  lemma JoinEndsWithLast(g: seq<string>)
    requires g != []
    ensures EndsWith(Join(g, SEP), g[|g| - 1])
  {
    var last := g[|g| - 1];
    if |g| > 1 {
      JoinLast(g);
      EndsWithAppend(Join(g[..|g| - 1], SEP) + SEP, last);
    } else {
      assert Join(g, SEP) == last;
      assert last[|last| - |last|..] == last;
    }
  }

  lemma JoinLast(g: seq<string>)
    requires |g| > 1
    ensures Join(g, SEP) == Join(g[..|g| - 1], SEP) + SEP + g[|g| - 1]
  {
    assert g[..|g| - 1] + [g[|g| - 1]] == g;
    JoinSnoc(g[..|g| - 1], g[|g| - 1], SEP);
  }

  lemma EndsWithAppend(front: string, last: string)
    ensures EndsWith(front + last, last)
  {
    assert (front + last)[|front|..] == last;
  }

  /** Every paragraph of a group is a paragraph of the text. */
  lemma {:induction false} GroupOfParagraphs(text: string, groups: seq<seq<string>>, added: seq<seq<string>>,
                                             overlapChars: int, k: nat, p: string)
    requires Linked(groups, added, overlapChars) && Concat(added) == Paragraphs(text)
    requires k < |groups| && p in groups[k]
    ensures p in Paragraphs(text)
    decreases k
  {
    GroupEndsWithAdded(groups, added, overlapChars, k);
    if p in added[k] {
      InConcat(added, k, p);
    } else {
      var j := k - 1;
      var ov := Overlap(groups[j], overlapChars);
      assert groups[j + 1] == ov + added[j + 1];
      assert p in ov;
      OverlapIsSuffix(groups[j], overlapChars);
      assert p in groups[j];
      GroupOfParagraphs(text, groups, added, overlapChars, j, p);
    }
  }

  /** Each chunk, split on blank lines, gives back its paragraphs, overlap included. */
  lemma ChunksSplitBack(text: string, chunks: seq<string>, groups: seq<seq<string>>, added: seq<seq<string>>,
                        overlapChars: int)
    requires Joined(chunks, groups) && Linked(groups, added, overlapChars) && AddsSome(added)
    requires Concat(added) == Paragraphs(text)
    ensures IngestScript.SplitEach(chunks) == groups
  {
    forall k | 0 <= k < |chunks| ensures SplitOn(chunks[k], SEP) == groups[k] {
      forall p | p in groups[k] ensures p in Paragraphs(text) {
        GroupOfParagraphs(text, groups, added, overlapChars, k, p);
      }
      GroupEndsWithAdded(groups, added, overlapChars, k);
      SplitGroup(text, groups[k]);
    }
    IngestScript.SplitEachIs(chunks, groups);
  }

  /** Splitting the chunks on blank lines gives exactly the paragraphs of the text, each at least once. */
  ghost predicate Covers(text: string, chunks: seq<string>) {
    (forall p :: p in Paragraphs(text) ==> exists k :: 0 <= k < |chunks| && p in SplitOn(chunks[k], SEP)) &&
    (forall k, p :: 0 <= k < |chunks| && p in SplitOn(chunks[k], SEP) ==> p in Paragraphs(text))
  }

  lemma ChunksCoverText(text: string, chunks: seq<string>, groups: seq<seq<string>>, added: seq<seq<string>>,
                        overlapChars: int)
    requires Joined(chunks, groups) && Linked(groups, added, overlapChars) && AddsSome(added)
    requires Concat(added) == Paragraphs(text)
    ensures Covers(text, chunks)
  {
    ChunksSplitBack(text, chunks, groups, added, overlapChars);
    EveryParagraphChunked(text, groups, added, overlapChars);
    forall k, p | 0 <= k < |chunks| && p in SplitOn(chunks[k], SEP) ensures p in Paragraphs(text) {
      assert SplitOn(chunks[k], SEP) == IngestScript.SplitEach(chunks)[k];
      GroupOfParagraphs(text, groups, added, overlapChars, k, p);
    }
    forall p | p in Paragraphs(text) ensures exists k :: 0 <= k < |chunks| && p in SplitOn(chunks[k], SEP) {
      var k :| 0 <= k < |groups| && p in groups[k];
      assert SplitOn(chunks[k], SEP) == IngestScript.SplitEach(chunks)[k];
    }
  }

  // ---------------------------------------------------------------------------
  // From a data file to a title and a text (`parse_file_to_text`)
  // ---------------------------------------------------------------------------

  /** `s.rfind(c)`: the last index of `c` in `s`, or -1. */
  function LastIndex(s: string, c: char): (r: int)
    ensures -1 <= r < |s|
    ensures r >= 0 ==> s[r] == c
  {
    if s == [] then -1
    else if s[|s| - 1] == c then |s| - 1
    else LastIndex(s[..|s| - 1], c)
  }

  /** No later character is `c`. */
  lemma {:induction false} LastIndexIsLast(s: string, c: char)
    ensures forall i :: LastIndex(s, c) < i < |s| ==> s[i] != c
  {
    if s != [] && s[|s| - 1] != c {
      LastIndexIsLast(s[..|s| - 1], c);
    }
  }

  lemma {:induction false} LastIndexAppend(s: string, t: string, c: char)
    requires c !in t
    ensures LastIndex(s + t, c) == LastIndex(s, c)
  {
    if t != [] {
      var init := t[..|t| - 1];
      assert (s + t)[..|s + t| - 1] == s + init;
      assert (s + t)[|s + t| - 1] == t[|t| - 1] && t[|t| - 1] in t;
      assert c !in init by {
        assert forall x :: x in init ==> x in t;
      }
      LastIndexAppend(s, init, c);
    } else {
      assert s + t == s;
    }
  }

  /** `os.path.basename`: what follows the last "/". */
  function Basename(path: string): (name: string)
    ensures '/' !in name && EndsWith(path, name)
    ensures '/' !in path ==> name == path
  {
    var k := LastIndex(path, '/') + 1;
    NoneAfterLast(path, '/', k);
    assert |path| - |path[k..]| == k;
    assert '/' !in path ==> k == 0;
    path[k..]
  }

  /** Whether some character is not a dot. */
  predicate HasNonDot(s: string) {
    exists i :: 0 <= i < |s| && s[i] != '.'
  }

  /**
   * `os.path.splitext`: the extension runs from the last dot of the last
   * path component, unless only dots come before that dot in the component
   * (".bashrc" has none).
   */
  function SplitExt(path: string): (r: (string, string))
    ensures r.0 + r.1 == path
    ensures r.1 == [] || (r.1[0] == '.' && '.' !in r.1[1..] && '/' !in r.1)
  {
    var sepIndex := LastIndex(path, '/');
    var dotIndex := LastIndex(path, '.');
    if dotIndex > sepIndex && HasNonDot(path[sepIndex + 1..dotIndex]) then
      ExtensionShape(path, dotIndex);
      (path[..dotIndex], path[dotIndex..])
    else (path, [])
  }

  /** From the last dot, which follows the last "/", on: a dot, then neither a dot nor a "/". */
  lemma ExtensionShape(path: string, dotIndex: int)
    requires 0 <= dotIndex == LastIndex(path, '.') && LastIndex(path, '/') < dotIndex
    ensures path[dotIndex..] != [] && path[dotIndex..][0] == '.'
    ensures '.' !in path[dotIndex..][1..] && '/' !in path[dotIndex..]
  {
    NoneAfterLast(path, '.', dotIndex + 1);
    NoneAfterLast(path, '/', dotIndex);
    assert path[dotIndex..][1..] == path[dotIndex + 1..];
  }

  lemma NoneAfterLast(s: string, c: char, lo: int)
    requires LastIndex(s, c) < lo <= |s|
    ensures c !in s[lo..]
  {
    LastIndexIsLast(s, c);
    assert forall i :: 0 <= i < |s| - lo ==> s[lo..][i] == s[lo + i];
  }

  /** The stem and extension of a file name in a directory, or of a bare one. */
  lemma SplitExtOf(path: string, front: string, stem: string, e: string)
    requires path == front + stem + "." + e
    requires front == [] || front[|front| - 1] == '/'
    requires '/' !in stem && HasNonDot(stem) && '.' !in e && '/' !in e
    ensures SplitExt(path) == (front + stem, "." + e)
  {
    var a := front + stem;
    var b := a + ".";
    assert path == b + e;
    LastIndexAppend(b, e, '.');
    assert LastIndex(b, '.') == |a|;
    LastIndexAppend(b, e, '/');
    LastIndexAppend(a, ".", '/');
    LastIndexAppend(front, stem, '/');
    assert LastIndex(front, '/') == |front| - 1;
    SliceOfConcat(front, stem, "." + e);
    assert path == front + stem + ("." + e);
  }

  lemma SliceOfConcat(x: string, y: string, z: string)
    ensures (x + y + z)[|x|..|x| + |y|] == y
    ensures (x + y + z)[..|x| + |y|] == x + y && (x + y + z)[|x| + |y|..] == z
  {
    var s := x + y + z;
    assert forall i :: 0 <= i < |y| ==> s[|x| + i] == y[i];
  }

  /** Replaces every "_" by a space. */
  function UnderscoresToSpaces(s: string): (r: string)
    ensures |r| == |s| && '_' !in r
    ensures forall i :: 0 <= i < |s| && s[i] != '_' ==> r[i] == s[i]
  {
    seq(|s|, i requires 0 <= i < |s| => if s[i] == '_' then ' ' else s[i])
  }

  /** The title of a file: its name without the extension, "_" read as a space. */
  function Title(path: string): string {
    UnderscoresToSpaces(SplitExt(Basename(path)).0)
  }

  /** The extension that picks the parser, lower-cased. */
  function Extension(path: string): string {
    LowerAscii(SplitExt(path).1)
  }

  /** A file `dir/stem.e` is titled by its stem and parsed by its extension. */
  lemma TitleAndExtension(dir: string, stem: string, e: string)
    requires '/' !in stem && HasNonDot(stem) && '.' !in e && '/' !in e
    ensures Title(dir + "/" + stem + "." + e) == UnderscoresToSpaces(stem)
    ensures Extension(dir + "/" + stem + "." + e) == LowerAscii("." + e)
  {
    var path := dir + "/" + stem + "." + e;
    var name := stem + "." + e;
    ConcatAssoc(dir + "/", stem, ".", e);
    BasenameOf(path, dir, name);
    assert [] + stem == stem;
    SplitExtOf(name, [], stem, e);
    assert Title(path) == UnderscoresToSpaces(stem);
    SplitExtOf(path, dir + "/", stem, e);
  }

  lemma ConcatAssoc(a: string, b: string, c: string, d: string)
    ensures a + b + c + d == a + (b + c + d)
  {
  }

  lemma BasenameOf(path: string, dir: string, name: string)
    requires path == dir + "/" + name && '/' !in name
    ensures Basename(path) == name
  {
    LastIndexAppend(dir + "/", name, '/');
    assert LastIndex(dir + "/", '/') == |dir|;
    assert path == (dir + "/") + name;
    assert path[|dir| + 1..] == name;
  }

  /** One Slack message: `user` and `text` as far as they are present. */
  datatype Message = Message(user: Option<string>, text: Option<string>)

  /**
   * A JSON file: a Slack export is an object with a "messages" key (and
   * maybe a "channel"); anything else is rendered back by `json.dumps`,
   * whose output is given.
   */
  datatype Json = SlackExport(channel: Option<string>, messages: seq<Message>) | OtherJson(dumped: string)

  function ChannelLine(channel: Option<string>): string {
    "Channel: " + channel.GetOr("unknown")
  }

  function MessageLine(m: Message): string {
    m.user.GetOr("?") + ": " + m.text.GetOr("")
  }

  /** The lines of a Slack export: the channel, then one line per message, in order. */
  function SlackLines(channel: Option<string>, messages: seq<Message>): (lines: seq<string>)
    ensures |lines| == |messages| + 1 && lines[0] == ChannelLine(channel)
    ensures forall i :: 0 <= i < |messages| ==> lines[i + 1] == MessageLine(messages[i])
  {
    if messages == [] then [ChannelLine(channel)]
    else SlackLines(channel, messages[..|messages| - 1]) + [MessageLine(messages[|messages| - 1])]
  }

  /** The loop that renders a Slack export, one line per message, joined with newlines. */
  method SlackText(channel: Option<string>, messages: seq<Message>) returns (text: string)
    ensures text == Join(SlackLines(channel, messages), "\n")
  {
    var lines := [ChannelLine(channel)];
    var i := 0;
    while i < |messages|
      invariant 0 <= i <= |messages|
      invariant lines == SlackLines(channel, messages[..i])
    {
      assert messages[..i + 1][..i] == messages[..i];
      lines := lines + [MessageLine(messages[i])];
      i := i + 1;
    }
    assert messages[..i] == messages;
    text := Join(lines, "\n");
  }

  /** No field of the export holds a newline. */
  predicate OneLineFields(channel: Option<string>, messages: seq<Message>) {
    (channel.Some? ==> '\n' !in channel.value) &&
    forall m :: m in messages ==> (m.user.Some? ==> '\n' !in m.user.value) && (m.text.Some? ==> '\n' !in m.text.value)
  }

  lemma NoNewlineSepOnlyAtEnd(p: string)
    requires '\n' !in p
    ensures SepOnlyAtEnd(p, "\n")
  {
    var s := p + "\n";
    forall k | 0 <= k < |p| ensures !OccursAt(s, "\n", k) {
      assert s[k] == p[k];
    }
    assert OccursAt(s, "\n", |p|);
    IndexOfIs(s, "\n", |p|);
  }

  /** When no field holds a newline, the text splits back into exactly its lines. */
  lemma SlackTextLines(channel: Option<string>, messages: seq<Message>)
    requires OneLineFields(channel, messages)
    ensures SplitOn(Join(SlackLines(channel, messages), "\n"), "\n") == SlackLines(channel, messages)
  {
    var lines := SlackLines(channel, messages);
    forall l | l in lines ensures SepOnlyAtEnd(l, "\n") {
      var i :| 0 <= i < |lines| && lines[i] == l;
      if i == 0 {
        assert l == "Channel: " + channel.GetOr("unknown");
      } else {
        var m := messages[i - 1];
        assert m in messages;
        assert l == m.user.GetOr("?") + ": " + m.text.GetOr("");
      }
      NoNewlineSepOnlyAtEnd(l);
    }
    SplitJoin(lines, "\n");
  }

  /**
   * What the readers give for a file: the text of a ".md" or ".txt" file, the
   * parsed JSON of a ".json" file, and the text a document parser extracted
   * (none when the parser is not installed or failed).
   */
  datatype FileInput = FileInput(contents: string, json: Json, extracted: Option<string>)

  /** How `parse_file_to_text` reads a file, by its extension. */
  datatype FileKind = PlainText | SlackJson | DocumentFile | Unsupported

  function KindOf(ext: string): FileKind {
    if ext in [".md", ".txt"] then PlainText
    else if ext == ".json" then SlackJson
    else if ext in [".pdf", ".pptx", ".xlsx", ".xls"] then DocumentFile
    else Unsupported
  }

  /** What `parse_file_to_text` gives for a file: a title and a text, or nothing for a file it skips. */
  function Parsed(path: string, input: FileInput): Option<(string, string)> {
    match KindOf(Extension(path))
    case PlainText => Some((Title(path), input.contents))
    case SlackJson =>
      (match input.json
       case SlackExport(channel, messages) => Some((Title(path), Join(SlackLines(channel, messages), "\n")))
       case OtherJson(dumped) => Some((Title(path), dumped)))
    case DocumentFile => if input.extracted.Some? then Some((Title(path), input.extracted.value)) else None
    case Unsupported => None
  }

  /** `parse_file_to_text`, whose Slack branch renders the export line by line. */
  method ParseFileToText(path: string, input: FileInput) returns (r: Option<(string, string)>)
    ensures r == Parsed(path, input)
    ensures r.Some? ==> r.value.0 == Title(path)
    ensures KindOf(Extension(path)) == PlainText ==> r == Some((Title(path), input.contents))
    ensures KindOf(Extension(path)) == SlackJson && input.json.SlackExport? ==>
      r == Some((Title(path), Join(SlackLines(input.json.channel, input.json.messages), "\n")))
    ensures KindOf(Extension(path)) == SlackJson && input.json.OtherJson? ==> r == Some((Title(path), input.json.dumped))
    ensures KindOf(Extension(path)) == DocumentFile ==>
      r == if input.extracted.Some? then Some((Title(path), input.extracted.value)) else None
    ensures KindOf(Extension(path)) == Unsupported ==> r == None
  {
    var title := Title(path);
    var ext := Extension(path);
    if ext in [".md", ".txt"] {
      return Some((title, input.contents));
    }
    if ext == ".json" {
      match input.json
      case SlackExport(channel, messages) =>
        var text := SlackText(channel, messages);
        return Some((title, text));
      case OtherJson(dumped) =>
        return Some((title, dumped));
    }
    if ext in [".pdf", ".pptx", ".xlsx", ".xls"] {
      if input.extracted.None? {
        return None;
      }
      return Some((title, input.extracted.value));
    }
    return None;
  }

  predicate Hidden(fileName: string) {
    fileName != [] && fileName[0] == '.'
  }

  /**
   * The title and text `main` ingests for a file: none for a hidden file, one
   * the parser skips, or a text that is blank once stripped.
   */
  function Ingestible(fileName: string, path: string, input: FileInput): (r: Option<(string, string)>)
    ensures r.Some? <==> !Hidden(fileName) && Parsed(path, input).Some? && !AllSpace(Parsed(path, input).value.1)
    ensures r.Some? ==> r == Parsed(path, input)
    ensures r.Some? ==> r.value.0 == Title(path) && Paragraphs(r.value.1) != []
  {
    if Hidden(fileName) then None else NonBlank(Parsed(path, input))
  }

  /** `if not text.strip(): continue`: a parse result whose text is blank once stripped is dropped. */
  function NonBlank(parsed: Option<(string, string)>): (r: Option<(string, string)>)
    ensures r.Some? <==> parsed.Some? && !AllSpace(parsed.value.1)
    ensures r.Some? ==> r == parsed && Paragraphs(r.value.1) != []
  {
    if parsed.None? then None
    else
      StripAllSpace(parsed.value.1);
      BlankTextHasNoParagraphs(parsed.value.1);
      if Strip(parsed.value.1) == [] then None else parsed
  }

  /**
   * What `main` requires of each file: hidden files and files that give
   * no text are skipped, and so is a text that is blank once stripped.
   */
  method FileToIngest(fileName: string, path: string, input: FileInput) returns (r: Option<(string, string)>)
    ensures r == Ingestible(fileName, path, input)
    ensures fileName != [] && fileName[0] == '.' ==> r == None
    ensures r.Some? ==> r.value.0 == Title(path) && Paragraphs(r.value.1) != []
    ensures !(fileName != [] && fileName[0] == '.') && KindOf(Extension(path)) == PlainText ==>
      (r.Some? <==> !AllSpace(input.contents)) && (r.Some? ==> r.value.1 == input.contents)
  {
    if fileName != [] && fileName[0] == '.' {
      return None;
    }
    var parsed := ParseFileToText(path, input);
    if parsed.None? {
      return None;
    }
    var text := parsed.value.1;
    if Strip(text) == [] {
      StripAllSpace(text);
      return None;
    }
    StripAllSpace(text);
    BlankTextHasNoParagraphs(text);
    return parsed;
  }

  /**
   * `ingest_doc` of the folder script: the document is always stored, then the
   * overlapping chunks of its text, chunk i with index i. Every paragraph of the
   * text lies in some stored chunk, and splitting a chunk on blank lines gives
   * back its paragraphs.
   */
  method IngestDoc(db: Store.Db, tenantId: string, sourceKey: string, title: string, rawText: string,
                   sourceUrl: Option<string>)
    returns (docId: DocId, pieces: seq<string>, chunkIds: seq<ChunkId>)
    requires db.Valid()
    modifies db
    ensures db.Valid()
    ensures docId !in old(db.documents)
    ensures db.documents ==
      old(db.documents)[docId := IngestScript.DocumentArgs(tenantId, sourceKey, title, rawText, sourceUrl)]
    ensures pieces == ChunksOf(rawText, MAX_CHARS, OVERLAP_CHARS)
    ensures pieces == [] <==> Paragraphs(rawText) == []
    ensures Covers(rawText, pieces)
    ensures |chunkIds| == |pieces|
    ensures forall k :: 0 <= k < |chunkIds| ==>
      chunkIds[k] !in old(db.chunks) && chunkIds[k] in db.chunks &&
      db.chunks[chunkIds[k]] == Chunk(tenantId, sourceKey, docId, k, pieces[k])
    ensures forall id :: id in db.chunks <==> id in old(db.chunks) || id in chunkIds
    ensures forall id :: id in old(db.chunks) ==> db.chunks[id] == old(db.chunks)[id]
    ensures db.users == old(db.users) && db.queryLogs == old(db.queryLogs) && db.feedback == old(db.feedback)
  {
    var d := IngestScript.DocumentArgs(tenantId, sourceKey, title, rawText, sourceUrl);
    docId := Ingest.AddDocument(db, d.tenantId, d.sourceKey, d.title, d.rawText, d.sourceUrl);
    ghost var groups, added;
    pieces, groups, added := ChunkText(rawText, MAX_CHARS, OVERLAP_CHARS);
    chunkIds := Ingest.AddChunks(db, tenantId, sourceKey, docId, IngestScript.ChunkRows(pieces));
  }

  /**
   * One file of `main`'s walk: a hidden, unsupported or blank file leaves the
   * database as it was; any other file is stored as one new document, with
   * its title and text and no URL, followed by its overlapping chunks.
   */
  method IngestFile(db: Store.Db, tenantId: string, sourceKey: string, fileName: string, path: string,
                    input: FileInput) returns (docId: Option<DocId>, chunkIds: seq<ChunkId>)
    requires db.Valid()
    modifies db
    ensures db.Valid()
    ensures docId.Some? <==> Ingestible(fileName, path, input).Some?
    ensures docId.None? ==> chunkIds == [] && db.documents == old(db.documents) && db.chunks == old(db.chunks)
    ensures docId.Some? ==> (docId.value !in old(db.documents) &&
      db.documents == old(db.documents)[docId.value := IngestScript.DocumentArgs(
        tenantId, sourceKey, Ingestible(fileName, path, input).value.0, Ingestible(fileName, path, input).value.1, None)])
    ensures docId.Some? ==> (chunkIds != [] &&
      |chunkIds| == |ChunksOf(Ingestible(fileName, path, input).value.1, MAX_CHARS, OVERLAP_CHARS)|)
    ensures docId.Some? ==> forall k :: 0 <= k < |chunkIds| ==>
      chunkIds[k] !in old(db.chunks) && chunkIds[k] in db.chunks &&
      db.chunks[chunkIds[k]] ==
        Chunk(tenantId, sourceKey, docId.value, k, ChunksOf(Ingestible(fileName, path, input).value.1, MAX_CHARS, OVERLAP_CHARS)[k])
    ensures forall id :: id in db.chunks <==> id in old(db.chunks) || id in chunkIds
    ensures forall id :: id in old(db.chunks) ==> db.chunks[id] == old(db.chunks)[id]
    ensures db.users == old(db.users) && db.queryLogs == old(db.queryLogs) && db.feedback == old(db.feedback)
  {
    var r := FileToIngest(fileName, path, input);
    if r.None? {
      return None, [];
    }
    var id, pieces;
    id, pieces, chunkIds := IngestDoc(db, tenantId, sourceKey, r.value.0, r.value.1, None);
    docId := Some(id);
  }
}
