/**
 * The paragraph list both ingestion scripts start from: the text split on
 * blank lines ("\n\n"), each piece stripped, empty pieces dropped; and the
 * facts about it that let a chunk of joined paragraphs be split back.
 */
module Chunking {
  import opened Strings

  const SEP: string := "\n\n"

  /** `[p.strip() for p in pieces if p.strip()]`. */
  function StripNonEmpty(pieces: seq<string>): seq<string> {
    if pieces == [] then []
    else
      var before := StripNonEmpty(pieces[..|pieces| - 1]);
      var p := Strip(pieces[|pieces| - 1]);
      if p == [] then before else before + [p]
  }

  /** Every kept piece is non-empty and starts and ends with a non-whitespace character; none is invented. */
  lemma {:induction false} StripNonEmptyTrimmed(pieces: seq<string>)
    ensures forall p :: p in StripNonEmpty(pieces) ==> Trimmed(p)
    ensures |StripNonEmpty(pieces)| <= |pieces|
  {
    if pieces != [] {
      var init := pieces[..|pieces| - 1];
      StripNonEmptyTrimmed(init);
      var p := Strip(pieces[|pieces| - 1]);
      assert StripNonEmpty(pieces) == if p == [] then StripNonEmpty(init) else StripNonEmpty(init) + [p];
      assert forall x :: x in StripNonEmpty(pieces) ==> x in StripNonEmpty(init) || x == p;
    }
  }

  function Paragraphs(text: string): seq<string> {
    StripNonEmpty(SplitOn(text, SEP))
  }

  /** Flattening a list of paragraph groups. */
  function Concat(groups: seq<seq<string>>): seq<string> {
    if groups == [] then [] else Concat(groups[..|groups| - 1]) + groups[|groups| - 1]
  }

  /** The length of the paragraphs joined with blank lines, counted paragraph by paragraph. */
  function JoinedLen(parts: seq<string>): int {
    if parts == [] then 0
    else if |parts| == 1 then |parts[0]|
    else JoinedLen(parts[..|parts| - 1]) + |SEP| + |parts[|parts| - 1]|
  }

  lemma {:induction false} JoinedLenIsLength(parts: seq<string>)
    ensures JoinedLen(parts) == |Join(parts, SEP)|
  {
    if |parts| > 1 {
      var init := parts[..|parts| - 1];
      JoinedLenIsLength(init);
      JoinSnoc(init, parts[|parts| - 1], SEP);
      assert init + [parts[|parts| - 1]] == parts;
    }
  }

  lemma AppendAssoc(a: seq<string>, b: seq<string>, c: seq<string>)
    ensures a + (b + c) == (a + b) + c
  {
  }

  lemma ConcatSnoc(groups: seq<seq<string>>, g: seq<string>)
    ensures Concat(groups + [g]) == Concat(groups) + g
  {
    assert (groups + [g])[..|groups|] == groups;
  }

  lemma {:induction false} InConcat(groups: seq<seq<string>>, i: nat, p: string)
    requires i < |groups| && p in groups[i]
    ensures p in Concat(groups)
  {
    if i < |groups| - 1 {
      assert groups[..|groups| - 1][i] == groups[i];
      InConcat(groups[..|groups| - 1], i, p);
    }
  }

  /** Stripping a piece without a blank line cannot create one. */
  lemma {:induction false} StripNonEmptyNoSep(pieces: seq<string>)
    requires forall q :: q in pieces ==> IndexOf(q, SEP) == -1
    ensures forall p :: p in StripNonEmpty(pieces) ==> IndexOf(p, SEP) == -1
  {
    if pieces != [] {
      var init := pieces[..|pieces| - 1];
      var q := pieces[|pieces| - 1];
      assert forall x :: x in init ==> x in pieces;
      StripNonEmptyNoSep(init);
      StripIsSlice(q);
      var lo: nat, hi: nat :| lo <= hi <= |q| && Strip(q) == q[lo..hi];
      assert q in pieces;
      NoOccurrenceInSlice(q, SEP, lo, hi);
    }
  }

  /** No paragraph contains a blank line. */
  lemma ParagraphsHaveNoSep(text: string)
    ensures forall p :: p in Paragraphs(text) ==> IndexOf(p, SEP) == -1
  {
    SplitPiecesHaveNoSep(text, SEP);
    StripNonEmptyNoSep(SplitOn(text, SEP));
  }

  /**
   * A non-empty paragraph without a blank line that does not end in
   * whitespace: in `p + "\n\n"` the separator first occurs right after `p`.
   */
  lemma SepOnlyAfterParagraph(p: string)
    requires Trimmed(p) && IndexOf(p, SEP) == -1
    ensures SepOnlyAtEnd(p, SEP)
  {
    var s := p + SEP;
    IndexOfMissing(p, SEP);
    forall k | 0 <= k < |p| ensures !OccursAt(s, SEP, k) {
      if k + 2 <= |p| {
        OccursAtPrefix(p, SEP, SEP, k);
      } else {
        assert s[k] == p[|p| - 1];
      }
    }
    assert OccursAt(s, SEP, |p|);
    IndexOfIs(s, SEP, |p|);
  }

  /** Paragraphs joined with blank lines split back into the same paragraphs. */
  lemma SplitGroup(text: string, group: seq<string>)
    requires group != [] && forall p :: p in group ==> p in Paragraphs(text)
    ensures SplitOn(Join(group, SEP), SEP) == group
  {
    ParagraphsHaveNoSep(text);
    StripNonEmptyTrimmed(SplitOn(text, SEP));
    forall p | p in group ensures SepOnlyAtEnd(p, SEP) {
      SepOnlyAfterParagraph(p);
    }
    SplitJoin(group, SEP);
  }

  /** Every piece of a whitespace-only text is whitespace only. */
  lemma {:induction false} SplitPiecesAllSpace(s: string, sep: string)
    requires sep != []
    requires AllSpace(s)
    ensures forall q :: q in SplitOn(s, sep) ==> AllSpace(q)
    decreases |s|
  {
    var i := IndexOf(s, sep);
    if i != -1 {
      var rest := s[i + |sep|..];
      AllSpaceSlice(s, i + |sep|, |s|);
      AllSpaceSlice(s, 0, i);
      SplitPiecesAllSpace(rest, sep);
      SplitOnAt(s, sep, i);
      assert forall q :: q in SplitOn(s, sep) ==> q == s[..i] || q in SplitOn(rest, sep);
    }
  }

  lemma {:induction false} StripNonEmptyAllSpace(pieces: seq<string>)
    requires forall q :: q in pieces ==> AllSpace(q)
    ensures StripNonEmpty(pieces) == []
  {
    if pieces != [] {
      var q := pieces[|pieces| - 1];
      assert q in pieces;
      assert forall x :: x in pieces[..|pieces| - 1] ==> x in pieces;
      StripNonEmptyAllSpace(pieces[..|pieces| - 1]);
      StripAllSpace(q);
    }
  }

  /** A text has no paragraphs exactly when it is whitespace only (the empty text included). */
  lemma BlankTextHasNoParagraphs(text: string)
    ensures Paragraphs(text) == [] <==> AllSpace(text)
  {
    if AllSpace(text) {
      SplitPiecesAllSpace(text, SEP);
      StripNonEmptyAllSpace(SplitOn(text, SEP));
    } else if Paragraphs(text) == [] {
      NoParagraphsMeansBlank(text);
      assert false;
    }
  }

  lemma NoParagraphsMeansBlank(text: string)
    requires Paragraphs(text) == []
    ensures AllSpace(text)
  {
    var pieces := SplitOn(text, SEP);
    forall q | q in pieces ensures AllSpace(q) {
      StripNonEmptyKeeps(pieces, q);
      StripAllSpace(q);
    }
    assert AllSpace(SEP);
    JoinAllSpace(pieces, SEP);
    JoinSplit(text, SEP);
  }

  /** A piece that is not blank once stripped is kept. */
  lemma {:induction false} StripNonEmptyKeeps(pieces: seq<string>, q: string)
    requires q in pieces
    ensures Strip(q) == [] || Strip(q) in StripNonEmpty(pieces)
  {
    var init := pieces[..|pieces| - 1];
    if q != pieces[|pieces| - 1] {
      assert q in init;
      StripNonEmptyKeeps(init, q);
    }
  }
}
