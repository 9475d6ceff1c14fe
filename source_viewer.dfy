/**
 * components/SourceViewer.tsx: where the retrieved chunk sits in the opened
 * document. The viewer splits the document text into the part before the
 * first occurrence of the chunk, the occurrence itself, and the rest.
 */
module SourceViewer {
  import opened Wrappers
  import opened Strings

  /** The three spans the viewer renders; `matched` is the highlighted one (`match` in the component). */
  datatype Highlight = Highlight(before: string, matched: string, after: string)

  /** `document?.rawText || ""`: no document, or an empty text, gives "". */
  function DocumentText(rawText: Option<string>): (t: string)
    ensures rawText.Some? ==> t == rawText.value
    ensures rawText.None? ==> t == ""
  {
    if rawText.Some? then rawText.value else ""
  }

  /** `hit.chunkText || hit.snippet`: the chunk's text unless it is empty. */
  function Target(chunkText: string, snippet: string): (t: string)
    ensures chunkText != "" ==> t == chunkText
    ensures chunkText == "" ==> t == snippet
  {
    if chunkText != "" then chunkText else snippet
  }

  /**
   * `highlight`: with no target, or a target that does not occur in the
   * text, the whole text is `before`; otherwise the text is cut around the
   * first occurrence of the target.
   */
  function HighlightOf(rawText: Option<string>, chunkText: string, snippet: string): (h: Highlight)
    ensures h.before + h.matched + h.after == DocumentText(rawText)
    ensures h.matched == "" ==> h == Highlight(DocumentText(rawText), "", "")
    ensures h.matched != "" <==> Target(chunkText, snippet) != "" && IndexOf(DocumentText(rawText), Target(chunkText, snippet)) != -1
    ensures h.matched != "" ==> h.matched == Target(chunkText, snippet)
    ensures h.matched != "" ==> |h.before| == IndexOf(DocumentText(rawText), Target(chunkText, snippet))
  {
    var text := DocumentText(rawText);
    var target := Target(chunkText, snippet);
    if target == "" then Highlight(text, "", "")
    else
      var index := IndexOf(text, target);
      if index == -1 then Highlight(text, "", "")
      else
        assert text[..index] + text[index..index + |target|] + text[index + |target|..] == text;
        Highlight(text[..index], text[index..index + |target|], text[index + |target|..])
  }

  /**
   * The highlighted span is the first occurrence of the target: it occurs
   * at no earlier position of the text.
   */
  lemma HighlightIsFirstOccurrence(rawText: Option<string>, chunkText: string, snippet: string)
    ensures var h, text, target := HighlightOf(rawText, chunkText, snippet), DocumentText(rawText), Target(chunkText, snippet);
      h.matched != "" ==> OccursAt(text, target, |h.before|) && forall k :: 0 <= k < |h.before| ==> !OccursAt(text, target, k)
  {
    IndexOfFirst(DocumentText(rawText), Target(chunkText, snippet));
  }

  /** Nothing is highlighted only when the target is empty or occurs nowhere in the text. */
  lemma NoHighlightMeansAbsent(rawText: Option<string>, chunkText: string, snippet: string)
    ensures var h, text, target := HighlightOf(rawText, chunkText, snippet), DocumentText(rawText), Target(chunkText, snippet);
      h.matched == "" && target != "" ==> forall k :: 0 <= k <= |text| ==> !OccursAt(text, target, k)
  {
    IndexOfMissing(DocumentText(rawText), Target(chunkText, snippet));
  }

  /**
   * A document that is `front + chunk + back`, where the chunk text first
   * occurs right after `front`, is split back into exactly those three parts.
   */
  lemma HighlightLocatesChunk(front: string, chunk: string, back: string, snippet: string)
    requires chunk != ""
    requires forall k :: 0 <= k < |front| ==> !OccursAt(front + chunk, chunk, k)
    ensures HighlightOf(Some(front + chunk + back), chunk, snippet) == Highlight(front, chunk, back)
  {
    var text := front + chunk + back;
    assert (front + chunk)[|front|..|front| + |chunk|] == chunk;
    IndexOfIs(front + chunk, chunk, |front|);
    IndexOfExtend(front + chunk, chunk, back);
    assert text == (front + chunk) + back;
    assert text[..|front|] == front;
    assert text[|front|..|front| + |chunk|] == chunk;
    assert text[|front| + |chunk|..] == back;
  }
}
