/**
 * components/Chat.tsx: the suggestion list built from the signed-in user's
 * role and sources, the quick-start slices of it, the message update and
 * pending-request bookkeeping of a feedback click, and when the
 * become-admin button shows.
 */
module ChatUi {
  import opened Wrappers
  import opened Lists
  import Schema
  import Api
  import Auth

  const BASE_SUGGESTIONS: seq<string> := [
    "What are the office hours?",
    "Where can I find the onboarding checklist?",
    "How do I request access to internal tools?"
  ]

  /** `ROLE_SUGGESTIONS`: a role without an entry looks up `undefined`. */
  const ROLE_SUGGESTIONS: map<string, seq<string>> := map[
    "engineer" := ["Where is the incident response runbook?", "What is the deploy process?"],
    "finance" := ["What is the reimbursement policy?", "What are the latest budget updates?"],
    "hr" := ["What are the first week onboarding steps?", "Where are the benefits documents?"]
  ]

  /** `SOURCE_SUGGESTIONS`: a source without an entry looks up `undefined`. */
  const SOURCE_SUGGESTIONS: map<string, seq<string>> := map[
    "gdrive" := ["Summarize the Q1 budget notes.", "What is the hiring plan?"],
    "confluence" := ["Where is the onboarding runbook?", "What is the incident response process?"],
    "slack" := ["Any recent deploy blockers?", "What did the finance team discuss?"],
    "public" := ["What are the office hours?"],
    "finance" := ["What is the reimbursement policy?"]
  ]

  /** `table[key]`, with `undefined` read as nothing to add (the `if (!items) return` of `add`). */
  function Lookup(table: map<string, seq<string>>, key: string): seq<string> {
    if key in table then table[key] else []
  }

  /** The suggestions of each allowed source, in the order of the sources. */
  function SourceItems(sources: seq<string>): seq<string> {
    if sources == [] then []
    else SourceItems(sources[..|sources| - 1]) + Lookup(SOURCE_SUGGESTIONS, sources[|sources| - 1])
  }

  /** Everything `buildSuggestions` offers to `add`, repeats included, in the order it offers them. */
  function Candidates(role: string, sources: seq<string>): seq<string> {
    BASE_SUGGESTIONS + Lookup(ROLE_SUGGESTIONS, role) + SourceItems(sources)
  }

  /** What `buildSuggestions` means: the candidates, each kept at its first occurrence. */
  function Suggestions(role: string, sources: seq<string>): seq<string> {
    DedupFrom(Candidates(role, sources), {})
  }

  /**
   * The closure `add`: pushes each item not seen yet onto `suggestions` and
   * records it in `seen`.
   */
  method Add(suggestions: seq<string>, seen: set<string>, items: seq<string>)
    returns (suggestions': seq<string>, seen': set<string>)
    ensures suggestions' == suggestions + DedupFrom(items, seen)
    ensures seen' == seen + Elements(items)
  {
    suggestions', seen' := suggestions, seen;
    var i := 0;
    while i < |items|
      invariant 0 <= i <= |items|
      invariant suggestions' == suggestions + DedupFrom(items[..i], seen)
      invariant seen' == seen + Elements(items[..i])
    {
      var item := items[i];
      DedupAppend(items[..i], [item], seen);
      assert items[..i + 1] == items[..i] + [item];
      assert DedupFrom([item], seen') == (if item in seen' then [] else [item]) by {
        assert [item][1..] == [];
      }
      if item !in seen' {
        seen' := seen' + {item};
        suggestions' := suggestions' + [item];
      }
      i := i + 1;
    }
    assert items[..|items|] == items;
  }

  /**
   * `buildSuggestions`: the base suggestions, then the role's, then each
   * allowed source's, without repeats and in first-occurrence order.
   */
  method BuildSuggestions(role: string, allowedSources: seq<string>) returns (suggestions: seq<string>)
    ensures suggestions == Suggestions(role, allowedSources)
    ensures NoDuplicates(suggestions)
    ensures forall s :: s in suggestions <==> s in Candidates(role, allowedSources)
  {
    var seen: set<string> := {};
    suggestions := [];
    suggestions, seen := Add(suggestions, seen, BASE_SUGGESTIONS);
    ghost var done: seq<string> := BASE_SUGGESTIONS;
    assert suggestions == DedupFrom(done, {}) && seen == Elements(done);
    var roleItems := Lookup(ROLE_SUGGESTIONS, role);
    suggestions, seen := Add(suggestions, seen, roleItems);
    AddStep(done, roleItems);
    done := done + roleItems;
    suggestions, seen := AddSources(suggestions, seen, done, allowedSources);
  }

  /**
   * The loop of `buildSuggestions` over the allowed sources, after `done` has
   * been offered to `add`: it ends as if `add` had been offered everything at once.
   */
  method AddSources(suggestions: seq<string>, seen: set<string>, ghost done: seq<string>, sources: seq<string>)
    returns (suggestions': seq<string>, seen': set<string>)
    requires suggestions == DedupFrom(done, {}) && seen == Elements(done)
    ensures suggestions' == DedupFrom(done + SourceItems(sources), {})
    ensures seen' == Elements(done + SourceItems(sources))
  {
    suggestions', seen' := suggestions, seen;
    assert done + SourceItems(sources[..0]) == done;
    var j := 0;
    while j < |sources|
      invariant 0 <= j <= |sources|
      invariant suggestions' == DedupFrom(done + SourceItems(sources[..j]), {})
      invariant seen' == Elements(done + SourceItems(sources[..j]))
    {
      ghost var sofar := done + SourceItems(sources[..j]);
      var items := Lookup(SOURCE_SUGGESTIONS, sources[j]);
      assert sources[..j + 1][..j] == sources[..j];
      assert done + SourceItems(sources[..j + 1]) == sofar + items;
      suggestions', seen' := Add(suggestions', seen', items);
      AddStep(sofar, items);
      j := j + 1;
    }
    assert sources[..|sources|] == sources;
  }

  /** Adding one more list of items to what `add` has already been offered. */
  lemma AddStep(done: seq<string>, items: seq<string>)
    ensures DedupFrom(done + items, {}) == DedupFrom(done, {}) + DedupFrom(items, Elements(done))
    ensures Elements(done + items) == Elements(done) + Elements(items)
  {
    DedupAppend(done, items, {});
    assert {} + Elements(done) == Elements(done);
  }

  /** The base suggestions are distinct, so they come through whole. */
  lemma BaseDistinct()
    ensures NoDuplicates(BASE_SUGGESTIONS)
    ensures DedupFrom(BASE_SUGGESTIONS, {}) == BASE_SUGGESTIONS
  {
    DedupOfDistinct(BASE_SUGGESTIONS, {});
  }

  /** Every user's suggestions start with the three base suggestions. */
  lemma SuggestionsStartWithBase(role: string, sources: seq<string>)
    ensures |Suggestions(role, sources)| >= |BASE_SUGGESTIONS|
    ensures Suggestions(role, sources)[..|BASE_SUGGESTIONS|] == BASE_SUGGESTIONS
  {
    var rest := Lookup(ROLE_SUGGESTIONS, role) + SourceItems(sources);
    assert Candidates(role, sources) == BASE_SUGGESTIONS + rest;
    DedupAppend(BASE_SUGGESTIONS, rest, {});
    BaseDistinct();
  }

  /** A role without an entry of its own gets the same suggestions as "member". */
  lemma UnknownRoleAddsNothing(role: string, sources: seq<string>)
    requires role !in ROLE_SUGGESTIONS
    ensures Suggestions(role, sources) == Suggestions("member", sources)
  {
  }

  lemma {:induction false} SourceItemsAppend(a: seq<string>, b: seq<string>)
    ensures SourceItems(a + b) == SourceItems(a) + SourceItems(b)
    decreases |b|
  {
    if b == [] {
      assert a + b == a;
    } else {
      var init := b[..|b| - 1];
      SourceItemsAppend(a, init);
      assert (a + b)[..|a + b| - 1] == a + init;
    }
  }

  /** An allowed source without an entry of its own changes nothing, wherever it stands in the list. */
  lemma UnknownSourceAddsNothing(role: string, front: seq<string>, source: string, back: seq<string>)
    requires source !in SOURCE_SUGGESTIONS
    ensures Suggestions(role, front + [source] + back) == Suggestions(role, front + back)
  {
    SourceItemsAppend(front + [source], back);
    SourceItemsAppend(front, [source]);
    SourceItemsAppend(front, back);
    assert SourceItems([source]) == [] by {
      assert [source][..0] == [];
    }
    assert SourceItems(front + [source] + back) == SourceItems(front + back);
    assert Candidates(role, front + [source] + back) == Candidates(role, front + back);
  }

  /**
   * First-occurrence order: of two suggestions, the earlier one is offered
   * first, and the later one was not offered before that point.
   */
  lemma SuggestionsKeepFirstOrder(role: string, sources: seq<string>, i: nat, j: nat)
    requires i < j < |Suggestions(role, sources)|
    ensures var c, r := Candidates(role, sources), Suggestions(role, sources);
      exists a, b :: 0 <= a < b < |c| && c[a] == r[i] && c[b] == r[j] && r[j] !in c[..a]
  {
    DedupKeepsFirstOrder(Candidates(role, sources), {}, i, j);
  }

  /** `Array.prototype.slice(0, n)`: the first n elements, or all of them when there are fewer. */
  function Take(s: seq<string>, n: nat): (r: seq<string>)
    ensures |r| == if |s| < n then |s| else n
    ensures r == s[..|r|]
  {
    if |s| < n then s else s[..n]
  }

  /** `quickStarts`: the first four suggestions. */
  function QuickStarts(suggestions: seq<string>): seq<string> {
    Take(suggestions, 4)
  }

  /** `askSuggestions`: the first six suggestions. */
  function AskSuggestions(suggestions: seq<string>): seq<string> {
    Take(suggestions, 6)
  }

  /**
   * Every user's quick starts hold the three base suggestions first, and are
   * the beginning of the suggestions the sidebar offers.
   */
  lemma QuickStartsArePrefix(role: string, sources: seq<string>)
    ensures var s := Suggestions(role, sources);
      3 <= |QuickStarts(s)| <= 4 && QuickStarts(s)[..3] == BASE_SUGGESTIONS &&
      QuickStarts(s) == AskSuggestions(s)[..|QuickStarts(s)|]
  {
    var s := Suggestions(role, sources);
    SuggestionsStartWithBase(role, sources);
    assert QuickStarts(s)[..3] == s[..3];
  }

  // ---------------------------------------------------------------------------
  // Feedback on an answer
  // ---------------------------------------------------------------------------

  datatype Verdict = Yes | No

  /** A chat message as the UI keeps it; only an answer the server logged has a `logId`. */
  datatype Message = Message(id: string, fromUser: bool, content: string, logId: Option<string>,
                             feedback: Option<Verdict>)

  /** The chat's state that a feedback click touches: the messages and the `feedbackPending` record. */
  datatype ChatState = ChatState(messages: seq<Message>, pending: map<string, bool>)

  /** The `prev.map(...)` of a successful feedback: every message of the log records the verdict. */
  function MarkFeedback(messages: seq<Message>, logId: string, helpful: bool): (r: seq<Message>)
  {
    seq(|messages|, k requires 0 <= k < |messages| =>
      if messages[k].logId == Some(logId) then messages[k].(feedback := Some(if helpful then Yes else No))
      else messages[k])
  }

  /**
   * Only the messages of the submitted log change, and only their verdict:
   * "yes" when the answer helped, "no" otherwise.
   */
  lemma MarkFeedbackChangesOnlyThatLog(messages: seq<Message>, logId: string, helpful: bool)
    ensures var r := MarkFeedback(messages, logId, helpful);
      |r| == |messages| &&
      (forall k :: 0 <= k < |r| && messages[k].logId != Some(logId) ==> r[k] == messages[k]) &&
      (forall k :: 0 <= k < |r| && messages[k].logId == Some(logId) ==>
        r[k].feedback == Some(if helpful then Yes else No) &&
        r[k] == messages[k].(feedback := r[k].feedback))
  {
  }

  /** Submitting the same verdict again leaves the messages as they are. */
  lemma MarkFeedbackIdempotent(messages: seq<Message>, logId: string, helpful: bool)
    ensures MarkFeedback(MarkFeedback(messages, logId, helpful), logId, helpful) == MarkFeedback(messages, logId, helpful)
  {
  }

  /** The state while the request is in flight: the log is marked pending. */
  function InFlight(st: ChatState, logId: string): ChatState {
    st.(pending := st.pending[logId := true])
  }

  /**
   * `handleFeedback`: nothing happens for an empty logId; otherwise the log is
   * marked pending, the request is made (`accepted` is whether the server
   * answered OK), the messages are marked on success, and the pending entry is
   * deleted whatever the outcome.
   */
  function HandleFeedback(st: ChatState, logId: string, helpful: bool, accepted: bool): (r: ChatState)
    ensures logId == "" ==> r == st
    ensures logId != "" ==> logId !in r.pending
    ensures logId != "" ==> forall l :: l in r.pending <==> l in st.pending && l != logId
    ensures logId != "" ==> forall l :: l in r.pending ==> r.pending[l] == st.pending[l]
    ensures !accepted ==> r.messages == st.messages
  {
    if logId == "" then st
    else
      var flying := InFlight(st, logId);
      var messages := if accepted then MarkFeedback(flying.messages, logId, helpful) else flying.messages;
      ChatState(messages, flying.pending - {logId})
  }

  /** A successful agreement lands on the messages of that log exactly as `MarkFeedback` says. */
  lemma AcceptedFeedbackMarksLog(st: ChatState, logId: string, helpful: bool)
    requires logId != ""
    ensures HandleFeedback(st, logId, helpful, true).messages == MarkFeedback(st.messages, logId, helpful)
    ensures HandleFeedback(st, logId, helpful, false).messages == st.messages
  {
  }

  /** Whatever the outcome, the pending record ends as it began, minus that log. */
  lemma PendingClearedAfterAttempt(st: ChatState, logId: string, helpful: bool, accepted: bool)
    requires logId != "" && logId !in st.pending
    ensures HandleFeedback(st, logId, helpful, accepted).pending == st.pending
  {
    var r := HandleFeedback(st, logId, helpful, accepted);
    assert r.pending.Keys == st.pending.Keys;
  }

  // ---------------------------------------------------------------------------
  // Who sees the become-admin button
  // ---------------------------------------------------------------------------

  /** The condition around `<BecomeAdminButton />`. */
  predicate ShowsBecomeAdmin(role: string, allowedSources: seq<string>) {
    role != "admin" && |allowedSources| == 0
  }

  /**
   * The button shows exactly to the users for whom a chat has no sources: a
   * non-admin with nothing stored. An admin never sees it, whatever is stored.
   */
  lemma BecomeAdminIffNoSources(u: Schema.User)
    ensures ShowsBecomeAdmin(u.role, u.allowedSources) <==> u.role != "admin" && Api.AllowedSources(u) == []
    ensures u.role == "admin" ==> !ShowsBecomeAdmin(u.role, u.allowedSources) && Api.AllowedSources(u) != []
  {
  }

  /**
   * A user straight from signup who did not ask for a role is offered the
   * button; one who signed up asking for "admin" is not, and already has
   * every source.
   */
  lemma SignupAndBecomeAdmin(p: Auth.SignupParams)
    ensures var u := Auth.Profile(p);
      (p.role.None? || p.role == Some("")) ==> ShowsBecomeAdmin(u.role, u.allowedSources)
    ensures var u := Auth.Profile(p);
      p.role == Some("admin") ==> !ShowsBecomeAdmin(u.role, u.allowedSources) && Api.AllowedSources(u) == Api.ALL_SOURCES
  {
  }
}
