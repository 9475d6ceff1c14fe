/**
 * components/AdminPanel.tsx: the editing state of one row of the user
 * table. Checking or unchecking a source toggles it in the selection,
 * Cancel goes back to the stored values, and Save sends the selected role
 * and sources as they stand.
 */
module AdminPanel {
  import opened Lists
  import Schema

  /** `prev.filter((s) => s !== source)`. */
  function Remove(s: seq<string>, x: string): (r: seq<string>)
    ensures forall y :: y in r <==> y in s && y != x
    ensures |r| <= |s|
  {
    if s == [] then []
    else if s[0] == x then Remove(s[1..], x)
    else [s[0]] + Remove(s[1..], x)
  }

  /** Filtering distributes over concatenation: the other sources keep their order. */
  lemma {:induction false} RemoveAppend(a: seq<string>, b: seq<string>, x: string)
    ensures Remove(a + b, x) == Remove(a, x) + Remove(b, x)
  {
    if a == [] {
      assert a + b == b;
    } else {
      assert (a + b)[0] == a[0] && (a + b)[1..] == a[1..] + b;
      RemoveAppend(a[1..], b, x);
    }
  }

  /** Filtering out a value that is not there changes nothing. */
  lemma {:induction false} RemoveAbsent(s: seq<string>, x: string)
    requires x !in s
    ensures Remove(s, x) == s
  {
    if s != [] {
      assert x !in s[1..];
      RemoveAbsent(s[1..], x);
    }
  }

  /** `toggleSource`: a selected source is removed, every copy of it; any other is appended at the end. */
  function Toggle(selected: seq<string>, source: string): (r: seq<string>)
    ensures source in selected ==> source !in r && forall y :: y != source ==> (y in r <==> y in selected)
    ensures source !in selected ==> r == selected + [source]
  {
    if source in selected then Remove(selected, source) else selected + [source]
  }

  /** Checking an unchecked source and unchecking it again gives back the selection exactly. */
  lemma ToggleTwiceRestores(selected: seq<string>, source: string)
    requires source !in selected
    ensures Toggle(Toggle(selected, source), source) == selected
  {
    RemoveAppend(selected, [source], source);
    RemoveAbsent(selected, source);
    assert Remove([source], source) == [] by {
      assert [source][1..] == [];
    }
  }

  /**
   * Unchecking a checked source and checking it again moves it to the end
   * of the selection, with one copy.
   */
  lemma ToggleTwiceMovesToEnd(selected: seq<string>, source: string)
    requires source in selected
    ensures Toggle(Toggle(selected, source), source) == Remove(selected, source) + [source]
  {
  }

  /** On a selection without repeats, a toggle keeps it without repeats and flips that one source. */
  lemma ToggleKeepsDistinct(selected: seq<string>, source: string)
    requires NoDuplicates(selected)
    ensures NoDuplicates(Toggle(selected, source))
    ensures Elements(Toggle(selected, source)) ==
            if source in selected then Elements(selected) - {source} else Elements(selected) + {source}
  {
    if source in selected {
      RemoveDistinct(selected, source);
    }
  }

  lemma {:induction false} RemoveDistinct(s: seq<string>, x: string)
    requires NoDuplicates(s)
    ensures NoDuplicates(Remove(s, x))
  {
    if s != [] {
      assert NoDuplicates(s[1..]) by {
        forall i, j | 0 <= i < j < |s[1..]| ensures s[1..][i] != s[1..][j] {
          assert s[1..][i] == s[i + 1] && s[1..][j] == s[j + 1];
        }
      }
      RemoveDistinct(s[1..], x);
      if s[0] != x {
        assert s[0] !in s[1..];
        assert s[0] !in Remove(s[1..], x);
      }
    }
  }

  /** A user of the admin table as the row receives it. */
  datatype Row = Row(id: Schema.UserId, role: string, allowedSources: seq<string>)

  /** The state of one row: whether it is being edited, the edited values, and whether a save is running. */
  datatype RowState = RowState(isEditing: bool, selectedRole: string, selectedSources: seq<string>, saving: bool)

  /** The row's state when it is first shown: not editing, the stored role and sources selected. */
  function Initial(user: Row): (st: RowState)
    ensures !st.isEditing && !st.saving
    ensures st.selectedRole == user.role && st.selectedSources == user.allowedSources
  {
    RowState(false, user.role, user.allowedSources, false)
  }

  /** The Edit button. */
  function Edit(st: RowState): RowState {
    st.(isEditing := true)
  }

  /** A checkbox click. */
  function ToggleSource(st: RowState, source: string): RowState {
    st.(selectedSources := Toggle(st.selectedSources, source))
  }

  /** The role selector. */
  function SelectRole(st: RowState, role: string): RowState {
    st.(selectedRole := role)
  }

  /** `handleCancel`: the stored role and sources are selected again and editing ends. */
  function Cancel(st: RowState, user: Row): (r: RowState)
    ensures !r.isEditing && r.saving == st.saving
    ensures r.selectedRole == user.role && r.selectedSources == user.allowedSources
  {
    st.(selectedRole := user.role, selectedSources := user.allowedSources, isEditing := false)
  }

  /** Whatever was edited, Cancel (which is disabled while saving) brings the row back to its first state. */
  lemma CancelUndoesEdits(st: RowState, user: Row)
    requires !st.saving
    ensures Cancel(st, user) == Initial(user)
  {
  }

  /** The arguments `handleSave` passes to `users:updateUser`. */
  datatype UpdateArgs = UpdateArgs(userId: Schema.UserId, role: string, allowedSources: seq<string>)

  /** `handleSave`'s payload: the whole selected role and source list, not a difference from the stored ones. */
  function SavePayload(st: RowState, user: Row): (a: UpdateArgs)
    ensures a.userId == user.id && a.role == st.selectedRole && a.allowedSources == st.selectedSources
  {
    UpdateArgs(user.id, st.selectedRole, st.selectedSources)
  }

  /** When the update finishes: editing ends only on success, and saving ends either way. */
  function SaveDone(st: RowState, succeeded: bool): (r: RowState)
    ensures !r.saving && r.selectedRole == st.selectedRole && r.selectedSources == st.selectedSources
    ensures r.isEditing == (st.isEditing && !succeeded)
  {
    st.(isEditing := if succeeded then false else st.isEditing, saving := false)
  }

  /** Saving right after Edit sends the stored values back unchanged. */
  lemma SaveWithoutEditsSendsStored(user: Row)
    ensures SavePayload(Edit(Initial(user)), user) == UpdateArgs(user.id, user.role, user.allowedSources)
  {
  }

  /**
   * Checking one new source and saving sends the stored list with that
   * source appended, so the update replaces the stored list by it.
   */
  lemma SaveAfterCheckingOne(user: Row, source: string)
    requires source !in user.allowedSources
    ensures SavePayload(ToggleSource(Edit(Initial(user)), source), user).allowedSources == user.allowedSources + [source]
  {
  }
}
