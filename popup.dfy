/**
 * The popup's `PromptManager`: the in-memory prompt list, the prompt being edited and the
 * current filter, with the event handlers that change them. Storage is the `stored`
 * field; the clock, the fresh id, the `confirm()` answer and the platform calls' outcome
 * are parameters.
 */
module Popup {
  import opened PromptModel
  import opened Text
  import opened Selection
  import opened DisplayOrder
  import opened PromptList
  import Inject

  /** `result.prompts || []`: what `loadPrompts` reads from the stored key. */
  function Loaded(stored: Option<seq<Prompt>>): seq<Prompt>
  {
    match stored
    case None => []
    case Some(s) => s
  }

  /**
   * The list `prompts` holds after rendering `mode`. In the 'all' view the renderer sorts
   * `this.prompts` itself, so the stored order is replaced by the display order; the
   * pinned view sorts a fresh array and leaves `prompts` alone.
   */
  function AfterRender(mode: FilterMode, s: seq<Prompt>): (r: seq<Prompt>)
    ensures multiset(r) == multiset(s)
    ensures mode == Pinned ==> r == s
    ensures mode == All ==> Sorted(r)
  {
    SortForDisplaySorted(s);
    if mode == All then SortForDisplay(s) else s
  }

  /** Rendering the 'all' view a second time leaves `prompts` as the first render did. */
  lemma RenderAllSettles(s: seq<Prompt>)
    ensures AfterRender(All, AfterRender(All, s)) == AfterRender(All, s)
  {
    SortIdempotent(s);
  }

  /** `if (this.editingPromptId)`: an id that is absent or the empty string is falsy. */
  predicate IsEditing(editing: Option<string>)
  {
    editing.Some? && editing.value != ""
  }

  /** The list `savePrompt` writes for already-trimmed, non-empty `title` and `content`. */
  function SavedList(s: seq<Prompt>, editing: Option<string>, newId: string,
                     title: string, content: string, now: nat): seq<Prompt>
  {
    if IsEditing(editing) then EditPrompt(s, editing.value, title, content, now)
    else AddFront(s, NewPrompt(newId, title, content, now))
  }

  /** Outcome of the save button: `Rejected` is the alert, with the modal left open. */
  datatype SaveOutcome = Rejected | Saved

  class PromptManager {
    var prompts: seq<Prompt>
    var editingPromptId: Option<string>
    var currentFilter: FilterMode
    /** The `prompts` key of extension storage. */
    var stored: Option<seq<Prompt>>

    /** Opening the popup: load the stored list, then render the 'all' view. */
    constructor (storage: Option<seq<Prompt>>)
      ensures stored == storage
      ensures prompts == SortForDisplay(Loaded(storage))
      ensures editingPromptId == None && currentFilter == All
    {
      prompts := [];
      editingPromptId := None;
      currentFilter := All;
      stored := storage;
      new;
      LoadPrompts();
      var _ := RenderBasedOnFilter();
    }

    method LoadPrompts()
      modifies this
      ensures prompts == Loaded(stored)
      ensures editingPromptId == old(editingPromptId) && currentFilter == old(currentFilter)
      ensures stored == old(stored)
    {
      prompts := Loaded(stored);
    }

    method SavePrompts()
      modifies this
      ensures stored == Some(prompts)
      ensures prompts == old(prompts) && editingPromptId == old(editingPromptId)
      ensures currentFilter == old(currentFilter)
    {
      stored := Some(prompts);
    }

    /** `renderPrompts(mode)`: returns the list shown, and sorts `prompts` itself in the 'all' view. */
    method RenderPrompts(mode: FilterMode) returns (shown: seq<Prompt>)
      modifies this
      ensures shown == SortForDisplay(Visible(mode, old(prompts)))
      ensures prompts == AfterRender(mode, old(prompts))
      ensures editingPromptId == old(editingPromptId) && currentFilter == old(currentFilter)
      ensures stored == old(stored)
    {
      if mode == All {
        // `promptsToShow` is `this.prompts` itself, so the in-place sort reorders it.
        if |prompts| > 0 {
          prompts := SortForDisplay(prompts);
        }
        shown := prompts;
      } else {
        shown := PinnedOnly(prompts);
        if |shown| > 0 {
          shown := SortForDisplay(shown);
        }
      }
    }

    method RenderBasedOnFilter() returns (shown: seq<Prompt>)
      modifies this
      ensures shown == SortForDisplay(Visible(currentFilter, old(prompts)))
      ensures prompts == AfterRender(currentFilter, old(prompts))
      ensures editingPromptId == old(editingPromptId) && currentFilter == old(currentFilter)
      ensures stored == old(stored)
    {
      shown := RenderPrompts(currentFilter);
    }

    /**
     * The search box's input handler. A non-empty trimmed query shows the sorted search
     * result, a fresh array, so `prompts` is untouched; an empty one re-renders the filter view.
     */
    method OnSearchInput(raw: string) returns (shown: seq<Prompt>)
      modifies this
      ensures Trim(raw) != [] ==> shown == SortForDisplay(Search(old(prompts), Trim(raw)))
      ensures Trim(raw) != [] ==> prompts == old(prompts)
      ensures Trim(raw) == [] ==> shown == SortForDisplay(Visible(currentFilter, old(prompts)))
      ensures Trim(raw) == [] ==> prompts == AfterRender(currentFilter, old(prompts))
      ensures editingPromptId == old(editingPromptId) && currentFilter == old(currentFilter)
      ensures stored == old(stored)
    {
      var query := Trim(raw);
      if query != [] {
        shown := Search(prompts, query);
        if |shown| > 0 {
          shown := SortForDisplay(shown);
        }
      } else {
        shown := RenderBasedOnFilter();
      }
    }

    /** The "show pinned" button. */
    method OnShowPinned() returns (shown: seq<Prompt>)
      modifies this
      ensures currentFilter == Pinned
      ensures shown == SortForDisplay(PinnedOnly(old(prompts)))
      ensures prompts == old(prompts)
      ensures editingPromptId == old(editingPromptId) && stored == old(stored)
    {
      currentFilter := Pinned;
      shown := RenderPrompts(Pinned);
    }

    /** The "show all" button: the stored list itself is put in display order. */
    method OnShowAll() returns (shown: seq<Prompt>)
      modifies this
      ensures currentFilter == All
      ensures prompts == SortForDisplay(old(prompts)) && shown == prompts
      ensures editingPromptId == old(editingPromptId) && stored == old(stored)
    {
      currentFilter := All;
      shown := RenderPrompts(All);
    }

    /** The add button: the modal opens for a new prompt. */
    method OnAddClicked()
      modifies this
      ensures editingPromptId == None
      ensures prompts == old(prompts) && currentFilter == old(currentFilter) && stored == old(stored)
    {
      editingPromptId := None;
    }

    /** `editPrompt(id)`: the modal opens on a known prompt; an unknown id does nothing. */
    method EditPrompt(id: string)
      modifies this
      ensures editingPromptId == if FindIndex(old(prompts), id).Some? then Some(id) else old(editingPromptId)
      ensures prompts == old(prompts) && currentFilter == old(currentFilter) && stored == old(stored)
    {
      if FindIndex(prompts, id).Some? {
        editingPromptId := Some(id);
      }
    }

    /** `hideAddModal`, also the cancel button. */
    method HideAddModal()
      modifies this
      ensures editingPromptId == None
      ensures prompts == old(prompts) && currentFilter == old(currentFilter) && stored == old(stored)
    {
      editingPromptId := None;
    }

    /**
     * `usePrompt(id)`: copy the content to the clipboard and send it to the active tab,
     * then set `lastUsed` and save. `platformOk` is false when the clipboard write or the
     * tab query throws; the handler then catches the error and changes nothing.
     */
    method UsePrompt(id: string, now: nat, platformOk: bool) returns (sent: Option<Inject.Message>)
      modifies this
      ensures FindIndex(old(prompts), id).None? || !platformOk ==>
        sent == None && prompts == old(prompts) && stored == old(stored)
      ensures FindIndex(old(prompts), id).Some? && platformOk ==>
        && sent == Some(Inject.Message(Inject.InsertAction, old(prompts)[FindIndex(old(prompts), id).value].content))
        && prompts == MarkUsed(old(prompts), id, now)
        && stored == Some(prompts)
      ensures editingPromptId == old(editingPromptId) && currentFilter == old(currentFilter)
    {
      sent := None;
      var found := FindIndex(prompts, id);
      if found.None? || !platformOk {
        return;
      }
      var i := found.value;
      sent := Some(Inject.Message(Inject.InsertAction, prompts[i].content));
      prompts := prompts[i := prompts[i].(lastUsed := Some(now))];
      SavePrompts();
    }

    /** `togglePin(id)`: flip, save, re-render; an unknown id does nothing. */
    method TogglePin(id: string)
      modifies this
      ensures FindIndex(old(prompts), id).None? ==> prompts == old(prompts) && stored == old(stored)
      ensures FindIndex(old(prompts), id).Some? ==>
        && stored == Some(PromptList.TogglePin(old(prompts), id))
        && prompts == AfterRender(currentFilter, PromptList.TogglePin(old(prompts), id))
      ensures editingPromptId == old(editingPromptId) && currentFilter == old(currentFilter)
    {
      var found := FindIndex(prompts, id);
      if found.None? {
        return;
      }
      var i := found.value;
      prompts := prompts[i := prompts[i].(isPinned := !prompts[i].isPinned)];
      SavePrompts();
      var _ := RenderBasedOnFilter();
    }

    /**
     * `savePrompt` with the modal's raw field values. Empty trimmed input is rejected and
     * changes nothing. Otherwise the edit or the add is saved, the view re-rendered and
     * the modal closed. `newId` stands for `Date.now().toString()`.
     */
    method SavePrompt(rawTitle: string, rawContent: string, newId: string, now: nat)
      returns (outcome: SaveOutcome)
      modifies this
      ensures outcome == Rejected <==> Trim(rawTitle) == [] || Trim(rawContent) == []
      ensures outcome == Rejected ==>
        prompts == old(prompts) && editingPromptId == old(editingPromptId) && stored == old(stored)
      ensures outcome == Saved ==>
        var saved := SavedList(old(prompts), old(editingPromptId), newId, Trim(rawTitle), Trim(rawContent), now);
        && stored == Some(saved)
        && prompts == AfterRender(currentFilter, saved)
        && editingPromptId == None
      ensures currentFilter == old(currentFilter)
    {
      var title := Trim(rawTitle);
      var content := Trim(rawContent);
      if title == [] || content == [] {
        return Rejected;
      }
      WriteSaved(title, content, newId, now);
      SavePrompts();
      var _ := RenderBasedOnFilter();
      HideAddModal();
      outcome := Saved;
    }

    /** The branch of `savePrompt` that changes the list: edit in place, or `unshift` a new prompt. */
    method WriteSaved(title: string, content: string, newId: string, now: nat)
      modifies this
      ensures prompts == SavedList(old(prompts), old(editingPromptId), newId, title, content, now)
      ensures IsEditing(old(editingPromptId)) ==> editingPromptId == None
      ensures !IsEditing(old(editingPromptId)) ==> editingPromptId == old(editingPromptId)
      ensures currentFilter == old(currentFilter) && stored == old(stored)
    {
      if editingPromptId.Some? && editingPromptId.value != "" {
        var found := FindIndex(prompts, editingPromptId.value);
        if found.Some? {
          var i := found.value;
          prompts := prompts[i := prompts[i].(title := title, content := content, lastUsed := Some(now))];
        }
        editingPromptId := None;
      } else {
        prompts := [NewPrompt(newId, title, content, now)] + prompts;
      }
    }

    /** `deletePrompt(id)`: after confirmation, drop every prompt with the id, save, re-render. */
    method DeletePrompt(id: string, confirmed: bool)
      modifies this
      ensures !confirmed ==> prompts == old(prompts) && stored == old(stored)
      ensures confirmed ==>
        && stored == Some(RemoveId(old(prompts), id))
        && prompts == AfterRender(currentFilter, RemoveId(old(prompts), id))
      ensures editingPromptId == old(editingPromptId) && currentFilter == old(currentFilter)
    {
      if !confirmed {
        return;
      }
      prompts := RemoveId(prompts, id);
      SavePrompts();
      var _ := RenderBasedOnFilter();
    }
  }

  /**
   * An add puts the new prompt, with trimmed text, unpinned and used `now`, in front of the
   * unchanged old list; a later delete of its fresh id restores the old list.
   */
  lemma AddThenDelete(s: seq<Prompt>, newId: string, title: string, content: string, now: nat)
    requires forall k :: 0 <= k < |s| ==> s[k].id != newId
    ensures var r := SavedList(s, None, newId, title, content, now);
      && |r| == |s| + 1
      && r[0] == Prompt(newId, title, content, false, Some(now))
      && r[1..] == s
      && RemoveId(r, newId) == s
  {
    RemoveUndoesAdd(s, NewPrompt(newId, title, content, now));
  }

  /**
   * A prompt just used at a time no other prompt's `lastUsed` exceeds is shown ahead of
   * every prompt of its pin status that was used earlier.
   */
  lemma UsedPromptLeadsItsGroup(s: seq<Prompt>, id: string, now: nat, i: nat)
    requires IsFirstWithId(s, i, id)
    requires forall k :: 0 <= k < |s| ==> LastUsedOrZero(s[k]) <= now
    ensures var u := MarkUsed(s, id, now);
      var r := SortForDisplay(u);
      forall j, k :: 0 <= j < k < |r| && r[k] == u[i] && r[j].isPinned == u[i].isPinned ==>
        LastUsedOrZero(r[j]) == now
  {
    var u := MarkUsed(s, id, now);
    var r := SortForDisplay(u);
    DisplayShape(u);
    forall j | 0 <= j < |r| ensures LastUsedOrZero(r[j]) <= now {
      assert r[j] in multiset(u);
      var m :| 0 <= m < |u| && u[m] == r[j];
    }
  }
}
