/**
 * The edits the popup makes to its prompt list, as functions from the old list to the new:
 * the in-place record writes of `togglePin`, `usePrompt` and the edit branch of
 * `savePrompt`, the `unshift` of the add branch, and the `filter` of `deletePrompt`.
 */
module PromptList {
  import opened PromptModel
  import Seqs

  /** The three in-place writes the popup makes to one prompt record. */
  datatype Edit =
    | FlipPin                                           // prompt.isPinned = !prompt.isPinned
    | Touch(now: nat)                                   // prompt.lastUsed = Date.now()
    | Rewrite(title: string, content: string, now: nat) // title, content and lastUsed

  function ApplyEdit(e: Edit, p: Prompt): Prompt
  {
    match e
    case FlipPin => p.(isPinned := !p.isPinned)
    case Touch(now) => p.(lastUsed := Some(now))
    case Rewrite(title, content, now) => p.(title := title, content := content, lastUsed := Some(now))
  }

  /** Apply `e` to the prompt `find(p => p.id === id)` returns; an unknown id changes nothing. */
  function UpdateFirst(s: seq<Prompt>, id: string, e: Edit): (r: seq<Prompt>)
    ensures |r| == |s|
    ensures forall i :: 0 <= i < |s| ==>
      r[i] == if IsFirstWithId(s, i, id) then ApplyEdit(e, s[i]) else s[i]
  {
    match FindIndex(s, id)
    case None => s
    case Some(i) => s[i := ApplyEdit(e, s[i])]
  }

  /** No edit touches the id of a prompt, so the list's ids are kept position by position. */
  lemma UpdateFirstKeepsIds(s: seq<Prompt>, id: string, e: Edit)
    ensures var r := UpdateFirst(s, id, e);
      forall i :: 0 <= i < |s| ==> r[i].id == s[i].id
    ensures UniqueIds(s) ==> UniqueIds(UpdateFirst(s, id, e))
  {
  }

  /** `togglePin(id)`: flips the pin of the first prompt with the id, and changes nothing else. */
  function TogglePin(s: seq<Prompt>, id: string): (r: seq<Prompt>)
    ensures |r| == |s|
    ensures forall i :: 0 <= i < |s| ==> r[i].(isPinned := s[i].isPinned) == s[i]
    ensures forall i :: 0 <= i < |s| ==> (r[i].isPinned != s[i].isPinned <==> IsFirstWithId(s, i, id))
  {
    UpdateFirst(s, id, FlipPin)
  }

  /** Toggling the same prompt twice restores the list. */
  lemma TogglePinTwice(s: seq<Prompt>, id: string)
    ensures TogglePin(TogglePin(s, id), id) == s
  {
    var t := TogglePin(s, id);
    assert forall i :: 0 <= i < |s| ==> (IsFirstWithId(t, i, id) <==> IsFirstWithId(s, i, id));
  }

  /** `usePrompt(id)`: sets `lastUsed` of the first prompt with the id to `now`, and nothing else. */
  function MarkUsed(s: seq<Prompt>, id: string, now: nat): (r: seq<Prompt>)
    ensures |r| == |s|
    ensures forall i :: 0 <= i < |s| ==> r[i].(lastUsed := s[i].lastUsed) == s[i]
    ensures forall i :: 0 <= i < |s| && IsFirstWithId(s, i, id) ==> r[i].lastUsed == Some(now)
    ensures forall i :: 0 <= i < |s| && !IsFirstWithId(s, i, id) ==> r[i] == s[i]
  {
    UpdateFirst(s, id, Touch(now))
  }

  /**
   * The edit branch of `savePrompt`: the first prompt with the id gets the new title and
   * content and `lastUsed = now`; its id and pin, and every other prompt, are kept.
   */
  function EditPrompt(s: seq<Prompt>, id: string, title: string, content: string, now: nat): (r: seq<Prompt>)
    ensures |r| == |s|
    ensures forall i :: 0 <= i < |s| ==> r[i].id == s[i].id && r[i].isPinned == s[i].isPinned
    ensures forall i :: 0 <= i < |s| && IsFirstWithId(s, i, id) ==>
      r[i].title == title && r[i].content == content && r[i].lastUsed == Some(now)
    ensures forall i :: 0 <= i < |s| && !IsFirstWithId(s, i, id) ==> r[i] == s[i]
    ensures (forall i :: 0 <= i < |s| ==> s[i].id != id) ==> r == s
  {
    UpdateFirst(s, id, Rewrite(title, content, now))
  }

  /** The record the add branch of `savePrompt` builds. */
  function NewPrompt(id: string, title: string, content: string, now: nat): Prompt
  {
    Prompt(id, title, content, false, Some(now))
  }

  /** `prompts.unshift(p)`. */
  function AddFront(s: seq<Prompt>, p: Prompt): (r: seq<Prompt>)
    ensures |r| == |s| + 1 && r[0] == p && r[1..] == s
  {
    [p] + s
  }

  /** `prompts.filter(p => p.id !== id)`. */
  function RemoveId(s: seq<Prompt>, id: string): (r: seq<Prompt>)
    ensures forall p :: p in r ==> p in s && p.id != id
    ensures forall p :: p in s && p.id != id ==> p in r
    ensures forall p :: multiset(r)[p] == if p.id != id then multiset(s)[p] else 0
  {
    var keep := (p: Prompt) => p.id != id;
    assert forall p :: multiset(Seqs.Filter(s, keep))[p] == if p.id != id then multiset(s)[p] else 0 by {
      forall p {
        Seqs.FilterCount(s, keep, p);
      }
    }
    Seqs.Filter(s, keep)
  }

  /** Deleting keeps the other prompts in their stored order. */
  lemma RemoveIdAppend(a: seq<Prompt>, b: seq<Prompt>, id: string)
    ensures RemoveId(a + b, id) == RemoveId(a, id) + RemoveId(b, id)
  {
    Seqs.FilterAppend(a, b, (p: Prompt) => p.id != id);
  }

  /** Deleting an id that no prompt carries returns the list unchanged. */
  lemma RemoveAbsentId(s: seq<Prompt>, id: string)
    requires forall k :: 0 <= k < |s| ==> s[k].id != id
    ensures RemoveId(s, id) == s
  {
    Seqs.FilterKeepsAll(s, (p: Prompt) => p.id != id);
  }

  /** Deleting a freshly added prompt undoes the add. */
  lemma RemoveUndoesAdd(s: seq<Prompt>, p: Prompt)
    requires forall k :: 0 <= k < |s| ==> s[k].id != p.id
    ensures RemoveId(AddFront(s, p), p.id) == s
  {
    RemoveIdAppend([p], s, p.id);
    RemoveAbsentId(s, p.id);
  }

  /** Adding a prompt whose id is fresh keeps the ids unique. */
  lemma AddFrontKeepsUniqueIds(s: seq<Prompt>, p: Prompt)
    requires UniqueIds(s)
    requires forall k :: 0 <= k < |s| ==> s[k].id != p.id
    ensures UniqueIds(AddFront(s, p))
  {
  }
}
