/** The prompt record shared by the popup and the install seeder, and lookup by id. */
module PromptModel {

  datatype Option<T> = None | Some(value: T)

  /**
   * One stored prompt. `lastUsed` is absent on prompts that were never used
   * (the seeded defaults carry no timestamp); it holds a `Date.now()` value otherwise.
   */
  datatype Prompt = Prompt(
    id: string,
    title: string,
    content: string,
    isPinned: bool,
    lastUsed: Option<nat>)

  /** `p.lastUsed || 0`: an absent timestamp ranks like a zero one. */
  function LastUsedOrZero(p: Prompt): nat
  {
    match p.lastUsed
    case None => 0
    case Some(t) => t
  }

  /** `s[i]` is the prompt that `find(p => p.id === id)` returns. */
  predicate IsFirstWithId(s: seq<Prompt>, i: int, id: string)
  {
    0 <= i < |s| && s[i].id == id && forall k :: 0 <= k < i ==> s[k].id != id
  }

  /** `findIndex(p => p.id === id)`, with `None` for the JavaScript -1. */
  function FindIndex(s: seq<Prompt>, id: string): (r: Option<nat>)
    ensures r.Some? ==> IsFirstWithId(s, r.value, id)
    ensures r.None? <==> forall k :: 0 <= k < |s| ==> s[k].id != id
  {
    if s == [] then None
    else if s[0].id == id then Some(0)
    else match FindIndex(s[1..], id)
      case None => None
      case Some(j) => Some(j + 1)
  }

  /** No two prompts share an id. */
  predicate UniqueIds(s: seq<Prompt>)
  {
    forall i, j :: 0 <= i < j < |s| ==> s[i].id != s[j].id
  }
}
