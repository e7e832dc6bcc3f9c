# Prompt Manager extension — Dafny model

A model of the logic of a browser extension that keeps a personal library of text
prompts and inserts one into the focused field of a web page. Three parts are modelled:

- **The popup's prompt library** (`PromptManager` in `popup/popup.js`): the in-memory list,
  the id being edited and the current filter; search, the pinned/all filter and the display
  sort; and the add/edit/pin/use/delete handlers. The class `Popup.PromptManager` keeps those
  fields and a `stored` field for the `prompts` key of extension storage. Each handler's
  contract ties the new list to a pure function of the old one. Those functions live in
  `PromptList`, `Selection` and `DisplayOrder`, and their properties are proved as lemmas.
  The display sort modifies `this.prompts` in place in the `'all'` view: `renderPrompts`
  passes the array itself to `renderFilteredPrompts`, which sorts it. So every render of that
  view replaces `prompts` with its display order, and the next save persists that order.
  `AfterRender` states this, and every handler that re-renders says so in its contract. Saves
  happen before the re-render, so `stored` receives the list before sorting.
- **The page inserter** (`content-scripts/inject.js`). The page is abstracted to the focused
  element and what `querySelectorAll` returns for each selector. `Inject.InsertPromptIntoPage`
  returns what the script does as an ordered effect log: writes to `value` or `textContent`,
  `focus()` calls, dispatched `input`/`change` events and the clipboard write. The selector
  loop is the method `Inject.FindFallbackTarget`.
- **The install seeder** (`background/service-worker.js`). `ServiceWorker.LocalStorage` holds
  the `prompts` and `extensionVersion` keys. `SeedDefaults` is the seed decision and
  `PinPopularPrompts` is the pin-by-title pass. `DEFAULT_PROMPTS` is a parameter.

Modules: `Text` (trim, lower-case, includes), `Seqs` (filter), `PromptModel` (the prompt
record and lookup by id), `DisplayOrder`, `Selection`, `PromptList`, `Popup`, `Inject` and
`ServiceWorker`.

Two behaviours a reader might expect differ from what the code does; the model follows
the code:

- One would expect the display order to be a view only, with storage keeping the order in
  which prompts were added. The code persists the display order through the in-place sort
  described above.
- One would expect a confirmed delete to remove the one prompt the user clicked. The code
  removes every prompt carrying that id (`filter` at `popup/popup.js:235`).

The display sort is modelled by a stable insertion sort, `DisplayOrder.SortForDisplay`.
`DisplayOrder.StableSortIsUnique` proves that any stable sort under the source's comparator
gives the same result. ECMAScript requires `Array.prototype.sort` to be stable, so the
browser's sort gives this result too.

## Model

| member | source | states |
|---|---|---|
| Text.Trim | popup/popup.js:186-187 | the result is a slice of the input with only JavaScript whitespace cut from either end, and has no whitespace at either end; it is empty exactly when every character of the input is whitespace |
| Text.Lower | popup/popup.js:71-74 | lower-casing keeps the length and maps every character on its own (ASCII letters to lower case, others unchanged) |
| Text.Includes | popup/popup.js:73-74 | `includes`, scanning the start positions from the left; `IncludesIff` states its meaning |
| Text.IncludesIff | popup/popup.js:73-74 | `includes` holds exactly when the needle occurs at some position of the string |
| Text.IncludesLower | popup/popup.js:71-74 | a literal occurrence is still found after both sides are lower-cased |
| Seqs.Filter | popup/popup.js:72-75 | `filter` keeps exactly the elements that pass, and never lengthens the list |
| Seqs.FilterAppend | popup/popup.js:235 | filtering distributes over concatenation, so kept elements keep their relative order |
| PromptModel.FindIndex | popup/popup.js:195 | returns the first index whose id matches, and None exactly when no prompt has the id |
| DisplayOrder.Compare | popup/popup.js:101-105 | between different pin statuses the pinned prompt comes first; within one pin status a prompt may precede another exactly when its `lastUsed` (missing as 0) is at least the other's |
| DisplayOrder.ComparatorConsistent | popup/popup.js:101-105 | the comparator is antisymmetric and transitive, as `sort` requires |
| DisplayOrder.SortForDisplay | popup/popup.js:101-105 | the sorted list is a permutation of its input |
| DisplayOrder.SortForDisplaySorted | popup/popup.js:101-105 | every earlier prompt compares at most equal to every later one |
| DisplayOrder.DisplayShape | popup/popup.js:100-105 | pinned prompts precede unpinned ones; within equal pin status lastUsed (missing as 0) never increases; same elements and length |
| DisplayOrder.SortIsStable | popup/popup.js:101-105 | prompts that compare equal keep their input order |
| DisplayOrder.StableSortIsUnique | popup/popup.js:101-105 | any sorted, stable permutation of the input equals `SortForDisplay` |
| DisplayOrder.SortIdempotent | popup/popup.js:101-105 | sorting the display order again changes nothing |
| Selection.Matches | popup/popup.js:72-74 | a prompt matches when its lower-cased title or content includes the lower-cased query; `SearchIgnoresCase` and `SearchFindsLiteral` state its properties |
| Selection.Search | popup/popup.js:70-76 | the result holds exactly the prompts whose lower-cased title or content includes the lower-cased query |
| Selection.SearchAppend | popup/popup.js:72-75 | search results keep stored order |
| Selection.SearchIgnoresCase | popup/popup.js:71-74 | queries that lower-case alike give identical results |
| Selection.SearchFindsLiteral | popup/popup.js:71-74 | a prompt whose title or content contains the query verbatim is always found |
| Selection.SearchEmptyQuery | popup/popup.js:41-48 | the empty query would match everything, which is why the handler treats it separately |
| Selection.PinnedOnly | popup/popup.js:86-88 | the pinned view holds exactly the prompts with `isPinned` set |
| Selection.PinnedOnlyAppend | popup/popup.js:87 | the pinned view keeps stored order |
| Selection.PinnedPartition | popup/popup.js:86-88 | pinned and unpinned prompts together make up the stored list, counting duplicates |
| Selection.Visible | popup/popup.js:84-88 | the 'all' view shows the whole list; the pinned view shows `PinnedOnly` |
| PromptList.UpdateFirst | popup/popup.js:195-200 | an in-place write changes only the first prompt with the id; an absent id changes nothing |
| PromptList.UpdateFirstKeepsIds | popup/popup.js:195-200 | no in-place write changes an id, so unique ids stay unique |
| PromptList.TogglePin | popup/popup.js:166-170 | only the pin of the first prompt with the id flips; every other field and prompt is kept |
| PromptList.TogglePinTwice | popup/popup.js:170 | toggling the same id twice restores the list |
| PromptList.MarkUsed | popup/popup.js:147-158 | only `lastUsed` of the first prompt with the id changes, to `now` |
| PromptList.EditPrompt | popup/popup.js:194-201 | title, content and `lastUsed` of the first prompt with the id are replaced; ids, pins and other prompts are kept; an unknown id changes nothing |
| PromptList.NewPrompt | popup/popup.js:203-209 | a new prompt carries the given id, title and content, is not pinned and was last used now |
| PromptList.AddFront | popup/popup.js:203-209 | `unshift` puts the new prompt at index 0, followed by the old list unchanged |
| PromptList.RemoveId | popup/popup.js:235 | no prompt with the id remains, and every other prompt does, each with as many copies as before |
| PromptList.RemoveIdAppend | popup/popup.js:235 | delete keeps the remaining prompts in stored order |
| PromptList.RemoveAbsentId | popup/popup.js:235 | deleting an id no prompt carries leaves the list unchanged |
| PromptList.RemoveUndoesAdd | popup/popup.js:203-210 | deleting a freshly added prompt restores the list before the add |
| PromptList.AddFrontKeepsUniqueIds | popup/popup.js:203-209 | adding a prompt with a fresh id keeps ids unique |
| Popup.Loaded | popup/popup.js:18 | a missing stored list reads as empty, and a stored list is taken as it is |
| Popup.IsEditing | popup/popup.js:194 | an edit is in progress only for a truthy id, so an empty-string id counts as none |
| Popup.SavedList | popup/popup.js:194-210 | with an edit in progress the first prompt with that id is rewritten; otherwise the new prompt is put in front |
| Popup.AfterRender | popup/popup.js:84-105 | rendering the 'all' view leaves `prompts` sorted with the same elements; the pinned view leaves it as it was |
| Popup.RenderAllSettles | popup/popup.js:85-105 | only the first render of the 'all' view reorders `prompts` |
| Popup.AddThenDelete | popup/popup.js:202-210 | an add yields the new, unpinned prompt with `lastUsed = now` at index 0 and the old list after it, which a delete of its id restores |
| Popup.UsedPromptLeadsItsGroup | popup/popup.js:158 | a prompt just used at the latest time is shown after no prompt of its pin status that was used earlier |
| Popup.PromptManager.constructor | popup/popup.js:2-13 | the popup opens with the loaded list in display order, no prompt being edited and the 'all' filter |
| Popup.PromptManager.LoadPrompts | popup/popup.js:15-24 | an absent stored list loads as empty |
| Popup.PromptManager.SavePrompts | popup/popup.js:26-33 | storage then holds the in-memory list, so a later load returns it |
| Popup.PromptManager.RenderPrompts | popup/popup.js:84-98 | the shown list is the sorted view; in the 'all' view `prompts` itself is replaced by its sorted order |
| Popup.PromptManager.RenderBasedOnFilter | popup/popup.js:78-82 | renders the current filter's view |
| Popup.PromptManager.OnSearchInput | popup/popup.js:41-49 | a non-empty trimmed query shows the sorted search result and leaves `prompts` alone; an empty one re-renders the filter view |
| Popup.PromptManager.OnShowPinned | popup/popup.js:51-54 | the filter becomes pinned and the sorted pinned prompts are shown; `prompts` is untouched |
| Popup.PromptManager.OnShowAll | popup/popup.js:56-59 | the filter becomes all and `prompts` is put in display order |
| Popup.PromptManager.OnAddClicked | popup/popup.js:36-39 | the modal opens for a new prompt: nothing is being edited |
| Popup.PromptManager.EditPrompt | popup/popup.js:175-183 | a known id becomes the one being edited; an unknown id changes nothing |
| Popup.PromptManager.HideAddModal | popup/popup.js:225-230 | nothing is being edited afterwards |
| Popup.PromptManager.UsePrompt | popup/popup.js:147-164 | when the id is known and the platform calls succeed, the content is sent as an `insertPrompt` message, only `lastUsed` changes and the list is saved; otherwise nothing changes |
| Popup.PromptManager.TogglePin | popup/popup.js:166-173 | the toggled list is saved and then re-rendered; an unknown id changes nothing |
| Popup.PromptManager.SavePrompt | popup/popup.js:185-215 | rejected exactly when the trimmed title or content is empty, changing nothing; otherwise the edited or extended list is saved and re-rendered, and nothing is being edited |
| Popup.PromptManager.WriteSaved | popup/popup.js:194-210 | an edit goes to the prompt being edited if it still exists, and otherwise a new prompt is put in front |
| Popup.PromptManager.DeletePrompt | popup/popup.js:232-239 | a declined confirmation changes nothing; a confirmed one saves the list without the id, then re-renders |
| Inject.FirstMatching | content-scripts/inject.js:45-61 | the position of the first selector with matches: every earlier selector matches nothing |
| Inject.FallbackTarget | content-scripts/inject.js:54-61 | there is no fallback target exactly when every selector matches nothing; otherwise it is a match of the first matching selector |
| Inject.FindFallbackTarget | content-scripts/inject.js:54-61 | the loop picks the last match of the first matching selector, or nothing |
| Inject.InsertionEffects | content-scripts/inject.js:12-79 | the effect log of one insertion; `InsertionWritesOnce`, `ClipboardIsLastResort` and the other `Inject` lemmas state its properties |
| Inject.InsertPromptIntoPage | content-scripts/inject.js:12-79 | the effects are those of the focused-field, fallback or clipboard path, in source order |
| Inject.OnMessage | content-scripts/inject.js:5-10 | only `insertPrompt` inserts, and it is always answered with success |
| Inject.InsertionWritesOnce | content-scripts/inject.js:25-76 | exactly one write happens, to the page or the clipboard, and it carries the prompt text |
| Inject.ClipboardIsLastResort | content-scripts/inject.js:63-77 | the clipboard is written exactly when no focused field takes the text and no selector matches, and then nothing else happens |
| Inject.ChangeOnlyForFocusedField | content-scripts/inject.js:23-37 | a `change` event goes exactly to a focused TEXTAREA or INPUT |
| Inject.InsertionHasOneTarget | content-scripts/inject.js:16-71 | without the clipboard, every effect targets one element, which gets exactly one `input` event |
| Inject.WriteMatchesElementKind | content-scripts/inject.js:23-33 | `value` is written only to TEXTAREA/INPUT and `textContent` only to other elements |
| Inject.FocusPlacement | content-scripts/inject.js:40 | a focused field is refocused after the write; a fallback target is focused first; no other focus |
| Inject.LaterSelectorsIgnored | content-scripts/inject.js:55-60 | selectors after the first matching one do not affect which selector wins |
| Inject.InsertionIgnoresLaterSelectors | content-scripts/inject.js:45-61 | pages that differ only in later selectors get the same effects |
| Inject.FocusedTextareaScenario | content-scripts/inject.js:16-40 | a focused textarea gets the value, then `input`, then `change`, then focus |
| Inject.LastChatInputScenario | content-scripts/inject.js:54-71 | with two `.chat-input` matches, the second is focused, receives the text by the write its kind takes, and gets `input` |
| Inject.NoTargetScenario | content-scripts/inject.js:73-77 | with no target, the text goes to the clipboard only |
| ServiceWorker.NeedsSeed | background/service-worker.js:11 | the defaults are written when stored prompts are absent or empty or the stored version is not 1.0 |
| ServiceWorker.PinIfPopular | background/service-worker.js:37-42 | a prompt is pinned when its title is popular, and every other field is kept |
| ServiceWorker.PinPopular | background/service-worker.js:37-42 | the pin pass keeps length and order and maps each prompt on its own |
| ServiceWorker.PinPopularEffect | background/service-worker.js:35-44 | never unpins; popular titles end pinned; other prompts are returned unchanged |
| ServiceWorker.PinPopularIdempotent | background/service-worker.js:37-42 | applying the pin pass twice equals applying it once |
| ServiceWorker.PinPopularNoPopular | background/service-worker.js:37-42 | a list without popular titles is written back unchanged |
| ServiceWorker.PinScenario | background/service-worker.js:26-42 | "Linux Terminal" becomes pinned and "Other" stays unpinned |
| ServiceWorker.LocalStorage.SeedDefaults | background/service-worker.js:7-19 | the defaults and version 1.0 are written exactly when prompts are absent or empty or the version differs; otherwise storage is unchanged |
| ServiceWorker.LocalStorage.PinPopularPrompts | background/service-worker.js:35-47 | absent prompts: nothing is written; otherwise the pin pass's result is written back |
| ServiceWorker.SeedSettles | background/service-worker.js:11 | after a seed with non-empty defaults, the next install does not seed again |
| ServiceWorker.EmptyDefaultsAlwaysReseed | background/service-worker.js:11 | with an empty default list, every install seeds again |

## Left out

- Storage failures. A failed read is the same as an absent key (`LoadPrompts` gives an empty list). A failed write is not modelled: `SavePrompts` always succeeds. `console` logging is left out.
- HTML building, `innerHTML`, the per-button `onclick` wiring and the 100-character preview are left out. The render methods return the list that would be shown. An empty list stands for the "No prompts to show." message.
- The modal's DOM fields and its visibility are left out. `SavePrompt` takes the raw field values as parameters. The prefill in `editPrompt` and the clearing in `showAddModal`/`hideAddModal` are not modelled. `alert` is the `Rejected` outcome.
- `Date.now()` is a parameter. The add branch calls it twice (once for the id, once for `lastUsed`), so the model takes `newId` and `now` separately. Ids are not proved unique. The lemmas about unique ids require a fresh id instead.
- Popup.PromptManager.UsePrompt: one flag, `platformOk`, stands for both the clipboard write and the tab query. The clipboard write itself is not returned as an effect. Whether the message reaches a tab, and `window.close()`, are not modelled.
- `confirm()` is the `confirmed` parameter of `DeletePrompt`.
- Text.Lower: lower-cases ASCII letters only. JavaScript's `toLowerCase` follows full Unicode case mapping.
- `lastUsed` is a natural number or absent. Non-numeric or `NaN` timestamps are not modelled.
- The `setTimeout(..., 1000)` ordering of the two install listeners is a timing race. The seed decision and the pin pass are separate methods, and either order can be composed.
- The contents of `DEFAULT_PROMPTS` are not part of this model: they come from `default-prompts.js`. They are the `defaults` parameter.
- DOM query semantics, event bubbling and framework reactions to the events are left out. The page is a map from selector to matched elements, and the effects are a log. Setting `value` on non-text `INPUT` types is not distinguished.
- Inject.OnMessage: `promptContent` is a string. A message whose content has another type is not modelled.
- `currentFilter` only ever holds `'all'` or `'pinned'`; the source's comment mentions category values that no code sets. The guard in `renderBasedOnFilter` therefore always holds.
