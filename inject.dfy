/**
 * The content script's insertion rule. The page is abstracted to the focused element and
 * the result of `querySelectorAll` for each selector; the writes, `focus()` calls,
 * dispatched events and the clipboard write are returned as an effect log, in order.
 */
module Inject {
  import opened PromptModel

  /** The parts of a DOM element the rule looks at; `handle` tells elements apart. */
  datatype Element = Element(
    handle: nat,
    tagName: string,
    isContentEditable: bool,
    contentEditableAttr: Option<string>)   // getAttribute('contenteditable')

  /** `document.activeElement` and what `querySelectorAll` returns per selector. */
  datatype Document = Document(
    activeElement: Option<Element>,
    matches: map<string, seq<Element>>)

  datatype EventType = InputEvent | ChangeEvent

  datatype Effect =
    | SetValue(target: Element, text: string)        // element.value = text
    | SetTextContent(target: Element, text: string)  // element.textContent = text
    | Dispatch(target: Element, event: EventType)    // element.dispatchEvent(new Event(...))
    | Focus(target: Element)                         // element.focus()
    | WriteClipboard(text: string)                   // navigator.clipboard.writeText(text)

  /** The runtime message the popup sends and the answer it gets. */
  datatype Message = Message(action: string, promptContent: string)
  datatype Response = Response(success: bool)

  const InsertAction := "insertPrompt"

  /** The fallback selectors, in the order they are tried. */
  const CommonSelectors: seq<string> := [
    "textarea",
    "input[type=\"text\"]",
    "[contenteditable=\"true\"]",
    ".chat-input",
    "#chat-input",
    "[data-testid*=\"input\"]"
  ]

  /** `document.querySelectorAll(selector)`; a selector the page does not list matches nothing. */
  function QueryAll(doc: Document, selector: string): seq<Element>
  {
    if selector in doc.matches then doc.matches[selector] else []
  }

  predicate IsTextField(e: Element)
  {
    e.tagName == "TEXTAREA" || e.tagName == "INPUT"
  }

  predicate IsEditable(e: Element)
  {
    e.isContentEditable || e.contentEditableAttr == Some("true")
  }

  /** The focused element accepts the text directly. */
  predicate FocusedEditable(doc: Document)
  {
    doc.activeElement.Some? && (IsTextField(doc.activeElement.value) || IsEditable(doc.activeElement.value))
  }

  /** Neither the focused element nor any fallback selector can take the text. */
  predicate NoTarget(doc: Document)
  {
    !FocusedEditable(doc) && FallbackTarget(doc).None?
  }

  /** The position of the first selector that matches anything, or `|selectors|` if none does. */
  function FirstMatching(doc: Document, selectors: seq<string>): (k: nat)
    ensures k <= |selectors|
    ensures forall j :: 0 <= j < k ==> QueryAll(doc, selectors[j]) == []
    ensures k < |selectors| ==> QueryAll(doc, selectors[k]) != []
  {
    if selectors == [] then 0
    else if QueryAll(doc, selectors[0]) != [] then 0
    else 1 + FirstMatching(doc, selectors[1..])
  }

  /** The last match of the first matching fallback selector, if any selector matches. */
  function FallbackTarget(doc: Document): (r: Option<Element>)
    ensures r.None? <==> forall j :: 0 <= j < |CommonSelectors| ==> QueryAll(doc, CommonSelectors[j]) == []
    ensures r.Some? ==> r.value in QueryAll(doc, CommonSelectors[FirstMatching(doc, CommonSelectors)])
  {
    var k := FirstMatching(doc, CommonSelectors);
    if k < |CommonSelectors| then
      var m := QueryAll(doc, CommonSelectors[k]);
      Some(m[|m| - 1])
    else None
  }

  /** How a fallback target takes the text: `value` for text fields, `textContent` otherwise. */
  function WriteText(e: Element, text: string): Effect
  {
    if IsTextField(e) then SetValue(e, text) else SetTextContent(e, text)
  }

  /** Everything `insertPromptIntoPage(text)` does to the page and the clipboard, in order. */
  function InsertionEffects(doc: Document, text: string): seq<Effect>
  {
    if FocusedEditable(doc) then
      var e := doc.activeElement.value;
      if IsTextField(e) then [SetValue(e, text), Dispatch(e, InputEvent), Dispatch(e, ChangeEvent), Focus(e)]
      else [SetTextContent(e, text), Dispatch(e, InputEvent), Focus(e)]
    else
      match FallbackTarget(doc)
      case Some(t) => [Focus(t), WriteText(t, text), Dispatch(t, InputEvent)]
      case None => [WriteClipboard(text)]
  }

  /** The selector loop: the first selector with matches wins, and its last match is taken. */
  method FindFallbackTarget(doc: Document) returns (target: Option<Element>)
    ensures target == FallbackTarget(doc)
  {
    target := None;
    var i := 0;
    while i < |CommonSelectors|
      invariant 0 <= i <= |CommonSelectors|
      invariant forall j :: 0 <= j < i ==> QueryAll(doc, CommonSelectors[j]) == []
      invariant target == None
    {
      var elements := QueryAll(doc, CommonSelectors[i]);
      if |elements| > 0 {
        target := Some(elements[|elements| - 1]);
        assert FirstMatching(doc, CommonSelectors) == i;
        break;
      }
      i := i + 1;
    }
  }

  /** `insertPromptIntoPage`, writing its effects to a log as it goes. */
  method InsertPromptIntoPage(doc: Document, promptContent: string) returns (effects: seq<Effect>)
    ensures effects == InsertionEffects(doc, promptContent)
  {
    effects := [];
    if FocusedEditable(doc) {
      var active := doc.activeElement.value;
      if IsTextField(active) {
        effects := effects + [SetValue(active, promptContent)];
        effects := effects + [Dispatch(active, InputEvent)];
        effects := effects + [Dispatch(active, ChangeEvent)];
      } else {
        // The source tests the contenteditable condition again here; it always holds.
        effects := effects + [SetTextContent(active, promptContent)];
        effects := effects + [Dispatch(active, InputEvent)];
      }
      effects := effects + [Focus(active)];
    } else {
      var target := FindFallbackTarget(doc);
      if target.Some? {
        var t := target.value;
        effects := effects + [Focus(t)];
        if IsTextField(t) {
          effects := effects + [SetValue(t, promptContent)];
        } else {
          effects := effects + [SetTextContent(t, promptContent)];
        }
        effects := effects + [Dispatch(t, InputEvent)];
      } else {
        effects := effects + [WriteClipboard(promptContent)];
      }
    }
  }

  /** The runtime message listener: only `insertPrompt` is acted on, and it is always answered with success. */
  method OnMessage(doc: Document, request: Message) returns (response: Option<Response>, effects: seq<Effect>)
    ensures response.Some? <==> request.action == InsertAction
    ensures response.Some? ==> response.value.success
    ensures effects == if request.action == InsertAction then InsertionEffects(doc, request.promptContent) else []
  {
    response := None;
    effects := [];
    if request.action == InsertAction {
      effects := InsertPromptIntoPage(doc, request.promptContent);
      response := Some(Response(true));
    }
  }

  // Properties of the insertion rule.

  predicate IsWrite(e: Effect)
  {
    e.SetValue? || e.SetTextContent? || e.WriteClipboard?
  }

  predicate IsInputEvent(e: Effect)
  {
    e.Dispatch? && e.event == InputEvent
  }

  /** Exactly one effect of `fx` satisfies `p`. */
  predicate ExactlyOne(fx: seq<Effect>, p: Effect -> bool)
  {
    (exists i :: 0 <= i < |fx| && p(fx[i])) &&
    forall i, j :: 0 <= i < j < |fx| && p(fx[i]) ==> !p(fx[j])
  }

  /** The text is written exactly once, to the page or to the clipboard, and nothing else is written. */
  lemma InsertionWritesOnce(doc: Document, text: string)
    ensures var fx := InsertionEffects(doc, text);
      && ExactlyOne(fx, IsWrite)
      && forall i :: 0 <= i < |fx| && IsWrite(fx[i]) ==> fx[i].text == text
  {
    var fx := InsertionEffects(doc, text);
    if FocusedEditable(doc) || FallbackTarget(doc).Some? {
      assert IsWrite(fx[if FocusedEditable(doc) then 0 else 1]);
    } else {
      assert IsWrite(fx[0]);
    }
  }

  /** The clipboard is used exactly when no focused field accepts the text and no selector matches. */
  lemma ClipboardIsLastResort(doc: Document, text: string)
    ensures WriteClipboard(text) in InsertionEffects(doc, text) <==>
      !FocusedEditable(doc) && forall j :: 0 <= j < |CommonSelectors| ==> QueryAll(doc, CommonSelectors[j]) == []
    ensures WriteClipboard(text) in InsertionEffects(doc, text) ==> InsertionEffects(doc, text) == [WriteClipboard(text)]
  {
    if !FocusedEditable(doc) && FallbackTarget(doc).Some? {
      var k := FirstMatching(doc, CommonSelectors);
      assert QueryAll(doc, CommonSelectors[k]) != [];
    }
  }

  /** `value` is written only to a TEXTAREA or INPUT, `textContent` only to any other element. */
  lemma WriteMatchesElementKind(doc: Document, text: string)
    ensures var fx := InsertionEffects(doc, text);
      && (forall i :: 0 <= i < |fx| && fx[i].SetValue? ==> IsTextField(fx[i].target))
      && (forall i :: 0 <= i < |fx| && fx[i].SetTextContent? ==> !IsTextField(fx[i].target))
  {
  }

  /** A focused field is refocused after the write; a fallback target is focused before it. */
  lemma FocusPlacement(doc: Document, text: string)
    ensures var fx := InsertionEffects(doc, text);
      && (FocusedEditable(doc) ==> fx[|fx| - 1] == Focus(doc.activeElement.value))
      && (!FocusedEditable(doc) && FallbackTarget(doc).Some? ==> fx[0] == Focus(FallbackTarget(doc).value))
      && (forall i :: 0 <= i < |fx| && fx[i].Focus? ==>
            i == (if FocusedEditable(doc) then |fx| - 1 else 0))
  {
  }

  /** A `change` event is dispatched only to a focused text field, and then exactly to it. */
  lemma ChangeOnlyForFocusedField(doc: Document, text: string, e: Element)
    ensures Dispatch(e, ChangeEvent) in InsertionEffects(doc, text) <==>
      doc.activeElement == Some(e) && IsTextField(e)
  {
  }

  /** Unless the clipboard is used, one element takes every effect and gets exactly one `input` event. */
  lemma InsertionHasOneTarget(doc: Document, text: string)
    requires !NoTarget(doc)
    ensures var fx := InsertionEffects(doc, text);
      && (forall i :: 0 <= i < |fx| ==> !fx[i].WriteClipboard?)
      && (forall i, j :: 0 <= i < |fx| && 0 <= j < |fx| ==> fx[i].target == fx[j].target)
      && ExactlyOne(fx, IsInputEvent)
  {
    var fx := InsertionEffects(doc, text);
    assert IsInputEvent(fx[if FocusedEditable(doc) then 1 else 2]);
  }

  /**
   * Selectors after the first matching one are never consulted: pages that differ only
   * in what later selectors match get the same effects.
   */
  lemma {:induction false} LaterSelectorsIgnored(doc1: Document, doc2: Document, selectors: seq<string>, k: nat)
    requires k < |selectors|
    requires forall j :: 0 <= j <= k ==> QueryAll(doc1, selectors[j]) == QueryAll(doc2, selectors[j])
    requires QueryAll(doc1, selectors[k]) != []
    ensures FirstMatching(doc1, selectors) == FirstMatching(doc2, selectors) <= k
  {
    if QueryAll(doc1, selectors[0]) == [] {
      LaterSelectorsIgnored(doc1, doc2, selectors[1..], k - 1);
    }
  }

  /** The same, stated for the whole insertion. */
  lemma InsertionIgnoresLaterSelectors(doc1: Document, doc2: Document, k: nat, text: string)
    requires k < |CommonSelectors|
    requires doc1.activeElement == doc2.activeElement
    requires forall j :: 0 <= j <= k ==> QueryAll(doc1, CommonSelectors[j]) == QueryAll(doc2, CommonSelectors[j])
    requires QueryAll(doc1, CommonSelectors[k]) != []
    ensures InsertionEffects(doc1, text) == InsertionEffects(doc2, text)
  {
    LaterSelectorsIgnored(doc1, doc2, CommonSelectors, k);
  }

  /** A focused textarea receives the text through `value`, then `input` and `change`, then focus. */
  lemma FocusedTextareaScenario(e: Element, matches: map<string, seq<Element>>)
    requires e.tagName == "TEXTAREA"
    ensures InsertionEffects(Document(Some(e), matches), "hello") ==
      [SetValue(e, "hello"), Dispatch(e, InputEvent), Dispatch(e, ChangeEvent), Focus(e)]
  {
  }

  /** With nothing focused and two `.chat-input` matches only, the second one receives the text. */
  lemma LastChatInputScenario(a: Element, b: Element)
    ensures var doc := Document(None, map[".chat-input" := [a, b]]);
      InsertionEffects(doc, "hi") == [Focus(b), WriteText(b, "hi"), Dispatch(b, InputEvent)]
  {
    var doc := Document(None, map[".chat-input" := [a, b]]);
    assert QueryAll(doc, CommonSelectors[0]) == [];
    assert QueryAll(doc, CommonSelectors[1]) == [];
    assert QueryAll(doc, CommonSelectors[2]) == [];
    assert CommonSelectors[3] == ".chat-input";
    assert FirstMatching(doc, CommonSelectors) == 3;
  }

  /** With nothing focused and nothing matching, only the clipboard receives the text. */
  lemma NoTargetScenario(text: string)
    ensures InsertionEffects(Document(None, map[]), text) == [WriteClipboard(text)]
  {
  }
}
