/**
 * The background service worker's two `onInstalled` listeners: seeding the default
 * prompts, and pinning a fixed list of popular prompts by title.
 */
module ServiceWorker {
  import opened PromptModel

  const CurrentVersion := "1.0"

  const PopularPromptTitles: seq<string> := [
    "English Translator and Improver",
    "Linux Terminal",
    "JavaScript Console",
    "Position Interviewer",
    "Excel Sheet"
  ]

  /** Fresh install or version upgrade: prompts missing or empty, or another version stored. */
  predicate NeedsSeed(prompts: Option<seq<Prompt>>, extensionVersion: Option<string>)
  {
    prompts.None? || |prompts.value| == 0 || extensionVersion != Some(CurrentVersion)
  }

  /** The pin pass applied to one prompt: `{...prompt, isPinned: true}` for a popular title. */
  function PinIfPopular(p: Prompt): (r: Prompt)
    ensures r.(isPinned := p.isPinned) == p
    ensures r.isPinned == (p.isPinned || p.title in PopularPromptTitles)
  {
    if p.title in PopularPromptTitles then p.(isPinned := true) else p
  }

  /** `prompts.map(...)`: the pin pass over the whole list. */
  function PinPopular(s: seq<Prompt>): (r: seq<Prompt>)
    ensures |r| == |s|
    ensures forall i :: 0 <= i < |s| ==> r[i] == PinIfPopular(s[i])
  {
    if s == [] then [] else [PinIfPopular(s[0])] + PinPopular(s[1..])
  }

  /** The pin pass never unpins, pins exactly the popular titles, and keeps every other field. */
  lemma PinPopularEffect(s: seq<Prompt>)
    ensures var r := PinPopular(s);
      && |r| == |s|
      && (forall i :: 0 <= i < |s| ==> r[i].(isPinned := s[i].isPinned) == s[i])
      && (forall i :: 0 <= i < |s| && s[i].isPinned ==> r[i].isPinned)
      && (forall i :: 0 <= i < |s| && s[i].title in PopularPromptTitles ==> r[i].isPinned)
      && (forall i :: 0 <= i < |s| && s[i].title !in PopularPromptTitles ==> r[i] == s[i])
  {
  }

  /** Running the pin pass twice is running it once. */
  lemma PinPopularIdempotent(s: seq<Prompt>)
    ensures PinPopular(PinPopular(s)) == PinPopular(s)
  {
  }

  /** A list with no popular title is written back unchanged. */
  lemma PinPopularNoPopular(s: seq<Prompt>)
    requires forall i :: 0 <= i < |s| ==> s[i].title !in PopularPromptTitles
    ensures PinPopular(s) == s
  {
  }

  /** "Linux Terminal" gets pinned and "Other" stays unpinned. */
  lemma PinScenario(a: Prompt, b: Prompt)
    requires a.title == "Linux Terminal" && !a.isPinned
    requires b.title == "Other" && !b.isPinned
    ensures PinPopular([a, b]) == [a.(isPinned := true), b]
  {
    assert "Linux Terminal" == PopularPromptTitles[1];
    assert forall i :: 0 <= i < |PopularPromptTitles| ==> PopularPromptTitles[i] != "Other";
  }

  /** The `prompts` and `extensionVersion` keys of extension storage. */
  class LocalStorage {
    var prompts: Option<seq<Prompt>>
    var extensionVersion: Option<string>

    constructor (prompts: Option<seq<Prompt>>, extensionVersion: Option<string>)
      ensures this.prompts == prompts && this.extensionVersion == extensionVersion
    {
      this.prompts := prompts;
      this.extensionVersion := extensionVersion;
    }

    /** The first `onInstalled` listener: overwrite with the defaults when a seed is needed. */
    method SeedDefaults(defaults: seq<Prompt>)
      modifies this
      ensures NeedsSeed(old(prompts), old(extensionVersion)) ==>
        prompts == Some(defaults) && extensionVersion == Some(CurrentVersion)
      ensures !NeedsSeed(old(prompts), old(extensionVersion)) ==>
        prompts == old(prompts) && extensionVersion == old(extensionVersion)
    {
      if prompts.None? || |prompts.value| == 0 || extensionVersion != Some(CurrentVersion) {
        prompts := Some(defaults);
        extensionVersion := Some(CurrentVersion);
      }
    }

    /** The second `onInstalled` listener: pin popular titles, or write nothing if no prompts are stored. */
    method PinPopularPrompts()
      modifies this
      ensures old(prompts).None? ==> prompts == None
      ensures old(prompts).Some? ==> prompts == Some(PinPopular(old(prompts).value))
      ensures extensionVersion == old(extensionVersion)
    {
      if prompts.Some? {
        var updated := PinPopular(prompts.value);
        prompts := Some(updated);
      }
    }
  }

  /** After a seed with a non-empty default list, a second install leaves storage alone. */
  lemma SeedSettles(defaults: seq<Prompt>)
    requires |defaults| > 0
    ensures !NeedsSeed(Some(defaults), Some(CurrentVersion))
  {
  }

  /** With an empty default list every install seeds again. */
  lemma EmptyDefaultsAlwaysReseed()
    ensures NeedsSeed(Some([]), Some(CurrentVersion))
  {
  }
}
