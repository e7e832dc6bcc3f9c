/** The popup's two list views before sorting: the search result and the pinned/all filter. */
module Selection {
  import opened PromptModel
  import opened Text
  import Seqs

  /** The two filter modes the popup's buttons select. */
  datatype FilterMode = All | Pinned

  /** The lower-cased title or content includes the lower-cased query. */
  predicate Matches(p: Prompt, query: string)
  {
    Includes(Lower(p.title), Lower(query)) || Includes(Lower(p.content), Lower(query))
  }

  /** `searchPrompts(query)`: the matching prompts, in stored order. */
  function Search(s: seq<Prompt>, query: string): (r: seq<Prompt>)
    ensures |r| <= |s|
    ensures forall p :: p in r ==> p in s && Matches(p, query)
    ensures forall p :: p in s && Matches(p, query) ==> p in r
  {
    Seqs.Filter(s, p => Matches(p, query))
  }

  /** Searching a concatenation is searching each part: the result keeps the stored order. */
  lemma SearchAppend(a: seq<Prompt>, b: seq<Prompt>, query: string)
    ensures Search(a + b, query) == Search(a, query) + Search(b, query)
  {
    Seqs.FilterAppend(a, b, p => Matches(p, query));
  }

  /** Queries that lower-case alike give the same result. */
  lemma SearchIgnoresCase(s: seq<Prompt>, q1: string, q2: string)
    requires Lower(q1) == Lower(q2)
    ensures Search(s, q1) == Search(s, q2)
  {
    Seqs.FilterAgree(s, p => Matches(p, q1), p => Matches(p, q2));
  }

  /** A prompt whose title or content literally contains the query is always found. */
  lemma SearchFindsLiteral(s: seq<Prompt>, query: string, p: Prompt)
    requires p in s
    requires Includes(p.title, query) || Includes(p.content, query)
    ensures p in Search(s, query)
  {
    if Includes(p.title, query) {
      IncludesLower(p.title, query);
    } else {
      IncludesLower(p.content, query);
    }
  }

  /** The empty query matches everything; the search handler never passes it. */
  lemma SearchEmptyQuery(s: seq<Prompt>)
    ensures Search(s, "") == s
  {
    forall p | p in s ensures Matches(p, "") {
      IncludesEmpty(Lower(p.title));
    }
    Seqs.FilterKeepsAll(s, p => Matches(p, ""));
  }

  /** `prompts.filter((p: Prompt) => p.isPinned)`. */
  function PinnedOnly(s: seq<Prompt>): (r: seq<Prompt>)
    ensures |r| <= |s|
    ensures forall p :: p in r ==> p in s && p.isPinned
    ensures forall p :: p in s && p.isPinned ==> p in r
  {
    Seqs.Filter(s, (p: Prompt) => p.isPinned)
  }

  /** The pinned filter keeps stored order. */
  lemma PinnedOnlyAppend(a: seq<Prompt>, b: seq<Prompt>)
    ensures PinnedOnly(a + b) == PinnedOnly(a) + PinnedOnly(b)
  {
    Seqs.FilterAppend(a, b, (p: Prompt) => p.isPinned);
  }

  /** The complement of the pinned filter. */
  function UnpinnedOnly(s: seq<Prompt>): seq<Prompt>
  {
    Seqs.Filter(s, (p: Prompt) => !p.isPinned)
  }

  /** The pinned prompts and the unpinned ones together are exactly the stored prompts. */
  lemma PinnedPartition(s: seq<Prompt>)
    ensures forall p :: multiset(PinnedOnly(s))[p] + multiset(UnpinnedOnly(s))[p] == multiset(s)[p]
  {
    Seqs.FilterPartition(s, (p: Prompt) => p.isPinned, (p: Prompt) => !p.isPinned);
  }

  /** The list `renderPrompts(mode)` hands to the renderer, before sorting. */
  function Visible(mode: FilterMode, s: seq<Prompt>): seq<Prompt>
  {
    match mode
    case All => s
    case Pinned => PinnedOnly(s)
  }
}
