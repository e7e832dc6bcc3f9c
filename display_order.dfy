/**
 * The display order of the popup list: the comparator handed to `Array.prototype.sort`
 * in `renderFilteredPrompts`, and the stable sort it induces.
 */
module DisplayOrder {
  import opened PromptModel
  import Seqs

  /** The comparator: pinned first, then the larger `lastUsed || 0` first. */
  function Compare(a: Prompt, b: Prompt): (r: int)
    ensures a.isPinned != b.isPinned ==> (r < 0 <==> a.isPinned)
    ensures a.isPinned == b.isPinned ==> (r <= 0 <==> LastUsedOrZero(b) <= LastUsedOrZero(a))
  {
    if a.isPinned && !b.isPinned then -1
    else if !a.isPinned && b.isPinned then 1
    else LastUsedOrZero(b) - LastUsedOrZero(a)
  }

  /** `a` may be shown before `b`. */
  predicate InOrder(a: Prompt, b: Prompt)
  {
    Compare(a, b) <= 0
  }

  /** `a` and `b` compare equal, so a stable sort keeps them in input order. */
  predicate SameRank(a: Prompt, b: Prompt)
  {
    Compare(a, b) == 0
  }

  /**
   * The comparator is consistent in the sense `Array.prototype.sort` requires
   * (antisymmetric and transitive), so the stable sort's result is well defined.
   */
  lemma ComparatorConsistent(a: Prompt, b: Prompt, c: Prompt)
    ensures Compare(a, b) < 0 <==> Compare(b, a) > 0
    ensures Compare(a, b) == 0 <==> Compare(b, a) == 0
    ensures InOrder(a, b) && InOrder(b, c) ==> InOrder(a, c)
    ensures SameRank(a, b) && SameRank(b, c) ==> SameRank(a, c)
  {
  }

  /** Every earlier prompt may be shown before every later one. */
  predicate Sorted(s: seq<Prompt>)
  {
    forall i, j :: 0 <= i < j < |s| ==> InOrder(s[i], s[j])
  }

  /** The prompts of `s` that rank equal to `p`, in the order of `s`. */
  function RankClass(s: seq<Prompt>, p: Prompt): seq<Prompt>
  {
    Seqs.Filter(s, q => SameRank(q, p))
  }

  /** Insert `x`, which came before all of `t` in the input, in front of the first `y` it may precede. */
  function Insert(x: Prompt, t: seq<Prompt>): (r: seq<Prompt>)
    ensures multiset(r) == multiset(t) + multiset{x}
  {
    if t == [] then [x]
    else if InOrder(x, t[0]) then [x] + t
    else
      assert t == [t[0]] + t[1..];
      [t[0]] + Insert(x, t[1..])
  }

  /** The list `prompts.sort(comparator)` leaves: a stable insertion sort. */
  function SortForDisplay(s: seq<Prompt>): (r: seq<Prompt>)
    ensures multiset(r) == multiset(s)
  {
    if s == [] then []
    else
      assert s == [s[0]] + s[1..];
      Insert(s[0], SortForDisplay(s[1..]))
  }

  lemma {:induction false} InsertSorted(x: Prompt, t: seq<Prompt>)
    requires Sorted(t)
    ensures Sorted(Insert(x, t))
  {
    if t != [] && !InOrder(x, t[0]) {
      InsertSorted(x, t[1..]);
      var r := Insert(x, t);
      forall j | 0 < j < |r| ensures InOrder(r[0], r[j]) {
        assert r[j] in multiset(Insert(x, t[1..]));
        assert r[j] in multiset(t[1..]) + multiset{x};
      }
    }
  }

  /** The displayed list is a permutation of the input in comparator order. */
  lemma {:induction false} SortForDisplaySorted(s: seq<Prompt>)
    ensures Sorted(SortForDisplay(s))
  {
    if s != [] {
      SortForDisplaySorted(s[1..]);
      InsertSorted(s[0], SortForDisplay(s[1..]));
    }
  }

  /**
   * In the displayed list every pinned prompt precedes every unpinned one, and among
   * prompts of equal pin status `lastUsed || 0` never increases.
   */
  lemma DisplayShape(s: seq<Prompt>)
    ensures var r := SortForDisplay(s);
      && |r| == |s|
      && multiset(r) == multiset(s)
      && (forall i, j :: 0 <= i < j < |r| && r[j].isPinned ==> r[i].isPinned)
      && (forall i, j :: 0 <= i < j < |r| && r[i].isPinned == r[j].isPinned ==>
            LastUsedOrZero(r[i]) >= LastUsedOrZero(r[j]))
  {
    SortForDisplaySorted(s);
    assert |multiset(SortForDisplay(s))| == |multiset(s)|;
  }

  lemma {:induction false} InsertRankClass(x: Prompt, t: seq<Prompt>, p: Prompt)
    ensures RankClass(Insert(x, t), p) == RankClass([x] + t, p)
  {
    var f := q => SameRank(q, p);
    if t == [] {
    } else if InOrder(x, t[0]) {
    } else {
      InsertRankClass(x, t[1..], p);
      Seqs.FilterAppend([t[0]], Insert(x, t[1..]), f);
      Seqs.FilterAppend([x], t[1..], f);
      Seqs.FilterAppend([t[0]], t[1..], f);
      Seqs.FilterAppend([x], t, f);
      assert t == [t[0]] + t[1..];
      assert !(f(x) && f(t[0]));
    }
  }

  /** The sort is stable: prompts that compare equal keep their input order. */
  lemma {:induction false} SortIsStable(s: seq<Prompt>, p: Prompt)
    ensures RankClass(SortForDisplay(s), p) == RankClass(s, p)
  {
    if s != [] {
      var f := q => SameRank(q, p);
      SortIsStable(s[1..], p);
      InsertRankClass(s[0], SortForDisplay(s[1..]), p);
      Seqs.FilterAppend([s[0]], SortForDisplay(s[1..]), f);
      Seqs.FilterAppend([s[0]], s[1..], f);
      assert s == [s[0]] + s[1..];
    }
  }

  /** A list already in display order is left as it is. */
  lemma {:induction false} SortOfSorted(s: seq<Prompt>)
    requires Sorted(s)
    ensures SortForDisplay(s) == s
  {
    if s != [] {
      SortOfSorted(s[1..]);
    }
  }

  /** Sorting the displayed list again changes nothing: only the first render reorders. */
  lemma SortIdempotent(s: seq<Prompt>)
    ensures SortForDisplay(SortForDisplay(s)) == SortForDisplay(s)
  {
    SortForDisplaySorted(s);
    SortOfSorted(SortForDisplay(s));
  }

  /** Peeling the first prompt off a list peels it off its rank class, if it belongs there. */
  lemma RankClassCons(x: Prompt, t: seq<Prompt>, p: Prompt)
    ensures RankClass([x] + t, p) == (if SameRank(x, p) then [x] else []) + RankClass(t, p)
  {
    Seqs.FilterAppend([x], t, q => SameRank(q, p));
  }

  /** The first prompts of two sorted lists with the same elements rank equal. */
  lemma SortedHeadsSameRank(r: seq<Prompt>, t: seq<Prompt>)
    requires Sorted(r) && Sorted(t) && multiset(r) == multiset(t) && r != []
    ensures t != [] && SameRank(r[0], t[0])
  {
    assert |multiset(t)| == |multiset(r)|;
    assert t[0] in multiset(r) && r[0] in multiset(t);
    var i :| 0 <= i < |r| && r[i] == t[0];
    var j :| 0 <= j < |t| && t[j] == r[0];
    assert InOrder(r[0], r[i]) && InOrder(t[0], t[j]);
  }

  /** Two sorted lists with the same elements and the same rank classes are equal. */
  lemma {:induction false} SortedUnique(r: seq<Prompt>, t: seq<Prompt>)
    requires Sorted(r) && Sorted(t) && multiset(r) == multiset(t)
    requires forall p :: RankClass(r, p) == RankClass(t, p)
    ensures r == t
  {
    if r == [] {
      assert |multiset(t)| == 0;
    } else {
      SortedHeadsSameRank(r, t);
      assert r == [r[0]] + r[1..];
      assert t == [t[0]] + t[1..];
      RankClassCons(r[0], r[1..], r[0]);
      RankClassCons(t[0], t[1..], r[0]);
      assert SameRank(r[0], r[0]) && SameRank(t[0], r[0]);
      assert RankClass(r, r[0])[0] == r[0];
      assert RankClass(t, r[0])[0] == t[0];
      assert RankClass(r, r[0]) == RankClass(t, r[0]);
      assert r[0] == t[0];
      forall p ensures RankClass(r[1..], p) == RankClass(t[1..], p) {
        RankClassCons(r[0], r[1..], p);
        RankClassCons(t[0], t[1..], p);
        assert RankClass(r, p) == RankClass(t, p);
        var h := if SameRank(r[0], p) then [r[0]] else [];
        assert RankClass(r[1..], p) == (h + RankClass(r[1..], p))[|h|..];
        assert RankClass(t[1..], p) == (h + RankClass(t[1..], p))[|h|..];
      }
      assert multiset(r[1..]) == multiset(t[1..]) by {
        assert multiset(r[1..]) == multiset(r) - multiset{r[0]};
        assert multiset(t[1..]) == multiset(t) - multiset{t[0]};
      }
      SortedUnique(r[1..], t[1..]);
    }
  }

  /**
   * Any stable sort under the comparator yields exactly `SortForDisplay`: a result that
   * is a permutation, in comparator order, and keeps equal-ranked prompts in input order.
   */
  lemma StableSortIsUnique(s: seq<Prompt>, r: seq<Prompt>)
    requires multiset(r) == multiset(s) && Sorted(r)
    requires forall p :: RankClass(r, p) == RankClass(s, p)
    ensures r == SortForDisplay(s)
  {
    SortForDisplaySorted(s);
    forall p ensures RankClass(r, p) == RankClass(SortForDisplay(s), p) {
      SortIsStable(s, p);
    }
    SortedUnique(r, SortForDisplay(s));
  }
}
