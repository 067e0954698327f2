/** The rule list shared by both revisions of the checklist: the rule record and
    the `map`, `filter` and `sort` expressions computed from the rule list, both
    those handed to `setRules` and those computed at render time. Every
    operation here is a pure function of the old list. */
module RuleList {

  /** A checklist rule. `order` is the persisted sort position; paste.js never
      reads or writes it. */
  datatype Rule = Rule(id: string, text: string, checked: bool, pinned: bool, order: int)

  /** The two boolean fields a handler flips. */
  datatype Flag = Checked | Pinned

  /** The field assignment of a spread `{ ...rule, field: value }`. */
  datatype Edit = SetFlag(flag: Flag, value: bool) | SetText(text: string)

  function FlagOf(r: Rule, f: Flag): bool
  {
    match f
    case Checked => r.checked
    case Pinned => r.pinned
  }

  /** The record a spread edit builds: id and order always survive; a flag
      edit sets that flag and keeps the text and the other flag; a text edit sets
      the text and keeps both flags. */
  function Apply(r: Rule, e: Edit): (r': Rule)
    ensures r'.id == r.id && r'.order == r.order
    ensures e.SetFlag? ==> FlagOf(r', e.flag) == e.value && r'.text == r.text
    ensures e.SetFlag? && e.flag == Checked ==> r'.pinned == r.pinned
    ensures e.SetFlag? && e.flag == Pinned ==> r'.checked == r.checked
    ensures e.SetText? ==> r'.text == e.text && r'.checked == r.checked && r'.pinned == r.pinned
  {
    match e
    case SetFlag(Checked, v) => r.(checked := v)
    case SetFlag(Pinned, v) => r.(pinned := v)
    case SetText(t) => r.(text := t)
  }

  // ---------------------------------------------------------------------------
  // map

  /** `rules.map(rule => rule.id === id ? { ...rule, <e> } : rule)`: every rule
      whose id matches gets the edit, every other rule stays as it was, in place. */
  function Update(s: seq<Rule>, id: string, e: Edit): (r: seq<Rule>)
    ensures |r| == |s|
    ensures forall i :: 0 <= i < |s| && s[i].id != id ==> r[i] == s[i]
    ensures forall i :: 0 <= i < |s| && s[i].id == id ==> r[i] == Apply(s[i], e)
  {
    if s == [] then []
    else [if s[0].id == id then Apply(s[0], e) else s[0]] + Update(s[1..], id, e)
  }

  /** `rules.map(rule => ({ ...rule, <e> }))`: the edit applied to every rule. */
  function ApplyAll(s: seq<Rule>, e: Edit): (r: seq<Rule>)
    ensures |r| == |s|
    ensures forall i :: 0 <= i < |s| ==> r[i] == Apply(s[i], e)
  {
    if s == [] then [] else [Apply(s[0], e)] + ApplyAll(s[1..], e)
  }

  /** Toggling a flag from its current value `c` and then toggling it back
      (the second call is passed the new value `!c`) restores the list. */
  lemma {:induction false} ToggleTwiceRestores(s: seq<Rule>, id: string, f: Flag, c: bool)
    requires forall i :: 0 <= i < |s| && s[i].id == id ==> FlagOf(s[i], f) == c
    ensures Update(Update(s, id, SetFlag(f, !c)), id, SetFlag(f, !!c)) == s
  {
    if s != [] {
      ToggleTwiceRestores(s[1..], id, f, c);
      var once := Update(s, id, SetFlag(f, !c));
      assert once == [once[0]] + Update(s[1..], id, SetFlag(f, !c));
    }
  }

  /** Applying the same whole-list edit twice is the same as applying it once. */
  lemma {:induction false} ApplyAllIdempotent(s: seq<Rule>, e: Edit)
    ensures ApplyAll(ApplyAll(s, e), e) == ApplyAll(s, e)
  {
    if s != [] {
      ApplyAllIdempotent(s[1..], e);
      assert ApplyAll(s, e)[1..] == ApplyAll(s[1..], e);
    }
  }

  // ---------------------------------------------------------------------------
  // Sort keys. Each comparator in the source compares an integer rank of its two
  // arguments, so a stable sort by that rank is exactly what `Array.prototype.sort`
  // (stable since ES2019) computes.

  /** `ByOrder`: `(a, b) => a.order - b.order`.
      `PinnedFirst`: `(a, b) => b.pinned - a.pinned`.
      `PinnedThenUnchecked`: pinned before unpinned, then `a.checked - b.checked`. */
  datatype SortKey = ByOrder | PinnedFirst | PinnedThenUnchecked

  function Rank(k: SortKey, r: Rule): int
  {
    match k
    case ByOrder => r.order
    case PinnedFirst => if r.pinned then 0 else 1
    case PinnedThenUnchecked => (if r.pinned then 0 else 2) + (if r.checked then 1 else 0)
  }

  /** A JavaScript boolean in arithmetic: `true` is 1, `false` is 0. */
  function BoolToNumber(b: bool): int
  {
    if b then 1 else 0
  }

  /** The comparators as the source writes them. */
  function Compare(k: SortKey, a: Rule, b: Rule): int
  {
    match k
    case ByOrder => a.order - b.order
    case PinnedFirst => BoolToNumber(b.pinned) - BoolToNumber(a.pinned)
    case PinnedThenUnchecked =>
      if a.pinned != b.pinned then BoolToNumber(b.pinned) - BoolToNumber(a.pinned)
      else BoolToNumber(a.checked) - BoolToNumber(b.checked)
  }

  /** Each comparator orders two rules exactly as their ranks do: it is negative,
      zero or positive as the first rank is below, equal to or above the second.
      So sorting by the comparator is sorting by the rank. */
  lemma RankMatchesComparator(k: SortKey, a: Rule, b: Rule)
    ensures Compare(k, a, b) < 0 <==> Rank(k, a) < Rank(k, b)
    ensures Compare(k, a, b) == 0 <==> Rank(k, a) == Rank(k, b)
    ensures Compare(k, a, b) > 0 <==> Rank(k, a) > Rank(k, b)
  {
  }

  // ---------------------------------------------------------------------------
  // filter

  /** The predicate of a `filter` call. */
  datatype Criterion = IsPinned | IsUnpinned | IdOtherThan(id: string) | RankIs(key: SortKey, rank: int)

  predicate Keeps(c: Criterion, r: Rule)
  {
    match c
    case IsPinned => r.pinned
    case IsUnpinned => !r.pinned
    case IdOtherThan(id) => r.id != id
    case RankIs(k, v) => Rank(k, r) == v
  }

  /** `rules.filter(c)`: exactly the rules of the input that pass. */
  function Filter(s: seq<Rule>, c: Criterion): (r: seq<Rule>)
    ensures |r| <= |s|
  {
    if s == [] then []
    else (if Keeps(c, s[0]) then [s[0]] else []) + Filter(s[1..], c)
  }

  /** Exactly the rules of the input that pass are in the result. */
  lemma {:induction false} FilterMembers(s: seq<Rule>, c: Criterion)
    ensures forall x :: x in Filter(s, c) <==> x in s && Keeps(c, x)
  {
    if s != [] {
      FilterMembers(s[1..], c);
      assert s == [s[0]] + s[1..];
    }
  }

  /** Each rule that passes keeps its multiplicity; every other rule is gone. */
  lemma {:induction false} FilterCount(s: seq<Rule>, c: Criterion, x: Rule)
    ensures multiset(Filter(s, c))[x] == if Keeps(c, x) then multiset(s)[x] else 0
  {
    if s != [] {
      FilterCount(s[1..], c, x);
      assert s == [s[0]] + s[1..];
      assert multiset(s) == multiset{s[0]} + multiset(s[1..]);
      var rest := Filter(s[1..], c);
      if Keeps(c, s[0]) {
        assert multiset(Filter(s, c)) == multiset{s[0]} + multiset(rest);
      } else {
        assert Filter(s, c) == rest;
      }
    }
  }

  /** Filtering keeps relative order: it distributes over concatenation. */
  lemma {:induction false} FilterConcat(a: seq<Rule>, b: seq<Rule>, c: Criterion)
    ensures Filter(a + b, c) == Filter(a, c) + Filter(b, c)
  {
    if a != [] {
      FilterConcat(a[1..], b, c);
      var h: seq<Rule> := if Keeps(c, a[0]) then [a[0]] else [];
      var x, y := Filter(a[1..], c), Filter(b, c);
      assert (a + b)[0] == a[0];
      assert (a + b)[1..] == a[1..] + b;
      assert Filter(a + b, c) == h + (x + y);
      assert Filter(a, c) == h + x;
      assert h + (x + y) == (h + x) + y;
    } else {
      assert a + b == b;
    }
  }

  lemma {:induction false} FilterKeepsAll(s: seq<Rule>, c: Criterion)
    requires forall i :: 0 <= i < |s| ==> Keeps(c, s[i])
    ensures Filter(s, c) == s
  {
    if s != [] {
      FilterKeepsAll(s[1..], c);
    }
  }

  lemma {:induction false} FilterKeepsNone(s: seq<Rule>, c: Criterion)
    requires forall i :: 0 <= i < |s| ==> !Keeps(c, s[i])
    ensures Filter(s, c) == []
  {
    if s != [] {
      FilterKeepsNone(s[1..], c);
    }
  }

  /** A filter that rejects exactly one position cuts out just that rule. */
  lemma {:induction false} FilterDropsOne(s: seq<Rule>, k: nat, c: Criterion)
    requires k < |s| && !Keeps(c, s[k])
    requires forall i :: 0 <= i < |s| && i != k ==> Keeps(c, s[i])
    ensures Filter(s, c) == s[..k] + s[k+1..]
  {
    var t := s[1..];
    if k == 0 {
      assert forall i :: 0 <= i < |t| ==> Keeps(c, t[i]) by {
        forall i | 0 <= i < |t| ensures Keeps(c, t[i]) {
          assert t[i] == s[i + 1];
        }
      }
      FilterKeepsAll(t, c);
    } else {
      assert forall i :: 0 <= i < |t| && i != k - 1 ==> Keeps(c, t[i]) by {
        forall i | 0 <= i < |t| && i != k - 1 ensures Keeps(c, t[i]) {
          assert t[i] == s[i + 1];
        }
      }
      assert t[k - 1] == s[k];
      FilterDropsOne(t, k - 1, c);
      assert Filter(s, c) == [s[0]] + (t[..k-1] + t[k..]);
      assert [s[0]] + t[..k-1] == s[..k];
      assert t[k..] == s[k+1..];
    }
  }

  lemma {:induction false} FilterSameCriterion(s: seq<Rule>, c: Criterion, d: Criterion)
    requires forall x :: Keeps(c, x) == Keeps(d, x)
    ensures Filter(s, c) == Filter(s, d)
  {
    if s != [] {
      FilterSameCriterion(s[1..], c, d);
    }
  }

  /** `pinnedRules` and `unpinnedRules` partition the list: every rule is in
      exactly one of them, with its multiplicity, and the lengths add up. */
  lemma PinPartition(s: seq<Rule>)
    ensures multiset(Filter(s, IsPinned)) + multiset(Filter(s, IsUnpinned)) == multiset(s)
    ensures |Filter(s, IsPinned)| + |Filter(s, IsUnpinned)| == |s|
    ensures forall x :: x in s ==> (x in Filter(s, IsPinned) <==> !(x in Filter(s, IsUnpinned)))
  {
    var p, u := Filter(s, IsPinned), Filter(s, IsUnpinned);
    FilterMembers(s, IsPinned);
    FilterMembers(s, IsUnpinned);
    forall x ensures (multiset(p) + multiset(u))[x] == multiset(s)[x] {
      FilterCount(s, IsPinned, x);
      FilterCount(s, IsUnpinned, x);
    }
    assert multiset(p) + multiset(u) == multiset(s);
    assert |multiset(p) + multiset(u)| == |multiset(s)|;
  }

  /** A list in which no unpinned rule precedes a pinned one. */
  predicate PinsFirst(s: seq<Rule>)
  {
    forall i, j :: 0 <= i < j < |s| && s[j].pinned ==> s[i].pinned
  }

  /** A list with its pinned rules first is its pinned block followed by its
      unpinned block. */
  lemma {:induction false} SplitAtPins(s: seq<Rule>)
    requires PinsFirst(s)
    ensures Filter(s, IsPinned) + Filter(s, IsUnpinned) == s
  {
    if s != [] {
      if s[0].pinned {
        SplitAtPins(s[1..]);
      } else {
        assert forall i :: 0 <= i < |s| ==> !s[i].pinned;
        FilterKeepsAll(s, IsUnpinned);
        FilterKeepsNone(s, IsPinned);
      }
    }
  }

  // ---------------------------------------------------------------------------
  // sort

  predicate Sorted(k: SortKey, s: seq<Rule>)
  {
    forall i, j :: 0 <= i < j < |s| ==> Rank(k, s[i]) <= Rank(k, s[j])
  }

  /** Places `x` before the first rule of rank at least its own, so that `x`,
      which came first in the input, stays ahead of rules with equal rank. */
  function Insert(k: SortKey, x: Rule, s: seq<Rule>): (r: seq<Rule>)
    ensures multiset(r) == multiset(s) + multiset{x}
    ensures r[0] == x || (s != [] && r[0] == s[0])
  {
    if s == [] then [x]
    else if Rank(k, x) <= Rank(k, s[0]) then [x] + s
    else
      var t := Insert(k, x, s[1..]);
      assert s == [s[0]] + s[1..];
      ConsMultiset(s[0], t, s[1..], x);
      [s[0]] + t
  }

  /** Inserting into a sorted list keeps it sorted. */
  lemma {:induction false} InsertSorted(k: SortKey, x: Rule, s: seq<Rule>)
    requires Sorted(k, s)
    ensures Sorted(k, Insert(k, x, s))
  {
    if s != [] {
      if Rank(k, x) <= Rank(k, s[0]) {
        ConsSorted(k, x, s);
      } else {
        var tail := s[1..];
        assert Sorted(k, tail);
        InsertSorted(k, x, tail);
        assert tail != [] ==> Rank(k, s[0]) <= Rank(k, tail[0]);
        ConsSorted(k, s[0], Insert(k, x, tail));
      }
    }
  }

  /** Putting the same rule in front of two lists keeps their multiset difference. */
  lemma ConsMultiset(h: Rule, t: seq<Rule>, tail: seq<Rule>, x: Rule)
    requires multiset(t) == multiset(tail) + multiset{x}
    ensures multiset([h] + t) == multiset([h] + tail) + multiset{x}
  {
  }

  /** A rule no greater than the head of a sorted list can be put in front of it. */
  lemma ConsSorted(k: SortKey, h: Rule, t: seq<Rule>)
    requires Sorted(k, t)
    requires t != [] ==> Rank(k, h) <= Rank(k, t[0])
    ensures Sorted(k, [h] + t)
  {
  }

  /** `[...rules].sort(cmp)` for the comparator of `k`: sorted by rank and a
      permutation of the input. */
  function SortBy(k: SortKey, s: seq<Rule>): (r: seq<Rule>)
    ensures multiset(r) == multiset(s)
    ensures |r| == |s|
  {
    if s == [] then []
    else
      var t := SortBy(k, s[1..]);
      assert s == [s[0]] + s[1..];
      assert multiset(s) == multiset{s[0]} + multiset(s[1..]);
      Insert(k, s[0], t)
  }

  /** The result of the sort is sorted by rank. */
  lemma {:induction false} SortBySorted(k: SortKey, s: seq<Rule>)
    ensures Sorted(k, SortBy(k, s))
  {
    if s != [] {
      SortBySorted(k, s[1..]);
      InsertSorted(k, s[0], SortBy(k, s[1..]));
    }
  }

  /** For the rules of any one rank, inserting `x` is the same as putting it
      in front: `x` lands ahead of every rule of its own rank. */
  lemma {:induction false} InsertStable(k: SortKey, x: Rule, s: seq<Rule>, v: int)
    ensures Filter(Insert(k, x, s), RankIs(k, v)) == Filter([x] + s, RankIs(k, v))
  {
    if s != [] && Rank(k, x) > Rank(k, s[0]) {
      var c := RankIs(k, v);
      var h, tail := s[0], s[1..];
      var t := Insert(k, x, tail);
      InsertStable(k, x, tail, v);
      assert Insert(k, x, s) == [h] + t;
      FilterConcat([h], t, c);
      FilterConcat([h], [x] + tail, c);
      SwapAdjacent(c, h, x, tail);
      assert [h] + tail == s;
    }
  }

  /** Two neighbours that a filter does not both keep can trade places
      without changing what the filter returns. */
  lemma SwapAdjacent(c: Criterion, a: Rule, b: Rule, rest: seq<Rule>)
    requires !(Keeps(c, a) && Keeps(c, b))
    ensures Filter([a] + ([b] + rest), c) == Filter([b] + ([a] + rest), c)
  {
    FilterConcat([a], [b] + rest, c);
    FilterConcat([b], rest, c);
    FilterConcat([b], [a] + rest, c);
    FilterConcat([a], rest, c);
    assert [a][1..] == [] && [b][1..] == [];
    var r := Filter(rest, c);
    if Keeps(c, a) {
      assert Filter([b], c) == [];
      assert [] + r == r;
    } else {
      assert Filter([a], c) == [];
      assert [] + r == r;
    }
  }

  /** The sort is stable: the rules of any one rank appear in the result in the
      order they had in the input. */
  lemma {:induction false} SortStable(k: SortKey, s: seq<Rule>, v: int)
    ensures Filter(SortBy(k, s), RankIs(k, v)) == Filter(s, RankIs(k, v))
  {
    if s != [] {
      var c := RankIs(k, v);
      var h, tail := s[0], s[1..];
      var sortedTail := SortBy(k, tail);
      calc {
        Filter(SortBy(k, s), c);
        Filter(Insert(k, h, sortedTail), c);
        { InsertStable(k, h, sortedTail, v); }
        Filter([h] + sortedTail, c);
        { FilterConcat([h], sortedTail, c); }
        Filter([h], c) + Filter(sortedTail, c);
        { SortStable(k, tail, v); }
        Filter([h], c) + Filter(tail, c);
        { FilterConcat([h], tail, c); assert [h] + tail == s; }
        Filter(s, c);
      }
    }
  }

  lemma SortedPinsFirst(k: SortKey, s: seq<Rule>)
    requires k != ByOrder && Sorted(k, s)
    ensures PinsFirst(s)
  {
    forall i, j | 0 <= i < j < |s| && s[j].pinned ensures s[i].pinned {
      assert Rank(k, s[i]) <= Rank(k, s[j]);
    }
  }

  /** Sorting with the `b.pinned - a.pinned` comparator is the stable partition:
      the pinned rules in their old order, then the unpinned rules in their old
      order. */
  lemma PinSortIsPartition(s: seq<Rule>)
    ensures SortBy(PinnedFirst, s) == Filter(s, IsPinned) + Filter(s, IsUnpinned)
  {
    var r := SortBy(PinnedFirst, s);
    SortBySorted(PinnedFirst, s);
    SortedPinsFirst(PinnedFirst, r);
    SplitAtPins(r);
    SortStable(PinnedFirst, s, 0);
    SortStable(PinnedFirst, s, 1);
    FilterSameCriterion(r, IsPinned, RankIs(PinnedFirst, 0));
    FilterSameCriterion(s, IsPinned, RankIs(PinnedFirst, 0));
    FilterSameCriterion(r, IsUnpinned, RankIs(PinnedFirst, 1));
    FilterSameCriterion(s, IsUnpinned, RankIs(PinnedFirst, 1));
  }

  /** After clearing every pin there is no pinned block. */
  lemma ClearedPinsPartition(s: seq<Rule>)
    ensures Filter(ApplyAll(s, SetFlag(Pinned, false)), IsPinned) == []
    ensures Filter(ApplyAll(s, SetFlag(Pinned, false)), IsUnpinned) == ApplyAll(s, SetFlag(Pinned, false))
  {
    var r := ApplyAll(s, SetFlag(Pinned, false));
    FilterKeepsAll(r, IsUnpinned);
    FilterKeepsNone(r, IsPinned);
  }
}
