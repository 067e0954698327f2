/** The earlier, single-component revision of the checklist, paste.js: the rule
    list is rendered through a derived sort (pinned first, then unchecked before
    checked), rules can be dragged within and between the pinned and unpinned
    lists, and notes are created by double-click. Its rule records carry no
    `order`; the model's `order` field is never read here, and new rules get 0.
    As in RulesManager, each awaited store outcome is a parameter. */
module Checklist {
  import opened Wrappers
  import opened JsStrings
  import opened RuleList
  import opened Stickers

  // ---------------------------------------------------------------------------
  // Derived display order

  /** `sortedRules`: a permutation of the rules; `SortedRulesOrder` states
      the order it puts them in. */
  function SortedRules(rules: seq<Rule>): (r: seq<Rule>)
    ensures multiset(r) == multiset(rules) && |r| == |rules|
  {
    SortBy(PinnedThenUnchecked, rules)
  }

  /** Within the sorted list every pinned rule precedes every unpinned rule
      and, among rules with the same pin state, unchecked precede checked; so
      its pinned block followed by its unpinned block is the list itself. */
  lemma SortedRulesOrder(rules: seq<Rule>)
    ensures var r := SortedRules(rules);
      && PinsFirst(r)
      && (forall i, j :: 0 <= i < j < |r| && r[i].pinned == r[j].pinned && r[i].checked ==> r[j].checked)
      && Filter(r, IsPinned) + Filter(r, IsUnpinned) == r
  {
    var r := SortedRules(rules);
    SortBySorted(PinnedThenUnchecked, rules);
    SortedPinsFirst(PinnedThenUnchecked, r);
    SplitAtPins(r);
    forall i, j | 0 <= i < j < |r| && r[i].pinned == r[j].pinned && r[i].checked
      ensures r[j].checked
    {
      assert Rank(PinnedThenUnchecked, r[i]) <= Rank(PinnedThenUnchecked, r[j]);
    }
  }

  // ---------------------------------------------------------------------------
  // Drag and drop

  /** The two droppable lists declared by the page, "pinned" and "unpinned". */
  datatype Droppable = PinnedList | UnpinnedList

  datatype Location = Location(droppableId: Droppable, index: nat)

  /** What the drag library reports at drag end; `draggableId` is not used. */
  datatype DropResult = DropResult(source: Location, destination: Option<Location>)

  /** The list a droppable id names, given the two rendered lists. */
  function Pick(pinned: seq<Rule>, unpinned: seq<Rule>, d: Droppable): seq<Rule>
  {
    if d == PinnedList then pinned else unpinned
  }

  /** `pinnedRules` or `unpinnedRules`, both taken from the sorted list. */
  function Block(rules: seq<Rule>, d: Droppable): seq<Rule>
  {
    Pick(Filter(SortedRules(rules), IsPinned), Filter(SortedRules(rules), IsUnpinned), d)
  }

  /** Dropped outside any list, or back where it started. */
  predicate IsNoOp(d: DropResult)
    ensures IsNoOp(d) <==> || d.destination.None?
                           || (&& d.destination.value.droppableId == d.source.droppableId
                               && d.destination.value.index == d.source.index)
  {
    d.destination.None? || d.destination.value == d.source
  }

  /** The library only reports drags of a rule that is in the source list. */
  predicate SourceExists(rules: seq<Rule>, d: DropResult)
  {
    IsNoOp(d) || d.source.index < |Block(rules, d.source.droppableId)|
  }

  /** `a.splice(i, 1)` on a copy: the element at `i` removed. */
  function RemoveAt(s: seq<Rule>, i: nat): (r: seq<Rule>)
    requires i < |s|
    ensures |r| == |s| - 1
    ensures multiset(r) == multiset(s) - multiset{s[i]}
    ensures forall j :: 0 <= j < |r| ==> r[j] == if j < i then s[j] else s[j + 1]
  {
    assert s == s[..i] + [s[i]] + s[i+1..];
    s[..i] + s[i+1..]
  }

  /** `a.splice(i, 0, x)` on a copy: `x` inserted at `i`, or appended when `i`
      is past the end, as `splice` clamps its start. */
  function InsertAt(s: seq<Rule>, i: nat, x: Rule): (r: seq<Rule>)
    ensures |r| == |s| + 1
    ensures multiset(r) == multiset(s) + multiset{x}
    ensures r[if i <= |s| then i else |s|] == x
    ensures var j := if i <= |s| then i else |s|;
      forall k :: 0 <= k < |r| ==> r[k] == if k < j then s[k] else if k == j then x else s[k - 1]
  {
    var j := if i <= |s| then i else |s|;
    assert s == s[..j] + s[j..];
    s[..j] + [x] + s[j..]
  }

  /** The splice of handleDragEnd over the two rendered lists. Between the
      two lists, the source list without the dragged rule is followed by the
      destination list with the dragged rule, re-flagged to its new list,
      spliced in. Within one list the code concatenates the list without the
      dragged rule and the unspliced list again. */
  function Splice(pinned: seq<Rule>, unpinned: seq<Rule>, d: DropResult): (r: seq<Rule>)
    requires !IsNoOp(d) && d.source.index < |Pick(pinned, unpinned, d.source.droppableId)|
    ensures var same := d.source.droppableId == d.destination.value.droppableId;
      |r| == |Pick(pinned, unpinned, d.source.droppableId)| - 1
             + |Pick(pinned, unpinned, d.destination.value.droppableId)| + (if same then 0 else 1)
  {
    var dest := d.destination.value;
    var src := Pick(pinned, unpinned, d.source.droppableId);
    var dst := Pick(pinned, unpinned, dest.droppableId);
    var rest := RemoveAt(src, d.source.index);
    if d.source.droppableId == dest.droppableId then rest + dst
    else rest + InsertAt(dst, dest.index, src[d.source.index].(pinned := dest.droppableId == PinnedList))
  }

  /** handleDragEnd: the new value of `rules`. */
  function DragEnd(rules: seq<Rule>, d: DropResult): (r: seq<Rule>)
    requires SourceExists(rules, d)
    ensures IsNoOp(d) ==> r == rules
  {
    if IsNoOp(d) then rules
    else Splice(Block(rules, PinnedList), Block(rules, UnpinnedList), d)
  }

  /** A block holds exactly the rules whose pin state matches its list. */
  lemma BlockMembers(rules: seq<Rule>, d: Droppable)
    ensures forall x :: x in Block(rules, d) <==> x in rules && x.pinned == (d == PinnedList)
  {
    var sorted := SortedRules(rules);
    FilterMembers(sorted, IsPinned);
    FilterMembers(sorted, IsUnpinned);
    forall x
      ensures x in sorted <==> x in rules
    {
      assert x in sorted <==> x in multiset(sorted);
    }
  }

  /** The pinned and the unpinned block hold, between them, exactly the rules. */
  lemma BlocksPartition(rules: seq<Rule>)
    ensures multiset(Block(rules, PinnedList)) + multiset(Block(rules, UnpinnedList)) == multiset(rules)
    ensures |Block(rules, PinnedList)| + |Block(rules, UnpinnedList)| == |rules|
  {
    PinPartition(SortedRules(rules));
  }

  /** Splicing one rule out of a list and a replacement into another trades
      the one for the other; the replacement lands at the clamped index of the
      second list. */
  lemma {:induction false} TradeOne(src: seq<Rule>, dst: seq<Rule>, i: nat, j: nat, moved: Rule)
    requires i < |src|
    ensures var r := RemoveAt(src, i) + InsertAt(dst, j, moved);
      && |r| == |src| + |dst|
      && multiset(r) == multiset(src) + multiset(dst) - multiset{src[i]} + multiset{moved}
      && r[|src| - 1 + (if j <= |dst| then j else |dst|)] == moved
  {
    var rest := RemoveAt(src, i);
    var ins := InsertAt(dst, j, moved);
    var k := if j <= |dst| then j else |dst|;
    assert (rest + ins)[|rest| + k] == ins[k];
    assert src[i] in multiset(src);
    assert multiset(rest + ins) == multiset(rest) + multiset(ins);
  }

  /** A splice across the two lists trades the dragged rule for its
      re-flagged copy, which lands at the clamped drop index of its new list. */
  lemma SpliceAcross(pinned: seq<Rule>, unpinned: seq<Rule>, d: DropResult)
    requires !IsNoOp(d) && d.source.index < |Pick(pinned, unpinned, d.source.droppableId)|
    requires d.source.droppableId != d.destination.value.droppableId
    ensures var dest := d.destination.value;
      var src := Pick(pinned, unpinned, d.source.droppableId);
      var dst := Pick(pinned, unpinned, dest.droppableId);
      var moved := src[d.source.index].(pinned := dest.droppableId == PinnedList);
      var r := Splice(pinned, unpinned, d);
      && |r| == |pinned| + |unpinned|
      && multiset(r) == multiset(pinned) + multiset(unpinned) - multiset{src[d.source.index]} + multiset{moved}
      && r[|src| - 1 + (if dest.index <= |dst| then dest.index else |dst|)] == moved
  {
    var dest := d.destination.value;
    var src := Pick(pinned, unpinned, d.source.droppableId);
    var dst := Pick(pinned, unpinned, dest.droppableId);
    var moved := src[d.source.index].(pinned := dest.droppableId == PinnedList);
    assert multiset(src) + multiset(dst) == multiset(pinned) + multiset(unpinned);
    TradeOne(src, dst, d.source.index, dest.index, moved);
  }

  /** A drop into the other list keeps every rule exactly once, except that
      the dragged rule is re-flagged: its `pinned` now says which list it was
      dropped into, and it sits at the drop index (clamped) of the spliced
      destination list. */
  lemma CrossListDrag(rules: seq<Rule>, d: DropResult)
    requires SourceExists(rules, d) && !IsNoOp(d)
    requires d.source.droppableId != d.destination.value.droppableId
    ensures var dest := d.destination.value;
      var src := Block(rules, d.source.droppableId);
      var dst := Block(rules, dest.droppableId);
      var moved := src[d.source.index].(pinned := dest.droppableId == PinnedList);
      var r := DragEnd(rules, d);
      && |r| == |rules|
      && multiset(r) == multiset(rules) - multiset{src[d.source.index]} + multiset{moved}
      && r[|src| - 1 + (if dest.index <= |dst| then dest.index else |dst|)] == moved
  {
    var p, u := Block(rules, PinnedList), Block(rules, UnpinnedList);
    assert Block(rules, d.source.droppableId) == Pick(p, u, d.source.droppableId);
    assert Block(rules, d.destination.value.droppableId) == Pick(p, u, d.destination.value.droppableId);
    assert DragEnd(rules, d) == Splice(p, u, d);
    BlocksPartition(rules);
    SpliceAcross(p, u, d);
  }

  /** In a drop into the other list, the source block without the dragged rule
      comes first, in its order, and the destination block with the re-flagged
      rule spliced in follows, in its order: no other rule moves relative to
      the rules of its own block. */
  lemma CrossListDragOrder(rules: seq<Rule>, d: DropResult)
    requires SourceExists(rules, d) && !IsNoOp(d)
    requires d.source.droppableId != d.destination.value.droppableId
    ensures var dest := d.destination.value;
      var src := Block(rules, d.source.droppableId);
      var dst := Block(rules, dest.droppableId);
      var moved := src[d.source.index].(pinned := dest.droppableId == PinnedList);
      var r := DragEnd(rules, d);
      && |r| == |src| + |dst|
      && r[..|src| - 1] == RemoveAt(src, d.source.index)
      && r[|src| - 1..] == InsertAt(dst, dest.index, moved)
  {
    var p, u := Block(rules, PinnedList), Block(rules, UnpinnedList);
    assert Block(rules, d.source.droppableId) == Pick(p, u, d.source.droppableId);
    assert Block(rules, d.destination.value.droppableId) == Pick(p, u, d.destination.value.droppableId);
    assert DragEnd(rules, d) == Splice(p, u, d);
  }

  /** Removing one element and appending the list again brings in nothing
      the list did not hold. */
  lemma RemoveThenRepeatKeepsOut(src: seq<Rule>, i: nat, p: bool)
    requires i < |src|
    requires forall y :: y in src ==> y.pinned == p
    ensures forall x :: x in RemoveAt(src, i) + src ==> x in src
    ensures forall x: Rule :: x.pinned != p ==> x !in RemoveAt(src, i) + src
  {
    var rest := RemoveAt(src, i);
    forall y | y in rest
      ensures y in src
    {
      assert y in multiset(rest);
    }
  }

  /** A drop at another index of the same list does not reorder: the new list
      is that list without the dragged rule followed by the whole list again. */
  lemma WithinListDragShape(rules: seq<Rule>, d: DropResult)
    requires SourceExists(rules, d) && !IsNoOp(d)
    requires d.source.droppableId == d.destination.value.droppableId
    ensures var src := Block(rules, d.source.droppableId);
      var r := DragEnd(rules, d);
      && r == RemoveAt(src, d.source.index) + src
      && |r| == 2 * |src| - 1
  {
    var p, u := Block(rules, PinnedList), Block(rules, UnpinnedList);
    assert Block(rules, d.source.droppableId) == Pick(p, u, d.source.droppableId);
    assert DragEnd(rules, d) == Splice(p, u, d);
  }

  /** Hence the other list's rules disappear from the local state. */
  lemma WithinListDrag(rules: seq<Rule>, d: DropResult)
    requires SourceExists(rules, d) && !IsNoOp(d)
    requires d.source.droppableId == d.destination.value.droppableId
    ensures var list := d.source.droppableId;
      forall x :: x in rules && x.pinned != (list == PinnedList) ==> x !in DragEnd(rules, d)
  {
    WithinListDragShape(rules, d);
    var list := d.source.droppableId;
    var src := Block(rules, list);
    FilterMembers(SortedRules(rules), IsPinned);
    FilterMembers(SortedRules(rules), IsUnpinned);
    assert forall y :: y in src ==> y.pinned == (list == PinnedList);
    RemoveThenRepeatKeepsOut(src, d.source.index, list == PinnedList);
  }

  /** Hence a within-list drop is not a permutation of the rules as soon as
      the list holds two rules or the other list is not empty. */
  lemma WithinListDragLosesRules(rules: seq<Rule>, d: DropResult)
    requires SourceExists(rules, d) && !IsNoOp(d)
    requires d.source.droppableId == d.destination.value.droppableId
    requires || |Block(rules, d.source.droppableId)| >= 2
             || exists x :: x in rules && x.pinned != (d.source.droppableId == PinnedList)
    ensures multiset(DragEnd(rules, d)) != multiset(rules)
  {
    var list := d.source.droppableId;
    var r := DragEnd(rules, d);
    if exists x :: x in rules && x.pinned != (list == PinnedList) {
      var x :| x in rules && x.pinned != (list == PinnedList);
      WithinListDrag(rules, d);
      assert multiset(r)[x] == 0 < multiset(rules)[x];
    } else {
      OneSidedBlock(rules, list);
      WithinListDragShape(rules, d);
      assert |multiset(r)| == |r| > |rules| == |multiset(rules)|;
    }
  }

  /** When every rule belongs to one list, that list's block holds them all,
      each as often as the list does. */
  lemma OneSidedBlock(rules: seq<Rule>, list: Droppable)
    requires forall x :: x in rules ==> x.pinned == (list == PinnedList)
    ensures |Block(rules, list)| == |rules|
    ensures multiset(Block(rules, list)) == multiset(rules)
  {
    var sorted := SortedRules(rules);
    var other := if list == PinnedList then IsUnpinned else IsPinned;
    forall i | 0 <= i < |sorted|
      ensures !Keeps(other, sorted[i])
    {
      assert sorted[i] in multiset(rules);
    }
    FilterKeepsNone(sorted, other);
    BlocksPartition(rules);
  }

  /** Two unpinned rules with the same check state are already in display
      order: the stable sort leaves them as given. */
  lemma UnpinnedPairSorted(s: seq<Rule>)
    requires |s| == 2 && !s[0].pinned && !s[1].pinned && s[0].checked == s[1].checked
    ensures SortedRules(s) == s
  {
    var tail := s[1..];
    assert tail[1..] == [];
    assert SortBy(PinnedThenUnchecked, tail) == tail;
    assert Insert(PinnedThenUnchecked, s[0], tail) == [s[0]] + tail == s;
  }

  /** A list of unpinned rules already in display order is its own unpinned block. */
  lemma UnpinnedBlockOfSorted(s: seq<Rule>)
    requires SortedRules(s) == s
    requires forall i :: 0 <= i < |s| ==> !s[i].pinned
    ensures Block(s, UnpinnedList) == s
  {
    FilterKeepsAll(s, IsUnpinned);
  }

  /** The smallest witness: of two unpinned rules with the same check state,
      the first dragged one place down, the list comes back as three entries,
      the second rule twice. */
  lemma WithinListDragExample(s: seq<Rule>, d: DropResult)
    requires |s| == 2 && !s[0].pinned && !s[1].pinned && s[0].checked == s[1].checked
    requires d.source == Location(UnpinnedList, 0) && d.destination == Some(Location(UnpinnedList, 1))
    ensures SourceExists(s, d)
    ensures DragEnd(s, d) == [s[1], s[0], s[1]]
  {
    UnpinnedPairSorted(s);
    UnpinnedBlockOfSorted(s);
    calc {
      DragEnd(s, d);
      { WithinListDragShape(s, d); }
      RemoveAt(Block(s, UnpinnedList), 0) + Block(s, UnpinnedList);
      RemoveAt(s, 0) + s;
      { assert RemoveAt(s, 0) == [s[1]]; }
      [s[1]] + s;
      [s[1], s[0], s[1]];
    }
  }

  // ---------------------------------------------------------------------------
  // Notes

  /** `{ id: docRef.id, ...postItData }` where the data carries the client
      UUID: the UUID overrides the store id. */
  function PastedNote(storeId: string, uuid: string, position: Position): (n: Note)
    ensures n.id == uuid
    ensures n.position == position && n.text == "" && n.fill == NoteFill
  {
    var id := SpreadId(storeId, Some(uuid));
    Note(id, position, "", NoteFill)
  }

  // ---------------------------------------------------------------------------
  // The component

  /** `AppContent`: the state hooks paste.js declares. */
  class AppContent {
    var newRule: string
    var rules: seq<Rule>
    var isAdding: bool
    var deletingRuleId: Option<string>
    var isDeletingAll: bool
    var isFetching: bool
    var postItList: seq<Note>

    constructor ()
      ensures newRule == "" && rules == [] && !isAdding && deletingRuleId == None
      ensures !isDeletingAll && isFetching && postItList == []
    {
      newRule, rules, isAdding, deletingRuleId := "", [], false, None;
      isDeletingAll, isFetching, postItList := false, true, [];
    }

    /** `pinnedRules`: exactly the pinned rules. */
    function PinnedRules(): (r: seq<Rule>)
      reads this
      ensures forall x :: x in r <==> x in rules && x.pinned
    {
      BlockMembers(rules, PinnedList);
      Block(rules, PinnedList)
    }

    /** `unpinnedRules`: exactly the unpinned rules. */
    function UnpinnedRules(): (r: seq<Rule>)
      reads this
      ensures forall x :: x in r <==> x in rules && !x.pinned
    {
      BlockMembers(rules, UnpinnedList);
      Block(rules, UnpinnedList)
    }

    /** The rendered order is the pinned list followed by the unpinned list,
        which is exactly `sortedRules`. */
    lemma RenderedOrder()
      ensures PinnedRules() + UnpinnedRules() == SortedRules(rules)
    {
      SortedRulesOrder(rules);
    }

    method TypeNewRule(text: string)
      modifies this`newRule
      ensures newRule == text
    {
      newRule := text;
    }

    /** addRule: a blank input does nothing; otherwise, once the store has
        assigned an id, one unchecked, unpinned rule with the untrimmed text is
        appended and the input cleared. */
    method AddRule(created: Option<string>)
      modifies this`rules, this`newRule, this`isAdding
      ensures IsBlank(old(newRule)) ==>
        rules == old(rules) && newRule == old(newRule) && isAdding == old(isAdding)
      ensures !IsBlank(old(newRule)) && created.None? ==>
        rules == old(rules) && newRule == old(newRule) && isAdding
      ensures !IsBlank(old(newRule)) && created.Some? ==>
        rules == old(rules) + [Rule(created.value, old(newRule), false, false, 0)]
        && newRule == "" && !isAdding
    {
      if !IsBlank(newRule) {
        isAdding := true;
        if created.Some? {
          var added := Rule(created.value, newRule, false, false, 0);
          rules := rules + [added];
          newRule := "";
          isAdding := false;
        }
      }
    }

    /** toggleRule: the matching rules get `checked = !checked`. */
    method ToggleRule(id: string, checked: bool, ok: bool)
      modifies this`rules
      ensures rules == if ok then Update(old(rules), id, SetFlag(Checked, !checked)) else old(rules)
    {
      if ok {
        rules := Update(rules, id, SetFlag(Checked, !checked));
      }
    }

    /** togglePin: the matching rules get `pinned = !pinned`; no re-sort here,
        the display order is derived. */
    method TogglePin(id: string, pinned: bool, ok: bool)
      modifies this`rules
      ensures rules == if ok then Update(old(rules), id, SetFlag(Pinned, !pinned)) else old(rules)
    {
      if ok {
        rules := Update(rules, id, SetFlag(Pinned, !pinned));
      }
    }

    /** unpinAllRules: once the read of the collection succeeds, every rule is
        unpinned locally; the per-document writes are not awaited. */
    method UnpinAllRules(fetched: bool)
      modifies this`rules
      ensures rules == if fetched then ApplyAll(old(rules), SetFlag(Pinned, false)) else old(rules)
    {
      if fetched {
        rules := ApplyAll(rules, SetFlag(Pinned, false));
      }
    }

    /** deleteRule: every rule with the id leaves the list, the others keep their order. */
    method DeleteRule(id: string, ok: bool)
      modifies this`rules, this`deletingRuleId
      ensures ok ==> rules == Filter(old(rules), IdOtherThan(id)) && deletingRuleId == None
      ensures !ok ==> rules == old(rules) && deletingRuleId == Some(id)
    {
      deletingRuleId := Some(id);
      if ok {
        rules := Filter(rules, IdOtherThan(id));
        deletingRuleId := None;
      }
    }

    /** resetRules: once the read succeeds, every rule is unchecked locally. */
    method ResetRules(fetched: bool)
      modifies this`rules
      ensures rules == if fetched then ApplyAll(old(rules), SetFlag(Checked, false)) else old(rules)
    {
      if fetched {
        rules := ApplyAll(rules, SetFlag(Checked, false));
      }
    }

    /** deleteAllRules: once the read succeeds, the local list becomes its
        pinned rules, in order. */
    method DeleteAllRules(fetched: bool)
      modifies this`rules, this`isDeletingAll
      ensures fetched ==> rules == Filter(old(rules), IsPinned) && !isDeletingAll
      ensures !fetched ==> rules == old(rules) && isDeletingAll
    {
      isDeletingAll := true;
      if fetched {
        rules := Filter(rules, IsPinned);
        isDeletingAll := false;
      }
    }

    /** handleDragEnd: the list is replaced synchronously; the write of the new
        `pinned` flag is not awaited. */
    method HandleDragEnd(d: DropResult)
      requires SourceExists(rules, d)
      modifies this`rules
      ensures rules == DragEnd(old(rules), d)
    {
      rules := DragEnd(rules, d);
    }

    /** handleDoubleClick: nothing when the target element has class `post-it`;
        otherwise, once the store write succeeds, one empty yellow note at the
        click keyed by the client UUID. */
    method HandleDoubleClick(targetHasPostItClass: bool, x: int, y: int, uuid: string, created: Option<string>)
      modifies this`postItList
      ensures targetHasPostItClass || created.None? ==> postItList == old(postItList)
      ensures !targetHasPostItClass && created.Some? ==>
        postItList == old(postItList) + [NewNote(uuid, x, y)]
    {
      if targetHasPostItClass {
        return;
      }
      if created.Some? {
        postItList := postItList + [PastedNote(created.value, uuid, Position(x, y))];
      }
    }

    /** addSticker: the same insertion at a given position. */
    method AddSticker(position: Position, uuid: string, created: Option<string>)
      modifies this`postItList
      ensures created.None? ==> postItList == old(postItList)
      ensures created.Some? ==> postItList == old(postItList) + [Note(uuid, position, "", NoteFill)]
    {
      if created.Some? {
        postItList := postItList + [PastedNote(created.value, uuid, position)];
      }
    }
  }
}
