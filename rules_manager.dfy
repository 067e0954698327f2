/** The rules panel of the current revision, src/components/RulesManager.js.
    The component's state hooks are the fields of `RulesManager`; each handler is
    a method. The outcome of the store call a handler awaits is a parameter (`ok`,
    or the id the store assigned): when that call rejects, the statements after
    the `await` never run, so neither the list nor the loading flag that was
    raised before the call is touched again. */
module RulesManagerComponent {
  import opened Wrappers
  import opened JsStrings
  import opened RuleList

  class RulesManager {
    var rules: seq<Rule>
    var newRule: string
    var isAdding: bool
    var deletingRuleId: Option<string>
    var isFetching: bool
    var isDeletingAll: bool
    var isResetting: bool
    var isUnpinningAll: bool
    var editingRuleId: Option<string>
    var editedText: string
    var isSavingEdit: bool

    /** The initial values of the component's state hooks. */
    constructor ()
      ensures rules == [] && newRule == "" && !isAdding && deletingRuleId == None
      ensures isFetching && !isDeletingAll && !isResetting && !isUnpinningAll
      ensures editingRuleId == None && editedText == "" && !isSavingEdit
    {
      rules, newRule, isAdding, deletingRuleId := [], "", false, None;
      isFetching, isDeletingAll, isResetting, isUnpinningAll := true, false, false, false;
      editingRuleId, editedText, isSavingEdit := None, "", false;
    }

    /** The pinned block rendered first: exactly the pinned rules. */
    function PinnedRules(): (r: seq<Rule>)
      reads this
      ensures forall x :: x in r <==> x in rules && x.pinned
    {
      FilterMembers(rules, IsPinned);
      Filter(rules, IsPinned)
    }

    /** The unpinned block rendered second: exactly the unpinned rules. */
    function UnpinnedRules(): (r: seq<Rule>)
      reads this
      ensures forall x :: x in r <==> x in rules && !x.pinned
    {
      FilterMembers(rules, IsUnpinned);
      Filter(rules, IsUnpinned)
    }

    /** The effect that loads the user's rules: nothing without a user; otherwise
        the fetched documents (None when the read rejects) sorted by `order`. */
    method FetchRules(signedIn: bool, fetched: Option<seq<Rule>>)
      modifies this`rules, this`isFetching
      ensures !signedIn ==> rules == old(rules) && isFetching == old(isFetching)
      ensures signedIn && fetched.None? ==> rules == old(rules) && isFetching
      ensures signedIn && fetched.Some? ==> rules == SortBy(ByOrder, fetched.value) && !isFetching
      ensures signedIn && fetched.Some? ==> Sorted(ByOrder, rules) && multiset(rules) == multiset(fetched.value)
    {
      if !signedIn {
        return;
      }
      isFetching := true;
      if fetched.Some? {
        rules := SortBy(ByOrder, fetched.value);
        SortBySorted(ByOrder, fetched.value);
        isFetching := false;
      }
    }

    /** The input's onChange. */
    method TypeNewRule(text: string)
      modifies this`newRule
      ensures newRule == text
    {
      newRule := text;
    }

    /** addRule: a blank input does nothing; otherwise, once the store has
        assigned an id, one unchecked, unpinned rule with the untrimmed text and
        `order` equal to the old length is appended and the input cleared. */
    method AddRule(created: Option<string>)
      modifies this`rules, this`newRule, this`isAdding
      ensures IsBlank(old(newRule)) ==>
        rules == old(rules) && newRule == old(newRule) && isAdding == old(isAdding)
      ensures !IsBlank(old(newRule)) && created.None? ==>
        rules == old(rules) && newRule == old(newRule) && isAdding
      ensures !IsBlank(old(newRule)) && created.Some? ==>
        rules == old(rules) + [Rule(created.value, old(newRule), false, false, |old(rules)|)]
        && newRule == "" && !isAdding
    {
      if !IsBlank(newRule) {
        isAdding := true;
        if created.Some? {
          rules := rules + [Rule(created.value, newRule, false, false, |rules|)];
          newRule := "";
          isAdding := false;
        }
      }
    }

    /** deleteRule: every rule with the id leaves the list, the others keep their order. */
    method DeleteRule(id: string, ok: bool)
      modifies this`rules, this`deletingRuleId
      ensures ok ==> rules == Filter(old(rules), IdOtherThan(id)) && deletingRuleId == None
      ensures !ok ==> rules == old(rules) && deletingRuleId == Some(id)
      ensures forall x :: x in rules <==> x in old(rules) && (ok ==> x.id != id)
    {
      deletingRuleId := Some(id);
      if ok {
        FilterMembers(rules, IdOtherThan(id));
        rules := Filter(rules, IdOtherThan(id));
        deletingRuleId := None;
      }
    }

    /** deleteAllRules: the local list becomes its pinned rules, in order. */
    method DeleteAllRules(ok: bool)
      modifies this`rules, this`isDeletingAll
      ensures ok ==> rules == Filter(old(rules), IsPinned) && !isDeletingAll
      ensures !ok ==> rules == old(rules) && isDeletingAll
    {
      isDeletingAll := true;
      if ok {
        rules := Filter(rules, IsPinned);
        isDeletingAll := false;
      }
    }

    /** unpinAllRules: every rule unpinned, nothing else changes. */
    method UnpinAllRules(ok: bool)
      modifies this`rules, this`isUnpinningAll
      ensures ok ==> rules == ApplyAll(old(rules), SetFlag(Pinned, false)) && !isUnpinningAll
      ensures ok ==> PinnedRules() == [] && UnpinnedRules() == rules
      ensures !ok ==> rules == old(rules) && isUnpinningAll
    {
      isUnpinningAll := true;
      if ok {
        rules := ApplyAll(rules, SetFlag(Pinned, false));
        ClearedPinsPartition(old(rules));
        isUnpinningAll := false;
      }
    }

    /** resetRules: every rule unchecked, nothing else changes. */
    method ResetRules(ok: bool)
      modifies this`rules, this`isResetting
      ensures ok ==> rules == ApplyAll(old(rules), SetFlag(Checked, false)) && !isResetting
      ensures !ok ==> rules == old(rules) && isResetting
    {
      isResetting := true;
      if ok {
        rules := ApplyAll(rules, SetFlag(Checked, false));
        isResetting := false;
      }
    }

    /** toggleChecked: the matching rules get `checked = !checked`. */
    method ToggleChecked(id: string, checked: bool, ok: bool)
      modifies this`rules
      ensures rules == if ok then Update(old(rules), id, SetFlag(Checked, !checked)) else old(rules)
    {
      if ok {
        rules := Update(rules, id, SetFlag(Checked, !checked));
      }
    }

    /** togglePin: the matching rules get `pinned = !pinned`, then the list is
        stably re-sorted pinned first, which is the pinned block followed by the
        unpinned block of the updated list. */
    method TogglePin(id: string, pinned: bool, ok: bool)
      modifies this`rules
      ensures !ok ==> rules == old(rules)
      ensures ok ==> rules == SortBy(PinnedFirst, Update(old(rules), id, SetFlag(Pinned, !pinned)))
      ensures ok ==> var u := Update(old(rules), id, SetFlag(Pinned, !pinned));
        rules == Filter(u, IsPinned) + Filter(u, IsUnpinned)
    {
      if ok {
        var updated := Update(rules, id, SetFlag(Pinned, !pinned));
        rules := SortBy(PinnedFirst, updated);
        PinSortIsPartition(updated);
      }
    }

    /** startEditing: remember which rule is edited and its current text. */
    method StartEditing(id: string, currentText: string)
      modifies this`editingRuleId, this`editedText
      ensures editingRuleId == Some(id) && editedText == currentText
    {
      editingRuleId := Some(id);
      editedText := currentText;
    }

    /** The edit box's onChange. */
    method TypeEditedText(text: string)
      modifies this`editedText
      ensures editedText == text
    {
      editedText := text;
    }

    /** saveEdit: once the write succeeds the matching rules take the edited
        text and the edit state is cleared. */
    method SaveEdit(id: string, ok: bool)
      modifies this`rules, this`editingRuleId, this`editedText, this`isSavingEdit
      ensures ok ==> rules == Update(old(rules), id, SetText(old(editedText)))
      ensures ok ==> editingRuleId == None && editedText == "" && !isSavingEdit
      ensures !ok ==>
        rules == old(rules) && editingRuleId == old(editingRuleId)
        && editedText == old(editedText) && isSavingEdit
    {
      isSavingEdit := true;
      if ok {
        rules := Update(rules, id, SetText(editedText));
        editingRuleId := None;
        editedText := "";
        isSavingEdit := false;
      }
    }

    /** handleEditKeyDown: Enter saves, any other key does nothing. */
    method HandleEditKeyDown(key: string, id: string, ok: bool)
      modifies this`rules, this`editingRuleId, this`editedText, this`isSavingEdit
      ensures key == "Enter" && ok ==>
        rules == Update(old(rules), id, SetText(old(editedText)))
        && editingRuleId == None && editedText == "" && !isSavingEdit
      ensures key == "Enter" && !ok ==>
        rules == old(rules) && isSavingEdit
        && editingRuleId == old(editingRuleId) && editedText == old(editedText)
      ensures key != "Enter" ==>
        rules == old(rules) && editingRuleId == old(editingRuleId)
        && editedText == old(editedText) && isSavingEdit == old(isSavingEdit)
    {
      if key == "Enter" {
        SaveEdit(id, ok);
      }
    }
  }

  /** Orders numbered densely from 0, as a run of adds with no deletion leaves them. */
  predicate DenseOrders(s: seq<Rule>)
  {
    forall i :: 0 <= i < |s| ==> s[i].order == i
  }

  /** `order: rules.length` can repeat an order already in use: after deleting
      any rule but the last from a densely numbered list, the next added rule
      gets the same order as the (surviving) last rule. */
  lemma AddAfterDeleteRepeatsOrder(s: seq<Rule>, k: nat, newId: string, text: string)
    requires DenseOrders(s)
    requires k < |s| - 1
    requires forall i :: 0 <= i < |s| && i != k ==> s[i].id != s[k].id
    ensures var kept := Filter(s, IdOtherThan(s[k].id));
      var added := kept + [Rule(newId, text, false, false, |kept|)];
      |added| == |s| && added[|s| - 2].order == added[|s| - 1].order
  {
    var c := IdOtherThan(s[k].id);
    FilterDropsOne(s, k, c);
    var kept := s[..k] + s[k+1..];
    assert kept[|kept| - 1] == s[|s| - 1];
  }
}
