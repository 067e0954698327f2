# axlist client state, modelled in Dafny

axlist is a small React checklist backed by Firestore. A signed-in user keeps a
list of *rules* (checklist items that can be checked, pinned, edited, deleted and
reordered) and a board of yellow *sticky notes* created by double-clicking the
page. Users sign in with a bare username that the pages complete to an
`@axlist.pw` address.

This project models the client-side state logic that runs once each database
call has settled:

- **Rule list engine** (`rule_list.dfy`, module `RuleList`). The `map`, `filter`
  and stable `sort` expressions that both revisions of the checklist compute
  from the rule list, whether they hand the result to `setRules` or compute it
  at render time:
  - the per-id update and the whole-list update;
  - filtering by pin state or by id;
  - the three comparators: by `order`, pinned first, and pinned first then
    unchecked first.
- **Current rules panel** (`rules_manager.dfy`, module `RulesManagerComponent`).
  Class `RulesManager` holds the component's state hooks as fields, and each
  handler is a method.
- **Earlier single-page revision** (`checklist.dfy`, module `Checklist`).
  Class `AppContent` with:
  - the derived display sort;
  - the drag-end splice between the "pinned" and "unpinned" lists;
  - sticky-note creation, where the client UUID overrides the store id.
- **Sticky-note board** (`stickers.dfy`, module `Stickers`).
  - Class `Board` covers the snapshot replacement, the optimistic insert under a
    temporary id and the later rekey, and the text commit.
  - Class `StickyNote` holds a note's local text, which is committed only on
    Enter or blur.
- **JavaScript string semantics** (`js_strings.dfy`, module `JsStrings`).
  `String.prototype.trim()` over the ECMAScript whitespace characters, and the
  blank-text test built on it. `wrappers.dfy` (module `Wrappers`) holds only
  the shared `Option` type.
- **Sign-in pages** (`accounts.dfy`, modules `Accounts`, `RegisterPage` and
  `LoginPage`):
  - username normalisation;
  - the mapping from provider error codes to messages;
  - the `loading` flag that is raised before the provider call and lowered in
    `finally`.

Every database call is replaced by its outcome, passed in as a parameter:

- `ok: bool` for a write;
- `Option<string>` for the id the store assigned;
- `fetched: bool` or `Option<seq<…>>` for a read;
- a provider function value for sign-in.

Most handlers set the list only after their `await`. So when such a call
rejects, the model leaves the list untouched, and a loading flag raised before
the call stays raised. Two handlers are exceptions:

- `handleDoubleClick` in src/components/Sticker.js appends the temporary note
  before its `await` (Sticker.js:80). A rejected write leaves that note in the
  list, and `Stickers.Board.HandleDoubleClick` states this.
- `handleDragEnd` in paste.js (paste.js:197-235) awaits nothing. It sets the
  list unconditionally, and its `updateDoc` outcome is ignored.

The contracts state both the success and the rejection paths.

The model reproduces three behaviours of the code as written:

- **Same-list drag in `handleDragEnd`** (paste.js:230-231). A drop into the same
  list at a different index produces that list without the dragged rule,
  followed by the whole unspliced list again. The other list's rules vanish from
  the local state. `Checklist.WithinListDragLosesRules` proves that the result is
  not a permutation whenever the list holds at least two rules or the other list is
  non-empty. `Checklist.WithinListDragExample` shows a two-rule list `[a, b]`
  becoming `[b, a, b]`.
- **UUID overrides the store id** (paste.js:63, 97). In `{ id: docRef.id,
  ...postItData }` the client UUID from the data wins over the store id
  (`Checklist.PastedNote`).
- **Duplicate `order` values** (src/components/RulesManager.js:45).
  `order: rules.length` can repeat an order already in use after a deletion
  (`RulesManagerComponent.AddAfterDeleteRepeatsOrder`).

## Model

| member | source | states |
|---|---|---|
| RuleList.Apply | src/components/RulesManager.js:104 | the spread `{ ...rule, field: value }`: id and order always survive; a flag edit sets that flag and keeps the text and the other flag; a text edit sets the text and keeps both flags (also lines 83, 95, 114 and 134) |
| RuleList.Update | src/components/RulesManager.js:103-105 | the per-id `map`: same length; every rule whose id matches gets the edit; every other rule is unchanged in place |
| RuleList.ApplyAll | src/components/RulesManager.js:83 | the whole-list `map`: same length, and every rule gets the edit |
| RuleList.ToggleTwiceRestores | src/components/RulesManager.js:99-106 | toggling a flag from its current value and then back restores the list exactly |
| RuleList.ApplyAllIdempotent | src/components/RulesManager.js:75-97 | unpinning all and unchecking all are idempotent |
| RuleList.Filter | src/components/RulesManager.js:148-149 | `filter`: the result is no longer than the input |
| RuleList.FilterMembers | src/components/RulesManager.js:148-149 | a rule is in the filtered list iff it is in the input and passes the criterion |
| RuleList.FilterCount | src/components/RulesManager.js:56 | filtering keeps each passing rule with its multiplicity and drops every other rule entirely |
| RuleList.FilterConcat | src/components/RulesManager.js:71 | filtering keeps relative order: it distributes over concatenation |
| RuleList.FilterKeepsAll | src/components/RulesManager.js:148-149 | a filter that every element passes returns the list itself |
| RuleList.FilterKeepsNone | src/components/RulesManager.js:148-149 | a filter that no element passes returns the empty list |
| RuleList.FilterDropsOne | src/components/RulesManager.js:56 | a filter that rejects exactly one position returns the list with just that rule cut out, the rest in order |
| RuleList.FilterSameCriterion | src/components/RulesManager.js:148-149 | two criteria that accept the same rules filter every list alike |
| RuleList.PinPartition | src/components/RulesManager.js:148-149 | `pinnedRules` and `unpinnedRules` partition `rules`: the multisets add up, the lengths add up, and every rule is in exactly one block |
| RuleList.SplitAtPins | src/components/RulesManager.js:148-149 | a list with every pinned rule first is its pinned block followed by its unpinned block |
| RuleList.RankMatchesComparator | paste.js:192-195 | `Rank` encodes the three comparators (this one, and RulesManager.js:28 and :118): each comparator, computed as written with booleans as 0 and 1, is negative, zero or positive exactly when the first rule's rank is below, equal to or above the second's |
| RuleList.Insert | src/components/RulesManager.js:28 | one insertion step of the sort: adds exactly the inserted rule to the multiset, and the result starts with that rule or the old first rule |
| RuleList.InsertSorted | src/components/RulesManager.js:28 | inserting into a list sorted by rank keeps it sorted |
| RuleList.SortBy | src/components/RulesManager.js:28 | `sort` with a rank comparator: the result is a permutation of the input |
| RuleList.SortBySorted | src/components/RulesManager.js:28 | the result of `sort` is ordered by rank, ascending |
| RuleList.InsertStable | src/components/RulesManager.js:118 | for every rank, the rules of that rank appear in the same order as when the new rule is put in front of the list: the new rule goes ahead of its equals |
| RuleList.SwapAdjacent | src/components/RulesManager.js:118 | swapping two neighbours of which at most one passes a filter leaves the filtered list unchanged |
| RuleList.SortStable | src/components/RulesManager.js:118 | the sort is stable: the rules of each rank keep their input order |
| RuleList.SortedPinsFirst | src/components/RulesManager.js:118 | a list sorted by either pin-first comparator has every pinned rule before every unpinned rule |
| RuleList.PinSortIsPartition | src/components/RulesManager.js:112-119 | sorting by `b.pinned - a.pinned` equals the pinned rules in old order followed by the unpinned rules in old order |
| RuleList.ClearedPinsPartition | src/components/RulesManager.js:83 | after unpinning all, the pinned block is empty and the unpinned block is the whole list |
| RulesManagerComponent.RulesManager.constructor | src/components/RulesManager.js:6-16 | the initial hook values, with `isFetching` true |
| RulesManagerComponent.RulesManager.PinnedRules | src/components/RulesManager.js:148 | `pinnedRules`: a rule is in it iff it is in `rules` and pinned |
| RulesManagerComponent.RulesManager.UnpinnedRules | src/components/RulesManager.js:149 | `unpinnedRules`: a rule is in it iff it is in `rules` and not pinned |
| RulesManagerComponent.RulesManager.FetchRules | src/components/RulesManager.js:18-35 | no user: nothing changes; read rejected: the list is unchanged and `isFetching` stays true; otherwise the list is sorted ascending by `order`, is a permutation of the fetched rules, and `isFetching` is false |
| RulesManagerComponent.RulesManager.TypeNewRule | src/components/RulesManager.js:161 | the input's onChange sets `newRule` |
| RulesManagerComponent.RulesManager.AddRule | src/components/RulesManager.js:37-51 | blank input: nothing changes; rejected: the list is unchanged and `isAdding` stays true; otherwise exactly one rule is appended (store id, untrimmed text, unchecked, unpinned, `order` = old length), the input is cleared and `isAdding` is false |
| RulesManagerComponent.RulesManager.DeleteRule | src/components/RulesManager.js:53-58 | on success exactly the rules with the id leave, the others keep their order, and `deletingRuleId` is cleared; on rejection the list is unchanged and `deletingRuleId` stays set |
| RulesManagerComponent.RulesManager.DeleteAllRules | src/components/RulesManager.js:60-73 | on success exactly the pinned rules remain, in order; on rejection the list is unchanged and `isDeletingAll` stays true |
| RulesManagerComponent.RulesManager.UnpinAllRules | src/components/RulesManager.js:75-85 | on success every rule is unpinned and nothing else changes, leaving the pinned block empty; on rejection the list is unchanged and the flag stays up |
| RulesManagerComponent.RulesManager.ResetRules | src/components/RulesManager.js:87-97 | on success every rule is unchecked and nothing else changes; on rejection the list is unchanged and the flag stays up |
| RulesManagerComponent.RulesManager.ToggleChecked | src/components/RulesManager.js:99-106 | on success the matching rules get `checked = !checked`; on rejection the list is unchanged |
| RulesManagerComponent.RulesManager.TogglePin | src/components/RulesManager.js:108-120 | on success the list is the updated list stably re-sorted pinned first, which equals its pinned block followed by its unpinned block; on rejection it is unchanged |
| RulesManagerComponent.RulesManager.StartEditing | src/components/RulesManager.js:122-125 | sets the edited id and text from the arguments |
| RulesManagerComponent.RulesManager.TypeEditedText | src/components/RulesManager.js:202 | the edit box's onChange sets `editedText` |
| RulesManagerComponent.RulesManager.SaveEdit | src/components/RulesManager.js:127-140 | on success only the matching rules take the edited text, and the edit state is reset; on rejection nothing changes except that `isSavingEdit` stays true |
| RulesManagerComponent.RulesManager.HandleEditKeyDown | src/components/RulesManager.js:142-146 | Enter behaves as `saveEdit`; any other key changes nothing |
| RulesManagerComponent.AddAfterDeleteRepeatsOrder | src/components/RulesManager.js:45-47 | after deleting any rule but the last from a densely numbered list, the next added rule repeats the last rule's `order` |
| Stickers.SpreadId | src/components/Sticker.js:55-58 | the id of `{ id: doc.id, ...doc.data() }` is the `"id"` entry of the right-biased union of `{id: docId}` and the data's fields: the data's own id wins when present |
| Stickers.FromDocs | src/components/Sticker.js:54-60 | one note per document, in order, whose id is the document data's own id if it has one and the document id otherwise |
| Stickers.FromDocsKeysByDocId | src/components/Sticker.js:55-58 | documents without an `id` in their data become notes keyed by the document id |
| Stickers.UpdateNotes | src/components/Sticker.js:84-86 | the per-id `map` over notes: same length; matching notes get the edit; the others are unchanged in place |
| Stickers.ApplyNote | src/components/Sticker.js:85 | the spreads `{ ...sticker, id }` and `{ ...sticker, text }`: a rekey sets the id and keeps position, text and fill; a retext sets the text and keeps id, position and fill (also line 100) |
| Stickers.NewNote | src/components/Sticker.js:71-80 | the note the double-click appends: the given id, the click position, empty text and fill `#FEE440` |
| Stickers.InsertThenRekey | src/components/Sticker.js:79-86 | when the temporary id is fresh, insert followed by rekey gives the old list plus one note under the store id: one logical note never becomes two |
| Stickers.RetextKeepsLayout | src/components/Sticker.js:98-102 | committing text changes only the text of matching notes; ids, positions and fills are kept |
| Stickers.Board.constructor | src/components/Sticker.js:48 | the board starts empty |
| Stickers.Board.ApplySnapshot | src/components/Sticker.js:54-60 | a snapshot replaces the whole list with exactly the fetched documents |
| Stickers.Board.InsertOptimistic | src/components/Sticker.js:70-80 | a double-click whose target element has class `sticky-note` (a note's border, not its text area) inserts nothing; otherwise exactly one empty `#FEE440` note at the click, under the temporary id, is appended |
| Stickers.Board.RekeyCreated | src/components/Sticker.js:84-86 | the note under the temporary id takes the store id, in place |
| Stickers.Board.HandleDoubleClick | src/components/Sticker.js:69-87 | a double-click whose target element has class `sticky-note` (a note's border, not its text area) changes nothing; otherwise the list grows by one; if the write rejects, the temporary note stays; if it resolves, the result is the old list plus the temporary note with every note under the temporary id renamed to the store id; when the temporary id is fresh, this is the old list plus the new note under the store id |
| Stickers.Board.UpdateStickerText | src/components/Sticker.js:95-103 | on success only the matching notes take the text; on rejection nothing changes |
| Stickers.StickyNote.constructor | src/components/Sticker.js:6-7 | the local text starts as the note's text |
| Stickers.StickyNote.Change | src/components/Sticker.js:32 | typing changes only the local text |
| Stickers.StickyNote.KeyPress | src/components/Sticker.js:9-14 | Enter commits the local text to the board; any other key leaves the board unchanged |
| Stickers.StickyNote.Blur | src/components/Sticker.js:34 | losing focus commits the local text to the board |
| Checklist.SortedRules | paste.js:192-195 | the display sort is a permutation of the rules |
| Checklist.SortedRulesOrder | paste.js:192-195 | in the display order every pinned rule comes first and, within each pin group, unchecked rules come before checked ones; its pinned block followed by its unpinned block is itself |
| Checklist.RemoveAt | paste.js:215-216 | `splice(i, 1)`: one shorter, exactly the element at `i` removed, the others in order |
| Checklist.InsertAt | paste.js:219-220 | `splice(i, 0, x)`: one longer, `x` added to the multiset, `x` at `i` clamped to the length, the elements before it unchanged and the elements after it shifted up by one in order |
| Checklist.IsNoOp | paste.js:200-206 | the early returns: no destination, or the same droppable id and the same index |
| Checklist.Splice | paste.js:208-232 | the spliced list is the source list length minus one plus the destination list length, plus one more when the lists differ: `2·n − 1` for a same-list drop |
| Checklist.DragEnd | paste.js:197-235 | no destination, or the same list and index: the rules are unchanged |
| Checklist.BlockMembers | paste.js:237-238 | `Block`, the `pinnedRules` or `unpinnedRules` list taken from `sortedRules`, holds a rule iff it is among the rules and its pin state matches the list |
| Checklist.BlocksPartition | paste.js:237-238 | the pinned and unpinned blocks of the sorted list hold exactly the rules between them |
| Checklist.TradeOne | paste.js:212-232 | splicing a rule out of one list and a replacement into another trades one for the other, and the replacement lands at the clamped drop index |
| Checklist.SpliceAcross | paste.js:212-232 | over any two lists, a splice from one into the other keeps the total length and trades the dragged rule for its re-flagged copy, which lands at the clamped drop index |
| Checklist.CrossListDrag | paste.js:208-234 | a drop into the other list keeps the length and every rule exactly once, except that the dragged rule is replaced by its re-flagged copy; its `pinned` says which list it was dropped into, and it sits at the drop index (clamped) of the spliced destination list |
| Checklist.CrossListDragOrder | paste.js:212-232 | the spliced list is the source block without the dragged rule, in order, followed by the destination block with the re-flagged rule inserted at the clamped drop index, in order |
| Checklist.RemoveThenRepeatKeepsOut | paste.js:230-231 | a list with one element removed, followed by itself, holds nothing the list did not hold, and in particular no rule of the other pin state |
| Checklist.WithinListDragShape | paste.js:230-231 | a same-list drop gives that list without the dragged rule followed by the unspliced list, of length `2·n − 1` |
| Checklist.WithinListDrag | paste.js:230-231 | after a same-list drop every rule of the other list is gone from the local state |
| Checklist.WithinListDragLosesRules | paste.js:230-231 | a same-list drop is not a permutation when the list holds at least two rules or the other list is non-empty |
| Checklist.OneSidedBlock | paste.js:237-238 | when every rule belongs to one list, that list's block has the same length and holds every rule as often as the list does |
| Checklist.UnpinnedPairSorted | paste.js:192-195 | two unpinned rules with equal check state keep their order under the sort |
| Checklist.UnpinnedBlockOfSorted | paste.js:238 | an unpinned list in display order is its own unpinned block |
| Checklist.WithinListDragExample | paste.js:230-231 | for two unpinned rules `[a, b]` with equal check state, dragging `a` one place down yields `[b, a, b]` |
| Checklist.PastedNote | paste.js:55-63 | the note appended after the write is keyed by the client UUID, whatever id the store assigned, with an empty text and fill `#FEE440` |
| Checklist.AppContent.constructor | paste.js:11-17 | the initial hook values, with `isFetching` true |
| Checklist.AppContent.PinnedRules | paste.js:237 | `pinnedRules`: a rule is in it iff it is in `rules` and pinned |
| Checklist.AppContent.UnpinnedRules | paste.js:238 | `unpinnedRules`: a rule is in it iff it is in `rules` and not pinned |
| Checklist.AppContent.RenderedOrder | paste.js:237-238 | the pinned list followed by the unpinned list is exactly `sortedRules` |
| Checklist.AppContent.TypeNewRule | paste.js:278 | the input's onChange sets `newRule` |
| Checklist.AppContent.AddRule | paste.js:73-86 | blank input: nothing changes; rejected: the list is unchanged and `isAdding` stays true; otherwise exactly one unchecked, unpinned rule with the untrimmed text is appended and the input is cleared |
| Checklist.AppContent.ToggleRule | paste.js:121-127 | on success the matching rules get `checked = !checked`; on rejection nothing changes |
| Checklist.AppContent.TogglePin | paste.js:130-136 | on success the matching rules get `pinned = !pinned`, with no re-sort; on rejection nothing changes |
| Checklist.AppContent.UnpinAllRules | paste.js:139-151 | once the read succeeds, every rule is unpinned locally and nothing else changes |
| Checklist.AppContent.DeleteRule | paste.js:154-160 | on success exactly the rules with the id leave, in order, and `deletingRuleId` is cleared; on rejection it stays set |
| Checklist.AppContent.ResetRules | paste.js:163-175 | once the read succeeds, every rule is unchecked locally and nothing else changes |
| Checklist.AppContent.DeleteAllRules | paste.js:178-189 | once the read succeeds, exactly the pinned rules remain, in order; otherwise `isDeletingAll` stays true |
| Checklist.AppContent.HandleDragEnd | paste.js:197-235 | the rules become `DragEnd` of the old rules |
| Checklist.AppContent.HandleDoubleClick | paste.js:51-64 | a double-click whose target has class `post-it` adds nothing; a rejected write adds nothing; otherwise exactly one empty `#FEE440` note at the click, keyed by the UUID, is appended; paste.js defines `addSticker` but never calls it |
| Checklist.AppContent.AddSticker | paste.js:89-98 | on success one empty `#FEE440` note at the position, keyed by the UUID, is appended |
| JsStrings.IsJsWhitespace | src/components/RulesManager.js:39 | the code points `trim()` removes; no letter, digit or '@' is among them |
| JsStrings.TrimStart | src/components/RulesManager.js:39 | the leading whitespace removed: a suffix of the input, empty iff the input is all whitespace, otherwise starting with a non-whitespace character |
| JsStrings.TrimStartDropsOnlyWhitespace | src/components/RulesManager.js:39 | every character `TrimStart` drops is whitespace, so with the suffix and first-character facts it fixes the result |
| JsStrings.TrimEnd | src/components/RulesManager.js:39 | the trailing whitespace removed: a prefix of the input, empty iff the input is all whitespace, otherwise ending with a non-whitespace character |
| JsStrings.TrimEndDropsOnlyWhitespace | src/components/RulesManager.js:39 | every character `TrimEnd` drops is whitespace, so with the prefix and last-character facts it fixes the result |
| JsStrings.Trim | src/components/RulesManager.js:39 | `trim()`, defined as `TrimEnd` after `TrimStart`: empty iff the input is all whitespace; otherwise neither starts nor ends with whitespace |
| JsStrings.TrimIsSlice | src/components/RulesManager.js:39 | `trim()` returns one contiguous slice of the input, starting where the leading whitespace ends |
| JsStrings.TrimDropsOnlyWhitespace | src/components/RulesManager.js:39 | everything before and after that slice is whitespace |
| JsStrings.BlankIffTrimEmpty | paste.js:75 | `IsBlank`, the falsy test on `newRule.trim()`, is true iff the trimmed text is empty (also RulesManager.js:39) |
| Accounts.Normalize | src/pages/Register.js:18 | the identifier always contains '@' and starts with what was typed; it equals the input iff the input had an '@'; otherwise the rest is `@axlist.pw` (Login.js:17 is the same expression) |
| Accounts.NormalizeIdempotent | src/pages/Login.js:17 | normalising twice equals normalising once |
| Accounts.BareAndFullNameAgree | src/pages/Login.js:17 | a bare username and the same name typed with `@axlist.pw` reach the same identifier |
| Accounts.BareNamesStayDistinct | src/pages/Register.js:18 | different bare usernames give different identifiers |
| RegisterPage.ErrorMessage | src/pages/Register.js:25-37 | each of the three recognised codes gets its own message from the table; every other code, or no code, gets "Registration failed. Please try again.", and only those do |
| RegisterPage.MessagesDistinct | src/pages/Register.js:25-37 | two different codes share a message only if neither is recognised |
| RegisterPage.RegisterForm.constructor | src/pages/Register.js:6-9 | empty fields, no error, not loading |
| RegisterPage.RegisterForm.TypeEmail | src/pages/Register.js:54 | onChange sets the username |
| RegisterPage.RegisterForm.TypePassword | src/pages/Register.js:66 | onChange sets the password |
| RegisterPage.RegisterForm.Begin | src/pages/Register.js:15-18 | raises `loading` and sends the normalised identifier |
| RegisterPage.RegisterForm.Settle | src/pages/Register.js:20-40 | `loading` is false afterwards; success sets the user and route "/" and leaves the error as it was; rejection shows the code's message and leaves user and route as they were |
| RegisterPage.RegisterForm.HandleRegister | src/pages/Register.js:13-41 | the provider receives the normalised identifier and the password; afterwards `loading` is false whatever the outcome, with the success and rejection effects of `Settle` |
| LoginPage.ErrorMessage | src/pages/Login.js:24-36 | each of the three recognised codes gets its own message from the table; every other code, or no code, gets "Login failed. Please try again.", and only those do |
| LoginPage.MessagesDistinct | src/pages/Login.js:24-36 | two different codes share a message only if neither is recognised |
| LoginPage.LoginForm.constructor | src/pages/Login.js:6-9 | empty fields, no error, not loading |
| LoginPage.LoginForm.TypeEmail | src/pages/Login.js:51 | onChange sets the username |
| LoginPage.LoginForm.TypePassword | src/pages/Login.js:63 | onChange sets the password |
| LoginPage.LoginForm.Begin | src/pages/Login.js:15-17 | raises `loading` and sends the normalised identifier |
| LoginPage.LoginForm.Settle | src/pages/Login.js:19-39 | `loading` is false afterwards; success sets the user and route "/"; rejection shows the code's message |
| LoginPage.LoginForm.HandleLogin | src/pages/Login.js:13-40 | the provider receives the normalised identifier and the password; afterwards `loading` is false whatever the outcome |

## Left out

- **Firestore calls** (`getDocs`, `addDoc`, `updateDoc`, `deleteDoc`, `onSnapshot`) are foreign I/O. Each becomes its settled outcome, passed as a parameter.
- **The remote fan-out in the bulk operations** is not modelled: which documents the per-document writes and deletes reach. Only the local list update after the read is.
- **Async interleaving and stale closures** are concurrency and event-loop behaviour, so they are not modelled. This covers handlers that capture an old `rules` or `postItList`, and two handlers racing.
- **The un-awaited `forEach(async …)` writes in paste.js** are not modelled. The local update in `unpinAllRules`, `resetRules` and `deleteAllRules` depends only on the awaited read.
- **Unhandled promise rejections.** `handleEditKeyDown` calls `saveEdit` without awaiting it, so a rejected update becomes an unhandled rejection of that promise; only that unhandled rejection is left out. The rejection path of `saveEdit` itself is modelled: the local list is unchanged and `isSavingEdit` stays true. Likewise `handleDragEnd` does not await its `updateDoc`, so its rejection is never observed and the local reorder stands. In src/components/Sticker.js, `handleKeyPress` (line 12) and the text area's `onBlur` (line 34) call `updateStickerText` without awaiting it either; Stickers.StickyNote.KeyPress and Stickers.StickyNote.Blur model the settled outcome, and only the unhandled rejection of that promise is left out.
- **The paste.js fetch effect** (paste.js:21-46) and its unused `fetchRules` and `fetchStickers` helpers (paste.js:101-117) are left out. They replace the lists with what was read, as `Stickers.FromDocs` does. The effect also raises `isFetching` before its reads and lowers it after them (paste.js:26, :42). Because the effect is left out, Checklist.AppContent.isFetching is `true` after the constructor and no method of the model changes it.
- **The `order` field in paste.js** does not exist there. Rules that paste.js creates get `order` 0 in the model, and nothing in paste.js reads it.
- **Missing `order` values:** RulesManagerComponent.RulesManager.FetchRules assumes every fetched rule has a numeric `order`. A missing one would make the comparator return `NaN`, and that ordering is not modelled.
- **Fetched rule ids:** RulesManagerComponent.RulesManager.FetchRules takes the rules after the `{ id: doc.id, ...doc.data() }` mapping. The app never stores an `id` inside rule data.
- **The dragged rule is mutated in place** (`draggedRule.pinned = …`) in the source, which also changes the object still referenced by the old `rules`. The model builds a re-flagged copy, so aliasing is not captured. `handleDragEnd` also reads `draggableId` but never uses it.
- **Drag results** become a `{source, destination?}` record of the two droppable ids, in place of the `@hello-pangea/dnd` library. Checklist.AppContent.HandleDragEnd requires the source index to be inside its list, as the library only reports drags of rendered rules.
- **DOM events:** the `window` `dblclick` listener registration and cleanup, and the DOM `classList` tests. Whether the event target carries the class `sticky-note` (Sticker.js:70) or `post-it` (paste.js:52) is a boolean input.
- **Double-clicks inside a note's text.** In Sticker.js only a note's outer element has the class `sticky-note` (Sticker.js:17-18); its `textarea` (Sticker.js:30-41) has no class. A double-click in a note's text therefore passes the guard and creates a new note, and the model allows this because the boolean input is false there. Which elements carry the class `post-it` in paste.js depends on the `post-it-react` markup, which is not part of this model.
- **Random and clock values:** `crypto.randomUUID()` and `Date.now()` are parameters.
- Stickers.Board.HandleDoubleClick: the final list after a resolved write is stated for every temporary id, as the rekey `map` over the old list plus the temporary note. When a `Date.now()` value collides with an existing note's id, that `map` renames both notes. The "old list plus one note under the store id" form is stated only for a fresh temporary id.
- Checklist.CrossListDrag: the drop index is the dragged rule's position in the spliced list handed to `setRules`. The next render re-sorts through `sortedRules` (paste.js:192-195), so the rendered block can show the rule elsewhere: an unchecked rule dropped below a checked pinned rule is displayed above it. The model does not state the rendered position after that re-sort.
- **Coordinates** are modelled as integers. Click positions are floating-point numbers in the browser, but the model does no arithmetic on them.
- **JSX rendering, spinners, button disabling and the show-password toggle** are presentation and are not modelled.
- **Subscription lifecycle:** the snapshot listener is installed only while a user is signed in, and is removed on unmount. Stickers.Board.ApplySnapshot models the callback, not the subscription.
- **Error codes:** a rejection whose error has no `code` is modelled as `None`, and gets the fallback message like any unknown code.
- **Stale error text:** a successful sign-in leaves an earlier `error` text in place, and the model says so rather than clearing it.
- **Left out as context:** `src/App.js` (routing and the auth-state subscription), `src/components/firebaseActions.js` (one-line wrappers over the database client) and `src/components/RuleRender.js` (component composition) are not part of this model.
