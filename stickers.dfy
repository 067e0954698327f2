/** The sticky-note board, src/components/Sticker.js: the note record, the
    `map` and spread expressions the board hands to `setPostItList`, the board
    component (`Board`) and one rendered note with its local text (`StickyNote`). */
module Stickers {
  import opened Wrappers

  /** Viewport pixel coordinates of the double-click that created a note. */
  datatype Position = Position(x: int, y: int)

  datatype Note = Note(id: string, position: Position, text: string, fill: string)

  /** The fill colour every new note gets. */
  const NoteFill := "#FEE440"

  /** A note as the store holds it: the document id and the document data,
      whose own optional `id` field comes from writers that put one there. */
  datatype StoredNote = StoredNote(docId: string, dataId: Option<string>, position: Position, text: string, fill: string)

  /** The id of `{ id: docId, ...data }`: a later spread property overrides an
      earlier one, so an `id` inside the data wins over the document id. */
  function SpreadId(docId: string, dataId: Option<string>): (id: string)
    ensures id == (map["id" := docId] + DataFields(dataId))["id"]
  {
    match dataId
    case Some(id) => id
    case None => docId
  }

  /** The `id` entry of a document's data, as a one-key object. */
  function DataFields(dataId: Option<string>): map<string, string>
  {
    match dataId
    case Some(id) => map["id" := id]
    case None => map[]
  }

  /** `docs.map(doc => ({ id: doc.id, ...doc.data() }))`: one note per
      document, in order, each keeping the document's fields. */
  function FromDocs(docs: seq<StoredNote>): (notes: seq<Note>)
    ensures |notes| == |docs|
    ensures forall i :: 0 <= i < |docs| ==>
      notes[i] == Note(SpreadId(docs[i].docId, docs[i].dataId), docs[i].position, docs[i].text, docs[i].fill)
  {
    if docs == [] then []
    else
      var d := docs[0];
      [Note(SpreadId(d.docId, d.dataId), d.position, d.text, d.fill)] + FromDocs(docs[1..])
  }

  /** A document whose data has no `id` field becomes a note keyed by the
      document id; this is what the board's own writes store. */
  lemma FromDocsKeysByDocId(docs: seq<StoredNote>)
    requires forall i :: 0 <= i < |docs| ==> docs[i].dataId.None?
    ensures forall i :: 0 <= i < |docs| ==> FromDocs(docs)[i].id == docs[i].docId
  {
  }

  /** The field assignment of a spread `{ ...sticker, field: value }`. */
  datatype NoteEdit = Rekey(newId: string) | Retext(newText: string)

  function ApplyNote(n: Note, e: NoteEdit): (r: Note)
    ensures e.Rekey? ==> r.id == e.newId && r.position == n.position && r.text == n.text && r.fill == n.fill
    ensures e.Retext? ==> r.text == e.newText && r.id == n.id && r.position == n.position && r.fill == n.fill
  {
    match e
    case Rekey(i) => n.(id := i)
    case Retext(t) => n.(text := t)
  }

  /** `list.map(s => s.id === id ? { ...s, <e> } : s)`: every note whose id
      matches gets the edit, every other note stays as it was, in place. */
  function UpdateNotes(list: seq<Note>, id: string, e: NoteEdit): (r: seq<Note>)
    ensures |r| == |list|
    ensures forall i :: 0 <= i < |list| && list[i].id != id ==> r[i] == list[i]
    ensures forall i :: 0 <= i < |list| && list[i].id == id ==> r[i] == ApplyNote(list[i], e)
  {
    if list == [] then []
    else [if list[0].id == id then ApplyNote(list[0], e) else list[0]] + UpdateNotes(list[1..], id, e)
  }

  /** The note the double-click handler inserts under a given id. */
  function NewNote(id: string, x: int, y: int): (n: Note)
    ensures n.id == id && n.position == Position(x, y)
    ensures n.text == "" && n.fill == NoteFill
  {
    Note(id, Position(x, y), "", NoteFill)
  }

  /** The optimistic insert under a temporary id followed by the rekey to the
      store id yields the old list plus one note under the store id: the one
      logical note is never listed twice, provided no note already used the
      temporary id. */
  lemma {:induction false} InsertThenRekey(list: seq<Note>, tempId: string, storeId: string, x: int, y: int)
    requires forall i :: 0 <= i < |list| ==> list[i].id != tempId
    ensures UpdateNotes(list + [NewNote(tempId, x, y)], tempId, Rekey(storeId)) == list + [NewNote(storeId, x, y)]
  {
    var r := UpdateNotes(list + [NewNote(tempId, x, y)], tempId, Rekey(storeId));
    assert (list + [NewNote(tempId, x, y)])[|list|] == NewNote(tempId, x, y);
    assert forall i :: 0 <= i < |list| ==> (list + [NewNote(tempId, x, y)])[i] == list[i];
    assert r[|list|] == NewNote(storeId, x, y);
  }

  /** Committing a text touches only the text of the matching notes: ids,
      positions and fills are those of the old list. */
  lemma RetextKeepsLayout(list: seq<Note>, id: string, t: string)
    ensures var r := UpdateNotes(list, id, Retext(t));
      forall i :: 0 <= i < |list| ==>
        r[i].id == list[i].id && r[i].position == list[i].position && r[i].fill == list[i].fill
        && r[i].text == (if list[i].id == id then t else list[i].text)
  {
  }

  /** The `Stickers` component: the list of notes it renders. */
  class Board {
    var postItList: seq<Note>

    constructor ()
      ensures postItList == []
    {
      postItList := [];
    }

    /** The snapshot listener: the whole list becomes the fetched documents. */
    method ApplySnapshot(docs: seq<StoredNote>)
      modifies this
      ensures postItList == FromDocs(docs)
    {
      postItList := FromDocs(docs);
    }

    /** The part of handleDoubleClick before the store call: a double-click
        whose target element has class `sticky-note` (a note's border, not its
        text area) creates nothing; any other target gets one empty yellow note
        appended at the click under the temporary id. */
    method InsertOptimistic(targetHasNoteClass: bool, x: int, y: int, tempId: string) returns (inserted: bool)
      modifies this
      ensures inserted == !targetHasNoteClass
      ensures inserted ==> postItList == old(postItList) + [NewNote(tempId, x, y)]
      ensures !inserted ==> postItList == old(postItList)
    {
      if targetHasNoteClass {
        return false;
      }
      postItList := postItList + [NewNote(tempId, x, y)];
      return true;
    }

    /** The part of handleDoubleClick after the store call resolves: the note
        under the temporary id takes the store-assigned id, in place. */
    method RekeyCreated(tempId: string, storeId: string)
      modifies this
      ensures postItList == UpdateNotes(old(postItList), tempId, Rekey(storeId))
    {
      postItList := UpdateNotes(postItList, tempId, Rekey(storeId));
    }

    /** handleDoubleClick as a whole; `stored` is the id the store assigned, or
        None when the write rejected (the temporary note then stays). */
    method HandleDoubleClick(targetHasNoteClass: bool, x: int, y: int, tempId: string, stored: Option<string>)
      modifies this
      ensures targetHasNoteClass ==> postItList == old(postItList)
      ensures !targetHasNoteClass ==> |postItList| == |old(postItList)| + 1
      ensures !targetHasNoteClass && stored.None? ==> postItList == old(postItList) + [NewNote(tempId, x, y)]
      ensures !targetHasNoteClass && stored.Some? ==>
        postItList == UpdateNotes(old(postItList) + [NewNote(tempId, x, y)], tempId, Rekey(stored.value))
      ensures !targetHasNoteClass && stored.Some? && (forall i :: 0 <= i < |old(postItList)| ==> old(postItList)[i].id != tempId) ==>
        postItList == old(postItList) + [NewNote(stored.value, x, y)]
    {
      var inserted := InsertOptimistic(targetHasNoteClass, x, y, tempId);
      if inserted && stored.Some? {
        RekeyCreated(tempId, stored.value);
        if forall i :: 0 <= i < |old(postItList)| ==> old(postItList)[i].id != tempId {
          InsertThenRekey(old(postItList), tempId, stored.value, x, y);
        }
      }
    }

    /** updateStickerText: once the write succeeds the matching notes take the text. */
    method UpdateStickerText(id: string, newText: string, ok: bool)
      modifies this
      ensures postItList == if ok then UpdateNotes(old(postItList), id, Retext(newText)) else old(postItList)
    {
      if ok {
        postItList := UpdateNotes(postItList, id, Retext(newText));
      }
    }
  }

  /** One rendered note: its id and the text typed into it so far. */
  class StickyNote {
    const id: string
    var noteText: string

    /** Mounting copies the note's stored text into the local state. */
    constructor (id: string, text: string)
      ensures this.id == id && noteText == text
    {
      this.id := id;
      noteText := text;
    }

    /** Typing changes only the local text; nothing reaches the board. */
    method Change(text: string)
      modifies this
      ensures noteText == text
    {
      noteText := text;
    }

    /** handleKeyPress: Enter commits the local text to the board; any other
        key commits nothing. */
    method KeyPress(key: string, board: Board, ok: bool)
      modifies board
      ensures key == "Enter" ==> board.postItList == if ok then UpdateNotes(old(board.postItList), id, Retext(noteText)) else old(board.postItList)
      ensures key != "Enter" ==> board.postItList == old(board.postItList)
    {
      if key == "Enter" {
        board.UpdateStickerText(id, noteText, ok);
      }
    }

    /** onBlur: losing focus commits the local text to the board. */
    method Blur(board: Board, ok: bool)
      modifies board
      ensures board.postItList == if ok then UpdateNotes(old(board.postItList), id, Retext(noteText)) else old(board.postItList)
    {
      board.UpdateStickerText(id, noteText, ok);
    }
  }
}
