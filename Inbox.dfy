/** The inbox of received notes: a scan over every note index of the ledger
    that keeps the notes addressed to the current account and not deleted, and
    the actions offered for each of them. */
module Inbox {
  import opened Ledger
  import Format

  /** Text of the content element of an unread note until it is decrypted. */
  const Placeholder: string := "Encrypted Message"

  /** What a listed note shows: "Message read (content hidden)" for a read note,
      or a content element holding the placeholder for an unread one. */
  datatype NoteBody = ContentHidden | EncryptedPlaceholder

  /** One listed note: its ledger index, the short form of its sender, its body,
      and whether the "Decrypt & Read" and "Delete" buttons are offered. */
  datatype NoteItem = NoteItem(index: nat, from: string, body: NoteBody, decryptAction: bool, deleteAction: bool)

  /** The notes panel: the prompt shown while disconnected, the error message,
      the "no notes yet" message, or the list. */
  datatype NotesView = NotesPrompt | NotesError | NoNotes | NoteList(items: seq<NoteItem>)

  /** A note belongs in the inbox of `me`. */
  predicate Addressed(n: Note, me: string) {
    Format.SameAddress(n.recipient, me) && !n.isDeleted
  }

  /** The entry for note `i`. */
  function Render(i: nat, n: Note): NoteItem {
    NoteItem(i, Format.ShortAddress(n.sender), if n.isRead then ContentHidden else EncryptedPlaceholder, !n.isRead, true)
  }

  /** The entries listed for `me`, in the order of the scan. */
  function InboxEntries(notes: seq<Note>, me: string): seq<NoteItem> {
    if notes == [] then []
    else
      var i := |notes| - 1;
      InboxEntries(notes[..i], me) + (if Addressed(notes[i], me) then [Render(i, notes[i])] else [])
  }

  /** The panel once every read succeeded: the list, or the "no notes" message. */
  function InboxView(notes: seq<Note>, me: string): NotesView {
    if InboxEntries(notes, me) == [] then NoNotes else NoteList(InboxEntries(notes, me))
  }

  /** Indices of the listed notes that show a content element and a decrypt button. */
  function UnreadListed(view: NotesView): set<nat> {
    if view.NoteList? then set k | 0 <= k < |view.items| && view.items[k].decryptAction :: view.items[k].index else {}
  }

  /** The content elements on the page after the panel is drawn: one per
      listed unread note, keyed by note index, holding the placeholder. */
  function ContentElements(view: NotesView): map<nat, string> {
    map k | k in UnreadListed(view) :: Placeholder
  }

  /** `item` is the entry of an addressed, undeleted note: a read note is shown
      with its content hidden and without a decrypt action, an unread one with
      the placeholder and the decrypt action, and every entry offers delete. */
  predicate ListedFrom(item: NoteItem, notes: seq<Note>, me: string) {
    item.index < |notes| && Addressed(notes[item.index], me) &&
    item.from == Format.ShortAddress(notes[item.index].sender) &&
    (item.body == ContentHidden <==> notes[item.index].isRead) &&
    (item.body == EncryptedPlaceholder <==> !notes[item.index].isRead) &&
    (item.decryptAction <==> !notes[item.index].isRead) &&
    item.deleteAction
  }

  /** Every listed entry is drawn from an addressed, undeleted note as
      ListedFrom says, and the entries come in ascending index order. */
  lemma {:induction false} InboxItems(notes: seq<Note>, me: string)
    ensures forall k :: 0 <= k < |InboxEntries(notes, me)| ==> ListedFrom(InboxEntries(notes, me)[k], notes, me)
    ensures forall k1, k2 :: 0 <= k1 < k2 < |InboxEntries(notes, me)| ==> InboxEntries(notes, me)[k1].index < InboxEntries(notes, me)[k2].index
  {
    if notes != [] {
      var i := |notes| - 1;
      var prev := InboxEntries(notes[..i], me);
      var items := InboxEntries(notes, me);
      InboxItems(notes[..i], me);
      forall k | 0 <= k < |prev| ensures prev[k].index < i && ListedFrom(prev[k], notes, me) {
        assert ListedFrom(prev[k], notes[..i], me);
        assert notes[..i][prev[k].index] == notes[prev[k].index];
      }
      forall k | 0 <= k < |items| ensures ListedFrom(items[k], notes, me) {
        if k < |prev| {
          assert items[k] == prev[k];
        }
      }
    }
  }

  /** Every note addressed to `me` and not deleted is listed. */
  lemma {:induction false} InboxComplete(notes: seq<Note>, me: string, i: nat)
    requires i < |notes| && Addressed(notes[i], me)
    ensures exists k :: 0 <= k < |InboxEntries(notes, me)| && InboxEntries(notes, me)[k].index == i
  {
    var last := |notes| - 1;
    var prev := InboxEntries(notes[..last], me);
    if i == last {
      assert InboxEntries(notes, me)[|prev|].index == i;
    } else {
      InboxComplete(notes[..last], me, i);
      var k :| 0 <= k < |prev| && prev[k].index == i;
      assert InboxEntries(notes, me)[k] == prev[k];
    }
  }

  /** The inbox holds exactly the addressed, undeleted notes: index `i` is
      listed if and only if note `i` exists and belongs there. */
  lemma InboxExactly(notes: seq<Note>, me: string, i: int)
    ensures (exists k :: 0 <= k < |InboxEntries(notes, me)| && InboxEntries(notes, me)[k].index == i)
        <==> 0 <= i < |notes| && Addressed(notes[i], me)
  {
    InboxItems(notes, me);
    if 0 <= i < |notes| && Addressed(notes[i], me) {
      InboxComplete(notes, me, i);
    }
  }

  /** Once the panel lists the inbox, a note has a content element and a
      decrypt button exactly when it exists, is addressed to `me`, is not
      deleted and is still unread. */
  lemma UnreadListedExactly(notes: seq<Note>, me: string, i: int)
    ensures i in UnreadListed(InboxView(notes, me)) <==>
      0 <= i < |notes| && Addressed(notes[i], me) && !notes[i].isRead
  {
    var items := InboxEntries(notes, me);
    InboxItems(notes, me);
    if i in UnreadListed(InboxView(notes, me)) {
      var k :| 0 <= k < |items| && items[k].decryptAction && items[k].index == i;
      assert ListedFrom(items[k], notes, me);
    }
    if 0 <= i < |notes| && Addressed(notes[i], me) && !notes[i].isRead {
      InboxComplete(notes, me, i);
      var k :| 0 <= k < |items| && items[k].index == i;
      assert ListedFrom(items[k], notes, me);
      assert items[k].decryptAction;
    }
  }

  /** The loop of the notes panel over indices 0 .. count - 1. A read that
      throws ends the scan and the panel shows the error; otherwise the panel
      lists the inbox, or says that there are no notes when nothing was kept. */
  method ScanInbox(notes: seq<Fetch<Note>>, me: string) returns (view: NotesView)
    ensures view == NotesError <==> !AllFetched(notes)
    ensures AllFetched(notes) ==> view == InboxView(Values(notes), me)
  {
    var items: seq<NoteItem> := [];
    var hasNotes := false;
    var i := 0;
    while i < |notes|
      invariant 0 <= i <= |notes|
      invariant AllFetched(notes[..i])
      invariant items == InboxEntries(Values(notes[..i]), me)
      invariant hasNotes <==> items != []
    {
      if notes[i].Failed? {
        return NotesError;
      }
      var note := notes[i].value;
      ValuesPrefix(notes, i);
      assert Values(notes[..i + 1])[..i] == Values(notes[..i]);
      if Format.SameAddress(note.recipient, me) {
        if !note.isDeleted {
          hasNotes := true;
          items := items + [Render(i, note)];
        }
      }
      i := i + 1;
    }
    assert notes[..i] == notes;
    if !hasNotes {
      view := NoNotes;
    } else {
      view := NoteList(items);
    }
  }
}
