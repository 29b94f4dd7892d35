/** The dashboard's notes card, src/components/DailyNotes.jsx: a text kept
    in `localStorage` under two keys (the text and the time it was saved),
    loaded when the card mounts, edited only in edit mode, saved with a
    timestamp, and cleared after a confirmation. The timestamp's text is an
    input: its locale formatting is not modelled. */
module DailyNotes {
  import opened Common
  import opened Browser
  import AuthService

  const NotesKey: string := "adminDailyNotes"
  const TimeKey: string := "adminNotesTimestamp"

  /** The card's state: the text, edit mode, and the "Last saved" time. */
  datatype Card = Card(notes: string, isEditing: bool, savedTime: Option<string>)

  /** `localStorage.getItem(key)` for a key only this card writes: its
      text, or nothing. */
  function StoredText(store: Store, key: string): (r: Option<string>)
    ensures r.Some? <==> key in store && store[key].Text?
    ensures r.Some? ==> store[key] == Text(r.value)
  {
    if key in store && store[key].Text? then Some(store[key].text) else None
  }

  /** The state before the mount effect runs. */
  const Blank: Card := Card("", false, None)

  /** The mount effect: stored notes that are non-empty are shown with the
      stored time (which may be missing); otherwise the card stays blank. */
  function Mount(store: Store): (c: Card)
    ensures !c.isEditing
    ensures Truthy(StoredText(store, NotesKey)) ==>
              c.notes == StoredText(store, NotesKey).value && c.savedTime == StoredText(store, TimeKey)
    ensures !Truthy(StoredText(store, NotesKey)) ==> c == Blank
  {
    var saved := StoredText(store, NotesKey);
    if Truthy(saved) then Card(saved.value, false, StoredText(store, TimeKey)) else Blank
  }

  // ---------------------------------------------------------------------------
  // Editing

  /** The "Edit" button. */
  function Edit(c: Card): (r: Card)
    ensures r.isEditing && r.notes == c.notes && r.savedTime == c.savedTime
  {
    c.(isEditing := true)
  }

  /** Typing into the text area, which is disabled outside edit mode. */
  function Type(c: Card, text: string): (r: Card)
    ensures c.isEditing ==> r == c.(notes := text)
    ensures !c.isEditing ==> r == c
  {
    if c.isEditing then c.(notes := text) else c
  }

  /** The "Cancel" button: leaves edit mode and nothing else; the typed text
      stays on screen and storage is not touched. */
  function Cancel(c: Card): (r: Card)
    ensures !r.isEditing && r.notes == c.notes && r.savedTime == c.savedTime
  {
    c.(isEditing := false)
  }

  /** The delete button is shown for a non-empty text, the footer for a
      save time. */
  predicate ClearShown(c: Card) { c.notes != "" }
  predicate FooterShown(c: Card) { Truthy(c.savedTime) }

  // ---------------------------------------------------------------------------
  // Saving and clearing

  /** `handleSave()` at the time rendered as `timestamp`: both keys written,
      the time shown, edit mode left. */
  function Save(c: Card, store: Store, timestamp: string): (r: (Card, Store))
    ensures r.0 == Card(c.notes, false, Some(timestamp))
    ensures NotesKey in r.1 && r.1[NotesKey] == Text(c.notes)
    ensures TimeKey in r.1 && r.1[TimeKey] == Text(timestamp)
    ensures forall k :: k != NotesKey && k != TimeKey ==> (k in r.1 <==> k in store) && (k in store ==> r.1[k] == store[k])
  {
    (Card(c.notes, false, Some(timestamp)), store[NotesKey := Text(c.notes)][TimeKey := Text(timestamp)])
  }

  /** `handleClear()`: when confirmed, the text and time are cleared and both
      keys removed; edit mode is kept. Declined, nothing changes. */
  function Clear(c: Card, store: Store, confirmed: bool): (r: (Card, Store))
    ensures confirmed ==> r.0 == Card("", c.isEditing, None) && NotesKey !in r.1 && TimeKey !in r.1
    ensures confirmed ==> forall k :: k != NotesKey && k != TimeKey ==> (k in r.1 <==> k in store) && (k in store ==> r.1[k] == store[k])
    ensures !confirmed ==> r == (c, store)
  {
    if confirmed then (Card("", c.isEditing, None), Remove(Remove(store, NotesKey), TimeKey)) else (c, store)
  }

  // ---------------------------------------------------------------------------
  // Properties across a reload

  /** Saved notes survive a reload with their time; saved empty notes do
      not, and the reloaded card then shows no save time either. */
  lemma SaveSurvivesReload(c: Card, store: Store, timestamp: string)
    ensures var (_, saved) := Save(c, store, timestamp);
            c.notes != "" ==> Mount(saved) == Card(c.notes, false, Some(timestamp))
    ensures var (_, saved) := Save(c, store, timestamp);
            c.notes == "" ==> Mount(saved) == Blank
  {
    var (_, saved) := Save(c, store, timestamp);
    assert StoredText(saved, NotesKey) == Some(c.notes);
    assert StoredText(saved, TimeKey) == Some(timestamp);
  }

  /** After a confirmed clear a reload shows a blank card. */
  lemma ClearSurvivesReload(c: Card, store: Store)
    ensures Mount(Clear(c, store, true).1) == Blank
  {
    assert StoredText(Clear(c, store, true).1, NotesKey) == None;
  }

  /** Cancel does not revert: text typed in edit mode stays on screen
      after cancelling, while storage still holds what was last saved. */
  lemma CancelKeepsTypedText(c: Card, text: string)
    ensures Cancel(Type(Edit(c), text)) == c.(notes := text, isEditing := false)
  {
  }

  /** The card's keys are not the session's, so saving or clearing notes
      never changes the signed-in admin. */
  lemma NotesLeaveSessionAlone(c: Card, store: Store, timestamp: string, confirmed: bool)
    ensures AuthService.GetCurrentAdmin(Save(c, store, timestamp).1) == AuthService.GetCurrentAdmin(store)
    ensures AuthService.GetCurrentAdmin(Clear(c, store, confirmed).1) == AuthService.GetCurrentAdmin(store)
  {
    assert AuthService.AdminKey != NotesKey && AuthService.AdminKey != TimeKey by {
      assert |AuthService.AdminKey| == 9 && |NotesKey| == 15 && |TimeKey| == 19;
    }
  }
}
