/** The entry editor: its state, how that state is seeded from the entry
    being edited, the save guard, the normalisation of the submitted draft
    and the reset after a save. */
module DiaryForm {
  import opened Wrappers
  import opened Text
  import opened FlowerTypes
  import opened Catalogue

  datatype FormState = FormState(
    selectedFlower: Option<Flower>,
    title: string,
    content: string,
    mood: Mood,
    date: string)

  /** `iso.split('T')[0]`: the calendar-date part of an ISO timestamp. */
  function DatePart(iso: string): (d: string)
    ensures d <= iso && 'T' !in d
    ensures |d| < |iso| ==> iso[|d|] == 'T'
  {
    BeforeFirst(iso, 'T')
  }

  /** The state the editor opens with. `nowIso` stands for the current time
      as an ISO timestamp. With an entry, its title, content and mood are
      copied and its date too unless it is empty (`entry?.date || today`). */
  function InitialForm(entry: Option<DiaryEntry>, catalogue: seq<Flower>, nowIso: string): (f: FormState)
    ensures entry.None? ==>
      f.selectedFlower.None? && f.title == "" && f.content == "" && f.mood == Joy
    ensures entry.Some? ==>
      (&& f.selectedFlower == FindFlower(catalogue, entry.value.flowerId)
       && f.title == entry.value.title
       && f.content == entry.value.content
       && f.mood == entry.value.mood)
    ensures f.date == (if entry.Some? && entry.value.date != "" then entry.value.date else DatePart(nowIso))
  {
    match entry
    case None => FormState(None, "", "", Joy, DatePart(nowIso))
    case Some(e) =>
      FormState(FindFlower(catalogue, e.flowerId), e.title, e.content, e.mood,
                if e.date != "" then e.date else DatePart(nowIso))
  }

  /** The `disabled` expression of the save button:
      `!selectedFlower || !title.trim() || !content.trim()`. */
  function SaveDisabled(f: FormState): (r: bool)
    ensures r <==> f.selectedFlower.None? || AllWhitespace(f.title) || AllWhitespace(f.content)
  {
    f.selectedFlower.None? || Trim(f.title) == "" || Trim(f.content) == ""
  }

  /** What a click on save produces: the draft handed to `onSave` if any,
      the editor state afterwards, and whether `onClose` was called. */
  datatype SaveOutcome = SaveOutcome(emitted: Option<Draft>, form: FormState, closed: bool)

  /** `handleSave`: emits nothing unless a flower is chosen and title and
      content hold something besides whitespace; otherwise emits the trimmed
      draft, resets the editor and closes it. */
  function HandleSave(f: FormState, nowIso: string): (o: SaveOutcome)
    ensures o.emitted.None? <==>
      (f.selectedFlower.None? || AllWhitespace(f.title) || AllWhitespace(f.content))
    ensures o.emitted.None? ==> o.form == f && !o.closed
    ensures o.emitted.Some? ==>
      (&& o.emitted.value.flowerId == f.selectedFlower.value.id
       && o.emitted.value.title == Trim(f.title)
       && o.emitted.value.content == Trim(f.content)
       && o.emitted.value.mood == f.mood
       && o.emitted.value.date == f.date)
    ensures o.emitted.Some? ==>
      (&& o.closed && o.form.selectedFlower.None?
       && o.form.title == "" && o.form.content == "" && o.form.mood == Joy
       && o.form.date == DatePart(nowIso))
  {
    if f.selectedFlower.None? || Trim(f.title) == "" || Trim(f.content) == "" then
      SaveOutcome(None, f, false)
    else
      var draft := Draft(f.selectedFlower.value.id, Trim(f.title), Trim(f.content), f.mood, f.date);
      SaveOutcome(Some(draft), FormState(None, "", "", Joy, DatePart(nowIso)), true)
  }

  /** The button is disabled exactly when a click would emit nothing. */
  lemma SaveDisabledIffNothingEmitted(f: FormState, nowIso: string)
    ensures SaveDisabled(f) <==> HandleSave(f, nowIso).emitted.None?
  {
  }

  /** After a save the editor is in the state it opens with for a new entry. */
  lemma SaveResetsToFreshForm(f: FormState, catalogue: seq<Flower>, nowIso: string)
    ensures HandleSave(f, nowIso).emitted.Some? ==>
      HandleSave(f, nowIso).form == InitialForm(None, catalogue, nowIso)
  {
  }

  /** An emitted draft is already normalised: its title and content are
      non-empty, trimmed, and would pass the guard again. */
  lemma EmittedDraftIsNormalised(f: FormState, nowIso: string)
    ensures HandleSave(f, nowIso).emitted.Some? ==>
      var d := HandleSave(f, nowIso).emitted.value;
      && d.title != "" && Trim(d.title) == d.title
      && d.content != "" && Trim(d.content) == d.content
  {
  }

  /** Opening the editor as the page does it. The page keeps one editor
      mounted for its whole life and the entry only feeds `useState`
      initialisers, which are read once at mount, when no entry is being
      edited; so the editor keeps whatever state it last held and the entry
      handed in later is not read. */
  function ReopenAsWritten(current: FormState, entry: Option<DiaryEntry>): (f: FormState)
    ensures f == current
  {
    current
  }

  /** As written, opening a fresh editor on an entry with a title shows an
      empty title and a disabled save button instead of the entry. */
  lemma EditorIgnoresEditedEntry(entry: DiaryEntry, catalogue: seq<Flower>, nowIso: string)
    requires entry.title != ""
    ensures var f := ReopenAsWritten(InitialForm(None, catalogue, nowIso), Some(entry));
            f.title != entry.title && SaveDisabled(f)
  {
  }

  /** The corrected opening: the editor is seeded from the entry afresh each
      time it is opened, whatever it held before. */
  function Reopen(current: FormState, entry: Option<DiaryEntry>, catalogue: seq<Flower>, nowIso: string): (f: FormState)
    ensures entry.Some? ==>
      (&& f.selectedFlower == FindFlower(catalogue, entry.value.flowerId)
       && f.title == entry.value.title
       && f.content == entry.value.content
       && f.mood == entry.value.mood)
    ensures entry.None? ==>
      f.selectedFlower.None? && f.title == "" && f.content == "" && f.mood == Joy
    ensures f.date == (if entry.Some? && entry.value.date != "" then entry.value.date else DatePart(nowIso))
  {
    InitialForm(entry, catalogue, nowIso)
  }

  /** Opening the corrected editor on an entry and saving without touching
      anything hands back that entry's own draft, provided its flower is in
      the catalogue, its date is set and its title and content are
      non-empty and neither start nor end with whitespace. */
  lemma UnchangedEditRoundTrip(current: FormState, entry: DiaryEntry, catalogue: seq<Flower>, nowIso: string)
    requires HasFlower(catalogue, entry.flowerId)
    requires entry.date != ""
    requires entry.title != "" && !IsWhitespace(entry.title[0]) && !IsWhitespace(entry.title[|entry.title| - 1])
    requires entry.content != "" && !IsWhitespace(entry.content[0]) && !IsWhitespace(entry.content[|entry.content| - 1])
    ensures HandleSave(Reopen(current, Some(entry), catalogue, nowIso), nowIso).emitted == Some(DraftOf(entry))
  {
    TrimOfTrimmed(entry.title);
    TrimOfTrimmed(entry.content);
  }

}
