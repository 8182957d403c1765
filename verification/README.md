# Hana diary: a verified model of the entry logic

Hana diary (花語日記) is a browser diary app. Each entry is tied to a flower
from a fixed catalogue and tagged with a mood and a date. The page keeps the
entries in a list, newest first, and stores that list in browser storage.
It lists the entries through a season filter and a free-text search. An
editor form creates new entries and edits existing ones.

This project models the logic underneath that interface as pure Dafny
functions over immutable datatypes:

- `FlowerTypes` (`app/types/flower.ts`) holds the `Flower`, `DiaryEntry` and
  `Draft` records and the season and mood enumerations. Each enumeration
  comes with its kanji names and a parser that round-trips with them.
- `Catalogue` is the `flowers.find(f => f.id === id)` lookup that all three
  components use. The catalogue itself is a parameter.
- `Home` (`app/page.tsx`) holds the create, edit and delete updates, the
  `filteredEntries` predicate, and the page's own UI state.
- `Store` (`app/page.tsx`) holds the load effect with its two sample entries
  and the persistence effect.
- `DiaryForm` (`app/components/DiaryForm.tsx`) holds the editor state, how
  that state is seeded, the save guard with its trimming, the
  disabled-button predicate and the reset after a save.
- `EntryView` (`app/components/DiaryEntry.tsx`) holds the mood-to-emoji
  table and the rule that an entry whose flower is missing renders nothing.
- `Text`, `Seqs` and `Wrappers` are helpers. They model JavaScript's
  `trim`, `toLowerCase`, `includes`, `split(c)[0]` and `Array.prototype.filter`,
  plus an `Option` type.

The clock, browser storage and the `confirm` dialog are parameters:

- the fresh id and the current ISO timestamp are passed in as strings;
- the stored list is an `Option<seq<DiaryEntry>>`;
- the user's answer to the delete dialog is a `bool`.

Two behaviours of the code are easy to miss:

- The search matches the flower's Japanese name case-sensitively, because
  the code calls `includes` there without `toLowerCase`.
- An edit writes the edited entry's `createdAt` into every entry that shares
  its id. Entries keep their own `createdAt` only while ids are unique
  (`Home.EditKeepsIdentity`).

## Model

| member | source | states |
|---|---|---|
| `FlowerTypes.ParseSeason` | app/types/flower.ts:9 | A string is accepted as a season exactly when it is the name of one of 春, 夏, 秋, 冬; the accepted season's name is that string |
| `FlowerTypes.SeasonRoundTrip` | app/types/flower.ts:9 | Every season's name parses back to it, and no two seasons share a name |
| `FlowerTypes.ParseMood` | app/types/flower.ts:19 | A string is accepted as a mood exactly when it names one of the six moods 喜び, 悲しみ, 愛, 希望, 感謝, 平和 |
| `FlowerTypes.MoodRoundTrip` | app/types/flower.ts:19 | Every mood's name parses back to it, and no two moods share a name |
| `FlowerTypes.MoodsListsEveryMoodOnce` | app/components/DiaryForm.tsx:17 | The editor's mood list has six entries, holds every mood, and holds no mood twice |
| `FlowerTypes.Stamp` | app/page.tsx:62-72 | Completing a draft (the `{ ...entryData, id, createdAt }` spreads of the edit and create branches) with an id and a creation time gives an entry with that id and time whose draft part is exactly the draft |
| `FlowerTypes.StampDraftOf` | app/types/flower.ts:14-22 | Every entry is its draft part plus its `id` and `createdAt`, so a draft is exactly an entry without those two fields |
| `Catalogue.FindIndex` | app/page.tsx:91 | The position found is the first one whose flower has the id; no position is found exactly when no flower has it |
| `Catalogue.FindFlower` | app/page.tsx:91 | The lookup finds nothing exactly when no flower has the id; otherwise it returns the flower at the first position with that id |
| `Catalogue.FoundFlowerHasId` | app/components/DiaryEntry.tsx:28 | A flower that is found is in the catalogue and carries the requested id |
| `Catalogue.DanglingReferenceExists` | app/types/flower.ts:16 | For every catalogue some `flowerId` resolves to no flower, so dangling references are representable |
| `EntryView.MoodEmoji` | app/components/DiaryEntry.tsx:14-24 | Each of the six moods gets its fixed emoji, every other string gets 💭, and the result is never empty |
| `EntryView.MoodEmojiDistinguishesMoods` | app/components/DiaryEntry.tsx:15-22 | Different moods get different emoji, and no mood gets the fallback |
| `EntryView.RenderEntry` | app/components/DiaryEntry.tsx:27-52 | Nothing is rendered exactly when no flower has the entry's `flowerId`; otherwise the card shows the first such flower's emoji, Japanese name and meaning, the entry's own fields, and the mood's emoji from the table, which is never the fallback |
| `DiaryForm.DatePart` | app/components/DiaryForm.tsx:26 | The date taken from an ISO timestamp is a prefix of it that contains no `T`, and it stops only at the first `T` or at the end |
| `DiaryForm.InitialForm` | app/components/DiaryForm.tsx:20-26 | Without an entry the editor starts with no flower, empty title and content, and mood 喜び. With an entry it copies title, content and mood and selects the catalogue flower with the entry's `flowerId`, if any. The date is the entry's date unless that is empty, and today otherwise |
| `DiaryForm.HandleSave` | app/components/DiaryForm.tsx:28-46 | Nothing is emitted exactly when no flower is selected or the title or the content is all whitespace, and then the state is unchanged. Otherwise the draft carries the flower's id, the trimmed title and content, and the mood and date unchanged, and the editor resets and closes |
| `DiaryForm.SaveDisabled` | app/components/DiaryForm.tsx:190 | The save button is disabled exactly when no flower is selected or the title or the content is all whitespace |
| `DiaryForm.SaveDisabledIffNothingEmitted` | app/components/DiaryForm.tsx:190 | The save button is disabled exactly when a click would emit nothing (the guard on line 29) |
| `DiaryForm.SaveResetsToFreshForm` | app/components/DiaryForm.tsx:39-45 | After a successful save the editor is in the state it opens with for a new entry |
| `DiaryForm.EmittedDraftIsNormalised` | app/components/DiaryForm.tsx:31-37 | An emitted draft has a non-empty title and content that trimming no longer changes |
| `DiaryForm.ReopenAsWritten` | app/page.tsx:242-250 | As written, opening the single mounted editor on an entry leaves the editor's state exactly as it was; the entry handed in is not read |
| `DiaryForm.EditorIgnoresEditedEntry` | app/components/DiaryForm.tsx:20-26 | As written, a freshly reset editor opened on an entry with a title still shows an empty title, and its save button is disabled |
| `DiaryForm.Reopen` | app/components/DiaryForm.tsx:20-26 | The corrected opening seeds the editor from the entry regardless of the editor's previous state |
| `DiaryForm.UnchangedEditRoundTrip` | app/components/DiaryForm.tsx:20-37 | Opening the corrected editor on an entry and saving at once emits that entry's own draft. This needs the entry's flower to exist, its date to be set, and its title and content to be non-empty with no leading or trailing whitespace |
| `Home.CreateEntry` | app/page.tsx:66-73 | The list grows by one: the new entry comes first with the fresh id, the creation time and every draft field, and the old list follows unchanged |
| `Home.EditEntries` | app/page.tsx:58-64 | Length and ids are kept. Each entry with the edited id gets the draft's fields and the edited entry's `createdAt`, and every other entry is unchanged |
| `Home.EditAbsentIsIdentity` | app/page.tsx:60-64 | Editing an id no entry carries leaves the list unchanged |
| `Home.EditKeepsIdentity` | app/page.tsx:60-64 | If every entry sharing the edited id has the edited entry's `createdAt`, edited entries keep their own `id` and `createdAt` |
| `Home.EditWithOwnDraftIsIdentity` | app/page.tsx:60-64 | Saving an entry's own draft over it gives back the same list, provided no other entry shares its id |
| `Home.DeleteEntries` | app/page.tsx:78-82 | Declining leaves the list unchanged. Confirming keeps exactly the entries with a different id, as an order-preserving subsequence, and removes as many entries as carry the id |
| `Home.DeleteAbsentIsIdentity` | app/page.tsx:78-82 | Deleting an id no entry carries is the identity, confirmed or not |
| `Home.DeleteIdempotent` | app/page.tsx:80 | Deleting the same id twice gives the same list as deleting it once |
| `Home.MatchesSeason` | app/page.tsx:94 | A flower passes the season filter exactly when "all" is selected or the selection is the name of the flower's own season |
| `Home.MatchesSearch` | app/page.tsx:95-99 | An entry matches the query exactly when the query is empty, or the lower-cased query occurs in the lower-cased title, content or English flower name, or the query as typed occurs in the Japanese name |
| `Home.IsVisible` | app/page.tsx:91-101 | An entry is shown exactly when some flower carries its `flowerId` and the first such flower passes the season filter and the search |
| `Home.VisibleEntries` | app/page.tsx:90-102 | The visible list is an order-preserving subsequence of the entries. It holds every entry that passes the filter, and none whose flower is missing. Under a season filter every listed entry's flower has that season, and every listed entry matches the search. The shown and the hidden entries together number as many as the entries |
| `Home.VisibleEntriesRender` | app/page.tsx:90-92 | Every listed entry renders as a card: the list never holds an entry the card component would drop |
| `Home.UnfilteredShowsResolvable` | app/page.tsx:90-95 | With season "all" and an empty query, exactly the entries whose flower resolves are listed, in order |
| `Home.UnknownSeasonShowsNothing` | app/page.tsx:94 | A season filter that is neither "all" nor a season name lists nothing |
| `Home.VerbatimOccurrenceMatches` | app/page.tsx:95-99 | A query that occurs verbatim in the title, the content or the English flower name always matches |
| `Home.SearchIgnoresCaseOutsideJapaneseName` | app/page.tsx:95-99 | Queries that are equal after lower-casing match alike, provided they match the Japanese name alike |
| `Home.LowerCasedQueryMatchesAlike` | app/page.tsx:95-99 | Lower-casing the query first does not change which entries match, provided the Japanese name matches alike |
| `Home.JapaneseNameIsCaseSensitive` | app/page.tsx:98 | The Japanese name is matched case-sensitively: a Latin-letter Japanese name "Rose" is found by "Rose" but not by "rose" |
| `Home.HandleSaveEntry` | app/page.tsx:57-76 | Afterwards the editor is closed and no entry is being edited. Without an edited entry the new entry is prepended. Otherwise the length and ids are kept, each entry with the edited id carries the draft and the edited entry's `createdAt`, and every other entry is unchanged |
| `Home.HandleDeleteEntry` | app/page.tsx:78-82 | Only the entry list changes. Declining changes nothing; confirming keeps exactly the entries with a different id, in order, and removes as many entries as carry the id |
| `Home.HandleEditEntry` | app/page.tsx:84-87 | The editor opens on the given entry, and the list, the season filter and the search are untouched |
| `Home.CloseForm` | app/page.tsx:244-247 | The editor closes and no entry is being edited any more, and the list, the season filter and the search are untouched |
| `Home.EditUnchangedKeepsEntries` | app/page.tsx:57-87 | Opening the editor on a listed entry with a unique id and saving its own draft leaves the list unchanged |
| `Store.SampleEntries` | app/page.tsx:26-45 | The samples are two entries, sample-1 (sakura, 希望) and sample-2 (rose, 愛). Their creation times are the given timestamps, and their dates are the calendar parts of those timestamps |
| `Store.Load` | app/page.tsx:20-48 | Loading returns the stored list when there is one, and the two sample entries otherwise |
| `Store.PersistAsWritten` | app/page.tsx:50-55 | A non-empty list is stored. An empty list leaves the stored value unchanged |
| `Store.ReloadAfterPersistAsWritten` | app/page.tsx:20-55 | A non-empty list that has been persisted is what the next load returns |
| `Store.DeletedLastEntryReappears` | app/page.tsx:50-55 | As written, deleting the only stored entry yields an empty list, yet the next load returns that entry again |
| `Store.PersistOnceLoaded` | app/page.tsx:50-55 | The corrected effect leaves storage alone before the load and stores every list, the empty one included, afterwards |
| `Store.ReloadAfterPersistOnceLoaded` | app/page.tsx:20-55 | With the corrected effect, every persisted list, even an empty one, is what the next load returns |
| `Store.Mount` | app/page.tsx:13-55 | After mounting, the page shows the loaded list (stored or samples), that list is what is stored, the editor is closed, and the filter is "all" with an empty search |
| `Store.Commit` | app/page.tsx:51-55 | Once loaded, every committed page state's list is what is stored |
| `Store.DeletedLastEntryStaysDeleted` | app/page.tsx:78-82 | With the corrected effect, mounting on one stored entry, deleting it and reloading shows an empty list |
| `Text.Trim` | app/components/DiaryForm.tsx:29 | The trimmed text is a slice of the input with only whitespace cut from either end. It neither starts nor ends with whitespace, and it is empty exactly when the input is all whitespace |
| `Text.SkipStart` | app/components/DiaryForm.tsx:29 | The scan from a position stops at the first character that is not whitespace, or at the end, and everything it passed is whitespace |
| `Text.SkipEnd` | app/components/DiaryForm.tsx:29 | The backward scan stops after the last character that is not whitespace, or at its lower bound, and everything it passed is whitespace |
| `Text.TrimSpec` | app/components/DiaryForm.tsx:29 | The text between the two scan positions is the input with only whitespace cut from either end, has no whitespace at either end, and is empty exactly when the input is all whitespace |
| `Text.TrimOfTrimmed` | app/components/DiaryForm.tsx:33-34 | Trimming a string that neither starts nor ends with whitespace changes nothing |
| `Text.TrimIdempotent` | app/components/DiaryForm.tsx:33-34 | Trimming a trimmed string changes nothing |
| `Text.Lower` | app/page.tsx:96-99 | Lower-casing keeps the length, maps each character on its own, leaves no upper-case letter, and leaves every other character alone |
| `Text.Contains` | app/page.tsx:96-99 | The empty needle is always found, a needle is never found in a shorter text, and every text contains itself |
| `Text.ContainsSpec` | app/page.tsx:96-99 | `includes` holds exactly when the needle occurs at some position of the text |
| `Text.ContainsLowered` | app/page.tsx:96 | A verbatim occurrence is still an occurrence after both sides are lower-cased |
| `Text.BeforeFirst` | app/page.tsx:33 | `split(c)[0]` is a prefix of the input that contains no `c`, and the input's next character, if any, is `c` |
| `Seqs.Filter` | app/page.tsx:80 | Filtering never lengthens the list, and an element is kept exactly when it is in the list and satisfies the predicate |
| `Seqs.FilterIsSubsequence` | app/page.tsx:90 | A filtered list is an order-preserving subsequence of the original |
| `Seqs.FilterPartition` | app/page.tsx:80 | The kept elements and the dropped elements together number as many as the original list |

## Findings

| source | as written | input that shows it | evidently intended | confidence | as-written member | corrected member |
|---|---|---|---|---|---|---|
| app/page.tsx:50-55 | The list is written to storage only when it is non-empty | Storage holds one entry; the user deletes it and confirms; the page is reloaded | An empty list is stored too, so the deleted entry stays deleted; only the run before the load should skip writing | medium, not executed | `Store.PersistAsWritten`, `Store.DeletedLastEntryReappears` | `Store.PersistOnceLoaded`, `Store.ReloadAfterPersistOnceLoaded`, `Store.Mount`, `Store.Commit` |
| app/components/DiaryForm.tsx:20-26 | The editor reads `entry` only in `useState` initialisers. The page keeps one editor mounted (app/page.tsx:242-250), so those initialisers run once, while no entry is being edited | After the first mount, click edit on an entry titled "x" | The editor shows the entry's flower, title, content, mood and date | medium, not executed | `DiaryForm.ReopenAsWritten`, `DiaryForm.EditorIgnoresEditedEntry` | `DiaryForm.Reopen`, `DiaryForm.UnchangedEditRoundTrip` |

## Left out

- Rendering is not modelled: JSX, animation, icons, CSS classes, the empty-state messages, and the catalogue teaser (`flowers.slice(0, 8)`). The flower-card component is rendering only.
- The flower catalogue's data module is not part of this model. Every operation takes the catalogue as a `seq<Flower>`.
- Browser storage and JSON serialisation are not modelled. The store is an `Option<seq<DiaryEntry>>`, so malformed stored data cannot be represented. The source does not validate stored data at all.
- The clock (`Date.now()`, `toISOString()`) is not modelled. The fresh id, the current timestamp and the two sample timestamps are string parameters. Id uniqueness and date arithmetic are not modelled, because millisecond ids can collide.
- `confirm()` is a boolean parameter.
- Store.SampleEntries: derives each sample's date and `createdAt` from one timestamp parameter. The source reads the clock twice per sample (app/page.tsx:33-34), so across midnight UTC the two reads could fall on different days and the date would not be the calendar part of `createdAt`.
- `toLocaleDateString` formatting on the card is not modelled. The card carries the raw date string.
- The editor's per-keystroke setters, the mood `<select>` cast and the "new entry" button that opens the editor are not modelled: each only sets one state field.
- Text.Lower: lower-cases the ASCII letters A–Z and the full-width Latin letters Ａ–Ｚ only. JavaScript's `toLowerCase` also maps other cased scripts, such as accented Latin, Greek and Cyrillic, so a query or text in those scripts is compared case-sensitively here. Kana and kanji have no case and are unaffected either way.
- EntryView.MoodEmoji: models the table as a plain six-key map. In the source a key inherited from `Object.prototype` (for example "toString") returns that inherited value instead of 💭. Only an unvalidated stored mood could reach it.
- React's effect scheduling is not modelled. `Store.Mount` writes out the first two renders by hand: the load effect reads storage, the persistence effect then runs on the empty initial list, and the loaded list is persisted on the next render.
