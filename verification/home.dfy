/** The top-level page: the entry list it owns, the create / edit / delete
    updates applied to it, the season-and-search filter that decides which
    entries are listed, and the little UI state around the editor. */
module Home {
  import opened Wrappers
  import opened Text
  import opened Seqs
  import opened FlowerTypes
  import opened Catalogue
  import opened EntryView

  // ---------------------------------------------------------------------------
  // Entry-list updates
  // ---------------------------------------------------------------------------

  /** The create branch of `handleSaveEntry`: the draft, stamped with a fresh
      id and the creation time, goes in front of the list (newest first). */
  function CreateEntry(entries: seq<DiaryEntry>, draft: Draft, freshId: string, nowIso: string): (r: seq<DiaryEntry>)
    ensures |r| == |entries| + 1
    ensures r[0].id == freshId && r[0].createdAt == nowIso && DraftOf(r[0]) == draft
    ensures r[1..] == entries
  {
    [Stamp(draft, freshId, nowIso)] + entries
  }

  /** The edit branch of `handleSaveEntry`: every entry whose id is the
      edited entry's id is replaced by the draft stamped with the edited
      entry's id and creation time; the others stay as they are. */
  function EditEntries(entries: seq<DiaryEntry>, editing: DiaryEntry, draft: Draft): (r: seq<DiaryEntry>)
    ensures |r| == |entries|
    ensures forall i :: 0 <= i < |entries| ==> r[i].id == entries[i].id
    ensures forall i :: 0 <= i < |entries| && entries[i].id == editing.id ==>
      DraftOf(r[i]) == draft && r[i].createdAt == editing.createdAt
    ensures forall i :: 0 <= i < |entries| && entries[i].id != editing.id ==> r[i] == entries[i]
  {
    if |entries| == 0 then []
    else
      var head := if entries[0].id == editing.id
                  then Stamp(draft, editing.id, editing.createdAt)
                  else entries[0];
      [head] + EditEntries(entries[1..], editing, draft)
  }

  /** Editing an id that no entry carries changes nothing. */
  lemma EditAbsentIsIdentity(entries: seq<DiaryEntry>, editing: DiaryEntry, draft: Draft)
    requires forall e :: e in entries ==> e.id != editing.id
    ensures EditEntries(entries, editing, draft) == entries
  {
  }

  /** When the edited entry agrees on its creation time with every entry
      sharing its id (as it does when it was taken from the list and ids are
      unique), edited entries keep their own id and creation time. */
  lemma EditKeepsIdentity(entries: seq<DiaryEntry>, editing: DiaryEntry, draft: Draft)
    requires forall e :: e in entries && e.id == editing.id ==> e.createdAt == editing.createdAt
    ensures forall i :: 0 <= i < |entries| ==>
      && EditEntries(entries, editing, draft)[i].id == entries[i].id
      && EditEntries(entries, editing, draft)[i].createdAt == entries[i].createdAt
  {
  }

  /** Saving an entry's own draft over it, when it is the only entry with its
      id, gives back the list unchanged. */
  lemma EditWithOwnDraftIsIdentity(entries: seq<DiaryEntry>, editing: DiaryEntry)
    requires forall e :: e in entries && e.id == editing.id ==> e == editing
    ensures EditEntries(entries, editing, DraftOf(editing)) == entries
  {
  }

  /** The entries carrying a given id. */
  function WithId(entries: seq<DiaryEntry>, id: string): seq<DiaryEntry> {
    Filter(entries, (e: DiaryEntry) => e.id == id)
  }

  /** `handleDeleteEntry`: when the user confirms, every entry with that id is
      removed and the rest keep their order; when they decline, nothing changes. */
  function DeleteEntries(entries: seq<DiaryEntry>, id: string, confirmed: bool): (r: seq<DiaryEntry>)
    ensures !confirmed ==> r == entries
    ensures confirmed ==> forall e :: e in r <==> e in entries && e.id != id
    ensures confirmed ==> IsSubsequence(r, entries)
    ensures confirmed ==> |r| == |entries| - |WithId(entries, id)|
  {
    if confirmed then
      var keep := (e: DiaryEntry) => e.id != id;
      FilterIsSubsequence(entries, keep);
      FilterPartition(entries, keep, (e: DiaryEntry) => e.id == id);
      Filter(entries, keep)
    else
      entries
  }

  /** Deleting an id that no entry carries changes nothing. */
  lemma DeleteAbsentIsIdentity(entries: seq<DiaryEntry>, id: string, confirmed: bool)
    requires forall e :: e in entries ==> e.id != id
    ensures DeleteEntries(entries, id, confirmed) == entries
  {
    FilterKeepAll(entries, (e: DiaryEntry) => e.id != id);
  }

  /** Deleting the same id twice is deleting it once. */
  lemma DeleteIdempotent(entries: seq<DiaryEntry>, id: string)
    ensures DeleteEntries(DeleteEntries(entries, id, true), id, true) == DeleteEntries(entries, id, true)
  {
    FilterIdempotent(entries, (e: DiaryEntry) => e.id != id);
  }

  // ---------------------------------------------------------------------------
  // The visible entries
  // ---------------------------------------------------------------------------

  /** The season select holds "all" or a season name; a flower passes when
      "all" is selected or the selection names the flower's own season. */
  function MatchesSeason(flower: Flower, selectedSeason: string): (r: bool)
    ensures r <==> selectedSeason == "all" || ParseSeason(selectedSeason) == Some(flower.season)
  {
    SeasonRoundTrip(flower.season);
    selectedSeason == "all" || SeasonName(flower.season) == selectedSeason
  }

  /** The search box: title, content and the flower's English name are
      compared after lower-casing both sides; the Japanese name is compared
      as it stands. */
  function MatchesSearch(entry: DiaryEntry, flower: Flower, query: string): (r: bool)
    ensures r <==>
      || query == ""
      || (exists i :: OccursAt(Lower(entry.title), Lower(query), i))
      || (exists i :: OccursAt(Lower(entry.content), Lower(query), i))
      || (exists i :: OccursAt(flower.japaneseName, query, i))
      || (exists i :: OccursAt(Lower(flower.name), Lower(query), i))
  {
    ContainsSpec(Lower(entry.title), Lower(query));
    ContainsSpec(Lower(entry.content), Lower(query));
    ContainsSpec(flower.japaneseName, query);
    ContainsSpec(Lower(flower.name), Lower(query));
    || query == ""
    || Contains(Lower(entry.title), Lower(query))
    || Contains(Lower(entry.content), Lower(query))
    || Contains(flower.japaneseName, query)
    || Contains(Lower(flower.name), Lower(query))
  }

  /** The predicate `filteredEntries` applies to one entry: its flower is
      looked up first, and an entry whose flower is missing is never shown. */
  function IsVisible(entry: DiaryEntry, catalogue: seq<Flower>, selectedSeason: string, query: string): (r: bool)
    ensures r <==>
      exists k :: (&& IsFirstWithId(catalogue, entry.flowerId, k)
                   && MatchesSeason(catalogue[k], selectedSeason)
                   && MatchesSearch(entry, catalogue[k], query))
  {
    match FindFlower(catalogue, entry.flowerId)
    case None => false
    case Some(flower) => MatchesSeason(flower, selectedSeason) && MatchesSearch(entry, flower, query)
  }

  /** The entries `filteredEntries` leaves out. */
  function HiddenEntries(entries: seq<DiaryEntry>, catalogue: seq<Flower>, selectedSeason: string, query: string): seq<DiaryEntry> {
    Filter(entries, (e: DiaryEntry) => !IsVisible(e, catalogue, selectedSeason, query))
  }

  /** `filteredEntries`: the entries listed on the page. */
  function VisibleEntries(entries: seq<DiaryEntry>, catalogue: seq<Flower>, selectedSeason: string, query: string): (r: seq<DiaryEntry>)
    ensures IsSubsequence(r, entries)
    ensures forall e :: e in r ==> e in entries && HasFlower(catalogue, e.flowerId)
    ensures forall e :: e in entries && IsVisible(e, catalogue, selectedSeason, query) ==> e in r
    ensures selectedSeason != "all" ==>
      forall e :: e in r ==> SeasonName(FindFlower(catalogue, e.flowerId).value.season) == selectedSeason
    ensures forall e :: e in r ==>
      MatchesSearch(e, FindFlower(catalogue, e.flowerId).value, query)
    ensures |r| + |HiddenEntries(entries, catalogue, selectedSeason, query)| == |entries|
  {
    var keep := (e: DiaryEntry) => IsVisible(e, catalogue, selectedSeason, query);
    FilterIsSubsequence(entries, keep);
    FilterPartition(entries, keep, (e: DiaryEntry) => !IsVisible(e, catalogue, selectedSeason, query));
    Filter(entries, keep)
  }

  /** The entries whose flower is in the catalogue. */
  function Resolvable(entries: seq<DiaryEntry>, catalogue: seq<Flower>): seq<DiaryEntry> {
    Filter(entries, (e: DiaryEntry) => FindFlower(catalogue, e.flowerId).Some?)
  }

  /** With every season and an empty search, exactly the entries whose flower
      resolves are listed, in their original order. */
  lemma UnfilteredShowsResolvable(entries: seq<DiaryEntry>, catalogue: seq<Flower>)
    ensures VisibleEntries(entries, catalogue, "all", "") == Resolvable(entries, catalogue)
  {
    FilterCongruent(entries,
      (e: DiaryEntry) => IsVisible(e, catalogue, "all", ""),
      (e: DiaryEntry) => FindFlower(catalogue, e.flowerId).Some?);
  }

  /** A season filter that names no season lists nothing. */
  lemma UnknownSeasonShowsNothing(entries: seq<DiaryEntry>, catalogue: seq<Flower>, selectedSeason: string, query: string)
    requires selectedSeason != "all" && ParseSeason(selectedSeason).None?
    ensures VisibleEntries(entries, catalogue, selectedSeason, query) == []
  {
    FilterKeepNone(entries, (e: DiaryEntry) => IsVisible(e, catalogue, selectedSeason, query));
  }

  /** Every listed entry renders as a card: the list never holds an entry
      the card component would drop. */
  lemma VisibleEntriesRender(entries: seq<DiaryEntry>, catalogue: seq<Flower>, selectedSeason: string, query: string)
    ensures forall e :: e in VisibleEntries(entries, catalogue, selectedSeason, query) ==>
      RenderEntry(e, catalogue).Some?
  {
  }

  /** A query that occurs verbatim in the title, the content or the English
      name always matches, whatever its case. */
  lemma VerbatimOccurrenceMatches(entry: DiaryEntry, flower: Flower, query: string)
    requires Contains(entry.title, query) || Contains(entry.content, query) || Contains(flower.name, query)
    ensures MatchesSearch(entry, flower, query)
  {
    ContainsLowered(entry.title, query);
    ContainsLowered(entry.content, query);
    ContainsLowered(flower.name, query);
  }

  /** Two queries differing only in ASCII case are treated alike, except for
      their effect on the Japanese name. */
  lemma SearchIgnoresCaseOutsideJapaneseName(entry: DiaryEntry, flower: Flower, q1: string, q2: string)
    requires Lower(q1) == Lower(q2)
    requires Contains(flower.japaneseName, q1) == Contains(flower.japaneseName, q2)
    ensures MatchesSearch(entry, flower, q1) == MatchesSearch(entry, flower, q2)
  {
  }

  /** Lower-casing the query before searching changes nothing, as long as
      it does not change whether the Japanese name matches. */
  lemma LowerCasedQueryMatchesAlike(entry: DiaryEntry, flower: Flower, query: string)
    requires Contains(flower.japaneseName, Lower(query)) == Contains(flower.japaneseName, query)
    ensures MatchesSearch(entry, flower, Lower(query)) == MatchesSearch(entry, flower, query)
  {
    LowerIdempotent(query);
    SearchIgnoresCaseOutsideJapaneseName(entry, flower, Lower(query), query);
  }

  /** The Japanese name is matched case-sensitively: a flower whose Japanese
      name is written in Latin letters is found by "Rose" but not by "rose". */
  lemma JapaneseNameIsCaseSensitive()
    ensures var flower := Flower("rose", "", "Rose", "", "", Spring, "", "");
            var entry := DiaryEntry("1", "rose", "", "", Joy, "", "");
            MatchesSearch(entry, flower, "Rose") && !MatchesSearch(entry, flower, "rose")
  {
    var flower := Flower("rose", "", "Rose", "", "", Spring, "", "");
    ContainsSpec("Rose", "Rose");
    assert OccursAt("Rose", "Rose", 0);
    ContainsSpec("Rose", "rose");
    assert !OccursAt("Rose", "rose", 0);
  }

  // ---------------------------------------------------------------------------
  // Page state
  // ---------------------------------------------------------------------------

  datatype HomeState = HomeState(
    entries: seq<DiaryEntry>,
    isFormOpen: bool,
    editingEntry: Option<DiaryEntry>,
    selectedSeason: string,
    searchQuery: string)

  /** The state before anything is loaded. */
  const InitialHome: HomeState := HomeState([], false, None, "all", "")

  /** `handleSaveEntry`: edit when an entry is being edited, create otherwise;
      either way the editor closes and nothing is being edited any more. */
  function HandleSaveEntry(h: HomeState, draft: Draft, freshId: string, nowIso: string): (h': HomeState)
    ensures !h'.isFormOpen && h'.editingEntry.None?
    ensures h'.selectedSeason == h.selectedSeason && h'.searchQuery == h.searchQuery
    ensures h.editingEntry.None? ==>
      |h'.entries| == |h.entries| + 1 &&
      h'.entries[1..] == h.entries && h'.entries[0] == Stamp(draft, freshId, nowIso)
    ensures h.editingEntry.Some? ==>
      (&& |h'.entries| == |h.entries|
       && (forall i :: 0 <= i < |h.entries| ==> h'.entries[i].id == h.entries[i].id)
       && (forall i :: 0 <= i < |h.entries| && h.entries[i].id == h.editingEntry.value.id ==>
             DraftOf(h'.entries[i]) == draft && h'.entries[i].createdAt == h.editingEntry.value.createdAt)
       && (forall i :: 0 <= i < |h.entries| && h.entries[i].id != h.editingEntry.value.id ==>
             h'.entries[i] == h.entries[i]))
  {
    var entries := match h.editingEntry
      case Some(editing) => EditEntries(h.entries, editing, draft)
      case None => CreateEntry(h.entries, draft, freshId, nowIso);
    h.(entries := entries, editingEntry := None, isFormOpen := false)
  }

  /** `handleDeleteEntry` with the answer of the confirmation dialog. */
  function HandleDeleteEntry(h: HomeState, id: string, confirmed: bool): (h': HomeState)
    ensures h'.isFormOpen == h.isFormOpen && h'.editingEntry == h.editingEntry
    ensures h'.selectedSeason == h.selectedSeason && h'.searchQuery == h.searchQuery
    ensures !confirmed ==> h' == h
    ensures confirmed ==> forall e :: e in h'.entries <==> e in h.entries && e.id != id
    ensures confirmed ==>
      IsSubsequence(h'.entries, h.entries) && |h'.entries| == |h.entries| - |WithId(h.entries, id)|
  {
    h.(entries := DeleteEntries(h.entries, id, confirmed))
  }

  /** `handleEditEntry`: open the editor on an entry. */
  function HandleEditEntry(h: HomeState, entry: DiaryEntry): (h': HomeState)
    ensures h'.isFormOpen && h'.editingEntry == Some(entry) && h'.entries == h.entries
    ensures h'.selectedSeason == h.selectedSeason && h'.searchQuery == h.searchQuery
  {
    h.(editingEntry := Some(entry), isFormOpen := true)
  }

  /** The editor's `onClose`: close it and forget the entry being edited. */
  function CloseForm(h: HomeState): (h': HomeState)
    ensures !h'.isFormOpen && h'.editingEntry.None? && h'.entries == h.entries
    ensures h'.selectedSeason == h.selectedSeason && h'.searchQuery == h.searchQuery
  {
    h.(isFormOpen := false, editingEntry := None)
  }

  /** Editing an entry taken from the list (with no other entry sharing its
      id) and saving it unchanged leaves the list unchanged. */
  lemma EditUnchangedKeepsEntries(h: HomeState, entry: DiaryEntry, freshId: string, nowIso: string)
    requires entry in h.entries
    requires forall e :: e in h.entries && e.id == entry.id ==> e == entry
    ensures HandleSaveEntry(HandleEditEntry(h, entry), DraftOf(entry), freshId, nowIso).entries == h.entries
  {
  }

}
