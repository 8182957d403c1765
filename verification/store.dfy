/** The page's link to browser storage: the list is read once on mount
    (falling back to two sample entries) and written back after changes.
    The store is an optional list; serialisation is not modelled. */
module Store {
  import opened Wrappers
  import opened FlowerTypes
  import opened DiaryForm
  import opened Home

  const SakuraContent: string :=
    "今日は公園で満開の桜を見つけました。淡いピンクの花びらが風に舞い散る様子は本当に美しく、新しい季節への希望を感じました。桜の花言葉「純潔、精神美、優美な女性」のように、心も新たに清らかな気持ちでスタートしたいと思います。"

  const RoseContent: string :=
    "母の日に赤いバラを贈りました。母の笑顔を見ていると、これまでの愛情深い支えに心から感謝の気持ちが湧いてきます。バラの花言葉「愛、美、情熱」は、まさに母への想いそのものです。"

  /** The two demo entries shown on first use. Their timestamps are two and
      five days before now; the caller supplies them as ISO strings, and each
      entry's date is the calendar part of its timestamp. */
  function SampleEntries(twoDaysAgoIso: string, fiveDaysAgoIso: string): (r: seq<DiaryEntry>)
    ensures |r| == 2
    ensures && r[0].id == "sample-1" && r[0].flowerId == "sakura" && r[0].mood == Hope
            && r[0].createdAt == twoDaysAgoIso && r[0].date == DatePart(twoDaysAgoIso)
    ensures && r[1].id == "sample-2" && r[1].flowerId == "rose" && r[1].mood == Love
            && r[1].createdAt == fiveDaysAgoIso && r[1].date == DatePart(fiveDaysAgoIso)
  {
    [ DiaryEntry("sample-1", "sakura", "春の始まり", SakuraContent,
        Hope, DatePart(twoDaysAgoIso), twoDaysAgoIso),
      DiaryEntry("sample-2", "rose", "母への愛", RoseContent,
        Love, DatePart(fiveDaysAgoIso), fiveDaysAgoIso) ]
  }

  /** The load effect: the stored list when there is one, the samples otherwise. */
  function Load(stored: Option<seq<DiaryEntry>>, twoDaysAgoIso: string, fiveDaysAgoIso: string): (r: seq<DiaryEntry>)
    ensures stored.Some? ==> r == stored.value
    ensures stored.None? ==>
      (&& |r| == 2
       && r[0].id == "sample-1" && r[0].flowerId == "sakura" && r[0].mood == Hope
       && r[0].createdAt == twoDaysAgoIso && r[0].date == DatePart(twoDaysAgoIso)
       && r[1].id == "sample-2" && r[1].flowerId == "rose" && r[1].mood == Love
       && r[1].createdAt == fiveDaysAgoIso && r[1].date == DatePart(fiveDaysAgoIso))
  {
    match stored
    case Some(entries) => entries
    case None => SampleEntries(twoDaysAgoIso, fiveDaysAgoIso)
  }

  /** The persistence effect as written: the list is stored only when it is
      non-empty, so an empty list leaves the stored value as it was. */
  function PersistAsWritten(stored: Option<seq<DiaryEntry>>, entries: seq<DiaryEntry>): (s: Option<seq<DiaryEntry>>)
    ensures |entries| > 0 ==> s == Some(entries)
    ensures |entries| == 0 ==> s == stored
  {
    if |entries| > 0 then Some(entries) else stored
  }

  /** A non-empty list survives a reload. */
  lemma ReloadAfterPersistAsWritten(stored: Option<seq<DiaryEntry>>, entries: seq<DiaryEntry>, a: string, b: string)
    requires |entries| > 0
    ensures Load(PersistAsWritten(stored, entries), a, b) == entries
  {
  }

  /** As written, deleting the last entry is never stored, so the entry comes
      back on the next load. */
  lemma DeletedLastEntryReappears(e: DiaryEntry, a: string, b: string)
    ensures var stored := PersistAsWritten(None, [e]);
            var after := DeleteEntries([e], e.id, true);
            && after == []
            && Load(PersistAsWritten(stored, after), a, b) == [e]
  {
  }

  /** The corrected effect: skip only the run that precedes the load, and
      store every list, empty or not, afterwards. */
  function PersistOnceLoaded(stored: Option<seq<DiaryEntry>>, entries: seq<DiaryEntry>, loaded: bool): (s: Option<seq<DiaryEntry>>)
    ensures loaded ==> s == Some(entries)
    ensures !loaded ==> s == stored
  {
    if loaded then Some(entries) else stored
  }

  /** With the corrected effect a reload shows exactly the last list, an
      empty one included. */
  lemma ReloadAfterPersistOnceLoaded(stored: Option<seq<DiaryEntry>>, entries: seq<DiaryEntry>, a: string, b: string)
    ensures Load(PersistOnceLoaded(stored, entries, true), a, b) == entries
  {
  }

  /** The page together with the stored value and whether the load has run. */
  datatype Session = Session(home: HomeState, stored: Option<seq<DiaryEntry>>, loaded: bool)

  /** Mounting the page. On the first render the effects run in declaration
      order: the load effect reads storage, then the persistence effect runs
      with the still-empty initial list and must not touch storage. The
      loaded list takes effect on the next render, where the persistence
      effect stores it. */
  function Mount(stored: Option<seq<DiaryEntry>>, twoDaysAgoIso: string, fiveDaysAgoIso: string): (s: Session)
    ensures s.loaded && s.home.entries == Load(stored, twoDaysAgoIso, fiveDaysAgoIso)
    ensures s.stored == Some(s.home.entries)
    ensures !s.home.isFormOpen && s.home.editingEntry.None?
    ensures s.home.selectedSeason == "all" && s.home.searchQuery == ""
  {
    var entries := Load(stored, twoDaysAgoIso, fiveDaysAgoIso);
    var afterFirstRender := PersistOnceLoaded(stored, InitialHome.entries, false);
    Session(InitialHome.(entries := entries), PersistOnceLoaded(afterFirstRender, entries, true), true)
  }

  /** Any state change followed by the persistence effect. */
  function Commit(s: Session, h: HomeState): (s': Session)
    ensures s'.home == h && s'.loaded == s.loaded
    ensures s.loaded ==> s'.stored == Some(h.entries)
  {
    Session(h, PersistOnceLoaded(s.stored, h.entries, s.loaded), s.loaded)
  }

  /** After mounting, deleting the only entry and reloading shows an empty
      list, unlike the effect as written. */
  lemma DeletedLastEntryStaysDeleted(e: DiaryEntry, a: string, b: string)
    ensures var s := Mount(Some([e]), a, b);
            var s' := Commit(s, HandleDeleteEntry(s.home, e.id, true));
            Load(s'.stored, a, b) == []
  {
  }

}
