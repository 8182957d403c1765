/** The record shapes and enumerations of the app's type module: a flower of
    the catalogue, a diary entry, and the draft an editor submits. */
module FlowerTypes {
  import opened Wrappers

  /** The four seasons a flower may bloom in; the app stores them as the
      single kanji 春, 夏, 秋 and 冬. */
  datatype Season = Spring | Summer | Autumn | Winter

  function SeasonName(s: Season): string {
    match s
    case Spring => "春"
    case Summer => "夏"
    case Autumn => "秋"
    case Winter => "冬"
  }

  /** Validation of a season string against the enumeration. */
  function ParseSeason(name: string): (r: Option<Season>)
    ensures r.Some? ==> SeasonName(r.value) == name
    ensures r.None? ==> forall s: Season :: SeasonName(s) != name
  {
    if name == "春" then Some(Spring)
    else if name == "夏" then Some(Summer)
    else if name == "秋" then Some(Autumn)
    else if name == "冬" then Some(Winter)
    else None
  }

  /** Every season has its own name, and its name parses back to it. */
  lemma SeasonRoundTrip(s: Season)
    ensures ParseSeason(SeasonName(s)) == Some(s)
    ensures forall t: Season :: SeasonName(t) == SeasonName(s) ==> t == s
  {
  }

  /** The six moods an entry may carry: joy, sadness, love, hope, gratitude
      and peace. */
  datatype Mood = Joy | Sadness | Love | Hope | Gratitude | Peace

  function MoodName(m: Mood): string {
    match m
    case Joy => "喜び"
    case Sadness => "悲しみ"
    case Love => "愛"
    case Hope => "希望"
    case Gratitude => "感謝"
    case Peace => "平和"
  }

  /** Validation of a mood string against the enumeration. */
  function ParseMood(name: string): (r: Option<Mood>)
    ensures r.Some? ==> MoodName(r.value) == name
    ensures r.None? ==> forall m: Mood :: MoodName(m) != name
  {
    if name == "喜び" then Some(Joy)
    else if name == "悲しみ" then Some(Sadness)
    else if name == "愛" then Some(Love)
    else if name == "希望" then Some(Hope)
    else if name == "感謝" then Some(Gratitude)
    else if name == "平和" then Some(Peace)
    else None
  }

  /** Every mood has its own name, and its name parses back to it. */
  lemma MoodRoundTrip(m: Mood)
    ensures ParseMood(MoodName(m)) == Some(m)
    ensures forall n: Mood :: MoodName(n) == MoodName(m) ==> n == m
  {
  }

  /** The moods in the order the editor offers them. */
  const Moods: seq<Mood> := [Joy, Sadness, Love, Hope, Gratitude, Peace]

  lemma MoodsListsEveryMoodOnce()
    ensures |Moods| == 6
    ensures forall m: Mood :: m in Moods
    ensures forall i, j :: 0 <= i < j < |Moods| ==> Moods[i] != Moods[j]
  {
    forall m: Mood ensures m in Moods {
      match m
      case Joy => assert Moods[0] == m;
      case Sadness => assert Moods[1] == m;
      case Love => assert Moods[2] == m;
      case Hope => assert Moods[3] == m;
      case Gratitude => assert Moods[4] == m;
      case Peace => assert Moods[5] == m;
    }
  }

  datatype Flower = Flower(
    id: string,
    name: string,
    japaneseName: string,
    meaning: string,
    color: string,
    season: Season,
    emoji: string,
    description: string)

  /** A stored diary entry. `flowerId` is a plain string: nothing ties it to a
      flower of the catalogue, so consumers must cope with a dangling one. */
  datatype DiaryEntry = DiaryEntry(
    id: string,
    flowerId: string,
    title: string,
    content: string,
    mood: Mood,
    date: string,
    createdAt: string)

  /** What the editor submits: an entry without `id` and `createdAt`. */
  datatype Draft = Draft(
    flowerId: string,
    title: string,
    content: string,
    mood: Mood,
    date: string)

  /** `{ ...draft, id, createdAt }`: the draft completed with an identity. */
  function Stamp(d: Draft, id: string, createdAt: string): (e: DiaryEntry)
    ensures e.id == id && e.createdAt == createdAt
    ensures DraftOf(e) == d
  {
    DiaryEntry(id, d.flowerId, d.title, d.content, d.mood, d.date, createdAt)
  }

  /** The draft part of an entry: everything except `id` and `createdAt`. */
  function DraftOf(e: DiaryEntry): Draft {
    Draft(e.flowerId, e.title, e.content, e.mood, e.date)
  }

  /** An entry is exactly its draft part plus its identity. */
  lemma StampDraftOf(e: DiaryEntry)
    ensures Stamp(DraftOf(e), e.id, e.createdAt) == e
  {
  }

}
