/** The diary-entry card: the mood-to-emoji table and the rule that an entry
    whose flower is missing from the catalogue is not rendered at all. */
module EntryView {
  import opened Wrappers
  import opened FlowerTypes
  import opened Catalogue

  const Fallback: string := "💭"

  /** `getMoodEmoji`: the emoji shown next to a mood, or the thought bubble
      for any string that is not one of the six moods. */
  function MoodEmoji(mood: string): (r: string)
    ensures r != []
    ensures mood == MoodName(Joy) ==> r == "😊"
    ensures mood == MoodName(Sadness) ==> r == "😢"
    ensures mood == MoodName(Love) ==> r == "💕"
    ensures mood == MoodName(Hope) ==> r == "✨"
    ensures mood == MoodName(Gratitude) ==> r == "🙏"
    ensures mood == MoodName(Peace) ==> r == "🕊️"
    ensures ParseMood(mood).None? ==> r == Fallback
  {
    if mood == "喜び" then "😊"
    else if mood == "悲しみ" then "😢"
    else if mood == "愛" then "💕"
    else if mood == "希望" then "✨"
    else if mood == "感謝" then "🙏"
    else if mood == "平和" then "🕊️"
    else Fallback
  }

  /** Distinct moods show distinct emoji, and none of them shows the fallback. */
  lemma MoodEmojiDistinguishesMoods(m: Mood, n: Mood)
    ensures MoodEmoji(MoodName(m)) != Fallback
    ensures m != n ==> MoodEmoji(MoodName(m)) != MoodEmoji(MoodName(n))
  {
  }

  /** What the card shows: the flower's emoji, Japanese name and meaning
      next to the entry's own fields. */
  datatype Card = Card(
    flowerEmoji: string,
    title: string,
    flowerJapaneseName: string,
    moodEmoji: string,
    moodName: string,
    content: string,
    date: string,
    flowerMeaning: string)

  /** The `DiaryEntry` component: nothing when the entry's flower is not in
      the catalogue, otherwise a card built from the first flower with that id. */
  function RenderEntry(entry: DiaryEntry, catalogue: seq<Flower>): (r: Option<Card>)
    ensures r.None? <==> !HasFlower(catalogue, entry.flowerId)
    ensures r.Some? ==>
      exists k :: (&& IsFirstWithId(catalogue, entry.flowerId, k)
                   && r.value.flowerEmoji == catalogue[k].emoji
                   && r.value.flowerJapaneseName == catalogue[k].japaneseName
                   && r.value.flowerMeaning == catalogue[k].meaning)
    ensures r.Some? ==>
      (&& r.value.title == entry.title
       && r.value.content == entry.content
       && r.value.date == entry.date
       && r.value.moodName == MoodName(entry.mood)
       && r.value.moodEmoji == MoodEmoji(MoodName(entry.mood))
       && r.value.moodEmoji != Fallback)
  {
    match FindFlower(catalogue, entry.flowerId)
    case None => None
    case Some(flower) =>
      MoodEmojiDistinguishesMoods(entry.mood, entry.mood);
      Some(Card(flower.emoji, entry.title, flower.japaneseName,
                MoodEmoji(MoodName(entry.mood)), MoodName(entry.mood),
                entry.content, entry.date, flower.meaning))
  }

}
