/**
 * Plain records for what the commands hand to the chat platform: embed
 * fields, embeds, replies and autocomplete choices. The builder objects of
 * the platform library are replaced by these values.
 */
module Discord {
  import opened Wrappers
  import opened Text

  /** One embed field; a field built without `inline` is displayed as not inline. */
  datatype Field = Field(name: string, value: string, inline: bool)

  datatype Footer = Footer(text: string, iconUrl: Option<string>)

  /** The parts of an embed the commands set; a part never set is None. */
  datatype Embed = Embed(
    title: Option<string>,
    description: Option<string>,
    url: Option<string>,
    thumbnail: Option<string>,
    image: Option<string>,
    color: Option<int>,
    author: Option<string>,
    footer: Option<Footer>,
    timestamp: Option<int>,  // epoch milliseconds
    fields: seq<Field>)

  const EmptyEmbed := Embed(None, None, None, None, None, None, None, None, None, [])

  /** The colour every command gives its embeds. */
  const Green := 0x00ff00

  /** A reply is either a short message only the caller sees or a list of embeds. */
  datatype Reply = Ephemeral(content: string) | Embeds(embeds: seq<Embed>)

  /** One autocomplete suggestion: the label shown and the value submitted. */
  datatype Choice = Choice(name: string, value: string)

  /** The platform shows at most this many suggestions; every command slices to it. */
  const MaxChoices := 5

  const MissingQuery := "Please provide an ID."

  const Placeholder := "https://egdata.app/placeholder.webp"

  function Min(a: int, b: int): int
  {
    if a < b then a else b
  }

  /**
   * The shared autocomplete shape: no suggestions when the search returned no
   * data, otherwise the first five hits, in order, each turned into a choice.
   */
  function FirstChoices<H>(hits: Option<seq<H>>, toChoice: H -> Choice): (r: seq<Choice>)
    ensures hits.None? ==> r == []
    ensures hits.Some? ==> |r| == Min(MaxChoices, |hits.value|)
    ensures hits.Some? ==> forall i :: 0 <= i < |r| ==> r[i] == toChoice(hits.value[i])
  {
    match hits
    case None => []
    case Some(hs) => seq(Min(MaxChoices, |hs|), i requires 0 <= i < Min(MaxChoices, |hs|) => toChoice(hs[i]))
  }

  /** A relative-time marker for an epoch-milliseconds instant: `<t:${Math.floor(ms / 1000)}:R>`. */
  function RelativeTime(ms: int): (r: string)
    ensures "<t:" <= r && r[|r| - 3..] == ":R>"
  {
    "<t:" + IntToString(ms / 1000) + ":R>"
  }

  /**
   * The marker names the whole second the instant falls in, rounding down
   * also before 1970: the `s` with 1000 * s <= ms < 1000 * s + 1000.
   */
  lemma RelativeTimeFloor(ms: int, s: int)
    requires 1000 * s <= ms < 1000 * s + 1000
    ensures RelativeTime(ms) == "<t:" + IntToString(s) + ":R>"
  {
    assert ms / 1000 == s;
  }
}
