/** The `item` command: item suggestions labelled with their entitlement type, and the item embed. */
module Items {
  import opened Wrappers
  import opened Discord
  import opened Client
  import opened Catalog

  const NotFound := "No item found with that ID."
  const ItemImageTypes := ["DieselGameBoxTall", "DieselStoreFrontTall"]

  function ItemUrl(id: string): string
  {
    "https://egdata.app/items/" + id + "?utm_source=discord&utm_medium=bot&utm_campaign=item"
  }

  function ItemRequest(id: string): Call
  {
    Get("/items/" + id, [])
  }

  /** The item embed: title, link, thumbnail, colour and last-modified timestamp. */
  function ItemEmbed(item: Item, getImage: ImagePicker): (e: Embed)
    ensures e.title == Some(item.title) && e.url == Some(ItemUrl(item.id))
    ensures e.thumbnail == Some(Thumbnail(getImage, item.keyImages, ItemImageTypes))
    ensures e.color == Some(Green) && e.timestamp == Some(item.lastModifiedDate)
    ensures e.fields == [] && e.footer.None? && e.image.None?
  {
    EmptyEmbed.(
      title := Some(item.title),
      url := Some(ItemUrl(item.id)),
      thumbnail := Some(Thumbnail(getImage, item.keyImages, ItemImageTypes)),
      color := Some(Green),
      timestamp := Some(item.lastModifiedDate))
  }

  /**
   * `execute`: without a query it asks for one; otherwise it requests the item
   * and replies with its embed, or says no item was found when the request
   * fails or returns nothing.
   */
  function Execute(query: Option<string>, item: Option<Item>, getImage: ImagePicker): (x: Execution)
    ensures query.None? ==> x == Execution([], Ephemeral(MissingQuery))
    ensures query.Some? ==> x.calls == [ItemRequest(query.value)]
    ensures query.Some? && item.None? ==> x.reply == Ephemeral(NotFound)
    ensures query.Some? && item.Some? ==>
              x.reply.Embeds? && |x.reply.embeds| == 1 &&
              x.reply.embeds[0].title == Some(item.value.title) &&
              x.reply.embeds[0].url == Some(ItemUrl(item.value.id)) &&
              x.reply.embeds[0].fields == []
  {
    match query
    case None => Execution([], Ephemeral(MissingQuery))
    case Some(id) =>
      match item
      case None => Execution([ItemRequest(id)], Ephemeral(NotFound))
      case Some(it) => Execution([ItemRequest(id)], Embeds([ItemEmbed(it, getImage)]))
  }

  function ItemChoice(hit: Item): Choice
  {
    Choice(hit.title + " (" + hit.entitlementType + ")", hit.id)
  }

  /**
   * Item suggestions: none without search data; otherwise the first five hits
   * in order, labelled "title (entitlement type)" and valued with the item id.
   */
  function Autocomplete(response: Option<seq<Item>>): (r: seq<Choice>)
    ensures response.None? ==> r == []
    ensures response.Some? ==> |r| == Min(MaxChoices, |response.value|)
    ensures response.Some? ==> forall i :: 0 <= i < |r| ==>
              r[i].name == response.value[i].title + " (" + response.value[i].entitlementType + ")" &&
              r[i].value == response.value[i].id
  {
    FirstChoices(response, ItemChoice)
  }
}
