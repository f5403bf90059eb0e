/** The catalog records the commands read, and the helpers they share over them. */
module Catalog {
  import opened Wrappers
  import opened Text
  import opened Discord

  datatype Tag = Tag(id: string, name: string)

  datatype KeyImage = KeyImage(imageType: string, url: string)

  datatype SellerRef = SellerRef(id: string, name: string)

  /**
   * An offer. Dates are epoch milliseconds; `prePurchase` is false where the API
   * sends null; the country lists are None where the API sends null.
   */
  datatype Offer = Offer(
    id: string,
    title: string,
    description: string,
    offerType: string,
    effectiveDate: int,
    lastModifiedDate: int,
    releaseDate: Option<int>,
    keyImages: seq<KeyImage>,
    seller: SellerRef,
    tags: seq<Tag>,
    developerDisplayName: Option<string>,
    publisherDisplayName: Option<string>,
    prePurchase: bool,
    countriesBlacklist: Option<seq<string>>,
    countriesWhitelist: Option<seq<string>>)

  datatype Item = Item(
    id: string,
    title: string,
    entitlementType: string,
    keyImages: seq<KeyImage>,
    lastModifiedDate: int)

  datatype MediaImage = MediaImage(id: string, src: string)

  /** The part of a price record the commands read: the discounted price in minor units. */
  datatype Price = Price(discountPrice: int)

  /**
   * The image picker of the catalog utilities: given an entity's key images and
   * a preference list of image types, it may choose one.
   */
  type ImagePicker = (seq<KeyImage>, seq<string>) -> Option<KeyImage>

  /**
   * The display name of an offer type: the entry of the offer-type dictionary,
   * or the raw type when the dictionary has none (`offersDictionary[t] ?? t`).
   */
  function DisplayType(offerTypes: map<string, string>, offerType: string): (r: string)
    ensures offerType !in offerTypes ==> r == offerType
    ensures offerType in offerTypes ==> r == offerTypes[offerType]
  {
    if offerType in offerTypes then offerTypes[offerType] else offerType
  }

  /**
   * A thumbnail: the picked key image's URL with every space written as %20,
   * or the placeholder when no image is picked.
   */
  function Thumbnail(pick: ImagePicker, images: seq<KeyImage>, preferred: seq<string>): (r: string)
    ensures ' ' !in r
    ensures pick(images, preferred).None? ==> r == Placeholder
    ensures pick(images, preferred).Some? && ' ' !in pick(images, preferred).value.url ==>
              r == pick(images, preferred).value.url
    ensures pick(images, preferred).Some? ==> r == Join(Split(pick(images, preferred).value.url, ' '), "%20")
  {
    match pick(images, preferred)
    case Some(image) =>
      ReplaceCharSplitJoin(image.url, ' ', "%20");
      ReplaceChar(image.url, ' ', "%20")
    case None => Placeholder
  }
}
