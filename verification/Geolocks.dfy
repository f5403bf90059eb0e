/** The `geolock` command: the countries an offer is restricted to or from. */
module Geolocks {
  import opened Wrappers
  import opened Text
  import opened Discord
  import opened Client
  import opened Catalog
  import OfferCommand = Offer

  const Blacklisted := "Countries Blacklisted"
  const Whitelisted := "Countries Whitelisted"
  const FooterText := "Check more offers on EGData.app"
  const FooterIcon := "https://cdn.discordapp.com/emojis/1226575784479686738.webp"

  function CountriesField(name: string, countries: Option<seq<string>>): seq<Field>
  {
    match countries
    case None => []
    case Some(codes) => [Field(name, Join(codes, ", "), false)]
  }

  /**
   * The restriction fields: the blacklist field when the offer has a
   * blacklist, then the whitelist field when it has a whitelist. A list that
   * is present but empty still gets its field, with an empty value.
   */
  function Fields(offer: Offer): (r: seq<Field>)
    ensures |r| <= 2
    ensures offer.countriesBlacklist.None? && offer.countriesWhitelist.None? <==> r == []
    ensures forall f :: f in r ==> !f.inline
  {
    CountriesField(Blacklisted, offer.countriesBlacklist) + CountriesField(Whitelisted, offer.countriesWhitelist)
  }

  /** Each list has its field exactly when the offer carries it, and the field lists its countries. */
  lemma FieldsPresentIffListed(offer: Offer)
    ensures (exists f :: f in Fields(offer) && f.name == Blacklisted) <==> offer.countriesBlacklist.Some?
    ensures (exists f :: f in Fields(offer) && f.name == Whitelisted) <==> offer.countriesWhitelist.Some?
    ensures offer.countriesBlacklist.Some? ==>
              Fields(offer)[0] == Field(Blacklisted, Join(offer.countriesBlacklist.value, ", "), false)
    ensures offer.countriesWhitelist.Some? ==>
              Fields(offer)[|Fields(offer)| - 1] == Field(Whitelisted, Join(offer.countriesWhitelist.value, ", "), false)
  {
    var r := Fields(offer);
    assert Blacklisted != Whitelisted by {
      assert Blacklisted[10] != Whitelisted[10];
    }
    if offer.countriesBlacklist.Some? {
      assert r[0] in r;
    }
    if offer.countriesWhitelist.Some? {
      assert r[|r| - 1] in r;
    }
  }

  /** The restriction embed (src/commands/geolocks.ts:68-96). */
  function GeolockEmbed(offer: Offer): Embed
  {
    EmptyEmbed.(
      title := Some(offer.title),
      url := Some(OfferCommand.OfferUrl(offer.id)),
      fields := Fields(offer),
      color := Some(Green),
      footer := Some(Footer(FooterText, Some(FooterIcon))),
      timestamp := Some(offer.effectiveDate))
  }

  /**
   * `execute`: without a query it asks for one; otherwise it requests the
   * offer; a failed or empty answer means no offer was found, and an offer
   * gets one embed with its restriction fields.
   */
  function Execute(query: Option<string>, offer: Option<Offer>): (x: Execution)
    ensures query.None? ==> x == Execution([], Ephemeral(MissingQuery))
    ensures query.Some? ==> x.calls == [OfferCommand.OfferRequest(query.value)]
    ensures query.Some? && offer.None? ==> x.reply == Ephemeral(OfferCommand.NotFound)
    ensures query.Some? && offer.Some? ==>
              x.reply.Embeds? && |x.reply.embeds| == 1 &&
              x.reply.embeds[0].title == Some(offer.value.title) &&
              x.reply.embeds[0].fields == Fields(offer.value) &&
              x.reply.embeds[0].timestamp == Some(offer.value.effectiveDate)
  {
    match query
    case None => Execution([], Ephemeral(MissingQuery))
    case Some(id) =>
      match offer
      case None => Execution([OfferCommand.OfferRequest(id)], Ephemeral(OfferCommand.NotFound))
      case Some(o) => Execution([OfferCommand.OfferRequest(id)], Embeds([GeolockEmbed(o)]))
  }

  /** Offer suggestions: the first five hits in order, labelled "title (type)", valued with the offer id. */
  function Autocomplete(response: Option<seq<Offer>>, offerTypes: map<string, string>): (r: seq<Choice>)
    ensures response.None? ==> r == []
    ensures response.Some? ==> |r| == Min(MaxChoices, |response.value|)
    ensures response.Some? ==> forall i :: 0 <= i < |r| ==>
              r[i] == Choice(response.value[i].title + " (" + DisplayType(offerTypes, response.value[i].offerType) + ")",
                             response.value[i].id)
  {
    FirstChoices(response, (hit: Offer) => Choice(hit.title + " (" + DisplayType(offerTypes, hit.offerType) + ")", hit.id))
  }
}
