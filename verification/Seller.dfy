/**
 * The `seller` command: a seller's counters, its logo and its top-selling
 * offers, and seller suggestions.
 */
module Seller {
  import opened Wrappers
  import opened Text
  import opened Discord
  import opened Client
  import opened Catalog

  /** A seller; `updatedAt` is epoch milliseconds, `logoUrl` None when it has no logo. */
  datatype Seller = Seller(id: string, name: string, updatedAt: int, logoUrl: Option<string>)

  /** The statistics response: the counters and the seller itself. */
  datatype Stats = Stats(offers: nat, items: nat, games: nat, freegames: nat, seller: Seller)

  const NotFound := "No seller found with that ID."


  /** Where IGDB serves its images, after the scheme-relative `//`. */
  const IgdbPath := "images.igdb.com/" + "igdb/image/upload/"

  /**
   * `formatLogo`: a protocol-relative URL gets the https scheme, its first
   * `t_thumb` becomes `t_1080p` and then its first `.jpg` becomes `.webp`;
   * any other URL is kept.
   */
  function FormatLogo(logo: string): (r: string)
    ensures !("//" <= logo) ==> r == logo
    ensures "//" <= logo ==> "https:" <= r
  {
    if "//" <= logo then "https:" + ReplaceFirst(ReplaceFirst(logo, "t_thumb", "t_1080p"), ".jpg", ".webp")
    else logo
  }

  /**
   * A protocol-relative thumbnail URL `//<path>t_thumb<name>.jpg` becomes
   * `https://<path>t_1080p<name>.webp` whenever the occurrences meant are the
   * first ones: no `t_thumb` starts inside `//<path>`, and after the first
   * replacement no `.jpg` starts before the final one.
   */
  lemma ThumbnailUpscaled(path: string, name: string)
    requires forall j :: 0 <= j < 2 + |path| ==> !OccursAt("//" + path + "t_thumb", "t_thumb", j)
    requires forall j :: 0 <= j < 2 + |path| + 7 + |name| ==>
               !OccursAt("//" + path + "t_1080p" + name + ".jpg", ".jpg", j)
    ensures FormatLogo("//" + path + "t_thumb" + name + ".jpg") == "https:" + "//" + path + "t_1080p" + name + ".webp"
  {
    var logo := "//" + path + "t_thumb" + name + ".jpg";
    var front := "//" + path + "t_1080p" + name;
    assert logo[..2] == "//";
    ThumbReplaced(path, name);
    JpgReplaced(front);
    assert FormatLogo(logo) == "https:" + (front + ".webp");
    assert "https:" + (front + ".webp") == ("https:" + front) + ".webp";
    assert "https:" + front == "https:" + "//" + path + "t_1080p" + name;
  }

  lemma ThumbReplaced(path: string, name: string)
    requires forall j :: 0 <= j < 2 + |path| ==> !OccursAt("//" + path + "t_thumb", "t_thumb", j)
    ensures ReplaceFirst("//" + path + "t_thumb" + name + ".jpg", "t_thumb", "t_1080p")
              == "//" + path + "t_1080p" + name + ".jpg"
  {
    var head := "//" + path + "t_thumb";
    var s := head + (name + ".jpg");
    assert s == "//" + path + "t_thumb" + name + ".jpg";
    var k := 2 + |path|;
    assert s[k..k + 7] == "t_thumb";
    forall j | 0 <= j < k
      ensures !OccursAt(s, "t_thumb", j)
    {
      OccursInPrefix(head, name + ".jpg", "t_thumb", j);
    }
    ReplaceFirstAt(s, "t_thumb", "t_1080p", k);
    assert s[..k] == "//" + path && s[k + 7..] == name + ".jpg";
  }

  /** An occurrence that ends within `a` is one in `a + b` and back. */
  lemma OccursInPrefix(a: string, b: string, pat: string, j: nat)
    requires j + |pat| <= |a|
    ensures OccursAt(a + b, pat, j) <==> OccursAt(a, pat, j)
  {
    assert (a + b)[j..j + |pat|] == a[j..j + |pat|];
  }

  lemma JpgReplaced(front: string)
    requires forall j :: 0 <= j < |front| ==> !OccursAt(front + ".jpg", ".jpg", j)
    ensures ReplaceFirst(front + ".jpg", ".jpg", ".webp") == front + ".webp"
  {
    var s := front + ".jpg";
    assert s[|front|..|front| + 4] == ".jpg";
    ReplaceFirstAt(s, ".jpg", ".webp", |front|);
    assert s[..|front|] == front && s[|front| + 4..] == "";
  }

  /**
   * The two conditions hold in particular when the path has no `_` and
   * neither part has a `j`.
   */
  lemma PlainThumbnailUpscaled(path: string, name: string)
    requires '_' !in path && 'j' !in path && 'j' !in name
    ensures FormatLogo("//" + path + "t_thumb" + name + ".jpg") == "https:" + "//" + path + "t_1080p" + name + ".webp"
  {
    var head := "//" + path + "t_thumb";
    assert head[..2 + |path| + 1] == "//" + path + "t";
    NoEarlierOccurrence(head, "t_thumb", 2 + |path|, 1);
    var s := "//" + path + "t_1080p" + name + ".jpg";
    var k := 2 + |path| + 7 + |name|;
    assert s[..k + 1] == "//" + path + "t_1080p" + name + ".";
    NoEarlierOccurrence(s, ".jpg", k, 1);
    ThumbnailUpscaled(path, name);
  }

  /** An IGDB cover thumbnail becomes the 1080p WebP cover on https. */
  lemma IgdbLogoUpscaled()
    ensures FormatLogo("//" + IgdbPath + "t_thumb" + "/co1abc" + ".jpg")
              == "https:" + "//" + IgdbPath + "t_1080p" + "/co1abc" + ".webp"
  {
    assert '_' !in IgdbPath && 'j' !in IgdbPath && 'j' !in "/co1abc";
    PlainThumbnailUpscaled(IgdbPath, "/co1abc");
  }

  /** A seller without a logo shows the placeholder, which formatting leaves alone. */
  lemma PlaceholderKept()
    ensures FormatLogo(Placeholder) == Placeholder
  {
    assert Placeholder[1] != "//"[1];
  }

  /** One line of the Top Sellers field: a bullet linking to the offer (src/commands/seller.ts:155-158). */
  function CoverLine(cover: Offer): string
  {
    "- [" + cover.title + "](https://egdata.app/offers/" + cover.id + SellerCampaign + ")"
  }

  /** The tracking parameters of every link the command builds. */
  const SellerCampaign := "?utm_source=discord" + "&utm_medium=bot" + "&utm_campaign=seller"

  /**
   * The Top Sellers value: the cover lines joined by newlines, or the text
   * "undefined" that interpolating a missing list yields when the covers
   * request failed.
   */
  function TopSellers(covers: Option<seq<Offer>>): (r: string)
    ensures covers.None? ==> r == "undefined"
    ensures covers.Some? && |covers.value| == 0 ==> r == ""
    ensures covers.Some? && |covers.value| > 0 ==> CoverLine(covers.value[0]) <= r
  {
    match covers
    case None => "undefined"
    case Some(list) => Join(seq(|list|, i requires 0 <= i < |list| => CoverLine(list[i])), "\n")
  }

  /** With titles and ids free of newlines, the Top Sellers value has exactly one line per cover, in order. */
  lemma TopSellersLines(covers: seq<Offer>)
    requires |covers| > 0
    requires forall i :: 0 <= i < |covers| ==> '\n' !in covers[i].title && '\n' !in covers[i].id
    ensures Split(TopSellers(Some(covers)), '\n') == seq(|covers|, i requires 0 <= i < |covers| => CoverLine(covers[i]))
  {
    var lines := seq(|covers|, i requires 0 <= i < |covers| => CoverLine(covers[i]));
    forall i | 0 <= i < |lines|
      ensures '\n' !in lines[i]
    {
      CoverLineSingle(covers[i]);
    }
    SplitJoin(lines, '\n');
  }

  lemma CoverLineSingle(cover: Offer)
    requires '\n' !in cover.title && '\n' !in cover.id
    ensures '\n' !in CoverLine(cover)
  {
    LineLiteralsSingle();
  }

  lemma LineLiteralsSingle()
    ensures '\n' !in "- [" && '\n' !in "](https://egdata.app/offers/"
    ensures '\n' !in SellerCampaign + ")"
  {
  }

  /** The seven fields: four counters in two rows with blank spacers, then the Top Sellers list. */
  function Fields(stats: Stats, covers: Option<seq<Offer>>): (r: seq<Field>)
    ensures |r| == 7
    ensures r[0] == Field("Games", NatToString(stats.games), true)
    ensures r[1] == Field("Offers", NatToString(stats.offers), true)
    ensures r[3] == Field("Items", NatToString(stats.items), true)
    ensures r[4] == Field("Giveaways", NatToString(stats.freegames), true)
    ensures r[2] == r[5] == Field(" ", " ", true)
    ensures r[6] == Field("Top Sellers", TopSellers(covers), false)
  {
    [Field("Games", NatToString(stats.games), true),
     Field("Offers", NatToString(stats.offers), true),
     Field(" ", " ", true),
     Field("Items", NatToString(stats.items), true),
     Field("Giveaways", NatToString(stats.freegames), true),
     Field(" ", " ", true),
     Field("Top Sellers", TopSellers(covers), false)]
  }

  function SellerUrl(id: string): string
  {
    "https://egdata.app/sellers/" + id + SellerCampaign
  }

  /**
   * The seller embed: name, link, the formatted logo or the placeholder when
   * the seller has none, the update time and the seven fields.
   */
  function SellerEmbed(stats: Stats, covers: Option<seq<Offer>>): (e: Embed)
    ensures e.title == Some(stats.seller.name) && e.url == Some(SellerUrl(stats.seller.id))
    ensures stats.seller.logoUrl.Some? ==> e.thumbnail == Some(FormatLogo(stats.seller.logoUrl.value))
    ensures stats.seller.logoUrl.None? ==> e.thumbnail == Some(Placeholder)
    ensures e.color == Some(Green) && e.timestamp == Some(stats.seller.updatedAt)
    ensures e.fields == Fields(stats, covers)
    ensures e.description.None? && e.image.None? && e.footer.None?
  {
    var seller := stats.seller;
    PlaceholderKept();
    EmptyEmbed.(
      title := Some(seller.name),
      url := Some(SellerUrl(seller.id)),
      thumbnail := Some(FormatLogo(seller.logoUrl.GetOr(Placeholder))),
      color := Some(Green),
      timestamp := Some(seller.updatedAt),
      fields := Fields(stats, covers))
  }

  function StatsRequest(id: string): Call
  {
    Get("/sellers/" + id + "/stats", [])
  }

  function CoversRequest(id: string): Call
  {
    Get("/sellers/" + id + "/cover", [])
  }

  /**
   * `execute`: without a query it asks for one; otherwise it starts both the
   * statistics and the covers request. Failed statistics mean no seller was
   * found; failed covers only affect the Top Sellers field.
   */
  function Execute(query: Option<string>, stats: Option<Stats>, covers: Option<seq<Offer>>): (x: Execution)
    ensures query.None? ==> x == Execution([], Ephemeral(MissingQuery))
    ensures query.Some? ==> x.calls == [StatsRequest(query.value), CoversRequest(query.value)]
    ensures query.Some? && stats.None? ==> x.reply == Ephemeral(NotFound)
    ensures query.Some? && stats.Some? ==> x.reply == Embeds([SellerEmbed(stats.value, covers)])
    ensures query.Some? && stats.Some? && stats.value.seller.logoUrl.None? ==>
              x.reply.embeds[0].thumbnail == Some(Placeholder)
    ensures query.Some? && stats.Some? ==>
              x.reply.embeds[0].fields[6] == Field("Top Sellers", TopSellers(covers), false)
  {
    match query
    case None => Execution([], Ephemeral(MissingQuery))
    case Some(id) =>
      var calls := [StatsRequest(id), CoversRequest(id)];
      match stats
      case None => Execution(calls, Ephemeral(NotFound))
      case Some(s) => Execution(calls, Embeds([SellerEmbed(s, covers)]))
  }

  /** Seller suggestions: the first five hits in order, named by seller name, valued with its id. */
  function Autocomplete(response: Option<seq<Seller>>): (r: seq<Choice>)
    ensures response.None? ==> r == []
    ensures response.Some? ==> |r| == Min(MaxChoices, |response.value|)
    ensures response.Some? ==> forall i :: 0 <= i < |r| ==>
              r[i] == Choice(response.value[i].name, response.value[i].id)
  {
    FirstChoices(response, (hit: Seller) => Choice(hit.name, hit.id))
  }
}
