/**
 * The `offer` command: autocomplete suggestions that tell apart offers with the
 * same title, and the offer reply (main embed, ranking footer, genres, extra
 * image embeds), which is only built when the offer itself was fetched.
 */
module Offer {
  import opened Wrappers
  import opened Text
  import opened Discord
  import opened Client
  import opened Catalog
  import opened Genres

  const NotFound := "No offer found with that ID."
  const PrePurchaseMark := " (Pre-Purchase)"
  const DefaultFooter := "Check more offers on egdata.app"
  const FooterIcon := "https://egdata.app/logo_simple_white.png"
  const Bullet := " \U{2022} "
  const NoGenres := "No genres"
  const OfferImageTypes := ["CodeRedemption_340x440", "DieselGameBoxTall", "DieselStoreFrontTall", "OfferImageTall"]

  /** The tag ids of the two mobile platforms, and their display names. */
  const MobilePlatforms := ["39070", "39071"]
  const MobileNames := map["39070" := "iOS", "39071" := "Android"]

  // ---------------------------------------------------------------------
  // Autocomplete

  predicate IsMobile(tags: seq<Tag>)
  {
    exists i :: 0 <= i < |tags| && tags[i].id in MobilePlatforms
  }

  /** The id of the first tag that names a mobile platform, if any. */
  function FirstMobileTag(tags: seq<Tag>): (r: Option<string>)
    ensures r.Some? <==> IsMobile(tags)
    ensures r.Some? ==> r.value in MobileNames
    ensures r.Some? ==> exists i :: 0 <= i < |tags| && tags[i].id == r.value &&
                          forall j :: 0 <= j < i ==> tags[j].id !in MobilePlatforms
  {
    if |tags| == 0 then None
    else if tags[0].id in MobilePlatforms then Some(tags[0].id)
    else
      var r := FirstMobileTag(tags[1..]);
      assert IsMobile(tags) ==> IsMobile(tags[1..]) by {
        if IsMobile(tags) {
          var i :| 0 <= i < |tags| && tags[i].id in MobilePlatforms;
          assert tags[1..][i - 1].id in MobilePlatforms;
        }
      }
      assert r.Some? ==> IsMobile(tags) by {
        if r.Some? {
          var i :| 0 <= i < |tags[1..]| && tags[1..][i].id in MobilePlatforms;
          assert tags[i + 1].id in MobilePlatforms;
        }
      }
      assert r.Some? ==> exists i :: 0 <= i < |tags| && tags[i].id == r.value &&
                          forall j :: 0 <= j < i ==> tags[j].id !in MobilePlatforms by {
        if r.Some? {
          var i :| 0 <= i < |tags[1..]| && tags[1..][i].id == r.value &&
                   forall j :: 0 <= j < i ==> tags[1..][j].id !in MobilePlatforms;
          assert tags[i + 1].id == r.value;
          assert forall j :: 0 <= j < i + 1 ==> tags[j].id !in MobilePlatforms by {
            forall j | 0 <= j < i + 1 ensures tags[j].id !in MobilePlatforms {
              if j > 0 { assert tags[j] == tags[1..][j - 1]; }
            }
          }
        }
      }
      r
  }

  /** How many hits carry the title `title`. */
  function TitleCount(hits: seq<Offer>, title: string): (n: nat)
    ensures n <= |hits|
    ensures n > 0 <==> exists i :: 0 <= i < |hits| && hits[i].title == title
  {
    if |hits| == 0 then 0
    else
      var init := hits[..|hits| - 1];
      var n := TitleCount(init, title) + (if hits[|hits| - 1].title == title then 1 else 0);
      assert (exists i :: 0 <= i < |init| && init[i].title == title) ==>
             exists i :: 0 <= i < |hits| && hits[i].title == title by {
        if exists i :: 0 <= i < |init| && init[i].title == title {
          var i :| 0 <= i < |init| && init[i].title == title;
          assert hits[i].title == title;
        }
      }
      assert (exists i :: 0 <= i < |hits| && hits[i].title == title) ==>
             n > 0 by {
        if exists i :: 0 <= i < |hits| && hits[i].title == title {
          var i :| 0 <= i < |hits| && hits[i].title == title;
          if i < |hits| - 1 { assert init[i].title == title; }
        }
      }
      n
  }

  /** Counting over a prefix never finds more than counting over the whole list. */
  lemma {:induction false} TitleCountPrefix(hits: seq<Offer>, k: nat, title: string)
    requires k <= |hits|
    ensures TitleCount(hits[..k], title) <= TitleCount(hits, title)
    decreases |hits|
  {
    if k < |hits| {
      assert hits[..|hits| - 1][..k] == hits[..k];
      TitleCountPrefix(hits[..|hits| - 1], k, title);
    } else {
      assert hits[..k] == hits;
    }
  }

  /**
   * The distinguishing suffix of a label: the mobile platform of the first
   * mobile tag, whether or not the title is duplicated; otherwise, for a
   * duplicated title, the first five characters of the id in brackets;
   * otherwise nothing.
   */
  function Suffix(hit: Offer, duplicate: bool): (r: string)
    ensures IsMobile(hit.tags) ==> r == " (iOS)" || r == " (Android)"
    ensures FirstMobileTag(hit.tags) == Some("39070") ==> r == " (iOS)"
    ensures FirstMobileTag(hit.tags) == Some("39071") ==> r == " (Android)"
    ensures !IsMobile(hit.tags) && duplicate ==> r == " [" + hit.id[..Min(5, |hit.id|)] + "]"
    ensures !IsMobile(hit.tags) && !duplicate ==> r == ""
  {
    match FirstMobileTag(hit.tags)
    case Some(tag) => " (" + MobileNames[tag] + ")"
    case None => if duplicate then " [" + hit.id[..Min(5, |hit.id|)] + "]" else ""
  }

  /**
   * The platform named is that of the first mobile tag: a hit whose first
   * mobile tag is `tags[i]` is suffixed with that tag's platform name.
   */
  lemma SuffixOfFirstMobileTag(hit: Offer, i: nat, duplicate: bool)
    requires i < |hit.tags| && hit.tags[i].id in MobilePlatforms
    requires forall j :: 0 <= j < i ==> hit.tags[j].id !in MobilePlatforms
    ensures hit.tags[i].id in MobileNames
    ensures Suffix(hit, duplicate) == " (" + MobileNames[hit.tags[i].id] + ")"
  {
    var r := FirstMobileTag(hit.tags);
    assert r.Some?;
    var k :| 0 <= k < |hit.tags| && hit.tags[k].id == r.value &&
             forall j :: 0 <= j < k ==> hit.tags[j].id !in MobilePlatforms;
    assert r.value in MobilePlatforms;
    assert k == i;
  }

  /** A mobile hit's suffix does not depend on whether its title is duplicated. */
  lemma MobileWinsOverDuplicate(hit: Offer)
    requires IsMobile(hit.tags)
    ensures Suffix(hit, true) == Suffix(hit, false)
  {
  }

  /** The suggestion label: title, pre-purchase mark, offer type in parentheses, suffix. */
  function Label(hit: Offer, offerTypes: map<string, string>, duplicate: bool): string
  {
    Stem(hit, offerTypes) + Suffix(hit, duplicate)
  }

  /** The part of a label that does not depend on duplication or platform. */
  function Stem(hit: Offer, offerTypes: map<string, string>): string
  {
    hit.title + (if hit.prePurchase then PrePurchaseMark else "")
      + " (" + DisplayType(offerTypes, hit.offerType) + ")"
  }

  /**
   * Two duplicated, non-mobile hits that agree on everything shown except the
   * id get different labels as soon as their ids differ in the first five
   * characters.
   */
  lemma DuplicateLabelsDiffer(a: Offer, b: Offer, offerTypes: map<string, string>)
    requires a.title == b.title && a.prePurchase == b.prePurchase && a.offerType == b.offerType
    requires !IsMobile(a.tags) && !IsMobile(b.tags)
    requires a.id[..Min(5, |a.id|)] != b.id[..Min(5, |b.id|)]
    ensures Label(a, offerTypes, true) != Label(b, offerTypes, true)
  {
    var stem := Stem(a, offerTypes);
    assert Stem(b, offerTypes) == stem;
    var pa, pb := a.id[..Min(5, |a.id|)], b.id[..Min(5, |b.id|)];
    assert Suffix(a, true) == " [" + pa + "]";
    assert Suffix(b, true) == " [" + pb + "]";
    if Label(a, offerTypes, true) == Label(b, offerTypes, true) {
      PrefixCancels(stem, Suffix(a, true), Suffix(b, true));
      BracketsCancel(pa, pb);
    }
  }

  /** Two bracketed id fragments are equal only when the fragments are. */
  lemma BracketsCancel(x: string, y: string)
    requires " [" + x + "]" == " [" + y + "]"
    ensures x == y
  {
    assert x == (" [" + x + "]")[2..|x| + 2];
  }

  /** Sequences that agree after a common prefix agree. */
  lemma PrefixCancels(common: string, x: string, y: string)
    requires common + x == common + y
    ensures x == y
  {
    assert x == (common + x)[|common|..];
  }

  /**
   * The id fragment is only five characters long: duplicated non-mobile hits
   * whose ids share their first five characters get the same label.
   */
  lemma SharedIdPrefixCollides(a: Offer, b: Offer, offerTypes: map<string, string>)
    requires a.title == b.title && a.prePurchase == b.prePurchase && a.offerType == b.offerType
    requires !IsMobile(a.tags) && !IsMobile(b.tags)
    requires |a.id| >= 5 && |b.id| >= 5 && a.id[..5] == b.id[..5]
    ensures Label(a, offerTypes, true) == Label(b, offerTypes, true)
  {
  }

  /** `titleCount.get(title) || 0`. */
  function Count(counts: map<string, nat>, title: string): nat
  {
    if title in counts then counts[title] else 0
  }

  /** The `forEach` that fills `titleCount`: one count per title over all hits. */
  method CountTitles(hits: seq<Offer>) returns (counts: map<string, nat>)
    ensures forall title :: Count(counts, title) == TitleCount(hits, title)
  {
    counts := map[];
    var i := 0;
    while i < |hits|
      invariant 0 <= i <= |hits|
      invariant forall title :: Count(counts, title) == TitleCount(hits[..i], title)
    {
      var title := hits[i].title;
      counts := counts[title := Count(counts, title) + 1];
      assert hits[..i + 1][..i] == hits[..i];
      i := i + 1;
    }
    assert hits[..|hits|] == hits;
  }

  /**
   * The suggestions for a search response (None when the response carries no
   * data): the first five hits in order, each labelled with Label, where a
   * title counts as duplicated when it occurs more than once among ALL hits,
   * and valued with the hit's id.
   */
  method Autocomplete(response: Option<seq<Offer>>, offerTypes: map<string, string>) returns (r: seq<Choice>)
    ensures response.None? ==> r == []
    ensures response.Some? ==> |r| == Min(MaxChoices, |response.value|)
    ensures response.Some? ==> forall i :: 0 <= i < |r| ==>
              var hit := response.value[i];
              r[i] == Choice(Label(hit, offerTypes, TitleCount(response.value, hit.title) > 1), hit.id)
  {
    if response.None? {
      return [];
    }
    var counts := CountTitles(response.value);
    r := FirstChoices(response, (hit: Offer) => Choice(Label(hit, offerTypes, Count(counts, hit.title) > 1), hit.id));
  }

  // ---------------------------------------------------------------------
  // Ranking footer

  /** The ranking positions of an offer, by ranking key. */
  type Tops = map<string, int>

  /** A ranking the footer can mention: its key, its emoji and its caption. */
  datatype Ranking = Ranking(key: string, emoji: string, caption: string)

  const Wishlisted := Ranking("top-wishlisted", "\U{1F525}", "wishlisted")
  const TopSellers := Ranking("top-sellers", "\U{1F4B0}", "top seller")
  const TopDemos := Ranking("top-demos", "\U{1F3AE}", "top demos")
  const TopNewReleases := Ranking("top-new-releases", "\U{1F195}", "top new releases")
  const MostPlayed := Ranking("most-played", "\U{1F389}", "most played")
  const TopPlayerReviewed := Ranking("top-player-reviewed", "\U{2B50}", "top player reviewed")
  const MostPopular := Ranking("most-popular", "\U{1F680}", "most popular")
  const TopFreeToPlay := Ranking("top-free-to-play", "\U{1F193}", "top free to play")
  const TopAddOns := Ranking("top-add-ons", "\U{2795}", "top add-ons")

  /** The nine rankings, in the order the footer lists them. */
  const Rankings := [Wishlisted, TopSellers, TopDemos, TopNewReleases, MostPlayed,
                     TopPlayerReviewed, MostPopular, TopFreeToPlay, TopAddOns]

  /** A ranking counts when its position is present and truthy (non-zero). */
  predicate Ranked(tops: Tops, key: string)
  {
    key in tops && tops[key] != 0
  }

  function Entry(ranking: Ranking, position: int): (r: string)
    ensures |r| > 0
  {
    ranking.emoji + " #" + IntToString(position) + " " + ranking.caption
  }

  /** What one ranking adds to the footer: its entry when the offer holds it, else nothing. */
  function Contribution(tops: Tops, ranking: Ranking): seq<string>
  {
    if Ranked(tops, ranking.key) then [Entry(ranking, tops[ranking.key])] else []
  }

  /** One entry per ranking of `rankings` that the offer holds, in the order of `rankings`. */
  function Entries(tops: Tops, rankings: seq<Ranking>): seq<string>
  {
    if |rankings| == 0 then []
    else Entries(tops, rankings[..|rankings| - 1]) + Contribution(tops, rankings[|rankings| - 1])
  }

  /**
   * There are at most as many entries as rankings, none of them empty, and
   * there are none exactly when the offer holds none of the rankings.
   */
  lemma {:induction false} EntriesShape(tops: Tops, rankings: seq<Ranking>)
    ensures |Entries(tops, rankings)| <= |rankings|
    ensures forall i :: 0 <= i < |Entries(tops, rankings)| ==> |Entries(tops, rankings)[i]| > 0
    ensures |Entries(tops, rankings)| == 0 <==> forall k :: 0 <= k < |rankings| ==> !Ranked(tops, rankings[k].key)
  {
    if |rankings| > 0 {
      var init := rankings[..|rankings| - 1];
      assert forall k :: 0 <= k < |init| ==> init[k] == rankings[k];
      EntriesShape(tops, init);
    }
  }

  /** When the offer holds every ranking, there is one entry per ranking, in ranking order. */
  lemma {:induction false} EntriesAllRanked(tops: Tops, rankings: seq<Ranking>)
    requires forall k :: 0 <= k < |rankings| ==> rankings[k].key in tops && tops[rankings[k].key] != 0
    ensures |Entries(tops, rankings)| == |rankings|
    ensures forall k :: 0 <= k < |rankings| ==> Entries(tops, rankings)[k] == Entry(rankings[k], tops[rankings[k].key])
  {
    if |rankings| > 0 {
      var init, last := rankings[..|rankings| - 1], rankings[|rankings| - 1];
      assert forall k :: 0 <= k < |init| ==> init[k] == rankings[k];
      EntriesAllRanked(tops, init);
      var entry := Entry(last, tops[last.key]);
      var all, prev := Entries(tops, rankings), Entries(tops, init);
      assert Contribution(tops, last) == [entry];
      assert all == prev + [entry];
      forall k | 0 <= k < |rankings|
        ensures all[k] == Entry(rankings[k], tops[rankings[k].key])
      {
        if k < |init| {
          assert all[k] == prev[k] && init[k] == rankings[k];
        } else {
          assert all[k] == entry && rankings[k] == last;
        }
      }
    }
  }

  /** The table-driven entries, ranking by ranking in the fixed order. */
  lemma EntriesOfRankings(tops: Tops)
    ensures Entries(tops, Rankings) ==
      Contribution(tops, Wishlisted) + Contribution(tops, TopSellers) + Contribution(tops, TopDemos)
      + Contribution(tops, TopNewReleases) + Contribution(tops, MostPlayed) + Contribution(tops, TopPlayerReviewed)
      + Contribution(tops, MostPopular) + Contribution(tops, TopFreeToPlay) + Contribution(tops, TopAddOns)
  {
    var rs := Rankings;
    assert Entries(tops, rs[..0]) == [] by { assert rs[..0] == []; }
    assert Entries(tops, rs[..1]) == Contribution(tops, Wishlisted) by {
      assert rs[..1][..0] == rs[..0];
      assert rs[..1][0] == Wishlisted;
    }
    assert Entries(tops, rs[..2]) == Contribution(tops, Wishlisted) + Contribution(tops, TopSellers) by {
      assert rs[..2][..1] == rs[..1];
      assert rs[..2][1] == TopSellers;
    }
    assert Entries(tops, rs[..3]) == Contribution(tops, Wishlisted) + Contribution(tops, TopSellers) + Contribution(tops, TopDemos) by {
      assert rs[..3][..2] == rs[..2];
      assert rs[..3][2] == TopDemos;
    }
    assert Entries(tops, rs[..4]) == Contribution(tops, Wishlisted) + Contribution(tops, TopSellers) + Contribution(tops, TopDemos) + Contribution(tops, TopNewReleases) by {
      assert rs[..4][..3] == rs[..3];
      assert rs[..4][3] == TopNewReleases;
    }
    assert Entries(tops, rs[..5]) == Contribution(tops, Wishlisted) + Contribution(tops, TopSellers) + Contribution(tops, TopDemos) + Contribution(tops, TopNewReleases) + Contribution(tops, MostPlayed) by {
      assert rs[..5][..4] == rs[..4];
      assert rs[..5][4] == MostPlayed;
    }
    assert Entries(tops, rs[..6]) == Contribution(tops, Wishlisted) + Contribution(tops, TopSellers) + Contribution(tops, TopDemos) + Contribution(tops, TopNewReleases) + Contribution(tops, MostPlayed) + Contribution(tops, TopPlayerReviewed) by {
      assert rs[..6][..5] == rs[..5];
      assert rs[..6][5] == TopPlayerReviewed;
    }
    assert Entries(tops, rs[..7]) == Contribution(tops, Wishlisted) + Contribution(tops, TopSellers) + Contribution(tops, TopDemos) + Contribution(tops, TopNewReleases) + Contribution(tops, MostPlayed) + Contribution(tops, TopPlayerReviewed) + Contribution(tops, MostPopular) by {
      assert rs[..7][..6] == rs[..6];
      assert rs[..7][6] == MostPopular;
    }
    assert Entries(tops, rs[..8]) == Contribution(tops, Wishlisted) + Contribution(tops, TopSellers) + Contribution(tops, TopDemos) + Contribution(tops, TopNewReleases) + Contribution(tops, MostPlayed) + Contribution(tops, TopPlayerReviewed) + Contribution(tops, MostPopular) + Contribution(tops, TopFreeToPlay) by {
      assert rs[..8][..7] == rs[..7];
      assert rs[..8][7] == TopFreeToPlay;
    }
    assert Entries(tops, rs[..9]) == Contribution(tops, Wishlisted) + Contribution(tops, TopSellers) + Contribution(tops, TopDemos) + Contribution(tops, TopNewReleases) + Contribution(tops, MostPlayed) + Contribution(tops, TopPlayerReviewed) + Contribution(tops, MostPopular) + Contribution(tops, TopFreeToPlay) + Contribution(tops, TopAddOns) by {
      assert rs[..9][..8] == rs[..8];
      assert rs[..9][8] == TopAddOns;
    }
    assert rs[..9] == rs;
  }

  /**
   * The footer text: the entries of the held rankings joined with a bullet, or
   * the default text when there are no ranking data or no entry.
   */
  function FooterSpec(tops: Option<Tops>): (r: string)
    ensures r != ""
    ensures (tops.None? || forall k :: 0 <= k < |Rankings| ==> !Ranked(tops.value, Rankings[k].key)) ==>
              r == DefaultFooter
  {
    match tops
    case None => DefaultFooter
    case Some(t) =>
      EntriesShape(t, Rankings);
      var entries := Entries(t, Rankings);
      if |entries| == 0 then DefaultFooter else Join(entries, Bullet)
  }

  /** `footerText`: the entries of the nine tests, then the join or the default. */
  method FooterText(tops: Option<Tops>) returns (text: string)
    ensures text == FooterSpec(tops)
  {
    if tops.Some? {
      var entries := CollectEntries(tops.value);
      if |entries| > 0 {
        return Join(entries, Bullet);
      }
    }
    return DefaultFooter;
  }

  /** The nine tests of `footerText`, each pushing one entry when its ranking is held. */
  method CollectEntries(t: Tops) returns (entries: seq<string>)
    ensures entries == Entries(t, Rankings)
  {
    entries := [];
    if Ranked(t, Wishlisted.key) {
      entries := entries + [Entry(Wishlisted, t[Wishlisted.key])];
    }
    ghost var expected := Contribution(t, Wishlisted);
    assert entries == expected;
    if Ranked(t, TopSellers.key) {
      entries := entries + [Entry(TopSellers, t[TopSellers.key])];
    }
    expected := expected + Contribution(t, TopSellers);
    assert entries == expected;
    if Ranked(t, TopDemos.key) {
      entries := entries + [Entry(TopDemos, t[TopDemos.key])];
    }
    expected := expected + Contribution(t, TopDemos);
    assert entries == expected;
    if Ranked(t, TopNewReleases.key) {
      entries := entries + [Entry(TopNewReleases, t[TopNewReleases.key])];
    }
    expected := expected + Contribution(t, TopNewReleases);
    assert entries == expected;
    if Ranked(t, MostPlayed.key) {
      entries := entries + [Entry(MostPlayed, t[MostPlayed.key])];
    }
    expected := expected + Contribution(t, MostPlayed);
    assert entries == expected;
    if Ranked(t, TopPlayerReviewed.key) {
      entries := entries + [Entry(TopPlayerReviewed, t[TopPlayerReviewed.key])];
    }
    expected := expected + Contribution(t, TopPlayerReviewed);
    assert entries == expected;
    if Ranked(t, MostPopular.key) {
      entries := entries + [Entry(MostPopular, t[MostPopular.key])];
    }
    expected := expected + Contribution(t, MostPopular);
    assert entries == expected;
    if Ranked(t, TopFreeToPlay.key) {
      entries := entries + [Entry(TopFreeToPlay, t[TopFreeToPlay.key])];
    }
    expected := expected + Contribution(t, TopFreeToPlay);
    assert entries == expected;
    if Ranked(t, TopAddOns.key) {
      entries := entries + [Entry(TopAddOns, t[TopAddOns.key])];
    }
    expected := expected + Contribution(t, TopAddOns);
    assert entries == expected;
    EntriesOfRankings(t);
  }

  // ---------------------------------------------------------------------
  // Genres

  /** The first genre of the table with id `id` (`allGenres.find`). */
  function FindGenre(all: seq<Genre>, id: string): (r: Option<Genre>)
    ensures r.Some? ==> r.value in all && r.value.id == id
    ensures r.None? <==> forall g :: g in all ==> g.id != id
    ensures r.Some? ==> exists k :: 0 <= k < |all| && all[k] == r.value &&
                          forall j :: 0 <= j < k ==> all[j].id != id
  {
    if |all| == 0 then None
    else if all[0].id == id then Some(all[0])
    else
      var r := FindGenre(all[1..], id);
      assert forall g :: g in all ==> g == all[0] || g in all[1..];
      assert r.Some? ==> exists k :: 0 <= k < |all| && all[k] == r.value &&
                          forall j :: 0 <= j < k ==> all[j].id != id by {
        if r.Some? {
          var k :| 0 <= k < |all[1..]| && all[1..][k] == r.value && forall j :: 0 <= j < k ==> all[1..][j].id != id;
          assert all[k + 1] == r.value;
          forall j | 0 <= j < k + 1 ensures all[j].id != id {
            if j > 0 { assert all[j] == all[1..][j - 1]; }
          }
        }
      }
      r
  }

  /**
   * The offer's genres: each tag resolved against the genre table, in tag
   * order, with the tags the table does not know dropped.
   */
  function OfferGenres(tags: seq<Tag>, all: seq<Genre>): (r: seq<Genre>)
    ensures |r| <= |tags|
    ensures forall g :: g in r ==> g in all
  {
    if |tags| == 0 then []
    else
      var rest := OfferGenres(tags[1..], all);
      match FindGenre(all, tags[0].id)
      case Some(g) => [g] + rest
      case None => rest
  }

  /** One tag gives its genre when the table knows it, and nothing otherwise. */
  lemma OfferGenresSingle(t: Tag, all: seq<Genre>)
    ensures FindGenre(all, t.id).Some? ==> OfferGenres([t], all) == [FindGenre(all, t.id).value]
    ensures FindGenre(all, t.id).None? ==> OfferGenres([t], all) == []
  {
    assert [t][1..] == [];
  }

  /**
   * The genres of two runs of tags are those of the first run followed by
   * those of the second: resolving keeps tag order whichever tags drop.
   */
  lemma {:induction false} OfferGenresAppend(a: seq<Tag>, b: seq<Tag>, all: seq<Genre>)
    ensures OfferGenres(a + b, all) == OfferGenres(a, all) + OfferGenres(b, all)
  {
    if |a| > 0 {
      assert (a + b)[1..] == a[1..] + b;
      assert (a + b)[0] == a[0];
      OfferGenresAppend(a[1..], b, all);
    } else {
      assert a + b == b;
    }
  }

  /** Every genre shown comes from a tag of the offer, and every tag the table knows is shown. */
  lemma {:induction false} OfferGenresResolved(tags: seq<Tag>, all: seq<Genre>)
    ensures forall g :: g in OfferGenres(tags, all) ==> exists t :: t in tags && t.id == g.id
    ensures forall t :: t in tags && FindGenre(all, t.id).Some? ==> FindGenre(all, t.id).value in OfferGenres(tags, all)
  {
    if |tags| > 0 {
      OfferGenresResolved(tags[1..], all);
      assert forall t :: t in tags ==> t == tags[0] || t in tags[1..];
      assert forall t :: t in tags[1..] ==> t in tags;
    }
  }

  /** No genre is shown exactly when no tag id is in the table. */
  lemma {:induction false} OfferGenresEmpty(tags: seq<Tag>, all: seq<Genre>)
    ensures OfferGenres(tags, all) == [] <==> forall t, g :: t in tags && g in all ==> g.id != t.id
  {
    if |tags| > 0 {
      OfferGenresEmpty(tags[1..], all);
      assert forall t :: t in tags ==> t == tags[0] || t in tags[1..];
      assert forall t :: t in tags[1..] ==> t in tags;
    }
  }

  /** When the table knows every tag, the genres follow the tags one for one. */
  lemma {:induction false} OfferGenresInTagOrder(tags: seq<Tag>, all: seq<Genre>)
    requires forall i :: 0 <= i < |tags| ==> FindGenre(all, tags[i].id).Some?
    ensures |OfferGenres(tags, all)| == |tags|
    ensures forall i :: 0 <= i < |tags| ==> OfferGenres(tags, all)[i].id == tags[i].id
  {
    if |tags| > 0 {
      assert forall i :: 0 <= i < |tags[1..]| ==> tags[1..][i] == tags[i + 1];
      OfferGenresInTagOrder(tags[1..], all);
    }
  }

  function GenreLink(g: Genre): (r: string)
    ensures |r| > 0 && r[0] == '['
  {
    "[" + g.name + "](https://egdata.app/search?tags=" + g.id + ")"
  }

  /** The linked genre names, one per genre, in order. */
  function Links(genres: seq<Genre>): (r: seq<string>)
    ensures |r| == |genres|
    ensures forall i :: 0 <= i < |genres| ==> r[i] == GenreLink(genres[i])
  {
    seq(|genres|, i requires 0 <= i < |genres| => GenreLink(genres[i]))
  }

  /** The Genres field value: linked names joined with ", ", or "No genres" for none. */
  function GenresValue(genres: seq<Genre>): (r: string)
    ensures r == NoGenres <==> |genres| == 0
    ensures |genres| == 1 ==> r == GenreLink(genres[0])
    ensures |genres| > 0 ==> GenreLink(genres[0]) <= r
  {
    if |genres| == 0 then NoGenres
    else
      var r := Join(Links(genres), ", ");
      assert Links(genres)[0] <= r;
      assert r[0] == '[';
      r
  }

  /**
   * Every genre's link is in the value, in order, with ", " between
   * neighbours: cutting the genres anywhere cuts the value at a ", ".
   */
  lemma GenresValueAt(genres: seq<Genre>, i: nat)
    requires 0 < i < |genres|
    ensures GenresValue(genres) == GenresValue(genres[..i]) + ", " + GenresValue(genres[i..])
  {
    var links := Links(genres);
    assert links[..i] == Links(genres[..i]);
    assert links[i..] == Links(genres[i..]);
    JoinAt(links, ", ", i);
  }

  // ---------------------------------------------------------------------
  // The reply

  function OfferUrl(id: string): string
  {
    "https://egdata.app/offers/" + id + "?utm_source=discord&utm_medium=bot&utm_campaign=offer"
  }

  function Title(offer: Offer): string
  {
    offer.title + (if offer.prePurchase then PrePurchaseMark else "")
  }

  /** The Price field value; the locale currency formatters are parameters. */
  function PriceValue(us: Option<Price>, eu: Option<Price>, usd: int -> string, eur: int -> string): string
  {
    (if us.Some? then usd(us.value.discountPrice) else "") + " / " + (if eu.Some? then eur(eu.value.discountPrice) else "")
  }

  /**
   * The outcomes of the offer's requests. `offer` is None when the offer
   * request fails or returns nothing; `media`, `usPrice`, `eurPrice` and
   * `tops` are None when their request fails; `genres` is None when the genre
   * table cannot be had, and then counts as an empty table.
   */
  datatype Fetched = Fetched(
    offer: Option<Offer>,
    media: Option<seq<MediaImage>>,
    genres: Option<seq<Genre>>,
    usPrice: Option<Price>,
    eurPrice: Option<Price>,
    tops: Option<Tops>)

  /** The six fields of the main embed (src/commands/offer.ts:192-239). */
  function Fields(offer: Offer, fetched: Fetched, offerTypes: map<string, string>,
                  usd: int -> string, eur: int -> string): seq<Field>
  {
    [ Field("Price", PriceValue(fetched.usPrice, fetched.eurPrice, usd, eur), true),
      Field("Release Date", RelativeTime(offer.releaseDate.GetOr(offer.effectiveDate)), true),
      Field("Developer", offer.developerDisplayName.GetOr(offer.seller.name), true),
      Field("Publisher", offer.publisherDisplayName.GetOr(offer.seller.name), true),
      Field("Genres", GenresValue(OfferGenres(offer.tags, fetched.genres.GetOr([]))), true),
      Field("Type", DisplayType(offerTypes, offer.offerType), true) ]
  }

  /** The main embed, given the text `footerText()` produced. */
  function MainEmbed(offer: Offer, fetched: Fetched, footerText: string, offerTypes: map<string, string>,
                     getImage: ImagePicker, usd: int -> string, eur: int -> string): (e: Embed)
    ensures e.title == Some(Title(offer)) && e.description == Some(offer.description)
    ensures e.url == Some(OfferUrl(offer.id)) && e.author == Some(offer.seller.name)
    ensures e.thumbnail == Some(Thumbnail(getImage, offer.keyImages, OfferImageTypes))
    ensures e.fields == Fields(offer, fetched, offerTypes, usd, eur)
    ensures footerText != "" ==> e.footer == Some(Footer(footerText, Some(FooterIcon)))
    ensures footerText == "" ==> e.footer == Some(Footer(DefaultFooter, Some(FooterIcon)))
    ensures e.color == Some(Green) && e.timestamp == Some(offer.lastModifiedDate) && e.image.None?
  {
    EmptyEmbed.(
      title := Some(Title(offer)),
      description := Some(offer.description),
      url := Some(OfferUrl(offer.id)),
      thumbnail := Some(Thumbnail(getImage, offer.keyImages, OfferImageTypes)),
      fields := Fields(offer, fetched, offerTypes, usd, eur),
      color := Some(Green),
      author := Some(offer.seller.name),
      footer := Some(Footer(if footerText != "" then footerText else DefaultFooter, Some(FooterIcon))),
      timestamp := Some(offer.lastModifiedDate))
  }

  /** The guard on an empty footer text never fires: the footer is always FooterSpec's text. */
  lemma FooterAlwaysFromRankings(offer: Offer, fetched: Fetched, offerTypes: map<string, string>,
                                 getImage: ImagePicker, usd: int -> string, eur: int -> string)
    ensures MainEmbed(offer, fetched, FooterSpec(fetched.tops), offerTypes, getImage, usd, eur).footer
            == Some(Footer(FooterSpec(fetched.tops), Some(FooterIcon)))
  {
  }

  function ImageEmbed(offerId: string, src: string): Embed
  {
    EmptyEmbed.(url := Some(OfferUrl(offerId)), image := Some(src))
  }

  /** The key image for the extra embeds: the picked image's URL as is, or the placeholder. */
  function KeyImageUrl(offer: Offer, getImage: ImagePicker): string
  {
    match getImage(offer.keyImages, OfferImageTypes)
    case Some(image) => image.url
    case None => Placeholder
  }

  function MediaSources(media: Option<seq<MediaImage>>): (r: seq<string>)
    ensures media.None? ==> r == []
    ensures media.Some? ==> |r| == |media.value| && forall i :: 0 <= i < |r| ==> r[i] == media.value[i].src
  {
    match media
    case None => []
    case Some(images) => seq(|images|, i requires 0 <= i < |images| => images[i].src)
  }

  /**
   * The extra embeds shown: at most three; with three media images or fewer,
   * one per image in order; with more, the key image and then the first two.
   */
  ghost predicate ShowsImages(shown: seq<Embed>, offerId: string, sources: seq<string>, keyImage: string)
  {
    && |shown| == Min(3, |sources|)
    && (|sources| <= 3 ==> forall i :: 0 <= i < |shown| ==> shown[i] == ImageEmbed(offerId, sources[i]))
    && (|sources| > 3 ==> shown == [ImageEmbed(offerId, keyImage), ImageEmbed(offerId, sources[0]),
                                    ImageEmbed(offerId, sources[1])])
  }

  /** One embed per media image, the key image put in front when there are more than three, then the first three. */
  method ImageEmbeds(offerId: string, sources: seq<string>, keyImage: string) returns (shown: seq<Embed>)
    ensures ShowsImages(shown, offerId, sources, keyImage)
  {
    var images := seq(|sources|, i requires 0 <= i < |sources| => ImageEmbed(offerId, sources[i]));
    if |images| > 3 {
      images := [ImageEmbed(offerId, keyImage)] + images;
    }
    shown := images[..Min(3, |images|)];
  }

  function OfferRequest(id: string): Call
  {
    Get("/offers/" + id, [])
  }

  /** The requests started once the offer is known, all at once. */
  function AuxiliaryRequests(id: string): seq<Call>
  {
    [ Get("/offers/" + id + "/media", []),
      LoadGenres,
      Get("/offers/" + id + "/price", [Param("country", "US")]),
      Get("/offers/" + id + "/price", [Param("country", "ES")]),
      Get("/offers/" + id + "/tops", []) ]
  }

  /**
   * `execute`. Without a query it asks for one; when the offer request fails
   * it reports that no offer was found, having started no other request;
   * otherwise it starts the five auxiliary requests and replies with the main
   * embed followed by at most three image embeds.
   */
  method Execute(query: Option<string>, fetched: Fetched, offerTypes: map<string, string>,
                 getImage: ImagePicker, usd: int -> string, eur: int -> string) returns (x: Execution)
    ensures query.None? ==> x == Execution([], Ephemeral(MissingQuery))
    ensures query.Some? && fetched.offer.None? ==>
              x == Execution([OfferRequest(query.value)], Ephemeral(NotFound))
    ensures query.Some? && fetched.offer.Some? ==>
              var offer := fetched.offer.value;
              && x.calls == [OfferRequest(query.value)] + AuxiliaryRequests(offer.id)
              && x.reply.Embeds? && 1 <= |x.reply.embeds| <= 4
              && x.reply.embeds[0] == MainEmbed(offer, fetched, FooterSpec(fetched.tops), offerTypes, getImage, usd, eur)
              && ShowsImages(x.reply.embeds[1..], offer.id, MediaSources(fetched.media), KeyImageUrl(offer, getImage))
  {
    if query.None? {
      return Execution([], Ephemeral(MissingQuery));
    }
    var calls := [OfferRequest(query.value)];
    if fetched.offer.None? {
      return Execution(calls, Ephemeral(NotFound));
    }
    var offer := fetched.offer.value;
    calls := calls + AuxiliaryRequests(offer.id);
    var footerText := FooterText(fetched.tops);
    var main := MainEmbed(offer, fetched, footerText, offerTypes, getImage, usd, eur);
    var images := ImageEmbeds(offer.id, MediaSources(fetched.media), KeyImageUrl(offer, getImage));
    assert ([main] + images)[1..] == images;
    x := Execution(calls, Embeds([main] + images));
  }
}
