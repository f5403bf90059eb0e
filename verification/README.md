# egdata Discord bot — a verified model of its command rules

The egdata bot answers Discord slash commands about the Epic Games Store
catalog kept by egdata.app. Each command fetches records from the egdata
API and turns them into a reply: embeds made of fields, or a short private
message. Autocomplete handlers turn search hits into at most five suggestions.

This project models the deterministic part of those handlers in Dafny:

- the label rules of the `offer` suggestions, which tell apart offers that share a title;
- the `offer` reply: ranking footer, genre cross-reference, extra image embeds, and the early return when the offer cannot be fetched;
- the process-wide genre cache (`genres()`), as a class with a one-entry map;
- `formatBytes` and the asset fields of `assets`;
- the giveaway loop of `freebies`, with its status classification;
- `formatLogo`, the field layout and the Top Sellers list of `seller`;
- the restriction fields of `geolock`;
- the permission, argument and URL rules of `regenerate`;
- the suggestion mappers of `items`, `assets`, `seller`, `geolock` and `search`.

Each outcome of an API request is an input of type `Option` (None when the request fails or yields nothing).
A command returns an `Execution`: the requests it started, in order, and its reply.
This makes "no other request was started" something a contract can state.
The image picker `getImage` and the offer-type dictionary are parameters (`Catalog.ImagePicker`, a `map`), because their code is not part of this model.

Modules: `Wrappers` (Option), `Text` (number printing, join/split, first-occurrence replace), `Discord` (fields, embeds, replies, choices), `Client` (requests), `Catalog` (catalog records), and one module per command file plus `Genres`.

Duplicate titles are counted over all hits of the search, not only over the five suggestions shown (`Offer.Autocomplete`).

## Model

| member | source | states |
|---|---|---|
| Offer.FirstMobileTag | src/commands/offer.ts:15-20 | a mobile tag is found iff some tag is a mobile platform; it is the first such tag and has a display name |
| Offer.TitleCount | src/commands/offer.ts:298-302 | the count of a title is at most the number of hits and is positive iff some hit has that title |
| Offer.TitleCountPrefix | src/commands/offer.ts:299-307 | counting over the first k hits never finds more than counting over all hits |
| Offer.CountTitles | src/commands/offer.ts:299-302 | the forEach that fills the title map yields, for every title, exactly TitleCount over all hits |
| Offer.Suffix | src/commands/offer.ts:306-320 | a hit whose first mobile tag is 39070 gets " (iOS)", one whose first mobile tag is 39071 gets " (Android)"; other duplicated hits get " [" + first five id characters + "]"; all other hits get nothing |
| Offer.SuffixOfFirstMobileTag | src/commands/offer.ts:316-317 | when tags[i] is the first tag naming a mobile platform, the suffix is that platform's name in parentheses, duplicated or not |
| Offer.MobileWinsOverDuplicate | src/commands/offer.ts:316-320 | a mobile hit's suffix does not depend on whether its title is duplicated |
| Offer.DuplicateLabelsDiffer | src/commands/offer.ts:318-323 | two duplicated non-mobile hits that differ in their first five id characters get different labels |
| Offer.SharedIdPrefixCollides | src/commands/offer.ts:318-323 | two duplicated non-mobile hits whose ids share the first five characters get the same label |
| Offer.Autocomplete | src/commands/offer.ts:289-327 | no data gives no suggestions; otherwise there are min(5, n) suggestions in hit order; each is labelled title, pre-purchase mark, type, then suffix, with duplication counted over all hits, and valued with the hit id |
| Offer.EntriesShape | src/commands/offer.ts:139-172 | at most one entry per ranking, none empty, and none at all iff the offer holds no ranking |
| Offer.EntriesAllRanked | src/commands/offer.ts:141-167 | when every ranking is held, there is one entry per ranking, in the fixed order |
| Offer.EntriesOfRankings | src/commands/offer.ts:141-167 | the entries are the nine rankings' contributions, in the order wishlisted through add-ons |
| Offer.FooterSpec | src/commands/offer.ts:137-176 | the footer is never empty, and it is the default text when there are no ranking data or no ranking is held |
| Offer.FooterText | src/commands/offer.ts:137-176 | the collected entries joined with a bullet, or the default text when there are no ranking data or no entry, is exactly FooterSpec |
| Offer.CollectEntries | src/commands/offer.ts:139-167 | the nine push tests leave exactly the entries of the held rankings, one per ranking, in the fixed ranking order |
| Offer.FooterAlwaysFromRankings | src/commands/offer.ts:244-250 | the footer guard on an empty text never changes the footer: it is always FooterSpec's text |
| Offer.FindGenre | src/commands/offer.ts:134 | the table's first genre with the tag id, and None iff no genre has that id |
| Offer.OfferGenres | src/commands/offer.ts:133-135 | at most one genre per tag, and every genre comes from the table |
| Offer.OfferGenresSingle | src/commands/offer.ts:133-135 | one tag gives its table genre when the table knows its id, and nothing otherwise |
| Offer.OfferGenresAppend | src/commands/offer.ts:133-135 | the genres of a + b are those of a followed by those of b, so the kept genres stay in tag order whichever tags drop |
| Offer.OfferGenresResolved | src/commands/offer.ts:133-135 | every genre shown matches some tag, and every tag the table knows is shown |
| Offer.OfferGenresEmpty | src/commands/offer.ts:133-135 | no genre is shown iff no tag id occurs in the table |
| Offer.OfferGenresInTagOrder | src/commands/offer.ts:133-135 | when the table knows every tag, the genres follow the tags one for one, in order |
| Offer.GenresValue | src/commands/offer.ts:220-231 | "No genres" exactly for an empty list; a single genre gives exactly its link "[name](https://egdata.app/search?tags=id)" |
| Offer.GenresValueAt | src/commands/offer.ts:223-230 | cutting the genres at any inner position cuts the value into the two parts' values with ", " between, so every link appears, in order, separated by ", " |
| Offer.MediaSources | src/commands/offer.ts:253 | one image source per media image, in order, and none when the media request failed |
| Offer.MainEmbed | src/commands/offer.ts:178-251 | the main embed carries the title with its pre-purchase mark, description, offer link, thumbnail, the six fields, seller as author, the footer text or the default when that text is empty, and the last-modified time |
| Offer.ImageEmbeds | src/commands/offer.ts:253-279 | at most three extra embeds; with three or fewer images, one per image in order; with more, the key image and then the first two |
| Offer.Execute | src/commands/offer.ts:84-281 | no query gives "Please provide an ID."; a failed offer request gives "No offer found with that ID." after that request alone; otherwise the five auxiliary requests follow, the main embed carries FooterSpec's footer, and the image embeds follow |
| Genres.Cache.constructor | src/utils/genres.ts:3 | the cache starts empty, with no request made |
| Genres.Cache.Genres | src/utils/genres.ts:21-37 | a hit returns the stored table and changes nothing; a miss makes one request and returns its outcome; a success is stored under "genres"; a failure leaves the cache unchanged; only the "genres" key is ever used |
| Genres.CallTwice | src/utils/genres.ts:21-37 | when the first call succeeds, two calls make at most one request, return the same table, and leave exactly that table cached |
| Catalog.DisplayType | src/commands/offer.ts:236 | the dictionary's name for the offer type, or the raw type when the dictionary has none |
| Catalog.Thumbnail | src/commands/offer.ts:184-191 | the picked image's URL split at its spaces and joined again with "%20", so no space is left and a URL without spaces is unchanged; the placeholder when nothing is picked |
| Discord.RelativeTime | src/commands/offer.ts:203-206 | the marker starts with "<t:" and ends with ":R>" |
| Discord.RelativeTimeFloor | src/commands/offer.ts:203-206 | the marker names the second s with 1000 s <= ms < 1000 s + 1000, so it rounds down before 1970 too |
| Discord.FirstChoices | src/commands/items.ts:110-122 | no data gives no suggestions; otherwise the first min(5, n) hits, in order, each mapped to its choice |
| Assets.UnitIndex | src/commands/assets.ts:138 | the unit index i of a positive byte count satisfies 1024^i <= bytes < 1024^(i+1) |
| Assets.UnitIndexUnique | src/commands/assets.ts:138 | that bracketing index is unique, so UnitIndex is the floor of the base-1024 logarithm |
| Assets.Places | src/commands/assets.ts:135 | a negative number of decimals counts as none; any other is kept |
| Assets.Decimal | src/commands/assets.ts:140 | the printed number is non-empty and made only of digits and a point |
| Assets.DecimalDenotes | src/commands/assets.ts:140 | the printed number denotes n / 10^digits: its digits read as a whole number, shifted by the places not shown, give n; at most `digits` places, no trailing zero after the point, only digits before it |
| Assets.RoundedNearest | src/commands/assets.ts:140 | the rounded value q is within half a unit of bytes * 10^digits / 1024^i, the upper one on a tie, as `toFixed` rounds |
| Assets.FormatBytesDenotes | src/commands/assets.ts:131-141 | beyond zero, the printed number denotes the byte count in the unit at UnitIndex, rounded to the places asked for |
| Assets.DecimalOfWhole | src/commands/assets.ts:140 | a whole number printed with any number of places shows no fraction |
| Assets.FormatBytes | src/commands/assets.ts:131-141 | zero bytes print as "0 Bytes"; otherwise a number, one space, then the name of the unit at UnitIndex |
| Assets.WholeUnits | src/commands/assets.ts:131-141 | k whole units (1 <= k < 1024) print as k, a space and the unit name, for any number of decimals, negative included |
| Assets.OneKilobyte | src/commands/assets.ts:131-141 | formatBytes(1024) is "1 KB" |
| Assets.OneAndAHalfKilobytes | src/commands/assets.ts:131-141 | formatBytes(1536, 1) is "1.5 KB" |
| Assets.AssetFieldLines | src/commands/assets.ts:95-97 | an asset field's value is exactly two lines: the download size, then the installed size |
| Assets.AssetFields | src/commands/assets.ts:92-100 | one non-inline field per asset, in order, named by platform; none when the assets request failed |
| Assets.Execute | src/commands/assets.ts:55-105 | no query gives "Please provide an ID."; both requests are started; a failed item request gives "No item found with that ID." whatever the assets gave; otherwise the item embed carries the asset fields |
| Assets.Autocomplete | src/commands/assets.ts:113-127 | min(5, n) suggestions in hit order, named by title and valued with the id; none without data |
| Freebies.Status | src/commands/freebies.ts:49-52 | "On Going" iff start < now < end; else "Upcoming" iff start > now; else "Ended" |
| Freebies.GameFields | src/commands/freebies.ts:58-78 | three inline fields: the title with its egdata.app offer link, "Status" with the status, then "Ends" with the end time for an ongoing giveaway and "Starts" with the start time for any other |
| Freebies.Kept | src/commands/freebies.ts:47-56 | the games kept are at most as many as given |
| Freebies.KeptMembers | src/commands/freebies.ts:48-56 | a game is kept iff it is listed and its giveaway has not ended |
| Freebies.ListedIsKeptGames | src/commands/freebies.ts:47-79 | the listed fields are three per kept game, in input order, each triple being that game's fields |
| Freebies.OnGoingShowsEnd | src/commands/freebies.ts:66-75 | an ongoing giveaway is kept, shows "On Going", and its third field is "Ends" with its end time |
| Freebies.EndedOnlyAtBoundaries | src/commands/freebies.ts:48-75 | a kept giveaway shows "Ended" iff it starts exactly now, or started and ends exactly now; it is then shown with "Starts" and its start time |
| Freebies.Execute | src/commands/freebies.ts:34-84 | the loop builds exactly the header embed with Listed's fields, three per kept game, after the one free-games request |
| Seller.FormatLogo | src/commands/seller.ts:76-80 | a URL not starting with "//" is returned unchanged; one starting with "//" gets the "https:" scheme |
| Seller.ThumbnailUpscaled | src/commands/seller.ts:78 | "//" + path + "t_thumb" + name + ".jpg" becomes "https://" + path + "t_1080p" + name + ".webp" whenever no "t_thumb" starts inside "//" + path and, after that replacement, no ".jpg" starts before the final one |
| Seller.PlainThumbnailUpscaled | src/commands/seller.ts:78 | in particular when the path has no "_" and neither part has a "j" |
| Seller.IgdbLogoUpscaled | src/commands/seller.ts:78 | an IGDB cover thumbnail URL becomes the 1080p WebP cover on https |
| Seller.PlaceholderKept | src/commands/seller.ts:115-119 | the placeholder used for a missing logo passes through formatLogo unchanged |
| Seller.TopSellers | src/commands/seller.ts:153-160 | "undefined" when the covers request failed, empty for no covers, and otherwise the first cover's line starts the value |
| Seller.TopSellersLines | src/commands/seller.ts:155-159 | split on newlines, the value gives back one "- [title](url)" line per cover, in order |
| Seller.Fields | src/commands/seller.ts:122-161 | seven fields: Games, Offers, blank, Items, Giveaways, blank (inline), then Top Sellers (not inline) |
| Seller.SellerEmbed | src/commands/seller.ts:110-161 | the seller's name and link, the formatted logo or the unchanged placeholder when the seller has no logo, the update time and exactly the seven fields |
| Seller.Execute | src/commands/seller.ts:82-166 | no query gives "Please provide an ID."; both requests are started; failed statistics give "No seller found with that ID." even when the covers arrived; otherwise exactly the one seller embed, with the placeholder thumbnail when there is no logo and the Top Sellers field last |
| Seller.Autocomplete | src/commands/seller.ts:168-189 | min(5, n) suggestions in hit order, named by seller name and valued with the seller id; none without data |
| Geolocks.Fields | src/commands/geolocks.ts:73-90 | at most two fields, none iff both lists are absent, never inline |
| Geolocks.FieldsPresentIffListed | src/commands/geolocks.ts:74-89 | each country field is present iff its list is, the blacklist field first and the whitelist field last, each holding its codes joined with ", " |
| Geolocks.Execute | src/commands/geolocks.ts:47-101 | no query gives "Please provide an ID."; a failed offer request gives "No offer found with that ID."; otherwise one embed with the offer's title, restriction fields and effective date |
| Geolocks.Autocomplete | src/commands/geolocks.ts:111-124 | min(5, n) suggestions in hit order, labelled "title (type)" and valued with the offer id; none without data |
| Regenerate.HasAllowedRole | src/commands/regenerate.ts:48 | true iff some role id of the member is one of the eight allowed ids |
| Regenerate.Target | src/commands/regenerate.ts:69 | the target is never empty: the id when a non-empty id is given, else the slug |
| Regenerate.RegenUrl | src/commands/regenerate.ts:69-75 | regen-by-id with the id when an id is given, otherwise regen with the slug |
| Regenerate.Respond | src/commands/regenerate.ts:87-118 | an answer gives one embed described by the API's message, or by the success text naming the target when there is none; a failure gives a private "Failed to regenerate offer: " message with the error's message or "Unknown error occurred" |
| Regenerate.Execute | src/commands/regenerate.ts:39-118 | outside a server, without an allowed role, or without a slug or id, the matching refusal is sent and no request is made, checked in that order; otherwise exactly one PUT to RegenUrl and the reply Respond gives for its outcome and the target |
| Regenerate.PutOnlyWhenPermitted | src/commands/regenerate.ts:39-80 | the PUT is sent iff the member is in a server, holds an allowed role and gave a slug or an id; the id wins over the slug |
| Regenerate.NoRolesRefused | src/commands/regenerate.ts:48-53 | a member with no roles is always refused |
| Regenerate.FailureReported | src/commands/regenerate.ts:96-118 | a failed request is reported with the error's own message |
| Items.Execute | src/commands/items.ts:55-96 | no query gives "Please provide an ID."; a failed item request gives "No item found with that ID."; otherwise one embed with the item's title and link |
| Items.ItemEmbed | src/commands/items.ts:79-91 | the item's title and link, its thumbnail, the colour and its last-modified time, and no fields |
| Items.Autocomplete | src/commands/items.ts:110-122 | min(5, n) suggestions in hit order, labelled "title (entitlement type)" and valued with the item id; none without data |
| Search.Autocomplete | src/commands/search.ts:36-48 | min(5, n) suggestions in hit order, named by title and valued with the id; none without data |
| Text.SplitJoin | src/commands/seller.ts:155-159 | joining parts on a character none of them contains, then splitting on it, gives the parts back |
| Text.ReplaceFirst | src/commands/seller.ts:78 | a string without the pattern is left unchanged |
| Text.ReplaceFirstAfter | src/commands/seller.ts:78 | in a + pat + b, the first occurrence is the one after a when a character of pat rules out earlier ones, and it is replaced there |
| Text.ReplaceCharSplitJoin | src/commands/offer.ts:190 | replacing every occurrence of a character is splitting on it and joining the pieces with the replacement |
| Text.JoinAt | src/commands/offer.ts:223-230 | a join splits at any inner part into the join of the parts before it, the separator, and the join of the rest |

## Left out

- HTTP: every API request is replaced by its outcome as an input. Timeouts, status codes and the axios error details that `regenerate` logs are not modelled.
- discord.js: builders, interaction objects and the limits the library enforces (25 fields per embed, 100 characters per choice name) are not modelled. Embeds are plain records.
- Logging and `console.log` calls are not modelled.
- Concurrency: `Promise.allSettled` is modelled by its per-request outcomes. The order of the `calls` list is the order the requests are started in.
- A rejected autocomplete search is not caught by the commands; it reaches the dispatcher, which is not part of this model. Only the "no data" case is modelled.
- Locale price formatting (`Intl.NumberFormat`): the two currency formatters are function parameters of `Offer.Execute`.
- Date parsing: every date is an input in epoch milliseconds. `Discord.RelativeTime` floors the division by 1000, like `Math.floor` does.
- Assets.FormatBytes: the unit index is the exact floor of the base-1024 logarithm. The code computes it with floating-point `Math.log`, which can land one unit lower at exact powers of 1024.
- Assets.FormatBytes: the number is the exact quotient rounded half up to the given places, printed with every significant digit and trailing zeros dropped. The code rounds a double with `toFixed` and prints the shortest form that reads back as the same double. Below 2^53 bytes the quotient is an exact double, so the two agree while the printed number has at most 15 significant digits; the only call uses 2 places. With many places the code can print fewer digits than the model.
- Assets.FormatBytes: `toFixed` throws a RangeError for more than 100 places; the model returns a string for any number of places, and Assets.WholeUnits states its result for those too.
- Assets.FormatBytes: a unit index of 9 or more prints "undefined", as indexing past the unit table does. Such counts exceed 2^53 anyway.
- Genres.Cache.Genres: calls are modelled one after the other. Two overlapping `offer` commands can both miss the cache, both request the genre table, and the later store replaces the earlier entry; the model does not show this.
- Offer.Suffix: the id fragment is the first five characters of the id; `slice(0, 5)` counts UTF-16 code units, which differ only for ids outside the Basic Multilingual Plane.
- Freebies.Execute: one `now` is used for every comparison. The code reads the clock once per comparison.
- Freebies.Execute: a failed free-games request rejects the command; the dispatcher (src/index.ts, not part of this model) then answers with its generic private error message. The model takes the fetched list as its input.
- Regenerate.Respond: a failure of the reply itself (which the code would also catch) and a response without a body are not modelled.
- Catalog: a `prePurchase` that is null counts as false. A field built without `inline` is shown as not inline.
- Seller.TopSellers: the `dedent` tag around the Top Sellers value is not modelled; the value is the joined lines. Every line starts with "- ", so there is no common indentation to strip unless a title itself contains a line break.
- Seller.FormatLogo: `$` patterns in replacement strings are not interpreted. The two replacements used contain none.
- The offer type dictionary and the image picker are parameters: src/utils/offer-types.js and src/utils/get-image.js are not part of this model.
- Process startup is not part of this model: command loading and dispatch (src/index.ts), command registration (src/deploy.ts), the health server (src/utils/healthCheck.ts), configuration (src/config.ts) and `ping`.
