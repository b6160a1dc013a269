# Listing browser core, modelled in Dafny

`js/main.js` is a browser script that fetches a file of Airbnb listings. It draws the listings as cards, filters them by a search text and by a favourites-only mode, and keeps the user's favourites in `localStorage`. This project models the sequential logic inside that script and proves properties of it:

- the listing identifier (`getListingId`);
- the favourite store (`loadFavorites`, `saveFavorites`, `toggleFavoriteById`), as the class `Favorites.FavoriteStore`;
- the text helpers (`safeText`, `shortDesc`, `escapeAttr`, `escapeHtml`);
- the listing helpers (`parseAmenities`, `pickThumbnail`, `pickHostPhoto`);
- the filter stages and the cap of 50 inside `applyAndRender`;
- the data each card shows (`getListingCode`), as the record `Cards.Card` rather than HTML text;
- the page state around them (`applyAndRender`, `loadData`, the favourite-button click), as the class `Catalog.Catalog`.

The modules are:

- `JsValues`: JavaScript values, truthiness, `String(...)` and `safeText`.
- `Seqs`: `Array.prototype.filter` and the iteration order of `new Set(array)`.
- `Strings`: `replaceAll` with a one-character pattern, ASCII `toLowerCase`, `trim`, `includes`.
- `TextHelpers`: `shortDesc`, the two escapers, and `Unescape`, the entity decoding a browser applies to what they produce.
- `Listings`: the listing record and the pure choices made from it.
- `ViewFilter`: the view, the cap and the status line.
- `Cards`: the card record and `listings.map(getListingCode)`.
- `Favorites`: the stored slot, the load and save functions, and the store class.
- `Catalog`: the page state class.

Decisions about the model:

- `localStorage` is the field `persisted` of the store. A `Slot` records what reading the slot and calling `JSON.parse` gives: nothing stored, the empty string, text that does not parse, or a value.
- A JavaScript `Set` iterates in insertion order, and `saveFavorites` writes that order. So the store keeps `order: seq<string>` next to `favorites: set<string>`. `Valid()` ties the two together.
- `JSON.parse` for string-valued amenities is the function `parse` held by the catalog; its results are not constrained.
- Numbers are integers, and `String` of a number is its exact decimal text. This matches JavaScript for integers up to 2^53 in magnitude.
- When the parsed amenities are not an array, `getListingCode` throws a `TypeError`, because it slices and maps them. The model returns `TypeError` in that case. `listings.map(getListingCode)` then throws for the whole page, so nothing is drawn. Inside `loadData` the status then shows the failure text.

Some behaviour of the code is easy to miss. The model follows the code in each case:

- Toggling an identifier twice restores the favourite set. It does not always restore the stored array: deleting and re-adding a favourite moves it to the end (`Favorites.ToggleTwiceReorders`).
- The composite identifier `name__host` is not injective (`Listings.CompositeIdCollision`).
- `name`, `price`, `hostName` and the amenity badges go into the card body without escaping. The card record keeps them as they are and claims nothing about injection.
- An empty `listing_url` gives the link `"#"`. So does a `listing_url` of `"#"`. The model therefore states that an empty link implies `"#"`, not the converse. An empty array as `listing_url` is truthy but stringifies to `""`, so it also gives the disabled link (`Cards.EmptyArrayLink`).

## Model

| member | source | states |
|---|---|---|
| JsValues.SafeText | js/main.js:55-58 | the fallback for `null`/`undefined`; a string comes back as it is |
| JsValues.IntToStringRoundTrip | js/main.js:27 | the decimal text `String(n)` gives for an integer id reads back as `n` |
| JsValues.ToString | js/main.js:57 | `String(v)`: a number's text reads back as the number, a string is itself, and an empty array gives "" |
| Listings.GetListingId | js/main.js:26-31 | a present id (truthy or 0) gives `String(id)`, and a numeric id gives text that reads back as the number; otherwise the name (or "unknown"), "__" at exactly that position, then the host id (or "nohost") |
| Listings.IdIgnoresOtherFields | js/main.js:27 | two listings with the same present id get the same identifier, whatever their other fields |
| Listings.CompositeIdIgnoresOtherFields | js/main.js:28-30 | without a present id, the identifier depends only on name and host id |
| Listings.CompositeIdCollision | js/main.js:28-30 | two different listings, ("a__b", "c") and ("a", "b__c"), share the identifier "a__b__c" |
| Listings.FieldlessId | js/main.js:28-30 | without an id, a name or a host id the identifier is "unknown__nohost" |
| Listings.PickThumbnail | js/main.js:70-72 | the first truthy of thumbnail and picture, else the fallback picture; always truthy |
| Listings.PickHostPhoto | js/main.js:74-76 | the first truthy of the host's two pictures, else the placeholder avatar; always truthy |
| Listings.ParseAmenities | js/main.js:60-68 | an array is kept; a string gives what `JSON.parse` yields, or `[]` when it throws; anything else gives `[]` |
| Seqs.Filter | js/main.js:214-225 | the result holds exactly the elements of the input that pass the test, and is no longer than the input |
| Seqs.FilterCounts | js/main.js:214-225 | every passing element is kept as often as it occurs; failing ones are dropped |
| Seqs.FilterIsSubsequence | js/main.js:214-225 | the filtered sequence keeps the input's relative order |
| Seqs.FilterFilter | js/main.js:214-225 | two filters in a row equal one filter by the conjunction |
| Seqs.FirstIndex | js/main.js:39 | the position of the first occurrence of an element, which holds it and is preceded by no other copy |
| Seqs.AddAll | js/main.js:39 | `new Set(array)` iterates without repeats, over exactly the array's elements; what was added before comes first |
| Seqs.AddAllOrder | js/main.js:39 | the elements the set adds are new, come from the array, and iterate in the order of their first occurrences |
| Seqs.AddAllFresh | js/main.js:39 | on an array without repeats, the set iterates in the array's order |
| Strings.ReplaceAll | js/main.js:85-88 | a character absent from the replacement is absent from the result |
| Strings.ReplaceAllConcat | js/main.js:85-88 | replacing in a concatenation is replacing in each part |
| Strings.ReplaceAllMarks | js/main.js:107 | when the replacement's first character occurs nowhere else, every occurrence of it in the result starts a whole replacement |
| Strings.Lower | js/main.js:210 | same length, every character lowercased on its own |
| Strings.TrimStart | js/main.js:210 | removes exactly the leading white space |
| Strings.TrimEnd | js/main.js:210 | removes exactly the trailing white space |
| Strings.TrimIdempotent | js/main.js:210 | trimming twice is trimming once |
| ViewFilter.NormalizeQuery | js/main.js:210 | the query is the lowercased middle of the search text, with only white space cut off on either side; it neither starts nor ends with white space and holds no upper-case ASCII letter |
| ViewFilter.NormalizeQueryIdempotent | js/main.js:210 | a trimmed, lowercased query is unchanged by trimming and lowercasing again |
| ViewFilter.ModeOf | js/main.js:211 | a non-empty select value is the mode; the mode is never empty |
| ViewFilter.Visible | js/main.js:213-225 | keeps exactly the listings whose name or description contains the query (or the query is empty) and that are favourites (or the mode is not "fav"), each as often as in the input, in input order |
| ViewFilter.StagesAreVisible | js/main.js:213-225 | the query stage then the favourites stage, each run only when its condition holds, compute the view |
| ViewFilter.FilterStages | js/main.js:213-225 | the staged reassignments of `filtered` end in the view |
| ViewFilter.ShowAll | js/main.js:213-225 | an empty query outside "fav" mode shows all listings, in order |
| ViewFilter.VisibleIdempotent | js/main.js:213-225 | filtering the view again with the same inputs changes nothing |
| ViewFilter.Displayed | js/main.js:227 | the first `min(50, n)` filtered listings |
| ViewFilter.StatusTextInjective | js/main.js:231 | the status line tells every two triples of shown, filtered and favourite counts apart, so it reports the counts it is given |
| ViewFilter.FieldsUnique | js/main.js:231 | three digit runs separated by texts that start with a non-digit split in one way only |
| TextHelpers.ShortDesc | js/main.js:78-81 | the text if it fits in `maxLen`, else exactly its first `maxLen` characters and "..."; never longer than `maxLen + 3` |
| TextHelpers.EscapeAttrIsEncode | js/main.js:83-89 | the four `replaceAll` calls, `&` first, map each character on its own to its entity |
| TextHelpers.EscapeHtmlIsEncode | js/main.js:91-98 | the five `replaceAll` calls, `&` first, map each character on its own to its entity |
| TextHelpers.EncodeRoundTrip | js/main.js:83-98 | decoding a per-character encoding whose entities decode to their characters gives the input back |
| TextHelpers.EscapeAttr | js/main.js:83-89 | no `<`, `>` or `"` in the output; every `&` starts `&amp;`, `&quot;`, `&lt;` or `&gt;`; decoding gives back `safeText(str, "")`; empty exactly when that is empty |
| TextHelpers.EscapeHtml | js/main.js:91-98 | no `<`, `>`, `"` or `'`; every `&` starts one of the five entities; decoding gives back `safeText(str, "")`; empty exactly when that is empty |
| Cards.DetailsText | js/main.js:107 | the expanded description encodes the raw description character by character: a line feed becomes `<br>` and every other character its `escapeHtml` entity, so a literal "<br>" in the text stays text; it decodes to the description with line feeds turned into `<br>`, holds no line feed, `"` or `'`, and every `<` in it starts `<br>` |
| Cards.LiteralBreakStaysText | js/main.js:107 | the description text "<br>" is shown as `&lt;br&gt;`, while a line feed becomes the `<br>` tag |
| Cards.BreaksAfterEscape | js/main.js:107 | `escapeHtml` followed by `replaceAll("\n", "<br>")` is the per-character encoding that sends a line feed to `<br>` and every other character to its entity |
| Cards.DetailsDecode | js/main.js:107 | escaping and then turning line feeds into `<br>` decodes to the raw text with its line feeds turned into `<br>` |
| Cards.LinkOf | js/main.js:117 | no link text for a falsy `listing_url`; otherwise its `String`, so a string link is used as it is |
| Cards.Caption | js/main.js:122 | the price, then " • Host: ", then the host name |
| Cards.CardOf | js/main.js:100-202 | a card renders exactly when the parsed amenities are an array |
| Cards.CardIdentity | js/main.js:101-146 | the card's id is the listing identifier; its `data-id` attribute decodes back to it; the heart is filled exactly for favourites |
| Cards.Badges | js/main.js:114 | `min(6, n)` badge texts, the first amenities in order, each as `safeText` |
| Cards.MoreCount | js/main.js:115 | badges plus the "+N more" count make `n`; the count is positive exactly when `n > 6` |
| Cards.CardBadges | js/main.js:113-115 | `min(6, n)` badges, the first amenities in order as `safeText`; badges plus "+N more" make `n`; the "+N more" badge appears exactly when `n > 6` |
| Cards.SevenAmenities | js/main.js:113-115 | seven amenities give six badges and "+1 more" |
| Cards.CardAttributes | js/main.js:104-122 | name, price and host fall back to "Untitled", "N/A" and "Unknown host"; the image, host image, title and caption attributes decode to the chosen pictures, the name and `price • Host: hostName` |
| Cards.CardLink | js/main.js:191-196 | no link text gives href "#"; the link is disabled and labelled "No link available" exactly when there is no link text; otherwise the href decodes to the link |
| Cards.FieldlessListing | js/main.js:100-202 | a listing whose fields are all `undefined` still renders, as "unknown__nohost" with "Untitled", "N/A", "Unknown host", "No description provided.", no badges and the disabled "#" link |
| Cards.MissingLink | js/main.js:191-196 | a falsy `listing_url` gives "#", the disabled link and "No link available" |
| Cards.EmptyArrayLink | js/main.js:117 | an empty array as `listing_url` is truthy, yet gives the disabled link |
| Cards.CardDescription | js/main.js:171-181 | with no description both parts show "No description provided."; otherwise the summary decodes to `shortDesc` of it, holds no `<`, `>`, `"` or `'`, and has `&` only as the start of an entity; the details are the description encoded with line feeds as `<br>` and every other character escaped |
| Cards.MapRendered | js/main.js:206 | `map` over a function that may throw: all results in order, or a throw exactly when some element throws |
| Cards.CardsOf | js/main.js:206 | the page renders exactly when every card does, and then holds the cards of the listings one for one, in order |
| Favorites.StringifyAll | js/main.js:39 | `arr.map(String)`: same length, each element stringified |
| Favorites.LoadFavorites | js/main.js:33-43 | empty for a missing, empty, unparseable or non-array slot; otherwise exactly the stringified elements, without repeats |
| Favorites.LoadFavoritesOrder | js/main.js:39 | the loaded identifiers come in the order of their first occurrences in the stored array |
| Favorites.SavedSlot | js/main.js:46 | the slot holds the array of the identifier strings, one per identifier, in set order |
| Favorites.LoadSaved | js/main.js:45-47 | loading what `saveFavorites` wrote gives the same identifiers in the same order |
| Favorites.Toggled | js/main.js:49-51 | `id` flips membership; every other identifier keeps its membership |
| Favorites.ToggleTwice | js/main.js:49-51 | toggling the same id twice restores the set |
| Favorites.ToggledOrder | js/main.js:49-51 | the set's order after the toggle has no repeats and holds exactly the toggled set |
| Favorites.ToggleTwiceFresh | js/main.js:49-51 | adding and then removing a new id restores the order |
| Favorites.ToggleTwiceMovesToEnd | js/main.js:49-51 | removing and re-adding a favourite moves it to the end of the order |
| Favorites.ToggleTwiceReorders | js/main.js:49-53 | favourites [a, b]: toggling a twice saves [b, a] |
| Favorites.FavoriteStore.constructor | js/main.js:18 | the store starts empty over the given slot |
| Favorites.FavoriteStore.Load | js/main.js:294 | the set becomes what `loadFavorites` reads from the slot; the slot is untouched |
| Favorites.FavoriteStore.Save | js/main.js:45-47 | the slot holds the array of identifiers in set order and loads back to them |
| Favorites.FavoriteStore.Toggle | js/main.js:49-53 | the set becomes the toggled set and stays valid; the slot is rewritten and loads back to the new set |
| Catalog.Catalog.constructor | js/main.js:17 | the page state starts with no listings and no cards |
| Catalog.Catalog.ApplyAndRender | js/main.js:209-233 | draws the cards of the first 50 listings of the view, and sets the status to the shown count, the filtered count and the favourites count; when a card throws, cards and status stay as they were |
| Catalog.Catalog.LoadData | js/main.js:293-310 | reloads the favourites from the slot; a failed fetch shows the failure text; otherwise it stores the listings and renders them, showing the failure text when rendering throws |
| Catalog.Catalog.OnFavoriteClick | js/main.js:259-266 | an empty `data-id` changes nothing, the favourites order included; otherwise the set and its order are toggled and saved, and the page redraws against the new set, with the status line of `applyAndRender`, or keeps its cards and status when a card throws |

## Left out

- The DOM: element lookup, `innerHTML`, the HTML text of the cards, event listeners, keyboard handling, the preview modal and the `onerror` image fallbacks. Only the data the cards carry is modelled.
- `fetch`, `async`/`await` and `console.error`. A fetch is a parameter of `LoadData` that has either failed or delivered a sequence of listings.
- The "Loading data..." status shown while the fetch is pending: with the fetch as a parameter no state after `LoadData` shows it, since every path overwrites it.
- A fetched body that is not an array: the script stores it, `slice`/`filter`/`map` throw, and the failure text shows; that path is not modelled. An element that is a number, string, boolean or array reads every field as `undefined`, so it renders like a `Listing` whose fields are all `Undefined` (`Cards.FieldlessListing`).
- Null entries in the listing array, and a missing status element (`if (statusText)`).
- `localStorage.setItem` failures, such as a full quota: `saveFavorites` does not catch them, and `Save` always succeeds here.
- A missing `data-id` attribute (`getAttribute` returning `null`). It is treated like the empty string, which the handler also ignores.
- `JSON.stringify`/`JSON.parse` of the favourites array are not modelled as text. The slot holds the parsed array, so saving and loading round-trips by construction.
- Floating-point numbers, `-0` and `Infinity`: numbers are integers.
- Listings.GetListingId: `String(id)` is modelled exactly only for ids of magnitude at most 2^53. JavaScript holds a larger id as the nearest double and prints its shortest round-trip digits (2^60 prints as "1152921504606847000"), with exponent form from 1e21. The model prints the exact decimal.
- Strings are sequences of characters, not UTF-16 code units. So `shortDesc` counts characters, and may differ from the script on text outside the Basic Multilingual Plane.
- Strings.Lower: lowercases ASCII letters only, not the full Unicode mapping of `toLowerCase`.
- `Unescape` is entity decoding only: it decodes the five entities the escapers produce, not the full HTML entity table, and it leaves out the HTML parser's other input rewrites (CR and CRLF become LF, NUL becomes U+FFFD). So a `data-id` holding a CR reads back with a CR here, where a browser reads a LF.
- Cards.CardLink: states only that an empty link gives "#", because the link text "#" also gives "#".
- The card's favourite-button style names and heart glyphs. They follow `isFavorite`.
