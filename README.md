# CafeFinder core in Dafny

CafeFinder is a single-page web app. It puts a map on the page, finds the
visitor's position (or falls back to Kolkata), asks the Overpass API for cafes
and other eateries around it, and lists them twice: as markers on the map and
as cards in a grid. A search box geocodes a place name and repeats the search
there. This project models the part of `js/app.js` that does not depend on the
browser. It covers three things:

- the HTML escaper `escapeHtml`;
- how one place becomes a marker popup and a card (the name and address
  fallbacks, the numbered title and the count line);
- the state one render cycle changes: the marker list, the map's layers, the
  card grid with its active card, the grid message, the loader and the
  current location.

There are five modules:

- `Wrappers` holds `Option`.
- `Text` holds the string helpers the page relies on: the decimal rendering
  of a number inside a template string, JavaScript's `String.prototype.trim`,
  and counting and searching characters.
- `HtmlEscape` holds the escaper and a decoder for the eight character
  references it writes.
- `Places` holds the place record and the view model derived from it.
- `CafeFinder` holds `Session`, a class whose fields are the module globals
  and the parts of the page the handlers change. Its methods are the
  handlers and helpers of `js/app.js`.

Each text the page writes has a reader in the model: `ParseTitle`,
`ParseCount`, `ParsePopup` and `Unescape`. The main properties are
round trips through those readers.

The network is a parameter. `overpass: Coord -> FetchOutcome` answers the
place query at a coordinate, with either the element list or `Failure`.
`geocode: string -> Option<seq<Coord>>` answers a search. Its value is `None`
when the request itself fails: the source does not catch that, so nothing
changes. Map layers are marker ids. `nextMarker` hands out fresh ids, so that
markers from different renders can be told apart.

## Model

| member | source | states |
|---|---|---|
| HtmlEscape.Entity | js/app.js:188-197 | Each replacement is 4 to 6 characters long, begins with `&`, ends with `;`, and holds no further `&` and no raw markup character. |
| HtmlEscape.EscapeChar | js/app.js:187-197 | A special character becomes exactly its reference from the table. Any other character is copied as itself. Either way no markup character comes out. |
| HtmlEscape.EscapeHtml | js/app.js:185-199 | The empty text escapes to the empty text, and the output is never shorter than the input. |
| HtmlEscape.EscapeNoMarkup | js/app.js:187-197 | No `<`, `>`, `"`, `'`, backquote, `=` or `/` appears anywhere in escaped text. |
| HtmlEscape.AmpersandBeginsEntity | js/app.js:187-197 | Every `&` in escaped text is the start of one of the eight references. |
| HtmlEscape.EscapeConcat | js/app.js:187-198 | Escaping works character by character, in order: escaping `a + b` gives the escape of `a` followed by the escape of `b`. |
| HtmlEscape.EntityPrefix | js/app.js:188-197 | A recognised reference belongs to a special character of the table, and the text starts with it. Text that does not start with `&` starts with no reference. |
| HtmlEscape.EntityPrefixOf | js/app.js:188-197 | No reference is a prefix of another, so the reference written for `c` is read back as `c`, whatever follows it. |
| HtmlEscape.Unescape | js/app.js:188-197 | Decoding never lengthens a text. |
| HtmlEscape.UnescapeEscape | js/app.js:185-199 | Round trip: decoding escaped text gives back the original text. |
| HtmlEscape.EscapeInjective | js/app.js:185-199 | Two texts with the same escape are equal. |
| HtmlEscape.EscapeIdentityIff | js/app.js:185-199 | Escaping leaves a text unchanged if and only if it holds no special character. The same condition decides whether the length is unchanged. |
| Text.NatToString | js/app.js:170 | The decimal numeral of `n` is non-empty and all digits. It starts with `0` exactly when `n` is 0. |
| Text.DecimalRoundTrip | js/app.js:170 | Reading the numeral back gives `n`. |
| Text.NatToStringInjective | js/app.js:170 | Different numbers have different numerals. |
| Text.TrimStartShape | js/app.js:43 | `TrimStart` removes a whitespace prefix, keeps the rest as a suffix of the input, and stops at a non-whitespace character. |
| Text.TrimEndShape | js/app.js:43 | `TrimEnd` removes a whitespace suffix, keeps the rest as a prefix of the input, and stops at a non-whitespace character. |
| Text.TrimBlankIff | js/app.js:43-44 | The trimmed query is empty if and only if the input is entirely whitespace, by JavaScript's definition of whitespace. |
| Text.TrimShape | js/app.js:43 | A non-empty trimmed query neither begins nor ends with whitespace. |
| Places.DisplayFallbacks | js/app.js:115-116 | The name shown is the `name` tag when present and non-empty, otherwise "Unnamed Cafe". The address shown is the `addr:street` tag under the same rule, otherwise "Address unavailable". Neither is ever empty. |
| Places.TitleRoundTrip | js/app.js:141 | The card title reads back as the 1-based rank `index + 1` and the unescaped display name. |
| Places.CountTextRoundTrip | js/app.js:169-171 | The count line "n cafes found" reads back as `n`. |
| Places.ParsePopupOf | js/app.js:121 | Popup markup around a name with no `<` splits back into that name and its address (both decoded). |
| Places.PopupRoundTrip | js/app.js:121 | The escaped popup reads back as exactly the name and address that were rendered, whatever they contain. |
| Places.PopupMarkupFixed | js/app.js:121 | The escaped popup holds exactly three `<`, those of its own three tags, for every name and address. |
| Places.PopupAsWrittenMarkup | js/app.js:121 | The popup as the source writes it holds three `<` plus every `<` of the name and of the address. |
| Places.PopupAsWrittenInjects | js/app.js:121 | As written, every `<` of the name reaches the popup markup unescaped, beyond its three own. One followed by a letter (`<img …>`) opens a tag of its own. |
| Places.PopupAsWrittenAgrees | js/app.js:119-121 | When neither the name nor the address holds one of the eight special characters, the popup as written is the same text as the escaped popup, so the correction changes nothing for them. |
| Places.PopupAsWrittenReadBackFails | js/app.js:119-121 | As written, the reader `ParsePopup` cannot recover a name holding a `<` from the popup. |
| Places.MarkerCardAgree | js/app.js:113-149 | A place's marker and its card show the same display name and the same display address. The card is numbered `index + 1`. |
| Places.MarkersFor | js/app.js:91-95 | One marker per element. |
| Places.MarkersForAt | js/app.js:91-95 | Marker `i` is the marker of element `i`, with id `base + i`. |
| Places.MarkersForSnoc | js/app.js:92-94 | Rendering one more element appends exactly its marker. |
| Places.CardsFor | js/app.js:91-95 | One card per element. |
| Places.CardsForAt | js/app.js:91-95 | Card `i` is the card of element `i`, with index `i`, tied to marker `base + i`. |
| Places.CardsForSnoc | js/app.js:92-94 | Rendering one more element appends exactly its card. |
| Places.RenderView | js/app.js:84-106 | A successful answer gives as many markers and cards as elements, and the count of elements. No message is shown exactly when the list is non-empty. An empty list shows the notice `NoCafesNearby`. A failure shows the notice `FetchFailed`, no cards and the count 0. The two notices stand for the texts "No cafes found nearby." and "Failed to fetch cafes." of js/app.js:99 and :105, which `NoticeText` gives. |
| Places.RenderViewCorrespondence | js/app.js:91-95 | Index correspondence: marker `i` and card `i` come from element `i`. They share the element's position and the marker id. Card `i` has index `i` and a title reading back as rank `i + 1` with the element's name. The popup reads back as its name and address. The count reads back as the number of elements. |
| Places.RenderViewNothing | js/app.js:96-104 | An empty answer or a failure leaves no marker and no card, shows a message, and the count reads back as 0. |
| Places.UnnamedPlain | js/app.js:131 | The fallback label "Unnamed Cafe" needs no escaping. |
| Places.UnnamedTitle | js/app.js:141 | The second card of a place without a name is titled "2. Unnamed Cafe". |
| Places.TwoCafesExample | js/app.js:91-95 | Two elements, the second unnamed: the count line is "2 cafes found" and the second card is titled "2. Unnamed Cafe". |
| CafeFinder.RenderTwice | js/app.js:66-68 | Over two renders in a row, the layers the first put on the map are exactly its markers'. After the second, none of them is on the map, no card is active and the loader is hidden. |
| CafeFinder.MarkersForIds | js/app.js:119-122 | The markers of a render get ids from `base` on, so none of them is an earlier marker. |
| CafeFinder.Session.constructor | js/app.js:2-4 | Before anything runs there are no markers, no map layers, no cards, no active card, no message and no current location. |
| CafeFinder.Session.ShowLoader | js/app.js:173-183 | The loader and the grid are shown alternately. |
| CafeFinder.Session.UpdateCount | js/app.js:169-171 | The count line becomes "n cafes found". |
| CafeFinder.Session.ClearMarkers | js/app.js:163-167 | Every marker of the list leaves the map, leaving no layer. The list is reset and the grid is emptied. |
| CafeFinder.Session.ShowNotice | js/app.js:96-104 | The grid holds the message and no card. |
| CafeFinder.Session.CreateMarkerAndCard | js/app.js:113-160 | The place's marker (a fresh id) is added to the map and to the end of the list. Its card, tied to that marker, is added to the end of the grid, and marker `i` still belongs to card `i`. |
| CafeFinder.Session.FetchAndRender | js/app.js:65-109 | The page ends showing exactly `RenderView` of the answer at `location`. The loader is hidden and the grid shown on every path. No active card is left. None of the previous map layers remains. |
| CafeFinder.Session.RenderOutcome | js/app.js:84-106 | On a cleared page, the success, empty and failure branches produce `RenderView` of the answer. New marker ids are numbered from the first fresh id. |
| CafeFinder.Session.RenderPlaces | js/app.js:91-94 | The `forEach` leaves one marker and one card per element, in element order. |
| CafeFinder.Session.AppendPlace | js/app.js:92-94 | One step of the `forEach`: element `i` joins both lists, and they still describe the first `i + 1` elements. |
| CafeFinder.Session.ClickCard | js/app.js:152-157 | After a click on card `i`, card `i` is the only active card. The popup opened is marker `i`'s, and the map is centred on the card's place. |
| CafeFinder.Session.OnGeolocated | js/app.js:19-23 | The device position becomes current and the page is rendered there. |
| CafeFinder.Session.OnGeolocationUnavailable | js/app.js:24-31 | The default location becomes current and the page is rendered there. |
| CafeFinder.Session.OnSearch | js/app.js:42-47 | A query that trims to nothing sends no geocoding request. It re-renders at the current location, or at the default location when there is none, and keeps the current location. Otherwise the trimmed query is what gets searched for. |
| CafeFinder.Session.SearchFor | js/app.js:49-61 | A found location becomes current and is rendered. An empty answer raises the alert and changes nothing. A failed request changes nothing. |

## Left out

- Leaflet: the map, its tiles, zoom levels and `setView` are not modelled. A marker is an id in the `mapLayers` set. The popup that a card click opens, and the point the map centres on, are results of `ClickCard` rather than map state.
- Network and JSON: `fetch`, `res.json()`, `encodeURIComponent` and both request URLs are replaced by the `overpass` and `geocode` parameters. The Overpass query text is built from float coordinates, and `parseFloat` reads the geocoder's answer. Coordinates are opaque `real` pairs and are never computed with.
- Geolocation is asynchronous. Its two outcomes are two methods that set the current location and render: `OnGeolocated` and `OnGeolocationUnavailable`.
- Concurrency: two searches in flight at once can interleave their renders. Each handler is modelled as running to completion.
- Presentation: CSS and inline styles, the image URL, the directions link, the text of `alert` (only whether it is raised) and `console.error` are left out.
- The card and popup markup is reduced to the fields that carry data: the title, the address line, the image alt text and the popup body.
- Place tags are assumed present. For an element without `tags`, `place.tags.name` throws a TypeError in the middle of the `forEach`. The `catch` at js/app.js:102 takes it and replaces the half-built grid with "Failed to fetch cafes." (js/app.js:104-105). The markers already pushed stay on the map and in `markers`, and the count stays "0 cafes found". The source then holds more markers than cards, which `Session.Valid` (`|markers| == |cards|`) rules out. This path is not modelled.
- `escapeHtml`'s `!text` guard and its `toString()` for non-strings are left out. The model takes strings only, and for those the guard only maps the empty string to itself.
- Text.NatToString: renders every count as plain decimal digits; JavaScript would switch to exponent notation from 10^21 on, which the model does not capture.
- The loader, the count line and the grid before the first render are set by the HTML page, which is not part of this model. The constructor starts with the loader hidden and the count line empty.
- Strings: Dafny's `string` holds Unicode scalar values, while JavaScript strings are UTF-16 code units, so lone surrogates cannot be represented. No modelled behaviour depends on this: the eight special characters and all trim whitespace are single BMP code units.
- The address falls back when `addr:street` is missing and also when it is the empty string (`||` at js/app.js:116 and :132).
- MarkerFor: builds every marker with the escaped popup `PopupHtml` (the correction below). The source binds the unescaped popup written by `PopupHtmlAsWritten` at js/app.js:121. So every marker in the model is the corrected one. The two popups are equal when the name and address hold none of the eight special characters (`PopupAsWrittenAgrees`).
- MarkerCardAgree: its popup clause holds for the corrected popup only. As written, the popup does not read back for a name holding a `<` (`PopupAsWrittenReadBackFails`) or an entity-like `&`.
- RenderViewCorrespondence: its popup read-back clause holds for the corrected popup, for the same reason. It does not hold for the source's raw popup.
- CreateMarkerAndCard: appends a marker that carries the corrected popup, not the raw one js/app.js:121 binds. The same holds for `MarkersFor`, `MarkersForAt`, `RenderView`, `RenderOutcome` and `FetchAndRender`, which are all built on `MarkerFor`.

## Findings

| source | as written | input that shows it | evidently intended | confidence | as-written member | corrected member |
|---|---|---|---|---|---|---|
| js/app.js:121 | The marker popup interpolates the display name and address without escaping, unlike the card built from the same values. | A place whose `name` tag is `<img src=x onerror=alert(1)>`: the popup gains an image tag whose handler runs. | Escape the name and address in the popup as the card does, so that the popup's only markup is its own `<b>`, `</b>` and `<br>`. | not executed | Places.PopupAsWrittenInjects | Places.PopupMarkupFixed |

The model builds its markers with the corrected `PopupHtml`. The source's form
is `PopupHtmlAsWritten`. `Places.PopupRoundTrip` shows that the corrected
popup still shows exactly the name and address it was given, and
`Places.PopupAsWrittenReadBackFails` that the reader `ParsePopup` cannot
recover such a name from the popup as written.
