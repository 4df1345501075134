# Mudo stock lookup: the extraction pipeline, modelled and verified in Dafny

`scrape_mudo_stock` (app.py) fetches the stock lookup page of a product
barcode and turns the parsed HTML into a structured result. It finds:

- the product title, by a fallback chain: heading, script variable, table caption row, `<title>`;
- the product details (code, price, sale status, discount), in three passes where each later pass overwrites;
- the colour/size variants, from tables whose headers mention a variant column;
- the per-store stock list. Table rows, div regex matches and positionally paired spans give raw candidates. A whitelist, shape and duplicate filter cleans them. A reordering then puts the "Vadistanbul City" store first and cleans up every other store name;
- `total_filtered`, the number of raw candidates that did not reach the final list.

This project models that extraction once the page is parsed. The page is a
`Page.Document` value: the `<title>` text, the heading texts, the per-script
title-pattern captures, the free-text elements with their regex captures, the
`<input>` fields, the tables as header texts and rows of cell texts, the div
store/stock matches and the span texts. The headings, free-text elements,
inputs, tables and spans are in document order. The script captures are per
script in document order and, within a script, in the order of the pattern
list. The div matches are in the order they are found.

Each stage of the Python function is an imperative Dafny method with the
source's loops, `break`s and `continue`s, appends and dictionary writes. Its
`ensures` ties the result to a specification function. Lemmas then prove what
the program promises about those functions: filtering, first-occurrence
deduplication, order preservation, the priority-first rule, variant validity,
title precedence and detail overwrite order.

Modules:

- `Wrappers`: `Option`.
- `Seqs`: filter-map, first match, flattening, first element of each key.
- `Text`: Python's `lower`, `strip`, `in`, `\d` searches and `re.sub(r'\s+', ' ', ...)`.
- `Page`: the document.
- `TitleResolver`, `DetailScanner`, `VariantScanner`, `CandidateSources`, `CandidateFilter`, `PriorityReorder`: the pipeline stages.
- `Scraper`: the assembled result.

Three behaviours of the code worth knowing:

- The final list can hold two entries with the same (lowercased name, stock). Deduplication (app.py:347-351) keys on the lowercased, stripped name, before whitespace runs are collapsed (app.py:367-369). So "Ankara  Mall" and "Ankara Mall" with the same stock both survive, under the same name. `Scraper.SpacingDuplicatesSurvive` proves this on that input, and `CandidateFilter.FilteredDistinct` states the property that does hold.
- A details row captioned like "Satış Fiyatı" with an empty value cell fails the price test (app.py:176) and falls into the status test (app.py:178), so it sets the sale status to "". A "Ürün No" row with an empty value likewise sets the product code to "". `DetailScanner.EmptyPriceRowClearsStatus` and `DetailScanner.EmptyCodeRowClearsCode` state both.
- A table row whose second cell (td or th) mentions "stok" but holds no digit becomes a raw candidate (app.py:236). The filter's digit test (app.py:340) always drops it, so it only raises `total_filtered`.

## Model

| member | source | states |
|---|---|---|
| TitleResolver.FindHeadingName | app.py:64-68 | the result is the stripped text of the first h1-h3 heading longer than 5 characters that mentions neither "stok" nor "mudo" in any case, and None when there is none |
| TitleResolver.FindScriptName | app.py:71-91 | the result is the first script pattern capture longer than 5 characters, scripts in order and patterns in order within a script, and None when there is none |
| TitleResolver.FindTableName | app.py:94-109 | the result is the stripped second cell of the first row, tables in order, whose lowercased caption mentions "ürün ad", "model ad" or "isim" and whose value is longer than 5 characters |
| TitleResolver.ResolveTitle | app.py:54-116 | the title is the `<title>` text first, overridden by the heading, else script, else table-row name |
| TitleResolver.HeadingWins | app.py:61-113 | the first acceptable heading is the title whatever the scripts, tables and `<title>` hold; it is longer than 5 characters and mentions neither "stok" nor "mudo" |
| TitleResolver.ScriptBeatsTable | app.py:71-113 | with no acceptable heading, the first script name longer than 5 characters is the title, whatever the tables hold |
| TitleResolver.TableBeatsPageTitle | app.py:94-113 | with neither heading nor script name, the first caption row's value is the title, whatever `<title>` says |
| TitleResolver.PageTitleIsLastResort | app.py:54-116 | `<title>` decides exactly when the three searches fail; the title is absent exactly when they fail and `<title>` is missing, empty or "MUDO - Stok Sorgula" |
| DetailScanner.CodeWrite | app.py:127-131 | a free-text element writes only the product code, and does so exactly when the code pattern captured a group |
| DetailScanner.PriceWrite | app.py:134-137 | a free-text element writes only the price, exactly when the price pattern captured; the value ends in " TL" and has no comma before it |
| DetailScanner.StatusWrite | app.py:140-144 | a free-text element writes only the sale status, exactly when its lowercased text mentions "durum" and "açık" or "kapalı"; the value is "Satışta" when it says "açık", else "Satış Dışı" |
| DetailScanner.DiscountWrite | app.py:147-150 | a free-text element writes only the discount, exactly when digits follow `%`; the value starts with `%` and ends in " İndirim" |
| DetailScanner.InputWrites | app.py:154-162 | an input writes the price or the product code, never both, and only with an id or name and a non-empty stripped value; it writes the price exactly when the lowercased field name has "fiyat" and the value holds a digit, as that value plus " TL"; otherwise it writes the code exactly when the name has "kod", as the stripped value |
| DetailScanner.RowWrites | app.py:168-179 | a row writes at most one of code, price or status, only with two cells and always the stripped second cell: the code exactly when the lowercased caption has "ürün no" or "model no"; otherwise the price exactly when it has "fiyat" and the value is non-empty; otherwise the status exactly when it has "durum" or "satış" |
| DetailScanner.EmptyPriceRowClearsStatus | app.py:176-179 | a "Satış Fiyatı" row with an empty value fails the price test and writes an empty sale status |
| DetailScanner.EmptyCodeRowClearsCode | app.py:174-175 | a product-number row with an empty value writes an empty product code |
| DetailScanner.ScanElement | app.py:123-150 | the details after one element are the old ones overwritten by that element's writes |
| DetailScanner.ScanText | app.py:122-150 | the free-text pass yields the elements' writes applied in document order |
| DetailScanner.ScanField | app.py:155-162 | the details after one input are the old ones overwritten by that input's write |
| DetailScanner.ScanInputs | app.py:153-162 | the input pass applies the inputs' writes in order on top of the free-text details |
| DetailScanner.ScanRow | app.py:169-179 | the details after one row are the old ones overwritten by that row's write |
| DetailScanner.ScanRows | app.py:167-179 | the details after one table's rows are the old ones overwritten by each row's write, in order |
| DetailScanner.ScanTables | app.py:165-179 | the table pass applies every row's write, tables in order, on top of the input details |
| DetailScanner.ScanDetails | app.py:119-181 | the details are the free-text, input and table passes in that order |
| DetailScanner.OverwriteLookup | app.py:119-181 | after a pass a key is present iff it was before or some item writes it; the last writer's value wins, and an unwritten key keeps its value |
| DetailScanner.DetailsPrecedence | app.py:119-181 | a key any table row writes has the last such row's value; else a key any input writes has the last such input's value; else the last free-text writer decides; a key is present iff some pass writes it |
| VariantScanner.IsVariantHeader | app.py:191-195 | the table is a variant table iff its joined lowercased stripped header texts contain "renk", "beden", "mal no" or "barkod" |
| VariantScanner.ScanRows | app.py:199-223 | the variants of a table's body rows are appended, one per valid row in order |
| VariantScanner.ScanVariants | app.py:188-223 | the variants are those of every variant table, tables in order |
| VariantScanner.VariantsValid | app.py:201-219 | every variant has a non-empty stripped colour and size, an all-digit barcode of at least 10 characters, and the display name "colour - size" |
| VariantScanner.VariantProvenance | app.py:188-219 | a value is a variant iff some variant table has a row after its first row that passes the checks and yields that value |
| CandidateSources.ScanTableRows | app.py:228-240 | one table's rows add one candidate per row that passes the stock-row test, in order |
| CandidateSources.ScanStockRows | app.py:226-240 | the table strategy's candidates are those of every table's rows, in order |
| CandidateSources.TableCandidateMember | app.py:230-240 | a candidate comes from the tables iff some row has two cells, a non-empty first cell and a second cell holding a digit or "stok", and the candidate is those two stripped cells |
| CandidateSources.ScanDivMatches | app.py:253-262 | the div strategy keeps each match whose stripped name has 3 to 49 characters, stripped, in order |
| CandidateSources.PairSpans | app.py:265-284 | the span strategy pairs the i-th name span with the i-th number span |
| CandidateSources.SpanPairing | app.py:269-284 | span pairing yields min(names, numbers) candidates; the i-th joins the i-th name and number; every stock is all digits and every store is a non-number of 4 to 49 characters without "©" or "http" |
| CandidateSources.CollectCandidates | app.py:225-284 | the raw candidates are the table candidates, then the div candidates, then the span pairs |
| CandidateSources.RawCandidatesStripped | app.py:232-284 | every raw candidate's store and stock texts are stripped |
| CandidateSources.TableCandidateStripped | app.py:232-233 | every table candidate's texts are stripped |
| CandidateSources.DivCandidateStripped | app.py:256-257 | every div candidate's texts are stripped |
| CandidateSources.SpanCandidateStripped | app.py:270-283 | every span candidate's texts are stripped |
| CandidateFilter.MatchesWhitelist | app.py:329-333 | the name matches iff it contains one of the 41 whitelist words |
| CandidateFilter.CheckCandidate | app.py:325-345 | a candidate passes iff its lowercased stripped name is whitelisted and has 4 to 60 characters and its stripped stock holds a digit and has at most 10 characters |
| CandidateFilter.FilterCandidates | app.py:304-351 | the kept list is, in order, each candidate that passes and whose key (lowercased stripped name, stripped stock) no earlier kept candidate has |
| CandidateFilter.FilteredAccepted | app.py:324-345 | every kept candidate comes from the input and passes the whitelist, stock-shape and name-length tests |
| CandidateFilter.WhitelistWords | app.py:308-322 | every whitelisted word has at least 3 characters and no whitespace |
| CandidateFilter.AcceptedNameLength | app.py:324-369 | a candidate that passes the three tests keeps a name of 4 to 60 characters once stripped and single-spaced |
| CandidateFilter.FilteredDistinct | app.py:347-351 | no two kept candidates share a key |
| CandidateFilter.FilteredComplete | app.py:347-351 | every accepted candidate's key is represented among the kept ones |
| CandidateFilter.FilteredFirstOccurrences | app.py:324-351 | the kept list is a subsequence of the input at increasing positions, each an accepted candidate no earlier accepted candidate shares its key with |
| CandidateFilter.FilteredKeepsFirst | app.py:347-351 | the first accepted candidate with a given key is kept |
| PriorityReorder.Reorder | app.py:353-377 | the final list and priority store are the flagship entry, if any, followed by the other entries cleaned up |
| PriorityReorder.LastFlagshipIndex | app.py:357-364 | the flagship found is the last candidate naming "vadistanbul" and "city", and there is none exactly when no candidate does |
| PriorityReorder.PriorityFirst | app.py:357-377 | when some candidate is the flagship, the priority store is the last such candidate renamed "Vadistanbul City (183)" and flagged, and it is the first final entry |
| PriorityReorder.NoFlagshipNoPriority | app.py:354-377 | there is no priority store exactly when no candidate is the flagship, and then the final list is just the cleaned-up others |
| PriorityReorder.OnlyFirstIsPriority | app.py:360-377 | only the first final entry can be flagged, and only when there is a priority store |
| PriorityReorder.ReorderedLength | app.py:357-377 | the final list has one entry per non-flagship candidate plus one if any flagship exists: every earlier flagship match is dropped |
| PriorityReorder.OthersInOrder | app.py:365-377 | the entries after the priority one are the non-flagship candidates in their order, each with its name stripped and whitespace runs collapsed, stock unchanged, unflagged; none is skipped |
| PriorityReorder.ReorderedStockSource | app.py:357-377 | every final entry carries the stock text of some candidate |
| PriorityReorder.PriorityNameIsFlagship | app.py:363 | the canonical name itself names "vadistanbul" and "city" |
| PriorityReorder.CleanedNotFlagship | app.py:365-370 | cleaning up a non-flagship name never makes it mention both words |
| PriorityReorder.OneFlagshipEntry | app.py:357-377 | a final entry's name mentions both words exactly when it is the first entry and there is a priority store |
| Text.StripShape | app.py:325-326 | `strip()` removes leading and trailing whitespace only, leaving a text with non-whitespace ends |
| Text.StripIdempotent | app.py:325-326 | stripping twice is stripping once |
| Text.CollapseWellSpaced | app.py:367-369 | a cleaned-up name has no whitespace at its ends and only single plain spaces inside |
| Text.CollapseIdempotent | app.py:367-369 | cleaning up an already clean name changes nothing, and cleaning twice is cleaning once |
| Text.CollapseKeepsText | app.py:367-369 | cleaning up keeps every non-whitespace character, in order |
| Text.WordInStripped | app.py:330-369 | a stripped name of at least 4 characters holding a word of 3 or more non-space characters still has at least 4 characters after its whitespace runs are squeezed |
| Text.ContainsThroughCollapse | app.py:358-369 | a word without whitespace found in a cleaned-up lowercased name was in the lowercased original |
| Text.CollapseGap | app.py:369 | a run of whitespace between two words becomes one space |
| Scraper.ScrapeMudoStock | app.py:19-393 | the success result: the URL is the lookup prefix plus the barcode, the product info is the resolved title with the details, and the variants, final stock list, priority store and `total_filtered` are those of the stages |
| Scraper.TotalFilteredBounds | app.py:391 | final ≤ filtered ≤ raw, so `total_filtered` is never negative |
| Scraper.FinalStockValues | app.py:324-377 | every stock value in the final list holds a digit, has at most 10 characters and is stripped |
| Scraper.FinalStoreNames | app.py:343-370 | every store name in the final list has 4 to 60 characters |
| Scraper.SpacingDuplicatesSurvive | app.py:324-370 | "Ankara  Mall" and "Ankara Mall" with stock "5" both reach the final list as "Ankara Mall" with stock "5", since deduplication precedes the whitespace clean-up |
| Scraper.KeepBoth | app.py:347-377 | two accepted non-flagship candidates with different keys both reach the final list, cleaned up, in order |

## Left out

- The HTTP request, its headers and timeout, `raise_for_status` and the two exception handlers that build failure results (app.py:19-45, 395-408): network I/O and exception plumbing. The model is the success path only, and the result has no `success` flag.
- The Flask routes `static_files`, `index` and `search`: the web layer.
- BeautifulSoup parsing and `get_text`: the document is given as a `Page.Document` value.
- All `print` logging.
- The script-JSON strategy (app.py:286-301): it only logs and never adds a candidate.
- CandidateSources.ScanDivMatches: the three div store/stock regexes (app.py:247-254) are not modelled. Their matches are an input, and the model covers the name-length test and the stripping.
- DetailScanner.CodeWrite: the product-code label regex and code pattern (app.py:127-129) are not modelled. The captured group is an input of each element.
- DetailScanner.PriceWrite: the currency and digit tests and the price pattern (app.py:134-135) are not modelled. The captured group is an input.
- DetailScanner.DiscountWrite: the `%` and digit tests and the discount pattern (app.py:147-148) are not modelled. The captured digits are an input.
- TitleResolver.FindScriptName: the four script title regexes (app.py:77-85) are not modelled. The capture of each pattern in each script is an input.
- Text.Lower: Python's `lower()` is modelled on ASCII, the Latin-1 capitals, Ğ and Ş. Turkish İ, which Python lowers to two characters, and other scripts are left unchanged.
- Text.IsDigit: `\d` and `isdigit()` are modelled on ASCII digits; other Unicode digits are left out. Likewise `\s` and `strip()` are modelled on ASCII whitespace and \x1c-\x1f.
- PriorityReorder.Reorder: Python rewrites `item['store']` and `item['is_priority']` in place, so the returned `priority_store` is the same dictionary as the first final entry. The model builds new `StockEntry` values, equal but not shared.
- PriorityReorder.StockEntry: other entries carry `isPriority` false where the Python dictionary has no `is_priority` key.
- The variant loop's `try`/`except` (app.py:202-223): nothing in the modelled row handling can raise.
