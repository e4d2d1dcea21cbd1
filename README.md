# flight_connections, modelled in Dafny

`flight_connections` finds the cheapest way to fly between two airports of a
low-cost carrier in a given month. It takes direct flights, and journeys with
one change of plane whose layover lies within a given number of days. It asks
the carrier's public API for three things:
- the airports;
- the direct destinations of each airport;
- the cheapest fare per day on each route.

It then lists every itinerary, sorted by price.

This project models the core of that program and proves properties of the
model:

- **Flight search** (`flight_search.py`, module `FlightSearch`, with
  `DateTimes` for the timestamps).
  - `parse_datetime` tries three `strptime` layouts in order. `DateTimes`
    models the layouts character by character, including the directive
    ranges, the case-insensitive literals, the right-padded `%f` and the
    `datetime` constructor's calendar checks.
  - `get_flight_data` guards on the route and builds one leg per available
    fare.
  - `find_best_routes` has four parts:
    - the direct pass;
    - the discovery of connecting airports through a set intersection;
    - the cross product of first and second legs, filtered by the layover
      window;
    - the final sort by price.

  The loops of `find_best_routes` are methods with loop invariants. Each is
  proved equal to a function, and the properties are proved about those
  functions.
- **Airport choices and file cleanup** (`utils.py`, modules `AirportChoices`
  and `FileCleanup`).
  - `get_airport_choices` has a filtering loop followed by Python's stable
    `sorted`, modelled as a stable insertion sort on code-point string order.
  - The deletion rule of `clear_old_files` is modelled over a directory
    listing given as input.
- **Translations** (`localization.py`, module `Localization`).
  - The three-language table is a constant: `TRANSLATIONS`, built from `IT`,
    `EN` and `SC`.
  - `get_translation` is modelled with its two fallbacks.
  - `str.format(**kwargs)` follows CPython's tokenizer: literal text, `{{`
    and `}}`, and fields with `!conversion` and `:spec`.
  - The missing-parameter and other-error recoveries are modelled, including
    the `repr` of the missing key.

The upstream API is an input value, `FlightSearch.Upstream`. It holds the
airport list, the destination lists, and the fares of the month being
searched. A destination list or fare list that failed to download is the empty
list, as in the source, and so is a missing entry.

Timestamps are exact integer microseconds (`DateTimes.Micros`). Microseconds,
rather than seconds, keep the `%f` fraction. `DateTimes.MicrosOrder` shows the
count is one-to-one and preserves order. The layover test `0 < hours <= days * 24`
is therefore decided exactly: `0 < micros <= days * 24 * 3600 * 10^6`.

In five places the code does something a caller may not expect; the model
follows the code:

- A fare without a price is kept, with price `None`, not dropped.
- A fare date that matches no layout raises a `ValueError`. The handler in
  `get_flight_data` catches only request errors, so the ValueError aborts the
  whole search; it is not treated as an empty fare list. This is
  `SearchError.BadDate`.
- A connecting pair inside the window with a null price makes `None + price`
  raise a TypeError. The source does not drop that pair. This is
  `SearchError.MissingPrice`.
- A direct route whose leg has no price gets the total price `None`; it is
  sorted last.
- An empty result raises: `FlightSearch.FindBestRoutes` models the search as
  written, including the KeyError of the final sort. The evidently intended
  search, where an empty result is an empty table, is
  `FlightSearch.FindBestRoutesIntended` (see Findings).

## Model

| member | source | states |
|---|---|---|
| Common.Comprehension | flight_search.py:79-88 | a list comprehension never yields more results than inputs, and a failure is the error of some kept element |
| Common.ComprehensionSpec | flight_search.py:79-88 | a list comprehension whose element expression may raise fails exactly when some kept element fails, with the error of the first such element; otherwise it holds one result per kept element, in order |
| DateTimes.OrdinalCountsDays | flight_search.py:116 | the next calendar day has the next ordinal, across month and year ends, so differences of `Micros` count elapsed time |
| DateTimes.OrdinalOrder | flight_search.py:151-152 | an earlier date has a smaller ordinal |
| DateTimes.ClockOrder | flight_search.py:151-152 | the time of day of a valid value is less than one day, and orders hour, minute, second and microsecond lexicographically |
| DateTimes.MicrosOrder | flight_search.py:151-154 | microsecond counts order timestamps as `datetime` comparison does, and two timestamps have the same count only when they are equal |
| DateTimes.Step | flight_search.py:59 | one directive consumes at most the remaining text and keeps every field in its directive's range |
| DateTimes.Scan | flight_search.py:59 | matching a whole layout keeps every field in its directive's range |
| DateTimes.Build | flight_search.py:59 | the `datetime` constructor accepts only a valid calendar date and time (second at most 59, day within its month) |
| DateTimes.Strptime | flight_search.py:59 | a text accepted by a layout gives a valid `datetime` (calendar day, hours, minutes and seconds in range) |
| DateTimes.FirstMatch | flight_search.py:56-63 | succeeds exactly when some layout accepts the text, with the value of the first that does (all earlier ones reject it); otherwise fails with the error naming the text |
| DateTimes.ParseDatetime | flight_search.py:54-63 | the loop over the three layouts returns the first success, or the error when none accepts the text |
| DateTimes.ExtensionRejects | flight_search.py:59 | a layout that accepts a text is never accepted by that layout extended with a literal (strptime refuses unconverted data) |
| DateTimes.FormatsExclusive | flight_search.py:56 | no text is accepted by two of the three layouts, so the order of the layouts does not change the result |
| DateTimes.ParsedByItsLayout | flight_search.py:56-61 | a text one layout accepts is parsed to that layout's value |
| DateTimes.ScanRender | flight_search.py:59 | rendering a timestamp in a layout and matching the layout against it reads back exactly the fields the layout mentions |
| DateTimes.ReadBack | flight_search.py:59 | strptime of a rendered timestamp builds the timestamp from the fields the layout mentions |
| DateTimes.RoundTripFractional | flight_search.py:56-59 | a timestamp rendered as `%Y-%m-%dT%H:%M:%S.%fZ` parses back to itself |
| DateTimes.RoundTripWholeSecond | flight_search.py:56-59 | a timestamp rendered as `%Y-%m-%dT%H:%M:%S` parses back with zero microseconds |
| DateTimes.RoundTripDateOnly | flight_search.py:56-59 | a date rendered as `%Y-%m-%d` parses back at midnight |
| DateTimes.DateOnlyIsMidnight | flight_search.py:56-59 | whatever text the date-only layout accepts parses to midnight of that date |
| DateTimes.LayoutFields | flight_search.py:56 | which fields each of the three layouts sets |
| FlightSearch.LegPrice | flight_search.py:85 | a leg's price is the `value` of the fare's price object when that object is present (null stays null), and null when the object is absent or empty |
| FlightSearch.ParseInstant | flight_search.py:83-84 | a fare date parses exactly when `parse_datetime` accepts it, to the microsecond count of its value; otherwise the error names the text |
| FlightSearch.InstantOrder | flight_search.py:151-154 | parsed instants compare, and are equal, exactly as the parsed `datetime` values do |
| FlightSearch.LegOf | flight_search.py:80-86 | a leg is built exactly when both dates parse, the departure checked first; it runs between the requested airports with both parsed dates and the fare's price |
| FlightSearch.GetFlightData | flight_search.py:69-88 | without a direct route there are no legs, and no fare is consulted; the only error it raises is a bad date |
| FlightSearch.FlightDataSpec | flight_search.py:79-88 | on a direct route, the call raises exactly when an available fare has a bad date (with the first one's error); otherwise leg `i` is built from the `i`-th available fare |
| FlightSearch.LegsOfFlightData | flight_search.py:79-88 | every leg returned runs from `from_code` to `to_code`; on a direct route there is one leg per available fare, carrying that fare's price |
| FlightSearch.DirectRoutePrice | flight_search.py:85-118 | a direct route built from an available fare whose price value is `p` has total price `p` |
| FlightSearch.DirectRoute | flight_search.py:109-118 | a direct route has that leg only, layover 0 and the leg's price |
| FlightSearch.DirectRoutes | flight_search.py:108-118 | one direct route per leg, in order |
| FlightSearch.DirectOutcome | flight_search.py:104-121 | the direct pass raises exactly when there is a direct route and fetching its fares raises, always with a bad date; its routes are direct, with layover 0 |
| FlightSearch.CollectDirectRoutes | flight_search.py:108-118 | the append loop builds exactly the direct routes of the legs |
| FlightSearch.ConnectingRoute | flight_search.py:155-165 | a connecting route has both legs and the sum of their prices |
| FlightSearch.Row | flight_search.py:150-165 | the pairs of one first leg yield at most one route per second leg, and only ever raise the TypeError of an unpriced pair |
| FlightSearch.Pairs | flight_search.py:150-165 | the product of first and second legs only ever raises the TypeError of an unpriced pair |
| FlightSearch.RowSpec | flight_search.py:150-165 | the pairs of one first leg raise exactly when a pair inside the window is unpriced; otherwise every route comes from a pair inside the window and every such pair gives a route |
| FlightSearch.PairsSpec | flight_search.py:150-165 | the same for the whole cross product of first and second legs |
| FlightSearch.ConnectPairs | flight_search.py:150-165 | the nested loop over the product computes the product's routes, or stops at the first unpriced pair inside the window |
| FlightSearch.SecondLegAirports | flight_search.py:125-132 | an airport is a second-leg airport exactly when it is listed, is not the destination and flies to it |
| FlightSearch.CollectSecondLegAirports | flight_search.py:125-132 | the append loop over the airport list computes the second-leg airports |
| FlightSearch.ValidAirports | flight_search.py:124-135 | every connecting airport is reachable from the start, is a listed airport and is not the destination |
| FlightSearch.ValidAirportsExactly | flight_search.py:124-135 | a connecting airport is reachable from the start, is listed, is not the destination and flies to it |
| FlightSearch.ConnectorOutcome | flight_search.py:139-140 | the start and the end airport contribute nothing |
| FlightSearch.ConnectorOutcomeHasPairs | flight_search.py:139-148 | an airport contributes routes only when it is neither endpoint and both leg lists were fetched, and then it contributes their product |
| FlightSearch.ConnectVia | flight_search.py:139-165 | the loop body, with its `continue` skips, computes one airport's contribution |
| FlightSearch.BagPick | flight_search.py:138 | the routes of a set of connecting airports do not depend on the order of visiting them |
| FlightSearch.BagMembers | flight_search.py:138-165 | a route comes from the connecting pass exactly when some connecting airport contributes it |
| FlightSearch.ConnectAll | flight_search.py:138-165 | the loop over the set raises exactly when some airport raises, with that airport's error; otherwise it collects the routes of all airports |
| FlightSearch.InsertByPrice | flight_search.py:168 | inserting into a price-sorted table keeps it sorted and adds exactly that route |
| FlightSearch.SortByPrice | flight_search.py:168 | the sort by total price is ascending, with missing prices last, and is a permutation |
| FlightSearch.SortValuesAsWritten | flight_search.py:168 | as written, sorting succeeds exactly when there is a route |
| FlightSearch.EmptySearchRaises | flight_search.py:168 | a search with no direct route and no connecting airport raises in no pass and finds no route, so the sort as written raises, where the intended sort gives the empty list |
| FlightSearch.DirectRoutesWellFormed | flight_search.py:104-118 | every direct route goes from start to end over an existing direct route, with layover 0 and the leg's price |
| FlightSearch.ConnectingRouteWellFormed | flight_search.py:150-165 | a pair inside the window from a valid connecting airport gives a well-formed connecting route |
| FlightSearch.PairRouteWellFormed | flight_search.py:150-165 | every route of the product of one connecting airport is well formed |
| FlightSearch.ConnectorRoutesWellFormed | flight_search.py:138-165 | every route one connecting airport contributes is well formed |
| FlightSearch.SearchRoutesWellFormed | flight_search.py:100-165 | every route of the direct pass or the connecting pass is well formed |
| FlightSearch.NoPriceColumnNotRaised | flight_search.py:69-165 | the two passes never raise the KeyError of the sort |
| FlightSearch.CollectRoutes | flight_search.py:100-165 | the two passes raise exactly when the direct pass or a connecting airport raises (the direct pass checked first); otherwise they collect all routes of both, each well formed |
| FlightSearch.FindBestRoutes | flight_search.py:94-176 | as written: the search raises exactly when a pass raises or no route is found, the KeyError of the sort exactly in the second case; a pass that raises gives its own error (the direct pass's, else that of a connecting airport that raised); otherwise it returns all routes of both passes, sorted by price, each well formed |
| FlightSearch.FindBestRoutesIntended | flight_search.py:94-176 | as intended: the search raises exactly when a pass raises; otherwise it returns all routes of both passes, sorted by price, each well formed, and the empty list exactly when no route is found |
| FlightSearch.NoDirectWithoutRoute | flight_search.py:104-121 | without a direct route every result has two legs |
| FlightSearch.SearchIsComplete | flight_search.py:138-165 | every pair inside the window of a connecting airport with both leg lists non-empty is priced and in the result |
| AirportChoices.ChoiceOf | utils.py:39 | the choice is the code and the label `name (code)` |
| AirportChoices.Candidates | utils.py:35-39 | there are never more choices than airports |
| AirportChoices.CandidatesExactly | utils.py:36-39 | a choice is offered exactly for each airport whose code and name are both truthy |
| AirportChoices.LexLeTotal | utils.py:42 | any two labels are comparable |
| AirportChoices.LexLeTransitive | utils.py:42 | the label order is transitive |
| AirportChoices.LexLeReflexive | utils.py:42 | a label is not greater than itself |
| AirportChoices.Insert | utils.py:42 | insertion adds one element, the inserted choice, and keeps every other |
| AirportChoices.SortByLabel | utils.py:42 | the sort by label keeps the number of choices and exactly the same choices |
| AirportChoices.InsertSorted | utils.py:42 | insertion into a sorted list keeps it sorted and adds exactly that choice |
| AirportChoices.InsertStable | utils.py:42 | insertion places the choice after every choice with the same label |
| AirportChoices.SortByLabelSpec | utils.py:42 | the sort is ascending by label, a permutation, and keeps the input order among equal labels |
| AirportChoices.GetAirportChoices | utils.py:33-42 | exactly the eligible airports, relabelled, sorted by label, stably, and no more choices than airports |
| FileCleanup.ExpiredPaths | utils.py:54-63 | there are never more removals than entries |
| FileCleanup.ExpiredPathsExactly | utils.py:51-63 | a path is removed exactly when it joins the directory with a regular file whose age is strictly above the limit; other entries are never removed |
| FileCleanup.LaterRemovesMore | utils.py:50-63 | a later clock removes at least what an earlier one removes |
| FileCleanup.LongerLimitRemovesLess | utils.py:51-63 | a longer age limit removes at most what a shorter one removes |
| FileCleanup.ClearOldFiles | utils.py:44-67 | a missing directory removes nothing; otherwise the loop removes exactly the expired files, in listing order |
| Localization.Resolve | localization.py:108 | a field is replaced by its keyword's text, and a KeyError names the part of the field before any `.` or `[` when no argument of that name was given |
| Localization.Repr | localization.py:111 | the key in the `{e}` of a KeyError is quoted, with single quotes unless the key holds a single quote and no double quote, and its characters escaped for that quote |
| Localization.ReprQuotes | localization.py:111 | `it's` is shown as `"it's"`, and a key holding both quotes between single quotes with `'` escaped |
| Localization.ReprPlain | localization.py:111 | a key of printable ASCII without quote or backslash is shown between single quotes |
| Localization.FormatLiteralPrefix | localization.py:108 | text before the first brace is copied through unchanged |
| Localization.FormatBraceFree | localization.py:108 | a text without braces formats to itself, whatever the arguments |
| Localization.FormatEscape | localization.py:108 | `{{` and `}}` stand for one brace |
| Localization.FormatStrayClose | localization.py:108 | a single `}` is an error other than KeyError |
| Localization.FormatPlaceholder | localization.py:108-111 | `{name}` is replaced by the argument `name`, or raises KeyError naming it |
| Localization.FormatPositional | localization.py:108 | `{}` and `{0}` raise an error other than KeyError, because only keyword arguments are passed |
| Localization.Format | localization.py:108 | `text.format(**kwargs)`: a KeyError always names an argument that was not given |
| Localization.FormatBrace | localization.py:108 | from a brace on, a KeyError names an argument that was not given, and a single `}` is an error other than KeyError |
| Localization.FormatExtraArguments | localization.py:108 | arguments no field uses do not change a successful result |
| Localization.FormatOnePlaceholder | localization.py:108-111 | a text with one plain field is filled in, or raises KeyError naming the field |
| Localization.TextFor | localization.py:100-104 | the text is the language's entry for the key, the English entry for an unsupported language, and the key itself when there is no entry |
| Localization.Recover | localization.py:108-114 | every outcome the model renders gives a text: a formatted text as is, after a KeyError the raw text followed by ` (Missing format parameter: <repr of the key>)`, after any other error the raw text alone |
| Localization.GetTranslation | localization.py:97-114 | the formatted text when formatting succeeds; after a KeyError exactly the raw text followed by the missing-parameter note naming the key; after any other error exactly the raw text; `None` only for fields the model does not render |
| Localization.OtherErrorRawText | localization.py:112-114 | a formatting error other than KeyError returns the raw text |
| Localization.StrayCloseRawText | localization.py:108-114 | a text with a single `}` after brace-free text is returned raw |
| Localization.UnsupportedLanguage | localization.py:100-101 | an unsupported language is answered as English |
| Localization.UnknownKey | localization.py:104 | a key the language lacks is its own text and is formatted itself |
| Localization.PlainText | localization.py:104-108 | a text without braces is returned unchanged, whatever the arguments |
| Localization.OnePlaceholder | localization.py:104-111 | the text of the table is filled in, or followed by ` (Missing format parameter: 'name')` when the argument is not given |
| Localization.CountMessage | localization.py:104-111 | a `connections_found` text with one `{count}` field gives the count, or the missing-parameter note |
| Localization.ConnectionsFoundEnglish | localization.py:97-111 | in English, the message is `✅ <count> connections found!` (localization.py:44), or the raw text with the note when `count` is missing |
| Localization.ConnectionsFoundItalian | localization.py:97-111 | in Italian, the message is `✅ <count> connessioni trovate!` (localization.py:13), or the raw text with the note when `count` is missing |
| Localization.ConnectionsFoundSardinian | localization.py:97-111 | in Sardinian, the message is `✅ <count> connessionis agiòbius!` (localization.py:75), or the raw text with the note when `count` is missing |
| Localization.TableLanguages | localization.py:1-95 | the table has exactly the languages `it`, `en` and `sc` |
| Localization.ItalianTable | localization.py:2-32 | the `it` table is `IT` |
| Localization.EnglishTable | localization.py:33-63 | the `en` table is `EN` |
| Localization.SardinianTable | localization.py:64-94 | the `sc` table is `SC` |
| Localization.SameKeysItalian | localization.py:2-63 | the Italian table defines exactly the English keys |
| Localization.SameKeysSardinian | localization.py:33-94 | the Sardinian table defines exactly the English keys |

## Left out

- HTTP requests, SSL and currency settings, the response caches, logging and the execution timer (flight_search.py:9-52). The upstream is an input value. A request that fails returns an empty list in the source, and is the empty list here.
- The `date` argument only selects the month of fares fetched. The model takes the fares of that month as input. The default `max_layover_days=3` is an ordinary parameter.
- Display fields (`strftime` strings, layover and duration as float hours rounded to one decimal). Times are handled in exact microseconds instead.
- FlightSearch.ConnectingRoute: prices are exact reals, so IEEE rounding of the float sum is not modelled.
- A fare record that lacks a key (`KeyError` on `f["price"]` and similar), and fields of types other than strings and objects. Fare records are typed here.
- An airport entry without an `iataCode` key, which makes flight_search.py:129-130 raise KeyError. `Upstream.airports` is a list of codes, so every entry has one.
- DateTimes.Step: the `strptime` of `%Y`, `%m` and similar directives also accepts non-ASCII Unicode digits. Only ASCII digits are modelled.
- FlightSearch.SortByPrice: `sort_values` uses pandas' default unstable sort, so the order of routes of equal price is left unspecified. The model sorts and promises only order and permutation. The result is a sequence of routes, not a table.
- FlightSearch.ConnectAll: the iteration order of a Python set is left unspecified (a nondeterministic choice). The result is specified as a multiset.
- Localization.GetTranslation: returns `None` for a field with an attribute or index (`{a.b}`, `{a[0]}`), a `!r` or `!a` conversion, or a non-empty format spec on a supplied argument. Those results depend on the argument's Python type, which the model does not have. All other texts are formatted, and every text of the table has only plain fields.
- Localization.Resolve: a field name is positional only when it is made of ASCII digits. CPython also takes any other Unicode decimal digit (`{١}`) as a positional index, which raises IndexError and gives the raw text; the model looks such a name up as a keyword.
- Localization.Repr: escapes the ASCII controls, DEL and the Latin-1 controls, U+00A0 and U+00AD, like Python's `repr`. It does not escape the non-printable characters above U+00FF.
- Keyword arguments are the strings `str()` gives for their values. A keyword named `language` or `key` cannot reach `get_translation` in Python (the call raises TypeError for the duplicate argument); the model's `kwargs` map does not exclude these names.
- FileCleanup.ClearOldFiles: the defaults `directory="downloads"` and `max_age_hours=24` (utils.py:44) are not modelled; both are ordinary parameters.
- `save_to_excel` (spreadsheet output) and the file-system calls of `clear_old_files`: `os.path.exists`, `os.listdir`, `os.path.isfile` and `os.path.getmtime` are an input listing, and `os.remove` is the output sequence. A path that exists but is not a directory, for which `os.listdir` raises NotADirectoryError (utils.py:54), is not modelled: the listing is either absent or a directory's entries. The failure message printed for a removal that fails is not modelled.
- app.py (user interface, session state, feedback storage) is not part of this model.

## Findings

| source | as written | input that shows it | evidently intended | confidence | as-written member | corrected member |
|---|---|---|---|---|---|---|
| flight_search.py:168 | `pd.DataFrame(routes).sort_values(by="Total Price (€)")` builds a table without columns when `routes` is empty, and sorting it by the price column raises KeyError | `Upstream([], map[], map[])` with a search from DUB to BCN: no direct route and no connecting airport (`FlightSearch.EmptySearchRaises`) | an empty result is a valid outcome, and the caller tests `df.empty` | not executed | FlightSearch.FindBestRoutes | FlightSearch.FindBestRoutesIntended |
