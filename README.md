# Phone location lookup — verified model of its core

The application takes a phone number, works out an approximate place for it,
and shows that place on a map. It also keeps an in-memory store of live GPS
positions, keyed by share token. This project models the logic in `app.py`
that does not depend on a foreign library:

- **Prefix table** (`PrefixTable`). Loading the India prefix → telecom-circle
  table from CSV rows: a row is inserted only when both trimmed cells are
  non-empty, a later row overwrites an earlier one, and any exception leaves
  the table empty. The longest-prefix lookup `get_india_circle` tries lengths
  6, 5, 4 and 3.
- **Phone input** (`PhoneInput`). The submitted text is trimmed. Only digits
  and `+` are kept, a leading `00` becomes `+`, and the parse region is `None`
  for a `+` number and `"BD"` otherwise.
- **Location resolution** (`Resolution`). This builds the location and
  carrier lines and the detailed geocoding query, whether from an India circle
  or from the location line. Coordinates fall back from the detailed query to
  the country name and then to the fixed Dhaka point, with zoom 9 for a
  detailed hit and 5 otherwise. The handler's step-by-step code is the method
  `Resolve`. It is proved equal to `ExpectedFix`, a reference function that
  states the fallback chain tier by tier.
- **Live location store** (`LiveLocations`). This is a class over
  `map<string, Record>`. A POST with a parseable `lat`/`lng` overwrites exactly
  one token's record. A failed parse changes nothing and answers
  `invalid_payload` with status 400. A GET is a pure read answering `ok` with
  the record, or `loc: None`.
- `Text` holds the string behaviour these modules need: `str.strip`
  (Python's full white-space set), ASCII `str.isdigit` and `str.lower`, and
  `str(n)` for non-negative integers. `Wrappers` holds `Option`, `Result` and
  `Lookup` (a foreign call found a value, found nothing, or raised).

Every foreign call is a parameter of the model. This covers the
phone-number parser and validator, the description and carrier lookups, the
country database and the geocoder. A geocoder answer is `Found(coord)`,
`NotFound` or `Raised`.

Behaviour of the code as written that is easy to miss:

- A geocoding call that raises does not just count as "no result". It
  leaves the whole `try` block. So a raising detailed query skips the
  country-name attempt and ends at Dhaka (`RaisingDetailedQuerySkipsCountry`).
  The same holds when the country lookup itself raises. Then no query is
  made and no circle is reported.
- When the description lookup fails, its replacement text
  `"Country Code: +<code>"` is not blank and not "unknown". It is therefore
  geocoded as a detailed query before the country-name fallback
  (`CountryCodeLabelIsQueried`).
- Normalisation keeps every `+`, not only a leading one.
- A CSV row that is too short leaves a cell as `None`. Calling `.strip()` on it
  raises, which empties the whole table rather than skipping that row.
- The lookup runs on `str(national_number)`, the decimal form of an integer.
  That form has no leading zeros, and a national number below 100 never has a
  circle (`CircleNeedsThreeDigits`).

## Model

| member | source | states |
|---|---|---|
| `Text.Decimal` | app.py:101 | `str(n)` is a non-empty string of decimal digits that starts with `0` only for `n == 0` |
| `Text.DecimalRoundTrip` | app.py:101 | reading back the digits of `str(n)` gives `n` |
| `Text.DecimalLengthAtLeastThree` | app.py:100-101 | `str(n)` has at least three digits exactly when `n >= 100` |
| `Text.StripIsInnerSlice` | app.py:21-22 | `strip()` keeps one slice of its input, with only white space outside it and none at its ends |
| `Text.StripEmptyIffAllSpace` | app.py:23 | a trimmed cell is empty exactly when the cell is all white space |
| `PrefixTable.Fill` | app.py:20-24 | the table built from readable rows has only non-empty prefixes and non-empty circles |
| `PrefixTable.LoadPrefixTable` | app.py:14-26 | the loading loop yields `TableOf(dataset)`: empty for an absent or failing file or a row with an untrimmable cell, otherwise the row-by-row fill |
| `PrefixTable.FillKeys` | app.py:20-24 | a prefix is a key exactly when some row with both trimmed cells non-empty carries it |
| `PrefixTable.FillLastWins` | app.py:24 | a key maps to the circle of the last such row that carries it (later rows overwrite earlier ones) |
| `PrefixTable.FirstMatch` | app.py:31-35 | the search returns the entry for the first listed length whose prefix fits and is a key, and `None` exactly when no listed length matches |
| `PrefixTable.LongestPrefixWins` | app.py:28-36 | `get_india_circle` returns `table[s[:k]]` for the longest `k` in 3..6 with `k <= len(s)` and `s[:k]` a key, and `None` exactly when there is no such `k` |
| `PrefixTable.ShortInputHasNoCircle` | app.py:31-36 | a string shorter than 3 characters has no circle |
| `PrefixTable.FallsThroughToShorterPrefix` | app.py:31-35 | with only `"98765"` in the table, `"9876543210"` falls through length 6 and finds `"Delhi"` at length 5 |
| `PhoneInput.KeepDialChars` | app.py:50 | the filtered string holds only digits and `+` and is no longer than the input |
| `PhoneInput.KeepDialCharsAppend` | app.py:50 | filtering distributes over concatenation, so kept characters stay in input order |
| `PhoneInput.KeepDialCharsCounts` | app.py:50 | each digit and `+` occurs in the output as often as in the input; no other character occurs |
| `PhoneInput.KeepDialCharsFixed` | app.py:50 | a string of digits and `+` passes through unchanged |
| `PhoneInput.KeepDialCharsOfStrip` | app.py:47-50 | trimming the input first does not change the filtered string |
| `PhoneInput.Normalize` | app.py:50-52 | the normalised number holds only digits and `+` and never starts with `00` |
| `PhoneInput.NormalizeIdempotent` | app.py:51-52 | normalising twice equals normalising once: the `00` rewrite happens at most once |
| `PhoneInput.NormalizeRewritesDoubleZero` | app.py:51-52 | `"00" + rest` normalises to `"+" + rest` |
| `PhoneInput.ParseRegion` | app.py:60-61 | the region is `None` exactly when the normalised number starts with `+`, and `"BD"` otherwise |
| `PhoneInput.ParseRegionOfInput` | app.py:50-61 | in terms of the raw input, there is no region exactly when its digits-and-pluses start with `+` or `00` |
| `PhoneInput.PrepareInput` | app.py:47-61 | blank input is rejected; otherwise the parser gets `Normalize(raw)` and that number's region |
| `Resolution.LocationText` | app.py:74-78 | the location line is never empty: the description when non-empty, otherwise `"Country Code: +<code>"` |
| `Resolution.CarrierText` | app.py:81-84 | the carrier line is never empty: the carrier name when non-empty, otherwise `"Unknown Carrier"` |
| `Resolution.CountryName` | app.py:93-95 | the name is absent exactly when the country lookup raised (which skips geocoding); a country missing from the database still gets a non-empty `+…` name, so the country tier stays reachable |
| `Resolution.DerivedCircle` | app.py:100-101 | a circle is only ever found for country code 91 and a national number of at least 100 |
| `Resolution.CircleNeedsThreeDigits` | app.py:100-101 | `get_india_circle(str(n))` finds nothing when `n < 100` |
| `Resolution.DetailedQuery` | app.py:98-106 | a non-empty circle gives `"<circle>, India"`; otherwise an informative location gives `"<location>, <country>"`; otherwise there is no query; a query is never empty |
| `Resolution.ExpectedFix` | app.py:86-127 | zoom is 5 or 9; zoom is 9 exactly when the detailed query exists and geocodes, and then the coordinates are that hit; otherwise, when the country tier is reached and the country name geocodes, its hit at zoom 5; otherwise Dhaka at zoom 5 |
| `Resolution.CountryCodeLabelIsQueried` | app.py:74-106 | outside India, a failed description lookup still yields the detailed query `"Country Code: +<code>, <country>"` |
| `Resolution.CountryCentroidFallback` | app.py:114-119 | for any number and any country lookup that did not raise: when the detailed query finds nothing and the non-empty country name geocodes, those coordinates are shown at zoom 5 |
| `Resolution.CodeNameReachesCountryTier` | app.py:95-119 | a country missing from the database is geocoded as `"+<code>"`, and its hit is shown at zoom 5 when the detailed query finds nothing |
| `Resolution.RaisingDetailedQuerySkipsCountry` | app.py:108-122 | a detailed geocode that raises ends at Dhaka with zoom 5, without trying the country name |
| `Resolution.Resolve` | app.py:69-127 | the handler's step-by-step code gives the location and carrier lines, reports the circle only when the country lookup did not raise, and ends with the coordinates and zoom of `ExpectedFix` |
| `Resolution.HandleLookup` | app.py:46-127 | blank input is rejected as empty; a parser failure is a processing error; an invalid number is rejected; a valid number is always shown with coordinates from `ExpectedFix` |
| `LiveLocations.PollReply` | app.py:194-197 | a poll is always `ok` with status 200, carrying the stored record exactly when the token has one |
| `LiveLocations.LiveStore.constructor` | app.py:42 | the store starts empty |
| `LiveLocations.LiveStore.Report` | app.py:184-192 | a parseable payload overwrites exactly the token's record and answers `ok`; otherwise the store is unchanged and the answer is `invalid_payload` with status 400 |
| `LiveLocations.LiveStore.Poll` | app.py:193-197 | a GET changes nothing and answers `PollReply` of the current store |
| `LiveLocations.ReportThenPoll` | app.py:182-197 | after a report, polling that token returns the reported record, and polling any other token answers as before |
| `LiveLocations.RejectedReportChangesNothing` | app.py:185-192 | a report in which `lat`, `lng` or both fail to parse leaves every token's poll answer as it was |

## Left out

- Flask routing, templates, `flash`/`redirect`, `url_for` and the `__main__` bootstrap are web plumbing. Only the outcome of each request is modelled.
- Phone-number parsing, validation, formatting, description and carrier lookup, and the country database are foreign libraries. Their answers are inputs (`Collaborators`, `description`, `carrierName`, `country`). `region_code_for_country_code` is folded into the country lookup.
- Nominatim geocoding is a network call. It is the function parameter `geocode`; its 10-second timeout is one of the ways it can raise.
- Map drawing with `folium`, saving `static/map.html`, display formatting, the share/live URLs and `secrets.token_urlsafe` are rendering, file I/O and randomness. A failure in any of them after resolution is not modelled.
- Reading the CSV file and `os.path.exists` are file I/O. The dataset is given as absent, unreadable, or a sequence of rows.
- `float()` parsing, the float values and `time.time()` are not computed. Parse success or failure and the timestamp are inputs, and coordinates are `real` values that are only carried.
- Concurrent access to `LIVE_LOCATIONS` is not modelled. The code has no locking, and each request is one sequential operation.
- `wsgi.py` is import and path plumbing and is not part of this model.
- `PhoneInput.KeepDialChars`: `str.isdigit` also accepts non-ASCII digits (for example Arabic-Indic digits and superscripts). The model keeps only the ASCII digits `0`-`9`.
- `Resolution.DetailedQuery`: the "unknown" test uses ASCII lower-casing. Python's Unicode `str.lower` also maps a few non-ASCII letters, such as the Kelvin sign, onto ASCII ones.
