# GHunt Maps and Calendar helpers in Dafny

This project is a verified model of two GHunt helpers.

- `ghunt/helpers/gmaps.py`:
  - `get_reviews` reads a Google Maps contributor's statistics, then pages through their reviews and photos. Each page is in either the new or the old response layout.
  - `get_datetime` turns a relative date such as "3 weeks ago" into an estimate.
  - `translate_confidence` and `sanitize_location` turn a score into a confidence band and clean up a reverse-geocoded address.
  - `calculate_probable_location` clusters the placed reviews and photos into areas. It drops areas contained in a larger one, scores the rest and reports the best-scored areas with a confidence band.
- `ghunt/helpers/calendar.py`:
  - the event page loop of `fetch_all`;
  - the pure parts of `out`: the sanitized e-mail used in the file name, the window of the last `limit` events, each event's title, date text and duration text, and the set of other names the target used.

The Python values the code inspects become a `Json` datatype (null, booleans, integers, strings and lists). Each Python operation that can raise returns an `Option`, where `None` is the exception. Modules:

- `PyText`: the Python string operations (`split`, `strip`, `replace`, `int`, `str`).
- `PyJson`: indexing, `len`, truthiness, `+` and `str`.
- `MapsRecords`: one review or photo entry, in both layouts.
- `MapsLayout`: which block of a page holds the entries and the next-page token.
- `MapsFetch`: the statistics gate, the page loop and `get_reviews`.
- `RelDate`: `get_datetime`.
- `Confidence`: `translate_confidence` and `sanitize_location`.
- `Cluster`: `calculate_probable_location`.
- `Calendar`: the calendar helpers.

Network replies are a function from request to reply: `fetch` for Maps; `first` and `page` for Calendar. Reverse geocoding is a function `lookup` from an area's points to an address. The distance test against the radius is a predicate `near`.

Loops GHunt runs in place are methods with loop invariants, each proved equal to a specification function:

- the statistics loop;
- the per-page entry loop;
- the page loop;
- the grouping, elimination and scoring loops;
- the calendar page loop;
- the names loop.

The properties are lemmas about those functions.

## Model

| member | source | states |
|---|---|---|
| PyText.Split | ghunt/helpers/gmaps.py:23-29 | `str.split()`: every word is non-empty and free of whitespace |
| PyText.SplitAt | ghunt/helpers/gmaps.py:23-29 | a whitespace character cuts the split in two: the words of `a + [c] + b` are the words of `a` followed by those of `b` |
| PyText.SplitWord | ghunt/helpers/gmaps.py:23-29 | a non-empty text without whitespace splits into itself alone |
| PyText.SplitBlank | ghunt/helpers/gmaps.py:23-29 | a text of whitespace only splits into no words; with SplitAt and SplitWord, the words of any text are its maximal non-whitespace runs, in order |
| PyText.ParseIntRoundTrip | ghunt/helpers/gmaps.py:27-29 | `int(str(n)) == n` for every integer |
| PyText.Strip | ghunt/helpers/gmaps.py:267 | `strip` leaves neither a matching first nor a matching last character |
| PyText.StripIsSlice | ghunt/helpers/gmaps.py:267 | `strip` removes matching characters only at the ends: the result is a slice of the text, and every character before and after that slice matches |
| PyText.StripExact | ghunt/helpers/calendar.py:82 | stripping a padded word gives back exactly that word |
| PyText.Replace | ghunt/helpers/calendar.py:40 | `replace(c, sub)` removes every `c` unless `sub` has one, keeps the other characters and is the identity when `c` is absent |
| PyText.ReplaceAppend | ghunt/helpers/calendar.py:40 | `replace` works position by position: the replacement of a concatenation is the concatenation of the replacements, so order and count of the other characters are kept |
| PyText.ReplaceChar | ghunt/helpers/calendar.py:40 | one character becomes `sub` exactly when it is `c`, and stays itself otherwise |
| PyText.BeforeFirst | ghunt/helpers/gmaps.py:385 | `split("=")[0]` is the longest prefix without `=` |
| MapsRecords.FromMicros | ghunt/helpers/gmaps.py:155-158 | a microsecond timestamp is accepted exactly when it is a number |
| MapsRecords.FromCivil | ghunt/helpers/gmaps.py:387-391 | a civil date is built exactly when the four values are integers forming a valid year, month, day and hour, and it is then that date |
| MapsRecords.NewReviewShapes | ghunt/helpers/gmaps.py:138-147 | a new-format review entry that is not a list of two, or whose place or review wrapper is falsy, not a list or too short, is skipped; no new-format review raises |
| MapsRecords.OldReviewShapes | ghunt/helpers/gmaps.py:210-213 | an old-format review entry that is not a list of seven, or whose `entry[6]` has no length, is skipped; no old-format review raises |
| MapsRecords.NewPhotoShapes | ghunt/helpers/gmaps.py:317-326 | a new-format photo entry with the wrong wrappers is skipped; no new-format photo raises |
| MapsRecords.OldPhotoShapes | ghunt/helpers/gmaps.py:375-385 | an old-format photo entry without a photo block of eleven is skipped; a well-shaped one raises exactly when its URL slot is truthy but not a string |
| MapsRecords.CollectTypeEntries | ghunt/helpers/gmaps.py:196-207 | the types/tags loop computes the types and tags of `place_info[9]`, never more tags than types |
| MapsRecords.TagsComeWithTypes | ghunt/helpers/gmaps.py:199-205 | the number of tags is the number of list entries longer than one |
| MapsRecords.TruthyOnly | ghunt/helpers/gmaps.py:244 | the filtered types are exactly the truthy ones |
| MapsRecords.NewRecordsTagsWithinTypes | ghunt/helpers/gmaps.py:177-207 | a new-format review or photo never has more tags than types |
| MapsRecords.OldPlaceTypesTruthy | ghunt/helpers/gmaps.py:243-244 | an old-format place holds no falsy type |
| MapsRecords.OldPlacePosition | ghunt/helpers/gmaps.py:246-249 | an old-format position is set exactly when `entry[1][0]` is a long enough list, and both coordinates come from it |
| MapsRecords.NewPlacePosition | ghunt/helpers/gmaps.py:192-194 | a new-format position is set exactly when `place_info[3]` has four items, and both coordinates come from it |
| MapsLayout.FirstPassing | ghunt/helpers/gmaps.py:97-118 | the chosen block is absent only if no candidate passes its probe; otherwise a passing candidate is chosen |
| MapsLayout.ReviewsLayoutFirstPassing | ghunt/helpers/gmaps.py:97-118 | the review block is the first of `data[22][0]`, `data[45][0]` and `data[24][0]` that passes its test |
| MapsLayout.PhotosLayoutFirstPassing | ghunt/helpers/gmaps.py:284-297 | the photo block is the first of `data[22][0]` and `data[22][1]` that passes its test |
| MapsLayout.TokenAt | ghunt/helpers/gmaps.py:264-277 | a next-page token is read from slot 3 of its block exactly when that slot exists and is truthy, and it is that slot |
| MapsFetch.ParseStats | ghunt/helpers/gmaps.py:68-71 | the statistics loop computes the section map |
| MapsFetch.StatsKeys | ghunt/helpers/gmaps.py:68-71 | the statistics hold exactly the sections' keys; the last section with a key wins |
| MapsFetch.StatsRaiseOnlyOnListKey | ghunt/helpers/gmaps.py:68-71 | building the statistics raises exactly when some key is an unhashable list |
| MapsFetch.GateShapes | ghunt/helpers/gmaps.py:62-66 | a page without `data[16][8][0]` as a list stops with "empty" and no stats, unless `len` is applied to a value without a length, which raises; only a well-shaped page goes on |
| MapsFetch.GateOnCounts | ghunt/helpers/gmaps.py:72-75 | past the shape checks, the fetch goes on exactly when the review, rating and photo counts sum to non-zero |
| MapsFetch.CollectPage | ghunt/helpers/gmaps.py:132-256 | the per-entry loop of a page computes the page's records |
| MapsFetch.CollectNoneIffRaised | ghunt/helpers/gmaps.py:254-256 | a page fails exactly when one of its entries raises an exception the `except` does not catch |
| MapsFetch.CollectIsSubsequence | ghunt/helpers/gmaps.py:132-256 | the page's records are its kept entries: in order, each exactly once, none left out |
| MapsFetch.CollectAppend | ghunt/helpers/gmaps.py:132-257 | collecting two runs of entries is collecting each and concatenating |
| MapsFetch.SkippedEntryIsInvisible | ghunt/helpers/gmaps.py:138-147 | a skipped entry changes nothing in the page's records |
| MapsFetch.ContinuingPage | ghunt/helpers/gmaps.py:258-277 | a page that continues has records and a string token, which is stripped of `=` at both ends |
| MapsFetch.PageToken | ghunt/helpers/gmaps.py:264-269 | the next request carries the token with its padding `=` removed |
| MapsFetch.TokenFromOtherBlock | ghunt/helpers/gmaps.py:264-269 | on some pages the reviews come from `data[45]` while the token comes from `data[22]` |
| MapsFetch.ReadPage | ghunt/helpers/gmaps.py:92-277 | one page request computes that page's step: crash, no data, or records and a token |
| MapsFetch.FetchCategory | ghunt/helpers/gmaps.py:78-277 | the page loop computes the run of all pages of a category |
| MapsFetch.EmptyPageEnds | ghunt/helpers/gmaps.py:261-262 | a page with no records ends the run |
| MapsFetch.NoTokenEnds | ghunt/helpers/gmaps.py:271-277 | a page without a token ends the run with its records |
| MapsFetch.DrainPages | ghunt/helpers/gmaps.py:257-277 | a finished run starts with the first page's records, followed by the run of the next token |
| MapsFetch.TwoPages | ghunt/helpers/gmaps.py:257-277 | two pages linked by a token give their records concatenated |
| MapsFetch.LaterPrivateDiscards | ghunt/helpers/gmaps.py:126-127 | a later page without a block makes the run private and drops the earlier pages |
| MapsFetch.GetReviews | ghunt/helpers/gmaps.py:48-444 | `get_reviews` computes its specification; a failed, empty or private outcome carries no reviews and no photos |
| MapsFetch.SorryFails | ghunt/helpers/gmaps.py:55-57 | a redirect to the "sorry" page fails with empty statistics |
| MapsFetch.PrivateHidesEarlierReviews | ghunt/helpers/gmaps.py:126-127 | reviews already read on page one are discarded when page two has no block |
| MapsFetch.SuccessIsBothRuns | ghunt/helpers/gmaps.py:59-444 | a successful outcome passed the gate, and its reviews and photos are the two complete runs |
| RelDate.UnitOf | ghunt/helpers/gmaps.py:31-44 | the unit found occurs in the text; no unit means no unit word occurs in it |
| RelDate.Truncated | ghunt/helpers/gmaps.py:46 | the current time with seconds and microseconds zeroed and nothing else changed |
| RelDate.GetDatetime | ghunt/helpers/gmaps.py:18-46 | the estimate exists exactly when the count parses; it carries the truncated time; there is no delta exactly when no unit word occurs; otherwise the delta is the count in that unit |
| RelDate.NumberPhrase | ghunt/helpers/gmaps.py:18-46 | "<n> <unit>s ago" is n units ago |
| RelDate.LastPhrase | ghunt/helpers/gmaps.py:26-27 | "last <n> <unit>s" is n units ago |
| RelDate.ArticlePhrase | ghunt/helpers/gmaps.py:23-24 | "a <unit> ago" and "an hour ago" are one unit ago |
| RelDate.NoUnitNoDelta | ghunt/helpers/gmaps.py:31-46 | a text with a count but no unit word gives the current time |
| Confidence.TranslateConfidence | ghunt/helpers/gmaps.py:461-476 | the band's lower threshold is at most the percentage, and the next band's threshold is above it |
| Confidence.TranslateMonotone | ghunt/helpers/gmaps.py:461-476 | a larger percentage never gives a lower band |
| Confidence.BandsDistinct | ghunt/helpers/gmaps.py:463-476 | the seven bands have distinct texts |
| Confidence.TownKey | ghunt/helpers/gmaps.py:484-493 | the town key is one of city, village, town or municipality present in the address; there is none only when all four are absent; it is the first of them, in that order, present in the address |
| Confidence.SanitizeLocation | ghunt/helpers/gmaps.py:478-500 | False exactly when there is no town key and no country; otherwise it adds town and country ("?" when missing) and keeps the other keys |
| Confidence.CityWins | ghunt/helpers/gmaps.py:484-485 | a city is always the town |
| Confidence.SanitizeStable | ghunt/helpers/gmaps.py:478-500 | sanitizing a sanitized address again changes nothing |
| Cluster.NearPointsAreNear | ghunt/helpers/gmaps.py:515-521 | every point gathered for a seed is near it and belongs to some record |
| Cluster.GatherNear | ghunt/helpers/gmaps.py:515-521 | the inner loop gathers the dates and points of all records near the seed |
| Cluster.BuildGroups | ghunt/helpers/gmaps.py:509-526 | the grouping loop computes the groups |
| Cluster.GroupsShaped | ghunt/helpers/gmaps.py:509-526 | one group per placed id; each holds every record near that id's seeds, and its span is its date range |
| Cluster.GroupsNoneIff | ghunt/helpers/gmaps.py:509-526 | grouping fails exactly when some seed fails (an unhashable id, or an empty neighbourhood in `max`) |
| Cluster.GroupsSucceed | ghunt/helpers/gmaps.py:509-526 | grouping succeeds when every placed id is hashable and every point is near itself |
| Cluster.GroupsDistinct | ghunt/helpers/gmaps.py:512-513 | the group ids are distinct |
| Cluster.PlacedIdsMembers | ghunt/helpers/gmaps.py:510-513 | the dictionary keys are exactly the ids of the placed records |
| Cluster.SortBySizeFacts | ghunt/helpers/gmaps.py:530-531 | sorting by size in reverse order is descending, a permutation, and stable within a size |
| Cluster.SortKeepsDistinct | ghunt/helpers/gmaps.py:530-531 | sorting keeps the ids distinct |
| Cluster.Eliminate | ghunt/helpers/gmaps.py:534-542 | the containment loop computes the list of ids to delete |
| Cluster.DropDeleted | ghunt/helpers/gmaps.py:543-544 | the deletion loop leaves the groups whose id is not listed |
| Cluster.Survivors | ghunt/helpers/gmaps.py:543-544 | a group survives exactly when its id is not listed |
| Cluster.SurvivorsOne | ghunt/helpers/gmaps.py:543-544 | one group is kept exactly when its id is not listed |
| Cluster.SurvivorsAppend | ghunt/helpers/gmaps.py:543-544 | survival distributes over concatenation, so the survivors keep their order |
| Cluster.SweepListsGroups | ghunt/helpers/gmaps.py:534-544 | the delete list has no repeats and names only existing groups, so `del` never raises |
| Cluster.SurvivorsIndependent | ghunt/helpers/gmaps.py:534-544 | no surviving area's points lie within another survivor's |
| Cluster.SurvivorsCover | ghunt/helpers/gmaps.py:534-544 | every deleted area lies within some survivor |
| Cluster.SurvivorsNonEmpty | ghunt/helpers/gmaps.py:534-548 | some area survives, so the `max` calls that follow succeed |
| Cluster.TwinsAtMostOne | ghunt/helpers/gmaps.py:534-544 | of two areas with the same points, at most one survives |
| Cluster.TwinsBothDeleted | ghunt/helpers/gmaps.py:534-544 | two areas with the same points can both be deleted by a third that contains them |
| Cluster.SurvivorsDistinct | ghunt/helpers/gmaps.py:543-544 | the survivors' ids stay distinct |
| Cluster.Score | ghunt/helpers/gmaps.py:553-564 | a score is a multiple of 4 between 0 and 40; a largest area scores at least 16 |
| Cluster.ScoreFull | ghunt/helpers/gmaps.py:553-568 | the full score of 40 is reached exactly when an area is a largest and widest majority among at least three areas and has at least three points |
| Cluster.MajorityIsLargest | ghunt/helpers/gmaps.py:559-562 | an area with more points than all others together is a largest |
| Cluster.MajorityUnique | ghunt/helpers/gmaps.py:559-562 | at most one area holds that majority |
| Cluster.ScoreAll | ghunt/helpers/gmaps.py:548-564 | the scoring loop computes every area's score |
| Cluster.Leaders | ghunt/helpers/gmaps.py:566-570 | the leaders are exactly the areas with the top score |
| Cluster.LeadersOne | ghunt/helpers/gmaps.py:570 | one area is a leader exactly when its score is the top score |
| Cluster.LeadersAppend | ghunt/helpers/gmaps.py:570 | the leader filter distributes over concatenation, so the leaders keep the areas' order |
| Cluster.LeadersHead | ghunt/helpers/gmaps.py:570-571 | the first leader is the first area, in order, with the top score |
| Cluster.Panel | ghunt/helpers/gmaps.py:571-574 | the top score is kept for a leader with several points and at least four records, halved when exactly one of the two tests fails, and quartered when both do |
| Cluster.PanelBandTop | ghunt/helpers/gmaps.py:571-575 | the band is "Extremely high" exactly when the top score is full, the leader has several points and there are at least four records |
| Cluster.FirstLeader | ghunt/helpers/gmaps.py:566-571 | the top panel has at least one area, so `locs[0]` exists; it is the first area with the best score, every earlier one scoring less |
| Cluster.Places | ghunt/helpers/gmaps.py:576-589 | each leader's place is its looked-up address, sanitized |
| Cluster.ConfidenceFloor | ghunt/helpers/gmaps.py:548-575 | the reported band is never "Extremely low" |
| Cluster.ConfidenceFewAreas | ghunt/helpers/gmaps.py:559-575 | with fewer than three areas the band is at most "Very high" |
| Cluster.ExtremelyHighIff | ghunt/helpers/gmaps.py:553-575 | "Extremely high" exactly when some area has the full score and there are at least four records |
| Cluster.ProbableNoneIff | ghunt/helpers/gmaps.py:502-593 | no result exactly when a seed raises or no record is placed |
| Cluster.ProbableBand | ghunt/helpers/gmaps.py:502-593 | a result's band is at least "Very low", and "Extremely high" needs at least four records |
| Cluster.Report | ghunt/helpers/gmaps.py:566-593 | the reporting step returns the band of the top panel and the leaders' places |
| Cluster.LookUpPlaces | ghunt/helpers/gmaps.py:576-589 | the lookup loop computes every leader's place |
| Cluster.CalculateProbableLocation | ghunt/helpers/gmaps.py:502-593 | the whole engine computes the probable location |
| Calendar.FollowStable | ghunt/helpers/calendar.py:26-30 | more fuel than the page chain needs changes neither the events nor the number of requests |
| Calendar.FollowPages | ghunt/helpers/calendar.py:26-30 | the following pages' events start with the page of the current token |
| Calendar.FetchAll | ghunt/helpers/calendar.py:18-32 | `fetch_all` computes `(False, None, None)` for an unknown calendar; otherwise every page's events in order, making one request per token |
| Calendar.SanitizeEmail | ghunt/helpers/calendar.py:40 | the sanitized e-mail has no `@` or `.`, keeps every other character and adds only those of `_at_` |
| Calendar.Window | ghunt/helpers/calendar.py:64 | `items[-limit:]` is a suffix: all items for limit 0, the last `limit` items for a positive limit, and all but the first `-limit` for a negative one |
| Calendar.WindowLast | ghunt/helpers/calendar.py:64 | for a positive limit the window is exactly the last `limit` events |
| Calendar.Title | ghunt/helpers/calendar.py:73-75 | the title is the summary, or "/" when it is empty |
| Calendar.DateText | ghunt/helpers/calendar.py:84-86 | the date text is "?" exactly when the event has no start, and otherwise the start's stamp |
| Calendar.StampFields | ghunt/helpers/calendar.py:86 | `%Y/%m/%d %H:%M:%S` puts each field at a fixed place, and each reads back as its value |
| Calendar.StampInjective | ghunt/helpers/calendar.py:86 | distinct start times give distinct date texts |
| Calendar.Part | ghunt/helpers/calendar.py:80-82 | a part is empty for zero, singular for one, plural above one, and singular for negatives |
| Calendar.Duration | ghunt/helpers/calendar.py:76-82 | "?" exactly when an endpoint is missing; the text of the span exactly when both are present and one of days, hours and minutes is non-zero; the raw span otherwise |
| Calendar.DurationWords | ghunt/helpers/calendar.py:80-82 | the stripped text in each case, including a double space when only the hours are zero |
| Calendar.AlternativeNames | ghunt/helpers/calendar.py:98-101 | the names are exactly those the target's address used other than its display name; neither "" nor the display name is among them |

## Left out

- HTTP, URL templates and `json.loads`: a page reply is the value `fetch(request)` returns. The request identifies the category and the page token; the gaia id and cookies are not modelled.
- Printing, progress bars, `TMPrinter`, `BeautifulTable`, `output`, the JSON file written by the calendar `out`, and the calendar `out` itself beyond its pure parts.
- JSON objects and floating-point numbers are not in `Json`. Numbers are integers, so `timestamp_us / 1000000` keeps the raw microseconds (`When.Stamp`).
- Python `1 == True` in hashing and equality is not modelled. Neither is the range limit of `datetime.utcfromtimestamp` (its `OverflowError`/`OSError`). Neither is `repr` escaping, nor whitespace beyond ASCII.
- The default field values of `MapsReview`, `MapsPhoto` and `MapsLocation` are taken as "", 0, [], and an unset position and date. The defining classes are not part of this model.
- New-format photos take the current time as their date. The clock is a parameter `now`.
- MapsFetch.FetchCategory: the page loop is bounded by `maxPages`. A run that would go past it ends as `OutOfPages` (`PageBound` for `get_reviews`), where GHunt would keep requesting.
- RelDate.GetDatetime: the clock is the parameter `now`. The subtraction of the delta from it (`datetime` arithmetic) is not modelled: the estimate is the truncated time plus the delta.
- Confidence.TranslateConfidence: the percentage is a real number rather than a binary float. For the scores reachable here (multiples of 4 over 40, halved, then times 100) the thresholds compare the same either way.
- Confidence.SanitizeLocation: GHunt mutates its argument. On the `False` path it leaves `"country": "?"` in the caller's dictionary. The model returns a new map, and that trace of the failed call is not kept.
- Cluster.CalculateProbableLocation:
  - Distances: geopy's geodesic distance against `gmaps_radius` is the parameter `near`. Its errors are not modelled.
  - Dates: an ordinal integer. An unset date's `TypeError` in `max`/`min` is not modelled.
  - Positions: an unset position reads as (0, 0), which is never a seed but may still fall in a neighbourhood.
  - Reporting: `avg_location` and the Nominatim reverse lookup, with its retry-forever loop, are the parameter `lookup` on an area's points. The `del` of the reported keys is not modelled.
- Calendar.FetchAll: the Calendar API is abstracted as follows.
  - `found`/`calendar` are the reply of `get_calendar`, `first` the first events page and `page` the reply for a token.
  - Termination rests on a ghost bound: the token chain ends within `bound`.
  - An absent token or field reads as "".
- Calendar.Duration:
  - `relativedelta` is the parameter `span`.
  - The raw delta shown when days, hours and minutes are all zero is kept as a value. Its `str` text is not modelled.
- Calendar.DateText: `strftime` is modelled for years 1000 to 9999, where `%Y` is four digits.
- MapsRecords.FromCivil: an integer beyond the C `int` range makes `datetime(...)` at ghunt/helpers/gmaps.py:391 raise `OverflowError`. The `except` at ghunt/helpers/gmaps.py:421 does not catch it, so the whole call raises; the model treats it as any other out-of-range value and skips the entry.
- PyText.ParseInt: Python's `int()` at ghunt/helpers/gmaps.py:27-29 also accepts non-ASCII decimal digits (Arabic-Indic or full-width ones, say); the model reads ASCII digits only and refuses a word holding any other.
- `get_gmaps_type_translation`, `ghunt.py` and the calendar event de-duplication are not part of this model.
- Of two areas with the same points, GHunt does not always keep one: a third area containing both deletes both (Cluster.TwinsBothDeleted). The model proves only that at most one of them survives (Cluster.TwinsAtMostOne).
