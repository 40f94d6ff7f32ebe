# hvac-leads in Dafny

This project models the core of `hvac-leads`, a two-stage pipeline that finds
HVAC businesses and ranks them as sales leads. It proves properties of both stages.

- **Fetcher** (`google_places.py`). It sends a text search to the Google
  Places API and follows `next_page_token` pagination until `max_results`
  records are held. A refused status stops it. It flattens each result into a
  fixed nine-field record, and the save step writes these records under a
  fixed nine-column header. The save step first checks the API key taken from
  the environment.
- **Scorer** (`scoring.py`). For each CSV row it computes four sub-scores:
  rating, review volume, high-intent keywords and business status. It
  rounds their sum to give the lead score and assigns a High/Medium/Low
  priority. It appends six score columns to each row and stable-sorts the rows
  by descending lead score.

Modules:

- `Wrappers` (`wrappers.dfy`): `Option` and `Result`.
- `PyStr` (`pystr.dfy`): the Python string operations the core uses, over
  `seq<char>`: `lower()`, `upper()`, `k in s`, `strip()`, `sep.join(...)`, and
  `split` as the inverse of `join`.
- `StableSort` (`stable_sort.dfy`): `list.sort(key=..., reverse=True)` as a
  stable descending insertion sort. It is proved to be a permutation, to be
  sorted and to be stable.
- `Scoring` (`scoring.dfy`): the sub-scores, the row extension, and `score_csv`
  after the CSV has been read. `score_csv` is modelled as methods: a loop over
  the rows and the per-row assignments. They are proved against the functions
  `ScoreRow` and `ScoreAll`.
- `GooglePlaces` (`google_places.dfy`): `_normalize_result`, the pagination
  loop of `fetch_places`, and `fetch_and_save_raw_csv` up to the write. Both
  loops are methods. Their results and their request/sleep traces are proved
  equal to the functions `FetchOutcome` and `FetchTrace`, and the lemmas state
  the stop rule, the bounds and the page structure in terms of those functions.

Inputs from outside the model become parameters:

- The API is a sequence of responses `api`, where response `k` answers
  request `k`. A request beyond the last response is a transport failure.
- `time.sleep(2)` and each request are recorded as events in a trace.
- The environment variable arrives as an `Option<string>`.
- The float operations `float(text)`, `math.log10`, `round(x, 2)` and
  `f"{x:.2f}"` are uninterpreted fields of a `Numerics` value. The predicate
  `Sane` states the few facts about them that some lemmas need: `log10` is
  non-negative and monotone from 1, `round` is monotone and fixes 0, a
  formatted rounded value parses back to itself, and `float("0")` is 0.0.

## Model

| member | source | states |
|---|---|---|
| PyStr.Lower | src/hvac_leads/scoring.py:33 | definition of `.lower()` (no ensures); LowerConcat, LowerOfUpper and KeywordCaseInsensitive state its properties |
| PyStr.Upper | src/hvac_leads/scoring.py:49 | definition of `.upper()` (no ensures); UpperOfLower and StatusAnyCasing state its properties |
| PyStr.Contains | src/hvac_leads/scoring.py:34 | definition of the substring test `keyword in searchable` (no ensures); ContainsIffOccurs ties it to occurrence at an index |
| PyStr.LowerConcat | src/hvac_leads/scoring.py:33 | lower-casing `name + " " + types` lower-cases each piece separately |
| PyStr.LowerOfUpper | src/hvac_leads/scoring.py:33 | lower-casing an upper-cased string gives the lower-cased string |
| PyStr.UpperOfLower | src/hvac_leads/scoring.py:49 | upper-casing a lower-cased string gives the upper-cased string |
| PyStr.ContainsIffOccurs | src/hvac_leads/scoring.py:34 | the substring test `k in s` holds exactly when `k` occurs in `s` at some index |
| PyStr.MismatchAt | src/hvac_leads/scoring.py:34 | one mismatched character rules out an occurrence at that index |
| PyStr.TrimStart | src/hvac_leads/google_places.py:73 | the result is a suffix of the input, what was dropped is all whitespace, and the result does not start with whitespace |
| PyStr.TrimEnd | src/hvac_leads/google_places.py:73 | the result is a prefix of the input, what was dropped is all whitespace, and the result does not end with whitespace |
| PyStr.Strip | src/hvac_leads/google_places.py:73 | `strip()` gives the empty string exactly when the input is all whitespace; otherwise the result neither starts nor ends with whitespace |
| PyStr.StripRemovesSurroundingSpace | src/hvac_leads/google_places.py:73 | the result of `strip()` is a contiguous part of the input with only whitespace before and after it; with Strip's contract this fixes the result |
| PyStr.Join | src/hvac_leads/google_places.py:32 | definition of `",".join(...)` (no ensures); SplitJoin and NormalizeTypesRoundTrip state that it can be undone |
| PyStr.Split | src/hvac_leads/google_places.py:32 | splitting never gives an empty list |
| PyStr.SplitWithoutSep | src/hvac_leads/google_places.py:32 | a string without the separator splits into itself alone |
| PyStr.SplitAtFirstSep | src/hvac_leads/google_places.py:32 | splitting `a + sep + b`, where `a` has no separator, gives `a` followed by the split of `b` |
| PyStr.SplitJoin | src/hvac_leads/google_places.py:32 | `",".join(parts)` is undone by splitting at `,` when no part contains a comma |
| StableSort.InsertPermutes | src/hvac_leads/scoring.py:87 | inserting one element permutes the sequence it is added to |
| StableSort.InsertSorted | src/hvac_leads/scoring.py:87 | inserting into a non-increasing sequence keeps it non-increasing |
| StableSort.WithKeyCons | src/hvac_leads/scoring.py:87 | the elements with key `v` of `[x] + s` are `x`, if its key is `v`, followed by those of `s` |
| StableSort.InsertKeepsOrderPerKey | src/hvac_leads/scoring.py:87 | inserting `x` ahead of every element with an equal key leaves each key's elements in their original order |
| StableSort.SortDescCorrect | src/hvac_leads/scoring.py:87 | the descending sort is a permutation of its input, keeps its length, is non-increasing in the key, and is stable: for every key value, the elements carrying it keep their input order |
| Scoring.Row.Get | src/hvac_leads/scoring.py:71-76 | definition of `row.get(key, default)` (no ensures): the cell when the key exists, else the default |
| Scoring.Row.Set | src/hvac_leads/scoring.py:79-84 | definition of `row[key] = value` (no ensures); SetKeepsValid states what it keeps |
| Scoring.ToFloat | src/hvac_leads/scoring.py:18-22 | definition of `_to_float` (no ensures); MalformedRatingDegrades states its error path |
| Scoring.ToInt | src/hvac_leads/scoring.py:25-29 | definition of `_to_int` (no ensures); TruncToInt and MalformedReviewCountDegrades state it |
| Scoring.SetKeepsValid | src/hvac_leads/scoring.py:79-84 | `row[key] = value` keeps the row a well-formed ordered dict and leaves the earlier columns in place; a new key is appended last |
| Scoring.TruncToInt | src/hvac_leads/scoring.py:27 | `int()` of a float truncates toward zero: for `x >= 0`, `n <= x < n + 1`; for `x < 0`, `n - 1 < x <= n` |
| Scoring.Searchable | src/hvac_leads/scoring.py:33 | definition of the searchable text (no ensures); KeywordCaseInsensitive, SearchableTagsFirst and SearchableTagsSwapped state its properties |
| Scoring.MatchedKeywords | src/hvac_leads/scoring.py:34 | a keyword is matched exactly when it is one of the seven high-intent keywords and occurs in the text at some index |
| Scoring.KeywordCount | src/hvac_leads/scoring.py:7-15 | there are seven distinct high-intent keywords |
| Scoring.KeywordScore | src/hvac_leads/scoring.py:32-35 | the keyword score is 1.5 per distinct matched keyword when at most six match, and 10 when all seven match; it always lies in [0, 10] |
| Scoring.RatingScore | src/hvac_leads/scoring.py:38-39 | the rating is clamped to [0, 5] and multiplied by 7: `7 * rating` inside the range, 0 below it, 35 above it |
| Scoring.RatingScoreMonotone | src/hvac_leads/scoring.py:38-39 | a higher rating never gives a lower rating score |
| Scoring.ReviewVolumeScore | src/hvac_leads/scoring.py:42-45 | no reviews (count <= 0) scores 0, and the score never exceeds 30 |
| Scoring.ReviewVolumeMonotone | src/hvac_leads/scoring.py:42-45 | with a sane `log10`, the volume score lies in [0, 30] and never drops as the review count grows |
| Scoring.StatusScore | src/hvac_leads/scoring.py:48-54 | 10 exactly for OPERATIONAL, 3 exactly for CLOSED_TEMPORARILY, and 0 exactly for every other upper-cased status |
| Scoring.StatusAnyCasing | src/hvac_leads/scoring.py:49-53 | any casing of the two recognised statuses scores as the upper-case form |
| Scoring.StatusExamples | src/hvac_leads/scoring.py:49-53 | "Operational" scores 10 and "closed_Temporarily" scores 3 |
| Scoring.StatusOtherExamples | src/hvac_leads/scoring.py:49-54 | CLOSED_PERMANENTLY, an empty status and a missing cell (`status or ""`) all score 0 |
| Scoring.Bucket | src/hvac_leads/scoring.py:57-62 | High exactly from 60 up, Medium exactly in [40, 60), Low exactly below 40 |
| Scoring.ScoresOf | src/hvac_leads/scoring.py:71-78 | definition of the values one loop iteration computes (no ensures); LeadAndPriority, LeadScoreBounds and the two Malformed lemmas state them |
| Scoring.ScoreRow | src/hvac_leads/scoring.py:71-84 | definition of one scored row (no ensures); ScoreRowUnfold, ScoreRowExtends and ScoreOne state it |
| Scoring.SetAllCells | src/hvac_leads/scoring.py:79-84 | after the assignments, each assigned key holds its value and every other cell is unchanged |
| Scoring.SetAllColumns | src/hvac_leads/scoring.py:79-84 | the assignments keep the row well formed and keep the existing columns as a prefix |
| Scoring.SetAllAppends | src/hvac_leads/scoring.py:79-84 | distinct new keys are appended after the existing columns, in assignment order |
| Scoring.ScoreColumnsDistinct | src/hvac_leads/scoring.py:79-84 | the six score column names are distinct |
| Scoring.ScoreTexts | src/hvac_leads/scoring.py:79-84 | six texts are written, one per score column |
| Scoring.ScoreRowUnfold | src/hvac_leads/scoring.py:79-84 | the scored row is the result of the six assignments, made in source order |
| Scoring.ScoreRowExtends | src/hvac_leads/scoring.py:71-84 | scoring only extends a row: it stays well formed, its keys become the old ones plus the six score columns, the other cells are unchanged, each score cell holds its formatted value, the old columns keep their positions, and a row without score columns gets them appended in order |
| Scoring.LeadAndPriority | src/hvac_leads/scoring.py:78-84 | the lead score is the rounded sum of the four sub-scores, and the priority is the bucket of that rounded value |
| Scoring.LeadScoreBounds | src/hvac_leads/scoring.py:71-78 | rating in [0, 35], volume in [0, 30], keyword in [0, 10], status in [0, 10], and the lead score in [0, round(85)] |
| Scoring.MalformedRatingDegrades | src/hvac_leads/scoring.py:18-22 | a rating cell that does not parse reads as 0.0 and gives a rating score of 0, whatever the other cells hold (line 71) |
| Scoring.MalformedReviewCountDegrades | src/hvac_leads/scoring.py:25-29 | a review-count cell that does not parse reads as 0 and gives a volume score of 0, whatever the other cells hold (line 72) |
| Scoring.KeywordCaseInsensitive | src/hvac_leads/scoring.py:33 | names and tags that lower-case alike get the same keyword score |
| Scoring.KeywordUpperCase | src/hvac_leads/scoring.py:33 | upper-casing the name and the tags does not change the keyword score |
| Scoring.ThreeMatches | src/hvac_leads/scoring.py:34-35 | three distinct matched keywords give 4.5, however often each one occurs |
| Scoring.SearchableTagsFirst | src/hvac_leads/scoring.py:33 | the searchable text of name "Air" with tags "conditioning,x" is "air conditioning,x" |
| Scoring.SearchableTagsSwapped | src/hvac_leads/scoring.py:33 | the searchable text of name "Air" with tags "x,conditioning" is "air x,conditioning" |
| Scoring.SwappedMisses | src/hvac_leads/scoring.py:34 | "air conditioning" does not occur in "air x,conditioning" |
| Scoring.TagOrderMatters | src/hvac_leads/scoring.py:33-34 | swapping two tags can remove the keyword "air conditioning", which spans the name and the first tag, from the matched keywords |
| Scoring.LeadKey | src/hvac_leads/scoring.py:87 | definition of `float(item["lead_score"])`, None where that raises (no ensures); LeadKeyOfScoredRow and ScoreCsv state its use |
| Scoring.SortKey | src/hvac_leads/scoring.py:87 | definition of the sort key (no ensures); LeadKeyOfScoredRow and ScoreCsvSucceeds state it |
| Scoring.LeadKeyOfScoredRow | src/hvac_leads/scoring.py:83-87 | with sane float operations, the sort key of a scored row, read back from its `lead_score` text, is its rounded lead score |
| Scoring.MapRowsAt | src/hvac_leads/scoring.py:69-85 | mapping keeps one row per input row, and row `j` of the output is the image of row `j` |
| Scoring.MapRowsSnoc | src/hvac_leads/scoring.py:85 | mapping one more row appends its image |
| Scoring.ScoreAllAt | src/hvac_leads/scoring.py:69-85 | `scored_rows` holds one row per input row, in input order, each one the scored input row |
| Scoring.ScoreOne | src/hvac_leads/scoring.py:71-84 | the body of the scoring loop computes the scored row of its input |
| Scoring.ScoreRows | src/hvac_leads/scoring.py:69-85 | the scoring loop builds exactly the scored rows, in input order |
| Scoring.ScoreCsv | src/hvac_leads/scoring.py:69-91 | fails exactly when some scored row's `lead_score` does not parse. On success it returns the stable descending sort of the scored rows: same length, a permutation of them, non-increasing, with tied rows in input order. The header is the first row's columns, or none for an empty input |
| Scoring.ScoreCsvSucceeds | src/hvac_leads/scoring.py:78-87 | with sane float operations the sort never fails, and every row is sorted by its rounded lead score |
| Scoring.ScoredColumns | src/hvac_leads/scoring.py:79-84 | a row without score columns comes out with its columns followed by the six score columns |
| Scoring.ScoredHeader | src/hvac_leads/scoring.py:87-91 | rows read under one header without score columns all come out, after the sort, with that header followed by the six score columns, so the written header fits every row |
| Scoring.SetAllSameColumns | src/hvac_leads/scoring.py:79-84 | assigning the same keys to two rows with the same columns gives the same columns, whatever the values |
| Scoring.SortedHeaderFits | src/hvac_leads/scoring.py:87-91 | rows read under one header, with or without score columns already in it, all come out of the sort with the columns of the first sorted row, so the written header fits every row |
| GooglePlaces.Field | src/hvac_leads/google_places.py:25-35 | definition of a record's value under a key (no ensures); RecordKeys and Normalize state it |
| GooglePlaces.RecordKeys | src/hvac_leads/google_places.py:25-35 | a record holds exactly the nine distinct keys of the CSV header in lines 81-91 |
| GooglePlaces.Coordinate | src/hvac_leads/google_places.py:24-34 | definition of `location.get("lat")` and `location.get("lng")` with their `{}` defaults (no ensures); Normalize states both cases |
| GooglePlaces.Normalize | src/hvac_leads/google_places.py:23-35 | each field takes the raw value or its default ("" for text, 0.0 for rating, 0 for the total). The tags are comma-joined. lat and lng are the location's coordinates (None where absent), and None when there is no geometry or no location |
| GooglePlaces.NormalizeTypesRoundTrip | src/hvac_leads/google_places.py:32 | a non-empty tag list without commas can be recovered from the joined `types` field |
| GooglePlaces.Params.Dict | src/hvac_leads/google_places.py:45-51 | the first request sends exactly `query` and `key`; a later one sends exactly `pagetoken` and `key` |
| GooglePlaces.Describe | src/hvac_leads/google_places.py:58 | the error text is "Google Places API returned ", then the status ("None" when absent), then ": ", then the message |
| GooglePlaces.NormalizePage | src/hvac_leads/google_places.py:60-61 | a page of results normalises element by element |
| GooglePlaces.Truncate | src/hvac_leads/google_places.py:62-63 | the first `max` elements: a prefix of length min(len, max), or none for `max <= 0` |
| GooglePlaces.Flat | src/hvac_leads/google_places.py:60-61 | definition of the concatenated normalised results of the first pages (no ensures); FlatCount, FlatPrefix and FlatPage state it |
| GooglePlaces.FlatCount | src/hvac_leads/google_places.py:60-61 | the first `n` pages hold as many records as they had results |
| GooglePlaces.LastFrom | src/hvac_leads/google_places.py:49-67 | the last request lies between the start and the number of responses |
| GooglePlaces.LastRequest | src/hvac_leads/google_places.py:49-67 | the last request lies within the responses, or is one past them |
| GooglePlaces.FlatTruncateStep | src/hvac_leads/google_places.py:60-63 | the records held after one more page are the cut-at-`max` extension of those held before |
| GooglePlaces.AppendPage | src/hvac_leads/google_places.py:60-63 | the inner loop appends the page's normalised results and stops as soon as `max` records are held |
| GooglePlaces.Requests | src/hvac_leads/google_places.py:45-54 | definition of the events of the first requests (no ensures); RequestsNext and RequestsShape state it |
| GooglePlaces.FetchOutcome | src/hvac_leads/google_places.py:44-69 | definition of what `fetch_places` returns or raises (no ensures); FetchBounded, FetchConcatenation and FetchApiError state it, and FetchPlaces is proved equal to it |
| GooglePlaces.FetchTrace | src/hvac_leads/google_places.py:44-69 | definition of the requests and waits of `fetch_places` (no ensures); FetchBounded and FetchTraceShape state it, and FetchPlaces is proved equal to it |
| GooglePlaces.FetchPlaces | src/hvac_leads/google_places.py:44-69 | the loop returns `FetchOutcome` and issues exactly the requests and waits of `FetchTrace` |
| GooglePlaces.RequestsNext | src/hvac_leads/google_places.py:50-54 | each further request is preceded by a 2-second wait and carries the previous page's token with the key |
| GooglePlaces.LastFromStops | src/hvac_leads/google_places.py:49-67 | the loop goes on exactly while the previous response asks for another page, and stops at the first one that does not |
| GooglePlaces.StopRule | src/hvac_leads/google_places.py:49-67 | every response before the last request had an accepted status and a non-empty token, and left fewer than `max` records. The last request got no response, a refused status, no token, or reached `max` |
| GooglePlaces.FetchBounded | src/hvac_leads/google_places.py:49 | a non-positive `max` fetches nothing and sends no request; otherwise at most `max` records are returned |
| GooglePlaces.FlatPrefix | src/hvac_leads/google_places.py:60-61 | the records of fewer pages are a prefix of the records of more pages |
| GooglePlaces.FlatPage | src/hvac_leads/google_places.py:60-61 | page `k` occupies the positions right after the results of the pages before it |
| GooglePlaces.FetchConcatenation | src/hvac_leads/google_places.py:60-69 | the returned records are a prefix of the fetched pages' records in order; a fetch that ends short of `max` returns all of them and ended on a page without a token |
| GooglePlaces.FetchApiError | src/hvac_leads/google_places.py:55-58 | a refused status ends the fetch with that status and the API's message (or the stock message), after pages whose statuses were all accepted |
| GooglePlaces.RequestsShape | src/hvac_leads/google_places.py:45-54 | the first request is the query request; each later one is a 2-second wait followed by a request for the previous response's token |
| GooglePlaces.FetchTraceShape | src/hvac_leads/google_places.py:45-54 | the trace has `2n - 1` events for `n` requests: the query request first, then for every later page a wait and a request carrying the key and the previous page's non-empty token |
| GooglePlaces.FetchAndSaveRawCsv | src/hvac_leads/google_places.py:72-98 | a key that is missing or only whitespace fails with the missing-key error before any request. Otherwise the stripped key is used and `max_results` defaults to 60: fetch errors are passed on, and records go out under the nine-column header |

## Left out

- File I/O is not modelled: opening, the CSV reader and writer, and creating the output directory. `score_csv` starts from the rows as `csv.DictReader` returns them. A short row's missing cells are `None`. Extra cells stored under the reader's `restkey` are not modelled.
- The network is not modelled. `urlopen`, URL encoding, the endpoint URL, the 30-second timeout and JSON decoding are outside the model. A response is already a typed value, so JSON fields of an unexpected type are not represented.
- `time.sleep(2)` is recorded as an event rather than performed. The environment lookup is a parameter.
- Case mapping covers ASCII letters only; non-ASCII letters in names, tags or statuses are left unchanged.
- Floats are `real`s. `float()`, `log10`, `round` and two-decimal formatting are uninterpreted. NaN and the infinities are not modelled, so neither is the `OverflowError` that `int(float("inf"))` raises.
- The sort is a functional stable insertion sort, not Timsort. It has the same result, since a stable sort by a key is unique.
- Dicts are values: `score_csv` updates each row dict in place, and the model returns a new row instead. Nothing outside the function holds those dicts, so no aliasing is lost.
- `generate_leads.py` and `prioritize_leads.py` are not part of this model. They are command-line wrappers around the two core functions.
- Scoring.ReviewVolumeScore: its own contract gives only the upper bound 30. That the score is non-negative needs a non-negative `log10`, so ReviewVolumeMonotone states it under `Sane`.
- Scoring.LeadScoreBounds: it requires `Sane`, because the bounds depend on the properties of `log10` and `round`.
- GooglePlaces.Normalize: the rating and the review total are typed as a number and an integer. A JSON value of another type is passed through by the source and cannot be represented here.

## Notes on the keyword score

- The keyword score counts distinct keywords at 1.5 each, so a name "Austin HVAC & AC Repair" with tags "hvac,contractor" matches three keywords (hvac, ac repair, contractor) and scores 3 × 1.5 = 4.5 (ThreeMatches shows that any three matches give 4.5; that this text matches exactly these three is not proved).
- The keyword score is not invariant under reordering of the tags: the searchable text joins the name and the tags with a space, so a keyword can span the name and the first tag, and swapping the tags can remove it from the matched keywords (TagOrderMatters).
