# descobridor: review scraping, review ages, crontab back-off and place reshaping in Dafny

descobridor finds restaurants and similar places on Google Maps, one hexagon of
the map at a time. It pages through their reviews and turns the scraped pages
into review tables. It also reshapes answers of the SERP API into place records.
This project models the sequential logic of that pipeline and proves properties
of it. The model covers:

- **Review paging** (`RawReviews`, `read_raw_reviews.py`).
  - The link of each review page, and the continuation token taken from a page.
  - The page loop of `extract_all_reviews`. Page 0 uses the empty token, and each
    later link carries the token of the previous page. Page numbers run 0, 1, 2, …
  - The loop ends on a page without a token, on a page older than the last
    review already known, or at a random ceiling of 70..99.
  - Fetching a page and reading its newest review date are function parameters.
- **Review ages** (`ReviewAges`, `review_age.py`).
  - A Spanish age text such as "Hace 2 semanas" becomes a number of days.
  - That number gives a precision bucket and a review date.
- **Quota back-off** (`SerpJobFreq`, `change_serpjob_freq.py`).
  - A `Crontab` object holds the crontab's lines.
  - It retimes every `serp_sender.py` line.
  - It appends or removes the one-shot line that resumes the normal schedule.
- **Review text structuring** (`ReviewParser`, `review_parser.py`; `ParseHtml`, `parse_html.py`).
  - Word lists become dicts holding a review and its `label : mark` ratings.
  - Columns are zipped into those dicts.
  - Scraped strings are cleaned.
  - Machine-translated reviews are split into the translation and the original.
  - The stars column is built from the digits of the star tags.
  - The page columns are padded and concatenated.
- **Place records** (`HexScan`, `PlacesSchema`, `hex_scan.py`; `SerpApi`, `serp_api.py`).
  - The paging and de-duplication of `scan_hex`.
  - The default-filling helpers and the schema filter.
  - The coordinate re-nesting of SERP entries.
  - The equal-length place tables built from `place_results` (labels `pr` and
    `pasf_N`) or from `local_results` (labels `ll_N`).

Python values are modelled by `PyValues.Value`, and the exceptions the code raises
by `PyValues.Error`. An operation that can raise returns a `Result`. A dict the
code updates in place is a `PyValues.Dict` object. `Text` holds the Python string
operations the code uses: `find`, `partition`, `replace`, `strip`, `split`,
`join`, `lower` and `int`.

## Model

| member | source | states |
|---|---|---|
| PyValues.Has | descobridor/discovery/serp_api.py:148 | `key in v` is key membership for a dict and raises TypeError for a value that is not a container |
| PyValues.Repeat | descobridor/discovery/serp_api.py:131 | `[x] * n` has length n and holds x everywhere |
| PyValues.Dict.Pop | descobridor/discovery/hex_scan.py:220 | `pop` returns the value and removes exactly that key; a missing key raises KeyError and leaves the dict as it was |
| ReviewParser.Colons | descobridor/discovery/review_parser.py:57 | every index returned holds a `:` word, and the result is empty exactly when there is no `:` word |
| ReviewParser.ColonsSpec | descobridor/discovery/review_parser.py:57 | `locate` lists every `:` index, in strictly increasing order |
| ReviewParser.Mark | descobridor/discovery/review_parser.py:62 | `sentence[p+1:p+2]` is the word after the colon, or empty when the colon is the last word |
| ReviewParser.WithRatingsLookup | descobridor/discovery/review_parser.py:61-62 | the label of a colon that no later colon reuses is mapped to the mark after it, so the last assignment to a label wins |
| ReviewParser.WithRatingsOther | descobridor/discovery/review_parser.py:61-62 | a key that is no colon's label is present and valued exactly as before the ratings |
| ReviewParser.WithRatingsKeepsLists | descobridor/discovery/review_parser.py:60-62 | ratings store only lists, so a list-valued key stays list-valued |
| ReviewParser.SingleColon | descobridor/discovery/review_parser.py:56-62 | with a single `:` at p, the dict is exactly `review` = [words before p-1, joined] plus word p-1 mapped to the mark |
| ReviewParser.OneRating | descobridor/discovery/review_parser.py:56-62 | "text … aspect : mark" gives exactly {review: [text], aspect: [mark]} |
| ReviewParser.LeadingColon | descobridor/discovery/review_parser.py:60-62 | a `:` at index 0 reads index -1: the review keeps all words but the last, and the last word becomes the label |
| ReviewParser.RatedReviewIsList | descobridor/discovery/review_parser.py:60 | with `:` words, `review` is a list |
| ReviewParser.PlainReview | descobridor/discovery/review_parser.py:64-65 | without `:` words, `review` is the plain string of the words joined by spaces, and it splits back into the same words |
| ReviewParser.NewReviewDict | descobridor/discovery/review_parser.py:53-66 | a new dict holding the review dict of one word list |
| ReviewParser.AddToListOfReviewDict | descobridor/discovery/review_parser.py:46-67 | one new, distinct dict per word list, in input order, each holding that list's review dict |
| ReviewParser.MergeListIntoDicts | descobridor/discovery/review_parser.py:99-109 | the result is the first min(len) dicts themselves; the i-th gets `key` = i-th item with its other keys untouched (a dict listed twice keeps its later item); dicts beyond the zip are unchanged |
| ReviewParser.StripMasAsWritten | descobridor/discovery/review_parser.py:193 | `rstrip('Más')` only removes a suffix |
| ReviewParser.StripMasEatsLetters | descobridor/discovery/review_parser.py:193 | as written, "Muchas gracias" loses its final s (see Findings) |
| ReviewParser.StripMas | descobridor/discovery/review_parser.py:193 | removing the "Más" label: a text ending in "Más" is the result followed by "Más", and any other text is kept |
| ReviewParser.StripMasRoundTrip | descobridor/discovery/review_parser.py:193 | a text followed by the "Más" label gets back exactly that text |
| ReviewParser.RepetitionIndex | descobridor/discovery/review_parser.py:194-196 | `find(sep, 1)` is -1 or an index in [1, len): never 0 |
| ReviewParser.CutRepetitionAsWritten | descobridor/discovery/review_parser.py:194-198 | as written, the cut keeps a prefix of the text; where the opening recurs it agrees with the intended cut, and where it does not (`find` gives -1) it drops exactly one character (see Findings) |
| ReviewParser.CutDropsLastChar | descobridor/discovery/review_parser.py:196-198 | as written, every text of 1 to 30 characters loses its last character (see Findings) |
| ReviewParser.CutRepetition | descobridor/discovery/review_parser.py:196-198 | the cut text is a prefix of the text |
| ReviewParser.CutRepetitionSpec | descobridor/discovery/review_parser.py:194-198 | the text is kept iff its opening 30 characters do not recur (case-insensitively) after index 0; otherwise it is cut at the first recurrence |
| ReviewParser.ShortTextKept | descobridor/discovery/review_parser.py:194-198 | under the intended cut (see Findings), a text of at most 30 characters is kept whole |
| ReviewParser.SplitTranslatedOriginal | descobridor/discovery/review_parser.py:181-210 | falsy or non-string text gives ('', ''); a non-empty string with a language other than "ES" raises NotImplementedError, and only then is there an error; an "ES" string is cleaned as written (`rstrip('Más')`, then the cut at `repetition_index`) before its markers are read |
| ReviewParser.CleanedIntended | descobridor/discovery/review_parser.py:193-198 | the intended cleaning keeps a prefix of the text |
| ReviewParser.IntendedSplit | descobridor/discovery/review_parser.py:181-210 | the splitter with the intended cleaning (see Findings) has the same error and empty cases as the code |
| ReviewParser.CleaningsCompared | descobridor/discovery/review_parser.py:193-198 | on a text not ending in M, á or s, the written and intended cleanings agree when the opening recurs; otherwise the written one drops the last character and the intended one keeps the text |
| ReviewParser.SplitMarkers | descobridor/discovery/review_parser.py:200-210 | the marker step on the cleaned text: with either marker present both halves come back stripped; with neither, the text comes back whole with an empty original |
| ReviewParser.NoMarkers | descobridor/discovery/review_parser.py:201-207 | a text without `(` is left alone by every marker `replace` and `partition` |
| ReviewParser.SpanishLayout | descobridor/discovery/review_parser.py:200-201 | a text laid out as "(Traducido por Google) t (Original) o" passes the word test and partitions at "(Original)" |
| ReviewParser.SpanishSplit | descobridor/discovery/review_parser.py:200-203 | on that layout the marker step (after cleaning) returns (t, o) |
| ReviewParser.MarkerWordsDiffer | descobridor/discovery/review_parser.py:200-204 | the English marker words do not contain the Spanish ones, so the Spanish branch does not capture English reviews |
| ReviewParser.EnglishLayout | descobridor/discovery/review_parser.py:204-205 | a text laid out as "o (Translated by Google) t" fails the Spanish test, passes the English one and partitions at the marker |
| ReviewParser.EnglishSplit | descobridor/discovery/review_parser.py:204-208 | on that layout the marker step (after cleaning) returns (t, o): the target text comes after the marker and the original before it |
| ReviewParser.ShortReviewLosesLastChar | descobridor/discovery/review_parser.py:193-210 | as written, a Spanish review of at most 30 characters, without markers and not ending in M, á or s, comes back without its last character and with an empty original (see Findings) |
| ReviewParser.PlainShortReview | descobridor/discovery/review_parser.py:196-198 | with the intended cleaning, a short review without markers or "Más" label comes back whole, with an empty original |
| ReviewParser.Annotated | descobridor/discovery/review_parser.py:215-216 | a missing `review` raises KeyError and a failing split raises its error; otherwise the dict gains `review_target_language` and `review_original` holding the two halves of the split, and `language`; other keys are unchanged |
| ReviewParser.AnnotatedIdempotent | descobridor/discovery/review_parser.py:215-216 | annotating twice equals annotating once |
| ReviewParser.RatedReviewNotSplit | descobridor/discovery/review_parser.py:60 | a review with ratings holds a list, so both of its split texts are empty (also lines 184-185) |
| ReviewParser.UnsplitReview | descobridor/discovery/review_parser.py:184-185 | any list-valued `review` gives two empty texts and the language |
| ReviewParser.AnnotateDict | descobridor/discovery/review_parser.py:215-216 | the dict is updated in place to exactly what `Annotated` gives (the split's two halves and the language added, other keys kept); when `review` is missing or the split raises, that error comes back and the dict is unchanged |
| ReviewParser.AddTranslatedOriginalToDict | descobridor/discovery/review_parser.py:213-217 | succeeds iff every dict can be annotated; then every dict is annotated in place and the same list is returned; otherwise the first failing dict's error is raised, with the dicts before it annotated and the rest unchanged |
| ParseHtml.CleanTextIsClean | descobridor/discovery/parse_html.py:19 | a cleaned string has no `,`, `|` or newline and no surrounding whitespace |
| ParseHtml.CleanTextFixed | descobridor/discovery/parse_html.py:62 | cleaning leaves a string unchanged exactly when it is already clean |
| ParseHtml.CleanTextIdempotent | descobridor/discovery/parse_html.py:62 | cleaning twice equals cleaning once |
| ParseHtml.ReviewWordsClean | descobridor/discovery/parse_html.py:19-22 | each word of a review span is non-empty, has no whitespace, and has no `,` or `|` |
| ParseHtml.GetReviewTextAndRatings | descobridor/discovery/parse_html.py:9-25 | one word list per review span, in order, each the cleaned span's words |
| ParseHtml.PageReviewAgrees | descobridor/discovery/parse_html.py:37-48 | the page parser's dict equals the review parser's, except that a review without ratings is wrapped in a one-element list (also `review_parser.py` lines 52-65) |
| ParseHtml.PageReviewIsList | descobridor/discovery/parse_html.py:44-48 | `review` is always a list, and it has one element unless a rating label is itself "review" |
| ParseHtml.NewPageReviewDict | descobridor/discovery/parse_html.py:38-48 | a new dict holding the page review dict of one word list |
| ParseHtml.GetPageReviews | descobridor/discovery/parse_html.py:28-52 | one new, distinct dict per review span, in order |
| ParseHtml.GetReviewerNames | descobridor/discovery/parse_html.py:55-64 | one cleaned name per name text, in order |
| ParseHtml.ReviewTimeTrimmed | descobridor/discovery/parse_html.py:75-76 | a review time has no surrounding whitespace and no newline |
| ParseHtml.ReviewTimeOfWords | descobridor/discovery/parse_html.py:75-76 | a time text that is already single-spaced words without "Nuevo" is kept |
| ParseHtml.NuevoBadgeDropped | descobridor/discovery/parse_html.py:75-76 | a time text followed by a "Nuevo" badge on its own line gives back the time text |
| ParseHtml.GetReviewTimes | descobridor/discovery/parse_html.py:67-78 | one review time per time text, in order |
| ParseHtml.FirstDigit | descobridor/discovery/parse_html.py:89-90 | the index found holds a digit, and no earlier index does |
| ParseHtml.Star | descobridor/discovery/parse_html.py:88-90 | a tag without a digit raises IndexError; otherwise the result is its first digit |
| ParseHtml.Stars | descobridor/discovery/parse_html.py:87-91 | succeeds iff every tag has a digit, giving one digit per tag in order; otherwise IndexError |
| ParseHtml.GetStars | descobridor/discovery/parse_html.py:81-92 | the loop computes exactly the star list, error included |
| ParseHtml.NamesOf | descobridor/discovery/parse_html.py:109 | one clean name per name text |
| ParseHtml.TimesOf | descobridor/discovery/parse_html.py:110 | one trimmed time per time text |
| ParseHtml.ReviewsOf | descobridor/discovery/parse_html.py:108 | one review dict per span, each with a list under `review` |
| ParseHtml.PageColumns | descobridor/discovery/parse_html.py:107-114 | raises IndexError iff some star tag has no digit; otherwise the place name and scrape date are repeated once per star entry, whatever the lengths of the other lists |
| ParseHtml.GetAllReviews | descobridor/discovery/parse_html.py:95-114 | the six lists of one page, agreeing with the page columns, with new and distinct review dicts |
| ParseHtml.RowsColumns | descobridor/discovery/parse_html.py:125-128 | one page result per table row, in row order |
| ParseHtml.CollectSnoc | descobridor/discovery/parse_html.py:125-134 | one more page extends each column by that page's list |
| ParseHtml.CollectConcat | descobridor/discovery/parse_html.py:125-134 | collecting two runs of pages is the concatenation of their columns: nothing is dropped or reordered |
| ParseHtml.CollectFails | descobridor/discovery/parse_html.py:125-128 | collecting succeeds iff every page does, and a failure is some page's own error |
| ParseHtml.CollectPadded | descobridor/discovery/parse_html.py:112-113 | the concatenated place-name and scrape-date columns stay as long as the stars column (also lines 133-134) |
| ParseHtml.FrameErrors | descobridor/discovery/parse_html.py:117-136 | the table raises IndexError exactly when some star tag has no digit; otherwise it raises only when the review, name or time count differs from the star count |
| ParseHtml.ScrapeAllFilesReviews | descobridor/discovery/parse_html.py:117-136 | the loop computes exactly the frame of the row-order concatenation of the page columns |
| RawReviews.FormatQueryNextPage | descobridor/discovery/read_raw_reviews.py:22-25 | the link is the header, ":", the data id and the sort and token prefix, then the token right after `next_page_token:`, then the fixed tail |
| RawReviews.LinkInjective | descobridor/discovery/read_raw_reviews.py:22-25 | two links of the same place are equal only for equal tokens |
| RawReviews.WordRunChars | descobridor/discovery/read_raw_reviews.py:28 | `\w+` takes the longest run of word characters |
| RawReviews.EqualsRunChars | descobridor/discovery/read_raw_reviews.py:28 | `=+` takes the longest run of `=` |
| RawReviews.TokenFrom | descobridor/discovery/read_raw_reviews.py:28 | a captured token is non-empty, ends in `=`, has no quote, and follows the marker at that position |
| RawReviews.FirstTokenAtIsFirst | descobridor/discovery/read_raw_reviews.py:28 | the scan finds the first position where the token pattern matches, or reports that none does |
| RawReviews.NextPageToken | descobridor/discovery/read_raw_reviews.py:27-28 | the token ends in `=`; with no match the lookup raises IndexError |
| RawReviews.NextPageTokenFirstMatch | descobridor/discovery/read_raw_reviews.py:27-28 | IndexError iff the pattern matches nowhere; otherwise the token is the capture of the first match |
| RawReviews.TokenRoundTrip | descobridor/discovery/read_raw_reviews.py:27-28 | a page holding `data-next-page-token="` + word + padding + `"` gives back word + padding |
| RawReviews.StorePage | descobridor/discovery/read_raw_reviews.py:33-52 | a record exists iff the page has a token; it carries that token, the page number, the content, the place fields and today's date |
| RawReviews.SerpDataId | descobridor/discovery/read_raw_reviews.py:80 | succeeds iff `serp_output['place_results']['data_id']` exists |
| RawReviews.DataIdOf | descobridor/discovery/read_raw_reviews.py:73-80 | a missing `data_id` raises KeyError; a truthy one is used as is; otherwise `place_id`, `name` and `coords` are read in that order (the first missing one raises KeyError) and the id comes from the SERP answer |
| RawReviews.CurrentTokenPrefix | descobridor/discovery/read_raw_reviews.py:84 | the current token is the last stored page's token, empty before any page (also line 93) |
| RawReviews.NextLinkFollows | descobridor/discovery/read_raw_reviews.py:88 | the next link is built from the current token |
| RawReviews.StoreFollows | descobridor/discovery/read_raw_reviews.py:99-105 | storing the fetched page keeps every link tied to the previous page's token |
| RawReviews.StoreInOrder | descobridor/discovery/read_raw_reviews.py:92-105 | a fetched page is stored with the next page number iff it has a token |
| RawReviews.LastPageOutcome | descobridor/discovery/read_raw_reviews.py:92-96 | the last link has no stored page iff its page has no token, and every stored page's token was read from its own page |
| RawReviews.FetchPage | descobridor/discovery/read_raw_reviews.py:87-111 | one iteration: fetch with the current token; stop on a missing token or an old page; otherwise store and continue |
| RawReviews.FetchPages | descobridor/discovery/read_raw_reviews.py:84-111 | 1 to 99 fetches; links follow tokens; pages are stored as 0, 1, 2, …; only the last stored page may be older than the last known review; before 70 pages, an exit with every fetched page stored means the last page was old |
| RawReviews.ExtractAllReviews | descobridor/discovery/read_raw_reviews.py:72-116 | the data id is resolved first and its error stops everything; a missing `place_id` then raises before any fetch; an entry without `name` fetches the first page and raises KeyError only if that page has a token; otherwise the page loop runs and the entry is marked reviewed exactly once |
| ReviewAges.UnitFactor | descobridor/discovery/review_age.py:77-94 | the unit words the code knows, and only those, have a day factor |
| ReviewAges.Scaled | descobridor/discovery/review_age.py:82-94 | `int(n) * factor`, failing iff the numeral does not parse |
| ReviewAges.EsWordsToDaysAsWritten | descobridor/discovery/review_age.py:75-96 | a day count is only produced for "hace", a numeral and a known unit; the minute, second and hour units give 0 days, and any other unit raises ValueError("Unknown age unit: …") |
| ReviewAges.UnaSemanaAsWritten | descobridor/discovery/review_age.py:83-86 | as written, "hace una semana" gives 1 day while "hace 1 semana" gives 7 (see Findings) |
| ReviewAges.EsWordsToDays | descobridor/discovery/review_age.py:75-96 | a day count is only produced for "hace", a numeral and a known unit |
| ReviewAges.ArticleMeansOne | descobridor/discovery/review_age.py:79-94 | "un"/"una" counts as the numeral 1 for every unit, giving exactly the unit's factor |
| ReviewAges.CorrectionIsLocal | descobridor/discovery/review_age.py:75-96 | the corrected parser agrees with the code everywhere except "una semana(s)" |
| ReviewAges.CaseInsensitive | descobridor/discovery/review_age.py:75 | the text is lower-cased first, so case does not matter |
| ReviewAges.EsAgeRoundTrip | descobridor/discovery/review_age.py:75-94 | "hace {n} {unit}" parses to n times the unit's days |
| ReviewAges.NumeralWords | descobridor/discovery/review_age.py:82-94 | any other numeral is scaled by the unit's factor |
| ReviewAges.AgeTextWords | descobridor/discovery/review_age.py:75 | splitting "hace {n} {unit}" on spaces gives its three words |
| ReviewAges.NumeralHasNoSpace | descobridor/discovery/review_age.py:75 | a printed number has no space, is lower case and is not an article or "hace" |
| ReviewAges.ParsedStartsWithHace | descobridor/discovery/review_age.py:76 | every parsed text starts with "hace " in lower case |
| ReviewAges.MalformedIsError | descobridor/discovery/review_age.py:76-77 | a first word other than "hace" fails the assertion; fewer than three words raises IndexError |
| ReviewAges.StringToDays | descobridor/discovery/review_age.py:27-32 | "ES" parses the Spanish text as written ("una semana" is one day); "EN" raises AttributeError because the English parser does not exist; any other language gives None |
| ReviewAges.Precision | descobridor/discovery/review_age.py:55-68 | the precision is one of 0, 1, 7, 30, 365, and 0 exactly for 0 days |
| ReviewAges.PrecisionAtMostDays | descobridor/discovery/review_age.py:55-68 | the precision never exceeds the day count, and it is 365 from a year on |
| ReviewAges.PrecisionMonotone | descobridor/discovery/review_age.py:55-68 | more days never give a finer precision |
| ReviewAges.PrecisionOfUnit | descobridor/discovery/review_age.py:55-94 | an age counted in a unit has a precision at least that unit |
| ReviewAges.NewReviewAge | descobridor/discovery/review_age.py:12-25 | the review date is the scrape day minus the days before the scrape, the age is today minus the review date, and the precision is that of the day count; it fails iff the text does not give a day count |
| ReviewAges.ReviewAgeOfText | descobridor/discovery/review_age.py:12-25 | for "hace {n} {unit}", the review date is n units before the scrape date |
| ReviewAges.UnaSemanaDays | descobridor/discovery/review_age.py:75-86 | as written, "hace una semana" is one day before the scrape (see Findings) |
| ReviewAges.HorasDays | descobridor/discovery/review_age.py:77-78 | "hace 3 horas" is zero days before the scrape |
| ReviewAges.SegundosUnknown | descobridor/discovery/review_age.py:77-96 | the unit list spells "secundos", so "hace 2 segundos" raises ValueError("Unknown age unit: segundos") |
| ReviewAges.UnaSemanaReviewAge | descobridor/discovery/review_age.py:12-25 | as written, a review "hace una semana" is dated one day before the scrape, with a precision of one day |
| SerpJobFreq.Retimed | descobridor/queueing/change_serpjob_freq.py:39-45 | the list keeps its length, and each line is retimed on its own |
| SerpJobFreq.ResumeLineIsMarked | descobridor/queueing/change_serpjob_freq.py:22-28 | the resume line contains `change_serpjob_freq.py` |
| SerpJobFreq.ResumeLineNotRetimed | descobridor/queueing/change_serpjob_freq.py:22-28 | the resume line does not contain `serp_sender.py` |
| SerpJobFreq.RetimedFrame | descobridor/queueing/change_serpjob_freq.py:39-45 | a line without `serp_sender.py` is unchanged; a line with it becomes new time + " /" + the text after its first " /" |
| SerpJobFreq.RetimeReplacesPrefix | descobridor/queueing/change_serpjob_freq.py:43-44 | everything before the first " /" is replaced by the new time |
| SerpJobFreq.RetimeDropsCdPrefix | descobridor/queueing/change_serpjob_freq.py:6-10 | on the documented crontab line the `(cd` is discarded together with the schedule (also lines 43-44) |
| SerpJobFreq.RetimeIdempotent | descobridor/queueing/change_serpjob_freq.py:43-45 | a new time without " /" makes retiming a line idempotent |
| SerpJobFreq.RetimedIdempotent | descobridor/queueing/change_serpjob_freq.py:39-45 | the same for the whole list |
| SerpJobFreq.RemoveFirstMarkedAt | descobridor/queueing/change_serpjob_freq.py:31-36 | only the first marked line is removed; the others keep their order |
| SerpJobFreq.RemoveFirstMarkedNone | descobridor/queueing/change_serpjob_freq.py:31-36 | with no marked line, the list is unchanged |
| SerpJobFreq.AppendThenRemove | descobridor/queueing/change_serpjob_freq.py:20-36 | appending the resume line and then removing it restores a list that had none |
| SerpJobFreq.RetimeTwice | descobridor/queueing/change_serpjob_freq.py:43-45 | retiming a line twice equals retiming it with the second time |
| SerpJobFreq.RetimeKeepsUnmarked | descobridor/queueing/change_serpjob_freq.py:43-45 | retiming a line never creates an occurrence of a long, slash-free word |
| SerpJobFreq.ResumeUndoesPostpone | descobridor/queueing/change_serpjob_freq.py:47-60 | resuming after postponing leaves the lines on the ten-minute schedule, with no resume line |
| SerpJobFreq.PostponeScheduleHasNoSep | descobridor/queueing/change_serpjob_freq.py:49 | the postpone schedule holds no " /" |
| SerpJobFreq.RetimedTwice | descobridor/queueing/change_serpjob_freq.py:49-59 | retiming the list twice equals retiming it with the second time |
| SerpJobFreq.RetimedKeepsUnmarked | descobridor/queueing/change_serpjob_freq.py:39-45 | retiming never marks a list with the resume script |
| SerpJobFreq.RetimedAppendResume | descobridor/queueing/change_serpjob_freq.py:22-28 | the resume line survives any retiming unchanged (also lines 39-45) |
| SerpJobFreq.Crontab.AppendResumeJob | descobridor/queueing/change_serpjob_freq.py:20-28 | exactly the resume line is added at the end |
| SerpJobFreq.Crontab.RemoveResumeJob | descobridor/queueing/change_serpjob_freq.py:31-36 | the lines lose their first resume line, if any |
| SerpJobFreq.Crontab.ChangeSerpJobTime | descobridor/queueing/change_serpjob_freq.py:39-45 | every line is retimed in place |
| SerpJobFreq.Crontab.PostponeJob | descobridor/queueing/change_serpjob_freq.py:47-54 | lines are retimed to `0 16 8 * *`, then the resume line is appended |
| SerpJobFreq.Crontab.ResumeJob | descobridor/queueing/change_serpjob_freq.py:57-63 | lines are retimed to `*/10 * * * *`, then the first resume line is removed |
| SerpJobFreq.Crontab.Run | descobridor/queueing/change_serpjob_freq.py:66-76 | `--postpone` wins over `--resume`; with neither flag, ValueError is raised and nothing changes |
| SerpJobFreq.CrontabTextRoundTrip | descobridor/queueing/change_serpjob_freq.py:16 | splitting the crontab text on newlines and joining it back gives the same text (also lines 52-53) |
| PlacesSchema.SchemaSize | descobridor/discovery/hex_scan.py:142-168 | the schema has 21 distinct names |
| PlacesSchema.SchemaFacts | descobridor/discovery/hex_scan.py:146-168 | the schema holds `types_en`, `priority` and `unserpable`, and neither `geometry` nor `types` |
| HexScan.TypesHandled | descobridor/discovery/hex_scan.py:217-222 | `types` is gone; `types_en` is the old `types`, or [] (overwriting) when there was none; other keys are unchanged and no key is added |
| HexScan.TypesHandledTwice | descobridor/discovery/hex_scan.py:217-222 | a second call resets `types_en` to [] |
| HexScan.HandlePlaceTypes | descobridor/discovery/hex_scan.py:217-222 | the dict is changed in place as described above |
| HexScan.WithDefault | descobridor/discovery/hex_scan.py:225-232 | the key is set only when absent; every existing entry is kept and no other key is added |
| HexScan.WithDefaultIdempotent | descobridor/discovery/hex_scan.py:225-232 | filling a default twice equals filling it once |
| HexScan.AddDefaultPriority | descobridor/discovery/hex_scan.py:225-227 | priority defaults to 1 in place |
| HexScan.AddDefaultUnserpable | descobridor/discovery/hex_scan.py:230-232 | unserpable defaults to False in place |
| HexScan.KeepSchema | descobridor/discovery/hex_scan.py:208-211 | exactly the schema keys and `geometry` are kept, with their values |
| HexScan.DefaultedKeysSurvive | descobridor/discovery/hex_scan.py:205-211 | after the three helpers, `types_en`, `priority` and `unserpable` always pass the filter, `types` never does, and existing values are kept |
| HexScan.KeptGeometry | descobridor/discovery/hex_scan.py:208-211 | `geometry` passes the filter unchanged |
| HexScan.GetLatLong | descobridor/discovery/hex_scan.py:135-139 | succeeds iff `location.lat` and `location.lng` exist, and returns them |
| HexScan.LocatedRow | descobridor/discovery/hex_scan.py:107-112 | a row is located iff it has a readable geometry; then `geometry` is replaced by `coords` = [lat, lng], `loc_hex{size}` = the cell at the sub-hexagon resolution, `search_hex7` = the given value and `loc_hex7` = the cell at resolution 7, and every other key keeps its value |
| HexScan.LocHexIsLocHex7Only | descobridor/discovery/hex_scan.py:108-111 | `loc_hex{size}` names the same column as `loc_hex7` only when the size is 7 |
| HexScan.LocatedRows | descobridor/discovery/hex_scan.py:107-112 | every row is located, and any row that cannot be located raises |
| HexScan.AddLocationColumns | descobridor/discovery/hex_scan.py:101-114 | a frame with no geometry column raises AttributeError; otherwise every row is located |
| HexScan.OneRowLocated | descobridor/discovery/hex_scan.py:101-114 | the one-row frame of a place dict is located exactly when its dict has a readable geometry (also line 212) |
| HexScan.LocationNotBoilerplate | descobridor/discovery/hex_scan.py:111-131 | the location columns are not overwritten by the query columns |
| HexScan.AddQueryBoilerplate | descobridor/discovery/hex_scan.py:117-132 | every row gains exactly the query columns; both review flags are False, both extraction dates None, `all_queries` is [query]; other columns are unchanged |
| HexScan.PlacesRow | descobridor/discovery/hex_scan.py:199-214 | one row, produced exactly when the place dict has a readable geometry |
| HexScan.PlacesRowColumns | descobridor/discovery/hex_scan.py:199-214 | that row has the defaulted keys and the coordinates, has no geometry, and holds the given data id, no search hexagon and [None] as its queries |
| HexScan.FormatPlacesDf | descobridor/discovery/hex_scan.py:199-214 | the dict is changed in place by the three helpers, and the row is that of the original dict |
| HexScan.RowsOf | descobridor/discovery/hex_scan.py:48-49 | one row per dict in the list of results |
| HexScan.Tagged | descobridor/discovery/hex_scan.py:51 | every row gets the column set to the value; a page without rows raises ValueError, as pandas does for a scalar set on a frame with no index (also line 63) |
| HexScan.FollowPages | descobridor/discovery/hex_scan.py:55-69 | at most `count` follow-up pages, none of them empty, each tagged with its sub-hexagon; an answer whose `results` cannot be read raises, an empty one raises ValueError, an answer without `next_page_token` is dropped and ends the run, and a page is only appended for an answer that carries a token |
| HexScan.SubHexPages | descobridor/discovery/hex_scan.py:44-69 | between 1 and max(n_pages, 1) pages per sub-hexagon; an empty first page raises ValueError, and a non-empty one without a token raises KeyError |
| HexScan.ScanPages | descobridor/discovery/hex_scan.py:43-69 | between one and max(n_pages, 1) pages per sub-hexagon |
| HexScan.ScanPagesErr | descobridor/discovery/hex_scan.py:43-69 | the first sub-hexagon that raises ends the scan with its error |
| HexScan.SubHexScan | descobridor/discovery/hex_scan.py:44-69 | the loop over follow-up pages computes exactly the sub-hexagon's pages |
| HexScan.KeysOf | descobridor/discovery/hex_scan.py:76 | a place id is among the keys iff some row carries it |
| HexScan.DropDuplicates | descobridor/discovery/hex_scan.py:76 | the same place ids remain, each exactly once |
| HexScan.DropDuplicatesSubset | descobridor/discovery/hex_scan.py:76 | every remaining row is an input row |
| HexScan.DropDuplicatesKeepsFirst | descobridor/discovery/hex_scan.py:76 | the first row of each place id is the one kept |
| HexScan.FirstIndices | descobridor/discovery/hex_scan.py:76 | the positions of first occurrences are in range and strictly increasing |
| HexScan.FirstIndicesAreFirsts | descobridor/discovery/hex_scan.py:76 | a position is listed iff its row is the first with its place id |
| HexScan.DropDuplicatesInOrder | descobridor/discovery/hex_scan.py:76 | the kept rows are exactly the rows at those positions, in their original order |
| HexScan.FinishScan | descobridor/discovery/hex_scan.py:73-76 | the finished table holds each place id once |
| HexScan.ScanHexResult | descobridor/discovery/hex_scan.py:18-78 | no sub-hexagon means nothing to concatenate (ValueError); a result holds each place id once |
| HexScan.ScanHex | descobridor/discovery/hex_scan.py:18-78 | the loop over sub-hexagons computes exactly the scan result |
| SerpApi.CoordsToGeometry | descobridor/discovery/serp_api.py:70-80 | latitude and longitude are copied unchanged to `location.lat` and `location.lng`, so the places reader gets them back; a missing one raises KeyError |
| SerpApi.GeometrySet | descobridor/discovery/serp_api.py:83 | `geometry` is set from `gps_coordinates`, whose absence raises KeyError |
| SerpApi.FormattedEntry | descobridor/discovery/serp_api.py:82-87 | the entry gains `geometry` and `name` = title, and `formatted_address` = address only when that key was absent; other keys are unchanged |
| SerpApi.FormattedEntryIdempotent | descobridor/discovery/serp_api.py:82-87 | formatting an entry twice equals formatting it once |
| SerpApi.FormatSerpEntry | descobridor/discovery/serp_api.py:82-87 | the same dict is returned, formatted in place; on an error the geometry set before it stays |
| SerpApi.HeaderOf | descobridor/discovery/serp_api.py:131-136 | the three metadata fields and the query `q_ll`; a missing one raises KeyError |
| SerpApi.Iterated | descobridor/discovery/serp_api.py:138 | a list iterates its items; a string or dict iterates strings, which have no `position`; anything else raises TypeError (also line 167) |
| SerpApi.Labels | descobridor/discovery/serp_api.py:140 | the labels exist exactly when every entry has a position; there is one per entry, the prefix followed by that entry's position (also line 169) |
| SerpApi.LabelsFirstErr | descobridor/discovery/serp_api.py:138-141 | a failure is the error of the first entry without a position, all earlier entries having one (also lines 167-169) |
| SerpApi.LabelsSnoc | descobridor/discovery/serp_api.py:138-141 | one more entry either fails with its own position error or appends its label to the labels so far |
| SerpApi.LabelsErr | descobridor/discovery/serp_api.py:138-141 | once an entry fails, more entries do not change the error |
| SerpApi.LocalResultsTable | descobridor/discovery/serp_api.py:127-143 | all six columns have one entry per local result; places are the entries in order, labels are `ll_{position}`, query params are `q_ll` |
| SerpApi.AppendLabelled | descobridor/discovery/serp_api.py:138-141 | the loop appends the entries and their labels, or raises the first label error (also lines 167-169) |
| SerpApi.ConvertLocalResultsToPlaceResults | descobridor/discovery/serp_api.py:127-143 | the loop computes exactly the local-results table |
| SerpApi.Index0 | descobridor/discovery/serp_api.py:149 | `[0]` of a list is its first item; an empty list raises IndexError |
| SerpApi.AlsoSearched | descobridor/discovery/serp_api.py:148-151 | no `people_also_search_for` binds []; otherwise its first item's `local_results`, whatever it is, with nothing counted yet |
| SerpApi.PlaceResultsTable | descobridor/discovery/serp_api.py:146-170 | errors in source order: `place_results`, the also-searched binding, `search_metadata` (read before `len`), `len`, then the other fields and the labels; on success the table is `PlaceColumns` of the main place and the also-searched places |
| SerpApi.PlaceColumns | descobridor/discovery/serp_api.py:153-170 | all columns have n+1 entries: the main place labelled `pr`, then each also-searched place labelled `pasf_{position}`, in order, with the search fields and the query label repeated |
| SerpApi.MetadataBeforeLength | descobridor/discovery/serp_api.py:149-154 | an also-searched `local_results` of 5 in an answer without `search_metadata` raises KeyError('search_metadata'), not the TypeError of `len` |
| SerpApi.GetAllPlacesFromPlaceResults | descobridor/discovery/serp_api.py:146-170 | the loop computes exactly the place-results table, errors included |
| SerpApi.Frame | descobridor/discovery/serp_api.py:176-178 | columns of unequal length raise ValueError; otherwise one row per place with the eight columns |
| SerpApi.SerpOutput | descobridor/discovery/serp_api.py:173-184 | `place_results` is used when present, else `local_results`, else ValueError; every row is stamped with the query date and time |
| SerpApi.PlaceResultsFirst | descobridor/discovery/serp_api.py:174-178 | when `place_results` is present, `local_results` does not affect the output |
| SerpApi.FormatSerpOutput | descobridor/discovery/serp_api.py:173-184 | the method computes exactly that output |

## Left out

- HTML parsing is not modelled. BeautifulSoup's `find_all` and `str(tag)` are not modelled: a page is the list of texts each getter starts from (`ParseHtml.Page`).
- pandas is not modelled. A data frame is a sequence of rows or a map of columns. The `set_index` at the end of `scan_hex`, the index reset and the dtype inference are left out.
- Network and store calls are not modelled: `requests`, googlemaps, the SERP API client, and the Mongo/Cosmos inserts and updates (`store_page`, `store_reviews`, `update_gmaps_entry_is_reviewed`, `store_scan_results`, the SERP cache). Their answers are function parameters. The entry update is modelled as a returned list of place ids.
- Other library calls are not modelled. h3 cell and child computations are a `cell` function parameter and a given list of sub-hexagons. The edge-length radius is not modelled.
- The sub-hexagon size is a parameter. `descobridor/discovery/constants.py` is not part of this model, and neither is the review-endpoint header, which is also a parameter.
- Clocks, sleeps and randomness are not modelled directly:
  - `date.today()` and `datetime.now()` are parameters;
  - `time.sleep` and the gamma-distributed waits are left out;
  - the `randint(70, 100)` ceiling is an arbitrary choice in 70..99, made anew on every test of the loop.
- `print` calls are left out.
- RawReviews.ExtractAllReviews: the review parser the loop calls (`rp.get_all_reviews(record)`) is a parameter giving a page's newest review date. So is `last_review_available`. In the code, the parser is called with one argument against a two-argument signature, and the lookup returns None.
- `review_parser.get_all_reviews`, `add_review_age`, `add_unique_review_id` (ripemd160 hashing), `extract_all_files_reviews` (joblib) and `save_to_pickle` are left out. The review-parser functions they chain are modelled; the hash is not.
- The `ReviewAge` comparison methods are left out, because they return None. `__str__`/`__repr__` date formatting is left out as well.
- Dates are day numbers. `strptime` and `timedelta` arithmetic on calendar dates are not modelled.
- `serp_search_place`, `link_back_to_place_id` and `find_place_id` are left out. They are network and store calls.
- The crontab is modelled as a list of lines. Reading and writing it through `subprocess` is left out, and so is argument parsing in `main`: the two flags are parameters of `SerpJobFreq.Crontab.Run`.
- Case and character classes are narrower than Python's:
  - `lower()` folds only the ASCII letters and the Latin-1 capitals À–Þ;
  - `\d` and `\w` match only ASCII digits, ASCII letters and `_`, where Python also accepts other Unicode digits and letters.
- ParseInt: `int()` also accepts single underscores between digits (`"1_0"` is 10) and non-ASCII decimal digits; the model reads only ASCII digits and gives None for those, so `Scaled` and the age parser raise ValueError where Python returns a number.
- The `index` lists that `add_to_list_of_review_dict` and `get_page_reviews` fill but never read are left out.
- Lists and dicts inside an f-string (the ValueError message of `format_serp_output`, and `q`/`ll` values that are not scalars) are rendered as the fixed placeholders `[...]` and `{...}`. Python's full `repr` is not modelled.
- SerpApi.Iterated: iterating a dict yields its keys. The model keeps only how many there are, as empty strings, because the code fails on the first of them (`key['position']` raises TypeError) whatever its text.
- SerpApi.Index0: `[0]` on a dict raises KeyError(0). The model uses the key text "0". Indexing a string gives its first character.
- Python dicts keep their insertion order; `map<string, Value>` does not. The order of a record's keys and of a frame's columns is not modelled.
- HexScan.RowsOf: `pd.DataFrame` of `results` that are not a list of dicts is modelled as a TypeError.

## Findings

The model follows the code as written: `StringToDays`, `NewReviewAge`, `SplitTranslatedOriginal`
and the dict annotation built on it behave as the table's first column says. The corrected
members sit beside them, with the intended property proved, and `CorrectionIsLocal` and
`CleaningsCompared` state exactly where the two versions differ.

| source | as written | input that shows it | evidently intended | confidence | as-written member | corrected member |
|---|---|---|---|---|---|---|
| descobridor/discovery/review_age.py:84-85 | "una semana" returns 1 day | "Hace una semana" gives 1, "Hace 1 semana" gives 7 | one week is 7 days, as "un mes" is 30 and "un año" 365 | high (not executed) | ReviewAges.EsWordsToDaysAsWritten, ReviewAges.UnaSemanaAsWritten, ReviewAges.UnaSemanaReviewAge | ReviewAges.EsWordsToDays, ReviewAges.ArticleMeansOne |
| descobridor/discovery/review_parser.py:193 | `rstrip('Más')` strips any trailing run of the letters M, á and s | "Muchas gracias" becomes "Muchas gracia" | remove a trailing "Más" link label only | high (not executed) | ReviewParser.StripMasAsWritten, ReviewParser.StripMasEatsLetters | ReviewParser.StripMas, ReviewParser.StripMasRoundTrip |
| descobridor/discovery/review_parser.py:196-198 | the guard `repetition_index != 0` is always true, since `find` from index 1 never returns 0; its "not found" value -1 cuts `text[:-1]` | any review of 1 to 30 characters, e.g. "Muy bueno" becomes "Muy buen" | cut only when the opening recurs (`!= -1`) | high (not executed) | ReviewParser.CutRepetitionAsWritten, ReviewParser.CutDropsLastChar, ReviewParser.ShortReviewLosesLastChar | ReviewParser.CutRepetition, ReviewParser.CutRepetitionSpec, ReviewParser.PlainShortReview |
