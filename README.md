# backloggd_tools in Dafny

A model of the two collectors of backloggd_tools and of its two logging filters.

- `LogCollector` (scraper.py) scrapes a backloggd profile:
  - It reads the last page number from the paginated games list.
  - It reads every listing page into partial logs, one per game card: user, game id, slug and optional rating.
  - It fetches each game's log page and fills in the play status, the hours played (the `Xh Ym` text, rounded to hundredths) and the platforms.
- `IgdbInfoCollector` (api.py) looks games up in the IGDB catalog:
  - It cuts the id list into chunks of at most 500 ids.
  - It posts one request body per chunk, naming the ids in a `where id = (…)` clause.
  - It sorts each reply status into read, retry (429) or raise.
  - It turns every catalog object returned into a sparse game record.
- `DebugToWarningLogFilter` and `ErrorOrCriticalLogFilter` (log_filters.py) split log records between two handlers by level name.

Files:

| file | contents |
|---|---|
| `wrappers.dfy` | `Option` and `Result` |
| `seqs.dfy` | `Flatten` and `Repeat`; two loop shapes both collectors share, each proved once: `Successes` (keep values up to the first failure) and `Chain` (run steps until one fails, concatenating their requests and items) |
| `text.dfy` | the Python string builtins the source relies on: `str.isspace`, `str.strip`, `str.split(sep)`, `str.split()`, `str.split(' via ')[0]`, `int(text)` and `str(int)` |
| `log_filters.dfy` | the two filters |
| `api.dfy` | the IGDB collector: chunks, request bodies, catalog records, status handling, the class |
| `scraper.dfy` | the scraper: URLs, last page, slugs, time conversion, game cards, log pages, stages, the class |

The network is a parameter.
- The catalog is `server: string -> seq<CatalogReply>`: for a body, the replies to the successive POSTs of one `_fetch_info` call. Every fetch starts that sequence anew, even when two batches give the same body.
- The site is `listing: string -> ListingPage` and `details: string -> seq<DetailReply>`, keyed by URL.
- Each collector class records every request it makes (`requests`), retries included. That record is what "every page once" and "every id once" are stated over.

The HTML parser is abstracted to what the selectors extract:
- a listing page is its `page` span texts and its game cards;
- a card is its `game_id`, `href` and `data-rating` attribute texts;
- a log page is its status text, its time text and its platform texts;
- an element the page lacks is `None`.

The loops of the methods are proved against specification functions: `FetchSpec`/`CollectSpec` (api) and `CardsSpec`/`PagesSpec`/`DetailsSpec`/`CollectSpec` (scraper). Lemmas about those functions state what the source promises.

## Model

| member | source | states |
|---|---|---|
| `Seqs.SuccessesShape` | scraper.py:48-56 | a stop-at-first-failure loop keeps exactly the values in front of the first failure, in order; it succeeds iff no result fails, and otherwise fails with the first failure's error |
| `Seqs.ChainSingleRequests` | scraper.py:22-24 | when step k makes the single request `us[k]`, the chained steps make the requests `us` in order; on failure they stop at the first failing step, which made the last request and whose outcome is the chain's, every earlier step having succeeded; all of them when none fails |
| `Seqs.ChainAllSucceed` | api.py:39-44 | when no step fails, the chain succeeds with the concatenation of every step's requests and items |
| `Text.StripDrops` | scraper.py:52 | `strip(chars)` removes only characters in the strip set, from the front and from the back |
| `Text.Strip` | scraper.py:86 | the stripped text is a slice of the input that neither starts nor ends with a stripped character |
| `Text.SplitJoin` | scraper.py:52 | `split(sep)` of pieces joined by `sep` gives the pieces back when no piece holds `sep` |
| `Text.SplitPieces` | scraper.py:52 | no piece of `split(sep)` holds `sep` |
| `Text.WordsUnwords` | scraper.py:77 | `split()` of words joined by single blanks gives the words back |
| `Text.WordsPair` | scraper.py:77 | `split()` of two blank-free tokens with one blank between them is exactly those two tokens |
| `Text.BeforeFirstSpec` | scraper.py:94 | `split(' via ')[0]` is a front of the text with no ` via ` starting inside it; unless it is the whole text, ` via ` follows it at once (so that is the first occurrence); it is the whole text when there is none |
| `Text.ParseIntRepr` | scraper.py:34 | `int(str(x)) == x` for every integer |
| `Text.ParseIntAfterBlank` | api.py:85 | `int(' ' + str(x)) == x`: the blank after a comma in a tuple display does not matter |
| `Text.IntReprInjective` | scraper.py:39 | different integers have different decimal texts |
| `Text.IntReprChars` | api.py:85 | the text of an integer holds no comma and no whitespace |
| `LogFilters.DebugToWarning` | log_filters.py:5-6 | a record passes iff its level name is that of a set level below ERROR |
| `LogFilters.ErrorOrCritical` | log_filters.py:10-11 | a record passes iff its level name is that of a level at ERROR or above |
| `LogFilters.FiltersDisjoint` | log_filters.py:4-11 | no record passes both filters |
| `LogFilters.SetLevelPassesOne` | log_filters.py:4-11 | a record of any set level passes exactly one filter |
| `LogFilters.PassesOnlySetLevels` | log_filters.py:4-11 | a record passes some filter iff its name is a set level's name |
| `LogFilters.OtherNamesPassNeither` | log_filters.py:6 | `NOTSET` and lower-case names pass neither filter |
| `Api.Chunkify` | api.py:46-52 | the least number of chunks of n that covers the ids: count × n ≥ len and (count − 1) × n < len |
| `Api.ChunkifyFlatten` | api.py:52 | the chunks concatenate to the id list |
| `Api.ChunkifySizes` | api.py:47-52 | every chunk but the last has exactly n ids, the last between 1 and n; no chunks iff no ids |
| `Api.ChunkifyUnfold` | api.py:52 | the first chunk is the first n ids, the rest are the chunks of the remainder |
| `Api.BatchesPartition` | api.py:38-52 | the batches concatenate to the id list and none has more than 500 ids |
| `Api.TupleItemsNoComma` | api.py:85 | no item of the tuple display holds a comma |
| `Api.ParseItemsOf` | api.py:85 | the comma-separated items of the display read back as the ids |
| `Api.TupleReprExamples` | api.py:85 | `{*ids, }` renders `[1, 2, 3]` as `(1, 2, 3)`, `[7]` as `(7,)` and no ids as `()` |
| `Api.TupleRoundTrip` | api.py:85 | `{*ids, }` reads back as the ids, for the empty, one-element and longer cases |
| `Api.BodyRoundTrip` | api.py:85-86 | the catalog reads back from a body exactly the ids it was built from |
| `Api.BodyInjective` | api.py:85-86 | different id lists give different bodies |
| `Api.BodiesDecode` | api.py:38-44 | the k-th body posted names exactly the k-th batch |
| `Api.IgdbInfoCollector.CompanyRoles` | api.py:66-73 | the `setdefault(…).append` loop leaves the developer and publisher names in order, each key absent when no company has that role |
| `Api.RoleNamesMembers` | api.py:68-73 | a name is listed under a role iff some company with that role has it; the list is empty iff no company has the role |
| `Api.RecordRoles` | api.py:66-73 | a record has a developers (publishers) key iff some company has that role, holding exactly those companies' names |
| `Api.BothRolesOrNeither` | api.py:70-73 | for every object and every involved company: one with both flags has its name under `developers` and under `publishers`; one with neither flag contributes nothing (the record is the same with that entry removed) |
| `Api.IgdbInfoCollector.BuildRecord` | api.py:56-79 | the dictionary built for one object equals the record function `RecordOf` |
| `Api.RecordKeys` | api.py:57-79 | id and title are copied; each optional key is present iff the object's value is truthy; the year is `yearOf` of the date; `genres`, `platforms` and `series` hold the names of the genres, platforms and collections, same length, in order |
| `Api.IgdbInfoCollector.ParseGameData` | api.py:54-80 | one record per object is appended, in reply order |
| `Api.Classify` | api.py:96-103 | 429 retries; statuses from 400 up (other than 429) raise; everything else is read |
| `Api.HandleReplyAsWritten` | api.py:96-113 | the status handling as written: a status `Classify` raises on gives its HTTP error, 429 gives `TypeError` (the retry call's extra argument), every other status gives the reply's records |
| `Api.Settle` | api.py:103-106 | the first reply that is not a throttle, all replies before it being 429 |
| `Api.IgdbInfoCollector.Post` | api.py:94-113 | POSTs the body once per throttle and once more; the outcome and records are those of the first reply that is not a 429 |
| `Api.IgdbInfoCollector.FetchInfo` | api.py:82-113 | `_fetch_info` for one id list: posts `Body(ids)`, with the outcome and records given by `FetchSpec` |
| `Api.ThrottleIsTransparent` | api.py:103-106 | a 429 in front changes nothing but one more POST |
| `Api.ThrottleThenOk` | api.py:103-113 | replies 429 then 200: the code as written fails with TypeError; the intended retry adds the records after two POSTs |
| `Api.BodyStep` | api.py:82-113 | a failed fetch adds no records |
| `Api.StepAnsweredAtOnce` | api.py:94-111 | a body answered at once is posted once and adds the records of that reply |
| `Api.IgdbInfoCollector.FetchAll` | api.py:41-44 | the batches are fetched in order, each by `FetchInfo`; the first failure ends the run with what was requested and added so far |
| `Api.IgdbInfoCollector.Collect` | api.py:38-44 | `collect` fetches `Bodies(Batches(ids))` as `CollectSpec` says |
| `Api.CollectAnsweredAtOnce` | api.py:38-44 | when no reply throttles or fails, the run succeeds, posts every body exactly once in order, and adds each reply's records in order |
| `Api.CollectRequestsEveryId` | api.py:38-52 | with such a service, one request is made per batch, the k-th naming the k-th batch, and the batches cover the id list exactly |
| `Api.IgdbInfoCollector.constructor` | api.py:33-36 | a new collector has no results and has made no request |
| `Scraper.PageUrlsDiffer` | scraper.py:37-39 | different page numbers give different listing URLs |
| `Scraper.PageUrlInjective` | scraper.py:39 | the page URL determines the page number |
| `Scraper.PageIsNoLog` | scraper.py:15-16 | a listing URL is never a log page URL |
| `Scraper.LastPage` | scraper.py:34 | IndexError iff there are fewer than two page spans; ValueError when the second-to-last span does not parse as an integer; otherwise its integer value |
| `Scraper.LastPageReads` | scraper.py:34 | spans ending in `str(n)` and one more span give `n` |
| `Scraper.LogCollector.GetLastPage` | scraper.py:29-35 | GETs the games URL once and returns `LastPage` of its spans |
| `Scraper.Slug` | scraper.py:52 | the slug is the last `/`-segment of the href with its outer slashes stripped |
| `Scraper.LastSegmentUnique` | scraper.py:52 | that segment is unique |
| `Scraper.SlugOfLink` | scraper.py:52 | for any href `prefix/s/` with `s` free of slashes, the slug is `s` |
| `Scraper.SlugExample` | scraper.py:52 | `/games/hollow-knight/` gives `hollow-knight` |
| `Scraper.TimeParts` | scraper.py:77-79 | a time text parses only when it has exactly two whitespace-separated tokens |
| `Scraper.TimeToHours` | scraper.py:74-81 | the conversion succeeds iff the tokens parse, and fails only with ValueError |
| `Scraper.HoursNearest` | scraper.py:79-81 | the result is within half a hundredth of `H + M/60`, and no multiple of 0.01 is nearer |
| `Scraper.HoursExact` | scraper.py:79-81 | when the minutes make a whole number of hundredths, the result is exact |
| `Scraper.TimeRoundsToNearest` | scraper.py:74-81 | `_time_to_float` of a parsing text rounds `H + M/60` to the nearest hundredth |
| `Scraper.TimeExact` | scraper.py:74-81 | `_time_to_float` is exact when the total minutes are a multiple of 3 |
| `Scraper.TimePartsOfText` | scraper.py:77-79 | `str(h) + 'h ' + str(m) + 'm'` parses as `(h, m)` |
| `Scraper.TimeTextOf` | scraper.py:74-81 | that text converts to the rounded hours of `(h, m)` |
| `Scraper.TimeExampleHalf` | scraper.py:74-81 | `10h 30m` gives 10.5 |
| `Scraper.TimeExampleWhole` | scraper.py:74-81 | `2h 0m` gives 2.0 |
| `Scraper.TimeNeedsTwoTokens` | scraper.py:77 | any other number of tokens raises ValueError |
| `Scraper.CardLogFields` | scraper.py:48-56 | a card gives a log iff its id parses, its link is there, and any rating parses; the log holds user, id, slug and the rating exactly when the card has one, and no other key |
| `Scraper.CardsSpecLogs` | scraper.py:45-56 | the logs appended are those of the cards in front of the first failing card, in order; the page fails iff some card fails, with that card's error |
| `Scraper.LogCollector.ParseGamesInfo` | scraper.py:45-56 | the loop appends and fails as `CardsSpec` says |
| `Scraper.PageStep` | scraper.py:37-43 | fetching listing page n makes the single GET of that page's URL |
| `Scraper.LogCollector.FetchInfoPerPage` | scraper.py:37-43 | GETs page n and appends what its cards give, as `PageStep` says |
| `Scraper.PageNumbersRange` | scraper.py:23 | `range(1, last + 1)`: a number is a page number iff it lies between 1 and last; the numbers strictly increase |
| `Scraper.LogCollector.FetchPages` | scraper.py:22-24 | the listing pages are fetched in order as `PagesSpec` says |
| `Scraper.PagesInOrder` | scraper.py:22-24 | the k-th GET is page `nums[k]`; on failure the last GET is the first failing page, whose error is the stage's, every earlier page having succeeded; one per number when none fails |
| `Scraper.PagesEachOnce` | scraper.py:22-24 | when no page fails, pages 1 to last are each fetched exactly once, in order |
| `Scraper.PlatformNameParts` | scraper.py:91-95 | each platform name is the front of the stripped text with no ` via ` starting inside it; unless it is the whole text, ` via ` follows it at once (its first occurrence); it is the whole text when there is none |
| `Scraper.MergeDetail` | scraper.py:83-95 | reading a log page never changes the user, id, slug or rating |
| `Scraper.MergeTime` | scraper.py:87-95 | storing the time and platforms keeps the game's identity |
| `Scraper.MergeTimeHours` | scraper.py:87-90 | a converted time is stored as the hours; no reading leaves the key as it was; only a failed conversion raises |
| `Scraper.MergeStoresStatus` | scraper.py:85-86 | the stripped status is stored whenever the page has a status element, even when the time then fails |
| `Scraper.MergeHours` | scraper.py:87-90 | the hours are stored iff the time text is non-empty, holds an `h` and converts; otherwise they keep their value |
| `Scraper.MergePlatforms` | scraper.py:91-95 | on success the platforms are stored iff the page lists some, and otherwise kept |
| `Scraper.MergeNeedsStatus` | scraper.py:85 | a page without a status element raises at once and leaves the log untouched |
| `Scraper.LogCollector.ParseLog` | scraper.py:83-95 | the one log at index i is updated as `MergeDetail` says; no other log changes |
| `Scraper.LogCollector.StoreTime` | scraper.py:87-95 | the hours and platforms of log i are stored as `MergeTime` says |
| `Scraper.FetchLogSpec` | scraper.py:58-72 | fetching a log page never changes the game's identity |
| `Scraper.FetchLogThrottle` | scraper.py:63-66 | a 429 in front changes nothing but one more GET of the same URL |
| `Scraper.FetchLogOther` | scraper.py:62-72 | a status other than 200 or 429 ends the fetch quietly with the log unchanged |
| `Scraper.FetchLogAfterThrottles` | scraper.py:58-72 | after any number of 429s, a 200 reads the page into the log, one GET per reply |
| `Scraper.LogCollector.FetchLog` | scraper.py:58-72 | GETs the log URL once per reply used and updates only log i, as `FetchLogSpec` says |
| `Scraper.LogCollector.FetchLogs` | scraper.py:25-27 | the log pages of all logs are fetched in order as `DetailsSpec` says |
| `Scraper.DetailsKeepGames` | scraper.py:25-27 | the logs stay as many and keep their games; on success each is what its own fetch made of it |
| `Scraper.DetailsOncePerLog` | scraper.py:25-27 | when each log page is answered at once, every log's page is fetched exactly once, in order |
| `Scraper.LogCollector.Collect` | scraper.py:19-27 | the profile root, the listing pages, then the log pages, as `CollectSpec` says |
| `Scraper.CollectStages` | scraper.py:19-27 | the requests are the games URL, then pages 1 to last in order, then the log pages; the logs keep their games, the old ones first |
| `Scraper.LogCollector.constructor` | scraper.py:12-17 | a new collector has no logs and has made no request |

## Left out

- Concurrency. Both collectors run their fetches in bounded task groups (at most 2, 3 or 4 at a time). The model fetches sequentially in submission order. A failure stops the stage at once, where the task group would cancel its other tasks and let some finish, so neither the order of `results` and `logs` nor how far other tasks got is modelled for concurrent runs. The task group also raises its tasks' failures wrapped in an `ExceptionGroup`, which may hold several errors. That affects the listing-page and log-page stages and `collect` with more than 500 ids. The model's `Failure(e)` always carries one bare error: that of the first failing step in submission order. Only `_get_last_page` and the single fetch of at most 500 ids raise the bare exception in the source.
- Sleeps, `print` and `logging` calls, the HTTP session, headers, credentials from the environment, `load_dotenv`: I/O with no effect on the data.
- The HTML parser (BeautifulSoup with lxml): pages are given as the texts the selectors find. `get_text()` of nested markup is taken as given.
- Floating point: `round(H + M / 60, 2)` is modelled exactly. The result is the nearest hundredth as a `real`, which is the intended value; binary float representation is left out.
- `datetime.fromtimestamp(t).year` depends on the local time zone: it is the parameter `yearOf`.
- JSON decoding: a reply is already a list of catalog objects. A nested key that is missing (`company['company']['name']`, `genre['name']`) would raise KeyError; the model assumes it is there.
- `int()` on non-ASCII digits: only ASCII digits are read. Whitespace, one sign and single underscores between digits are modelled.
- The kinds of exception: a missing element or attribute raises `TypeError`, `AttributeError` or `KeyError` in the source, which is the single error `MissingElement` here.
- Retries are unbounded in the source. The model stops when the scripted reply sequence runs out, with the model-only error `RetriesExhausted`.
- The ordering of the game dictionary's keys is not modelled.
- Where the code and the project's own description of it differ, the model follows the code:
  - `_get_last_page` neither checks the status of the profile root nor reports an empty profile. A profile with fewer than two page spans raises IndexError.
  - The listing pages' statuses are not checked.
- main.py (reads the username with `input`, runs the scraper and then the catalog collector on the logs' game ids, and saves both results), savers.py (`JsonSaver`, which writes a `.json` file), logging_settings.py, exceptions.py and utils.py (`BoundedTaskGroup`, beyond its sequential effect) are not part of this model.
- `Text.DigitValue` is total (0 for a non-digit); only its values on digits are ever used.

## Findings

| source | as written | input that shows it | evidently intended | confidence | as-written member | corrected member |
|---|---|---|---|---|---|---|
| api.py:106 | the retry after a 429 calls `self._fetch_info(self.SESSION, game_ids)`, passing two arguments to a method that takes one, so it raises `TypeError` | a body answered 429 and then 200 | re-post the same body after the pause and read the next reply | high for the TypeError, the call's arity being fixed by the signature at api.py:82; not executed | `Api.HandleReplyAsWritten` with `Api.ThrottleThenOk` | `Api.IgdbInfoCollector.Post` with `Api.ThrottleIsTransparent` |
