/**
  The profile scraper of scraper.py. `LogCollector` reads a user's paginated
  games list for one partial log per game (its id, slug and rating), then
  fetches each game's log page and fills in the play status, the time played
  and the platforms.

  The HTML parser is abstracted to what the selectors extract: a listing page
  is its `page` span texts and its game cards, a log page the texts of its
  status, time and platform elements. The site is two functions from URL:
  `listing(url)` is the listing page served at `url`, and `details(url)` lists
  the replies to successive GETs of a log page.
*/
module Scraper {
  import opened Wrappers
  import opened Seqs
  import opened Text

  // ---------------------------------------------------------------------------
  // URLs
  // ---------------------------------------------------------------------------

  const Site := "https://www.backloggd.com/u/"

  function GamesUrl(username: string): string {
    Site + username + "/games/"
  }

  function LogsUrl(username: string): string {
    Site + username + "/logs/"
  }

  /** The listing page `n` of the games list. */
  function PageUrl(username: string, n: int): string {
    GamesUrl(username) + "?page=" + IntRepr(n)
  }

  /** The log page of the game with slug `slug`. */
  function LogUrl(username: string, slug: string): string {
    LogsUrl(username) + slug
  }

  /** Different page numbers give different URLs, so no listing page is fetched twice. */
  lemma PageUrlInjective(username: string, a: int, b: int)
    requires PageUrl(username, a) == PageUrl(username, b)
    ensures a == b
  {
    var prefix := GamesUrl(username) + "?page=";
    assert PageUrl(username, a)[|prefix|..] == IntRepr(a);
    assert PageUrl(username, b)[|prefix|..] == IntRepr(b);
    IntReprInjective(a, b);
  }

  lemma PageUrlsDiffer(username: string, a: int, b: int)
    requires a != b
    ensures PageUrl(username, a) != PageUrl(username, b)
  {
    if PageUrl(username, a) == PageUrl(username, b) {
      PageUrlInjective(username, a, b);
    }
  }

  /** A listing URL is never a log page URL: they part at the "games" and "logs" segments. */
  lemma PageIsNoLog(username: string, n: int, slug: string)
    ensures PageUrl(username, n) != LogUrl(username, slug)
  {
    var k := |Site + username + "/"|;
    assert PageUrl(username, n)[k] == 'g';
    assert LogUrl(username, slug)[k] == 'l';
  }

  // ---------------------------------------------------------------------------
  // Pages
  // ---------------------------------------------------------------------------

  /**
    A game card of a listing page: the `game_id` attribute of its cover, the
    `href` of its link, and the `data-rating` attribute of its rating element
    when it has one. A missing cover, link or attribute is `None`.
  */
  datatype GameCard = GameCard(gameId: Option<string>, href: Option<string>, rating: Option<string>)

  /** A listing page: the texts of its `page` spans, and its game cards in page order. */
  datatype ListingPage = ListingPage(pageSpans: seq<string>, cards: seq<GameCard>)

  /**
    A log page: the text of its current-status element and of its time-played
    paragraph (`None` when the page has no such element), and the text of each
    platform element.
  */
  datatype DetailPage = DetailPage(status: Option<string>, timePlayed: Option<string>, platforms: seq<string>)

  datatype DetailReply = DetailReply(status: int, page: DetailPage)

  /**
    What ends a scrape: `int()` refusing a text, fewer than two page spans, an
    element or attribute the parser did not find, or (in this model only) a
    reply sequence that ran out while the site was still throttling.
  */
  datatype ScrapeError = ValueError | IndexError | MissingElement | RetriesExhausted

  /**
    The dictionary kept per game. The keys `user_rating`, `status`,
    `hours_played` and `platforms_played` may be absent, which is `None` here.
  */
  datatype PartialLog = PartialLog(
    username: string,
    gameId: int,
    slug: string,
    userRating: Option<int>,
    status: Option<string>,
    hoursPlayed: Option<real>,
    platformsPlayed: Option<seq<string>>)

  /** The keys a log page never changes agree. */
  predicate SameGame(a: PartialLog, b: PartialLog) {
    a.username == b.username && a.gameId == b.gameId && a.slug == b.slug && a.userRating == b.userRating
  }

  // ---------------------------------------------------------------------------
  // The last page
  // ---------------------------------------------------------------------------

  /**
    `_get_last_page`: the integer in the second-to-last `page` span; fewer than
    two spans raise `IndexError`, a text that is not an integer `ValueError`.
  */
  function LastPage(spans: seq<string>): (r: Result<int, ScrapeError>)
    ensures r == Failure(IndexError) <==> |spans| < 2
    ensures r.Success? ==> |spans| >= 2 && ParseInt(spans[|spans| - 2]) == Some(r.value)
    ensures |spans| >= 2 && ParseInt(spans[|spans| - 2]).Some? ==> r.Success?
    ensures |spans| >= 2 && ParseInt(spans[|spans| - 2]).None? ==> r == Failure(ValueError)
  {
    if |spans| < 2 then Failure(IndexError)
    else match ParseInt(spans[|spans| - 2])
      case None => Failure(ValueError)
      case Some(n) => Success(n)
  }

  /** A pagination whose last number is `n`, followed by one more span such as "Next", ends at page `n`. */
  lemma LastPageReads(numbers: seq<string>, n: int, next: string)
    ensures LastPage(numbers + [IntRepr(n), next]) == Success(n)
  {
    var spans := numbers + [IntRepr(n), next];
    assert spans[|spans| - 2] == IntRepr(n);
    ParseIntRepr(n);
  }

  // ---------------------------------------------------------------------------
  // Slugs
  // ---------------------------------------------------------------------------

  /**
    `href.strip('/').split('/')[-1]`: the last `/`-separated segment of the
    link once its leading and trailing slashes are gone. It holds no `/`, ends
    the stripped link, and is either all of it or preceded there by a `/`.
  */
  function Slug(href: string): (slug: string)
    ensures LastSegment(Strip(href, Only('/')), slug)
  {
    var path := Strip(href, Only('/'));
    LastOfSplit(path);
    Last(Split(path, '/'))
  }

  /** The last piece of a path split at its slashes is its last segment. */
  lemma LastOfSplit(path: string)
    ensures LastSegment(path, Last(Split(path, '/')))
  {
    var parts := Split(path, '/');
    SplitPieces(path, '/');
    assert '/' !in Last(parts);
    JoinLastSegment(parts);
  }

  /** The last of slash-free pieces joined with slashes is the last segment of the join. */
  lemma JoinLastSegment(xs: seq<string>)
    requires |xs| >= 1 && '/' !in Last(xs)
    ensures LastSegment(Join(xs, '/'), Last(xs))
  {
    JoinLast(xs, '/');
  }

  /** `seg` holds no slash and ends `path`, either as all of it or after a slash. */
  predicate LastSegment(path: string, seg: string) {
    && '/' !in seg
    && |seg| <= |path| && path[|path| - |seg|..] == seg
    && (|seg| == |path| || path[|path| - |seg| - 1] == '/')
  }

  /** The last piece of a join ends it, after a separator when there are several pieces. */
  lemma {:induction false} JoinLast(xs: seq<string>, sep: char)
    requires |xs| >= 1
    ensures var j := Join(xs, sep);
            var l := Last(xs);
            && |l| <= |j| && j[|j| - |l|..] == l
            && (|xs| == 1 ==> l == j)
            && (|xs| > 1 ==> |l| < |j| && j[|j| - |l| - 1] == sep)
    decreases |xs|
  {
    if |xs| > 1 {
      JoinLast(xs[1..], sep);
      assert Last(xs[1..]) == Last(xs);
      var tail := Join(xs[1..], sep);
      assert Join(xs, sep) == xs[0] + [sep] + tail;
    }
  }

  /**
    A segment without slashes that ends `path`, and is all of it or preceded by a
    slash, is the only such segment.
  */
  lemma LastSegmentUnique(path: string, s: string, t: string)
    requires LastSegment(path, s) && LastSegment(path, t)
    ensures s == t
  {
  }

  /** Stripping the slashes of a link `prefix/s/` leaves a path that ends in `s` after a slash, or is `s`. */
  lemma StripLink(href: string, prefix: string, s: string)
    requires s != [] && '/' !in s && href == prefix + "/" + s + "/"
    ensures LastSegment(Strip(href, Only('/')), s)
  {
    var path := Strip(href, Only('/'));
    var i := LeadCount(href, Only('/'));
    StripDrops(href, Only('/'));
    var e := |prefix| + 1 + |s|;
    assert e == |href| - 1;
    assert href[|prefix|] == '/' && href[e] == '/';
    assert href[|prefix| + 1..e] == s;
    assert href[|prefix| + 1] == s[0] && href[e - 1] == s[|s| - 1];
    assert s[0] in s && s[|s| - 1] in s;
    assert i <= |prefix| + 1;
    assert i + |path| >= e;
    assert path == href[i..e];
    assert path[|path| - |s|..] == href[|prefix| + 1..e];
    if |path| > |s| {
      assert path[|path| - |s| - 1] == href[|prefix|];
    }
  }

  /**
    The slug of a link that ends in `/s/`, for a segment `s` without slashes, is
    `s`.
  */
  lemma SlugOfLink(prefix: string, s: string)
    requires s != [] && '/' !in s
    ensures Slug(prefix + "/" + s + "/") == s
  {
    var href := prefix + "/" + s + "/";
    StripLink(href, prefix, s);
    SlugIs(href, s);
  }

  /** A slash-free segment that ends the stripped link as its last segment is the slug. */
  lemma SlugIs(href: string, s: string)
    requires LastSegment(Strip(href, Only('/')), s)
    ensures Slug(href) == s
  {
    LastSegmentUnique(Strip(href, Only('/')), s, Slug(href));
  }

  /** "/games/hollow-knight/" gives "hollow-knight". */
  lemma SlugExample()
    ensures Slug("/games/hollow-knight/") == "hollow-knight"
  {
    assert "/games/hollow-knight/" == "/games" + "/" + "hollow-knight" + "/";
    SlugOfLink("/games", "hollow-knight");
  }

  // ---------------------------------------------------------------------------
  // Time played
  // ---------------------------------------------------------------------------

  /** A token without its last character, as `token[:-1]` does to "10h" and "30m". */
  function Chop(w: string): string {
    if w == [] then [] else w[..|w| - 1]
  }

  /**
    The hours and minutes in a time text: exactly two whitespace-separated
    tokens, each an integer followed by one more character; `None` when
    unpacking or `int()` would raise.
  */
  function TimeParts(text: string): (r: Option<(int, int)>)
    ensures r.Some? ==> |Words(text)| == 2
  {
    var words := Words(text);
    if |words| != 2 then None
    else
      var hours := ParseInt(Chop(words[0]));
      var minutes := ParseInt(Chop(words[1]));
      if hours.Some? && minutes.Some? then Some((hours.value, minutes.value)) else None
  }

  /** The time a pair of hours and minutes describes, in minutes. */
  function TotalMinutes(parts: (int, int)): int {
    60 * parts.0 + parts.1
  }

  /** `H + M / 60` as an exact number. */
  function HoursValue(parts: (int, int)): real {
    parts.0 as real + parts.1 as real / 60.0
  }

  function Abs(x: real): real {
    if x < 0.0 then -x else x
  }

  /**
    `round(H + M / 60, 2)`: `100 * T / 60 = 5T / 3` hundredths for `T` minutes,
    which is never half-way between two integers, so the rounding rule for ties
    never applies and rounding to nearest is `(5T + 1) div 3`.
  */
  function Hours(parts: (int, int)): real {
    ((5 * TotalMinutes(parts) + 1) / 3) as real / 100.0
  }

  /** `_time_to_float`: the hours a time text describes, rounded to hundredths. */
  function TimeToHours(text: string): (r: Result<real, ScrapeError>)
    ensures r.Success? <==> TimeParts(text).Some?
    ensures r.Failure? ==> r.error == ValueError
  {
    match TimeParts(text)
    case None => Failure(ValueError)
    case Some(parts) => Success(Hours(parts))
  }

  /** The hundredths of the result differ from `5T / 3` by at most a third. */
  lemma RoundingGap(t: int)
    ensures var q := (5 * t + 1) / 3;
            -1 <= 3 * q - 5 * t <= 1 && (3 * q - 5 * t == 0 <==> t % 3 == 0)
  {
  }

  /**
    The rounded hours are closer than half a hundredth to `H + M/60`, and no
    multiple `c / 100` is nearer.
  */
  lemma HoursNearest(parts: (int, int), c: int)
    ensures var v := HoursValue(parts);
            && Abs(Hours(parts) - v) < 0.005
            && Abs(Hours(parts) - v) <= Abs(c as real / 100.0 - v)
  {
    var t := TotalMinutes(parts);
    var q := (5 * t + 1) / 3;
    RoundingGap(t);
    var v := HoursValue(parts);
    assert v == t as real / 60.0;
    assert Hours(parts) - v == (3 * q - 5 * t) as real / 300.0;
    assert c as real / 100.0 - v == (3 * c - 5 * t) as real / 300.0;
    if 3 * q - 5 * t != 0 {
      assert t % 3 != 0;
      assert 5 * t == 3 * (2 * t) - t;
      assert 3 * c - 5 * t != 0;
    }
  }

  /** A whole number of three-minute steps is exactly representable in hundredths and kept as it is. */
  lemma HoursExact(parts: (int, int))
    requires TotalMinutes(parts) % 3 == 0
    ensures Hours(parts) == HoursValue(parts)
  {
    var t := TotalMinutes(parts);
    RoundingGap(t);
    assert HoursValue(parts) == t as real / 60.0;
    assert (5 * t + 1) / 3 * 3 == 5 * t;
  }

  /** A time text that reads is turned into the hundredths nearest to the time it describes. */
  lemma TimeRoundsToNearest(text: string, c: int)
    requires TimeParts(text).Some?
    ensures var v := HoursValue(TimeParts(text).value);
            var r := TimeToHours(text).value;
            && Abs(r - v) < 0.005
            && Abs(r - v) <= Abs(c as real / 100.0 - v)
  {
    HoursNearest(TimeParts(text).value, c);
  }

  /** A time text of a whole number of three-minute steps is turned into its exact hours. */
  lemma TimeExact(text: string)
    requires TimeParts(text).Some? && TotalMinutes(TimeParts(text).value) % 3 == 0
    ensures TimeToHours(text).value == HoursValue(TimeParts(text).value)
  {
    HoursExact(TimeParts(text).value);
  }

  /** A numeral with a unit letter after it is one token, and reads back as the number once chopped. */
  lemma UnitToken(x: int, unit: char)
    requires !IsSpace(unit)
    ensures var w := IntRepr(x) + [unit];
            w != [] && NoSpace(w) && ParseInt(Chop(w)) == Some(x)
  {
    var w := IntRepr(x) + [unit];
    IntReprChars(x);
    assert forall k :: 0 <= k < |IntRepr(x)| ==> w[k] == IntRepr(x)[k];
    assert Chop(w) == IntRepr(x);
    ParseIntRepr(x);
  }

  /** Two tokens that read as numbers once chopped give those numbers as hours and minutes. */
  lemma TimePartsOfWords(text: string, hw: string, mw: string, h: int, m: int)
    requires hw != [] && mw != [] && Words(text) == [hw, mw]
    requires ParseInt(Chop(hw)) == Some(h) && ParseInt(Chop(mw)) == Some(m)
    ensures TimeParts(text) == Some((h, m))
  {
  }

  /** The tokens `<h>h` and `<m>m` joined by a blank read as `h` hours and `m` minutes. */
  lemma TimePartsOfTokens(text: string, hw: string, mw: string, h: int, m: int)
    requires hw == IntRepr(h) + ['h'] && mw == IntRepr(m) + ['m'] && text == hw + [' '] + mw
    ensures TimeParts(text) == Some((h, m))
  {
    UnitToken(h, 'h');
    UnitToken(m, 'm');
    WordsPair(hw, mw);
    TimePartsOfWords(text, hw, mw, h, m);
  }

  lemma UnitsApart(a: string, b: string)
    ensures a + "h " + b + "m" == (a + ['h']) + [' '] + (b + ['m'])
  {
  }

  /** The text the site shows for `h` hours and `m` minutes reads back as those two numbers. */
  lemma TimePartsOfText(h: int, m: int)
    ensures TimeParts(IntRepr(h) + "h " + IntRepr(m) + "m") == Some((h, m))
  {
    var a := IntRepr(h);
    var b := IntRepr(m);
    UnitsApart(a, b);
    TimePartsOfTokens(a + "h " + b + "m", a + ['h'], b + ['m'], h, m);
  }

  /** The text the site shows for a number of hours and minutes, by way of its two numerals. */
  lemma TimeTextOf(text: string, h: int, hs: string, m: int, ms: string)
    requires text == hs + "h " + ms + "m" && IntRepr(h) == hs && IntRepr(m) == ms
    ensures TimeToHours(text) == Success(Hours((h, m)))
  {
    TimePartsOfText(h, m);
  }

  /** "10h 30m" is 10.5 hours. */
  lemma TimeExampleHalf(text: string)
    requires text == "10h 30m"
    ensures TimeToHours(text) == Success(10.5)
  {
    assert IntRepr(10) == "10" && IntRepr(30) == "30";
    TimeTextOf(text, 10, "10", 30, "30");
    assert TotalMinutes((10, 30)) == 630;
    assert (5 * 630 + 1) / 3 == 1050;
  }

  /** "2h 0m" is 2.0 hours. */
  lemma TimeExampleWhole(text: string)
    requires text == "2h 0m"
    ensures TimeToHours(text) == Success(2.0)
  {
    assert IntRepr(2) == "2" && IntRepr(0) == "0";
    TimeTextOf(text, 2, "2", 0, "0");
    assert TotalMinutes((2, 0)) == 120;
    assert (5 * 120 + 1) / 3 == 200;
  }

  /** A time text of one token, or of three, does not unpack into hours and minutes. */
  lemma TimeNeedsTwoTokens(text: string)
    requires |Words(text)| != 2
    ensures TimeToHours(text) == Failure(ValueError)
  {
  }

  // ---------------------------------------------------------------------------
  // Game cards
  // ---------------------------------------------------------------------------

  /**
    The partial log `_parse_games_info` builds from one card: the user, the
    integer game id and the slug, and the integer rating when the card has a
    rating element. A missing cover or link is `MissingElement`, a text that
    is not an integer `ValueError`.
  */
  function CardLog(username: string, card: GameCard): Result<PartialLog, ScrapeError> {
    if card.gameId.None? then Failure(MissingElement)
    else if ParseInt(card.gameId.value).None? then Failure(ValueError)
    else if card.href.None? then Failure(MissingElement)
    else
      var log := PartialLog(username, ParseInt(card.gameId.value).value, Slug(card.href.value), None, None, None, None);
      match card.rating
      case None => Success(log)
      case Some(text) =>
        if ParseInt(text).None? then Failure(ValueError) else Success(log.(userRating := ParseInt(text)))
  }

  /** A card parses exactly when its id, link and rating are all there or absent as allowed, and readable. */
  lemma CardLogFields(username: string, card: GameCard)
    ensures CardLog(username, card).Success? <==>
              && card.gameId.Some? && ParseInt(card.gameId.value).Some? && card.href.Some?
              && (card.rating.Some? ==> ParseInt(card.rating.value).Some?)
    ensures CardLog(username, card).Success? ==>
              var log := CardLog(username, card).value;
              && log.username == username
              && Some(log.gameId) == ParseInt(card.gameId.value)
              && log.slug == Slug(card.href.value)
              && (log.userRating.Some? <==> card.rating.Some?)
              && (card.rating.Some? ==> log.userRating == ParseInt(card.rating.value))
              && log.status.None? && log.hoursPlayed.None? && log.platformsPlayed.None?
  {
  }

  /** What parsing a run of cards does: its outcome and the logs it appends. */
  type CardsRun = Prefix<PartialLog, ScrapeError>

  /** What each card of a page parses to. */
  function CardLogs(username: string, cards: seq<GameCard>): (rs: seq<Result<PartialLog, ScrapeError>>)
    ensures |rs| == |cards|
  {
    seq(|cards|, k requires 0 <= k < |cards| => CardLog(username, cards[k]))
  }

  /** The cards parsed in page order; the first that fails stops the page, the earlier ones stay appended. */
  function CardsSpec(username: string, cards: seq<GameCard>): CardsRun {
    Successes(CardLogs(username, cards))
  }

  /**
    When every card parses, the page succeeds and appends one log per card, in
    card order; otherwise it appends the logs of the cards before the first one
    that fails, and fails with that card's error.
  */
  lemma CardsSpecLogs(username: string, cards: seq<GameCard>)
    ensures var run := CardsSpec(username, cards);
            && |run.added| <= |cards|
            && (forall k :: 0 <= k < |run.added| ==> CardLog(username, cards[k]) == Success(run.added[k]))
            && (run.outcome.Success? <==> |run.added| == |cards|)
            && (run.outcome.Failure? ==> CardLog(username, cards[|run.added|]) == Failure(run.outcome.error))
  {
    SuccessesShape(CardLogs(username, cards));
  }

  // ---------------------------------------------------------------------------
  // Log pages
  // ---------------------------------------------------------------------------

  /** `plat.text.strip().split(' via ')[0]` for each platform element. */
  function PlatformNames(texts: seq<string>): (names: seq<string>)
    ensures |names| == |texts|
  {
    seq(|texts|, k requires 0 <= k < |texts| => BeforeFirst(StripSpace(texts[k]), " via "))
  }

  /**
    Each platform name is the front of its stripped text up to the first
    " via ": no " via " starts before its end, it is followed by " via " when it
    is not the whole text, and it is the whole text when that has no " via ".
  */
  lemma PlatformNameParts(texts: seq<string>, k: int)
    requires 0 <= k < |texts|
    ensures var name := PlatformNames(texts)[k];
            var t := StripSpace(texts[k]);
            && name == t[..|name|]
            && (forall j :: 0 <= j < |name| ==> !OccursAt(t, " via ", j))
            && (name != t ==> OccursAt(t, " via ", |name|))
            && (forall j :: 0 <= j <= |name| - 4 ==> !OccursAt(name, " via ", j))
            && ((forall j :: 0 <= j <= |t| ==> !OccursAt(t, " via ", j)) ==> name == t)
  {
    BeforeFirstSpec(StripSpace(texts[k]), " via ");
  }

  /** `_time_to_float(time.strip())`: the hours a time element's text converts to. */
  function HoursOf(time: string): Result<real, ScrapeError> {
    TimeToHours(StripSpace(time))
  }

  /** The log after a log page is read, and whether reading it raised. */
  datatype MergeRun = MergeRun(outcome: Result<(), ScrapeError>, log: PartialLog)

  /**
    `_parse_log`: the stripped status is stored first; the time, when its text
    is non-empty and holds an `h`, is stored as hours; the platform names are
    stored when the page lists any platform. A missing status or time element
    raises, as does a time text that does not convert, after what was
    already stored. No other key is touched.
  */
  function MergeDetail(log: PartialLog, page: DetailPage): (m: MergeRun)
    ensures SameGame(m.log, log)
  {
    if page.status.None? then MergeRun(Failure(MissingElement), log)
    else
      var withStatus := log.(status := Some(StripSpace(page.status.value)));
      if page.timePlayed.None? then MergeRun(Failure(MissingElement), withStatus)
      else MergeTime(withStatus, TimeReading(page.timePlayed.value), page.platforms)
  }

  /** The conversion `_parse_log` makes of a time text: none unless it is non-empty and holds an `h`. */
  function TimeReading(time: string): Option<Result<real, ScrapeError>> {
    if time != [] && 'h' in time then Some(HoursOf(time)) else None
  }

  /** The rest of `_parse_log` once the status is stored and the time text has been read. */
  function MergeTime(log: PartialLog, reading: Option<Result<real, ScrapeError>>, platforms: seq<string>): (m: MergeRun)
    ensures SameGame(m.log, log)
  {
    if reading.Some? && reading.value.Failure? then MergeRun(Failure(reading.value.error), log)
    else
      var withHours := if reading.Some? then log.(hoursPlayed := Some(reading.value.value)) else log;
      if platforms == [] then MergeRun(Success(()), withHours)
      else MergeRun(Success(()), withHours.(platformsPlayed := Some(PlatformNames(platforms))))
  }

  /** A converted time is stored, no time leaves the key alone, and only a failed conversion raises. */
  lemma MergeTimeHours(log: PartialLog, reading: Option<Result<real, ScrapeError>>, platforms: seq<string>)
    ensures var m := MergeTime(log, reading, platforms);
            && (reading.Some? && reading.value.Success? ==>
                  m.outcome.Success? && m.log.hoursPlayed == Some(reading.value.value))
            && (reading.None? ==> m.outcome.Success? && m.log.hoursPlayed == log.hoursPlayed)
            && (m.outcome.Failure? <==> reading.Some? && reading.value.Failure?)
  {
  }

  /**
    Reading a log page with a status element always stores the stripped status,
    even when the time then fails to convert.
  */
  lemma MergeStoresStatus(log: PartialLog, page: DetailPage)
    requires page.status.Some?
    ensures MergeDetail(log, page).log.status == Some(StripSpace(page.status.value))
  {
  }

  /**
    The hours are stored exactly when the time text is non-empty, holds an `h`
    and converts; otherwise the key keeps what it had (absent for a fresh log),
    and is never set to 0.
  */
  lemma MergeHours(log: PartialLog, page: DetailPage)
    requires page.status.Some? && page.timePlayed.Some?
    ensures var time := page.timePlayed.value;
            var m := MergeDetail(log, page);
            && (time != [] && 'h' in time && HoursOf(time).Success? ==>
                  m.outcome.Success? && m.log.hoursPlayed == Some(HoursOf(time).value))
            && (time == [] || 'h' !in time ==> m.outcome.Success? && m.log.hoursPlayed == log.hoursPlayed)
            && (m.outcome.Failure? <==> time != [] && 'h' in time && HoursOf(time).Failure?)
  {
    var withStatus := log.(status := Some(StripSpace(page.status.value)));
    var time := page.timePlayed.value;
    assert MergeDetail(log, page) == MergeTime(withStatus, TimeReading(time), page.platforms);
    MergeTimeHours(withStatus, TimeReading(time), page.platforms);
  }

  /** On success, the platforms are stored exactly when the page lists some, and kept as they were otherwise. */
  lemma MergePlatforms(log: PartialLog, page: DetailPage)
    requires MergeDetail(log, page).outcome.Success?
    ensures var m := MergeDetail(log, page);
            && (page.platforms != [] ==> m.log.platformsPlayed == Some(PlatformNames(page.platforms)))
            && (page.platforms == [] ==> m.log.platformsPlayed == log.platformsPlayed)
  {
  }

  /** A page without a status element raises at once and leaves the log as it was. */
  lemma MergeNeedsStatus(log: PartialLog, page: DetailPage)
    requires page.status.None?
    ensures MergeDetail(log, page) == MergeRun(Failure(MissingElement), log)
  {
  }

  // ---------------------------------------------------------------------------
  // Fetching a log page
  // ---------------------------------------------------------------------------

  /** What one `_fetch_log` call does: how many GETs it makes, its outcome, the log it leaves. */
  datatype LogRun = LogRun(gets: nat, outcome: Result<(), ScrapeError>, log: PartialLog)

  /**
    `_fetch_log` for a page that answers `replies` to successive GETs: 429
    retries the same log, 200 reads the page into it, any other status leaves
    it alone without raising.
  */
  function FetchLogSpec(log: PartialLog, replies: seq<DetailReply>): (run: LogRun)
    ensures SameGame(run.log, log)
  {
    if replies == [] then LogRun(0, Failure(RetriesExhausted), log)
    else if replies[0].status == 429 then
      var rest := FetchLogSpec(log, replies[1..]);
      LogRun(rest.gets + 1, rest.outcome, rest.log)
    else if replies[0].status == 200 then
      var m := MergeDetail(log, replies[0].page);
      LogRun(1, m.outcome, m.log)
    else LogRun(1, Success(()), log)
  }

  /** A throttled reply in front changes nothing but one more GET. */
  lemma FetchLogThrottle(log: PartialLog, throttle: DetailReply, replies: seq<DetailReply>)
    requires throttle.status == 429
    ensures var before := FetchLogSpec(log, [throttle] + replies);
            var after := FetchLogSpec(log, replies);
            before.outcome == after.outcome && before.log == after.log && before.gets == after.gets + 1
  {
    assert ([throttle] + replies)[1..] == replies;
  }

  /** A reply that is neither 200 nor 429 ends the fetch quietly with the log unchanged. */
  lemma FetchLogOther(log: PartialLog, reply: DetailReply, later: seq<DetailReply>)
    requires reply.status != 200 && reply.status != 429
    ensures FetchLogSpec(log, [reply] + later) == LogRun(1, Success(()), log)
  {
  }

  /**
    After any number of throttles, a 200 reads the page: the log ends as
    `MergeDetail` leaves it, after one GET per reply.
  */
  lemma {:induction false} FetchLogAfterThrottles(log: PartialLog, throttles: nat, page: DetailPage, later: seq<DetailReply>)
    ensures var replies := Repeat(DetailReply(429, page), throttles) + [DetailReply(200, page)] + later;
            var run := FetchLogSpec(log, replies);
            var m := MergeDetail(log, page);
            run == LogRun(throttles + 1, m.outcome, m.log)
  {
    var replies := Repeat(DetailReply(429, page), throttles) + [DetailReply(200, page)] + later;
    if throttles > 0 {
      FetchLogAfterThrottles(log, throttles - 1, page, later);
      assert replies[1..] == Repeat(DetailReply(429, page), throttles - 1) + [DetailReply(200, page)] + later;
    } else {
      assert replies[0] == DetailReply(200, page);
    }
  }

  // ---------------------------------------------------------------------------
  // The stages of a collection
  // ---------------------------------------------------------------------------

  /** `range(1, last + 1)`. */
  function PageNumbers(last: int): (nums: seq<int>)
    ensures |nums| == if last > 0 then last else 0
    ensures forall k :: 0 <= k < |nums| ==> nums[k] == k + 1
  {
    seq(if last > 0 then last else 0, k => k + 1)
  }

  /** The page numbers are exactly 1 to `last`, each once, in increasing order. */
  lemma PageNumbersRange(last: int)
    ensures var nums := PageNumbers(last);
            && (forall p :: p in nums <==> 1 <= p <= last)
            && (forall j, k :: 0 <= j < k < |nums| ==> nums[j] < nums[k])
  {
    var nums := PageNumbers(last);
    forall p | 1 <= p <= last
      ensures p in nums
    {
      assert nums[p - 1] == p;
    }
  }

  /** What a stage does: its outcome, the URLs it gets, and the logs it produces. */
  type StageRun = Stage<string, PartialLog, ScrapeError>

  /** The listing pages `nums` fetched and parsed in order; the items are the logs appended. */
  function PagesSpec(username: string, listing: string -> ListingPage, nums: seq<int>): StageRun {
    Chain(PageSteps(username, listing, nums))
  }

  /** `_fetch_info_per_page(n)`: one GET of listing page `n`, and the logs its cards append. */
  function PageStep(username: string, listing: string -> ListingPage, n: int): (step: StageRun)
    ensures step.requests == [PageUrl(username, n)]
  {
    var url := PageUrl(username, n);
    var cards := CardsSpec(username, listing(url).cards);
    Stage(cards.outcome, [url], cards.added)
  }

  function PageSteps(username: string, listing: string -> ListingPage, nums: seq<int>): (steps: seq<StageRun>)
    ensures |steps| == |nums|
  {
    seq(|nums|, k requires 0 <= k < |nums| => PageStep(username, listing, nums[k]))
  }

  /** The log pages of `logs` fetched in order; the items of the run are all the logs afterwards. */
  function DetailsSpec(username: string, details: string -> seq<DetailReply>, logs: seq<PartialLog>): StageRun {
    if logs == [] then Stage(Success(()), [], [])
    else
      var url := LogUrl(username, logs[0].slug);
      var f := FetchLogSpec(logs[0], details(url));
      if f.outcome.Failure? then Stage(f.outcome, Repeat(url, f.gets), [f.log] + logs[1..])
      else
        var rest := DetailsSpec(username, details, logs[1..]);
        Stage(rest.outcome, Repeat(url, f.gets) + rest.requests, [f.log] + rest.items)
  }

  /**
    `collect` on a collector holding `logs`: the profile root for the last page
    number, then every listing page, then the log page of every log.
  */
  function CollectSpec(username: string, listing: string -> ListingPage, details: string -> seq<DetailReply>,
                       logs: seq<PartialLog>): StageRun
  {
    var games := GamesUrl(username);
    var last := LastPage(listing(games).pageSpans);
    if last.Failure? then Stage(Failure(last.error), [games], logs)
    else
      var pages := PagesSpec(username, listing, PageNumbers(last.value));
      if pages.outcome.Failure? then Stage(pages.outcome, [games] + pages.requests, logs + pages.items)
      else
        var found := DetailsSpec(username, details, logs + pages.items);
        Stage(found.outcome, [games] + pages.requests + found.requests, found.items)
  }

  // ---------------------------------------------------------------------------
  // The collector
  // ---------------------------------------------------------------------------

  class LogCollector {
    const username: string
    var logs: seq<PartialLog>
    /** The URL of every GET made so far, retries included. */
    var requests: seq<string>

    constructor (username: string)
      ensures this.username == username && logs == [] && requests == []
    {
      this.username := username;
      logs := [];
      requests := [];
    }

    /** `collect`: the last page number, the page stage, then the log stage; a failure ends the collection. */
    method Collect(listing: string -> ListingPage, details: string -> seq<DetailReply>) returns (res: Result<(), ScrapeError>)
      modifies this`logs, this`requests
      ensures var run := CollectSpec(username, listing, details, old(logs));
              && res == run.outcome
              && requests == old(requests) + run.requests
              && logs == run.items
    {
      var last := GetLastPage(listing);
      if last.Failure? {
        return Failure(last.error);
      }
      ghost var pages := PagesSpec(username, listing, PageNumbers(last.value));
      res := FetchPages(last.value, listing);
      Assoc(old(requests), [GamesUrl(username)], pages.requests);
      if res.Failure? {
        return;
      }
      ghost var found := DetailsSpec(username, details, old(logs) + pages.items);
      res := FetchLogs(details);
      Assoc(old(requests), [GamesUrl(username)] + pages.requests, found.requests);
    }

    /** `_get_last_page`: one GET of the profile root, read for the last page number. */
    method GetLastPage(listing: string -> ListingPage) returns (last: Result<int, ScrapeError>)
      modifies this`requests
      ensures requests == old(requests) + [GamesUrl(username)]
      ensures last == LastPage(listing(GamesUrl(username)).pageSpans)
    {
      var url := GamesUrl(username);
      requests := requests + [url];
      var page := listing(url);
      last := LastPage(page.pageSpans);
    }

    /** The page stage: `_fetch_info_per_page` for pages 1 to `last`, one after the other. */
    method FetchPages(last: int, listing: string -> ListingPage) returns (res: Result<(), ScrapeError>)
      modifies this`logs, this`requests
      ensures var run := PagesSpec(username, listing, PageNumbers(last));
              && res == run.outcome
              && requests == old(requests) + run.requests
              && logs == old(logs) + run.items
    {
      ghost var nums := PageNumbers(last);
      ghost var steps := PageSteps(username, listing, nums);
      assert steps[0..] == steps;
      var page := 1;
      while page <= last
        invariant 1 <= page && page - 1 <= |nums|
        invariant Chain(steps).outcome == Chain(steps[page - 1..]).outcome
        invariant old(requests) + Chain(steps).requests == requests + Chain(steps[page - 1..]).requests
        invariant old(logs) + Chain(steps).items == logs + Chain(steps[page - 1..]).items
      {
        ghost var before, logsBefore := requests, logs;
        ghost var step := steps[page - 1];
        ghost var rest := Chain(steps[page..]);
        assert step == PageStep(username, listing, page);
        ChainStep(steps, page - 1);
        res := FetchInfoPerPage(page, listing);
        if res.Failure? {
          return;
        }
        Assoc(before, step.requests, rest.requests);
        Assoc(logsBefore, step.items, rest.items);
        page := page + 1;
      }
      assert steps[page - 1..] == [];
      return Success(());
    }

    /** `_fetch_info_per_page`: one GET of a listing page and the parse of its cards. */
    method FetchInfoPerPage(n: int, listing: string -> ListingPage) returns (res: Result<(), ScrapeError>)
      modifies this`logs, this`requests
      ensures var step := PageStep(username, listing, n);
              && res == step.outcome
              && requests == old(requests) + step.requests
              && logs == old(logs) + step.items
    {
      var url := PageUrl(username, n);
      requests := requests + [url];
      res := ParseGamesInfo(listing(url).cards);
    }

    /** `_parse_games_info`: one partial log per card, appended in card order. */
    method ParseGamesInfo(cards: seq<GameCard>) returns (res: Result<(), ScrapeError>)
      modifies this`logs
      ensures var run := CardsSpec(username, cards);
              && res == run.outcome
              && logs == old(logs) + run.added
    {
      ghost var rs := CardLogs(username, cards);
      assert rs[0..] == rs;
      var k := 0;
      while k < |cards|
        invariant 0 <= k <= |cards|
        invariant Successes(rs).outcome == Successes(rs[k..]).outcome
        invariant old(logs) + Successes(rs).added == logs + Successes(rs[k..]).added
      {
        SuccessesStep(rs, k);
        ghost var rest := Successes(rs[k + 1..]);
        var card := cards[k];
        if card.gameId.None? {
          assert logs + [] == logs;
          return Failure(MissingElement);
        }
        var gameId := ParseInt(card.gameId.value);
        if gameId.None? {
          assert logs + [] == logs;
          return Failure(ValueError);
        }
        if card.href.None? {
          assert logs + [] == logs;
          return Failure(MissingElement);
        }
        var log := PartialLog(username, gameId.value, Slug(card.href.value), None, None, None, None);
        if card.rating.Some? {
          var rating := ParseInt(card.rating.value);
          if rating.None? {
            assert logs + [] == logs;
            return Failure(ValueError);
          }
          log := log.(userRating := rating);
        }
        assert rs[k] == CardLog(username, card) == Success(log);
        Assoc(logs, [log], rest.added);
        logs := logs + [log];
        k := k + 1;
      }
      assert logs + [] == logs;
      return Success(());
    }

    /** The log stage: `_fetch_log` for every log held, one after the other. */
    method FetchLogs(details: string -> seq<DetailReply>) returns (res: Result<(), ScrapeError>)
      modifies this`logs, this`requests
      ensures var run := DetailsSpec(username, details, old(logs));
              && res == run.outcome
              && requests == old(requests) + run.requests
              && logs == run.items
    {
      ghost var start := logs;
      var i := 0;
      while i < |logs|
        invariant 0 <= i <= |logs| && |logs| == |start|
        invariant logs[i..] == start[i..]
        invariant DetailsSpec(username, details, start).outcome == DetailsSpec(username, details, start[i..]).outcome
        invariant old(requests) + DetailsSpec(username, details, start).requests
                  == requests + DetailsSpec(username, details, start[i..]).requests
        invariant DetailsSpec(username, details, start).items == logs[..i] + DetailsSpec(username, details, start[i..]).items
      {
        ghost var before, logsBefore := requests, logs;
        ghost var url := LogUrl(username, start[i].slug);
        ghost var f := FetchLogSpec(start[i], details(url));
        ghost var rest := DetailsSpec(username, details, start[i + 1..]);
        DetailsSpecStep(username, details, start, i);
        TailAt(logs, start, i);
        res := FetchLog(i, details(LogUrl(username, logs[i].slug)));
        UpdateAt(logsBefore, i, f.log);
        if res.Failure? {
          Assoc(logsBefore[..i], [f.log], start[i + 1..]);
          return;
        }
        Assoc(before, Repeat(url, f.gets), rest.requests);
        Assoc(logsBefore[..i], [f.log], rest.items);
        i := i + 1;
      }
      return Success(());
    }

    /**
      `_fetch_log` for the log at `i`, whose page answers `replies` to
      successive GETs: 429 fetches the same log again, 200 reads the page into
      it, any other status leaves it unchanged.
    */
    method FetchLog(i: nat, replies: seq<DetailReply>) returns (res: Result<(), ScrapeError>)
      requires i < |logs|
      modifies this`logs, this`requests
      ensures var run := FetchLogSpec(old(logs)[i], replies);
              && res == run.outcome
              && requests == old(requests) + Repeat(LogUrl(username, old(logs)[i].slug), run.gets)
              && logs == old(logs)[i := run.log]
      decreases |replies|
    {
      if replies == [] {
        return Failure(RetriesExhausted);
      }
      var url := LogUrl(username, logs[i].slug);
      requests := requests + [url];
      var status := replies[0].status;
      res := Success(());
      if status == 429 {
        res := FetchLog(i, replies[1..]);
        if res.Failure? {
          return;
        }
      }
      if status == 200 {
        res := ParseLog(i, replies[0].page);
      }
    }

    /** `_parse_log` into the log at `i`: what MergeDetail states, stored key by key. */
    method ParseLog(i: nat, page: DetailPage) returns (res: Result<(), ScrapeError>)
      requires i < |logs|
      modifies this`logs
      ensures var m := MergeDetail(old(logs)[i], page);
              res == m.outcome && logs == old(logs)[i := m.log]
    {
      if page.status.None? {
        return Failure(MissingElement);
      }
      ghost var before := logs;
      logs := logs[i := logs[i].(status := Some(StripSpace(page.status.value)))];
      if page.timePlayed.None? {
        return Failure(MissingElement);
      }
      var reading := TimeReading(page.timePlayed.value);
      assert MergeDetail(before[i], page) == MergeTime(logs[i], reading, page.platforms);
      assert before[i := logs[i]] == logs;
      res := StoreTime(i, reading, page.platforms);
    }

    /** The rest of `_parse_log` once the time text has been read: what MergeTime states. */
    method StoreTime(i: nat, reading: Option<Result<real, ScrapeError>>, platforms: seq<string>)
      returns (res: Result<(), ScrapeError>)
      requires i < |logs|
      modifies this`logs
      ensures var m := MergeTime(old(logs)[i], reading, platforms);
              res == m.outcome && logs == old(logs)[i := m.log]
    {
      if reading.Some? {
        if reading.value.Failure? {
          return Failure(reading.value.error);
        }
        logs := logs[i := logs[i].(hoursPlayed := Some(reading.value.value))];
      }
      if platforms != [] {
        logs := logs[i := logs[i].(platformsPlayed := Some(PlatformNames(platforms)))];
      }
      return Success(());
    }
  }

  /** Two sequences that agree from `i` on agree at `i` and from `i + 1` on. */
  lemma TailAt<T>(a: seq<T>, b: seq<T>, i: nat)
    requires i < |a| && |a| == |b| && a[i..] == b[i..]
    ensures a[i] == b[i] && a[i + 1..] == b[i + 1..]
  {
    assert a[i] == a[i..][0];
    assert a[i + 1..] == a[i..][1..];
  }

  /** Replacing the element at `i` keeps what lies before and after it. */
  lemma UpdateAt<T>(a: seq<T>, i: nat, x: T)
    requires i < |a|
    ensures a[i := x] == a[..i] + [x] + a[i + 1..]
    ensures a[i := x][..i + 1] == a[..i] + [x] && a[i := x][i + 1..] == a[i + 1..]
  {
  }

  /** One step of DetailsSpec at position `k`. */
  lemma DetailsSpecStep(username: string, details: string -> seq<DetailReply>, logs: seq<PartialLog>, k: nat)
    requires k < |logs|
    ensures var url := LogUrl(username, logs[k].slug);
            var f := FetchLogSpec(logs[k], details(url));
            var run := DetailsSpec(username, details, logs[k..]);
            var rest := DetailsSpec(username, details, logs[k + 1..]);
            && (f.outcome.Failure? ==> run == Stage(f.outcome, Repeat(url, f.gets), [f.log] + logs[k + 1..]))
            && (f.outcome.Success? ==> run == Stage(rest.outcome, Repeat(url, f.gets) + rest.requests, [f.log] + rest.items))
  {
    assert logs[k..][0] == logs[k];
    assert logs[k..][1..] == logs[k + 1..];
  }

  // ---------------------------------------------------------------------------
  // What a collection promises
  // ---------------------------------------------------------------------------

  /**
    The page stage gets the listing pages in the order given, each once, up to
    and including the page that fails, whose error is the stage's, every page
    before it having succeeded; on success it has got every one of them.
  */
  lemma PagesInOrder(username: string, listing: string -> ListingPage, nums: seq<int>)
    ensures var run := PagesSpec(username, listing, nums);
            && |run.requests| <= |nums|
            && (forall k :: 0 <= k < |run.requests| ==> run.requests[k] == PageUrl(username, nums[k]))
            && (run.outcome.Success? ==> |run.requests| == |nums|)
            && (run.outcome.Failure? ==>
                  var last := |run.requests| - 1;
                  && 0 <= last
                  && run.outcome == PageStep(username, listing, nums[last]).outcome
                  && forall k :: 0 <= k < last ==> PageStep(username, listing, nums[k]).outcome.Success?)
  {
    var steps := PageSteps(username, listing, nums);
    var us := seq(|nums|, k requires 0 <= k < |nums| => PageUrl(username, nums[k]));
    forall k | 0 <= k < |nums|
      ensures steps[k].requests == [us[k]]
    {
      assert steps[k] == PageStep(username, listing, nums[k]);
    }
    ChainSingleRequests(steps, us);
    var run := Chain(steps);
    if run.outcome.Failure? {
      var last := |run.requests| - 1;
      assert steps[last] == PageStep(username, listing, nums[last]);
      forall k | 0 <= k < last
        ensures PageStep(username, listing, nums[k]).outcome.Success?
      {
        assert steps[k] == PageStep(username, listing, nums[k]);
      }
    }
  }

  /** Pages 1 to `last` are each got exactly once: the URLs are those pages, in order, all different. */
  lemma PagesEachOnce(username: string, listing: string -> ListingPage, last: int)
    requires PagesSpec(username, listing, PageNumbers(last)).outcome.Success?
    ensures var urls := PagesSpec(username, listing, PageNumbers(last)).requests;
            && |urls| == (if last > 0 then last else 0)
            && (forall k :: 0 <= k < |urls| ==> urls[k] == PageUrl(username, k + 1))
            && (forall j, k :: 0 <= j < k < |urls| ==> urls[j] != urls[k])
  {
    var urls := PagesSpec(username, listing, PageNumbers(last)).requests;
    PagesInOrder(username, listing, PageNumbers(last));
    forall j, k | 0 <= j < k < |urls|
      ensures urls[j] != urls[k]
    {
      PageUrlsDiffer(username, j + 1, k + 1);
    }
  }

  /**
    The log stage keeps one log per log, in place; each keeps its user, game,
    slug and rating; and when the stage succeeds each log is what its own
    `_fetch_log` made of it, whatever happened to the others.
  */
  lemma {:induction false} DetailsKeepGames(username: string, details: string -> seq<DetailReply>, logs: seq<PartialLog>)
    ensures var run := DetailsSpec(username, details, logs);
            && |run.items| == |logs|
            && (forall k :: 0 <= k < |logs| ==> SameGame(run.items[k], logs[k]))
            && (run.outcome.Success? ==>
                  forall k :: 0 <= k < |logs| ==>
                    run.items[k] == FetchLogSpec(logs[k], details(LogUrl(username, logs[k].slug))).log)
    decreases |logs|
  {
    if logs != [] {
      DetailsKeepGames(username, details, logs[1..]);
      var run := DetailsSpec(username, details, logs);
      var f := FetchLogSpec(logs[0], details(LogUrl(username, logs[0].slug)));
      if f.outcome.Failure? {
        forall k | 1 <= k < |logs| ensures SameGame(run.items[k], logs[k]) {
          assert run.items[k] == logs[1..][k - 1];
        }
      } else {
        var rest := DetailsSpec(username, details, logs[1..]);
        forall k | 1 <= k < |logs|
          ensures SameGame(run.items[k], logs[k])
          ensures run.outcome.Success? ==>
                    run.items[k] == FetchLogSpec(logs[k], details(LogUrl(username, logs[k].slug))).log
        {
          assert run.items[k] == rest.items[k - 1];
          assert logs[1..][k - 1] == logs[k];
        }
      }
    }
  }

  /**
    When every log page answers its first GET without a throttle and every
    fetch succeeds, the log stage gets each log's page exactly once, in log
    order.
  */
  lemma {:induction false} DetailsOncePerLog(username: string, details: string -> seq<DetailReply>, logs: seq<PartialLog>)
    requires forall k :: 0 <= k < |logs| ==>
               var f := FetchLogSpec(logs[k], details(LogUrl(username, logs[k].slug)));
               f.gets == 1 && f.outcome.Success?
    ensures var run := DetailsSpec(username, details, logs);
            && run.outcome.Success?
            && |run.requests| == |logs|
            && (forall k :: 0 <= k < |logs| ==> run.requests[k] == LogUrl(username, logs[k].slug))
    decreases |logs|
  {
    if logs != [] {
      var tail := logs[1..];
      forall k | 0 <= k < |tail|
        ensures var f := FetchLogSpec(tail[k], details(LogUrl(username, tail[k].slug)));
                f.gets == 1 && f.outcome.Success?
      {
        assert tail[k] == logs[k + 1];
      }
      DetailsOncePerLog(username, details, tail);
      var run := DetailsSpec(username, details, logs);
      var rest := DetailsSpec(username, details, tail);
      assert Repeat(LogUrl(username, logs[0].slug), 1) == [LogUrl(username, logs[0].slug)];
      forall k | 1 <= k < |logs|
        ensures run.requests[k] == LogUrl(username, logs[k].slug)
      {
        assert run.requests[k] == rest.requests[k - 1];
        assert tail[k - 1] == logs[k];
      }
    }
  }

  /**
    A collection whose page stage succeeds gets the profile root first, then
    pages 1 to the last in order, each once, and only then any log page; the
    log stage covers the logs held before and those the pages appended, in
    that order, and keeps the game of each.
  */
  lemma CollectStages(username: string, listing: string -> ListingPage, details: string -> seq<DetailReply>,
                      logs: seq<PartialLog>)
    requires LastPage(listing(GamesUrl(username)).pageSpans).Success?
    requires PagesSpec(username, listing, PageNumbers(LastPage(listing(GamesUrl(username)).pageSpans).value)).outcome.Success?
    ensures var last := LastPage(listing(GamesUrl(username)).pageSpans).value;
            var pages := PagesSpec(username, listing, PageNumbers(last));
            var run := CollectSpec(username, listing, details, logs);
            var n := |pages.requests|;
            && n == (if last > 0 then last else 0)
            && |run.requests| >= 1 + n
            && run.requests[0] == GamesUrl(username)
            && (forall k :: 1 <= k <= n ==> run.requests[k] == PageUrl(username, k))
            && run.requests[1 + n..] == DetailsSpec(username, details, logs + pages.items).requests
            && |run.items| == |logs| + |pages.items|
            && (forall k :: 0 <= k < |logs| ==> SameGame(run.items[k], logs[k]))
            && (forall k :: 0 <= k < |pages.items| ==> SameGame(run.items[|logs| + k], pages.items[k]))
  {
    var last := LastPage(listing(GamesUrl(username)).pageSpans).value;
    var pages := PagesSpec(username, listing, PageNumbers(last));
    var found := DetailsSpec(username, details, logs + pages.items);
    var run := CollectSpec(username, listing, details, logs);
    assert run == Stage(found.outcome, [GamesUrl(username)] + pages.requests + found.requests, found.items);
    PagesEachOnce(username, listing, last);
    DetailsKeepGames(username, details, logs + pages.items);
    StagesJoin(username, pages, found, logs, run);
  }

  /** The profile request, then the listing pages, then the detail pages; the logs keep their games. */
  lemma StagesJoin(username: string, pages: StageRun, found: StageRun, logs: seq<PartialLog>, run: StageRun)
    requires run.requests == [GamesUrl(username)] + pages.requests + found.requests && run.items == found.items
    requires forall k :: 0 <= k < |pages.requests| ==> pages.requests[k] == PageUrl(username, k + 1)
    requires |found.items| == |logs + pages.items|
    requires forall k :: 0 <= k < |logs + pages.items| ==> SameGame(found.items[k], (logs + pages.items)[k])
    ensures var n := |pages.requests|;
            && |run.requests| >= 1 + n
            && run.requests[0] == GamesUrl(username)
            && (forall k :: 1 <= k <= n ==> run.requests[k] == PageUrl(username, k))
            && run.requests[1 + n..] == found.requests
            && |run.items| == |logs| + |pages.items|
            && (forall k :: 0 <= k < |logs| ==> SameGame(run.items[k], logs[k]))
            && (forall k :: 0 <= k < |pages.items| ==> SameGame(run.items[|logs| + k], pages.items[k]))
  {
    forall k | 1 <= k <= |pages.requests|
      ensures run.requests[k] == PageUrl(username, k)
    {
      assert run.requests[k] == pages.requests[k - 1];
    }
    forall k | 0 <= k < |logs|
      ensures SameGame(run.items[k], logs[k])
    {
      assert (logs + pages.items)[k] == logs[k];
    }
    forall k | 0 <= k < |pages.items|
      ensures SameGame(run.items[|logs| + k], pages.items[k])
    {
      assert (logs + pages.items)[|logs| + k] == pages.items[k];
    }
  }

}
