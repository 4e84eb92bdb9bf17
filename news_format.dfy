/**
 * `formatForWhatsApp` and `formatTimeAgo` of `services/newsService.js`: the
 * text pushed to subscribers. The decorative characters are the code points
 * that stand in the source's string literals (UTF-8 emoji read back as
 * Windows-1252), written here as escapes.
 */
module NewsFormat {
  import opened Wrappers
  import opened Text
  import opened NewsService

  const MINUTE_MS: int := 60_000
  const HOUR_MS: int := 3_600_000
  /** Titles longer than this are cut to 77 characters plus `...`. */
  const TITLE_LIMIT: nat := 80

  const NO_NEWS_TEXT: string :=
    "No AI news articles found in the last 24 hours. \U{00F0}\U{0178}\U{02DC}\U{201D}\n\nCheck back tomorrow for the latest updates!"
  const NEWSPAPER_MARK: string := "\U{00F0}\U{0178}\U{2014}\U{017E}\U{00EF}\U{00B8}"
  const CALENDAR_MARK: string := "\U{00F0}\U{0178}\U{201C}\U{2026}"
  const CHART_MARK: string := "\U{00F0}\U{0178}\U{201C}\U{0160}"
  const SOURCE_MARK: string := "\U{00F0}\U{0178}\U{201C}\U{00B0}"
  const BULLET_MARK: string := "\U{00E2}\U{20AC}\U{00A2}"
  const LINK_MARK: string := "\U{00F0}\U{0178}\U{201D}\U{2014}"
  const ROBOT_MARK: string := "\U{00F0}\U{0178}\U{00A4}\U{2013}"
  /** Used when the `APP_URL` environment variable is unset or empty. */
  const DEFAULT_APP_URL: string := "https://your-app-url.com"

  // ---------------------------------------------------------------- formatTimeAgo

  /** The unit `formatTimeAgo` reports an age in, with the whole count of it. */
  datatype AgeBucket = Minutes(n: int) | Hours(n: int) | Days(n: int)

  /**
   * The bucket for an age of `diff` milliseconds: whole minutes under an hour
   * (negative for a date in the future), whole hours under a day, else whole days.
   */
  function BucketOf(diff: int): (b: AgeBucket)
    ensures b.Minutes? <==> diff < HOUR_MS
    ensures b.Hours? <==> HOUR_MS <= diff < DAY_MS
    ensures b.Minutes? ==> b.n * MINUTE_MS <= diff < (b.n + 1) * MINUTE_MS && b.n < 60
    ensures b.Hours? ==> b.n * HOUR_MS <= diff < (b.n + 1) * HOUR_MS && 1 <= b.n <= 23
    ensures b.Days? ==> b.n * DAY_MS <= diff < (b.n + 1) * DAY_MS && b.n >= 1
  {
    if diff < HOUR_MS then Minutes(diff / MINUTE_MS)
    else if diff < DAY_MS then Hours(diff / HOUR_MS)
    else Days(diff / DAY_MS)
  }

  /**
   * `formatTimeAgo(publishedAt)` at time `now`. An Invalid Date makes every
   * comparison false, so it lands in the days branch and prints `NaN day ago`.
   */
  function FormatTimeAgo(publishedAt: Option<int>, now: int): (text: string)
    ensures publishedAt.None? ==> text == "NaN day ago"
  {
    match publishedAt
    case None => "NaN day ago"
    case Some(t) =>
      match BucketOf(now - t)
      case Minutes(n) => IntToString(n) + " min ago"
      case Hours(n) => IntToString(n) + " hours ago"
      case Days(n) => IntToString(n) + " day" + (if n > 1 then "s" else "") + " ago"
  }

  /**
   * The label for a valid date: whole minutes (negative for a future date)
   * under an hour, whole hours under a day, always written `hours` even for
   * one, then whole days, with the `s` only from two days on.
   */
  lemma FormatTimeAgoLabels(t: int, now: int)
    ensures var diff := now - t; var text := FormatTimeAgo(Some(t), now);
      && (diff < HOUR_MS ==> text == IntToString(diff / MINUTE_MS) + " min ago")
      && (HOUR_MS <= diff < DAY_MS ==> text == NatToString(diff / HOUR_MS) + " hours ago")
      && (DAY_MS <= diff ==> text == NatToString(diff / DAY_MS) + (if diff >= 2 * DAY_MS then " days ago" else " day ago"))
  {
    var diff := now - t;
    if diff < HOUR_MS {
      MinuteLabel(t, now);
    } else if diff < DAY_MS {
      HourLabel(t, now);
    } else {
      DayLabel(t, now);
    }
  }

  lemma MinuteLabel(t: int, now: int)
    requires now - t < HOUR_MS
    ensures FormatTimeAgo(Some(t), now) == IntToString((now - t) / MINUTE_MS) + " min ago"
  {
    assert BucketOf(now - t) == Minutes((now - t) / MINUTE_MS);
  }

  lemma HourLabel(t: int, now: int)
    requires HOUR_MS <= now - t < DAY_MS
    ensures FormatTimeAgo(Some(t), now) == NatToString((now - t) / HOUR_MS) + " hours ago"
  {
    var n := (now - t) / HOUR_MS;
    assert FormatTimeAgo(Some(t), now) == IntToString(n) + " hours ago" && n >= 1 by {
      assert BucketOf(now - t) == Hours(n);
    }
    assert IntToString(n) == NatToString(n);
  }

  lemma DayLabel(t: int, now: int)
    requires DAY_MS <= now - t
    ensures FormatTimeAgo(Some(t), now) ==
      NatToString((now - t) / DAY_MS) + (if now - t >= 2 * DAY_MS then " days ago" else " day ago")
  {
    var n := (now - t) / DAY_MS;
    assert FormatTimeAgo(Some(t), now) == IntToString(n) + " day" + (if n > 1 then "s" else "") + " ago" by {
      assert BucketOf(now - t) == Days(n);
    }
    assert n >= 1 && (n > 1 <==> now - t >= 2 * DAY_MS) by {
      DayCount(now - t);
    }
    assert IntToString(n) == NatToString(n);
    DaySuffix(NatToString(n));
  }

  /** Whole days in an age of at least a day: one or more, and more than one from two days on. */
  lemma DayCount(diff: int)
    requires diff >= DAY_MS
    ensures diff / DAY_MS >= 1
    ensures diff / DAY_MS > 1 <==> diff >= 2 * DAY_MS
  {
    assert DAY_MS == 86_400_000;
    var q := diff / 86_400_000;
    assert q * 86_400_000 <= diff < q * 86_400_000 + 86_400_000;
  }

  lemma DaySuffix(count: string)
    ensures count + " day" + "s" + " ago" == count + " days ago"
    ensures count + " day" + "" + " ago" == count + " day ago"
  {
    assert " day" + "s" + " ago" == " days ago";
    assert " day" + "" + " ago" == " day ago";
  }

  // ---------------------------------------------------------------- formatForWhatsApp

  /** The title as shown: cut to exactly 80 characters, ending in `...`, when longer. */
  function ShownTitle(title: string): (shown: string)
    ensures |shown| <= TITLE_LIMIT
    ensures |title| <= TITLE_LIMIT ==> shown == title
    ensures |title| > TITLE_LIMIT ==>
      |shown| == TITLE_LIMIT && shown[..77] == title[..77] && shown[77..] == "..."
  {
    if |title| > TITLE_LIMIT then title[..77] + "..." else title
  }

  function AppUrl(env: Option<string>): string {
    match env
    case Some(url) => if url != [] then url else DEFAULT_APP_URL
    case None => DEFAULT_APP_URL
  }

  /** The banner line and the blank line after it. */
  function BannerLine(): string {
    NEWSPAPER_MARK + " *Daily AI News Update* " + NEWSPAPER_MARK + "\n\n"
  }

  /** The date, as `toLocaleDateString` writes it for `en-US`. */
  function DateLine(dateText: string): string {
    CALENDAR_MARK + " " + dateText + "\n"
  }

  function CountLine(count: nat): string {
    CHART_MARK + " *" + NatToString(count) + " articles from the last 24 hours*\n\n"
  }

  const TIP_LINE: string := "_Tip: Click links to read full articles_\n\n"

  /** The opening lines: banner, date, article count and the tip. */
  function Header(dateText: string, count: nat): string {
    BannerLine() + DateLine(dateText) + CountLine(count) + TIP_LINE
  }

  /** `${number} *${title}*\n` */
  function TitleLine(number: nat, title: string): string {
    NatToString(number) + ". *" + ShownTitle(title) + "*\n"
  }

  /** `${source} \u2022 ${time}\n`, the source behind its mark. */
  function SourceLine(source: string, time: string): string {
    SOURCE_MARK + " " + source + " " + BULLET_MARK + " " + time + "\n"
  }

  /** The link line and the blank line after it. */
  function LinkLine(url: string): string {
    LINK_MARK + " " + url + "\n\n"
  }

  /** The three lines for the article numbered `number`. */
  function Block(number: nat, a: Article, now: int): string {
    TitleLine(number, a.title) + SourceLine(a.source, FormatTimeAgo(a.publishedAt, now)) + LinkLine(a.url)
  }

  const RULE_LINE: string := "---\n"

  function SignatureLine(): string {
    ROBOT_MARK + " *AI News Pusher*\n"
  }

  /** Where to unsubscribe: the `APP_URL` environment variable, or a placeholder. */
  function UnsubscribeLine(appUrlEnv: Option<string>): string {
    "To unsubscribe, visit: " + AppUrl(appUrlEnv) + "/unsubscribe"
  }

  function Footer(appUrlEnv: Option<string>): string {
    RULE_LINE + SignatureLine() + UnsubscribeLine(appUrlEnv)
  }

  /** One block per article, numbered from 1, in the order given. */
  function Blocks(news: seq<Article>, now: int): seq<string>
  {
    seq(|news|, i requires 0 <= i < |news| => Block(i + 1, news[i], now))
  }

  /** Block `i` opens with the title line numbered `i + 1`: the articles are numbered from 1 in the order given. */
  lemma BlocksNumbered(news: seq<Article>, now: int, i: nat)
    requires i < |news|
    ensures StartsWith(Blocks(news, now)[i], TitleLine(i + 1, news[i].title))
  {
    var a := news[i];
    StartsWithFirst(TitleLine(i + 1, a.title), SourceLine(a.source, FormatTimeAgo(a.publishedAt, now)), LinkLine(a.url));
  }

  lemma StartsWithFirst(x: string, y: string, z: string)
    ensures StartsWith(x + y + z, x)
  {
    assert (x + y + z)[..|x|] == x;
  }

  function Concat(parts: seq<string>): string {
    if parts == [] then [] else Concat(parts[..|parts| - 1]) + parts[|parts| - 1]
  }

  /** The message `formatForWhatsApp` returns for `news`. */
  function WhatsAppMessage(news: seq<Article>, dateText: string, appUrlEnv: Option<string>, now: int): string {
    if news == [] then NO_NEWS_TEXT
    else Header(dateText, |news|) + Concat(Blocks(news, now)) + Footer(appUrlEnv)
  }

  lemma InfixOfMiddle(x: string, u: string, z: string)
    ensures Contains(x + u + z, u)
  {
    assert (x + u + z)[|x|..][..|u|] == u;
  }

  lemma InfixTransitive(a: string, b: string, c: string)
    requires Contains(a, b) && Contains(b, c)
    ensures Contains(a, c)
  {
    var p :| 0 <= p <= |a| && StartsWith(a[p..], b);
    var q :| 0 <= q <= |b| && StartsWith(b[q..], c);
    assert p + q + |c| <= |a|;
    forall k | 0 <= k < |c| ensures a[p + q + k] == c[k] {
      assert b[q..][..|c|][k] == c[k];
      assert a[p..][..|b|][q + k] == b[q + k];
    }
    assert a[p + q..][..|c|] == c;
  }

  lemma {:induction false} ConcatContainsPart(parts: seq<string>, i: nat)
    requires i < |parts|
    ensures Contains(Concat(parts), parts[i])
  {
    var init := parts[..|parts| - 1];
    var last := parts[|parts| - 1];
    assert Concat(parts) == Concat(init) + last;
    if i == |parts| - 1 {
      InfixOfMiddle(Concat(init), last, []);
      assert Concat(init) + last + [] == Concat(parts);
    } else {
      ConcatContainsPart(init, i);
      InfixOfMiddle([], Concat(init), last);
      assert [] + Concat(init) + last == Concat(parts);
      assert init[i] == parts[i];
      InfixTransitive(Concat(parts), Concat(init), parts[i]);
    }
  }

  lemma ContainsLeft(x: string, y: string)
    ensures Contains(x + y, x)
  {
    assert (x + y)[0..][..|x|] == x;
  }

  lemma ContainsRight(x: string, y: string)
    ensures Contains(x + y, y)
  {
    assert (x + y)[|x|..][..|y|] == y;
  }

  /** An article's block shows its link and its shown title. */
  lemma BlockShowsArticle(number: nat, a: Article, now: int)
    ensures Contains(Block(number, a, now), a.url)
    ensures Contains(Block(number, a, now), ShownTitle(a.title))
  {
    var title := TitleLine(number, a.title);
    var source := SourceLine(a.source, FormatTimeAgo(a.publishedAt, now));
    var link := LinkLine(a.url);
    assert Block(number, a, now) == title + source + link;
    ContainsRight(title + source, link);
    InfixOfMiddle(LINK_MARK + " ", a.url, "\n\n");
    InfixTransitive(title + source + link, link, a.url);
    ContainsLeft(title, source);
    ContainsLeft(title + source, link);
    InfixTransitive(title + source + link, title + source, title);
    InfixOfMiddle(NatToString(number) + ". *", ShownTitle(a.title), "*\n");
    InfixTransitive(title + source + link, title, ShownTitle(a.title));
  }

  /** Every article given is in the message with its shown title and its link: no cap, no dedup. */
  lemma MessageLinksEveryArticle(news: seq<Article>, dateText: string, appUrlEnv: Option<string>, now: int, i: nat)
    requires i < |news|
    ensures Contains(WhatsAppMessage(news, dateText, appUrlEnv, now), news[i].url)
    ensures Contains(WhatsAppMessage(news, dateText, appUrlEnv, now), ShownTitle(news[i].title))
  {
    var blocks := Blocks(news, now);
    assert WhatsAppMessage(news, dateText, appUrlEnv, now) == Header(dateText, |news|) + Concat(blocks) + Footer(appUrlEnv);
    BlockShowsArticle(i + 1, news[i], now);
    PartOfMessage(Header(dateText, |news|), blocks, Footer(appUrlEnv), i, news[i].url);
    PartOfMessage(Header(dateText, |news|), blocks, Footer(appUrlEnv), i, ShownTitle(news[i].title));
  }

  /** Whatever one block shows, the whole message shows. */
  lemma PartOfMessage(head: string, blocks: seq<string>, foot: string, i: nat, needle: string)
    requires i < |blocks| && Contains(blocks[i], needle)
    ensures Contains(head + Concat(blocks) + foot, needle)
  {
    var message := head + Concat(blocks) + foot;
    InfixOfMiddle(head, Concat(blocks), foot);
    ConcatContainsPart(blocks, i);
    InfixTransitive(message, Concat(blocks), blocks[i]);
    InfixTransitive(message, blocks[i], needle);
  }

  /** A message with news is longer than the no-news text, so it is never that text. */
  lemma NewsMessageIsNotNoNewsText(news: seq<Article>, dateText: string, appUrlEnv: Option<string>, now: int)
    requires news != []
    ensures |WhatsAppMessage(news, dateText, appUrlEnv, now)| > |NO_NEWS_TEXT|
    ensures WhatsAppMessage(news, dateText, appUrlEnv, now) != NO_NEWS_TEXT
  {
    assert |NO_NEWS_TEXT| < 100;
    assert |BannerLine()| + |TIP_LINE| >= 80;
    assert |Header(dateText, |news|)| >= |BannerLine()| + |TIP_LINE|;
    assert |Footer(appUrlEnv)| >= |RULE_LINE| + |SignatureLine()| >= 20;
  }

  /** Appending the next part to a prefix of the parts. */
  lemma ConcatSnoc(head: string, parts: seq<string>, k: nat)
    requires k < |parts|
    ensures head + Concat(parts[..k]) + parts[k] == head + Concat(parts[..k + 1])
  {
    assert parts[..k + 1][..k] == parts[..k];
  }

  /**
   * `formatForWhatsApp(news)`: the fixed no-news text for an empty list, else
   * the header, one numbered block per article appended in a loop, and the footer.
   * The locale-formatted date and the `APP_URL` environment variable are inputs.
   */
  method FormatForWhatsApp(news: seq<Article>, dateText: string, appUrlEnv: Option<string>, now: int)
    returns (message: string)
    ensures message == WhatsAppMessage(news, dateText, appUrlEnv, now)
    ensures news == [] ==> message == NO_NEWS_TEXT
  {
    if |news| == 0 {
      return NO_NEWS_TEXT;
    }
    message := Header(dateText, |news|);
    ghost var blocks := Blocks(news, now);
    assert blocks[..0] == [];
    var index := 0;
    while index < |news|
      invariant 0 <= index <= |news|
      invariant message == Header(dateText, |news|) + Concat(blocks[..index])
    {
      message := message + Block(index + 1, news[index], now);
      ConcatSnoc(Header(dateText, |news|), blocks, index);
      index := index + 1;
    }
    assert blocks[..index] == blocks;
    message := message + Footer(appUrlEnv);
  }
}
