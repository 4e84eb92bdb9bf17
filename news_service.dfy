/**
 * The news side of the pipeline (`services/newsService.js`): the mapping each
 * scraping fetcher applies to the items it has extracted from a page or feed,
 * `stripHtml`, and `fetchLatestNews`, which merges the lists of the sources
 * that fulfilled, keeps the last 24 hours, sorts newest first and keeps 20.
 *
 * Timestamps are integer milliseconds; `publishedAt` is `None` exactly when
 * `new Date(publishedAt)` would be an Invalid Date.
 */
module NewsService {
  import opened Wrappers
  import opened Text

  const DAY_MS: int := 86_400_000
  /** `.slice(0, 20)` in `fetchLatestNews`. */
  const MAX_ARTICLES: nat := 20
  /** `if (i < 5)` in the scraping fetchers. */
  const ITEMS_PER_SOURCE: nat := 5
  /** `.substring(0, 200)` on feed descriptions. */
  const DESCRIPTION_LIMIT: nat := 200

  const MIT_SOURCE: string := "MIT Technology Review"
  const MIT_ORIGIN: string := "https://www.technologyreview.com"
  const MIT_FALLBACK_DESCRIPTION: string := "Click to read more about this AI story"
  const FEED_SOURCE: string := "VentureBeat"

  datatype Article = Article(
    title: string,
    description: string,
    url: string,
    source: string,
    publishedAt: Option<int>,
    image: Option<string>)

  // ---------------------------------------------------------------- stripHtml

  /** No `<` is followed, anywhere later, by a `>`: nothing tag-shaped is left. */
  predicate NoTagLeft(s: string) {
    forall i, j :: 0 <= i < j < |s| && s[i] == '<' ==> s[j] != '>'
  }

  /** No two adjacent white-space characters. */
  predicate NoSpaceRun(s: string) {
    forall i :: 0 <= i < |s| - 1 ==> !(IsSpace(s[i]) && IsSpace(s[i + 1]))
  }

  /** Every white-space character is the plain space `' '`. */
  predicate PlainSpaces(s: string) {
    forall i :: 0 <= i < |s| && IsSpace(s[i]) ==> s[i] == ' '
  }

  /** The characters of `s` that are not white space, in order. */
  function NonSpaceOf(s: string): string {
    if s == [] then [] else (if IsSpace(s[0]) then [] else [s[0]]) + NonSpaceOf(s[1..])
  }

  /** Index of the first `c` in `s`. */
  function FirstIndexOf(s: string, c: char): (k: nat)
    requires c in s
    ensures k < |s| && s[k] == c && c !in s[..k]
  {
    if s[0] == c then 0 else 1 + FirstIndexOf(s[1..], c)
  }

  /**
   * `replace(/<[^>]*>/g, '')`: scanning left to right, a `<` that has a `>`
   * somewhere after it is removed together with everything up to the first such
   * `>`; a `<` with no `>` after it stays.
   */
  function RemoveTags(s: string): (r: string)
    ensures forall c :: c in r ==> c in s
    ensures NoTagLeft(r)
    decreases |s|
  {
    if s == [] then []
    else if s[0] == '<' && '>' in s[1..] then
      RemoveTags(s[FirstIndexOf(s[1..], '>') + 2..])
    else
      var rest := RemoveTags(s[1..]);
      assert s[0] == '<' ==> '>' !in rest;
      [s[0]] + rest
  }

  /** `replace(/\s+/g, ' ')`: every maximal run of white space becomes one space. */
  function CollapseSpaces(s: string): (r: string)
    ensures (r == []) == (s == [])
    ensures r != [] ==> (IsSpace(r[0]) <==> IsSpace(s[0]))
    ensures NoSpaceRun(r) && PlainSpaces(r)
    decreases |s|
  {
    if s == [] then []
    else if IsSpace(s[0]) then
      var rest := TrimStart(s);
      assert |rest| < |s|;
      [' '] + CollapseSpaces(rest)
    else
      [s[0]] + CollapseSpaces(s[1..])
  }

  /** What is left after the first character of a run, or after the whole leading run of white space. */
  function CollapseRest(s: string): (rest: string)
    requires s != []
    ensures |rest| < |s| && rest == s[|s| - |rest|..]
  {
    if IsSpace(s[0]) then TrimStart(s) else s[1..]
  }

  /** Collapsing writes only characters of its input and plain spaces. */
  lemma {:induction false} CollapseAddsOnlySpaces(s: string)
    ensures forall c :: c in CollapseSpaces(s) ==> c in s || c == ' '
    decreases |s|
  {
    if s != [] {
      var rest := CollapseRest(s);
      CollapseAddsOnlySpaces(rest);
      var tail := CollapseSpaces(rest);
      var head := if IsSpace(s[0]) then ' ' else s[0];
      assert CollapseSpaces(s) == [head] + tail;
      forall c | c in CollapseSpaces(s) ensures c in s || c == ' ' {
        if c == head {
          assert head == ' ' || head == s[0];
        } else if c != ' ' {
          assert c in tail;
          var k :| 0 <= k < |rest| && rest[k] == c;
          assert s[|s| - |rest| + k] == c;
        }
      }
    }
  }

  /** Collapsing only removes white space and writes plain spaces, so it creates no tag. */
  lemma {:induction false} CollapseKeepsNoTag(s: string)
    ensures NoTagLeft(s) ==> NoTagLeft(CollapseSpaces(s))
    decreases |s|
  {
    if s != [] && NoTagLeft(s) {
      var rest := CollapseRest(s);
      var tail := CollapseSpaces(rest);
      var head := if IsSpace(s[0]) then ' ' else s[0];
      assert NoTagLeft(tail) by {
        SuffixKeepsNoTag(s, |s| - |rest|);
        CollapseKeepsNoTag(rest);
      }
      assert head == '<' ==> '>' !in tail by {
        if head == '<' {
          forall j | 0 <= j < |rest| ensures rest[j] != '>' {
            assert rest[j] == s[|s| - |rest| + j];
          }
          CollapseAddsOnlySpaces(rest);
        }
      }
      ConsNoTag(head, tail);
      assert CollapseSpaces(s) == [head] + tail;
    }
  }

  lemma SuffixKeepsNoTag(s: string, k: nat)
    requires k <= |s| && NoTagLeft(s)
    ensures NoTagLeft(s[k..])
  {
    var t := s[k..];
    forall i, j | 0 <= i < j < |t| && t[i] == '<' ensures t[j] != '>' {
      assert t[i] == s[k + i] && t[j] == s[k + j];
    }
  }

  lemma ConsNoTag(x: char, t: string)
    requires NoTagLeft(t) && (x == '<' ==> '>' !in t)
    ensures NoTagLeft([x] + t)
  {
    var r := [x] + t;
    forall i, j | 0 <= i < j < |r| && r[i] == '<' ensures r[j] != '>' {
      assert r[j] == t[j - 1];
      assert i > 0 ==> r[i] == t[i - 1];
    }
  }

  lemma SliceKeepsShape(s: string, lo: int, hi: int)
    requires 0 <= lo <= hi <= |s|
    ensures NoTagLeft(s) ==> NoTagLeft(s[lo..hi])
    ensures NoSpaceRun(s) ==> NoSpaceRun(s[lo..hi])
    ensures PlainSpaces(s) ==> PlainSpaces(s[lo..hi])
  {
    var t := s[lo..hi];
    if PlainSpaces(s) {
      forall i | 0 <= i < |t| && IsSpace(t[i]) ensures t[i] == ' ' {
        assert t[i] == s[lo + i];
      }
    }
    if NoTagLeft(s) {
      forall i, j | 0 <= i < j < |t| && t[i] == '<' ensures t[j] != '>' {
        assert t[i] == s[lo + i] && t[j] == s[lo + j];
      }
    }
    if NoSpaceRun(s) {
      forall i | 0 <= i < |t| - 1 ensures !(IsSpace(t[i]) && IsSpace(t[i + 1])) {
        assert t[i] == s[lo + i] && t[i + 1] == s[lo + i + 1];
      }
    }
  }

  /**
   * `stripHtml(html)`: tags removed, white-space runs collapsed to one space,
   * and the ends trimmed.
   */
  function StripHtml(html: string): (r: string)
    ensures r == [] || (!IsSpace(r[0]) && !IsSpace(r[|r| - 1]))
    ensures NoSpaceRun(r) && PlainSpaces(r)
    ensures NoTagLeft(r)
    ensures forall c :: c in r ==> c in html || c == ' '
  {
    var collapsed := CollapseSpaces(RemoveTags(html));
    CollapseAddsOnlySpaces(RemoveTags(html));
    CollapseKeepsNoTag(RemoveTags(html));
    TrimKeepsShape(collapsed);
    Trim(collapsed)
  }

  /** Trimming takes a slice, so it keeps both shapes and adds no character. */
  lemma TrimKeepsShape(s: string)
    ensures NoTagLeft(s) ==> NoTagLeft(Trim(s))
    ensures NoSpaceRun(s) ==> NoSpaceRun(Trim(s))
    ensures PlainSpaces(s) ==> PlainSpaces(Trim(s))
    ensures forall c :: c in Trim(s) ==> c in s
  {
    var lo, hi :| 0 <= lo <= hi <= |s| && Trim(s) == s[lo..hi];
    SliceKeepsShape(s, lo, hi);
  }

  // What survives stripHtml: text outside tags, and every non-white-space character of it.

  /** Text in which no `<` has a `>` after it comes through tag removal unchanged. */
  lemma {:induction false} RemoveTagsKeepsText(s: string)
    requires NoTagLeft(s)
    ensures RemoveTags(s) == s
  {
    if s != [] {
      assert s[0] == '<' ==> '>' !in s[1..] by {
        forall j | 0 <= j < |s[1..]| && s[0] == '<' ensures s[1..][j] != '>' {
          assert s[1..][j] == s[j + 1];
        }
      }
      SliceKeepsShape(s, 1, |s|);
      RemoveTagsKeepsText(s[1..]);
    }
  }

  /** Text before the first `<` is kept as it is. */
  lemma {:induction false} RemoveTagsKeepsPrefix(a: string, b: string)
    requires '<' !in a
    ensures RemoveTags(a + b) == a + RemoveTags(b)
  {
    if a != [] {
      assert (a + b)[0] == a[0] && (a + b)[1..] == a[1..] + b;
      RemoveTagsKeepsPrefix(a[1..], b);
      assert a == [a[0]] + a[1..];
    } else {
      assert a + b == b;
    }
  }

  /** A complete tag `<…>` is dropped, and the text after it is processed on its own. */
  lemma RemoveTagsDropsTag(inner: string, b: string)
    requires '>' !in inner
    ensures RemoveTags(['<'] + inner + ['>'] + b) == RemoveTags(b)
  {
    var s := ['<'] + inner + ['>'] + b;
    var rest := inner + ['>'] + b;
    assert s[1..] == rest;
    assert rest[|inner|] == '>' && rest[..|inner|] == inner;
    FirstIndexOfUnique(rest, '>', |inner|);
    assert s[|inner| + 2..] == b;
  }

  lemma FirstIndexOfUnique(s: string, c: char, k: nat)
    requires k < |s| && s[k] == c && c !in s[..k]
    ensures FirstIndexOf(s, c) == k
  {
  }

  /** Skipping a run of white space lands on what follows it. */
  lemma {:induction false} TrimStartOfRun(w: string, b: string)
    requires forall i :: 0 <= i < |w| ==> IsSpace(w[i])
    requires b == [] || !IsSpace(b[0])
    ensures TrimStart(w + b) == b
  {
    if w == [] {
      assert w + b == b;
    } else {
      assert (w + b)[1..] == w[1..] + b;
      TrimStartOfRun(w[1..], b);
    }
  }

  /** A word without white space is copied as it is. */
  lemma {:induction false} CollapseKeepsWord(a: string, b: string)
    requires forall i :: 0 <= i < |a| ==> !IsSpace(a[i])
    ensures CollapseSpaces(a + b) == a + CollapseSpaces(b)
  {
    if a != [] {
      var ab := a + b;
      assert ab != [] && !IsSpace(ab[0]) && ab[1..] == a[1..] + b by {
        assert ab[0] == a[0];
      }
      CollapseWordStep(ab);
      assert CollapseSpaces(a[1..] + b) == a[1..] + CollapseSpaces(b) by {
        CollapseKeepsWord(a[1..], b);
      }
      assert [ab[0]] + a[1..] == a;
    } else {
      assert a + b == b;
    }
  }

  /** A maximal run of white space becomes exactly one space. */
  lemma CollapseRun(w: string, b: string)
    requires w != [] && forall i :: 0 <= i < |w| ==> IsSpace(w[i])
    requires b == [] || !IsSpace(b[0])
    ensures CollapseSpaces(w + b) == [' '] + CollapseSpaces(b)
  {
    assert (w + b)[0] == w[0];
    TrimStartOfRun(w, b);
  }

  lemma {:induction false} NonSpaceOfAppend(a: string, b: string)
    ensures NonSpaceOf(a + b) == NonSpaceOf(a) + NonSpaceOf(b)
  {
    if a != [] {
      assert (a + b)[0] == a[0] && (a + b)[1..] == a[1..] + b;
      NonSpaceOfAppend(a[1..], b);
    } else {
      assert a + b == b;
    }
  }

  /** Only white space lies before `TrimStart(s)`, so no other character is lost. */
  lemma {:induction false} NonSpaceOfTrimStart(s: string)
    ensures NonSpaceOf(TrimStart(s)) == NonSpaceOf(s)
  {
    if s != [] && IsSpace(s[0]) {
      NonSpaceOfTrimStart(s[1..]);
    }
  }

  /** Only white space lies after `TrimEnd(s)`. */
  lemma {:induction false} NonSpaceOfTrimEnd(s: string)
    ensures NonSpaceOf(TrimEnd(s)) == NonSpaceOf(s)
  {
    if s != [] && IsSpace(s[|s| - 1]) {
      var init := s[..|s| - 1];
      NonSpaceOfTrimEnd(init);
      assert s == init + [s[|s| - 1]];
      NonSpaceOfAppend(init, [s[|s| - 1]]);
      assert NonSpaceOf([s[|s| - 1]]) == [];
    }
  }

  /** Collapsing white space keeps every other character, in order. */
  lemma {:induction false} CollapseKeepsNonSpace(s: string)
    ensures NonSpaceOf(CollapseSpaces(s)) == NonSpaceOf(s)
    decreases |s|
  {
    if s != [] {
      if IsSpace(s[0]) {
        var rest := TrimStart(s);
        CollapseKeepsNonSpace(rest);
        NonSpaceOfTrimStart(s);
        assert ([' '] + CollapseSpaces(rest))[1..] == CollapseSpaces(rest);
      } else {
        CollapseKeepsNonSpace(s[1..]);
        assert ([s[0]] + CollapseSpaces(s[1..]))[1..] == CollapseSpaces(s[1..]);
      }
    }
  }

  /** Text with single plain spaces between its words is already collapsed. */
  lemma {:induction false} CollapseKeepsSingleSpaces(s: string)
    requires NoSpaceRun(s) && PlainSpaces(s)
    ensures CollapseSpaces(s) == s
  {
    if s != [] {
      var rest := s[1..];
      assert NoSpaceRun(rest) && PlainSpaces(rest) by {
        SliceKeepsShape(s, 1, |s|);
      }
      CollapseKeepsSingleSpaces(rest);
      if IsSpace(s[0]) {
        assert rest == [] || !IsSpace(rest[0]) by {
          if rest != [] {
            assert rest[0] == s[1];
          }
        }
        assert [s[0]] + rest == s;
        CollapseRun([s[0]], rest);
      } else {
        CollapseWordStep(s);
      }
    }
  }

  lemma CollapseWordStep(s: string)
    requires s != [] && !IsSpace(s[0])
    ensures CollapseSpaces(s) == [s[0]] + CollapseSpaces(s[1..])
  {
  }

  /** `stripHtml` loses no character outside the tags except white space. */
  lemma StripHtmlKeepsText(html: string)
    ensures NonSpaceOf(StripHtml(html)) == NonSpaceOf(RemoveTags(html))
  {
    var collapsed := CollapseSpaces(RemoveTags(html));
    CollapseKeepsNonSpace(RemoveTags(html));
    NonSpaceOfTrimStart(collapsed);
    NonSpaceOfTrimEnd(TrimStart(collapsed));
  }

  /** Plain text, trimmed and with single spaces, comes through `stripHtml` unchanged. */
  lemma StripHtmlKeepsPlainText(s: string)
    requires NoTagLeft(s) && NoSpaceRun(s) && PlainSpaces(s)
    requires s == [] || (!IsSpace(s[0]) && !IsSpace(s[|s| - 1]))
    ensures StripHtml(s) == s
  {
    RemoveTagsKeepsText(s);
    CollapseKeepsSingleSpaces(s);
    assert TrimStart(s) == s;
    assert TrimEnd(s) == s;
  }

  /** Stripping twice is stripping once. */
  lemma StripHtmlIdempotent(html: string)
    ensures StripHtml(StripHtml(html)) == StripHtml(html)
  {
    StripHtmlKeepsPlainText(StripHtml(html));
  }

  // ---------------------------------------------------------------- MIT Technology Review (HTML page)

  /** The `datetime` attribute of an item's `time` element. */
  datatype TimeAttr =
    | NoDatetime                    // missing or empty: falsy, so the fetch time is used
    | Datetime(parsed: Option<int>) // non-empty text, and what `new Date` makes of it

  /** What the selectors extract from one `article` element, before `trim`. */
  datatype PageItem = PageItem(titleText: string, href: Option<string>, excerptText: string, datetime: TimeAttr)

  /** A relative link is resolved against the site's origin. */
  function AbsoluteUrl(href: string): (url: string)
    ensures StartsWith(url, "http")
    ensures StartsWith(href, "http") ==> url == href
    ensures !StartsWith(href, "http") ==> url == MIT_ORIGIN + href
  {
    if StartsWith(href, "http") then href
    else
      assert (MIT_ORIGIN + href)[..4] == "http";
      MIT_ORIGIN + href
  }

  /** `if (title && url)`: both non-empty after extraction. */
  predicate PageItemKept(item: PageItem) {
    Trim(item.titleText) != [] && item.href.Some? && item.href.value != []
  }

  function PageArticle(item: PageItem, fetchedAt: int): Article
    requires PageItemKept(item)
  {
    var excerpt := Trim(item.excerptText);
    Article(
      Trim(item.titleText),
      if excerpt != [] then excerpt else MIT_FALLBACK_DESCRIPTION,
      AbsoluteUrl(item.href.value),
      MIT_SOURCE,
      match item.datetime
        case NoDatetime => Some(fetchedAt)
        case Datetime(parsed) => parsed,
      None)
  }

  /** The articles the page fetcher pushes for `items`, in document order. */
  function PageArticles(items: seq<PageItem>, fetchedAt: int): seq<Article> {
    if items == [] then []
    else
      var last := items[|items| - 1];
      PageArticles(items[..|items| - 1], fetchedAt) + (if PageItemKept(last) then [PageArticle(last, fetchedAt)] else [])
  }

  /** Every article the page fetcher produces has a title, an absolute URL and a description. */
  predicate WellFormedPageArticle(a: Article) {
    a.title != [] && a.url != [] && StartsWith(a.url, "http") && a.description != []
    && a.source == MIT_SOURCE && a.image == None
  }

  lemma {:induction false} PageArticlesShape(items: seq<PageItem>, fetchedAt: int)
    ensures |PageArticles(items, fetchedAt)| <= |items|
    ensures forall a :: a in PageArticles(items, fetchedAt) ==> WellFormedPageArticle(a)
  {
    if items != [] {
      PageArticlesShape(items[..|items| - 1], fetchedAt);
    }
  }

  /**
   * The post-extraction part of `fetchFromMITTechnologyReview`: of the first five
   * `article` elements, those with a title and a link become articles.
   */
  method FetchFromMitTechnologyReview(items: seq<PageItem>, fetchedAt: int) returns (articles: seq<Article>)
    ensures articles == PageArticles(items[..Min(|items|, ITEMS_PER_SOURCE)], fetchedAt)
    ensures |articles| <= ITEMS_PER_SOURCE
    ensures forall a :: a in articles ==> WellFormedPageArticle(a)
  {
    ghost var head := items[..Min(|items|, ITEMS_PER_SOURCE)];
    articles := [];
    var i := 0;
    while i < |items|
      invariant 0 <= i <= |items|
      invariant articles == PageArticles(head[..Min(i, |head|)], fetchedAt)
    {
      if i < ITEMS_PER_SOURCE {
        assert head[i] == items[i];
        PageStep(head, i, fetchedAt);
        if PageItemKept(items[i]) {
          articles := articles + [PageArticle(items[i], fetchedAt)];
        }
      }
      i := i + 1;
    }
    assert head[..|head|] == head;
    PageArticlesShape(head, fetchedAt);
  }

  /** One more `article` element read by the page fetcher. */
  lemma PageStep(items: seq<PageItem>, i: nat, fetchedAt: int)
    requires i < |items|
    ensures PageArticles(items[..i + 1], fetchedAt) ==
      PageArticles(items[..i], fetchedAt) + (if PageItemKept(items[i]) then [PageArticle(items[i], fetchedAt)] else [])
  {
    assert items[..i + 1][..i] == items[..i];
  }

  // ---------------------------------------------------------------- VentureBeat (RSS feed)

  /** The text of an RSS `item`'s children; `pubDate` as `new Date` parses it. */
  datatype FeedItem = FeedItem(title: string, link: string, description: string, pubDate: Option<int>)

  predicate FeedItemKept(item: FeedItem) {
    item.title != [] && item.link != []
  }

  function FeedArticle(item: FeedItem): Article
    requires FeedItemKept(item) && item.pubDate.Some?
  {
    Article(item.title, Take(StripHtml(item.description), DESCRIPTION_LIMIT), item.link, FEED_SOURCE, item.pubDate, None)
  }

  /**
   * The articles pushed for `items`, or `None` when a kept item's date is
   * invalid: `toISOString` then throws a RangeError out of the loop.
   */
  function FeedArticles(items: seq<FeedItem>): Option<seq<Article>> {
    if items == [] then Some([])
    else
      var last := items[|items| - 1];
      match FeedArticles(items[..|items| - 1])
      case None => None
      case Some(done) =>
        if !FeedItemKept(last) then Some(done)
        else if last.pubDate.None? then None
        else Some(done + [FeedArticle(last)])
  }

  predicate WellFormedFeedArticle(a: Article) {
    a.title != [] && a.url != [] && |a.description| <= DESCRIPTION_LIMIT
    && a.publishedAt.Some? && a.source == FEED_SOURCE
  }

  lemma {:induction false} FeedArticlesShape(items: seq<FeedItem>)
    ensures FeedArticles(items).Some? ==> |FeedArticles(items).value| <= |items|
    ensures FeedArticles(items).Some? ==>
      forall a :: a in FeedArticles(items).value ==> WellFormedFeedArticle(a)
  {
    if items != [] {
      FeedArticlesShape(items[..|items| - 1]);
    }
  }

  /** One kept item with an unparseable date empties the whole feed. */
  lemma {:induction false} InvalidDateEmptiesFeed(items: seq<FeedItem>, k: nat)
    requires k < |items| && FeedItemKept(items[k]) && items[k].pubDate.None?
    ensures FeedArticles(items) == None
  {
    if k < |items| - 1 {
      InvalidDateEmptiesFeed(items[..|items| - 1], k);
    }
  }

  /** Without such an item the feed yields every kept item. */
  lemma {:induction false} ValidDatesFillFeed(items: seq<FeedItem>)
    requires forall k :: 0 <= k < |items| && FeedItemKept(items[k]) ==> items[k].pubDate.Some?
    ensures FeedArticles(items).Some?
  {
    if items != [] {
      ValidDatesFillFeed(items[..|items| - 1]);
    }
  }

  /**
   * The post-extraction part of `fetchFromVentureBeat`: of the first five
   * `item` elements, those with a title and a link become articles; a throw
   * inside the loop is caught and the source yields `[]`.
   */
  method FetchFromVentureBeat(items: seq<FeedItem>) returns (articles: seq<Article>)
    ensures articles == FeedArticles(items[..Min(|items|, ITEMS_PER_SOURCE)]).GetOr([])
    ensures |articles| <= ITEMS_PER_SOURCE
    ensures forall a :: a in articles ==> WellFormedFeedArticle(a)
  {
    ghost var head := items[..Min(|items|, ITEMS_PER_SOURCE)];
    articles := [];
    var i := 0;
    while i < |items|
      invariant 0 <= i <= |items|
      invariant FeedArticles(head[..Min(i, |head|)]) == Some(articles)
    {
      if i < ITEMS_PER_SOURCE {
        assert head[i] == items[i];
        FeedStep(head, i, articles);
        if FeedItemKept(items[i]) {
          if items[i].pubDate.None? {
            // `new Date(publishedAt).toISOString()` throws; the catch returns [].
            InvalidDateEmptiesFeed(head, i);
            return [];
          }
          articles := articles + [FeedArticle(items[i])];
        }
      }
      i := i + 1;
    }
    assert head[..|head|] == head;
    FeedArticlesShape(head);
  }

  /** One more `item` element read by the feed fetcher. */
  lemma FeedStep(items: seq<FeedItem>, i: nat, done: seq<Article>)
    requires i < |items| && FeedArticles(items[..i]) == Some(done)
    ensures FeedArticles(items[..i + 1]) ==
      if !FeedItemKept(items[i]) then Some(done)
      else if items[i].pubDate.None? then None
      else Some(done + [FeedArticle(items[i])])
  {
    assert items[..i + 1][..i] == items[..i];
  }

  // ---------------------------------------------------------------- fetchLatestNews

  /** A settled source promise: its article list, or the reason it rejected. */
  datatype SourceOutcome = Fulfilled(articles: seq<Article>) | Rejected(reason: string)

  function Contribution(outcome: SourceOutcome): seq<Article> {
    match outcome
    case Fulfilled(articles) => articles
    case Rejected(_) => []
  }

  /** `allNews` after the `forEach`: the fulfilled lists, concatenated in source order. */
  function Merged(results: seq<SourceOutcome>): seq<Article> {
    if results == [] then [] else Merged(results[..|results| - 1]) + Contribution(results[|results| - 1])
  }

  lemma {:induction false} MergedAppend(a: seq<SourceOutcome>, b: seq<SourceOutcome>)
    ensures Merged(a + b) == Merged(a) + Merged(b)
  {
    if b != [] {
      var c := b[..|b| - 1];
      assert (a + b)[..|a + b| - 1] == a + c;
      assert (a + b)[|a + b| - 1] == b[|b| - 1];
      MergedAppend(a, c);
      calc {
        Merged(a + b);
        Merged(a + c) + Contribution(b[|b| - 1]);
        Merged(a) + Merged(c) + Contribution(b[|b| - 1]);
        Merged(a) + Merged(b);
      }
    } else {
      assert a + b == a;
    }
  }

  /** A rejected source adds nothing and does not cut off the sources after it. */
  lemma RejectedContributesNothing(before: seq<SourceOutcome>, reason: string, after: seq<SourceOutcome>)
    ensures Merged(before + [Rejected(reason)] + after) == Merged(before) + Merged(after)
  {
    MergedAppend(before + [Rejected(reason)], after);
  }

  /** Every merged article comes from the list of a source that fulfilled. */
  lemma {:induction false} MergedFromFulfilled(results: seq<SourceOutcome>, a: Article)
    requires a in Merged(results)
    ensures exists k :: 0 <= k < |results| && results[k].Fulfilled? && a in results[k].articles
  {
    var init := results[..|results| - 1];
    if a in Merged(init) {
      MergedFromFulfilled(init, a);
      var k :| 0 <= k < |init| && init[k].Fulfilled? && a in init[k].articles;
      assert results[k] == init[k];
    } else {
      assert results[|results| - 1].Fulfilled?;
    }
  }

  /** `articleDate >= yesterday && articleDate <= new Date()`; an Invalid Date fails both. */
  predicate InWindow(a: Article, now: int) {
    a.publishedAt.Some? && now - DAY_MS <= a.publishedAt.value <= now
  }

  function KeepRecent(s: seq<Article>, now: int): (r: seq<Article>)
    ensures forall i :: 0 <= i < |r| ==> InWindow(r[i], now)
    ensures forall a :: a in r <==> a in s && InWindow(a, now)
    ensures |r| <= |s|
    ensures (forall i :: 0 <= i < |s| ==> InWindow(s[i], now)) ==> r == s
  {
    if s == [] then [] else (if InWindow(s[0], now) then [s[0]] else []) + KeepRecent(s[1..], now)
  }

  /** The filter works element by element: it keeps order and repeats. */
  lemma {:induction false} KeepRecentAppend(a: seq<Article>, b: seq<Article>, now: int)
    ensures KeepRecent(a + b, now) == KeepRecent(a, now) + KeepRecent(b, now)
  {
    if a == [] {
      assert a + b == b;
    } else {
      assert (a + b)[0] == a[0] && (a + b)[1..] == a[1..] + b;
      KeepRecentAppend(a[1..], b, now);
    }
  }

  predicate Dated(s: seq<Article>) {
    forall i :: 0 <= i < |s| ==> s[i].publishedAt.Some?
  }

  /** Non-increasing by publication time. */
  predicate NewestFirst(s: seq<Article>) {
    Dated(s) && forall i, j :: 0 <= i < j < |s| ==> s[j].publishedAt.value <= s[i].publishedAt.value
  }

  /**
   * Inserts `x` before the first element that is not newer than it, so that
   * of two equally old articles the one met first stays first.
   */
  function InsertByDate(x: Article, s: seq<Article>): (r: seq<Article>)
    requires x.publishedAt.Some? && Dated(s)
    ensures |r| == |s| + 1 && Dated(r)
    ensures multiset(r) == multiset(s) + multiset{x}
  {
    if s == [] then [x]
    else if s[0].publishedAt.value <= x.publishedAt.value then [x] + s
    else
      assert s == [s[0]] + s[1..];
      [s[0]] + InsertByDate(x, s[1..])
  }

  /**
   * `.sort((a, b) => new Date(b.publishedAt) - new Date(a.publishedAt))`, a
   * stable sort, newest first. Only applied to articles that passed the
   * window filter, which are all dated.
   */
  function SortNewestFirst(s: seq<Article>): (r: seq<Article>)
    requires Dated(s)
    ensures |r| == |s| && Dated(r)
    ensures multiset(r) == multiset(s)
  {
    if s == [] then []
    else
      assert s == [s[0]] + s[1..];
      InsertByDate(s[0], SortNewestFirst(s[1..]))
  }

  lemma {:induction false} InsertByDateKeepsOrder(x: Article, s: seq<Article>)
    requires x.publishedAt.Some? && NewestFirst(s)
    ensures NewestFirst(InsertByDate(x, s))
  {
    if s == [] {
    } else if s[0].publishedAt.value <= x.publishedAt.value {
      ConsNewestFirst(x, s);
    } else {
      InsertByDateKeepsOrder(x, s[1..]);
      InsertedBelow(x, s[1..], s[0].publishedAt.value);
      ConsNewestFirst(s[0], InsertByDate(x, s[1..]));
    }
  }

  /** Inserting below a bound that `x` and all of `s` respect stays below it. */
  lemma {:induction false} InsertedBelow(x: Article, s: seq<Article>, bound: int)
    requires x.publishedAt.Some? && Dated(s) && x.publishedAt.value <= bound
    requires forall k :: 0 <= k < |s| ==> s[k].publishedAt.value <= bound
    ensures forall k :: 0 <= k < |InsertByDate(x, s)| ==> InsertByDate(x, s)[k].publishedAt.value <= bound
  {
    if s != [] && x.publishedAt.value < s[0].publishedAt.value {
      InsertedBelow(x, s[1..], bound);
    }
  }

  /** A dated head no older than a newest-first tail extends it. */
  lemma ConsNewestFirst(h: Article, t: seq<Article>)
    requires h.publishedAt.Some? && NewestFirst(t)
    requires forall k :: 0 <= k < |t| ==> t[k].publishedAt.value <= h.publishedAt.value
    ensures NewestFirst([h] + t)
  {
    var r := [h] + t;
    forall i, j | 0 <= i < j < |r| ensures r[j].publishedAt.value <= r[i].publishedAt.value {
      assert r[j] == t[j - 1];
      assert i > 0 ==> r[i] == t[i - 1];
    }
  }

  /** The articles of `s` published at time `d`, in their order in `s`. */
  function PublishedAt(s: seq<Article>, d: int): seq<Article> {
    if s == [] then [] else (if s[0].publishedAt == Some(d) then [s[0]] else []) + PublishedAt(s[1..], d)
  }

  lemma PublishedAtCons(h: Article, t: seq<Article>, d: int)
    ensures PublishedAt([h] + t, d) == (if h.publishedAt == Some(d) then [h] else []) + PublishedAt(t, d)
  {
    assert ([h] + t)[1..] == t;
  }

  /** `x` goes in front of every article of its own age already in `s`. */
  lemma {:induction false} InsertByDateBeforeEquals(x: Article, s: seq<Article>, d: int)
    requires x.publishedAt.Some? && Dated(s)
    ensures PublishedAt(InsertByDate(x, s), d) == (if x.publishedAt == Some(d) then [x] else []) + PublishedAt(s, d)
  {
    if s == [] {
      PublishedAtCons(x, s, d);
    } else if s[0].publishedAt.value <= x.publishedAt.value {
      PublishedAtCons(x, s, d);
    } else {
      var r := InsertByDate(x, s[1..]);
      assert InsertByDate(x, s) == [s[0]] + r;
      assert PublishedAt(r, d) == (if x.publishedAt == Some(d) then [x] else []) + PublishedAt(s[1..], d) by {
        InsertByDateBeforeEquals(x, s[1..], d);
      }
      PublishedAtCons(s[0], r, d);
      assert s == [s[0]] + s[1..];
      PublishedAtCons(s[0], s[1..], d);
    }
  }

  /**
   * The sort is stable: the articles published at any one time come out in
   * the order they went in, as with `Array.prototype.sort`.
   */
  lemma {:induction false} SortIsStable(s: seq<Article>, d: int)
    requires Dated(s)
    ensures PublishedAt(SortNewestFirst(s), d) == PublishedAt(s, d)
  {
    if s != [] {
      SortIsStable(s[1..], d);
      InsertByDateBeforeEquals(s[0], SortNewestFirst(s[1..]), d);
    }
  }

  lemma {:induction false} SortIsNewestFirst(s: seq<Article>)
    requires Dated(s)
    ensures NewestFirst(SortNewestFirst(s))
  {
    if s != [] {
      SortIsNewestFirst(s[1..]);
      InsertByDateKeepsOrder(s[0], SortNewestFirst(s[1..]));
    }
  }

  lemma KeepRecentIsDated(s: seq<Article>, now: int)
    ensures Dated(KeepRecent(s, now))
  {
  }

  /** What `fetchLatestNews` resolves to for the settled source results at time `now`. */
  function Aggregate(results: seq<SourceOutcome>, now: int): seq<Article> {
    var recent := KeepRecent(Merged(results), now);
    KeepRecentIsDated(Merged(results), now);
    Take(SortNewestFirst(recent), MAX_ARTICLES)
  }

  /** The aggregated feed: at most 20 in-window articles, newest first, all from fulfilled sources. */
  lemma AggregateShape(results: seq<SourceOutcome>, now: int)
    ensures |Aggregate(results, now)| <= MAX_ARTICLES
    ensures forall i :: 0 <= i < |Aggregate(results, now)| ==> InWindow(Aggregate(results, now)[i], now)
    ensures NewestFirst(Aggregate(results, now))
    ensures forall a :: a in Aggregate(results, now) ==> a in Merged(results)
  {
    var recent := KeepRecent(Merged(results), now);
    KeepRecentIsDated(Merged(results), now);
    var sorted := SortNewestFirst(recent);
    SortIsNewestFirst(recent);
    var r := Aggregate(results, now);
    assert r == sorted[..|r|];
    forall a | a in r ensures a in recent && InWindow(a, now) {
      assert a in multiset(sorted);
    }
    forall i | 0 <= i < |r| ensures InWindow(r[i], now) {
      assert r[i] in r;
    }
  }

  /**
   * Nothing newer is dropped: an in-window article missing from the result is
   * outranked by all 20 that were kept.
   */
  lemma AggregateKeepsNewest(results: seq<SourceOutcome>, now: int, a: Article)
    requires a in Merged(results) && InWindow(a, now)
    requires a !in Aggregate(results, now)
    ensures |Aggregate(results, now)| == MAX_ARTICLES
    ensures forall b :: b in Aggregate(results, now) ==> a.publishedAt.value <= b.publishedAt.value
  {
    var recent := KeepRecent(Merged(results), now);
    KeepRecentIsDated(Merged(results), now);
    var sorted := SortNewestFirst(recent);
    SortIsNewestFirst(recent);
    assert a in multiset(sorted);
    DroppedIsOutranked(sorted, a, MAX_ARTICLES);
  }

  /** In a newest-first list, an element left out of the first `n` is no newer than any of them. */
  lemma DroppedIsOutranked(sorted: seq<Article>, a: Article, n: nat)
    requires NewestFirst(sorted) && a in sorted && a !in Take(sorted, n)
    ensures |Take(sorted, n)| == n
    ensures forall b :: b in Take(sorted, n) ==> a.publishedAt.value <= b.publishedAt.value
  {
    var r := Take(sorted, n);
    var j :| 0 <= j < |sorted| && sorted[j] == a;
    assert forall k :: 0 <= k < |r| ==> r[k] == sorted[k];
    assert |r| <= j < |sorted|;
    forall b | b in r ensures a.publishedAt.value <= b.publishedAt.value {
      var i :| 0 <= i < |r| && r[i] == b;
      assert sorted[i] == b;
    }
  }

  /** With at most 20 in-window articles, all of them are returned. */
  lemma AggregateKeepsAllWhenFew(results: seq<SourceOutcome>, now: int)
    requires |KeepRecent(Merged(results), now)| <= MAX_ARTICLES
    ensures multiset(Aggregate(results, now)) == multiset(KeepRecent(Merged(results), now))
  {
  }

  /**
   * `fetchLatestNews` with the sources' settled results injected: the
   * `forEach` that pushes each fulfilled list into `allNews`, then the
   * filter, sort and slice.
   */
  method FetchLatestNews(results: seq<SourceOutcome>, now: int) returns (news: seq<Article>)
    ensures news == Aggregate(results, now)
    ensures |news| <= MAX_ARTICLES && NewestFirst(news)
    ensures forall a :: a in news ==> InWindow(a, now) && a in Merged(results)
  {
    var allNews: seq<Article> := [];
    var index := 0;
    while index < |results|
      invariant 0 <= index <= |results|
      invariant allNews == Merged(results[..index])
    {
      assert results[..index + 1][..index] == results[..index];
      match results[index] {
        case Fulfilled(articles) =>
          allNews := allNews + articles;
        case Rejected(_) =>
          // only logged
      }
      index := index + 1;
    }
    assert results[..index] == results;
    var filteredNews := KeepRecent(allNews, now);
    KeepRecentIsDated(allNews, now);
    news := Take(SortNewestFirst(filteredNews), MAX_ARTICLES);
    AggregateShape(results, now);
  }
}
