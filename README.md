# AI News Pusher — a Dafny model of its core

AI News Pusher gathers the last day's artificial-intelligence news from a few
sites. Every morning at 08:00 it sends a digest of that news over WhatsApp to
the phone numbers that subscribed on its web page. This project models, and
proves properties of, the parts of it that compute something:

- **News aggregation** (`news_service.dfy`, module `NewsService`):
  - the item-to-article mapping of the MIT Technology Review page scraper and the VentureBeat feed reader;
  - `stripHtml`;
  - `fetchLatestNews`, which merges the settled sources, keeps the last 24 hours, sorts newest first and keeps 20.
- **The WhatsApp digest** (`news_format.dfy`, module `NewsFormat`): `formatForWhatsApp` and `formatTimeAgo`.
- **The dispatcher** (`whatsapp.dfy`, module `WhatsApp`):
  - the `WhatsAppService` class and its mock send path;
  - the batch loop of `sendToSubscribers`, with its tally and its delays;
  - `isValidPhoneNumber`.
- **The scheduler** (`scheduler.dfy`, module `Scheduler`):
  - the `SchedulerService` class, whose `isRunning` / `lastPushTime` guard the daily and the manual push take and release;
  - `getSubscribers`, `getNextRunTime` and `getStatus`.
- **The subscriber roster** (`server.dfy`, module `Server`): the server's `subscribers` array and the subscribe, unsubscribe and count handlers.
- **The browser helpers** (`client.dfy`, module `Client`):
  - the phone check and the phone field's clean-up;
  - "time ago" labels and source icons;
  - the next push time shown on the page;
  - the ten-card news panel.
- **Shared helpers**:
  - `text.dfy` holds JavaScript's white space, `trim`, `\d` and integer rendering;
  - `phone.dfy` holds the two phone regular expressions;
  - `wrappers.dfy` holds `Option` and `Result`.

Time is a whole number of milliseconds since the epoch. "Yesterday" is
`now - 86_400_000` and the push slot is 08:00 of a UTC day. A date that does
not parse (JavaScript's Invalid Date) is `None`: every comparison with it is
false. Anything the code gets from outside is a parameter:

- the settled outcome of each source;
- the outcome of each Twilio send;
- the clock;
- the locale-formatted date line;
- `APP_URL`;
- which step of a push throws.

Where code mutates state, the model mutates state too. `WhatsAppService`,
`SchedulerService`, `Roster` and `PhoneField` are classes. Each method is
proved against a function of the inputs and the old state, and the
properties are proved about those functions.

## Model

| member | source | states |
|---|---|---|
| `NewsService.StripHtml` | services/newsService.js:218-220 | the result has no white space at either end, no two white-space characters in a row, no white space but plain spaces, no `<` later followed by `>`, and only characters of the input or spaces |
| `NewsService.RemoveTags` | services/newsService.js:219 | after removing `<…>` runs no `<` is followed by a `>`, and every character kept comes from the input |
| `NewsService.RemoveTagsKeepsText` | services/newsService.js:219 | text without a `<…>` run is returned unchanged |
| `NewsService.RemoveTagsKeepsPrefix` | services/newsService.js:219 | text before the first `<` is kept verbatim, in front of what the rest becomes |
| `NewsService.RemoveTagsDropsTag` | services/newsService.js:219 | a leading `<…>` run, up to its first `>`, is removed entirely |
| `NewsService.CollapseSpaces` | services/newsService.js:219 | white-space runs become one plain space: no two white-space characters in a row, empty iff the input is, and it starts with white space iff the input does |
| `NewsService.CollapseKeepsWord` | services/newsService.js:219 | a leading run without white space is copied verbatim |
| `NewsService.CollapseRun` | services/newsService.js:219 | a whole white-space run, of any length, becomes exactly one space |
| `NewsService.CollapseKeepsNonSpace` | services/newsService.js:219 | the non-white-space characters are exactly those of the input, in the same order and number |
| `NewsService.CollapseAddsOnlySpaces` | services/newsService.js:219 | every character written is one of the input's or a plain space |
| `NewsService.CollapseKeepsNoTag` | services/newsService.js:219 | collapsing tag-free text creates no `<…>` run |
| `NewsService.CollapseKeepsSingleSpaces` | services/newsService.js:219 | text whose only white space is single plain spaces is unchanged |
| `NewsService.StripHtmlKeepsText` | services/newsService.js:218-220 | the non-white-space characters of the result are exactly those left after removing tags, in order |
| `NewsService.StripHtmlKeepsPlainText` | services/newsService.js:218-220 | trimmed, tag-free text with single plain spaces is returned unchanged |
| `NewsService.StripHtmlIdempotent` | services/newsService.js:218-220 | stripping twice is stripping once |
| `NewsService.SliceKeepsShape` | services/newsService.js:164 | cutting a stripped description to 200 characters keeps it free of tags and of white-space runs |
| `NewsService.AbsoluteUrl` | services/newsService.js:122 | an `http…` link is kept as is; any other link gets `https://www.technologyreview.com` in front |
| `NewsService.PageArticlesShape` | services/newsService.js:111-129 | the page mapping yields at most one article per item, each with a non-empty title, an absolute URL and the fixed source name |
| `NewsService.FetchFromMitTechnologyReview` | services/newsService.js:109-131 | only the first 5 items are read, items without a title or link are skipped, and every article is well formed |
| `NewsService.FeedArticlesShape` | services/newsService.js:154-172 | feed articles have a non-empty title and URL and a description of at most 200 characters |
| `NewsService.InvalidDateEmptiesFeed` | services/newsService.js:167 | one kept item with an unparseable `pubDate` makes the whole mapping throw |
| `NewsService.ValidDatesFillFeed` | services/newsService.js:154-172 | when every kept item has a valid date, the mapping succeeds |
| `NewsService.FetchFromVentureBeat` | services/newsService.js:152-178 | reads at most 5 items and returns their articles, or `[]` when a date throws; each article is well formed |
| `NewsService.MergedAppend` | services/newsService.js:47-53 | merging is order-preserving concatenation over the settled sources |
| `NewsService.RejectedContributesNothing` | services/newsService.js:47-53 | a rejected source adds nothing and does not stop the sources after it |
| `NewsService.MergedFromFulfilled` | services/newsService.js:47-53 | every merged article comes from some fulfilled source |
| `NewsService.KeepRecent` | services/newsService.js:56-61 | keeps exactly the articles dated within `[now - 1 day, now]`, so undated ones are dropped; a list entirely in the window is returned unchanged |
| `NewsService.KeepRecentAppend` | services/newsService.js:56-61 | filtering commutes with concatenation, so kept articles keep their order and their repeats |
| `NewsService.InsertByDate` | services/newsService.js:62 | inserting a dated article keeps every article (multiset) and adds one |
| `NewsService.SortNewestFirst` | services/newsService.js:62 | the sorted list is a permutation of its input |
| `NewsService.InsertByDateBeforeEquals` | services/newsService.js:62 | an inserted article goes in front of the articles with its own date, which keep their order |
| `NewsService.SortIsStable` | services/newsService.js:62 | articles with equal dates keep their input order, as `Array.prototype.sort` guarantees |
| `NewsService.InsertByDateKeepsOrder` | services/newsService.js:62 | insertion keeps a newest-first list newest first |
| `NewsService.SortIsNewestFirst` | services/newsService.js:62 | the sort's output is ordered by non-increasing `publishedAt` |
| `NewsService.KeepRecentIsDated` | services/newsService.js:57-61 | every article that passes the window has a valid date |
| `NewsService.AggregateShape` | services/newsService.js:56-63 | the result has at most 20 articles, all in the window, newest first, all from fulfilled sources |
| `NewsService.AggregateKeepsNewest` | services/newsService.js:62-63 | a recent article is left out only when 20 articles at least as new were kept |
| `NewsService.AggregateKeepsAllWhenFew` | services/newsService.js:56-63 | with at most 20 recent articles, all of them are returned |
| `NewsService.FetchLatestNews` | services/newsService.js:33-66 | the push loop computes the aggregate: at most 20, newest first, in the window, from fulfilled sources |
| `NewsFormat.BucketOf` | services/newsService.js:259-269 | ages under an hour are in whole minutes, under a day in whole hours (1 to 23), else in whole days (at least 1) |
| `NewsFormat.FormatTimeAgo` | services/newsService.js:256-270 | an unparseable date renders as `NaN day ago` |
| `NewsFormat.FormatTimeAgoLabels` | services/newsService.js:259-269 | for a valid date: under an hour `N min ago`, under a day `N hours ago` (never singular), else `N day ago` for one day and `N days ago` for more, with `N` the floored count |
| `NewsFormat.ShownTitle` | services/newsService.js:237 | titles up to 80 characters are unchanged; longer ones become their first 77 characters plus `...`, exactly 80 |
| `NewsFormat.BlocksNumbered` | services/newsService.js:235-244 | the block at position `i` starts with the number `i + 1` and the `i`-th article's title line, so blocks are in article order, numbered from 1 |
| `NewsFormat.BlockShowsArticle` | services/newsService.js:237-243 | an article's block contains its shown title and its URL |
| `NewsFormat.MessageLinksEveryArticle` | services/newsService.js:225-250 | the digest contains every article's URL and shown title |
| `NewsFormat.NewsMessageIsNotNoNewsText` | services/newsService.js:226-233 | a digest of at least one article is longer than, so different from, the no-news text |
| `NewsFormat.FormatForWhatsApp` | services/newsService.js:225-251 | the `+=` loop builds the digest; an empty list gives the fixed no-news text |
| `WhatsApp.Settle` | services/whatsappService.js:44-48 | unconfigured, a send always resolves with a `mock_` id; configured, it settles as Twilio does |
| `WhatsApp.FailedExactlyWhenLiveRejects` | services/whatsappService.js:88-107 | the `i`-th detail is for the `i`-th subscriber, and it is a failure exactly when the service is configured and Twilio rejected that send, carrying Twilio's message |
| `WhatsApp.Details` | services/whatsappService.js:92-109 | one detail per subscriber, in order; `success` with the id iff the send resolved, `failed` with the error message otherwise |
| `WhatsApp.TallyAddsUp` | services/whatsappService.js:92-109 | successes plus failures equal the number of details |
| `WhatsApp.NoFailureWithoutRejection` | services/whatsappService.js:101-107 | failures only come from rejected sends |
| `WhatsApp.SummaryTotals` | services/whatsappService.js:72-109 | `success + failed == total ==` the roster length |
| `WhatsApp.MockNeverFails` | services/whatsappService.js:45-48 | unconfigured, every subscriber is counted a success |
| `WhatsApp.BatchesFrom` | services/whatsappService.js:85-86 | from any start, the batches are consecutive slices of 10, only the last possibly shorter |
| `WhatsApp.ScheduleBatches` | services/whatsappService.js:85-86 | there are `ceil(L/10)` batches, batch `k` covering `[10k, min(10k+10, L))` |
| `WhatsApp.DelaysFrom` | services/whatsappService.js:112-114 | from any start, one delay fewer than batches, each delay between two batches |
| `WhatsApp.ScheduleDelays` | services/whatsappService.js:112-114 | `max(0, ceil(L/10) - 1)` delays, none after the last batch; nothing at all for an empty roster |
| `WhatsApp.IsValidPhoneNumber` | services/whatsappService.js:126-130 | accepts exactly `+`, a digit 1-9, then 1 to 14 more digits |
| `WhatsApp.WhatsAppService.constructor` | services/whatsappService.js:8-14 | configured iff the SID, token and sender are all non-empty and the client was created |
| `WhatsApp.WhatsAppService.Initialize` | services/whatsappService.js:19-36 | sets `isConfigured` by the same rule and leaves the sender alone |
| `WhatsApp.WhatsAppService.SendMessage` | services/whatsappService.js:44-63 | the send settles as `Settle` says; the mock path never rejects |
| `WhatsApp.WhatsAppService.SettleBatch` | services/whatsappService.js:88-90 | one outcome per batch member, each the settled send to that member |
| `WhatsApp.WhatsAppService.TallyBatch` | services/whatsappService.js:92-109 | appends the batch's details and adds its successes and failures, keeping `total` |
| `WhatsApp.WhatsAppService.SendToSubscribers` | services/whatsappService.js:71-119 | the loop returns the summary of the roster's outcomes, with `success + failed == total == L`, and emits exactly the batch/delay schedule |
| `WhatsApp.WhatsAppService.GetStatus` | services/whatsappService.js:135-140 | reports `isConfigured`, and when the sender is set shows its first 10 characters (all of it when shorter) followed by `...` |
| `Phone.MatchesE164` | server.js:53 | accepts exactly an optional (or, strictly, a required) `+`, a digit 1-9, then 1 to 14 digits |
| `Scheduler.DailyRunPushes` | services/scheduler.js:34-80 | a daily run sends iff no step throws and there are news and subscribers; the message is the digest, never the no-news text, and the totals add up; a thrown error becomes a failure |
| `Scheduler.ManualRunReplies` | services/scheduler.js:86-118 | a manual run sends iff formatting and dispatch do not throw and there are subscribers; what it sends is the digest of the news it was given, which is the fixed no-news text exactly when that list is empty (the model's `Sent` reply carries that message beside the summary; `manualPush` itself resolves with the summary alone); with no subscribers it answers `No subscribers found` with success; the totals add up |
| `Scheduler.ScheduledPushNeverSends` | services/scheduler.js:124-129 | as written the scheduler's roster is always empty, so a daily run never sends |
| `Scheduler.GetNextRunTime` | services/scheduler.js:147-157 | the next 08:00 strictly after now, at most a day later, with no 08:00 in between |
| `Scheduler.SchedulerService.constructor` | services/scheduler.js:10-14 | starts not running, with no last push |
| `Scheduler.SchedulerService.ExecuteDailyPush` | services/scheduler.js:34-80 | while running it does nothing; otherwise it runs `DailyRun`, releases the guard on every path, and sets `lastPushTime` only after a send |
| `Scheduler.SchedulerService.ManualPush` | services/scheduler.js:86-118 | while running it throws `Push already in progress` and changes nothing; otherwise it runs `ManualRun`, releases the guard on every path, and sets `lastPushTime` only after a send |
| `Scheduler.SchedulerService.GetStatus` | services/scheduler.js:134-142 | reports the cron text, the running flag, the last push and the next 08:00 |
| `Server.AcceptsPhone` | server.js:53-54 | accepts exactly an optional `+`, a digit 1-9, then 1 to 14 digits |
| `Server.IndexOf` | server.js:84 | -1 iff the phone is absent, else the position of its first occurrence |
| `Server.RemoveAt` | server.js:86 | `splice(k, 1)`: position `k` is removed and the rest keep their order |
| `Server.SubscribeChangesOnlyOnAdmission` | server.js:44-72 | every 400 reply leaves the roster unchanged; any other reply means the phone was appended at the end; success iff admitted and the welcome send resolved |
| `Server.SubscribeKeepsNoDuplicates` | server.js:59-64 | subscribing never creates a duplicate |
| `Server.UnsubscribeRemovesOnlyThePhone` | server.js:84-90 | a present phone's one occurrence is removed and nothing else; an absent phone gives 404 and no change |
| `Server.SubscribeThenUnsubscribe` | server.js:64-87 | unsubscribing right after a successful subscribe restores the roster |
| `Server.ReplyTracksCount` | server.js:44-99 | a subscribe that is not answered 400 adds exactly one to the count; an unsubscribe answered 200 removes exactly one; other replies leave it |
| `Server.DistinctCount` | server.js:97-99 | on a roster without duplicates the length is the number of distinct phones |
| `Server.Roster.constructor` | server.js:24 | the roster starts empty |
| `Server.Roster.Subscribe` | server.js:44-73 | the handler changes the roster and replies as the pure model says, keeps it free of duplicates, keeps the phone when the welcome send throws, and raises the count by one exactly when the reply is not 400 |
| `Server.Roster.Unsubscribe` | server.js:76-94 | the handler removes the first occurrence or answers 404, keeping the roster free of duplicates, and lowers the count by one exactly when the reply is 200 |
| `Server.Roster.Count` | server.js:97-99 | on a valid roster, the count is the number of distinct subscribed phones |
| `Client.ValidatePhone` | public/app.js:283-286 | accepts exactly `+`, a digit 1-9, then 1 to 14 more digits |
| `Client.ValidatorsAgree` | public/app.js:283-286 | the browser and the dispatcher accept the same numbers, and the server accepts every one of them |
| `Client.DigitsOf` | public/app.js:273 | only digits remain, and a digits-only value is unchanged |
| `Client.DigitsOfAppend` | public/app.js:273 | removing non-digits commutes with concatenation, so digits keep their order |
| `Client.DigitsOfCounts` | public/app.js:273 | each digit is kept as often as it occurs, and nothing else is kept |
| `Client.FormattedPhone` | public/app.js:271-280 | only digits, exactly the input's first `min(15, number of digits)` digits |
| `Client.FormattedPhoneIdempotent` | public/app.js:271-280 | formatting twice is formatting once |
| `Client.SubmittedPhoneValid` | public/app.js:187-192 | a formatted field passes the form's check iff it has 2 to 15 digits and does not start with 0 |
| `Client.PhoneField.FormatPhoneInput` | public/app.js:271-280 | rewrites the field in place to its formatted value |
| `Client.AgeOf` | public/app.js:325-340 | "Just now" iff under 60 seconds; otherwise the count of minutes, hours or days, whichever unit's range holds the age |
| `Client.AgeText` | public/app.js:333-339 | `Just now` for that age; otherwise the count and unit come first, the unit carries `s` iff the count exceeds 1, and the label is never `Just now` |
| `Client.GetTimeAgo` | public/app.js:325-341 | an unparseable date renders as `NaN day ago`; the label of a valid date is stated exactly by `Client.GetTimeAgoLabels` |
| `Client.TimeAgoBuckets` | public/app.js:325-341 | "Just now" iff the age is under 60 000 ms; otherwise the label starts with its count and unit, plural iff the count exceeds 1 |
| `Client.GetTimeAgoLabels` | public/app.js:325-341 | the exact label for a valid date of age `d` ms: `Just now` under 60 000; `N min ago` / `N mins ago` under an hour, `N hour ago` / `N hours ago` under a day, `N day ago` / `N days ago` beyond, with `N` the floored count and the `s` from two units on |
| `Client.GetSourceIcon` | public/app.js:344-352 | the mapped icon for the four known sources, `📄` for any other |
| `Client.FallbackOnlyForUnknown` | public/app.js:344-352 | the fallback icon appears exactly for unknown sources |
| `Client.NextPushTime` | public/app.js:102-110 | the page shows an 08:00 strictly after now and at most a day later |
| `Client.NextPushMatchesScheduler` | public/app.js:102-110 | the page's next push is the scheduler's next run |
| `Client.LoadLatestNews` | public/app.js:121-135 | the error state iff the request throws; the empty state iff it answered without success or with no news; otherwise the first `min(10, L)` articles, at least one |

## Left out

- HTTP, HTML and XML parsing: axios, cheerio and the Express routing and JSON encoding are not modelled. A fetcher is modelled from the items it has extracted: title, link, excerpt and date.
- The TechCrunch and NewsAPI fetchers (services/newsService.js:77-96 and 184-213) map their responses one-to-one, with no cap or filter. Only their settled outcome enters the model, as a `SourceOutcome`.
- The Twilio client, node-cron, `initialize`/`stop`/`restart` of the scheduler, and the `/api/health`, `/api/news` and `/api/push-now` routes are not modelled.
- The DOM: rendering, `showMessage`, `setLoadingState` and `escapeHtml`.
- Locale and time zones: `toLocaleDateString` is an input string, and `setHours(8, …)` is 08:00 of a UTC day. Daylight-saving changes are not modelled.
- The `setTimeout` between batches is a `Delay` event, not a wait. `Promise.allSettled` is a sequential, order-preserving map over injected outcomes.
- Logging and the `Date.now()` durations.
- `NewsService.FetchLatestNews` reads one clock value, `now`. The source reads the clock twice: `yesterday` at services/newsService.js:35-36, before the awaited fetches, and `new Date()` for each article at line 60, after them. The model takes both readings to be the same instant, so an article dated in the time the fetches took is not modelled.
- `NewsFormat.WhatsAppMessage` and `NewsFormat.FormatForWhatsApp` use the same single `now` for every article's "time ago" label, and the date line is an input string. The source reads the clock anew for the date line (services/newsService.js:230) and for each label (services/newsService.js:258), so labels computed across a minute or hour boundary during one digest are not modelled.
- `Scheduler.SchedulerService.ExecuteDailyPush` and `Scheduler.SchedulerService.ManualPush` are each one atomic call that takes and releases the `isRunning` guard. The source yields at its awaits (services/scheduler.js:47, 68 and 106), so a second trigger can arrive while a run is in flight; that is what the skip branch (lines 35-38) and the `Push already in progress` branch (lines 87-89) are for. The model does not interleave runs: the in-progress state reaches these methods only as the value of the `isRunning` field when they are called, and what they do then is stated and proved.
- String lengths are counted in code points, not UTF-16 units, so an astral character counts as 1 in the 77/80/200-character cuts.
- The digest's emoji are the characters the source file holds, reproduced exactly.
- Lines of public/app.js and services/scheduler.js hold template literals whose backticks are written with a backslash. The model reads them as the template literals they evidently are.
- The digest has no deduplication and no 10-article cap, because `formatForWhatsApp` has neither. The only 10-article cap is in the browser panel.
- `NewsFormat.FormatTimeAgo` and `Client.GetTimeAgo` divide whole milliseconds with integer division, which rounds down like `Math.floor` of the source's float quotient; the rounding of that float quotient itself is not modelled.
- `Server.Roster.Subscribe` and `Server.Roster.Unsubscribe` take `phone` as an optional string. A request body whose `phone` is a number or an object is not modelled.
- `Client.GetSourceIcon` treats the icon table as a plain map. Names inherited from `Object.prototype`, such as `constructor`, are not modelled.

## Findings

| source | as written | input that shows it | evidently intended | confidence | as-written member | corrected member |
|---|---|---|---|---|---|---|
| services/scheduler.js:124-129 | `getSubscribers` returns `app.locals.subscribers \|\| []`, but server.js keeps its roster in a module-local array (server.js:24) and never stores it in `app.locals`; so the scheduled push always sees an empty roster and never sends, and `/api/push-now` answers "News pushed to N subscribers" while sending nothing | any roster, for example one subscriber `+15551234567`, followed by the 08:00 run | the push reads the server's `subscribers` array | not executed | `Scheduler.ScheduledPushNeverSends` | `Scheduler.DailyRunPushes` |
