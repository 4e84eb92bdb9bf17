/**
 * The browser helpers of `public/app.js` that compute values: the phone
 * check and the phone field's clean-up, the "time ago" label of a news card,
 * the icon of a source, the next push time shown in the header and the
 * number of news cards drawn. The DOM around them is not modelled.
 */
module Client {
  import opened Wrappers
  import opened Text
  import Phone
  import NewsService
  import WhatsApp
  import Scheduler
  import Server

  // ---------------------------------------------------------------- validatePhone

  /** `/^\+[1-9]\d{1,14}$/.test(phone)`. */
  function ValidatePhone(phone: string): (ok: bool)
    ensures ok <==> 3 <= |phone| <= 16 && phone[0] == '+' && phone[1] != '0' && AllDigits(phone[1..])
  {
    |phone| > 0 && phone[0] == '+' && Phone.NationalPart(phone[1..])
  }

  /**
   * The browser and the dispatcher apply the same E.164 rule, and everything
   * the browser lets through is accepted by the subscribe endpoint, whose `+`
   * is optional; the endpoint also takes the bare digits the browser refuses.
   */
  lemma ValidatorsAgree(phone: string)
    ensures ValidatePhone(phone) == WhatsApp.IsValidPhoneNumber(phone)
    ensures ValidatePhone(phone) ==> Server.AcceptsPhone(phone)
    ensures Server.AcceptsPhone(phone) && !ValidatePhone(phone) ==> ValidatePhone("+" + phone)
  {
    if Server.AcceptsPhone(phone) && !ValidatePhone(phone) {
      assert ("+" + phone)[1..] == phone;
    }
  }

  // ---------------------------------------------------------------- formatPhoneInput

  /** `value.replace(/\D/g, '')`: the digits of `s`, in order. */
  function DigitsOf(s: string): (r: string)
    ensures AllDigits(r) && |r| <= |s|
    ensures AllDigits(s) ==> r == s
  {
    if s == [] then []
    else (if IsDigit(s[0]) then [s[0]] else []) + DigitsOf(s[1..])
  }

  /** Removing non-digits commutes with concatenation, so the digits keep their order. */
  lemma {:induction false} DigitsOfAppend(a: string, b: string)
    ensures DigitsOf(a + b) == DigitsOf(a) + DigitsOf(b)
  {
    if a == [] {
      assert a + b == b;
    } else {
      assert (a + b)[1..] == a[1..] + b;
      DigitsOfAppend(a[1..], b);
    }
  }

  /** No digit is lost and nothing else is kept: each digit occurs as often as in `s`. */
  lemma {:induction false} DigitsOfCounts(s: string, c: char)
    ensures IsDigit(c) ==> multiset(DigitsOf(s))[c] == multiset(s)[c]
    ensures !IsDigit(c) ==> multiset(DigitsOf(s))[c] == 0
  {
    if s != [] {
      DigitsOfCounts(s[1..], c);
      assert s == [s[0]] + s[1..];
    }
  }

  /** The phone field's value after an `input` event: its digits, cut to 15. */
  function FormattedPhone(value: string): (r: string)
    ensures AllDigits(r) && |r| == Min(15, |DigitsOf(value)|)
    ensures r == Take(DigitsOf(value), |r|)
    ensures AllDigits(value) && |value| <= 15 ==> r == value
  {
    Take(DigitsOf(value), 15)
  }

  /** Formatting an already formatted field changes nothing. */
  lemma FormattedPhoneIdempotent(value: string)
    ensures FormattedPhone(FormattedPhone(value)) == FormattedPhone(value)
  {
  }

  /**
   * The forms submit `'+' + value.trim()`. For a formatted field that passes
   * the check exactly when it holds 2 to 15 digits and does not start with 0.
   */
  lemma SubmittedPhoneValid(value: string)
    ensures var field := FormattedPhone(value);
      ValidatePhone("+" + Trim(field)) <==> 2 <= |field| && field[0] != '0'
  {
    var field := FormattedPhone(value);
    TrimOfDigits(field);
    assert ("+" + field)[1..] == field;
  }

  /** The `<input>` element whose value `formatPhoneInput` rewrites in place. */
  class PhoneField {
    var value: string

    constructor(initial: string)
      ensures value == initial
    {
      value := initial;
    }

    /** `formatPhoneInput(e)` on this field: drop non-digits, then cut to 15 characters. */
    method FormatPhoneInput()
      modifies this
      ensures value == FormattedPhone(old(value))
      ensures AllDigits(value) && |value| <= 15
    {
      var digits := DigitsOf(value);
      if |digits| > 15 {
        digits := digits[..15];
      }
      value := digits;
    }
  }

  // ---------------------------------------------------------------- getTimeAgo

  /** How a card labels its age: "Just now", or a count of one unit. */
  datatype Age = JustNow | Ago(count: int, unit: string)

  /**
   * The label for an age of `seconds` whole seconds (floored, so negative for
   * a future date): "Just now" below a minute, else whole minutes, hours or
   * days, the largest unit that fits under the next threshold.
   */
  function AgeOf(seconds: int): (age: Age)
    ensures age.JustNow? <==> seconds < 60
    ensures age.Ago? ==> age.count >= 1
    ensures age.Ago? && age.unit == "min" ==>
      (60 <= seconds < 3600 && age.count * 60 <= seconds < (age.count + 1) * 60)
    ensures age.Ago? && age.unit == "hour" ==>
      (3600 <= seconds < 86400 && age.count * 3600 <= seconds < (age.count + 1) * 3600)
    ensures age.Ago? && age.unit == "day" ==>
      (86400 <= seconds && age.count * 86400 <= seconds < (age.count + 1) * 86400)
    ensures age.Ago? ==> age.unit in {"min", "hour", "day"}
  {
    if seconds < 60 then JustNow
    else if seconds < 3600 then Ago(seconds / 60, "min")
    else if seconds < 86400 then Ago(seconds / 3600, "hour")
    else Ago(seconds / 86400, "day")
  }

  /** A count, its unit with `s` when the count exceeds one, then ` ago`. */
  function AgeText(age: Age): (text: string)
    requires age.Ago? ==> age.unit in {"min", "hour", "day"}
    ensures age.JustNow? ==> text == "Just now"
    ensures age.Ago? ==> StartsWith(text, IntToString(age.count) + " " + age.unit)
    ensures age.Ago? ==> (EndsWithPlural(text) <==> age.count > 1)
    ensures age.Ago? ==> text != "Just now"
  {
    match age
    case JustNow => "Just now"
    case Ago(n, unit) =>
      var head := IntToString(n) + " " + unit;
      assert head[|head| - 1] == unit[|unit| - 1];
      var text := head + (if n > 1 then "s" else "") + " ago";
      assert head + (if n > 1 then "s" else "") + " ago" == head + ((if n > 1 then "s" else "") + " ago");
      assert text[..|head|] == head;
      assert text[|text| - 1] == 'o' && "Just now"[7] == 'w';
      text
  }

  /**
   * `getTimeAgo(new Date(publishedAt))` at `now`. An unparseable date is NaN:
   * every comparison fails, so the day branch renders `NaN` without an `s`.
   */
  function GetTimeAgo(publishedAt: Option<int>, now: int): (text: string)
    ensures publishedAt.None? ==> text == "NaN day ago"
  {
    match publishedAt
    case None => "NaN day ago"
    case Some(t) => AgeText(AgeOf((now - t) / 1000))
  }

  predicate EndsWithPlural(text: string) {
    |text| >= 5 && text[|text| - 5..] == "s ago"
  }

  /** A card never reads as older than it is: minutes are shown only under an hour, and so on. */
  lemma TimeAgoBuckets(publishedAt: int, now: int)
    ensures var seconds := (now - publishedAt) / 1000;
      && (GetTimeAgo(Some(publishedAt), now) == "Just now" <==> now - publishedAt < 60_000)
      && (seconds >= 60 ==>
           && StartsWith(GetTimeAgo(Some(publishedAt), now), IntToString(AgeOf(seconds).count) + " " + AgeOf(seconds).unit)
           && (EndsWithPlural(GetTimeAgo(Some(publishedAt), now)) <==> AgeOf(seconds).count > 1))
  {
    UnderAMinute(now - publishedAt);
    LabelOfAge(AgeOf((now - publishedAt) / 1000));
  }

  /** The label reads "Just now" exactly for that age, and otherwise shows the count and unit. */
  lemma LabelOfAge(age: Age)
    requires age.Ago? ==> age.unit in {"min", "hour", "day"}
    ensures AgeText(age) == "Just now" <==> age.JustNow?
    ensures age.Ago? ==> StartsWith(AgeText(age), IntToString(age.count) + " " + age.unit)
    ensures age.Ago? ==> (EndsWithPlural(AgeText(age)) <==> age.count > 1)
  {
  }

  lemma UnderAMinute(diff: int)
    ensures diff / 1000 < 60 <==> diff < 60_000
  {
  }

  /**
   * The exact label of a card dated `t` at `now`, over the age `d` in
   * milliseconds: whole minutes, hours or days, the unit taking an `s` from
   * two of them on (`1 min ago`, `2 mins ago`).
   */
  lemma GetTimeAgoLabels(t: int, now: int)
    ensures var d := now - t; var text := GetTimeAgo(Some(t), now);
      && (d < 60_000 ==> text == "Just now")
      && (60_000 <= d < 3_600_000 ==>
           text == IntToString(d / 60_000) + " min" + (if d >= 120_000 then "s" else "") + " ago")
      && (3_600_000 <= d < 86_400_000 ==>
           text == IntToString(d / 3_600_000) + " hour" + (if d >= 7_200_000 then "s" else "") + " ago")
      && (86_400_000 <= d ==>
           text == IntToString(d / 86_400_000) + " day" + (if d >= 172_800_000 then "s" else "") + " ago")
  {
    var d := now - t;
    if d < 60_000 {
      UnderAMinute(d);
    } else if d < 3_600_000 {
      MinutesLabel(t, now);
    } else if d < 86_400_000 {
      HoursLabel(t, now);
    } else {
      DaysLabel(t, now);
    }
  }

  lemma MinutesLabel(t: int, now: int)
    requires 60_000 <= now - t < 3_600_000
    ensures GetTimeAgo(Some(t), now) ==
      IntToString((now - t) / 60_000) + " min" + (if now - t >= 120_000 then "s" else "") + " ago"
  {
    var n := (now - t) / 60_000;
    var plural := if n > 1 then "s" else "";
    assert GetTimeAgo(Some(t), now) == IntToString(n) + " " + "min" + plural + " ago" by {
      MinutesCount(now - t);
      LabelOf(t, now, n, "min");
    }
    assert plural == (if now - t >= 120_000 then "s" else "") by {
      MinutesCount(now - t);
    }
    UnitWithSpace(IntToString(n), "min", " min", plural);
  }

  lemma MinutesCount(d: int)
    requires 60_000 <= d < 3_600_000
    ensures AgeOf(d / 1000) == Ago(d / 60_000, "min")
    ensures d / 60_000 > 1 <==> d >= 120_000
  {
    var s, n := d / 1000, d / 60_000;
    assert s * 1000 <= d < s * 1000 + 1000;
    assert n * 60_000 <= d < n * 60_000 + 60_000;
    SecondsThenUnits(d);
  }

  lemma HoursLabel(t: int, now: int)
    requires 3_600_000 <= now - t < 86_400_000
    ensures GetTimeAgo(Some(t), now) ==
      IntToString((now - t) / 3_600_000) + " hour" + (if now - t >= 7_200_000 then "s" else "") + " ago"
  {
    var n := (now - t) / 3_600_000;
    var plural := if n > 1 then "s" else "";
    assert GetTimeAgo(Some(t), now) == IntToString(n) + " " + "hour" + plural + " ago" by {
      HoursCount(now - t);
      LabelOf(t, now, n, "hour");
    }
    assert plural == (if now - t >= 7_200_000 then "s" else "") by {
      HoursCount(now - t);
    }
    UnitWithSpace(IntToString(n), "hour", " hour", plural);
  }

  lemma HoursCount(d: int)
    requires 3_600_000 <= d < 86_400_000
    ensures AgeOf(d / 1000) == Ago(d / 3_600_000, "hour")
    ensures d / 3_600_000 > 1 <==> d >= 7_200_000
  {
    var s, n := d / 1000, d / 3_600_000;
    assert s * 1000 <= d < s * 1000 + 1000;
    assert n * 3_600_000 <= d < n * 3_600_000 + 3_600_000;
    SecondsThenUnits(d);
  }

  lemma DaysLabel(t: int, now: int)
    requires 86_400_000 <= now - t
    ensures GetTimeAgo(Some(t), now) ==
      IntToString((now - t) / 86_400_000) + " day" + (if now - t >= 172_800_000 then "s" else "") + " ago"
  {
    var n := (now - t) / 86_400_000;
    var plural := if n > 1 then "s" else "";
    assert GetTimeAgo(Some(t), now) == IntToString(n) + " " + "day" + plural + " ago" by {
      DaysCount(now - t);
      LabelOf(t, now, n, "day");
    }
    assert plural == (if now - t >= 172_800_000 then "s" else "") by {
      DaysCount(now - t);
    }
    UnitWithSpace(IntToString(n), "day", " day", plural);
  }

  lemma DaysCount(d: int)
    requires 86_400_000 <= d
    ensures AgeOf(d / 1000) == Ago(d / 86_400_000, "day")
    ensures d / 86_400_000 > 1 <==> d >= 172_800_000
  {
    var s, n := d / 1000, d / 86_400_000;
    assert s * 1000 <= d < s * 1000 + 1000;
    assert n * 86_400_000 <= d < n * 86_400_000 + 86_400_000;
    SecondsThenUnits(d);
  }

  lemma LabelOf(t: int, now: int, n: int, unit: string)
    requires unit in {"min", "hour", "day"} && AgeOf((now - t) / 1000) == Ago(n, unit)
    ensures GetTimeAgo(Some(t), now) == IntToString(n) + " " + unit + (if n > 1 then "s" else "") + " ago"
  {
    assert GetTimeAgo(Some(t), now) == AgeText(Ago(n, unit));
    AgeTextOf(n, unit);
  }

  lemma AgeTextOf(n: int, unit: string)
    requires unit in {"min", "hour", "day"}
    ensures AgeText(Ago(n, unit)) == IntToString(n) + " " + unit + (if n > 1 then "s" else "") + " ago"
  {
  }

  lemma UnitWithSpace(count: string, unit: string, spaced: string, plural: string)
    requires spaced == " " + unit
    ensures count + " " + unit + plural + " ago" == count + spaced + plural + " ago"
  {
  }

  /** Whole seconds, then whole units, is whole units of milliseconds. */
  lemma SecondsThenUnits(d: int)
    ensures d / 1000 / 60 == d / 60_000
    ensures d / 1000 / 3600 == d / 3_600_000
    ensures d / 1000 / 86400 == d / 86_400_000
  {
  }

  // ---------------------------------------------------------------- getSourceIcon

  const FALLBACK_ICON: string := "\U{1F4C4}"

  /** The icon table of `getSourceIcon`, keyed by source name. */
  const ICONS: map<string, string> := map[
    "TechCrunch" := "\U{1F4F0}",
    "MIT Technology Review" := "\U{1F52C}",
    "VentureBeat" := "\U{1F4BB}",
    "NewsAPI" := "\U{1F4E1}"
  ]

  /** `icons[source] || '📄'`: every mapped icon is a non-empty string, so it wins. */
  function GetSourceIcon(source: string): (icon: string)
    ensures source in ICONS ==> icon == ICONS[source]
    ensures source !in ICONS ==> icon == FALLBACK_ICON
  {
    if source in ICONS && ICONS[source] != [] then ICONS[source] else FALLBACK_ICON
  }

  /** The fallback icon is used for exactly the sources outside the table. */
  lemma FallbackOnlyForUnknown(source: string)
    ensures GetSourceIcon(source) == FALLBACK_ICON <==> source !in ICONS
    ensures |GetSourceIcon(source)| == 1
  {
    if source in ICONS {
      assert ICONS[source][0] != FALLBACK_ICON[0];
    }
  }

  // ---------------------------------------------------------------- updateNextPushTime

  /**
   * The next push shown in the header: the wait until the 08:00 slot, a full
   * day when `now` is exactly on it.
   */
  function NextPushTime(now: int): (next: int)
    ensures now < next <= now + NewsService.DAY_MS
    ensures Scheduler.IsPushSlot(next)
  {
    var wait := (Scheduler.PUSH_OFFSET_MS - now) % NewsService.DAY_MS;
    var next := now + (if wait == 0 then NewsService.DAY_MS else wait);
    SlotAfterWait(now, wait);
    next
  }

  lemma SlotAfterWait(now: int, wait: int)
    requires wait == (Scheduler.PUSH_OFFSET_MS - now) % NewsService.DAY_MS
    ensures Scheduler.IsPushSlot(now + wait)
    ensures Scheduler.IsPushSlot(now + wait + NewsService.DAY_MS)
  {
    var d := NewsService.DAY_MS;
    var q := (Scheduler.PUSH_OFFSET_MS - now) / d;
    assert Scheduler.PUSH_OFFSET_MS - now == q * d + wait;
    assert now + wait == Scheduler.PUSH_OFFSET_MS - q * d;
    ShiftByDays(Scheduler.PUSH_OFFSET_MS, -q);
    ShiftByDays(Scheduler.PUSH_OFFSET_MS, 1 - q);
    assert now + wait + d == Scheduler.PUSH_OFFSET_MS + (1 - q) * d;
  }

  /** Moving a time by whole days keeps its time of day. */
  lemma ShiftByDays(t: int, k: int)
    requires 0 <= t < NewsService.DAY_MS
    ensures (t + k * NewsService.DAY_MS) % NewsService.DAY_MS == t
  {
  }

  /** The browser shows the very time the server's scheduler reports as its next run. */
  lemma NextPushMatchesScheduler(now: int)
    ensures NextPushTime(now) == Scheduler.GetNextRunTime(now)
  {
    var shown := NextPushTime(now);
    var next := Scheduler.GetNextRunTime(now);
    assert shown >= next;
    SlotsADayApart(next, shown);
  }

  /** Two distinct push slots are at least a day apart. */
  lemma SlotsADayApart(a: int, b: int)
    requires Scheduler.IsPushSlot(a) && Scheduler.IsPushSlot(b)
    ensures a < b ==> b - a >= NewsService.DAY_MS
  {
    var d := NewsService.DAY_MS;
    var qa := a / d;
    var qb := b / d;
    assert a == qa * d + Scheduler.PUSH_OFFSET_MS;
    assert b == qb * d + Scheduler.PUSH_OFFSET_MS;
    assert b - a == (qb - qa) * d;
    assert a < b ==> qb - qa >= 1;
  }

  // ---------------------------------------------------------------- loadLatestNews

  /** How `/api/news` came back: the request or the JSON parse threw, or a body with `success` and `news`. */
  datatype NewsReply = Threw | Answered(success: bool, news: seq<NewsService.Article>)

  /** What the news panel shows: "No recent AI news found", "Unable to load news", or the cards. */
  datatype NewsPanel = EmptyState | ErrorState | Cards(shown: seq<NewsService.Article>)

  /**
   * `loadLatestNews`: the first ten articles; the empty state when the body
   * reports failure or no articles; the error state when the call threw.
   */
  function LoadLatestNews(reply: NewsReply): (panel: NewsPanel)
    ensures panel.ErrorState? <==> reply.Threw?
    ensures panel.EmptyState? <==> reply.Answered? && (!reply.success || reply.news == [])
    ensures panel.Cards? ==>
      && reply.Answered? && reply.success
      && 1 <= |panel.shown| == Min(10, |reply.news|)
      && panel.shown == reply.news[..|panel.shown|]
  {
    match reply
    case Threw => ErrorState
    case Answered(success, news) => if success && |news| > 0 then Cards(Take(news, 10)) else EmptyState
  }
}
