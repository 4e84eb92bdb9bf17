/**
 * `services/scheduler.js`: the `isRunning` / `lastPushTime` state machine of
 * the daily and the manual push, the subscriber lookup, the next 08:00 run
 * time and the status report. The cron trigger is not modelled; a run is a
 * call. Where a step of a run can throw, whether it does is an input.
 */
module Scheduler {
  import opened Wrappers
  import NewsService
  import NewsFormat
  import WhatsApp

  /** 08:00:00.000 as an offset into the day. */
  const PUSH_OFFSET_MS: int := 8 * 3_600_000
  const CRON_DESCRIPTION: string := "0 8 * * * (Daily at 8:00 AM)"
  const ALREADY_RUNNING: string := "Push already in progress"
  const NO_SUBSCRIBERS_FOUND: string := "No subscribers found"

  /** Which step of a run throws, with the error's message, if any. */
  datatype Fault = NoFault | FetchThrows(error: string) | FormatThrows(error: string) | DispatchThrows(error: string)

  /** How a daily run ended. */
  datatype DailyOutcome =
    | Skipped
    | NoNews
    | NoSubscribers
    | Pushed(message: string, summary: WhatsApp.SendSummary)
    | Failed(error: string)

  /**
   * What `manualPush` resolves with: an acknowledgement, or the dispatch's
   * summary together with the message that was dispatched.
   */
  datatype ManualReply =
    | Acknowledged(success: bool, message: string)
    | Sent(message: string, summary: WhatsApp.SendSummary)

  datatype SchedulerStatus = SchedulerStatus(
    scheduled: bool, cronExpression: string, nextRun: int, lastRun: Option<int>, isRunning: bool)

  /** Everything a run sees from outside: the settled sources, the clock, the locale date and `APP_URL`. */
  datatype Environment = Environment(
    sources: seq<NewsService.SourceOutcome>, now: int, dateText: string, appUrlEnv: Option<string>)

  // ---------------------------------------------------------------- getSubscribers

  /** `app.locals.subscribers || []`: the list stored under that name, or none. */
  function GetSubscribers(locals: map<string, seq<string>>): seq<string>
  {
    if "subscribers" in locals then locals["subscribers"] else []
  }

  /** `app.locals` as the server leaves it: nothing is ever stored there. */
  const SERVER_LOCALS: map<string, seq<string>> := map[]

  // ---------------------------------------------------------------- runs

  /** What a daily run that takes the guard does, step by step. */
  function DailyRun(env: Environment, roster: seq<string>, configured: bool,
                    clock: nat -> int, live: (nat, string) -> WhatsApp.SendOutcome, fault: Fault): DailyOutcome
  {
    if fault.FetchThrows? then Failed(fault.error)
    else
      var news := NewsService.Aggregate(env.sources, env.now);
      if news == [] then NoNews
      else if fault.FormatThrows? then Failed(fault.error)
      else if roster == [] then NoSubscribers
      else if fault.DispatchThrows? then Failed(fault.error)
      else
        var message := NewsFormat.WhatsAppMessage(news, env.dateText, env.appUrlEnv, env.now);
        Pushed(message, WhatsApp.Summary(roster, WhatsApp.Outcomes(configured, roster, clock, live)))
  }

  /** What a manual run that takes the guard does, step by step. */
  function ManualRun(news: seq<NewsService.Article>, env: Environment, roster: seq<string>, configured: bool,
                     clock: nat -> int, live: (nat, string) -> WhatsApp.SendOutcome, fault: Fault): Result<ManualReply>
  {
    if fault.FormatThrows? then Failure(fault.error)
    else if roster == [] then Success(Acknowledged(true, NO_SUBSCRIBERS_FOUND))
    else if fault.DispatchThrows? then Failure(fault.error)
    else
      var message := NewsFormat.WhatsAppMessage(news, env.dateText, env.appUrlEnv, env.now);
      Success(Sent(message, WhatsApp.Summary(roster, WhatsApp.Outcomes(configured, roster, clock, live))))
  }

  /**
   * A daily run sends only when there is news, a roster and no exception; the
   * message is the formatted news and every recipient is tallied once.
   */
  lemma DailyRunPushes(env: Environment, roster: seq<string>, configured: bool,
                       clock: nat -> int, live: (nat, string) -> WhatsApp.SendOutcome, fault: Fault)
    ensures var outcome := DailyRun(env, roster, configured, clock, live, fault);
      outcome.Pushed? <==>
        fault.NoFault? && NewsService.Aggregate(env.sources, env.now) != [] && roster != []
    ensures var outcome := DailyRun(env, roster, configured, clock, live, fault);
      outcome.Pushed? ==>
        outcome.message == NewsFormat.WhatsAppMessage(NewsService.Aggregate(env.sources, env.now), env.dateText, env.appUrlEnv, env.now) &&
        outcome.message != NewsFormat.NO_NEWS_TEXT &&
        outcome.summary.success + outcome.summary.failed == outcome.summary.total == |roster|
    ensures var outcome := DailyRun(env, roster, configured, clock, live, fault);
      outcome.Failed? <==> !fault.NoFault? && (fault.FetchThrows? || NewsService.Aggregate(env.sources, env.now) != []) &&
                           (fault.DispatchThrows? ==> roster != [])
  {
    var outcome := DailyRun(env, roster, configured, clock, live, fault);
    var news := NewsService.Aggregate(env.sources, env.now);
    if outcome.Pushed? {
      WhatsApp.SummaryTotals(roster, WhatsApp.Outcomes(configured, roster, clock, live));
      assert news != [];
      NewsFormat.NewsMessageIsNotNoNewsText(news, env.dateText, env.appUrlEnv, env.now);
    }
  }

  /**
   * A manual run formats whatever it is given, so with no news and a roster it
   * sends the fixed no-news text; with no roster it answers `No subscribers found`.
   */
  lemma ManualRunReplies(news: seq<NewsService.Article>, env: Environment, roster: seq<string>, configured: bool,
                         clock: nat -> int, live: (nat, string) -> WhatsApp.SendOutcome, fault: Fault)
    ensures var r := ManualRun(news, env, roster, configured, clock, live, fault);
      r.Success? && r.value.Sent? <==> !fault.FormatThrows? && !fault.DispatchThrows? && roster != []
    ensures var r := ManualRun(news, env, roster, configured, clock, live, fault);
      !fault.FormatThrows? && roster == [] ==> r == Success(Acknowledged(true, NO_SUBSCRIBERS_FOUND))
    ensures var r := ManualRun(news, env, roster, configured, clock, live, fault);
      r.Success? && r.value.Sent? ==> r.value.summary.success + r.value.summary.failed == r.value.summary.total == |roster|
    ensures var r := ManualRun(news, env, roster, configured, clock, live, fault);
      r.Success? && r.value.Sent? ==>
        r.value.message == NewsFormat.WhatsAppMessage(news, env.dateText, env.appUrlEnv, env.now)
    ensures var r := ManualRun(news, env, roster, configured, clock, live, fault);
      r.Success? && r.value.Sent? ==> (r.value.message == NewsFormat.NO_NEWS_TEXT <==> news == [])
  {
    if !fault.FormatThrows? && !fault.DispatchThrows? && roster != [] {
      WhatsApp.SummaryTotals(roster, WhatsApp.Outcomes(configured, roster, clock, live));
      if news != [] {
        NewsFormat.NewsMessageIsNotNoNewsText(news, env.dateText, env.appUrlEnv, env.now);
      }
    }
  }

  /**
   * As written, the roster the scheduler reads is always empty, so a daily run
   * never sends and never records a push time, whoever has subscribed.
   */
  lemma ScheduledPushNeverSends(env: Environment, configured: bool,
                                clock: nat -> int, live: (nat, string) -> WhatsApp.SendOutcome, fault: Fault)
    ensures GetSubscribers(SERVER_LOCALS) == []
    ensures !DailyRun(env, GetSubscribers(SERVER_LOCALS), configured, clock, live, fault).Pushed?
    ensures ManualRun([], env, GetSubscribers(SERVER_LOCALS), configured, clock, live, NoFault)
            == Success(Acknowledged(true, NO_SUBSCRIBERS_FOUND))
  {
    DailyRunPushes(env, GetSubscribers(SERVER_LOCALS), configured, clock, live, fault);
  }

  // ---------------------------------------------------------------- getNextRunTime

  /** An instant at 08:00:00.000 of some day. */
  predicate IsPushSlot(t: int) {
    t % NewsService.DAY_MS == PUSH_OFFSET_MS
  }

  /** `getNextRunTime()` at `now`: today's 08:00 if still ahead, else tomorrow's. */
  function GetNextRunTime(now: int): (next: int)
    ensures now < next <= now + NewsService.DAY_MS
    ensures IsPushSlot(next)
    ensures forall t :: now < t < next ==> !IsPushSlot(t)
  {
    var today := (now / NewsService.DAY_MS) * NewsService.DAY_MS + PUSH_OFFSET_MS;
    NoSlotBetween(now, if today <= now then today + NewsService.DAY_MS else today);
    if today <= now then today + NewsService.DAY_MS else today
  }

  /** Slots are a day apart: none lies strictly between `now` and the next one computed from its day. */
  lemma NoSlotBetween(now: int, next: int)
    requires next == (now / NewsService.DAY_MS) * NewsService.DAY_MS + PUSH_OFFSET_MS || next == (now / NewsService.DAY_MS) * NewsService.DAY_MS + PUSH_OFFSET_MS + NewsService.DAY_MS
    requires now < next <= now + NewsService.DAY_MS
    ensures IsPushSlot(next)
    ensures forall t :: now < t < next ==> !IsPushSlot(t)
  {
    var day := now / NewsService.DAY_MS;
    assert next % NewsService.DAY_MS == PUSH_OFFSET_MS by {
      if next == day * NewsService.DAY_MS + PUSH_OFFSET_MS {
        ModOfSlot(day);
      } else {
        ModOfSlot(day + 1);
        assert next == (day + 1) * NewsService.DAY_MS + PUSH_OFFSET_MS;
      }
    }
    forall t | now < t < next ensures !IsPushSlot(t) {
      var d := t / NewsService.DAY_MS;
      var r := t % NewsService.DAY_MS;
      assert t == d * NewsService.DAY_MS + r && 0 <= r < NewsService.DAY_MS;
      assert day * NewsService.DAY_MS <= now < day * NewsService.DAY_MS + NewsService.DAY_MS;
      assert day <= d <= day + 1;
      assert d == day && next == day * NewsService.DAY_MS + PUSH_OFFSET_MS ==> r < PUSH_OFFSET_MS;
      assert d == day && next != day * NewsService.DAY_MS + PUSH_OFFSET_MS ==> r > PUSH_OFFSET_MS;
      assert d == day + 1 ==> r < PUSH_OFFSET_MS;
    }
  }

  lemma ModOfSlot(day: int)
    ensures (day * NewsService.DAY_MS + PUSH_OFFSET_MS) % NewsService.DAY_MS == PUSH_OFFSET_MS
    ensures (day * NewsService.DAY_MS + PUSH_OFFSET_MS) / NewsService.DAY_MS == day
  {
  }

  // ---------------------------------------------------------------- the service

  class SchedulerService {
    var isRunning: bool
    var lastPushTime: Option<int>

    constructor()
      ensures !isRunning && lastPushTime == None
    {
      isRunning := false;
      lastPushTime := None;
    }

    /**
     * `executeDailyPush()`: skipped while a push runs; otherwise fetch, format,
     * look up the roster and dispatch, with the guard released on every path,
     * the error swallowed, and the push time recorded only after a dispatch.
     * `pushedAt` is the clock when the dispatch returns.
     */
    method ExecuteDailyPush(env: Environment, roster: seq<string>, service: WhatsApp.WhatsAppService,
                            clock: nat -> int, live: (nat, string) -> WhatsApp.SendOutcome, fault: Fault, pushedAt: int)
      returns (outcome: DailyOutcome, events: seq<WhatsApp.DispatchEvent>)
      modifies this
      ensures old(isRunning) ==> outcome == Skipped && events == [] && isRunning && lastPushTime == old(lastPushTime)
      ensures !old(isRunning) ==> !isRunning
      ensures !old(isRunning) ==> outcome == DailyRun(env, roster, service.isConfigured, clock, live, fault)
      ensures lastPushTime == if outcome.Pushed? then Some(pushedAt) else old(lastPushTime)
      ensures events == if outcome.Pushed? then WhatsApp.Schedule(|roster|) else []
    {
      events := [];
      if isRunning {
        return Skipped, events;
      }
      isRunning := true;
      // try
      if fault.FetchThrows? {
        isRunning := false;  // finally
        return Failed(fault.error), events;
      }
      var news := NewsService.FetchLatestNews(env.sources, env.now);
      if |news| == 0 {
        isRunning := false;
        return NoNews, events;
      }
      if fault.FormatThrows? {
        isRunning := false;  // finally
        return Failed(fault.error), events;
      }
      var message := NewsFormat.FormatForWhatsApp(news, env.dateText, env.appUrlEnv, env.now);
      var subscribers := roster;
      if |subscribers| == 0 {
        isRunning := false;
        return NoSubscribers, events;
      }
      if fault.DispatchThrows? {
        isRunning := false;  // finally
        return Failed(fault.error), events;
      }
      var results;
      results, events := service.SendToSubscribers(subscribers, message, clock, live);
      lastPushTime := Some(pushedAt);
      isRunning := false;  // finally
      outcome := Pushed(message, results);
    }

    /**
     * `manualPush(news)`: throws `Push already in progress` while a push runs and
     * changes nothing; otherwise format, look up the roster and dispatch, with the
     * guard released on every path, the error re-thrown, and the push time
     * recorded only after a dispatch.
     */
    method ManualPush(news: seq<NewsService.Article>, env: Environment, roster: seq<string>, service: WhatsApp.WhatsAppService,
                      clock: nat -> int, live: (nat, string) -> WhatsApp.SendOutcome, fault: Fault, pushedAt: int)
      returns (reply: Result<ManualReply>, events: seq<WhatsApp.DispatchEvent>)
      modifies this
      ensures old(isRunning) ==> reply == Failure(ALREADY_RUNNING) && events == [] && isRunning && lastPushTime == old(lastPushTime)
      ensures !old(isRunning) ==> !isRunning
      ensures !old(isRunning) ==> reply == ManualRun(news, env, roster, service.isConfigured, clock, live, fault)
      ensures lastPushTime == if reply.Success? && reply.value.Sent? then Some(pushedAt) else old(lastPushTime)
      ensures events == if reply.Success? && reply.value.Sent? then WhatsApp.Schedule(|roster|) else []
    {
      events := [];
      if isRunning {
        return Failure(ALREADY_RUNNING), events;
      }
      isRunning := true;
      // try
      if fault.FormatThrows? {
        isRunning := false;  // catch
        return Failure(fault.error), events;
      }
      var message := NewsFormat.FormatForWhatsApp(news, env.dateText, env.appUrlEnv, env.now);
      var subscribers := roster;
      if |subscribers| == 0 {
        isRunning := false;
        return Success(Acknowledged(true, NO_SUBSCRIBERS_FOUND)), events;
      }
      if fault.DispatchThrows? {
        isRunning := false;  // catch
        return Failure(fault.error), events;
      }
      var results;
      results, events := service.SendToSubscribers(subscribers, message, clock, live);
      lastPushTime := Some(pushedAt);
      isRunning := false;
      reply := Success(Sent(message, results));
    }

    /** `getStatus()` at `now`. */
    function GetStatus(now: int): (status: SchedulerStatus)
      reads this
      ensures status.scheduled && status.cronExpression == CRON_DESCRIPTION
      ensures status.isRunning == isRunning && status.lastRun == lastPushTime
      ensures now < status.nextRun <= now + NewsService.DAY_MS && IsPushSlot(status.nextRun)
    {
      SchedulerStatus(true, CRON_DESCRIPTION, GetNextRunTime(now), lastPushTime, isRunning)
    }
  }
}
