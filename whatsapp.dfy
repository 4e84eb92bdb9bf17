/**
 * `services/whatsappService.js`: the service object and its configuration
 * flag, the mock path of `sendMessage`, the batched `sendToSubscribers` loop
 * and `isValidPhoneNumber`. The Twilio client is not modelled: what a live
 * send settles to, and the clock a mock send reads, are inputs.
 */
module WhatsApp {
  import opened Wrappers
  import opened Text
  import opened Phone

  /** Recipients sent to together, between two pauses. */
  const BATCH_SIZE: nat := 10
  const DELAY_BETWEEN_BATCHES_MS: nat := 1000
  const MOCK_PREFIX: string := "mock_"

  /** What one send settles to: fulfilled with a message id, or rejected with an error message. */
  datatype SendOutcome = Resolved(sid: string) | Rejected(message: string)

  /** One entry of `results.details`. */
  datatype Detail = Sent(phone: string, sid: string) | Failed(phone: string, error: string)

  datatype SendSummary = SendSummary(success: nat, failed: nat, total: nat, details: seq<Detail>)

  /**
   * What the dispatcher does over time: send to the roster positions
   * `[start, end)` together, or wait between batches.
   */
  datatype DispatchEvent = Batch(start: nat, end: nat) | Delay(ms: nat)

  datatype ServiceStatus = ServiceStatus(configured: bool, fromNumber: Option<string>)

  /** JavaScript truthiness of an environment variable: set and not empty. */
  predicate Truthy(v: Option<string>) {
    v.Some? && v.value != []
  }

  // ---------------------------------------------------------------- sendMessage

  /**
   * What `sendMessage` settles to: without configuration a mock success whose
   * id is `mock_` and the clock; with it, whatever the live send settles to
   * (a failure is re-thrown, i.e. the promise rejects).
   */
  function Settle(configured: bool, clock: int, live: SendOutcome): (outcome: SendOutcome)
    ensures !configured ==> outcome.Resolved? && StartsWith(outcome.sid, MOCK_PREFIX)
    ensures configured ==> outcome == live
  {
    if configured then live else Resolved(MOCK_PREFIX + IntToString(clock))
  }

  // ---------------------------------------------------------------- sendToSubscribers

  /** The outcome of the send to each recipient, in roster order. */
  function Outcomes(configured: bool, subscribers: seq<string>, clock: nat -> int, live: (nat, string) -> SendOutcome)
    : seq<SendOutcome>
  {
    seq(|subscribers|, i requires 0 <= i < |subscribers| => Settle(configured, clock(i), live(i, subscribers[i])))
  }

  function DetailOf(phone: string, outcome: SendOutcome): Detail {
    match outcome
    case Resolved(sid) => Sent(phone, sid)
    case Rejected(message) => Failed(phone, message)
  }

  /**
   * One detail per recipient, in roster order: a success with the message id, or
   * a failure with the error message.
   */
  function Details(subscribers: seq<string>, outcomes: seq<SendOutcome>): (details: seq<Detail>)
    requires |outcomes| == |subscribers|
    ensures |details| == |subscribers|
    ensures forall i :: 0 <= i < |details| ==>
      details[i].phone == subscribers[i] && (details[i].Sent? <==> outcomes[i].Resolved?)
    ensures forall i :: 0 <= i < |details| && details[i].Sent? ==> details[i].sid == outcomes[i].sid
    ensures forall i :: 0 <= i < |details| && details[i].Failed? ==> details[i].error == outcomes[i].message
  {
    seq(|subscribers|, i requires 0 <= i < |subscribers| => DetailOf(subscribers[i], outcomes[i]))
  }

  function Successes(details: seq<Detail>): nat {
    if details == [] then 0
    else Successes(details[..|details| - 1]) + (if details[|details| - 1].Sent? then 1 else 0)
  }

  function Failures(details: seq<Detail>): nat {
    if details == [] then 0
    else Failures(details[..|details| - 1]) + (if details[|details| - 1].Failed? then 1 else 0)
  }

  /** The summary `sendToSubscribers` resolves with. */
  function Summary(subscribers: seq<string>, outcomes: seq<SendOutcome>): SendSummary
    requires |outcomes| == |subscribers|
  {
    var details := Details(subscribers, outcomes);
    SendSummary(Successes(details), Failures(details), |subscribers|, details)
  }

  /** Every recipient is counted once, as a success or as a failure. */
  lemma {:induction false} TallyAddsUp(details: seq<Detail>)
    ensures Successes(details) + Failures(details) == |details|
  {
    if details != [] {
      TallyAddsUp(details[..|details| - 1]);
    }
  }

  /** No failure is counted unless some send was rejected. */
  lemma {:induction false} NoFailureWithoutRejection(details: seq<Detail>)
    requires forall i :: 0 <= i < |details| ==> details[i].Sent?
    ensures Failures(details) == 0 && Successes(details) == |details|
  {
    if details != [] {
      NoFailureWithoutRejection(details[..|details| - 1]);
    }
  }

  /** `success + failed == total == subscribers.length`. */
  lemma SummaryTotals(subscribers: seq<string>, outcomes: seq<SendOutcome>)
    requires |outcomes| == |subscribers|
    ensures var s := Summary(subscribers, outcomes);
      s.success + s.failed == s.total == |subscribers| == |s.details|
  {
    TallyAddsUp(Details(subscribers, outcomes));
  }

  /**
   * A recipient is reported as failed exactly when Twilio is configured and
   * the live send to it rejected, and then with that send's error message.
   */
  lemma FailedExactlyWhenLiveRejects(configured: bool, subscribers: seq<string>, clock: nat -> int,
                                     live: (nat, string) -> SendOutcome, i: nat)
    requires i < |subscribers|
    ensures var d := Details(subscribers, Outcomes(configured, subscribers, clock, live))[i];
      && d.phone == subscribers[i]
      && (d.Failed? <==> configured && live(i, subscribers[i]).Rejected?)
      && (d.Failed? ==> d.error == live(i, subscribers[i]).message)
  {
    assert Outcomes(configured, subscribers, clock, live)[i] == Settle(configured, clock(i), live(i, subscribers[i]));
  }

  /** Without Twilio configured every send is a mock success, so nothing fails. */
  lemma MockNeverFails(subscribers: seq<string>, clock: nat -> int, live: (nat, string) -> SendOutcome)
    ensures var s := Summary(subscribers, Outcomes(false, subscribers, clock, live));
      s.failed == 0 && s.success == s.total
  {
    var outcomes := Outcomes(false, subscribers, clock, live);
    forall i | 0 <= i < |subscribers| ensures outcomes[i].Resolved? {
      assert outcomes[i] == Settle(false, clock(i), live(i, subscribers[i]));
    }
    NoFailureWithoutRejection(Details(subscribers, outcomes));
  }

  // ---------------------------------------------------------------- batching

  /**
   * The batches and pauses for a roster of `count` recipients, from position
   * `from` on: the next (up to) 10 positions, a pause only when more follow, and the rest.
   */
  function ScheduleFrom(count: nat, from: nat): seq<DispatchEvent>
    decreases count - from
  {
    if from >= count then []
    else [Batch(from, Min(from + BATCH_SIZE, count))]
         + (if from + BATCH_SIZE < count then [Delay(DELAY_BETWEEN_BATCHES_MS)] else [])
         + ScheduleFrom(count, from + BATCH_SIZE)
  }

  /** What `sendToSubscribers` does over time for a roster of `count` recipients. */
  function Schedule(count: nat): seq<DispatchEvent> {
    ScheduleFrom(count, 0)
  }

  /** The batches of a run, in order. */
  function BatchesOf(events: seq<DispatchEvent>): seq<DispatchEvent> {
    if events == [] then []
    else (if events[0].Batch? then [events[0]] else []) + BatchesOf(events[1..])
  }

  function DelayCount(events: seq<DispatchEvent>): nat {
    if events == [] then 0
    else (if events[0].Delay? then 1 else 0) + DelayCount(events[1..])
  }

  lemma {:induction false} BatchesOfAppend(a: seq<DispatchEvent>, b: seq<DispatchEvent>)
    ensures BatchesOf(a + b) == BatchesOf(a) + BatchesOf(b)
    ensures DelayCount(a + b) == DelayCount(a) + DelayCount(b)
  {
    if a == [] {
      assert a + b == b;
    } else {
      var ab := a + b;
      assert ab[0] == a[0] && ab[1..] == a[1..] + b;
      assert BatchesOf(ab) == (if a[0].Batch? then [a[0]] else []) + BatchesOf(a[1..] + b);
      assert DelayCount(ab) == (if a[0].Delay? then 1 else 0) + DelayCount(a[1..] + b);
      BatchesOfAppend(a[1..], b);
    }
  }

  /** One batch, then a pause when `more`. */
  lemma BatchStep(start: nat, end: nat, more: bool)
    ensures var step := [Batch(start, end)] + (if more then [Delay(DELAY_BETWEEN_BATCHES_MS)] else []);
      BatchesOf(step) == [Batch(start, end)] && DelayCount(step) == (if more then 1 else 0)
  {
    var step := [Batch(start, end)] + (if more then [Delay(DELAY_BETWEEN_BATCHES_MS)] else []);
    if more {
      assert step[1..] == [Delay(DELAY_BETWEEN_BATCHES_MS)];
      assert step[1..][1..] == [];
      assert BatchesOf(step[1..]) == [];
      assert DelayCount(step[1..]) == 1;
    } else {
      assert step[1..] == [];
    }
  }

  /**
   * From position `from`, batch `k` covers positions `[from + 10k, from + 10k + 10)`
   * cut at the roster's end, and there are `ceil((count - from) / 10)` of them.
   */
  lemma {:induction false} BatchesFrom(count: nat, from: nat)
    requires from <= count
    ensures var batches := BatchesOf(ScheduleFrom(count, from));
      |batches| == (count - from + BATCH_SIZE - 1) / BATCH_SIZE &&
      forall k :: 0 <= k < |batches| ==>
        from + BATCH_SIZE * k < count &&
        batches[k] == Batch(from + BATCH_SIZE * k, Min(from + BATCH_SIZE * k + BATCH_SIZE, count))
    decreases count - from
  {
    if from < count {
      var more := from + BATCH_SIZE < count;
      var step := [Batch(from, Min(from + BATCH_SIZE, count))] + (if more then [Delay(DELAY_BETWEEN_BATCHES_MS)] else []);
      var tail := ScheduleFrom(count, from + BATCH_SIZE);
      assert ScheduleFrom(count, from) == step + tail;
      BatchesOfAppend(step, tail);
      BatchStep(from, Min(from + BATCH_SIZE, count), more);
      var batches := BatchesOf(ScheduleFrom(count, from));
      assert batches == [Batch(from, Min(from + BATCH_SIZE, count))] + BatchesOf(tail);
      if more {
        BatchesFrom(count, from + BATCH_SIZE);
        forall k | 0 <= k < |batches|
          ensures from + BATCH_SIZE * k < count
          ensures batches[k] == Batch(from + BATCH_SIZE * k, Min(from + BATCH_SIZE * k + BATCH_SIZE, count))
        {
          if k > 0 {
            assert batches[k] == BatchesOf(tail)[k - 1];
            assert from + BATCH_SIZE * k == (from + BATCH_SIZE) + BATCH_SIZE * (k - 1);
          }
        }
      } else {
        assert tail == [];
      }
    }
  }

  /**
   * Batch `k` covers roster positions `[10k, 10k + 10)` cut at the end, and there
   * are `ceil(L / 10)` of them: consecutive slices of 10, only the last one shorter.
   */
  lemma ScheduleBatches(count: nat)
    ensures var batches := BatchesOf(Schedule(count));
      |batches| == (count + BATCH_SIZE - 1) / BATCH_SIZE &&
      forall k :: 0 <= k < |batches| ==>
        BATCH_SIZE * k < count &&
        batches[k] == Batch(BATCH_SIZE * k, Min(BATCH_SIZE * k + BATCH_SIZE, count))
  {
    BatchesFrom(count, 0);
  }

  /**
   * From position `from`: one pause fewer than batches, each pause between two
   * batches, and a batch first and last.
   */
  lemma {:induction false} DelaysFrom(count: nat, from: nat)
    requires from <= count
    ensures DelayCount(ScheduleFrom(count, from)) ==
      if from == count then 0 else (count - from + BATCH_SIZE - 1) / BATCH_SIZE - 1
    ensures var events := ScheduleFrom(count, from);
      forall k :: 0 <= k < |events| && events[k].Delay? ==>
        0 < k < |events| - 1 && events[k - 1].Batch? && events[k + 1].Batch?
    ensures var events := ScheduleFrom(count, from);
      (events == [] <==> from == count) && (events != [] ==> events[0].Batch? && events[|events| - 1].Batch?)
    decreases count - from
  {
    if from < count {
      var more := from + BATCH_SIZE < count;
      var step := [Batch(from, Min(from + BATCH_SIZE, count))] + (if more then [Delay(DELAY_BETWEEN_BATCHES_MS)] else []);
      var tail := ScheduleFrom(count, from + BATCH_SIZE);
      var events := ScheduleFrom(count, from);
      assert events == step + tail;
      BatchesOfAppend(step, tail);
      BatchStep(from, Min(from + BATCH_SIZE, count), more);
      if more {
        DelaysFrom(count, from + BATCH_SIZE);
        forall k | 0 <= k < |events| && events[k].Delay?
          ensures 0 < k < |events| - 1 && events[k - 1].Batch? && events[k + 1].Batch?
        {
          if k >= 2 {
            assert events[k] == tail[k - 2];
            if k >= 3 {
              assert events[k - 1] == tail[k - 3];
            }
          }
        }
      } else {
        assert tail == [];
        assert events == [Batch(from, count)];
      }
    }
  }

  /**
   * `ceil(L / 10) - 1` pauses (none for an empty roster), each between two
   * batches, so no pause comes after the final batch.
   */
  lemma ScheduleDelays(count: nat)
    ensures DelayCount(Schedule(count)) ==
      if count == 0 then 0 else (count + BATCH_SIZE - 1) / BATCH_SIZE - 1
    ensures var events := Schedule(count);
      forall k :: 0 <= k < |events| && events[k].Delay? ==>
        0 < k < |events| - 1 && events[k - 1].Batch? && events[k + 1].Batch?
    ensures var events := Schedule(count);
      (events == [] <==> count == 0) && (events != [] ==> events[|events| - 1].Batch?)
  {
    DelaysFrom(count, 0);
  }

  /** The details of a roster prefix, then those of the next slice, are those of the longer prefix. */
  lemma DetailsAppend(subscribers: seq<string>, outcomes: seq<SendOutcome>, i: nat, end: nat)
    requires |outcomes| == |subscribers| && i <= end <= |subscribers|
    ensures Details(subscribers[..i], outcomes[..i]) + Details(subscribers[i..end], outcomes[i..end])
      == Details(subscribers[..end], outcomes[..end])
  {
  }

  lemma {:induction false} SuccessesAppend(a: seq<Detail>, b: seq<Detail>)
    ensures Successes(a + b) == Successes(a) + Successes(b)
    ensures Failures(a + b) == Failures(a) + Failures(b)
  {
    if b == [] {
      assert a + b == a;
    } else {
      var init := b[..|b| - 1];
      SuccessesAppend(a, init);
      assert (a + b)[..|a + b| - 1] == a + init;
      assert (a + b)[|a + b| - 1] == b[|b| - 1];
    }
  }

  /** What the loop has recorded once the first `k` recipients are tallied. */
  predicate Recorded(results: SendSummary, subscribers: seq<string>, outcomes: seq<SendOutcome>, k: nat)
    requires |outcomes| == |subscribers| && k <= |subscribers|
  {
    results.total == |subscribers| &&
    results.details == Details(subscribers[..k], outcomes[..k]) &&
    results.success == Successes(results.details) && results.failed == Failures(results.details)
  }

  /** Tallying the batch `[i, end)` onto what was recorded for the first `i` recipients. */
  lemma RecordedStep(results: SendSummary, updated: SendSummary, subscribers: seq<string>, outcomes: seq<SendOutcome>,
                     i: nat, end: nat)
    requires |outcomes| == |subscribers| && i <= end <= |subscribers|
    requires Recorded(results, subscribers, outcomes, i)
    requires var recorded := Details(subscribers[i..end], outcomes[i..end]);
      updated.total == results.total && updated.details == results.details + recorded &&
      updated.success == results.success + Successes(recorded) &&
      updated.failed == results.failed + Failures(recorded)
    ensures Recorded(updated, subscribers, outcomes, end)
  {
    DetailsAppend(subscribers, outcomes, i, end);
    SuccessesAppend(results.details, Details(subscribers[i..end], outcomes[i..end]));
  }

  /** One pass of the loop: the events so far, this batch and its pause lead on to the rest of the schedule. */
  lemma EventsStep(count: nat, i: nat, before: seq<DispatchEvent>, after: seq<DispatchEvent>)
    requires i < count
    requires before + ScheduleFrom(count, i) == Schedule(count)
    requires after == before + [Batch(i, Min(i + BATCH_SIZE, count))]
                      + (if i + BATCH_SIZE < count then [Delay(DELAY_BETWEEN_BATCHES_MS)] else [])
    ensures after + ScheduleFrom(count, i + BATCH_SIZE) == Schedule(count)
  {
    var batch := [Batch(i, Min(i + BATCH_SIZE, count))];
    var pause := if i + BATCH_SIZE < count then [Delay(DELAY_BETWEEN_BATCHES_MS)] else [];
    var rest := ScheduleFrom(count, i + BATCH_SIZE);
    assert ScheduleFrom(count, i) == batch + pause + rest;
    Regroup(before, batch, pause, rest);
  }

  lemma Regroup<T>(before: seq<T>, b: seq<T>, d: seq<T>, rest: seq<T>)
    ensures before + b + d + rest == before + (b + d + rest)
  {
  }

  /** What a batch's sends settle to is the matching slice of the roster's outcomes. */
  lemma BatchOutcomes(configured: bool, subscribers: seq<string>, clock: nat -> int, live: (nat, string) -> SendOutcome,
                      i: nat, end: nat, batchResults: seq<SendOutcome>)
    requires i <= end <= |subscribers| && |batchResults| == end - i
    requires forall m :: 0 <= m < end - i ==>
      batchResults[m] == Settle(configured, clock(i + m), live(i + m, subscribers[i..end][m]))
    ensures batchResults == Outcomes(configured, subscribers, clock, live)[i..end]
  {
    var outcomes := Outcomes(configured, subscribers, clock, live);
    forall m | 0 <= m < end - i ensures batchResults[m] == outcomes[i..end][m] {
      assert subscribers[i..end][m] == subscribers[i + m];
    }
  }

  /** Counting one more detail of a batch. */
  lemma TallyStep(recorded: seq<Detail>, index: nat)
    requires index < |recorded|
    ensures recorded[..index + 1] == recorded[..index] + [recorded[index]]
    ensures Successes(recorded[..index + 1]) == Successes(recorded[..index]) + (if recorded[index].Sent? then 1 else 0)
    ensures Failures(recorded[..index + 1]) == Failures(recorded[..index]) + (if recorded[index].Failed? then 1 else 0)
  {
    assert recorded[..index + 1] == recorded[..index] + [recorded[index]];
    SuccessesSnoc(recorded[..index], recorded[index]);
  }

  lemma SuccessesSnoc(details: seq<Detail>, d: Detail)
    ensures Successes(details + [d]) == Successes(details) + (if d.Sent? then 1 else 0)
    ensures Failures(details + [d]) == Failures(details) + (if d.Failed? then 1 else 0)
  {
    assert (details + [d])[..|details|] == details;
  }

  // ---------------------------------------------------------------- isValidPhoneNumber

  /** E.164: a `+`, a first digit 1-9, then 1 to 14 more digits and nothing else. */
  function IsValidPhoneNumber(phone: string): (ok: bool)
    ensures ok <==> 3 <= |phone| <= 16 && phone[0] == '+' && '1' <= phone[1] <= '9' && AllDigits(phone[1..])
  {
    MatchesE164(phone, false)
  }

  // ---------------------------------------------------------------- the service

  class WhatsAppService {
    var isConfigured: bool
    var fromNumber: Option<string>

    /**
     * The service as built at start-up: configured exactly when the account id,
     * the auth token and the sending number are all set and creating the client
     * did not throw (`clientCreated`).
     */
    constructor(accountSid: Option<string>, authToken: Option<string>, fromNumber: Option<string>, clientCreated: bool)
      ensures this.fromNumber == fromNumber
      ensures isConfigured <==> Truthy(accountSid) && Truthy(authToken) && Truthy(fromNumber) && clientCreated
    {
      this.fromNumber := fromNumber;
      isConfigured := false;
      new;
      Initialize(accountSid, authToken, clientCreated);
    }

    method Initialize(accountSid: Option<string>, authToken: Option<string>, clientCreated: bool)
      modifies this
      ensures fromNumber == old(fromNumber)
      ensures isConfigured <==> Truthy(accountSid) && Truthy(authToken) && Truthy(fromNumber) && clientCreated
    {
      if Truthy(accountSid) && Truthy(authToken) && Truthy(fromNumber) {
        if clientCreated {
          isConfigured := true;
        } else {
          isConfigured := false;
        }
      } else {
        isConfigured := false;
      }
    }

    /** `sendMessage(to, message)`; `clock` is `Date.now()` and `live` what Twilio answers. */
    method SendMessage(to: string, message: string, clock: int, live: SendOutcome) returns (outcome: SendOutcome)
      ensures outcome == Settle(isConfigured, clock, live)
      ensures !isConfigured ==> outcome.Resolved?
    {
      if !isConfigured {
        return Resolved(MOCK_PREFIX + IntToString(clock));
      }
      outcome := live;
    }

    /**
     * `Promise.allSettled(batch.map(sendMessage))`: every send of a batch settles,
     * and the outcomes come back in batch order. `first` is the roster position
     * of the batch's first recipient.
     */
    method SettleBatch(batch: seq<string>, message: string, first: nat, clock: nat -> int, live: (nat, string) -> SendOutcome)
      returns (results: seq<SendOutcome>)
      ensures |results| == |batch|
      ensures forall m :: 0 <= m < |batch| ==>
        results[m] == Settle(isConfigured, clock(first + m), live(first + m, batch[m]))
    {
      results := [];
      var j := 0;
      while j < |batch|
        invariant 0 <= j <= |batch|
        invariant |results| == j
        invariant forall m :: 0 <= m < j ==> results[m] == Settle(isConfigured, clock(first + m), live(first + m, batch[m]))
      {
        var outcome := SendMessage(batch[j], message, clock(first + j), live(first + j, batch[j]));
        results := results + [outcome];
        j := j + 1;
      }
    }

    /**
     * `batchResults.forEach(...)`: each settled outcome of a batch recorded in
     * batch order, as a success with its id or a failure with its error message.
     */
    method TallyBatch(batch: seq<string>, batchResults: seq<SendOutcome>, results: SendSummary)
      returns (updated: SendSummary)
      requires |batchResults| == |batch|
      ensures updated.total == results.total
      ensures updated.details == results.details + Details(batch, batchResults)
      ensures updated.success == results.success + Successes(Details(batch, batchResults))
      ensures updated.failed == results.failed + Failures(Details(batch, batchResults))
    {
      ghost var recorded := Details(batch, batchResults);
      updated := results;
      var index := 0;
      while index < |batch|
        invariant 0 <= index <= |batch|
        invariant updated.total == results.total
        invariant updated.details == results.details + recorded[..index]
        invariant updated.success == results.success + Successes(recorded[..index])
        invariant updated.failed == results.failed + Failures(recorded[..index])
      {
        var subscriber := batch[index];
        var detail;
        match batchResults[index] {
          case Resolved(sid) =>
            detail := Sent(subscriber, sid);
            updated := updated.(success := updated.success + 1);
          case Rejected(error) =>
            detail := Failed(subscriber, error);
            updated := updated.(failed := updated.failed + 1);
        }
        updated := updated.(details := updated.details + [detail]);
        assert detail == recorded[index];
        TallyStep(recorded, index);
        index := index + 1;
      }
      assert recorded[..index] == recorded;
    }

    /**
     * `sendToSubscribers(subscribers, message)`: batches of 10 sent together, each
     * settled outcome tallied in roster order, a pause between batches. `clock(i)`
     * and `live(i, phone)` are what the send to the `i`-th recipient sees.
     */
    method SendToSubscribers(subscribers: seq<string>, message: string, clock: nat -> int, live: (nat, string) -> SendOutcome)
      returns (results: SendSummary, events: seq<DispatchEvent>)
      ensures results == Summary(subscribers, Outcomes(isConfigured, subscribers, clock, live))
      ensures results.success + results.failed == results.total == |subscribers|
      ensures events == Schedule(|subscribers|)
    {
      ghost var outcomes := Outcomes(isConfigured, subscribers, clock, live);
      results := SendSummary(0, 0, |subscribers|, []);
      events := [];
      var i := 0;
      while i < |subscribers|
        invariant 0 <= i
        invariant Recorded(results, subscribers, outcomes, Min(i, |subscribers|))
        invariant events + ScheduleFrom(|subscribers|, i) == Schedule(|subscribers|)
      {
        results, events := DispatchBatch(subscribers, message, i, clock, live, results, events);
        i := i + BATCH_SIZE;
      }
      assert subscribers[..|subscribers|] == subscribers && outcomes[..|subscribers|] == outcomes;
      TallyAddsUp(results.details);
    }

    /**
     * One pass of the `for` loop at roster position `i`: send the batch, tally
     * its outcomes, and pause unless it was the last batch.
     */
    method DispatchBatch(subscribers: seq<string>, message: string, i: nat, clock: nat -> int,
                         live: (nat, string) -> SendOutcome, results: SendSummary, events: seq<DispatchEvent>)
      returns (updated: SendSummary, extended: seq<DispatchEvent>)
      requires i < |subscribers|
      requires Recorded(results, subscribers, Outcomes(isConfigured, subscribers, clock, live), i)
      requires events + ScheduleFrom(|subscribers|, i) == Schedule(|subscribers|)
      ensures Recorded(updated, subscribers, Outcomes(isConfigured, subscribers, clock, live),
                       Min(i + BATCH_SIZE, |subscribers|))
      ensures extended + ScheduleFrom(|subscribers|, i + BATCH_SIZE) == Schedule(|subscribers|)
    {
      ghost var outcomes := Outcomes(isConfigured, subscribers, clock, live);
      var end := Min(i + BATCH_SIZE, |subscribers|);
      var batch := subscribers[i..end];
      var batchResults := SettleBatch(batch, message, i, clock, live);
      BatchOutcomes(isConfigured, subscribers, clock, live, i, end, batchResults);
      updated := TallyBatch(batch, batchResults, results);
      RecordedStep(results, updated, subscribers, outcomes, i, end);
      extended := events + [Batch(i, end)];
      if i + BATCH_SIZE < |subscribers| {
        extended := extended + [Delay(DELAY_BETWEEN_BATCHES_MS)];
      }
      EventsStep(|subscribers|, i, events, extended);
    }

    /** `getStatus()`: the flag, and the sending number cut to 10 characters and `...`, or null. */
    function GetStatus(): (status: ServiceStatus)
      reads this
      ensures status.configured == isConfigured
      ensures status.fromNumber.Some? <==> Truthy(fromNumber)
      ensures status.fromNumber.Some? ==>
        var shown := status.fromNumber.value;
        |shown| == Min(|fromNumber.value|, 10) + 3
        && shown[..|shown| - 3] == fromNumber.value[..Min(|fromNumber.value|, 10)]
        && shown[|shown| - 3..] == "..."
    {
      ServiceStatus(isConfigured, if Truthy(fromNumber) then Some(Take(fromNumber.value, 10) + "...") else None)
    }
  }
}
