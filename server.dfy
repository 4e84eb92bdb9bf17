/**
 * The subscriber roster of `server.js`: the module-level `subscribers` array
 * and the `/api/subscribe`, `/api/unsubscribe` and `/api/subscribers/count`
 * handlers that read and change it. Routing and JSON encoding are not
 * modelled; a handler takes the request's `phone` and returns the status
 * code, the `success` flag and the message or error text.
 */
module Server {
  import opened Wrappers
  import Phone
  import WhatsApp

  const PHONE_REQUIRED: string := "Phone number is required"
  const INVALID_FORMAT: string := "Invalid phone number format. Use E.164 format (e.g., +1234567890)"
  const ALREADY_SUBSCRIBED: string := "This number is already subscribed"
  const SUBSCRIBED: string := "Successfully subscribed to AI news updates"
  const UNSUBSCRIBED: string := "Successfully unsubscribed from AI news updates"
  const NOT_FOUND: string := "Phone number not found in subscribers"
  const WELCOME_TEXT: string :=
    "Welcome to AI News Pusher! \U{1F5DE}\U{FE0F}\n\nYou'll receive daily AI news updates every morning at 8 AM.\n\nStay tuned for the latest artificial intelligence developments!"

  /** An HTTP reply: status code, the `success` field, and its `message` or `error` text. */
  datatype Response = Response(status: nat, success: bool, text: string)

  /** `!phone`: the field is missing, null or the empty string. */
  predicate Missing(phone: Option<string>) {
    phone.None? || phone.value == []
  }

  /** `/^\+?[1-9]\d{1,14}$/`: the subscribe endpoint's pattern, where the `+` is optional. */
  function AcceptsPhone(phone: string): (ok: bool)
    ensures ok <==> var digits := if |phone| > 0 && phone[0] == '+' then phone[1..] else phone;
      2 <= |digits| <= 15 && '1' <= digits[0] <= '9' && forall i :: 0 <= i < |digits| ==> '0' <= digits[i] <= '9'
  {
    Phone.MatchesE164(phone, true)
  }

  predicate NoDuplicates(s: seq<string>) {
    forall i, j :: 0 <= i < j < |s| ==> s[i] != s[j]
  }

  /** `s.indexOf(x)`: the first position holding `x`, or -1. */
  function IndexOf(s: seq<string>, x: string): (k: int)
    ensures -1 <= k < |s|
    ensures k == -1 <==> x !in s
    ensures k >= 0 ==> s[k] == x && forall j :: 0 <= j < k ==> s[j] != x
  {
    if s == [] then -1
    else if s[0] == x then 0
    else var k := IndexOf(s[1..], x); if k == -1 then -1 else k + 1
  }

  /** `s.splice(k, 1)` on a copy: position `k` taken out. */
  function RemoveAt(s: seq<string>, k: nat): (r: seq<string>)
    requires k < |s|
    ensures |r| == |s| - 1
    ensures forall i :: 0 <= i < k ==> r[i] == s[i]
    ensures forall i :: k <= i < |r| ==> r[i] == s[i + 1]
  {
    s[..k] + s[k + 1..]
  }

  // ---------------------------------------------------------------- the handlers as functions

  /** Whether `/api/subscribe` adds the phone: present, well-formed and not yet subscribed. */
  predicate Admits(roster: seq<string>, phone: Option<string>) {
    !Missing(phone) && AcceptsPhone(phone.value) && phone.value !in roster
  }

  /** The roster after `/api/subscribe`. */
  function Subscribed(roster: seq<string>, phone: Option<string>): seq<string> {
    if Admits(roster, phone) then roster + [phone.value] else roster
  }

  /** The reply of `/api/subscribe`; `welcome` is what sending the welcome message settles to. */
  function SubscribeReply(roster: seq<string>, phone: Option<string>, welcome: WhatsApp.SendOutcome): Response {
    if Missing(phone) then Response(400, false, PHONE_REQUIRED)
    else if !AcceptsPhone(phone.value) then Response(400, false, INVALID_FORMAT)
    else if phone.value in roster then Response(400, false, ALREADY_SUBSCRIBED)
    else match welcome
      case Resolved(_) => Response(200, true, SUBSCRIBED)
      case Rejected(error) => Response(500, false, error)
  }

  /** The roster after `/api/unsubscribe`. */
  function Unsubscribed(roster: seq<string>, phone: Option<string>): seq<string> {
    if Missing(phone) then roster
    else var k := IndexOf(roster, phone.value); if k > -1 then RemoveAt(roster, k) else roster
  }

  function UnsubscribeReply(roster: seq<string>, phone: Option<string>): Response {
    if Missing(phone) then Response(400, false, PHONE_REQUIRED)
    else if IndexOf(roster, phone.value) > -1 then Response(200, true, UNSUBSCRIBED)
    else Response(404, false, NOT_FOUND)
  }

  // ---------------------------------------------------------------- properties

  /**
   * Every 400 reply leaves the roster as it was; any other reply (even a 500
   * from a failed welcome message) comes after the phone was appended at the end.
   */
  lemma SubscribeChangesOnlyOnAdmission(roster: seq<string>, phone: Option<string>, welcome: WhatsApp.SendOutcome)
    ensures SubscribeReply(roster, phone, welcome).status == 400 <==> Subscribed(roster, phone) == roster
    ensures SubscribeReply(roster, phone, welcome).status != 400 ==>
      Subscribed(roster, phone) == roster + [phone.value] && phone.value !in roster
    ensures SubscribeReply(roster, phone, welcome).success <==> Admits(roster, phone) && welcome.Resolved?
  {
    if Admits(roster, phone) {
      assert |Subscribed(roster, phone)| == |roster| + 1;
    }
  }

  /** Subscribing never introduces a duplicate. */
  lemma SubscribeKeepsNoDuplicates(roster: seq<string>, phone: Option<string>)
    requires NoDuplicates(roster)
    ensures NoDuplicates(Subscribed(roster, phone))
  {
    if Admits(roster, phone) {
      var r := Subscribed(roster, phone);
      forall i, j | 0 <= i < j < |r| ensures r[i] != r[j] {
        if j == |roster| {
          assert r[i] == roster[i];
        }
      }
    }
  }

  /**
   * Unsubscribing a present phone removes its one occurrence and keeps the
   * others in order; an absent or missing phone changes nothing.
   */
  lemma UnsubscribeRemovesOnlyThePhone(roster: seq<string>, p: string)
    requires NoDuplicates(roster) && p != []
    ensures p in roster ==> (
      && UnsubscribeReply(roster, Some(p)).status == 200
      && p !in Unsubscribed(roster, Some(p))
      && multiset(Unsubscribed(roster, Some(p))) + multiset{p} == multiset(roster)
      && NoDuplicates(Unsubscribed(roster, Some(p))))
    ensures p !in roster ==> UnsubscribeReply(roster, Some(p)).status == 404 && Unsubscribed(roster, Some(p)) == roster
  {
    if p in roster {
      var k := IndexOf(roster, p);
      var r := Unsubscribed(roster, Some(p));
      assert r == roster[..k] + roster[k + 1..];
      assert roster == roster[..k] + [p] + roster[k + 1..];
      assert multiset(roster) == multiset(roster[..k]) + multiset{p} + multiset(roster[k + 1..]);
      forall i | 0 <= i < |r| ensures r[i] != p {
        if i >= k {
          assert r[i] == roster[i + 1];
        }
      }
      forall i, j | 0 <= i < j < |r| ensures r[i] != r[j] {
        var i' := if i < k then i else i + 1;
        var j' := if j < k then j else j + 1;
        assert r[i] == roster[i'] && r[j] == roster[j'];
      }
    }
  }

  /** Unsubscribing right after an admitted subscribe gives the roster back. */
  lemma SubscribeThenUnsubscribe(roster: seq<string>, p: string)
    requires Admits(roster, Some(p))
    ensures Unsubscribed(Subscribed(roster, Some(p)), Some(p)) == roster
  {
    var grown := roster + [p];
    assert IndexOf(grown, p) == |roster| by {
      forall j | 0 <= j < |roster| ensures grown[j] != p {
        assert grown[j] == roster[j];
      }
    }
    assert grown[..|roster|] == roster;
  }

  /** The roster grows by one exactly when subscribing does not answer 400, and shrinks by one exactly when unsubscribing answers 200. */
  lemma ReplyTracksCount(roster: seq<string>, phone: Option<string>, welcome: WhatsApp.SendOutcome)
    ensures |Subscribed(roster, phone)| == |roster| + (if SubscribeReply(roster, phone, welcome).status != 400 then 1 else 0)
    ensures |Unsubscribed(roster, phone)| == |roster| - (if UnsubscribeReply(roster, phone).status == 200 then 1 else 0)
  {
    SubscribeChangesOnlyOnAdmission(roster, phone, welcome);
  }

  /** Without duplicates, the length of the roster is the number of distinct phones in it. */
  lemma {:induction false} DistinctCount(s: seq<string>)
    requires NoDuplicates(s)
    ensures |set p | p in s| == |s|
  {
    if s != [] {
      var t := s[1..];
      assert NoDuplicates(t) by {
        forall i, j | 0 <= i < j < |t| ensures t[i] != t[j] {
          assert t[i] == s[i + 1] && t[j] == s[j + 1];
        }
      }
      DistinctCount(t);
      assert s[0] !in t by {
        forall j | 0 <= j < |t| ensures t[j] != s[0] {
          assert t[j] == s[j + 1];
        }
      }
      assert (set p | p in s) == (set p | p in t) + {s[0]} by {
        assert s == [s[0]] + t;
      }
    }
  }

  // ---------------------------------------------------------------- the roster

  class Roster {
    var subscribers: seq<string>

    predicate Valid()
      reads this
    {
      NoDuplicates(subscribers)
    }

    constructor()
      ensures subscribers == [] && Valid()
    {
      subscribers := [];
    }

    /**
     * `POST /api/subscribe`: reject a missing, malformed or already present phone;
     * otherwise append it and then send the welcome message, which answers 500
     * if it throws but leaves the phone subscribed.
     */
    method Subscribe(phone: Option<string>, service: WhatsApp.WhatsAppService, clock: int, live: WhatsApp.SendOutcome)
      returns (response: Response)
      requires Valid()
      modifies this
      ensures Valid()
      ensures subscribers == Subscribed(old(subscribers), phone)
      ensures response == SubscribeReply(old(subscribers), phone, WhatsApp.Settle(service.isConfigured, clock, live))
      ensures Count() == old(Count()) + (if response.status != 400 then 1 else 0)
    {
      SubscribeKeepsNoDuplicates(subscribers, phone);
      ReplyTracksCount(subscribers, phone, WhatsApp.Settle(service.isConfigured, clock, live));
      if phone.None? || phone.value == [] {
        return Response(400, false, PHONE_REQUIRED);
      }
      var number := phone.value;
      if !AcceptsPhone(number) {
        return Response(400, false, INVALID_FORMAT);
      }
      if number in subscribers {
        return Response(400, false, ALREADY_SUBSCRIBED);
      }
      subscribers := subscribers + [number];
      var welcome := service.SendMessage(number, WELCOME_TEXT, clock, live);
      match welcome {
        case Resolved(_) =>
          response := Response(200, true, SUBSCRIBED);
        case Rejected(error) =>
          response := Response(500, false, error);
      }
    }

    /**
     * `POST /api/unsubscribe`: reject a missing phone; remove the first
     * occurrence when present, else answer 404.
     */
    method Unsubscribe(phone: Option<string>) returns (response: Response)
      requires Valid()
      modifies this
      ensures Valid()
      ensures subscribers == Unsubscribed(old(subscribers), phone)
      ensures response == UnsubscribeReply(old(subscribers), phone)
      ensures Count() == old(Count()) - (if response.status == 200 then 1 else 0)
    {
      if phone.None? || phone.value == [] {
        return Response(400, false, PHONE_REQUIRED);
      }
      UnsubscribeRemovesOnlyThePhone(subscribers, phone.value);
      var index := IndexOf(subscribers, phone.value);
      if index > -1 {
        subscribers := RemoveAt(subscribers, index);
        response := Response(200, true, UNSUBSCRIBED);
      } else {
        response := Response(404, false, NOT_FOUND);
      }
    }

    /**
     * `GET /api/subscribers/count`: `subscribers.length`, which on a valid
     * roster is the number of distinct subscribed phones. Both branches return
     * the length; the first only calls the lemma that proves the ensures.
     */
    function Count(): (count: nat)
      reads this
      ensures Valid() ==> count == |set p | p in subscribers|
    {
      if Valid() then DistinctCount(subscribers); |subscribers| else |subscribers|
    }
  }
}
