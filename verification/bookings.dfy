/**
 Call requests (bookings) and the call-dispatch state machine: approval,
 rejection, the one-minute poller that places scheduled calls, and the
 effect of a call attempt on the record.

 The telephony provider is an oracle: each attempt either places a call and
 yields its SID, or fails (raises, or no provider client is configured).
 */
module Bookings {
  import opened Wrappers
  import opened CallTime
  import Phone

  /** A document id in the `call_requests` collection. */
  type Id = nat

  datatype Status = Pending | Approved | Rejected

  /** One `call_requests` document. */
  datatype CallRequest = CallRequest(
    clientId: string,
    appName: string,
    name: string,
    phone: Option<string>,
    status: Status,
    callTime: Option<DateTime>,
    callInitiated: bool,
    callInitiatedAt: Option<DateTime>,
    twilioSid: Option<string>,
    callError: Option<string>,
    time: string,
    query: string,
    createdAt: DateTime)

  /** The collection, keyed by document id. */
  type Store = map<Id, CallRequest>

  /** What the telephony provider did with one call attempt. */
  datatype CallOutcome = Placed(sid: string) | NotPlaced

  /** `booking.get("phone")` is truthy. */
  predicate HasPhone(r: CallRequest) {
    r.phone.Some? && r.phone.value != ""
  }

  /** `call_time and call_time > now`. */
  predicate ScheduledLater(r: CallRequest, now: DateTime) {
    r.callTime.Some? && Before(now, r.callTime.value)
  }

  /** The fields `trigger_voice_call` sets once the provider accepted the call. */
  function MarkPlaced(r: CallRequest, sid: string, now: DateTime): (r': CallRequest)
    ensures r'.callInitiated && r'.twilioSid == Some(sid) && r'.callInitiatedAt == Some(now)
    ensures r'.(callInitiated := r.callInitiated, callInitiatedAt := r.callInitiatedAt, twilioSid := r.twilioSid) == r
  {
    r.(callInitiated := true, callInitiatedAt := Some(now), twilioSid := Some(sid))
  }

  /** `trigger_voice_call`: on success the record is marked; on failure nothing is stored. */
  function TriggerCall(s: Store, id: Id, outcome: CallOutcome, now: DateTime): (r: Store)
    ensures r.Keys == s.Keys
    ensures forall k :: k in s && k != id ==> r[k] == s[k]
    ensures id in s && outcome.Placed? ==> r[id] == MarkPlaced(s[id], outcome.sid, now)
    ensures outcome.NotPlaced? ==> r == s
  {
    if id in s && outcome.Placed? then s[id := MarkPlaced(s[id], outcome.sid, now)] else s
  }

  /** The store after a handler, the number texted (if any) and the number dialled (if any). */
  datatype Dispatch = Dispatch(store: Store, sms: Option<string>, dialled: Option<string>)

  /**
   `approve_booking`: the status becomes APPROVED, the submitter is texted, and
   a call is attempted at once when the booking has a phone and no scheduled
   time in the future. A failed attempt is not recorded. `twilio` says whether
   a Twilio client is configured: without one `send_status_sms` returns before
   texting and `trigger_voice_call` returns before dialling, so only the status
   changes.
   */
  function Approve(s: Store, twilio: bool, id: Id, now: DateTime, outcome: CallOutcome): (r: Dispatch)
    ensures id !in s ==> r == Dispatch(s, None, None)
    ensures r.store.Keys == s.Keys
    ensures forall k :: k in s && k != id ==> r.store[k] == s[k]
    ensures id in s ==> r.store[id].status == Approved
    ensures r.dialled.Some? <==> twilio && id in s && HasPhone(s[id]) && !ScheduledLater(s[id], now)
    ensures r.dialled.Some? ==> r.dialled == Some(Phone.ForCall(s[id].phone.value))
    ensures id in s && twilio ==> r.sms == Phone.StatusSmsTarget(s[id].phone)
    ensures !twilio ==> r.sms.None?
    ensures id in s && (r.dialled.None? || outcome.NotPlaced?) ==> r.store[id] == s[id].(status := Approved)
    ensures id in s && r.dialled.Some? && outcome.Placed? ==>
      r.store[id] == MarkPlaced(s[id].(status := Approved), outcome.sid, now)
  {
    if id !in s then Dispatch(s, None, None)
    else
      var booking := s[id];
      var approved := s[id := booking.(status := Approved)];
      var sms := if twilio then Phone.StatusSmsTarget(booking.phone) else None;
      if ScheduledLater(booking, now) || !HasPhone(booking) || !twilio then Dispatch(approved, sms, None)
      else Dispatch(TriggerCall(approved, id, outcome, now), sms, Some(Phone.ForCall(booking.phone.value)))
  }

  /**
   `reject_booking`: the status becomes REJECTED and the submitter is texted
   when Twilio is configured; no call.
   */
  function Reject(s: Store, twilio: bool, id: Id): (r: Dispatch)
    ensures id !in s ==> r == Dispatch(s, None, None)
    ensures r.store.Keys == s.Keys
    ensures forall k :: k in s && k != id ==> r.store[k] == s[k]
    ensures id in s ==> r.store[id] == s[id].(status := Rejected)
    ensures id in s && twilio ==> r.sms == Phone.StatusSmsTarget(s[id].phone)
    ensures !twilio ==> r.sms.None?
    ensures r.dialled.None?
  {
    if id !in s then Dispatch(s, None, None)
    else
      var sms := if twilio then Phone.StatusSmsTarget(s[id].phone) else None;
      Dispatch(s[id := s[id].(status := Rejected)], sms, None)
  }

  /** The poller's query: APPROVED, `call_time <= now`, and `call_initiated` not true. */
  predicate Due(r: CallRequest, now: DateTime) {
    r.status == Approved && r.callTime.Some? && AtOrBefore(r.callTime.value, now) && !r.callInitiated
  }

  /** The ids the poller's `find` returns. */
  function DueIds(s: Store, now: DateTime): (r: set<Id>)
    ensures r <= s.Keys
    ensures forall k :: k in s ==> (k in r <==>
      s[k].status == Approved && s[k].callTime.Some? && AtOrBefore(s[k].callTime.value, now) && !s[k].callInitiated)
  {
    set k | k in s && Due(s[k], now)
  }

  /** A record that is due stays due as the clock advances, until something changes it. */
  lemma {:induction false} DueStaysDue(s: Store, now: DateTime, later: DateTime)
    requires AtOrBefore(now, later)
    ensures DueIds(s, now) <= DueIds(s, later)
  {
    forall k | k in DueIds(s, now)
      ensures k in DueIds(s, later)
    {
      BeforeIsStrictTotalOrder(s[k].callTime.value, now, later);
    }
  }

  const ScheduledCallError: string := "Failed to trigger scheduled call"

  /** One due record after its call attempt. */
  function Fire(r: CallRequest, outcome: CallOutcome, now: DateTime): (r': CallRequest)
    ensures outcome.Placed? ==> r' == MarkPlaced(r, outcome.sid, now)
    ensures outcome.NotPlaced? ==> r' == r.(callError := Some(ScheduledCallError))
  {
    match outcome
    case Placed(sid) => MarkPlaced(r, sid, now)
    case NotPlaced => r.(callError := Some(ScheduledCallError))
  }

  /**
   One tick of `check_scheduled_calls`: every due record gets a call attempt;
   success marks it initiated, failure only stores `call_error`. No other
   record changes.
   */
  function Tick(s: Store, now: DateTime, oracle: Id -> CallOutcome): (s': Store)
    ensures s'.Keys == s.Keys
    ensures forall k :: k in s && !Due(s[k], now) ==> s'[k] == s[k]
    ensures forall k :: k in s && Due(s[k], now) ==> s'[k] == Fire(s[k], oracle(k), now)
    ensures forall k :: k in s ==> s'[k].status == s[k].status && s'[k].callTime == s[k].callTime
  {
    map k | k in s :: if Due(s[k], now) then Fire(s[k], oracle(k), now) else s[k]
  }

  /**
   The poller's loop, record by record in whatever order the query returns them.
   Each record's update touches only that record, so the order does not matter.
   */
  method RunScheduledCalls(s: Store, now: DateTime, oracle: Id -> CallOutcome) returns (s': Store)
    ensures s' == Tick(s, now, oracle)
  {
    var pending := DueIds(s, now);
    s' := s;
    while pending != {}
      invariant pending <= DueIds(s, now)
      invariant s'.Keys == s.Keys
      invariant forall k :: k in s && k !in pending ==> s'[k] == Tick(s, now, oracle)[k]
      invariant forall k :: k in pending ==> s'[k] == s[k]
      decreases pending
    {
      var k :| k in pending;
      s' := s'[k := Fire(s'[k], oracle(k), now)];
      pending := pending - {k};
    }
    assert forall k :: k in s ==> s'[k] == Tick(s, now, oracle)[k];
  }

  /**
   Re-running the poller at the same instant selects exactly the records whose
   call failed in the previous run: a placed call is never placed twice, and a
   failed one is retried on every tick.
   */
  lemma {:induction false} RerunSelectsOnlyFailures(s: Store, now: DateTime, oracle: Id -> CallOutcome)
    ensures DueIds(Tick(s, now, oracle), now) == set k | k in DueIds(s, now) && oracle(k).NotPlaced?
  {
    var t := Tick(s, now, oracle);
    forall k | k in s
      ensures Due(t[k], now) <==> Due(s[k], now) && oracle(k).NotPlaced?
    {
      if Due(s[k], now) {
        assert t[k] == Fire(s[k], oracle(k), now);
      }
    }
  }

  /** When every attempt succeeds, a second tick at the same instant changes nothing. */
  lemma TickIdempotentWhenAllPlaced(s: Store, now: DateTime, oracle: Id -> CallOutcome, oracle': Id -> CallOutcome)
    requires forall k :: k in s ==> oracle(k).Placed?
    ensures Tick(Tick(s, now, oracle), now, oracle') == Tick(s, now, oracle)
  {
    RerunSelectsOnlyFailures(s, now, oracle);
    var t := Tick(s, now, oracle);
    assert forall k :: k in t ==> !Due(t[k], now) by {
      forall k | k in t
        ensures !Due(t[k], now)
      {
        assert k !in DueIds(t, now);
      }
    }
  }

  /**
   A booking approved with a scheduled time in the future gets no call at
   approval, and is picked up by the first poller tick at or after that time
   (unless it was already marked initiated).
   */
  lemma ApprovedForLaterIsPolledLater(s: Store, twilio: bool, id: Id, now: DateTime, outcome: CallOutcome, later: DateTime)
    requires id in s && ScheduledLater(s[id], now) && !s[id].callInitiated
    requires AtOrBefore(s[id].callTime.value, later)
    ensures Approve(s, twilio, id, now, outcome).dialled.None?
    ensures id in DueIds(Approve(s, twilio, id, now, outcome).store, later)
  {
  }

  /**
   A booking with no scheduled time whose immediate call fails is never picked
   up by the poller: the query needs a `call_time`, so there is no retry.
   */
  lemma UnscheduledFailureIsNotRetried(s: Store, twilio: bool, id: Id, now: DateTime, later: DateTime)
    requires id in s && s[id].callTime.None?
    ensures id !in DueIds(Approve(s, twilio, id, now, NotPlaced).store, later)
  {
  }

  /** A rejected booking is never called by the poller. */
  lemma RejectedIsNeverPolled(s: Store, twilio: bool, id: Id, later: DateTime)
    requires id in s
    ensures id !in DueIds(Reject(s, twilio, id).store, later)
  {
  }
}
