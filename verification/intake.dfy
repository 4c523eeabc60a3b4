/**
 The two submission endpoints. `api_submit` resolves the form by its key,
 extracts the submitter's name, phone and preferred time, reads and repairs
 the scheduled call time, and inserts a PENDING call request. The older
 `submit_form` scans the posted fields itself, writing into the dictionary it
 is iterating over.

 The AI reply is an oracle input; ids, clocks and the current year are
 parameters.
 */
module Intake {
  import opened Wrappers
  import opened Text
  import opened CallTime
  import opened Extraction
  import opened Bookings
  import Phone
  import Registry

  // ---------------------------------------------------------------------------
  // api_submit
  // ---------------------------------------------------------------------------

  /** What the completion service did: not configured, failed, or answered. */
  datatype AiOutcome = AiDisabled | AiFailed | AiAnswered(content: string)

  const Received: string := "Form received successfully"
  const ReceivedWithoutAi: string := "Form received successfully (AI processing unavailable)"

  /**
   The reply stored with the booking and returned as the response message:
   the model's answer, or one of the two fixed acknowledgements, which both
   begin with `Received` and differ in whether the completion service failed.
   */
  function AiReply(ai: AiOutcome): (r: string)
    ensures ai.AiAnswered? ==> r == ai.content
    ensures !ai.AiAnswered? ==> StartsWith(r, Received) && (r == Received <==> ai.AiDisabled?)
  {
    match ai
    case AiDisabled => Received
    case AiFailed => ReceivedWithoutAi
    case AiAnswered(content) => content
  }

  /** The year repair applied to an optional parsed time; a failing repair is an error. */
  function RepairCallTime(parsed: Option<DateTime>, currentYear: int): (r: Result<Option<DateTime>>)
    ensures parsed.None? ==> r == Ok(None)
    ensures parsed.Some? ==> (r.Ok? <==> FixYear(parsed.value, currentYear).Ok?)
    ensures parsed.Some? && r.Ok? ==> r.value == Some(FixYear(parsed.value, currentYear).value)
    ensures r.Err? ==> r.code == 500
  {
    match parsed
    case None => Ok(None)
    case Some(t) =>
      match FixYear(t, currentYear)
      case Ok(fixed) => Ok(Some(fixed))
      case Err(code, message) => Err(code, message)
  }

  /** The `preferred_call_time` value as `api_submit` reads it. */
  function SubmittedCallTime(data: Submission): (r: Option<DateTime>)
    ensures r.Some? ==> Valid(r.value)
    ensures Find(data, "preferred_call_time").None? ==> r.None?
  {
    ParseCallTime(Find(data, "preferred_call_time"))
  }

  /**
   A submitted `isoformat` text, or a `datetime-local` value to the minute,
   reads back as the time it was written from.
   */
  lemma SubmittedCallTimeReadsBack(data: Submission, t: DateTime)
    requires Valid(t)
    ensures Find(data, "preferred_call_time") == Some(IsoText(t)) ==> SubmittedCallTime(data) == Some(t)
    ensures t.second == 0 && Find(data, "preferred_call_time") == Some(MinuteText(t, 'T')) ==>
      SubmittedCallTime(data) == Some(t)
  {
    if Find(data, "preferred_call_time") == Some(IsoText(t)) {
      ParseIsoRoundTrip(t);
    }
    if t.second == 0 && Find(data, "preferred_call_time") == Some(MinuteText(t, 'T')) {
      ParseIsoLocalRoundTrip(t);
    }
  }

  /** The JSON response of a successful submission. */
  datatype Receipt = Receipt(message: string, callId: Id, userName: string, phone: string, callInitiated: bool)

  /** The store after a submission, the response, and the number the client alert SMS goes to (if any). */
  datatype Submitted = Submitted(db: Registry.Db, receipt: Receipt, alert: Option<string>)

  /** The `phone` and `number` fields of the client document `notify_client_sms` finds. */
  datatype Owner = Owner(phone: Option<string>, number: Option<string>)

  /**
   `api_submit`: an unknown key is refused with 403; a call time whose year
   repair raises fails with 500 before anything is stored; otherwise one
   PENDING call request is inserted under a fresh id, holding the display
   name and phone, the preferred time text, the repaired call time and the
   first 100 characters of the AI reply, and the client is alerted.
   `owner` is the client document found when Twilio is configured; `None`
   when it is not, or when no client document matches.
   */
  function ApiSubmit(db: Registry.Db, apiKey: string, data: Submission, newId: Id, now: DateTime,
                     currentYear: int, ai: AiOutcome, owner: Option<Owner>): (r: Result<Submitted>)
    requires newId !in db.calls
    ensures Registry.FormByKey(db.forms, apiKey).None? ==> r == Err(403, "Invalid API key")
    ensures r.Ok? <==> Registry.FormByKey(db.forms, apiKey).Some? && RepairCallTime(SubmittedCallTime(data), currentYear).Ok?
    ensures r.Err? && Registry.FormByKey(db.forms, apiKey).Some? ==> r.code == 500
    ensures r.Ok? ==> newId in r.value.db.calls
    ensures r.Ok? ==>
      var form := Registry.FormByKey(db.forms, apiKey).value;
      var ex := Extract(form.fields, data);
      var rec := r.value.db.calls[newId];
      && r.value.db == db.(calls := db.calls[newId := rec])
      && rec.clientId == form.clientId && rec.appName == form.appName
      && rec.name == ex.name && rec.phone == Some(ex.phone) && rec.time == ex.time
      && rec.status == Pending && !rec.callInitiated && rec.callInitiatedAt.None?
      && rec.twilioSid.None? && rec.callError.None? && rec.createdAt == now
      && rec.callTime == RepairCallTime(SubmittedCallTime(data), currentYear).value
      && (rec.callTime.None? <==> SubmittedCallTime(data).None?)
      && (rec.callTime.Some? ==> Valid(rec.callTime.value) && (currentYear >= 2000 ==> rec.callTime.value.year >= 2000))
      && rec.query == Take(AiReply(ai), 100)
      && |rec.query| <= 100 && StartsWith(AiReply(ai), rec.query)
      && r.value.receipt == Receipt(AiReply(ai), newId, ex.name, ex.phone, false)
    ensures r.Ok? ==> (r.value.alert.Some? <==>
      owner.Some? && ((owner.value.phone.Some? && owner.value.phone.value != "") ||
                      (owner.value.number.Some? && owner.value.number.value != "")))
    ensures r.Ok? && r.value.alert.Some? ==> r.value.alert == Phone.ClientAlertTarget(owner.value.phone, owner.value.number)
  {
    match Registry.FormByKey(db.forms, apiKey)
    case None => Err(403, "Invalid API key")
    case Some(form) =>
      var ex := Extract(form.fields, data);
      match RepairCallTime(SubmittedCallTime(data), currentYear)
      case Err(code, message) => Err(code, message)
      case Ok(callTime) =>
        var reply := AiReply(ai);
        var rec := CallRequest(form.clientId, form.appName, ex.name, Some(ex.phone), Pending, callTime,
                               false, None, None, None, ex.time, Take(reply, 100), now);
        var alert := if owner.Some? then Phone.ClientAlertTarget(owner.value.phone, owner.value.number) else None;
        Ok(Submitted(db.(calls := db.calls[newId := rec]), Receipt(reply, newId, ex.name, ex.phone, false), alert))
  }

  /**
   A submission without a usable phone is stored with the placeholder text,
   which is truthy, so approving it (with no scheduled time) still attempts a
   call to the normalised placeholder whenever Twilio is configured.
   */
  lemma PlaceholderPhoneIsDialled(db: Registry.Db, apiKey: string, data: Submission, newId: Id, now: DateTime,
                                  currentYear: int, ai: AiOutcome, owner: Option<Owner>, twilio: bool, approvedAt: DateTime, outcome: CallOutcome)
    requires newId !in db.calls
    requires ApiSubmit(db, apiKey, data, newId, now, currentYear, ai, owner).Ok?
    requires Extract(Registry.FormByKey(db.forms, apiKey).value.fields, data).phone == NoPhone
    requires SubmittedCallTime(data).None?
    ensures Approve(ApiSubmit(db, apiKey, data, newId, now, currentYear, ai, owner).value.db.calls, twilio, newId, approvedAt, outcome).dialled
      == if twilio then Some(Phone.ForCall(NoPhone)) else None
  {
    var rec := ApiSubmit(db, apiKey, data, newId, now, currentYear, ai, owner).value.db.calls[newId];
    assert rec.phone == Some(NoPhone) && rec.callTime.None?;
    assert HasPhone(rec) by {
      assert |NoPhone| > 0;
    }
  }

  /**
   A submission with a call time waits for approval; approved before that
   time it gets no immediate call, and the poller selects it at that time.
   */
  lemma ScheduledSubmissionIsPolled(db: Registry.Db, apiKey: string, data: Submission, newId: Id, now: DateTime,
                                    currentYear: int, ai: AiOutcome, owner: Option<Owner>, twilio: bool, approvedAt: DateTime, outcome: CallOutcome, later: DateTime)
    requires newId !in db.calls
    requires ApiSubmit(db, apiKey, data, newId, now, currentYear, ai, owner).Ok?
    requires ApiSubmit(db, apiKey, data, newId, now, currentYear, ai, owner).value.db.calls[newId].callTime == Some(later)
    requires Before(approvedAt, later)
    ensures newId !in DueIds(ApiSubmit(db, apiKey, data, newId, now, currentYear, ai, owner).value.db.calls, later)
    ensures Approve(ApiSubmit(db, apiKey, data, newId, now, currentYear, ai, owner).value.db.calls, twilio, newId, approvedAt, outcome).dialled.None?
    ensures newId in DueIds(Approve(ApiSubmit(db, apiKey, data, newId, now, currentYear, ai, owner).value.db.calls, twilio, newId, approvedAt, outcome).store, later)
  {
    var s := ApiSubmit(db, apiKey, data, newId, now, currentYear, ai, owner).value.db.calls;
    ApprovedForLaterIsPolledLater(s, twilio, newId, approvedAt, outcome, later);
  }

  // ---------------------------------------------------------------------------
  // submit_form: the posted fields as a live dictionary
  // ---------------------------------------------------------------------------

  /** A value in the posted dictionary: form text, a stored `datetime`, or `None`. */
  datatype Value = Str(text: string) | Stamp(at: DateTime) | Null

  predicate IsTruthy(v: Value) {
    match v
    case Str(text) => text != ""
    case Stamp(_) => true
    case Null => false
  }

  /** `data.get(k)` is truthy. */
  predicate Present(v: Option<Value>) {
    v.Some? && IsTruthy(v.value)
  }

  datatype Item = Item(key: string, value: Value)

  /** A dictionary: its items in insertion order. */
  type Dict = seq<Item>

  /** The position of key `k`. */
  function IndexOf(d: Dict, k: string): (r: Option<nat>)
    ensures r.Some? ==> r.value < |d| && d[r.value].key == k
    ensures r.None? ==> forall i :: 0 <= i < |d| ==> d[i].key != k
  {
    if |d| == 0 then None
    else if d[0].key == k then Some(0)
    else match IndexOf(d[1..], k)
      case Some(i) => Some(i + 1)
      case None => None
  }

  /** `data.get(k)`. */
  function Get(d: Dict, k: string): Option<Value> {
    match IndexOf(d, k)
    case Some(i) => Some(d[i].value)
    case None => None
  }

  /** `b` has the keys of `a` at the same positions, and possibly more after them. */
  predicate KeysExtended(a: Dict, b: Dict) {
    |a| <= |b| && forall i :: 0 <= i < |a| ==> a[i].key == b[i].key
  }

  /** The same keys at the same positions. */
  predicate SameKeys(a: Dict, b: Dict) {
    |a| == |b| && KeysExtended(a, b)
  }

  /** A key of `a` is found at the same position in an extension of `a`. */
  lemma {:induction false} IndexOfExtended(a: Dict, b: Dict, k: string)
    requires KeysExtended(a, b)
    ensures IndexOf(a, k).Some? ==> IndexOf(b, k) == IndexOf(a, k)
    ensures |a| == |b| ==> IndexOf(b, k) == IndexOf(a, k)
  {
    if |a| > 0 && a[0].key != k {
      IndexOfExtended(a[1..], b[1..], k);
    }
  }

  lemma {:induction false} IndexOfAppend(d: Dict, it: Item, k: string)
    ensures IndexOf(d + [it], k) ==
      if IndexOf(d, k).Some? then IndexOf(d, k) else if it.key == k then Some(|d|) else None
  {
    if |d| > 0 && d[0].key != k {
      assert (d + [it])[1..] == d[1..] + [it];
      IndexOfAppend(d[1..], it, k);
    }
  }

  /**
   `data[k] = v`: replaces the value in place when `k` is a key, and otherwise
   appends a new item, growing the dictionary.
   */
  function Set(d: Dict, k: string, v: Value): (r: Dict)
    ensures |r| == |d| <==> IndexOf(d, k).Some?
    ensures KeysExtended(d, r)
    ensures Get(r, k) == Some(v)
    ensures forall j :: 0 <= j < |d| && d[j].key != k ==> r[j] == d[j]
  {
    match IndexOf(d, k)
    case Some(p) =>
      var r := d[p := Item(k, v)];
      IndexOfExtended(d, r, k);
      r
    case None =>
      IndexOfAppend(d, Item(k, v), k);
      d + [Item(k, v)]
  }

  /** Assigning one key leaves every other key's value alone. */
  lemma GetSetOther(d: Dict, k: string, v: Value, k': string)
    requires k' != k
    ensures Get(Set(d, k, v), k') == Get(d, k')
  {
    var r := Set(d, k, v);
    if IndexOf(d, k).Some? {
      IndexOfExtended(d, r, k');
    } else {
      IndexOfAppend(d, Item(k, v), k');
    }
  }

  /** The assignment of one loop key leaves the other loop keys and `status` alone. */
  lemma SetOtherKeys(d: Dict, k: string, v: Value)
    ensures k != "name" ==> Get(Set(d, k, v), "name") == Get(d, "name")
    ensures k != "phone" ==> Get(Set(d, k, v), "phone") == Get(d, "phone")
    ensures k != "time" ==> Get(Set(d, k, v), "time") == Get(d, "time")
    ensures k != "call_time" ==> Get(Set(d, k, v), "call_time") == Get(d, "call_time")
    ensures k != "status" ==> Get(Set(d, k, v), "status") == Get(d, "status")
  {
    if k != "name" { GetSetOther(d, k, v, "name"); }
    if k != "phone" { GetSetOther(d, k, v, "phone"); }
    if k != "time" { GetSetOther(d, k, v, "time"); }
    if k != "call_time" { GetSetOther(d, k, v, "call_time"); }
    if k != "status" { GetSetOther(d, k, v, "status"); }
  }

  lemma KeysExtendedTrans(a: Dict, b: Dict, c: Dict)
    requires KeysExtended(a, b) && KeysExtended(b, c)
    ensures KeysExtended(a, c)
  {
  }

  /** The keys the loop assigns to. */
  predicate Filled(k: string) {
    k == "name" || k == "phone" || k == "time" || k == "call_time"
  }

  /** Every key the loop assigns to is already present, so no assignment inserts one. */
  predicate HasFilledKeys(d: Dict) {
    && IndexOf(d, "name").Some? && IndexOf(d, "phone").Some?
    && IndexOf(d, "time").Some? && IndexOf(d, "call_time").Some?
  }

  /** The keys the handler assigns before the loop. */
  predicate Assigned(k: string) {
    k == "app_name" || k == "client_id" || k == "status" || k == "created_at"
  }

  /** `b` keeps the keys of `a` in place, and the value of every key but the loop keys. */
  predicate OthersKept(a: Dict, b: Dict) {
    KeysExtended(a, b) && forall j :: 0 <= j < |a| && !Filled(a[j].key) ==> b[j] == a[j]
  }

  /** A key other than the loop keys reads the same after the loop. */
  lemma GetOthersKept(a: Dict, b: Dict, k: string)
    requires OthersKept(a, b) && !Filled(k) && IndexOf(a, k).Some?
    ensures Get(b, k) == Get(a, k)
  {
    IndexOfExtended(a, b, k);
  }

  lemma FilledKeysKept(a: Dict, b: Dict)
    requires KeysExtended(a, b) && HasFilledKeys(a)
    ensures HasFilledKeys(b)
  {
    IndexOfExtended(a, b, "name");
    IndexOfExtended(a, b, "phone");
    IndexOfExtended(a, b, "time");
    IndexOfExtended(a, b, "call_time");
  }

  /** Key tests of the scan, on the lower-cased key. */
  predicate NameKey(low: string) { Contains(low, "name") }

  predicate PhoneKey(low: string) { Contains(low, "phone") || Contains(low, "mobile") || Contains(low, "contact") }

  predicate TimeKey(low: string) { Contains(low, "time") || Contains(low, "booking") || Contains(low, "slot") }

  predicate CallTimeKey(low: string) { Contains(low, "preferred_call_time") }

  /** `datetime.strptime(v, "%Y-%m-%dT%H:%M")`; a non-string value raises and is skipped. */
  function ParsedValue(v: Value): (r: Option<DateTime>)
    ensures r.Some? ==> v.Str? && r == ParseFormat(v.text, LetterT)
    ensures r.Some? ==> Valid(r.value) && r.value.second == 0
    ensures !v.Str? ==> r.None?
  {
    if v.Str? then ParseFormat(v.text, LetterT) else None
  }

  /** A `datetime-local` text of a valid minute parses back to that minute. */
  lemma ParsedValueReadsBack(t: DateTime)
    requires Valid(t) && t.second == 0
    ensures ParsedValue(Str(MinuteText(t, 'T'))) == Some(t)
  {
    ParseFormatRoundTrip(t, LetterT);
  }

  /**
   One item of the posted fields that carries a call time, as the scan reads it:
   the key mentions `preferred_call_time`, the value is truthy, and it parses.
   The truthiness test adds nothing, since the empty text never parses.
   */
  function ParsesAt(k: string, v: Value): (r: bool)
    ensures r <==> CallTimeKey(Lower(k)) && v.Str? && ParseFormat(v.text, LetterT).Some?
  {
    CallTimeKey(Lower(k)) && IsTruthy(v) && ParsedValue(v).Some?
  }

  /**
   The `name`, `phone` and `time` assignments for one item `(k, v)`: each is
   filled with `v` when it is not yet truthy and the key mentions it.
   */
  function FillOne(d: Dict, k: string, v: Value): (r: Dict)
    ensures KeysExtended(d, r)
    ensures forall j :: 0 <= j < |d| && !Filled(d[j].key) ==> r[j] == d[j]
    ensures HasFilledKeys(d) ==> |r| == |d|
    ensures Get(r, "name") == if !Present(Get(d, "name")) && NameKey(Lower(k)) then Some(v) else Get(d, "name")
    ensures Get(r, "phone") == if !Present(Get(d, "phone")) && PhoneKey(Lower(k)) then Some(v) else Get(d, "phone")
    ensures Get(r, "time") == if !Present(Get(d, "time")) && TimeKey(Lower(k)) then Some(v) else Get(d, "time")
    ensures Get(r, "call_time") == Get(d, "call_time")
    ensures Get(r, "status") == Get(d, "status")
  {
    var low := Lower(k);
    var d1 := Fill(d, "name", v, NameKey(low));
    var d2 := Fill(d1, "phone", v, PhoneKey(low));
    var d3 := Fill(d2, "time", v, TimeKey(low));
    KeysExtendedTrans(d, d1, d2);
    KeysExtendedTrans(d, d2, d3);
    d3
  }

  /** `if not data.get(field) and mentions: data[field] = v`. */
  function Fill(d: Dict, field: string, v: Value, mentions: bool): (r: Dict)
    requires Filled(field)
    ensures KeysExtended(d, r)
    ensures forall j :: 0 <= j < |d| && d[j].key != field ==> r[j] == d[j]
    ensures HasFilledKeys(d) ==> |r| == |d| && HasFilledKeys(r)
    ensures Get(r, field) == if !Present(Get(d, field)) && mentions then Some(v) else Get(d, field)
    ensures field != "name" ==> Get(r, "name") == Get(d, "name")
    ensures field != "phone" ==> Get(r, "phone") == Get(d, "phone")
    ensures field != "time" ==> Get(r, "time") == Get(d, "time")
    ensures field != "call_time" ==> Get(r, "call_time") == Get(d, "call_time")
    ensures Get(r, "status") == Get(d, "status")
  {
    if !Present(Get(d, field)) && mentions then
      var r := Set(d, field, v);
      SetOtherKeys(d, field, v);
      if HasFilledKeys(d) then FilledKeysKept(d, r); r else r
    else d
  }

  /**
   The loop body for one item `(k, v)`: the field assignments, then a parsed
   call time stored under `call_time`.
   */
  function Visit(d: Dict, k: string, v: Value, ct: Option<DateTime>): (r: (Dict, Option<DateTime>))
    ensures KeysExtended(d, r.0)
    ensures forall j :: 0 <= j < |d| && !Filled(d[j].key) ==> r.0[j] == d[j]
    ensures HasFilledKeys(d) ==> |r.0| == |d|
    ensures Get(r.0, "name") == if !Present(Get(d, "name")) && NameKey(Lower(k)) then Some(v) else Get(d, "name")
    ensures Get(r.0, "phone") == if !Present(Get(d, "phone")) && PhoneKey(Lower(k)) then Some(v) else Get(d, "phone")
    ensures Get(r.0, "time") == if !Present(Get(d, "time")) && TimeKey(Lower(k)) then Some(v) else Get(d, "time")
    ensures ParsesAt(k, v) ==> r.1 == ParsedValue(v) && Get(r.0, "call_time") == Some(Stamp(ParsedValue(v).value))
    ensures !ParsesAt(k, v) ==> r.1 == ct && Get(r.0, "call_time") == Get(d, "call_time")
    ensures Get(r.0, "status") == Get(d, "status")
  {
    var d3 := FillOne(d, k, v);
    if ParsesAt(k, v) then
      var d4 := Set(d3, "call_time", Stamp(ParsedValue(v).value));
      SetOtherKeys(d3, "call_time", Stamp(ParsedValue(v).value));
      KeysExtendedTrans(d, d3, d4);
      if HasFilledKeys(d) then FilledKeysKept(d, d3); (d4, ParsedValue(v)) else (d4, ParsedValue(v))
    else (d3, ct)
  }

  const ChangedSize: string := "dictionary changed size during iteration"

  /** The loop's state: the live dictionary and the call time parsed so far. */
  type State = (Dict, Option<DateTime>)

  /** The loop body at position `i` of the current dictionary. */
  function VisitAt(st: State, i: nat): State {
    if i < |st.0| then Visit(st.0, st.0[i].key, st.0[i].value, st.1) else st
  }

  /**
   `for k, v in data.items()` over a live dictionary that began with `n`
   items, running `body` at each position: the iterator raises as soon as it
   finds the size changed.
   */
  function Walk(st: State, i: nat, n: nat, body: (State, nat) -> State): (r: Result<State>)
    requires i <= n
    ensures r.Err? ==> r == Err(500, ChangedSize)
    ensures r.Ok? ==> |st.0| == n && |r.value.0| == n
    decreases n - i
  {
    if |st.0| != n then Err(500, ChangedSize)
    else if i >= n then Ok(st)
    else Walk(body(st, i), i + 1, n, body)
  }

  /** An invariant that every size-keeping step preserves holds when a walk succeeds. */
  lemma {:induction false} WalkKeeps(st: State, i: nat, n: nat, body: (State, nat) -> State, inv: (State, nat) -> bool)
    requires i <= n && inv(st, i)
    requires forall s: State, j: nat :: i <= j < n && |s.0| == n && inv(s, j) && |body(s, j).0| == n ==> inv(body(s, j), j + 1)
    ensures Walk(st, i, n, body).Ok? ==> inv(Walk(st, i, n, body).value, n)
    decreases n - i
  {
    if |st.0| == n && i < n && |body(st, i).0| == n {
      WalkKeeps(body(st, i), i + 1, n, body, inv);
    }
  }

  /** A walk whose steps keep the size while an invariant holds succeeds. */
  lemma {:induction false} WalkSucceeds(st: State, i: nat, n: nat, body: (State, nat) -> State, inv: (State, nat) -> bool)
    requires i <= n && |st.0| == n && inv(st, i)
    requires forall s: State, j: nat :: i <= j < n && |s.0| == n && inv(s, j) ==> |body(s, j).0| == n && inv(body(s, j), j + 1)
    ensures Walk(st, i, n, body).Ok?
    decreases n - i
  {
    if i < n {
      WalkSucceeds(body(st, i), i + 1, n, body, inv);
    }
  }

  /** A walk that reaches a step growing the dictionary fails. */
  lemma {:induction false} WalkFails(st: State, i: nat, n: nat, body: (State, nat) -> State, inv: (State, nat) -> bool, stop: nat)
    requires i <= stop < n && |st.0| == n && inv(st, i)
    requires forall s: State, j: nat :: i <= j < stop && |s.0| == n && inv(s, j) && |body(s, j).0| == n ==> inv(body(s, j), j + 1)
    requires forall s: State :: |s.0| == n && inv(s, stop) ==> |body(s, stop).0| != n
    ensures Walk(st, i, n, body).Err?
    decreases stop - i
  {
    if i < stop && |body(st, i).0| == n {
      WalkFails(body(st, i), i + 1, n, body, inv, stop);
    }
  }

  /** The scan of `submit_form`: the walk whose body is the loop body above. */
  function Scan(d: Dict, i: nat, n: nat, ct: Option<DateTime>): (r: Result<State>)
    requires i <= n
    ensures r.Err? ==> r == Err(500, ChangedSize)
    ensures r.Ok? ==> |d| == n && |r.value.0| == n
  {
    Walk((d, ct), i, n, VisitAt)
  }

  /**
   A successful scan keeps every key in place and `status` as it was, and
   `call_time` holds the last parsed time (given that it held the one the scan
   started with).
   */
  lemma ScanKeeps(d: Dict, i: nat, n: nat, ct: Option<DateTime>)
    requires i <= n
    ensures var r := Scan(d, i, n, ct);
      r.Ok? ==> SameKeys(d, r.value.0) && Get(r.value.0, "status") == Get(d, "status")
    ensures var r := Scan(d, i, n, ct);
      r.Ok? && r.value.1.Some? && (ct.Some? ==> Get(d, "call_time") == Some(Stamp(ct.value))) ==>
      Get(r.value.0, "call_time") == Some(Stamp(r.value.1.value))
  {
    var start := ct.Some? ==> Get(d, "call_time") == Some(Stamp(ct.value));
    var inv := (s: State, j: nat) =>
      && KeysExtended(d, s.0) && Get(s.0, "status") == Get(d, "status")
      && (start && s.1.Some? ==> Get(s.0, "call_time") == Some(Stamp(s.1.value)));
    forall s: State, j: nat | i <= j < n && |s.0| == n && inv(s, j) && |VisitAt(s, j).0| == n
      ensures inv(VisitAt(s, j), j + 1)
    {
      KeysExtendedTrans(d, s.0, VisitAt(s, j).0);
    }
    WalkKeeps((d, ct), i, n, VisitAt, inv);
  }

  /** When every key the loop assigns to is already present, the dictionary never grows and the scan succeeds. */
  lemma ScanSucceeds(d: Dict, i: nat, n: nat, ct: Option<DateTime>)
    requires i <= n && |d| == n && HasFilledKeys(d)
    ensures Scan(d, i, n, ct).Ok?
  {
    var inv := (s: State, j: nat) => HasFilledKeys(s.0);
    forall s: State, j: nat | i <= j < n && |s.0| == n && inv(s, j)
      ensures |VisitAt(s, j).0| == n && inv(VisitAt(s, j), j + 1)
    {
      FilledKeysKept(s.0, VisitAt(s, j).0);
    }
    WalkSucceeds((d, ct), i, n, VisitAt, inv);
  }

  /** The call time a walk from position `j` of `s` ends with, compared with the whole scan from `i` of `d`. */
  predicate SameLastTime(d: Dict, i: nat, ct: Option<DateTime>, s: State, j: nat) {
    j <= |s.0| && i <= |d| && Overwrite(s.0[j..], CallTimeHit, s.1) == Overwrite(d[i..], CallTimeHit, ct)
  }

  lemma SameLastTimeStep(d: Dict, i: nat, ct: Option<DateTime>, n: nat)
    ensures forall s: State, j: nat :: j < n && |s.0| == n && SameLastTime(d, i, ct, s, j) && |VisitAt(s, j).0| == n ==>
      SameLastTime(d, i, ct, VisitAt(s, j), j + 1)
  {
    forall s: State, j: nat | j < n && |s.0| == n && SameLastTime(d, i, ct, s, j) && |VisitAt(s, j).0| == n
      ensures SameLastTime(d, i, ct, VisitAt(s, j), j + 1)
    {
      VisitAtHits(s, j);
    }
  }

  /** A successful scan ends with the call time of the last item from position `i` on that parses. */
  lemma ScanCallTime(d: Dict, i: nat, n: nat, ct: Option<DateTime>)
    requires i <= n && Scan(d, i, n, ct).Ok?
    ensures i <= |d| && Scan(d, i, n, ct).value.1 == Overwrite(d[i..], CallTimeHit, ct)
  {
    SameLastTimeStep(d, i, ct, n);
    WalkKeeps((d, ct), i, n, VisitAt, (s: State, j: nat) => SameLastTime(d, i, ct, s, j));
    var r := Scan(d, i, n, ct).value;
    assert r.0[n..] == [];
  }

  /** `call_time` is as in `d`, and no item from position `j` of `s` on carries a call time. */
  predicate NoLaterTime(d: Dict, s: State, j: nat) {
    Get(s.0, "call_time") == Get(d, "call_time") && forall m :: j <= m < |s.0| ==> CallTimeHit(s.0[m]).None?
  }

  lemma NoLaterTimeStep(d: Dict, n: nat)
    ensures forall s: State, j: nat :: j < n && |s.0| == n && NoLaterTime(d, s, j) && |VisitAt(s, j).0| == n ==>
      NoLaterTime(d, VisitAt(s, j), j + 1)
  {
    forall s: State, j: nat | j < n && |s.0| == n && NoLaterTime(d, s, j) && |VisitAt(s, j).0| == n
      ensures NoLaterTime(d, VisitAt(s, j), j + 1)
    {
      VisitAtHits(s, j);
    }
  }

  /** A successful scan in which no item from position `i` on parses leaves `call_time` as it was. */
  lemma ScanKeepsCallTime(d: Dict, i: nat, n: nat, ct: Option<DateTime>)
    requires i <= n && Scan(d, i, n, ct).Ok?
    requires forall j :: i <= j < |d| ==> CallTimeHit(d[j]).None?
    ensures Get(Scan(d, i, n, ct).value.0, "call_time") == Get(d, "call_time")
  {
    NoLaterTimeStep(d, n);
    WalkKeeps((d, ct), i, n, VisitAt, (s: State, j: nat) => NoLaterTime(d, s, j));
  }

  /**
   While `name` is not a key, reaching the `app_name` item (which mentions
   "name") inserts `name`, and the iterator raises.
   */
  lemma ScanFailsWithoutName(d: Dict, i: nat, n: nat, ct: Option<DateTime>, j: nat)
    requires |d| == n && i <= j < n && d[j].key == "app_name"
    requires IndexOf(d, "name").None?
    ensures Scan(d, i, n, ct).Err?
  {
    NoNameStep(j, n);
    WalkFails((d, ct), i, n, VisitAt, (s: State, m: nat) => NoName(s, j), j);
  }

  /** `name` is not a key of `s`, and its item at position `j` is `app_name`. */
  predicate NoName(s: State, j: nat) {
    j < |s.0| && s.0[j].key == "app_name" && IndexOf(s.0, "name").None?
  }

  lemma NoNameStep(j: nat, n: nat)
    ensures forall s: State, m: nat :: m < j && |s.0| == n && NoName(s, j) && |VisitAt(s, m).0| == n ==>
      NoName(VisitAt(s, m), j)
    ensures forall s: State :: |s.0| == n && NoName(s, j) ==> |VisitAt(s, j).0| != n
  {
    forall s: State, m: nat | m < j && |s.0| == n && NoName(s, j) && |VisitAt(s, m).0| == n
      ensures NoName(VisitAt(s, m), j)
    {
      IndexOfExtended(s.0, VisitAt(s, m).0, "name");
    }
    forall s: State | |s.0| == n && NoName(s, j)
      ensures |VisitAt(s, j).0| != n
    {
      AppNameMentionsName();
      IndexOfExtended(s.0, VisitAt(s, j).0, "name");
    }
  }

  lemma AppNameMentionsName()
    ensures NameKey(Lower("app_name"))
  {
    LowerFixed("app_name");
    assert "app_name"[4..] == "name";
    ContainsFrom("app_name", "name", 4);
  }

  /**
   One size-keeping step, seen from the call time: the items after position
   `j` carry the same call times as before, so the rest of the scan ends with
   the time the whole of the items from `j` on would give.
   */
  lemma VisitAtHits(s: State, j: nat)
    requires j < |s.0| && |VisitAt(s, j).0| == |s.0|
    ensures Overwrite(s.0[j..], CallTimeHit, s.1) == Overwrite(VisitAt(s, j).0[j + 1..], CallTimeHit, VisitAt(s, j).1)
    ensures (forall m :: j <= m < |s.0| ==> CallTimeHit(s.0[m]).None?) ==>
      VisitAt(s, j).1 == s.1 && Get(VisitAt(s, j).0, "call_time") == Get(s.0, "call_time") &&
      forall m :: j + 1 <= m < |s.0| ==> CallTimeHit(VisitAt(s, j).0[m]).None?
  {
    var e := VisitAt(s, j);
    VisitHit(s.0, j, s.1);
    ScanStep(s.0, e.0, j, s.1, e.1);
  }

  /** The call time after visiting item `i` is the one it carries, if any. */
  lemma VisitHit(d: Dict, i: nat, ct: Option<DateTime>)
    requires i < |d|
    ensures Visit(d, d[i].key, d[i].value, ct).1 == match CallTimeHit(d[i]) case Some(u) => u case None => ct
  {
  }

  /** A loop key never mentions `preferred_call_time`, so its item never carries a call time. */
  lemma FilledKeyCarriesNoCallTime(k: string)
    requires Filled(k)
    ensures !CallTimeKey(Lower(k))
  {
    ContainsShort(Lower(k), "preferred_call_time");
  }

  /**
   One step of the scan, seen from the call time: the items after position `i`
   carry the same call times before and after the step, so the rest of the scan
   ends with the time the whole of `d[i..]` would give.
   */
  lemma ScanStep(d: Dict, e: Dict, i: nat, ct: Option<DateTime>, ct': Option<DateTime>)
    requires i < |d| && |e| == |d| && KeysExtended(d, e)
    requires forall j :: 0 <= j < |d| && !Filled(d[j].key) ==> e[j] == d[j]
    requires ct' == match CallTimeHit(d[i]) case Some(u) => u case None => ct
    ensures Overwrite(d[i..], CallTimeHit, ct) == Overwrite(e[i + 1..], CallTimeHit, ct')
    ensures (forall j :: i <= j < |d| ==> CallTimeHit(d[j]).None?) ==>
      forall j :: i + 1 <= j < |e| ==> CallTimeHit(e[j]).None?
  {
    forall j | 0 <= j < |d|
      ensures CallTimeHit(e[j]) == CallTimeHit(d[j])
    {
      if Filled(d[j].key) {
        FilledKeyCarriesNoCallTime(d[j].key);
      }
    }
    assert d[i..][1..] == d[i + 1..];
    OverwriteSameHits(d[i + 1..], e[i + 1..], CallTimeHit, ct');
  }

  /** Four assignments, to the four assigned keys in turn, keep every other value in place. */
  lemma SetsKeep(a: Dict, b: Dict, c: Dict, d: Dict, e: Dict)
    requires KeysExtended(a, b) && forall j :: 0 <= j < |a| && a[j].key != "app_name" ==> b[j] == a[j]
    requires KeysExtended(b, c) && forall j :: 0 <= j < |b| && b[j].key != "client_id" ==> c[j] == b[j]
    requires KeysExtended(c, d) && forall j :: 0 <= j < |c| && c[j].key != "status" ==> d[j] == c[j]
    requires KeysExtended(d, e) && forall j :: 0 <= j < |d| && d[j].key != "created_at" ==> e[j] == d[j]
    ensures forall j :: 0 <= j < |a| && !Assigned(a[j].key) ==> e[j] == a[j]
  {
  }

  /**
   The dictionary after the handler's four assignments before the loop:
   `app_name`, `client_id`, `status` and `created_at` are set, every posted key
   keeps its place, and the loop keys keep their posted values.
   */
  function Prepare(form: Dict, appName: string, clientId: Value, now: DateTime): (r: Dict)
    ensures KeysExtended(form, r)
    ensures Get(r, "app_name") == Some(Str(appName)) && Get(r, "client_id") == Some(clientId)
    ensures Get(r, "status") == Some(Str("PENDING")) && Get(r, "created_at") == Some(Stamp(now))
    ensures Get(r, "name") == Get(form, "name") && Get(r, "phone") == Get(form, "phone")
    ensures Get(r, "time") == Get(form, "time") && Get(r, "call_time") == Get(form, "call_time")
    ensures HasFilledKeys(form) ==> HasFilledKeys(r)
    ensures forall j :: 0 <= j < |form| && !Assigned(form[j].key) ==> r[j] == form[j]
  {
    var d1 := Set(form, "app_name", Str(appName));
    var d2 := Set(d1, "client_id", clientId);
    var d3 := Set(d2, "status", Str("PENDING"));
    var d4 := Set(d3, "created_at", Stamp(now));
    SetOtherKeys(form, "app_name", Str(appName));
    SetOtherKeys(d1, "client_id", clientId);
    SetOtherKeys(d2, "status", Str("PENDING"));
    SetOtherKeys(d3, "created_at", Stamp(now));
    GetSetOther(d1, "client_id", clientId, "app_name");
    GetSetOther(d2, "status", Str("PENDING"), "app_name");
    GetSetOther(d3, "created_at", Stamp(now), "app_name");
    GetSetOther(d2, "status", Str("PENDING"), "client_id");
    GetSetOther(d3, "created_at", Stamp(now), "client_id");
    KeysExtendedTrans(form, d1, d2);
    KeysExtendedTrans(form, d2, d3);
    KeysExtendedTrans(form, d3, d4);
    SetsKeep(form, d1, d2, d3, d4);
    if HasFilledKeys(form) then FilledKeysKept(form, d4); d4 else d4
  }

  /** A truthy `name`, `phone` or `time` of `d` is still the value in `s`. */
  predicate KeptIfPresent(d: Dict, s: State, j: nat) {
    && (Present(Get(d, "name")) ==> Get(s.0, "name") == Get(d, "name"))
    && (Present(Get(d, "phone")) ==> Get(s.0, "phone") == Get(d, "phone"))
    && (Present(Get(d, "time")) ==> Get(s.0, "time") == Get(d, "time"))
  }

  lemma KeptIfPresentStep(d: Dict, n: nat)
    ensures forall s: State, j: nat :: j < n && |s.0| == n && KeptIfPresent(d, s, j) && |VisitAt(s, j).0| == n ==>
      KeptIfPresent(d, VisitAt(s, j), j + 1)
  {
  }

  /** A successful scan never overwrites a truthy `name`, `phone` or `time`. */
  lemma ScanKeepsPresent(d: Dict, i: nat, n: nat, ct: Option<DateTime>)
    requires i <= n && Scan(d, i, n, ct).Ok?
    ensures KeptIfPresent(d, Scan(d, i, n, ct).value, n)
  {
    KeptIfPresentStep(d, n);
    WalkKeeps((d, ct), i, n, VisitAt, (s: State, j: nat) => KeptIfPresent(d, s, j));
  }

  lemma OthersKeptStep(d: Dict, n: nat)
    ensures forall s: State, j: nat :: j < n && |s.0| == n && OthersKept(d, s.0) && |VisitAt(s, j).0| == n ==>
      OthersKept(d, VisitAt(s, j).0)
  {
    forall s: State, j: nat | j < n && |s.0| == n && OthersKept(d, s.0) && |VisitAt(s, j).0| == n
      ensures OthersKept(d, VisitAt(s, j).0)
    {
      KeysExtendedTrans(d, s.0, VisitAt(s, j).0);
    }
  }

  /** A successful scan changes no value but those of the loop keys. */
  lemma ScanKeepsOthers(d: Dict, i: nat, n: nat, ct: Option<DateTime>)
    requires i <= n && Scan(d, i, n, ct).Ok?
    ensures OthersKept(d, Scan(d, i, n, ct).value.0)
  {
    OthersKeptStep(d, n);
    WalkKeeps((d, ct), i, n, VisitAt, (s: State, j: nat) => OthersKept(d, s.0));
  }

  /**
   A dictionary that keeps the prepared one's other values holds every posted
   value outside the loop keys and the assigned keys, and the handler's own
   `app_name`, `client_id` and `created_at`.
   */
  lemma PreparedKept(form: Dict, data: Dict, appName: string, clientId: Value, now: DateTime, e: Dict)
    requires KeysExtended(form, data) && forall j :: 0 <= j < |form| && !Assigned(form[j].key) ==> data[j] == form[j]
    requires Get(data, "app_name") == Some(Str(appName)) && Get(data, "client_id") == Some(clientId)
    requires Get(data, "created_at") == Some(Stamp(now))
    requires OthersKept(data, e)
    ensures forall j :: 0 <= j < |form| && !Filled(form[j].key) && !Assigned(form[j].key) ==> e[j] == form[j]
    ensures Get(e, "app_name") == Some(Str(appName)) && Get(e, "client_id") == Some(clientId)
    ensures Get(e, "created_at") == Some(Stamp(now))
  {
    GetOthersKept(data, e, "app_name");
    GetOthersKept(data, e, "client_id");
    GetOthersKept(data, e, "created_at");
  }

  /** Nothing hits when the last hit is absent. */
  lemma NoCallTimeHit(items: Dict)
    requires LastCallTime(items).None?
    ensures forall j :: 0 <= j < |items| ==> CallTimeHit(items[j]).None?
  {
  }

  /**
   The scan of the prepared dictionary: it succeeds whenever the loop keys are
   all posted, and a successful one ends with the last parsed call time, stored
   under `call_time` (or the posted `call_time` when nothing parsed).
   */
  lemma ScanPrepared(form: Dict, appName: string, clientId: Value, now: DateTime)
    ensures var data := Prepare(form, appName, clientId, now);
      HasFilledKeys(form) ==> Scan(data, 0, |data|, None).Ok?
    ensures var data := Prepare(form, appName, clientId, now);
      var r := Scan(data, 0, |data|, None);
      r.Ok? ==>
        && SameKeys(data, r.value.0) && Get(r.value.0, "status") == Some(Str("PENDING"))
        && r.value.1 == LastCallTime(data)
        && (r.value.1.Some? ==> Get(r.value.0, "call_time") == Some(Stamp(r.value.1.value)))
        && (r.value.1.None? ==> Get(r.value.0, "call_time") == Get(form, "call_time"))
        && KeptIfPresent(form, r.value, |data|)
        && OthersKept(data, r.value.0)
  {
    var data := Prepare(form, appName, clientId, now);
    if HasFilledKeys(form) {
      ScanSucceeds(data, 0, |data|, None);
    }
    ScanKeeps(data, 0, |data|, None);
    if Scan(data, 0, |data|, None).Ok? {
      ScanCallTime(data, 0, |data|, None);
      assert data[0..] == data;
      ScanKeepsPresent(data, 0, |data|, None);
      ScanKeepsOthers(data, 0, |data|, None);
      if LastCallTime(data).None? {
        NoCallTimeHit(data);
        ScanKeepsCallTime(data, 0, |data|, None);
      }
    }
  }

  /**
   `submit_form` as written: the scan over the live dictionary, then the year
   repair of the local call time (which can raise), and the document stored is
   the scanned dictionary with its unrepaired `call_time`. With every loop key
   posted it fails only when the repair raises.
   */
  function SubmitForm(form: Dict, appName: string, clientId: Value, now: DateTime, currentYear: int): (r: Result<Dict>)
    ensures r.Err? ==> r.code == 500
    ensures var ct := LastCallTime(Prepare(form, appName, clientId, now));
      r.Ok? ==> !(ct.Some? && FixYear(ct.value, currentYear).Err?)
    ensures var ct := LastCallTime(Prepare(form, appName, clientId, now));
      HasFilledKeys(form) && !(ct.Some? && FixYear(ct.value, currentYear).Err?) ==> r.Ok?
    ensures r.Ok? ==> SameKeys(Prepare(form, appName, clientId, now), r.value)
    ensures r.Ok? ==> Get(r.value, "status") == Some(Str("PENDING"))
    ensures var ct := LastCallTime(Prepare(form, appName, clientId, now));
      r.Ok? && ct.Some? ==> Get(r.value, "call_time") == Some(Stamp(ct.value))
    ensures var ct := LastCallTime(Prepare(form, appName, clientId, now));
      r.Ok? && ct.None? ==> Get(r.value, "call_time") == Get(form, "call_time")
    ensures r.Ok? && Present(Get(form, "name")) ==> Get(r.value, "name") == Get(form, "name")
    ensures r.Ok? && Present(Get(form, "phone")) ==> Get(r.value, "phone") == Get(form, "phone")
    ensures r.Ok? && Present(Get(form, "time")) ==> Get(r.value, "time") == Get(form, "time")
    ensures r.Ok? ==> forall j :: 0 <= j < |form| && !Filled(form[j].key) && !Assigned(form[j].key) ==> r.value[j] == form[j]
    ensures r.Ok? ==> Get(r.value, "app_name") == Some(Str(appName)) && Get(r.value, "client_id") == Some(clientId)
    ensures r.Ok? ==> Get(r.value, "created_at") == Some(Stamp(now))
  {
    var data := Prepare(form, appName, clientId, now);
    ScanPrepared(form, appName, clientId, now);
    match Scan(data, 0, |data|, None)
    case Err(code, message) => Err(code, message)
    case Ok(res) =>
      PreparedKept(form, data, appName, clientId, now, res.0);
      if res.1.Some? && FixYear(res.1.value, currentYear).Err? then Err(500, "day is out of range for month")
      else Ok(res.0)
  }

  /**
   A posted form with no field called exactly `name` is never stored: the
   handler fails with "dictionary changed size during iteration".
   */
  lemma NoNameFieldFails(form: Dict, appName: string, clientId: Value, now: DateTime, currentYear: int)
    requires IndexOf(form, "name").None?
    ensures SubmitForm(form, appName, clientId, now, currentYear) == Err(500, ChangedSize)
  {
    var data := Prepare(form, appName, clientId, now);
    var j := IndexOf(data, "app_name").value;
    ScanFailsWithoutName(data, 0, |data|, None, j);
  }

  /**
   The stored call time is the raw parsed one: a year-26 time is stored with
   year 26, not the 2026 the repair computes.
   */
  lemma StoredCallTimeIsUnrepaired(form: Dict, appName: string, clientId: Value, now: DateTime, currentYear: int, t: DateTime)
    requires HasFilledKeys(form) && LastCallTime(Prepare(form, appName, clientId, now)) == Some(t)
    requires t.year == 26 && FixYear(t, currentYear).Ok?
    ensures SubmitForm(form, appName, clientId, now, currentYear).Ok?
    ensures Get(SubmitForm(form, appName, clientId, now, currentYear).value, "call_time") == Some(Stamp(t))
    ensures FixYear(t, currentYear).value.year == 2026
  {
  }

  // ---------------------------------------------------------------------------
  // submit_form as evidently intended: scan a snapshot, store the repaired time
  // ---------------------------------------------------------------------------

  /** One snapshot item's call time, if it carries one. */
  function CallTimeHit(it: Item): (r: Option<Option<DateTime>>)
    ensures r.Some? <==> ParsesAt(it.key, it.value)
    ensures r.Some? ==> it.value.Str? && r.value == ParseFormat(it.value.text, LetterT) && r.value.Some?
  {
    if ParsesAt(it.key, it.value) then Some(ParsedValue(it.value)) else None
  }

  /** The call time the scan ends with: the last item that parses. */
  function LastCallTime(items: Dict): (r: Option<DateTime>)
    ensures r == match LastHit(items, CallTimeHit)
      case Some(i) => ParsedValue(items[i].value)
      case None => None
  {
    OverwriteIsLastHit(items, CallTimeHit, None);
    Overwrite(items, CallTimeHit, None)
  }

  /** The `name`/`phone`/`time` assignments over a snapshot of the items; nothing is inserted while iterating. */
  function FillFields(items: Dict, d: Dict): (r: Dict)
    ensures OthersKept(d, r)
    ensures Get(r, "call_time") == Get(d, "call_time")
    ensures Get(r, "status") == Get(d, "status")
  {
    if |items| == 0 then d
    else
      var d' := FillOne(d, items[0].key, items[0].value);
      var r := FillFields(items[1..], d');
      KeysExtendedTrans(d, d', r);
      r
  }

  /** The fields the loop fills: `name`, `phone` and `time`. */
  predicate LoopField(f: string) {
    f == "name" || f == "phone" || f == "time"
  }

  /** Whether a lower-cased key mentions loop field `f`. */
  predicate Mentioned(f: string, low: string) {
    if f == "name" then NameKey(low) else if f == "phone" then PhoneKey(low) else TimeKey(low)
  }

  /** An item's value for field `f`, when its key mentions `f`. */
  function FieldHit(f: string): Item -> Option<Option<Value>> {
    (it: Item) => if Mentioned(f, Lower(it.key)) then Some(Some(it.value)) else None
  }

  /** Item `i` mentions `f` and carries a truthy value. */
  predicate TruthyHit(items: Dict, f: string, i: int) {
    0 <= i < |items| && Mentioned(f, Lower(items[i].key)) && IsTruthy(items[i].value)
  }

  /** No item mentions `f` with a truthy value. */
  predicate NoTruthyHit(items: Dict, f: string) {
    forall i :: 0 <= i < |items| ==> !TruthyHit(items, f, i)
  }

  /** With no truthy candidate, the last mentioning item's value wins, or `cur` stays. */
  predicate FallbackRule(items: Dict, f: string, cur: Option<Value>, r: Option<Value>) {
    !Present(cur) && NoTruthyHit(items, f) ==> r == Overwrite(items, FieldHit(f), cur)
  }

  /** When the field was not truthy, the first truthy candidate wins. */
  predicate FirstTruthyRule(items: Dict, f: string, cur: Option<Value>, r: Option<Value>) {
    forall i :: 0 <= i < |items| && !Present(cur) && TruthyHit(items, f, i) && (forall j :: 0 <= j < i ==> !TruthyHit(items, f, j)) ==>
      r == Some(items[i].value)
  }

  /**
   What the loop leaves in field `f` when it held `cur` before: a truthy value
   stays; otherwise the first mentioning item with a truthy value wins; when
   there is none, the value of the last mentioning item, or `cur` when no item
   mentions `f`.
   */
  predicate LoopFilled(items: Dict, f: string, cur: Option<Value>, r: Option<Value>) {
    (Present(cur) ==> r == cur) && FallbackRule(items, f, cur, r) && FirstTruthyRule(items, f, cur, r)
  }

  lemma FillOneField(d: Dict, k: string, v: Value, f: string)
    requires LoopField(f)
    ensures Get(FillOne(d, k, v), f) == if !Present(Get(d, f)) && Mentioned(f, Lower(k)) then Some(v) else Get(d, f)
  {
  }

  /** The snapshot loop fills each loop field by the rule `LoopFilled` states. */
  lemma {:induction false} FillFieldsFills(items: Dict, d: Dict, f: string)
    requires LoopField(f)
    ensures LoopFilled(items, f, Get(d, f), Get(FillFields(items, d), f))
    decreases |items|
  {
    if |items| > 0 {
      var d' := FillOne(d, items[0].key, items[0].value);
      FillOneField(d, items[0].key, items[0].value, f);
      FillFieldsFills(items[1..], d', f);
      LoopFilledStep(items, f, Get(d, f), Get(d', f), Get(FillFields(items, d), f));
    }
  }

  /** The candidates of the tail are those of the items, one position on. */
  lemma TruthyShift(items: Dict, f: string)
    requires |items| > 0
    ensures forall j :: 0 <= j < |items| - 1 ==> (TruthyHit(items[1..], f, j) <==> TruthyHit(items, f, j + 1))
  {
    forall j | 0 <= j < |items| - 1
      ensures TruthyHit(items[1..], f, j) <==> TruthyHit(items, f, j + 1)
    {
      assert items[1..][j] == items[j + 1];
    }
  }

  /** The fallback rule for the items follows from one fill and the rule for the rest. */
  lemma FallbackStep(items: Dict, f: string, cur: Option<Value>, cur': Option<Value>, r: Option<Value>)
    requires |items| > 0
    requires cur' == if !Present(cur) && Mentioned(f, Lower(items[0].key)) then Some(items[0].value) else cur
    requires FallbackRule(items[1..], f, cur', r)
    ensures FallbackRule(items, f, cur, r)
  {
    if !Present(cur) && NoTruthyHit(items, f) {
      assert !TruthyHit(items, f, 0);
      assert !Present(cur');
      TruthyShift(items, f);
      assert NoTruthyHit(items[1..], f) by {
        forall j | 0 <= j < |items| - 1
          ensures !TruthyHit(items[1..], f, j)
        {
          assert !TruthyHit(items, f, j + 1);
        }
      }
      assert Overwrite(items, FieldHit(f), cur) == Overwrite(items[1..], FieldHit(f), cur');
    }
  }

  /** The first-truthy rule for the items follows from one fill and the rules for the rest. */
  lemma FirstTruthyStep(items: Dict, f: string, cur: Option<Value>, cur': Option<Value>, r: Option<Value>)
    requires |items| > 0
    requires cur' == if !Present(cur) && Mentioned(f, Lower(items[0].key)) then Some(items[0].value) else cur
    requires Present(cur') ==> r == cur'
    requires FirstTruthyRule(items[1..], f, cur', r)
    ensures FirstTruthyRule(items, f, cur, r)
  {
    if !Present(cur) && !TruthyHit(items, f, 0) {
      assert !Present(cur');
      TruthyShift(items, f);
      forall i | 0 < i < |items| && TruthyHit(items, f, i) && (forall j :: 0 <= j < i ==> !TruthyHit(items, f, j))
        ensures r == Some(items[i].value)
      {
        assert items[1..][i - 1] == items[i];
        assert TruthyHit(items[1..], f, i - 1);
        forall j | 0 <= j < i - 1
          ensures !TruthyHit(items[1..], f, j)
        {
          assert !TruthyHit(items, f, j + 1);
        }
      }
    }
  }

  /** The rule `LoopFilled` for the items follows from one fill and the rule for the rest. */
  lemma LoopFilledStep(items: Dict, f: string, cur: Option<Value>, cur': Option<Value>, r: Option<Value>)
    requires |items| > 0
    requires cur' == if !Present(cur) && Mentioned(f, Lower(items[0].key)) then Some(items[0].value) else cur
    requires LoopFilled(items[1..], f, cur', r)
    ensures LoopFilled(items, f, cur, r)
  {
    FallbackStep(items, f, cur, cur', r);
    FirstTruthyStep(items, f, cur, cur', r);
  }

  /**
   `submit_form` iterating over `list(data.items())` and storing the repaired
   call time: it fails only when the repair raises, keeps every posted key in
   place, and stores a year from 2000 on.
   */
  function SubmitFormRepaired(form: Dict, appName: string, clientId: Value, now: DateTime, currentYear: int): (r: Result<Dict>)
    ensures var ct := LastCallTime(Prepare(form, appName, clientId, now));
      r.Err? <==> ct.Some? && FixYear(ct.value, currentYear).Err?
    ensures r.Ok? ==> KeysExtended(Prepare(form, appName, clientId, now), r.value)
    ensures r.Ok? ==> Get(r.value, "status") == Some(Str("PENDING"))
    ensures var ct := LastCallTime(Prepare(form, appName, clientId, now));
      r.Ok? && ct.Some? ==> Get(r.value, "call_time") == Some(Stamp(FixYear(ct.value, currentYear).value))
    ensures var ct := LastCallTime(Prepare(form, appName, clientId, now));
      r.Ok? && ct.Some? && currentYear >= 2000 ==> FixYear(ct.value, currentYear).value.year >= 2000
    ensures r.Ok? ==> LoopFilled(Prepare(form, appName, clientId, now), "name", Get(form, "name"), Get(r.value, "name"))
    ensures r.Ok? ==> LoopFilled(Prepare(form, appName, clientId, now), "phone", Get(form, "phone"), Get(r.value, "phone"))
    ensures r.Ok? ==> LoopFilled(Prepare(form, appName, clientId, now), "time", Get(form, "time"), Get(r.value, "time"))
    ensures r.Ok? ==> forall j :: 0 <= j < |form| && !Filled(form[j].key) && !Assigned(form[j].key) ==> r.value[j] == form[j]
    ensures r.Ok? ==> Get(r.value, "app_name") == Some(Str(appName)) && Get(r.value, "client_id") == Some(clientId)
    ensures r.Ok? ==> Get(r.value, "created_at") == Some(Stamp(now))
  {
    var data := Prepare(form, appName, clientId, now);
    var d := FillFields(data, data);
    match LastCallTime(data)
    case None =>
      PreparedFills(form, appName, clientId, now, d);
      PreparedKept(form, data, appName, clientId, now, d);
      Ok(d)
    case Some(t) =>
      match FixYear(t, currentYear)
      case Err(code, message) => Err(code, message)
      case Ok(fixed) =>
        var r := Set(d, "call_time", Stamp(fixed));
        SetOtherKeys(d, "call_time", Stamp(fixed));
        KeysExtendedTrans(data, d, r);
        PreparedFills(form, appName, clientId, now, r);
        PreparedKept(form, data, appName, clientId, now, r);
        Ok(r)
  }

  /** A dictionary that agrees with the filled one on the loop fields holds the fills `LoopFilled` states. */
  lemma PreparedFills(form: Dict, appName: string, clientId: Value, now: DateTime, e: Dict)
    requires var data := Prepare(form, appName, clientId, now);
      Get(e, "name") == Get(FillFields(data, data), "name") && Get(e, "phone") == Get(FillFields(data, data), "phone")
      && Get(e, "time") == Get(FillFields(data, data), "time")
    ensures LoopFilled(Prepare(form, appName, clientId, now), "name", Get(form, "name"), Get(e, "name"))
    ensures LoopFilled(Prepare(form, appName, clientId, now), "phone", Get(form, "phone"), Get(e, "phone"))
    ensures LoopFilled(Prepare(form, appName, clientId, now), "time", Get(form, "time"), Get(e, "time"))
  {
    var data := Prepare(form, appName, clientId, now);
    FillFieldsFills(data, data, "name");
    FillFieldsFills(data, data, "phone");
    FillFieldsFills(data, data, "time");
  }

  /** The corrected handler accepts a form without a `name` field. */
  lemma RepairedAcceptsNoNameField(form: Dict, appName: string, clientId: Value, now: DateTime, currentYear: int)
    requires IndexOf(form, "name").None?
    requires LastCallTime(Prepare(form, appName, clientId, now)).None?
    ensures SubmitFormRepaired(form, appName, clientId, now, currentYear).Ok?
  {
  }
}
