/**
 Phone-number normalisation before handing a number to the telephony provider.

 The source repeats the rule three times. `trigger_voice_call` and
 `notify_client_sms` share one variant (`ForCall`): keep the digits, prefix
 `+91` to exactly ten of them, otherwise prefix `+` unless the raw input
 already starts with `+`. `send_status_sms` (`ForStatusSms`) adds a branch for
 twelve digits starting with `91`.
 */
module Phone {
  import opened Wrappers
  import opened Text

  /** India's country code, prefixed to ten-digit national numbers. */
  const CountryCode: string := "91"

  /** `s` is `+` followed by nothing but digits. */
  predicate PlusDigits(s: string) {
    |s| > 0 && s[0] == '+' && forall i :: 1 <= i < |s| ==> IsDigit(s[i])
  }

  /** A ten-digit national number, or twelve digits already carrying the country code. */
  predicate IsIndian(d: string) {
    |d| == 10 || (|d| == 12 && StartsWith(d, CountryCode))
  }

  /** The digits a normalised number carries: the country code is added to ten digits, nothing else changes. */
  function DialledDigits(phone: string): string {
    var d := Digits(phone);
    if |d| == 10 then CountryCode + d else d
  }

  lemma PlusDigitsDigits(d: string)
    requires forall i :: 0 <= i < |d| ==> IsDigit(d[i])
    ensures PlusDigits("+" + d)
    ensures Digits("+" + d) == d
  {
    DigitsAppend("+", d);
    DigitsOfDigits(d);
  }

  /** The number `trigger_voice_call` and `notify_client_sms` dial or text. */
  function ForCall(phone: string): (r: string)
    ensures |r| > 0 && r[0] == '+'
    ensures Digits(r) == DialledDigits(phone)
    ensures |Digits(phone)| == 10 || !StartsWith(phone, "+") ==> PlusDigits(r)
    ensures |Digits(phone)| != 10 && StartsWith(phone, "+") ==> r == phone
  {
    var d := Digits(phone);
    PlusDigitsDigits(d);
    PlusDigitsDigits(CountryCode + d);
    if |d| == 10 then "+" + (CountryCode + d)
    else if !StartsWith(phone, "+") then "+" + d
    else phone
  }

  /** The number `send_status_sms` texts. */
  function ForStatusSms(phone: string): (r: string)
    ensures |r| > 0 && r[0] == '+'
    ensures Digits(r) == DialledDigits(phone)
    ensures IsIndian(Digits(phone)) || !StartsWith(phone, "+") ==> PlusDigits(r)
    ensures !IsIndian(Digits(phone)) && StartsWith(phone, "+") ==> r == phone
  {
    var d := Digits(phone);
    PlusDigitsDigits(d);
    PlusDigitsDigits(CountryCode + d);
    if |d| == 10 then "+" + (CountryCode + d)
    else if StartsWith(d, CountryCode) && |d| == 12 then "+" + d
    else if !StartsWith(phone, "+") then "+" + d
    else phone
  }

  /** Normalising an already normalised call number changes nothing. */
  lemma ForCallIdempotent(phone: string)
    ensures ForCall(ForCall(phone)) == ForCall(phone)
  {
  }

  /** Normalising an already normalised SMS number changes nothing. */
  lemma ForStatusSmsIdempotent(phone: string)
    ensures ForStatusSms(ForStatusSms(phone)) == ForStatusSms(phone)
  {
    var r := ForStatusSms(phone);
    var d := Digits(phone);
    if |d| == 10 {
      assert Digits(r) == CountryCode + d;
      assert StartsWith(Digits(r), CountryCode);
    }
  }

  /**
   The two variants disagree exactly on a `+`-prefixed input holding twelve
   digits that start with `91` but written with other characters in between
   (such as `+91 98765 43210`): the SMS variant re-formats it, the call variant
   passes it through.
   */
  lemma VariantsDifferExactly(phone: string)
    ensures ForCall(phone) != ForStatusSms(phone) <==>
      && StartsWith(phone, "+")
      && |Digits(phone)| == 12
      && StartsWith(Digits(phone), CountryCode)
      && phone != "+" + Digits(phone)
  {
  }

  /** `send_status_sms` skips the message when the booking has no (or an empty) phone. */
  function StatusSmsTarget(phone: Option<string>): (r: Option<string>)
    ensures r.Some? <==> phone.Some? && phone.value != ""
    ensures r.Some? ==> r.value == ForStatusSms(phone.value)
    ensures r.Some? ==> Digits(r.value) == DialledDigits(phone.value) && |r.value| > 0 && r.value[0] == '+'
  {
    if phone.Some? && phone.value != "" then Some(ForStatusSms(phone.value)) else None
  }

  /**
   `notify_client_sms`: the client's `phone` field, or its `number` field when
   `phone` is missing or empty; no message when neither holds a number.
   */
  function ClientAlertTarget(phone: Option<string>, number: Option<string>): (r: Option<string>)
    ensures r.Some? <==> (phone.Some? && phone.value != "") || (number.Some? && number.value != "")
    ensures phone.Some? && phone.value != "" ==> r == Some(ForCall(phone.value))
    ensures (phone.None? || phone.value == "") && number.Some? && number.value != "" ==>
      r == Some(ForCall(number.value))
  {
    var chosen := if phone.Some? && phone.value != "" then phone else number;
    if chosen.Some? && chosen.value != "" then Some(ForCall(chosen.value)) else None
  }
}
