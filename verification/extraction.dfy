/**
 How `api_submit` finds the submitter's name, phone and preferred time in a
 dynamic form submission.

 A form's schema is a list of fields with a label and a name; a submission is
 a key/value map keyed by label or by name, depending on the client that
 posts it. Four layers decide each value:
 1. the schema field whose label/name mentions the concept (the loop
    overwrites, so the LAST such field wins);
 2. that field's label is looked up before its name;
 3. a fixed list of common keys is tried when the first two give nothing;
 4. the phone is cleaned and validated, and display defaults fill the gaps.
 */
module Extraction {
  import opened Wrappers
  import opened Text

  /** One schema field; a missing label or name is the empty string. */
  datatype Field = Field(labelText: string, name: string)

  /** One submitted key/value pair. */
  datatype Entry = Entry(key: string, value: string)

  /** A submitted form, in the order its keys arrived. */
  type Submission = seq<Entry>

  /** `data.get(k)`. */
  function Find(data: Submission, k: string): (r: Option<string>)
    ensures r.Some? <==> exists i :: 0 <= i < |data| && data[i].key == k
  {
    if |data| == 0 then None
    else if data[0].key == k then Some(data[0].value)
    else Find(data[1..], k)
  }

  /** `k in data`. */
  predicate Has(data: Submission, k: string) {
    Find(data, k).Some?
  }

  /** Python truthiness of an optional string: present and non-empty. */
  predicate Truthy(v: Option<string>) {
    v.Some? && v.value != ""
  }

  // ---------------------------------------------------------------------
  // "The last hit wins": both the schema scan and the time fallback are
  // loops that overwrite a variable on every hit.
  // ---------------------------------------------------------------------

  /** A loop over `s` that sets its variable to `hit(x)` whenever `hit(x)` is present. */
  function Overwrite<T, U>(s: seq<T>, hit: T -> Option<U>, acc: U): U {
    if |s| == 0 then acc
    else Overwrite(s[1..], hit, match hit(s[0]) case Some(u) => u case None => acc)
  }

  /** Two sequences whose elements hit alike overwrite alike. */
  lemma {:induction false} OverwriteSameHits<T, U>(a: seq<T>, b: seq<T>, hit: T -> Option<U>, acc: U)
    requires |a| == |b| && forall j :: 0 <= j < |a| ==> hit(a[j]) == hit(b[j])
    ensures Overwrite(a, hit, acc) == Overwrite(b, hit, acc)
    decreases |a|
  {
    if |a| > 0 {
      assert hit(a[0]) == hit(b[0]);
      OverwriteSameHits(a[1..], b[1..], hit, match hit(a[0]) case Some(u) => u case None => acc);
    }
  }

  /** The position of the last element of `s` that `hit` accepts. */
  function LastHit<T, U>(s: seq<T>, hit: T -> Option<U>): (r: Option<nat>)
    ensures r.Some? ==> r.value < |s| && hit(s[r.value]).Some?
    ensures r.Some? ==> forall j :: r.value < j < |s| ==> hit(s[j]).None?
    ensures r.None? ==> forall j :: 0 <= j < |s| ==> hit(s[j]).None?
  {
    if |s| == 0 then None
    else if hit(s[|s| - 1]).Some? then Some(|s| - 1)
    else LastHit(s[..|s| - 1], hit)
  }

  /** Where the last hit lies, seen from the second element on. */
  lemma {:induction false} LastHitTail<T, U>(s: seq<T>, hit: T -> Option<U>)
    requires |s| > 0
    ensures LastHit(s, hit) ==
      match LastHit(s[1..], hit)
      case Some(j) => Some(j + 1)
      case None => if hit(s[0]).Some? then Some(0) else None
  {
    if |s| > 1 && hit(s[|s| - 1]).None? {
      assert s[1..][..|s| - 2] == s[..|s| - 1][1..];
      LastHitTail(s[..|s| - 1], hit);
    }
  }

  /** The overwriting loop ends with the last hit, or its initial value when nothing hits. */
  lemma {:induction false} OverwriteIsLastHit<T, U>(s: seq<T>, hit: T -> Option<U>, acc: U)
    ensures Overwrite(s, hit, acc) ==
      match LastHit(s, hit)
      case Some(i) => hit(s[i]).value
      case None => acc
  {
    if |s| > 0 {
      var acc' := match hit(s[0]) case Some(u) => u case None => acc;
      OverwriteIsLastHit(s[1..], hit, acc');
      LastHitTail(s, hit);
    }
  }

  // ---------------------------------------------------------------------
  // Layer 1 and 2: the schema.
  // ---------------------------------------------------------------------

  datatype Concept = NameField | PhoneField | TimeField

  /** The substring rules that tie a schema field to a concept (case-insensitive). */
  predicate Mentions(c: Concept, f: Field) {
    var lab := Lower(f.labelText);
    var name := Lower(f.name);
    match c
    case NameField => Contains(lab, "name") || Contains(name, "name")
    case PhoneField =>
      Contains(lab, "phone") || Contains(name, "phone") || Contains(lab, "mobile") || Contains(lab, "number")
    case TimeField =>
      Contains(lab, "time") || Contains(name, "time") || Contains(lab, "slot") || Contains(lab, "booking")
  }

  function MentionHit(c: Concept): Field -> Option<Option<Field>> {
    f => if Mentions(c, f) then Some(Some(f)) else None
  }

  /** The schema field the detection loop settles on for concept `c`. */
  function Detect(fields: seq<Field>, c: Concept): (r: Option<Field>)
    ensures r.None? <==> forall j :: 0 <= j < |fields| ==> !Mentions(c, fields[j])
    ensures r.Some? ==> exists i :: (0 <= i < |fields| && fields[i] == r.value && Mentions(c, fields[i])
      && forall j :: i < j < |fields| ==> !Mentions(c, fields[j]))
  {
    OverwriteIsLastHit(fields, MentionHit(c), None);
    Overwrite(fields, MentionHit(c), None)
  }

  /**
   The value a detected field selects: the value under its label when the label
   is a key of the submission, otherwise the value under its field name.
   */
  function ByField(data: Submission, f: Option<Field>): (r: Option<string>)
    ensures f.Some? && f.value.labelText != "" && Has(data, f.value.labelText) ==> r == Find(data, f.value.labelText)
    ensures f.Some? && !(f.value.labelText != "" && Has(data, f.value.labelText)) ==>
      r == (if f.value.name != "" then Find(data, f.value.name) else None)
    ensures f.None? ==> r.None?
  {
    match f
    case None => None
    case Some(field) =>
      if field.labelText != "" && Has(data, field.labelText) then Find(data, field.labelText)
      else if field.name != "" && Has(data, field.name) then Find(data, field.name)
      else None
  }

  // ---------------------------------------------------------------------
  // Layer 3: fixed fallback keys.
  // ---------------------------------------------------------------------

  const NameKeys: seq<string> := ["name", "Name", "full_name", "Full Name", "fullname", "user_name", "username"]
  const PhoneKeys: seq<string> := ["phone", "Phone", "phone_number", "Phone Number", "mobile", "Mobile", "phone number"]
  const TimeKeys: seq<string> := ["time", "booking", "slot", "booking time", "preferred time"]

  /** The value under the first key of `keys` that the submission has, even an empty one. */
  function FirstPresent(data: Submission, keys: seq<string>): (r: Option<string>)
    ensures r.None? <==> forall j :: 0 <= j < |keys| ==> !Has(data, keys[j])
    ensures r.Some? ==> exists i :: (0 <= i < |keys| && Has(data, keys[i]) && r == Find(data, keys[i])
      && forall j :: 0 <= j < i ==> !Has(data, keys[j]))
  {
    if |keys| == 0 then None
    else if Has(data, keys[0]) then Find(data, keys[0])
    else
      var r := FirstPresent(data, keys[1..]);
      assert forall j :: 1 <= j < |keys| ==> keys[j] == keys[1..][j - 1];
      r
  }

  /** A schema-selected value, replaced by the fallback list only when it is missing or empty. */
  function WithFallback(data: Submission, byField: Option<string>, keys: seq<string>): (r: Option<string>)
    ensures Truthy(byField) ==> r == byField
    ensures !Truthy(byField) && FirstPresent(data, keys).Some? ==> r == FirstPresent(data, keys)
    ensures !Truthy(byField) && FirstPresent(data, keys).None? ==> r == byField
  {
    if Truthy(byField) then byField
    else match FirstPresent(data, keys)
      case Some(v) => Some(v)
      case None => byField
  }

  /** The value of the first submitted key whose lower-cased form contains `k`. */
  function FirstKeyContaining(data: Submission, k: string): (r: Option<string>)
    ensures r.None? <==> forall j :: 0 <= j < |data| ==> !Contains(Lower(data[j].key), k)
    ensures r.Some? ==> exists i :: (0 <= i < |data| && Contains(Lower(data[i].key), k) && r.value == data[i].value
      && forall j :: 0 <= j < i ==> !Contains(Lower(data[j].key), k))
  {
    if |data| == 0 then None
    else if Contains(Lower(data[0].key), k) then Some(data[0].value)
    else
      var r := FirstKeyContaining(data[1..], k);
      assert forall j :: 1 <= j < |data| ==> data[j] == data[1..][j - 1];
      r
  }

  function TimeHit(data: Submission): string -> Option<string> {
    k => FirstKeyContaining(data, k)
  }

  /**
   The time fallback: for each key of `TimeKeys` in turn, the first submitted
   key containing it. The inner `break` leaves only the inner loop, so a later
   fallback key that also finds something overwrites an earlier one.
   */
  function TimeFallback(data: Submission, acc: string): (r: string)
    ensures (forall j :: 0 <= j < |TimeKeys| ==> FirstKeyContaining(data, TimeKeys[j]).None?) ==> r == acc
    ensures forall i :: (0 <= i < |TimeKeys| && FirstKeyContaining(data, TimeKeys[i]).Some?
      && (forall j :: i < j < |TimeKeys| ==> FirstKeyContaining(data, TimeKeys[j]).None?)
      ==> r == FirstKeyContaining(data, TimeKeys[i]).value)
  {
    OverwriteIsLastHit(TimeKeys, TimeHit(data), acc);
    Overwrite(TimeKeys, TimeHit(data), acc)
  }

  // ---------------------------------------------------------------------
  // Layer 4: cleaning and display defaults.
  // ---------------------------------------------------------------------

  /** Characters the phone cleaner removes after stripping surrounding whitespace. */
  predicate IsPhonePunctuation(c: char) {
    c == ' ' || c == '-' || c == '(' || c == ')'
  }

  /** `s.replace(" ", "").replace("-", "").replace("(", "").replace(")", "")`. */
  function Unpunctuated(s: string): (r: string)
    ensures |r| <= |s|
    ensures forall x :: x in r <==> x in s && !IsPhonePunctuation(x)
    ensures forall x :: multiset(r)[x] == if IsPhonePunctuation(x) then 0 else multiset(s)[x]
  {
    var r := Without(Without(Without(Without(s, ' '), '-'), '('), ')');
    forall x
      ensures x in r <==> x in s && !IsPhonePunctuation(x)
    {
      WithoutMembers(s, ' ', x);
      WithoutMembers(Without(s, ' '), '-', x);
      WithoutMembers(Without(Without(s, ' '), '-'), '(', x);
      WithoutMembers(Without(Without(Without(s, ' '), '-'), '('), ')', x);
    }
    r
  }

  /** Appending a character appends it to the cleaned text unless it is punctuation: the kept characters stay in order. */
  lemma {:induction false} UnpunctuatedSnoc(s: string, x: char)
    ensures Unpunctuated(s + [x]) == Unpunctuated(s) + (if IsPhonePunctuation(x) then "" else [x])
  {
    var t := [x];
    WithoutAppend(s, t, ' ');
    var s1, t1 := Without(s, ' '), Without(t, ' ');
    WithoutAppend(s1, t1, '-');
    var s2, t2 := Without(s1, '-'), Without(t1, '-');
    WithoutAppend(s2, t2, '(');
    var s3, t3 := Without(s2, '('), Without(t2, '(');
    WithoutAppend(s3, t3, ')');
    UnpunctuatedOne(x);
  }

  /** A single character keeps through the four removals exactly when it is no punctuation. */
  lemma UnpunctuatedOne(x: char)
    ensures Without(Without(Without(Without([x], ' '), '-'), '('), ')') == if IsPhonePunctuation(x) then "" else [x]
  {
    var a := Without([x], ' ');
    assert a == if x == ' ' then "" else [x];
    var b := Without(a, '-');
    assert b == if x in " -" then "" else [x];
    var c := Without(b, '(');
    assert c == if x in " -(" then "" else [x];
    assert Without(c, ')') == if x in " -()" then "" else [x];
  }

  /**
   `str(p).strip()` with spaces, dashes and parentheses removed; the result is
   discarded when it is shorter than ten characters or holds no digit.
   */
  function CleanPhone(p: Option<string>): (r: Option<string>)
    ensures r.Some? ==> Truthy(p)
    ensures r.Some? ==> |r.value| >= 10 && HasDigit(r.value)
    ensures r.Some? ==> forall i :: 0 <= i < |r.value| ==> !IsPhonePunctuation(r.value[i]) && r.value[i] in p.value
    ensures Truthy(p) ==> (r.Some? <==> |Unpunctuated(Strip(p.value))| >= 10 && HasDigit(Unpunctuated(Strip(p.value))))
    ensures r.Some? ==> r.value == Unpunctuated(Strip(p.value))
  {
    if !Truthy(p) then None
    else
      var c := Unpunctuated(Strip(p.value));
      forall i | 0 <= i < |c|
        ensures !IsPhonePunctuation(c[i]) && c[i] in p.value
      {
        assert c[i] in c;
        StripMembers(p.value, c[i]);
      }
      if |c| < 10 || !HasDigit(c) then None else Some(c)
  }

  const UnknownUser: string := "Unknown User"
  const NoPhone: string := "No Phone Provided"

  /** What `api_submit` stores and returns for the submitter. */
  datatype Extracted = Extracted(name: string, phone: string, time: string)

  /** The submitter's name before display defaults. */
  function UserName(fields: seq<Field>, data: Submission): (r: Option<string>)
    ensures Truthy(ByField(data, Detect(fields, NameField))) ==> r == ByField(data, Detect(fields, NameField))
    ensures !Truthy(ByField(data, Detect(fields, NameField))) && FirstPresent(data, NameKeys).Some? ==>
      r == FirstPresent(data, NameKeys)
    ensures !Truthy(ByField(data, Detect(fields, NameField))) && FirstPresent(data, NameKeys).None? ==>
      r == ByField(data, Detect(fields, NameField))
    ensures Truthy(r) ==> exists i :: 0 <= i < |data| && data[i].value == r.value
  {
    var byField := ByField(data, Detect(fields, NameField));
    FindIsValue(data, if Detect(fields, NameField).Some? then Detect(fields, NameField).value.labelText else "");
    FindIsValue(data, if Detect(fields, NameField).Some? then Detect(fields, NameField).value.name else "");
    FirstPresentIsValue(data, NameKeys);
    WithFallback(data, byField, NameKeys)
  }

  /** The submitter's phone before cleaning. */
  function RawPhone(fields: seq<Field>, data: Submission): (r: Option<string>)
    ensures Truthy(ByField(data, Detect(fields, PhoneField))) ==> r == ByField(data, Detect(fields, PhoneField))
    ensures !Truthy(ByField(data, Detect(fields, PhoneField))) && FirstPresent(data, PhoneKeys).Some? ==>
      r == FirstPresent(data, PhoneKeys)
    ensures !Truthy(ByField(data, Detect(fields, PhoneField))) && FirstPresent(data, PhoneKeys).None? ==>
      r == ByField(data, Detect(fields, PhoneField))
    ensures Truthy(r) ==> exists i :: 0 <= i < |data| && data[i].value == r.value
  {
    var byField := ByField(data, Detect(fields, PhoneField));
    FindIsValue(data, if Detect(fields, PhoneField).Some? then Detect(fields, PhoneField).value.labelText else "");
    FindIsValue(data, if Detect(fields, PhoneField).Some? then Detect(fields, PhoneField).value.name else "");
    FirstPresentIsValue(data, PhoneKeys);
    WithFallback(data, byField, PhoneKeys)
  }

  /** A value found under a key is one of the submitted values. */
  lemma {:induction false} FindIsValue(data: Submission, k: string)
    ensures Find(data, k).Some? ==> exists i :: 0 <= i < |data| && data[i].value == Find(data, k).value
  {
    if |data| > 0 && data[0].key != k {
      FindIsValue(data[1..], k);
      if Find(data, k).Some? {
        var i :| 0 <= i < |data[1..]| && data[1..][i].value == Find(data, k).value;
        assert data[i + 1].value == Find(data, k).value;
      }
    }
  }

  lemma FirstPresentIsValue(data: Submission, keys: seq<string>)
    ensures FirstPresent(data, keys).Some? ==> exists i :: 0 <= i < |data| && data[i].value == FirstPresent(data, keys).value
  {
    if FirstPresent(data, keys).Some? {
      var i :| 0 <= i < |keys| && Has(data, keys[i]) && FirstPresent(data, keys) == Find(data, keys[i]);
      FindIsValue(data, keys[i]);
    }
  }

  /** The preferred time text: the schema's time field, else the fallback scan. */
  function PreferredTime(fields: seq<Field>, data: Submission): (r: string)
    ensures ByField(data, Detect(fields, TimeField)).GetOr("") != "" ==> r == ByField(data, Detect(fields, TimeField)).value
    ensures ByField(data, Detect(fields, TimeField)).GetOr("") == "" ==> r == TimeFallback(data, "")
  {
    var t := ByField(data, Detect(fields, TimeField)).GetOr("");
    if t != "" then t else TimeFallback(data, t)
  }

  function Extract(fields: seq<Field>, data: Submission): (r: Extracted)
    ensures Truthy(UserName(fields, data)) ==> r.name == UserName(fields, data).value
    ensures !Truthy(UserName(fields, data)) ==> r.name == UnknownUser
    ensures CleanPhone(RawPhone(fields, data)).Some? ==> r.phone == CleanPhone(RawPhone(fields, data)).value
    ensures CleanPhone(RawPhone(fields, data)).None? ==> r.phone == NoPhone
    ensures r.phone == NoPhone || (|r.phone| >= 10 && HasDigit(r.phone)
      && forall i :: 0 <= i < |r.phone| ==> !IsPhonePunctuation(r.phone[i]))
    ensures r.phone != NoPhone ==> Some(r.phone) == CleanPhone(RawPhone(fields, data))
    ensures r.time == PreferredTime(fields, data)
  {
    var name := UserName(fields, data);
    var phone := CleanPhone(RawPhone(fields, data));
    Extracted(
      if Truthy(name) then name.value else UnknownUser,
      if phone.Some? then phone.value else NoPhone,
      PreferredTime(fields, data))
  }

  /** The schema every new application starts with. */
  const DefaultFields: seq<Field> := [
    Field("Full Name", "name"),
    Field("Phone Number", "phone"),
    Field("Email Address", "email"),
    Field("Address / Location", "address"),
    Field("Preferred Date", "date"),
    Field("Service Details", "query")
  ]
}
