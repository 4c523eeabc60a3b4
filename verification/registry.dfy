/**
 The application registry and the API keys: creating and deleting a client's
 application (with its default form, submissions and LLM settings), saving a
 form schema without losing the form's submission key, and the read-only
 call-data API with its key scopes.

 Collections are sequences in insertion order, so `find_one` and `delete_one`
 act on the first matching document; call requests are the map of
 `Bookings`. Random tokens (`secrets.token_hex(16)`) are parameters.
 */
module Registry {
  import opened Wrappers
  import opened Extraction
  import Slug
  import Bookings

  /** A `client_apps` document. */
  datatype ClientApp = ClientApp(clientId: string, appName: string, slug: string)

  /** A `form_builders` document; `apiKey` is `None` when the stored key is null. */
  datatype FormBuilder = FormBuilder(clientId: string, appName: string, fields: seq<Field>, apiKey: Option<string>)

  /** An `llm_settings` document. */
  datatype LlmSettings = LlmSettings(clientId: string, appName: string, defaultPrompt: string, customPrompt: string)

  /**
   An `api_keys` document. `scope` is `None` for a legacy key stored without a
   scope; `appName` is set only for a single-application key.
   */
  datatype ApiKey = ApiKey(id: nat, clientId: string, key: string, scope: Option<string>, appName: Option<string>, status: string)

  datatype Db = Db(
    apps: seq<ClientApp>,
    forms: seq<FormBuilder>,
    calls: Bookings.Store,
    settings: seq<LlmSettings>,
    apiKeys: seq<ApiKey>)

  /** Keeps the elements satisfying `keep`, in order (`delete_many` of the rest). */
  function Filter<T(!new)>(s: seq<T>, keep: T -> bool): (r: seq<T>)
    ensures |r| <= |s|
    ensures forall x :: x in r <==> x in s && keep(x)
    ensures forall x :: multiset(r)[x] == if keep(x) then multiset(s)[x] else 0
  {
    if |s| == 0 then []
    else
      assert s == [s[0]] + s[1..];
      (if keep(s[0]) then [s[0]] else []) + Filter(s[1..], keep)
  }

  /** `s` without its element at `i`; the rest keep their order. */
  function RemoveAt<T>(s: seq<T>, i: nat): (r: seq<T>)
    requires i < |s|
    ensures |r| == |s| - 1
    ensures multiset(r) == multiset(s) - multiset{s[i]}
    ensures r[..i] == s[..i] && r[i..] == s[i + 1..]
  {
    assert s == s[..i] + [s[i]] + s[i + 1..];
    s[..i] + s[i + 1..]
  }

  /** Filtering a concatenation filters each part and keeps them in order. */
  lemma {:induction false} FilterAppend<T(!new)>(a: seq<T>, b: seq<T>, keep: T -> bool)
    ensures Filter(a + b, keep) == Filter(a, keep) + Filter(b, keep)
    decreases |a|
  {
    if |a| > 0 {
      assert (a + b)[0] == a[0] && (a + b)[1..] == a[1..] + b;
      FilterAppend(a[1..], b, keep);
    } else {
      assert a + b == b;
    }
  }

  // ---------------------------------------------------------------------------
  // Applications
  // ---------------------------------------------------------------------------

  predicate AppOf(a: ClientApp, clientId: string, appName: string) {
    a.clientId == clientId && a.appName == appName
  }

  predicate HasApp(apps: seq<ClientApp>, clientId: string, appName: string) {
    exists i :: 0 <= i < |apps| && AppOf(apps[i], clientId, appName)
  }

  /** No client has two applications with the same name. */
  predicate AppsUnique(apps: seq<ClientApp>) {
    forall i, j :: 0 <= i < j < |apps| ==> !AppOf(apps[j], apps[i].clientId, apps[i].appName)
  }

  /**
   `create_application`: a missing or empty name and an existing (client, name)
   pair are refused (the handler answers with an `error` body and status 200);
   otherwise the application is added with its slug, together with a form
   holding the default schema and a fresh submission key (plain hex, no prefix).
   */
  function CreateApplication(db: Db, clientId: string, appName: Option<string>, formKey: string): (r: Result<Db>)
    ensures !Truthy(appName) ==> r == Err(200, "App name required")
    ensures Truthy(appName) && HasApp(db.apps, clientId, appName.value) ==> r == Err(200, "App already exists")
    ensures r.Ok? <==> Truthy(appName) && !HasApp(db.apps, clientId, appName.value)
    ensures r.Ok? ==> r.value == db.(
      apps := db.apps + [ClientApp(clientId, appName.value, Slug.Slugify(appName.value))],
      forms := db.forms + [FormBuilder(clientId, appName.value, DefaultFields, Some(formKey))])
  {
    if !Truthy(appName) then Err(200, "App name required")
    else if HasApp(db.apps, clientId, appName.value) then Err(200, "App already exists")
    else
      var name := appName.value;
      Ok(db.(
        apps := db.apps + [ClientApp(clientId, name, Slug.Slugify(name))],
        forms := db.forms + [FormBuilder(clientId, name, DefaultFields, Some(formKey))]))
  }

  /** Creating applications never gives a client two applications of one name. */
  lemma {:induction false} CreateKeepsAppsUnique(db: Db, clientId: string, appName: Option<string>, formKey: string)
    requires AppsUnique(db.apps)
    requires CreateApplication(db, clientId, appName, formKey).Ok?
    ensures AppsUnique(CreateApplication(db, clientId, appName, formKey).value.apps)
  {
    var name := appName.value;
    var added := ClientApp(clientId, name, Slug.Slugify(name));
    var apps := db.apps + [added];
    assert CreateApplication(db, clientId, appName, formKey).value.apps == apps;
    assert !HasApp(db.apps, clientId, name);
    forall i, j | 0 <= i < j < |apps|
      ensures !AppOf(apps[j], apps[i].clientId, apps[i].appName)
    {
      assert apps[i] == db.apps[i];
      if j == |db.apps| {
        assert apps[j] == added;
        assert !AppOf(db.apps[i], clientId, name);
      } else {
        assert apps[j] == db.apps[j];
      }
    }
  }

  /** The index of the first `client_apps` document for (client, name), as `delete_one` picks it. */
  function FirstApp(apps: seq<ClientApp>, clientId: string, appName: string): (r: Option<nat>)
    ensures r.Some? <==> HasApp(apps, clientId, appName)
    ensures r.Some? ==> (r.value < |apps| && AppOf(apps[r.value], clientId, appName)
      && forall i :: 0 <= i < r.value ==> !AppOf(apps[i], clientId, appName))
  {
    if |apps| == 0 then None
    else if AppOf(apps[0], clientId, appName) then Some(0)
    else
      var rest := FirstApp(apps[1..], clientId, appName);
      assert HasApp(apps, clientId, appName) ==> HasApp(apps[1..], clientId, appName) by {
        if HasApp(apps, clientId, appName) {
          var i :| 0 <= i < |apps| && AppOf(apps[i], clientId, appName);
          assert apps[1..][i - 1] == apps[i];
        }
      }
      if rest.Some? then Some(rest.value + 1) else None
  }

  /** A call request belongs to (client, name). */
  predicate CallOf(r: Bookings.CallRequest, clientId: string, appName: string) {
    r.clientId == clientId && r.appName == appName
  }

  /**
   `delete_application`: the first `client_apps` document for (client, name)
   is removed, and every form, call request and LLM settings document of that
   pair. Nothing of any other pair changes.
   */
  function DeleteApplication(db: Db, clientId: string, appName: string): (r: Db)
    ensures FirstApp(db.apps, clientId, appName).None? ==> r.apps == db.apps
    ensures FirstApp(db.apps, clientId, appName).Some? ==> var i := FirstApp(db.apps, clientId, appName).value;
      && |r.apps| == |db.apps| - 1
      && r.apps[..i] == db.apps[..i] && r.apps[i..] == db.apps[i + 1..]
      && multiset(r.apps) == multiset(db.apps) - multiset{db.apps[i]}
    ensures forall f :: multiset(r.forms)[f] == if FormOf(f, clientId, appName) then 0 else multiset(db.forms)[f]
    ensures forall s :: multiset(r.settings)[s] == if s.clientId == clientId && s.appName == appName then 0 else multiset(db.settings)[s]
    ensures forall k :: k in r.calls <==> k in db.calls && !CallOf(db.calls[k], clientId, appName)
    ensures forall k :: k in r.calls ==> r.calls[k] == db.calls[k]
    ensures r.apiKeys == db.apiKeys
  {
    var first := FirstApp(db.apps, clientId, appName);
    var apps := if first.Some? then RemoveAt(db.apps, first.value) else db.apps;
    var forms := DropForms(db.forms, clientId, appName);
    var calls := DropCalls(db.calls, clientId, appName);
    var settings := DropSettings(db.settings, clientId, appName);
    Db(apps, forms, calls, settings, db.apiKeys)
  }

  /** `delete_many` of the pair's forms. */
  function DropForms(forms: seq<FormBuilder>, clientId: string, appName: string): (r: seq<FormBuilder>)
    ensures forall f :: f in r <==> f in forms && !FormOf(f, clientId, appName)
    ensures forall f :: multiset(r)[f] == if FormOf(f, clientId, appName) then 0 else multiset(forms)[f]
  {
    Filter(forms, (f: FormBuilder) => !FormOf(f, clientId, appName))
  }

  /** `delete_many` of the pair's LLM settings. */
  function DropSettings(settings: seq<LlmSettings>, clientId: string, appName: string): (r: seq<LlmSettings>)
    ensures forall s :: s in r <==> s in settings && !(s.clientId == clientId && s.appName == appName)
    ensures forall s :: multiset(r)[s] == if s.clientId == clientId && s.appName == appName then 0 else multiset(settings)[s]
  {
    Filter(settings, (s: LlmSettings) => !(s.clientId == clientId && s.appName == appName))
  }

  /** `delete_many` of the pair's call requests. */
  function DropCalls(calls: Bookings.Store, clientId: string, appName: string): (r: Bookings.Store)
    ensures forall k :: k in r <==> k in calls && !CallOf(calls[k], clientId, appName)
    ensures forall k :: k in r ==> r[k] == calls[k]
  {
    map k | k in calls && !CallOf(calls[k], clientId, appName) :: calls[k]
  }

  /**
   With unique (client, name) pairs, deleting an application removes exactly
   that application: it is gone, and every other pair is present afterwards
   exactly when it was before.
   */
  lemma {:induction false} DeleteRemovesExactlyOne(db: Db, clientId: string, appName: string, c: string, n: string)
    requires AppsUnique(db.apps)
    ensures !HasApp(DeleteApplication(db, clientId, appName).apps, clientId, appName)
    ensures (c, n) != (clientId, appName) ==>
      (HasApp(DeleteApplication(db, clientId, appName).apps, c, n) <==> HasApp(db.apps, c, n))
  {
    var apps := DeleteApplication(db, clientId, appName).apps;
    var first := FirstApp(db.apps, clientId, appName);
    if first.Some? {
      RemovedUniqueIsGone(db.apps, apps, first.value, clientId, appName);
      if (c, n) != (clientId, appName) {
        RemovedKeepsOthers(db.apps, apps, first.value, c, n);
      }
    }
  }

  /** With unique pairs, dropping the document of a pair leaves none of that pair. */
  lemma RemovedUniqueIsGone(apps: seq<ClientApp>, r: seq<ClientApp>, i: nat, clientId: string, appName: string)
    requires AppsUnique(apps)
    requires i < |apps| && AppOf(apps[i], clientId, appName)
    requires |r| == |apps| - 1 && r[..i] == apps[..i] && r[i..] == apps[i + 1..]
    ensures !HasApp(r, clientId, appName)
  {
    forall j | 0 <= j < |r|
      ensures !AppOf(r[j], clientId, appName)
    {
      if j < i {
        assert r[j] == r[..i][j] == apps[..i][j] == apps[j];
        assert !AppOf(apps[i], apps[j].clientId, apps[j].appName);
      } else {
        assert r[j] == r[i..][j - i] == apps[i + 1..][j - i] == apps[j + 1];
        assert !AppOf(apps[j + 1], apps[i].clientId, apps[i].appName);
      }
    }
  }

  /** Dropping the document of one pair keeps every document of any other pair. */
  lemma RemovedKeepsOthers(apps: seq<ClientApp>, r: seq<ClientApp>, i: nat, c: string, n: string)
    requires i < |apps| && !AppOf(apps[i], c, n)
    requires |r| == |apps| - 1 && r[..i] == apps[..i] && r[i..] == apps[i + 1..]
    ensures HasApp(r, c, n) <==> HasApp(apps, c, n)
  {
    if HasApp(apps, c, n) {
      var j :| 0 <= j < |apps| && AppOf(apps[j], c, n);
      if j < i {
        assert r[j] == r[..i][j] == apps[..i][j] == apps[j];
      } else {
        assert r[j - 1] == r[i..][j - 1 - i] == apps[i + 1..][j - 1 - i] == apps[j];
      }
    }
    if HasApp(r, c, n) {
      var j :| 0 <= j < |r| && AppOf(r[j], c, n);
      if j < i {
        assert r[j] == r[..i][j] == apps[..i][j] == apps[j];
      } else {
        assert r[j] == r[i..][j - i] == apps[i + 1..][j - i] == apps[j + 1];
      }
    }
  }

  /**
   `delete_one` removes a single document: when a client holds the same name
   twice (the store does not enforce uniqueness), the application survives a
   delete while its forms and submissions are gone.
   */
  lemma DuplicateSurvivesDelete(db: Db, clientId: string, appName: string, i: nat, j: nat)
    requires i < j < |db.apps|
    requires AppOf(db.apps[i], clientId, appName) && AppOf(db.apps[j], clientId, appName)
    ensures HasApp(DeleteApplication(db, clientId, appName).apps, clientId, appName)
  {
    var first := FirstApp(db.apps, clientId, appName);
    var k := first.value;
    var apps := DeleteApplication(db, clientId, appName).apps;
    assert k <= i;
    assert apps[j - 1] == db.apps[j];
  }

  // ---------------------------------------------------------------------------
  // Forms
  // ---------------------------------------------------------------------------

  predicate FormOf(f: FormBuilder, clientId: string, appName: string) {
    f.clientId == clientId && f.appName == appName
  }

  /** The index of the first form of (client, name), as `find_one` and `update_one` pick it. */
  function FirstForm(forms: seq<FormBuilder>, clientId: string, appName: string): (r: Option<nat>)
    ensures r.Some? ==> (r.value < |forms| && FormOf(forms[r.value], clientId, appName)
      && forall i :: 0 <= i < r.value ==> !FormOf(forms[i], clientId, appName))
    ensures r.None? ==> forall i :: 0 <= i < |forms| ==> !FormOf(forms[i], clientId, appName)
  {
    if |forms| == 0 then None
    else if FormOf(forms[0], clientId, appName) then Some(0)
    else
      var rest := FirstForm(forms[1..], clientId, appName);
      if rest.Some? then Some(rest.value + 1) else None
  }

  /**
   `save_form`: the first form of (client, name) gets the new schema and keeps
   its key (even a null one); when there is none, a form is inserted with a
   fresh key.
   */
  function SaveForm(forms: seq<FormBuilder>, clientId: string, appName: string, fields: seq<Field>, freshKey: string): (r: seq<FormBuilder>)
    ensures FirstForm(forms, clientId, appName).None? ==>
      r == forms + [FormBuilder(clientId, appName, fields, Some(freshKey))]
    ensures FirstForm(forms, clientId, appName).Some? ==>
      var i := FirstForm(forms, clientId, appName).value;
      |r| == |forms| && r[i] == forms[i].(fields := fields)
      && forall j :: 0 <= j < |forms| && j != i ==> r[j] == forms[j]
  {
    match FirstForm(forms, clientId, appName)
    case None => forms + [FormBuilder(clientId, appName, fields, Some(freshKey))]
    case Some(i) => forms[i := forms[i].(fields := fields)]
  }

  /** The submission key a (client, name) pair answers to, if it has a form. */
  function KeyOf(forms: seq<FormBuilder>, clientId: string, appName: string): Option<Option<string>> {
    match FirstForm(forms, clientId, appName)
    case None => None
    case Some(i) => Some(forms[i].apiKey)
  }

  /**
   Saving a schema never changes an existing form's key, so an embedded
   submission URL keeps working; the first save of a pair issues the fresh key.
   */
  lemma {:induction false} SaveFormKeepsKey(forms: seq<FormBuilder>, clientId: string, appName: string, fields: seq<Field>, freshKey: string)
    ensures KeyOf(SaveForm(forms, clientId, appName, fields, freshKey), clientId, appName) ==
      if KeyOf(forms, clientId, appName).Some? then KeyOf(forms, clientId, appName) else Some(Some(freshKey))
  {
    var r := SaveForm(forms, clientId, appName, fields, freshKey);
    var first := FirstForm(forms, clientId, appName);
    if first.None? {
      FirstFormAfterAppend(forms, FormBuilder(clientId, appName, fields, Some(freshKey)));
    } else {
      FirstFormSame(forms, r, clientId, appName, first.value);
    }
  }

  lemma {:induction false} FirstFormAfterAppend(forms: seq<FormBuilder>, f: FormBuilder)
    requires FirstForm(forms, f.clientId, f.appName).None?
    ensures FirstForm(forms + [f], f.clientId, f.appName) == Some(|forms|)
    decreases |forms|
  {
    if |forms| > 0 {
      assert (forms + [f])[1..] == forms[1..] + [f];
      FirstFormAfterAppend(forms[1..], f);
    }
  }

  /** Two form lists that agree up to and including the first form of a pair have that first form at the same place. */
  lemma {:induction false} FirstFormSame(a: seq<FormBuilder>, b: seq<FormBuilder>, clientId: string, appName: string, i: nat)
    requires i < |a| && i < |b|
    requires FormOf(a[i], clientId, appName) && FormOf(b[i], clientId, appName)
    requires forall j :: 0 <= j < i ==> a[j] == b[j] && !FormOf(a[j], clientId, appName)
    ensures FirstForm(a, clientId, appName) == Some(i) && FirstForm(b, clientId, appName) == Some(i)
    decreases i
  {
    if i > 0 {
      FirstFormSame(a[1..], b[1..], clientId, appName, i - 1);
    }
  }

  /** Two saves in a row leave the key the first save left, whatever fresh token the second draws. */
  lemma SaveTwiceKeepsKey(forms: seq<FormBuilder>, clientId: string, appName: string,
                          f1: seq<Field>, k1: string, f2: seq<Field>, k2: string)
    ensures KeyOf(SaveForm(SaveForm(forms, clientId, appName, f1, k1), clientId, appName, f2, k2), clientId, appName)
      == KeyOf(SaveForm(forms, clientId, appName, f1, k1), clientId, appName)
  {
    var once := SaveForm(forms, clientId, appName, f1, k1);
    SaveFormKeepsKey(forms, clientId, appName, f1, k1);
    SaveFormKeepsKey(once, clientId, appName, f2, k2);
  }

  /** `find_one({"api_key": key})` over the forms: the first form holding that key. */
  function FormByKey(forms: seq<FormBuilder>, key: string): (r: Option<FormBuilder>)
    ensures r.Some? ==> r.value in forms && r.value.apiKey == Some(key)
    ensures r.None? <==> forall i :: 0 <= i < |forms| ==> forms[i].apiKey != Some(key)
  {
    if |forms| == 0 then None
    else if forms[0].apiKey == Some(key) then Some(forms[0])
    else
      var rest := FormByKey(forms[1..], key);
      assert rest.None? ==> forall i :: 0 <= i < |forms| ==> forms[i].apiKey != Some(key) by {
        if rest.None? {
          forall i | 0 <= i < |forms|
            ensures forms[i].apiKey != Some(key)
          {
            if i > 0 {
              assert forms[i] == forms[1..][i - 1];
            }
          }
        }
      }
      rest
  }

  /**
   An application created with a key no other form holds receives the
   submissions posted to that key: the form found is the new one, with the
   default schema.
   */
  lemma {:induction false} CreatedFormAnswersToItsKey(db: Db, clientId: string, appName: Option<string>, formKey: string)
    requires CreateApplication(db, clientId, appName, formKey).Ok?
    requires forall i :: 0 <= i < |db.forms| ==> db.forms[i].apiKey != Some(formKey)
    ensures FormByKey(CreateApplication(db, clientId, appName, formKey).value.forms, formKey)
      == Some(FormBuilder(clientId, appName.value, DefaultFields, Some(formKey)))
  {
    var f := FormBuilder(clientId, appName.value, DefaultFields, Some(formKey));
    FormByKeyAppend(db.forms, f, formKey);
  }

  lemma {:induction false} FormByKeyAppend(forms: seq<FormBuilder>, f: FormBuilder, key: string)
    requires forall i :: 0 <= i < |forms| ==> forms[i].apiKey != Some(key)
    requires f.apiKey == Some(key)
    ensures FormByKey(forms + [f], key) == Some(f)
    decreases |forms|
  {
    if |forms| > 0 {
      assert (forms + [f])[1..] == forms[1..] + [f];
      FormByKeyAppend(forms[1..], f, key);
    }
  }

  // ---------------------------------------------------------------------------
  // API keys and the call-data API
  // ---------------------------------------------------------------------------

  const AllApps: string := "ALL_APPS"
  const SingleApp: string := "SINGLE_APP"
  const Legacy: string := "LEGACY"
  const KeyPrefix: string := "sk_"

  /**
   The key `api_key_page` issues: `sk_` and the token, active. A single-app
   key needs an application name; without one the key is widened to all
   applications, whatever scope was asked for.
   */
  function NewApiKey(id: nat, clientId: string, scope: Option<string>, appName: Option<string>, token: string): (k: ApiKey)
    ensures k.key == KeyPrefix + token && k.status == "active" && k.clientId == clientId && k.id == id
    ensures k.scope == Some(SingleApp) <==> scope == Some(SingleApp) && Truthy(appName)
    ensures k.scope == Some(SingleApp) ==> k.appName == appName
    ensures k.scope != Some(SingleApp) ==> k.scope == Some(AllApps) && k.appName.None?
  {
    if scope == Some(SingleApp) && Truthy(appName) then ApiKey(id, clientId, KeyPrefix + token, Some(SingleApp), appName, "active")
    else ApiKey(id, clientId, KeyPrefix + token, Some(AllApps), None, "active")
  }

  function IssueApiKey(db: Db, id: nat, clientId: string, scope: Option<string>, appName: Option<string>, token: string): (r: Db)
    ensures r == db.(apiKeys := db.apiKeys + [NewApiKey(id, clientId, scope, appName, token)])
  {
    db.(apiKeys := db.apiKeys + [NewApiKey(id, clientId, scope, appName, token)])
  }

  /** The scope the key list shows: a key stored without one is `LEGACY`. */
  function DisplayScope(k: ApiKey): (r: string)
    ensures k.scope.None? ==> r == Legacy
    ensures k.scope.Some? ==> r == k.scope.value
  {
    if k.scope.None? then Legacy else k.scope.value
  }

  /** Every key issued here shows its stored scope, never `LEGACY`. */
  lemma IssuedKeyIsNotLegacy(id: nat, clientId: string, scope: Option<string>, appName: Option<string>, token: string)
    ensures DisplayScope(NewApiKey(id, clientId, scope, appName, token)) in {AllApps, SingleApp}
  {
  }

  /** `regenerate_key`: the key with that id gets a new `sk_` token. */
  function RegenerateKey(keys: seq<ApiKey>, id: nat, token: string): (r: seq<ApiKey>)
    ensures |r| == |keys|
    ensures forall i :: 0 <= i < |keys| ==>
      r[i] == if keys[i].id == id then keys[i].(key := KeyPrefix + token) else keys[i]
  {
    seq(|keys|, i requires 0 <= i < |keys| => if keys[i].id == id then keys[i].(key := KeyPrefix + token) else keys[i])
  }

  /** `revoke_key`: the key with that id is deleted. */
  function RevokeKey(keys: seq<ApiKey>, id: nat): (r: seq<ApiKey>)
    ensures forall k :: k in r <==> k in keys && k.id != id
  {
    Filter(keys, (k: ApiKey) => k.id != id)
  }

  /** `find_one({"api_key": key})` over the keys. */
  function KeyRecord(keys: seq<ApiKey>, key: string): (r: Option<ApiKey>)
    ensures r.Some? ==> r.value in keys && r.value.key == key
    ensures r.None? <==> forall k :: k in keys ==> k.key != key
  {
    if |keys| == 0 then None
    else if keys[0].key == key then Some(keys[0])
    else KeyRecord(keys[1..], key)
  }

  /** What `/api/calls` answers with: the key's client and the calls it may read. */
  datatype CallsPage = CallsPage(clientId: string, calls: Bookings.Store)

  /** A single-app key with an application name reads one application; any other key reads all. */
  predicate RestrictsToApp(k: ApiKey) {
    k.scope.GetOr(AllApps) == SingleApp && Truthy(k.appName)
  }

  /** Whether a call request is visible through key `k`. */
  predicate Visible(k: ApiKey, r: Bookings.CallRequest) {
    r.clientId == k.clientId && (RestrictsToApp(k) ==> r.appName == k.appName.value)
  }

  /**
   `api_calls`: a missing or empty `x-api-key` header and an unknown key are
   refused with 401; otherwise exactly the key's client's call requests, and
   only those of its application for a single-app key.
   */
  function ApiCalls(db: Db, header: Option<string>): (r: Result<CallsPage>)
    ensures !Truthy(header) ==> r == Err(401, "API key required")
    ensures Truthy(header) && KeyRecord(db.apiKeys, header.value).None? ==> r == Err(401, "Invalid API key")
    ensures r.Ok? <==> Truthy(header) && KeyRecord(db.apiKeys, header.value).Some?
    ensures r.Ok? ==> r.value.clientId == KeyRecord(db.apiKeys, header.value).value.clientId
    ensures r.Ok? ==> forall id :: id in r.value.calls <==>
      id in db.calls && Visible(KeyRecord(db.apiKeys, header.value).value, db.calls[id])
    ensures r.Ok? ==> forall id :: id in r.value.calls ==> r.value.calls[id] == db.calls[id]
  {
    if !Truthy(header) then Err(401, "API key required")
    else match KeyRecord(db.apiKeys, header.value)
      case None => Err(401, "Invalid API key")
      case Some(k) =>
        Ok(CallsPage(k.clientId, map id | id in db.calls && Visible(k, db.calls[id]) :: db.calls[id]))
  }

  /**
   A freshly issued key reads its client's calls, restricted to the named
   application exactly when a single-app scope with a name was requested.
   */
  lemma {:induction false} IssuedKeyReadsItsScope(db: Db, id: nat, clientId: string, scope: Option<string>, appName: Option<string>, token: string, callId: Bookings.Id)
    requires forall k :: k in db.apiKeys ==> k.key != KeyPrefix + token
    requires callId in db.calls
    ensures ApiCalls(IssueApiKey(db, id, clientId, scope, appName, token), Some(KeyPrefix + token)).Ok?
    ensures (callId in ApiCalls(IssueApiKey(db, id, clientId, scope, appName, token), Some(KeyPrefix + token)).value.calls)
      == (db.calls[callId].clientId == clientId
        && (scope == Some(SingleApp) && Truthy(appName) ==> db.calls[callId].appName == appName.value))
  {
    var k := NewApiKey(id, clientId, scope, appName, token);
    KeyRecordAppend(db.apiKeys, k);
  }

  lemma {:induction false} KeyRecordAppend(keys: seq<ApiKey>, k: ApiKey)
    requires forall x :: x in keys ==> x.key != k.key
    ensures KeyRecord(keys + [k], k.key) == Some(k)
    decreases |keys|
  {
    if |keys| > 0 {
      assert (keys + [k])[1..] == keys[1..] + [k];
      KeyRecordAppend(keys[1..], k);
    }
  }

  /** A legacy key, stored without a scope, reads every application of its client. */
  lemma LegacyKeyReadsAllApps(db: Db, header: string, callId: Bookings.Id)
    requires header != "" && KeyRecord(db.apiKeys, header).Some?
    requires KeyRecord(db.apiKeys, header).value.scope.None?
    requires callId in db.calls && db.calls[callId].clientId == KeyRecord(db.apiKeys, header).value.clientId
    ensures callId in ApiCalls(db, Some(header)).value.calls
  {
  }

  /** A revoked key is refused once no other key holds the same token. */
  lemma RevokedKeyIsRefused(db: Db, id: nat, key: string)
    requires key != ""
    requires forall k :: k in db.apiKeys && k.key == key ==> k.id == id
    ensures ApiCalls(db.(apiKeys := RevokeKey(db.apiKeys, id)), Some(key)) == Err(401, "Invalid API key")
  {
  }

  /** Regenerating a key invalidates the old token once no other key holds it. */
  lemma RegeneratedKeyRefusesOldToken(db: Db, id: nat, key: string, token: string)
    requires key != "" && key != KeyPrefix + token
    requires forall k :: k in db.apiKeys && k.key == key ==> k.id == id
    ensures ApiCalls(db.(apiKeys := RegenerateKey(db.apiKeys, id, token)), Some(key)) == Err(401, "Invalid API key")
  {
    var r := RegenerateKey(db.apiKeys, id, token);
    forall k | k in r
      ensures k.key != key
    {
      var i :| 0 <= i < |r| && r[i] == k;
      assert db.apiKeys[i] in db.apiKeys;
    }
  }
}
