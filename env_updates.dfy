/**
 * The two credential-update endpoints of the API: `PUT /environment` merges
 * the supplied fields into the `.env` file, and the webhook merges them into
 * one account's values. Both assign only the fields that were supplied (are
 * not None), each under its upper-case key, and report the field names.
 */
module EnvUpdates {
  import opened Wrappers
  import opened Text
  import opened OrderedDict
  import opened ChangeEnv

  /** The names of `fields` whose value is supplied, in the order of `fields`. */
  function SuppliedNames(fields: seq<string>, values: seq<Option<string>>): (names: seq<string>)
    requires |fields| == |values|
    ensures |names| <= |fields|
  {
    if fields == [] then []
    else
      var n := |fields| - 1;
      SuppliedNames(fields[..n], values[..n]) + (if values[n].Some? then [fields[n]] else [])
  }

  /** A name is reported iff its field is supplied. */
  lemma {:induction false} SuppliedNamesMember(fields: seq<string>, values: seq<Option<string>>, f: string)
    requires |fields| == |values|
    ensures f in SuppliedNames(fields, values) <==> exists i :: 0 <= i < |fields| && fields[i] == f && values[i].Some?
  {
    if fields != [] {
      var n := |fields| - 1;
      var before := SuppliedNames(fields[..n], values[..n]);
      SuppliedNamesMember(fields[..n], values[..n], f);
      assert SuppliedNames(fields, values) == before + (if values[n].Some? then [fields[n]] else []);
      if f in before {
        var i :| 0 <= i < n && fields[..n][i] == f && values[..n][i].Some?;
        assert fields[i] == f && values[i].Some?;
      }
      if exists i :: 0 <= i < |fields| && fields[i] == f && values[i].Some? {
        var i :| 0 <= i < |fields| && fields[i] == f && values[i].Some?;
        if i < n {
          assert fields[..n][i] == f && values[..n][i].Some?;
        }
      }
    }
  }

  /** Nothing is reported iff nothing is supplied. */
  lemma {:induction false} SuppliedNamesEmpty(fields: seq<string>, values: seq<Option<string>>)
    requires |fields| == |values|
    ensures SuppliedNames(fields, values) == [] <==> forall i :: 0 <= i < |values| ==> values[i].None?
  {
    if fields != [] {
      var n := |fields| - 1;
      SuppliedNamesEmpty(fields[..n], values[..n]);
      assert forall i :: 0 <= i < n ==> values[..n][i] == values[i];
    }
  }

  lemma SuppliedNamesPrefix(fields: seq<string>, values: seq<Option<string>>, n: nat)
    requires |fields| == |values| && n < |fields|
    ensures SuppliedNames(fields[..n + 1], values[..n + 1]) ==
            SuppliedNames(fields[..n], values[..n]) + (if values[n].Some? then [fields[n]] else [])
  {
    assert fields[..n + 1][..n] == fields[..n];
    assert values[..n + 1][..n] == values[..n];
  }

  /** The assignments `d[keys[i]] = values[i]` for the supplied values, in order. */
  function Assignments(keys: seq<string>, values: seq<Option<string>>): (es: seq<Option<(string, string)>>)
    requires |keys| == |values|
    ensures |es| == |keys|
    ensures forall i :: 0 <= i < |keys| ==> es[i] == if values[i].Some? then Some((keys[i], values[i].value)) else None
  {
    seq(|keys|, i requires 0 <= i < |keys| => if values[i].Some? then Some((keys[i], values[i].value)) else None)
  }

  /**
   * Merging into `current`: a supplied field's key gets its value, an
   * unsupplied field's key and every other key keep theirs, and the keys
   * already present keep their order. `keys` never repeats a key.
   */
  lemma MergeSpec(current: Env, keys: seq<string>, values: seq<Option<string>>, k: string)
    requires |keys| == |values|
    requires forall i, j :: 0 <= i < j < |keys| ==> keys[i] != keys[j]
    ensures forall i :: 0 <= i < |keys| && keys[i] == k && values[i].Some? ==>
              Get(PutAll(current, Assignments(keys, values)), k) == Some(values[i].value)
    ensures (forall i :: 0 <= i < |keys| && keys[i] == k ==> values[i].None?) ==>
              Get(PutAll(current, Assignments(keys, values)), k) == Get(current, k)
    ensures Keys(current) <= Keys(PutAll(current, Assignments(keys, values)))
    ensures DistinctKeys(current) ==> DistinctKeys(PutAll(current, Assignments(keys, values)))
  {
    var es := Assignments(keys, values);
    forall i | 0 <= i < |keys| && keys[i] == k && values[i].Some?
      ensures Get(PutAll(current, es), k) == Some(values[i].value)
    {
      PutAllLastWins(current, es, k, i);
    }
    if forall i :: 0 <= i < |keys| && keys[i] == k ==> values[i].None? {
      PutAllUntouched(current, es, k);
    }
    PutAllKeepsOrder(current, es);
    if DistinctKeys(current) {
      PutAllDistinct(current, es);
    }
  }

  /** The request body of `PUT /environment`: every field optional. */
  datatype EnvironmentUpdate = EnvironmentUpdate(
    publicationUrl: Option<string>,
    userId: Option<string>,
    sid: Option<string>,
    substackSid: Option<string>,
    substackLli: Option<string>)

  /** The request's field names in declaration order; their upper-case forms are ConfigKeys. */
  const ApiFields: seq<string> := ["publication_url", "user_id", "sid", "substack_sid", "substack_lli"]

  /** The request's values in declaration order. */
  function ApiValues(req: EnvironmentUpdate): seq<Option<string>> {
    [req.publicationUrl, req.userId, req.sid, req.substackSid, req.substackLli]
  }

  /** The values saved by `PUT /environment`: the loaded values with the supplied fields assigned. */
  function ApiMerged(current: Env, req: EnvironmentUpdate): Env {
    PutAll(current, Assignments(ConfigKeys, ApiValues(req)))
  }

  /**
   * One `if request.<field> is not None: values['<KEY>'] = request.<field>`
   * statement, the `n`-th of a sequence of them: it performs assignment `n`
   * on the values that the first `n` assignments produced.
   */
  method AssignIfSupplied(start: Env, keys: seq<string>, values: seq<Option<string>>, n: nat, current: Env)
    returns (updated: Env)
    requires |keys| == |values| && n < |keys|
    requires current == PutAll(start, Assignments(keys, values)[..n])
    ensures updated == PutAll(start, Assignments(keys, values)[..n + 1])
    ensures n + 1 == |keys| ==> updated == PutAll(start, Assignments(keys, values))
  {
    updated := current;
    PutAllPrefix(start, Assignments(keys, values), n);
    assert Assignments(keys, values)[..|keys|] == Assignments(keys, values);
    if values[n].Some? {
      updated := Put(updated, keys[n], values[n].value);
    }
  }

  /** The five `if request.<field> is not None` assignments of `update_environment_api`. */
  method AssignRequest(current: Env, req: EnvironmentUpdate) returns (updated: Env)
    ensures updated == ApiMerged(current, req)
  {
    var values := ApiValues(req);
    assert |ConfigKeys| == |values| == 5;
    assert Assignments(ConfigKeys, values)[..0] == [];
    updated := AssignIfSupplied(current, ConfigKeys, values, 0, current);
    updated := AssignIfSupplied(current, ConfigKeys, values, 1, updated);
    updated := AssignIfSupplied(current, ConfigKeys, values, 2, updated);
    updated := AssignIfSupplied(current, ConfigKeys, values, 3, updated);
    updated := AssignIfSupplied(current, ConfigKeys, values, 4, updated);
  }

  /** `update_environment_api`: load, assign the supplied fields, save, and report which were supplied. */
  method UpdateEnvironmentApi(file: Option<seq<string>>, req: EnvironmentUpdate)
    returns (written: seq<string>, updatedFields: seq<string>)
    ensures written == Render(ApiMerged(EnvOf(file), req))
    ensures updatedFields == SuppliedNames(ApiFields, ApiValues(req))
  {
    var currentValues := LoadEnvValues(file);
    var updatedValues := AssignRequest(currentValues, req);
    written := SaveEnvValues(updatedValues);
    updatedFields := SuppliedNames(ApiFields, ApiValues(req));
  }

  /** `PUT /environment` assigns each supplied field under its key and leaves every other key as it was. */
  lemma ApiMergeChangesOnlySupplied(current: Env, req: EnvironmentUpdate, i: nat, k: string)
    requires i < |ConfigKeys|
    ensures ApiValues(req)[i].Some? ==> Get(ApiMerged(current, req), ConfigKeys[i]) == Some(ApiValues(req)[i].value)
    ensures ApiValues(req)[i].None? ==> Get(ApiMerged(current, req), ConfigKeys[i]) == Get(current, ConfigKeys[i])
    ensures k !in ConfigKeys ==> Get(ApiMerged(current, req), k) == Get(current, k)
    ensures Keys(current) <= Keys(ApiMerged(current, req))
  {
    ConfigKeysDistinct();
    MergeSpec(current, ConfigKeys, ApiValues(req), ConfigKeys[i]);
    MergeSpec(current, ConfigKeys, ApiValues(req), k);
  }

  /** The request body of the webhook: the account's user id, and optional values. */
  datatype CookieUpdate = CookieUpdate(
    userId: string,
    publicationUrl: Option<string>,
    sid: Option<string>,
    substackSid: Option<string>,
    substackLli: Option<string>)

  const WebhookFields: seq<string> := ["publication_url", "sid", "substack_sid", "substack_lli"]
  const WebhookKeys: seq<string> := ["PUBLICATION_URL", "SID", "SUBSTACK_SID", "SUBSTACK_LLI"]

  lemma WebhookKeysDistinct()
    ensures forall i, j :: 0 <= i < j < |WebhookKeys| ==> WebhookKeys[i] != WebhookKeys[j]
    ensures "USER_ID" !in WebhookKeys
  {
    assert WebhookKeys[0][0] == 'P' && WebhookKeys[1][0] == 'S' && |WebhookKeys[1]| == 3;
    assert |WebhookKeys[2]| == 12 && |WebhookKeys[3]| == 12 && WebhookKeys[2][9] == 'S' && WebhookKeys[3][9] == 'L';
    assert "USER_ID"[0] == 'U';
  }

  function WebhookValues(req: CookieUpdate): seq<Option<string>> {
    [req.publicationUrl, req.sid, req.substackSid, req.substackLli]
  }

  /** The values the webhook starts from: the account's, or `{'USER_ID': user_id}` for an account not found. */
  function StartValues(account: Option<Env>, userId: string): Env {
    match account
    case Some(values) => values
    case None => [("USER_ID", userId)]
  }

  function WebhookMerged(account: Option<Env>, req: CookieUpdate): Env {
    PutAll(StartValues(account, req.userId), Assignments(WebhookKeys, WebhookValues(req)))
  }

  /** What the webhook does: the values it hands to the account store (None: nothing saved), the fields reported, the message. */
  datatype WebhookResponse = WebhookResponse(saved: Option<Env>, updatedFields: seq<string>, message: string)

  /** One `if request.<field> is not None:` block of the webhook: assign the value and report the field. */
  method RecordIfSupplied(start: Env, values: seq<Option<string>>, n: nat, current: Env, reported: seq<string>)
    returns (updated: Env, reportedAfter: seq<string>)
    requires |values| == |WebhookKeys| && n < |WebhookKeys|
    requires current == PutAll(start, Assignments(WebhookKeys, values)[..n])
    requires reported == SuppliedNames(WebhookFields[..n], values[..n])
    ensures updated == PutAll(start, Assignments(WebhookKeys, values)[..n + 1])
    ensures reportedAfter == SuppliedNames(WebhookFields[..n + 1], values[..n + 1])
    ensures n + 1 == |WebhookKeys| ==>
              updated == PutAll(start, Assignments(WebhookKeys, values)) &&
              reportedAfter == SuppliedNames(WebhookFields, values)
  {
    updated := current;
    reportedAfter := reported;
    PutAllPrefix(start, Assignments(WebhookKeys, values), n);
    SuppliedNamesPrefix(WebhookFields, values, n);
    assert Assignments(WebhookKeys, values)[..|values|] == Assignments(WebhookKeys, values);
    assert WebhookFields[..|values|] == WebhookFields && values[..|values|] == values;
    if values[n].Some? {
      updated := Put(updated, WebhookKeys[n], values[n].value);
      reportedAfter := reportedAfter + [WebhookFields[n]];
    }
  }

  /** The four `if request.<field> is not None:` blocks of the webhook, from the starting values. */
  method AssignCookies(start: Env, req: CookieUpdate) returns (updated: Env, updatedFields: seq<string>)
    ensures updated == PutAll(start, Assignments(WebhookKeys, WebhookValues(req)))
    ensures updatedFields == SuppliedNames(WebhookFields, WebhookValues(req))
  {
    var values := WebhookValues(req);
    assert |values| == |WebhookKeys| == 4;
    assert Assignments(WebhookKeys, values)[..0] == [] && WebhookFields[..0] == [] && values[..0] == [];
    updated, updatedFields := RecordIfSupplied(start, values, 0, start, []);
    updated, updatedFields := RecordIfSupplied(start, values, 1, updated, updatedFields);
    updated, updatedFields := RecordIfSupplied(start, values, 2, updated, updatedFields);
    updated, updatedFields := RecordIfSupplied(start, values, 3, updated, updatedFields);
  }

  /** `update_environment_webhook`, with the account lookup's outcome as `account` (None: no account has this user id). */
  method UpdateEnvironmentWebhook(account: Option<Env>, req: CookieUpdate) returns (response: WebhookResponse)
    ensures response.updatedFields == SuppliedNames(WebhookFields, WebhookValues(req))
    ensures response.updatedFields == [] ==>
              response.saved.None? &&
              response.message == "No changes made for user " + req.userId + " - no values provided"
    ensures response.updatedFields != [] ==>
              response.saved == Some(WebhookMerged(account, req)) &&
              response.message == "Environment updated successfully for user " + req.userId + " - " +
                                  NatToString(|response.updatedFields|) + " field(s) changed"
  {
    var currentValues := if account.Some? then account.value else [("USER_ID", req.userId)];
    var updatedFields;
    currentValues, updatedFields := AssignCookies(currentValues, req);
    if updatedFields == [] {
      return WebhookResponse(None, [], "No changes made for user " + req.userId + " - no values provided");
    }
    response := WebhookResponse(Some(currentValues), updatedFields,
                                "Environment updated successfully for user " + req.userId + " - " +
                                NatToString(|updatedFields|) + " field(s) changed");
  }

  /** The webhook saves iff some value is supplied. */
  lemma WebhookSavesIff(req: CookieUpdate)
    ensures SuppliedNames(WebhookFields, WebhookValues(req)) == [] <==>
            forall j :: 0 <= j < |WebhookValues(req)| ==> WebhookValues(req)[j].None?
  {
    SuppliedNamesEmpty(WebhookFields, WebhookValues(req));
  }

  /**
   * The webhook assigns each supplied value under its key and leaves every
   * other key, `USER_ID` included, as the account had it.
   */
  lemma WebhookMergeSpec(account: Option<Env>, req: CookieUpdate, i: nat, k: string)
    requires i < |WebhookKeys|
    ensures WebhookValues(req)[i].Some? ==>
              Get(WebhookMerged(account, req), WebhookKeys[i]) == Some(WebhookValues(req)[i].value)
    ensures WebhookValues(req)[i].None? ==>
              Get(WebhookMerged(account, req), WebhookKeys[i]) == Get(StartValues(account, req.userId), WebhookKeys[i])
    ensures k !in WebhookKeys ==> Get(WebhookMerged(account, req), k) == Get(StartValues(account, req.userId), k)
  {
    WebhookKeysDistinct();
    var start := StartValues(account, req.userId);
    MergeSpec(start, WebhookKeys, WebhookValues(req), WebhookKeys[i]);
    MergeSpec(start, WebhookKeys, WebhookValues(req), k);
  }

  /** An account not found starts from `{'USER_ID': user_id}`, and the webhook never changes `USER_ID`. */
  lemma WebhookNewAccount(req: CookieUpdate)
    ensures Get(WebhookMerged(None, req), "USER_ID") == Some(req.userId)
  {
    WebhookKeysDistinct();
    MergeSpec(StartValues(None, req.userId), WebhookKeys, WebhookValues(req), "USER_ID");
  }
}
