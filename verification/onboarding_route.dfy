/**
 * The onboarding route: `validatePayload` and the GET/POST handlers in front of
 * the onboarding store.
 */
module OnboardingRoute {
  import opened Wrappers
  import opened Json
  import opened Http
  import opened OnboardingStore
  import Text

  /** The fields that must be non-empty strings, in the order they are checked. */
  const RequiredStrings: seq<string> :=
    ["companyName", "hqCountry", "employeeCount", "riskStance", "notificationChannel", "summaryFocus"]

  /** `payload[key]` is truthy and a string. */
  predicate IsFilledString(payload: Value, key: string)
  {
    match Field(payload, key)
    case Some(Str(s)) => s != ""
    case _ => false
  }

  /** `Array.isArray(payload[key])`. */
  predicate IsArrayField(payload: Value, key: string)
  {
    match Field(payload, key)
    case Some(Arr(_)) => true
    case _ => false
  }

  /** What `validatePayload` does with a request body: accepts it, returns an
      error message, or throws (reading a property of `null`). */
  datatype Validation = Accepted | Rejected(error: string) | Throws

  /** The index of the first key that is not a non-empty string, if any. */
  function FirstUnfilled(payload: Value, keys: seq<string>): (r: Option<nat>)
    ensures r.None? <==> forall i :: 0 <= i < |keys| ==> IsFilledString(payload, keys[i])
    ensures r.Some? ==> r.value < |keys| && !IsFilledString(payload, keys[r.value])
    ensures r.Some? ==> forall j :: 0 <= j < r.value ==> IsFilledString(payload, keys[j])
  {
    if keys == [] then None
    else if !IsFilledString(payload, keys[0]) then Some(0)
    else
      match FirstUnfilled(payload, keys[1..])
      case None => None
      case Some(i) => Some(i + 1)
  }

  /** The verdict of `validatePayload`: the required strings first, in order, then
      the three arrays, in order. */
  function ValidationOf(payload: Value): (r: Validation)
    ensures r.Throws? <==> payload.Null?
    ensures r.Accepted? <==>
      && !payload.Null?
      && (forall i :: 0 <= i < |RequiredStrings| ==> IsFilledString(payload, RequiredStrings[i]))
      && IsArrayField(payload, "sectors")
      && IsArrayField(payload, "regulatorFeeds")
      && IsArrayField(payload, "policySnapshots")
  {
    if payload.Null? then Throws
    else
      match FirstUnfilled(payload, RequiredStrings)
      case Some(i) => Rejected("Missing or invalid field: " + RequiredStrings[i])
      case None =>
        if !IsArrayField(payload, "sectors") then Rejected("Sectors must be an array.")
        else if !IsArrayField(payload, "regulatorFeeds") then Rejected("Regulator feeds must be an array.")
        else if !IsArrayField(payload, "policySnapshots") then Rejected("Policy snapshots must be an array.")
        else Accepted
  }

  /** `validatePayload`: the loop over the required strings, then the array checks. */
  method ValidatePayload(payload: Value) returns (r: Validation)
    ensures r == ValidationOf(payload)
  {
    if payload.Null? {
      return Throws;
    }
    var i := 0;
    while i < |RequiredStrings|
      invariant 0 <= i <= |RequiredStrings|
      invariant forall j :: 0 <= j < i ==> IsFilledString(payload, RequiredStrings[j])
    {
      var key := RequiredStrings[i];
      var field := Field(payload, key);
      if !(field.Some? && field.value.Str? && field.value.s != "") {
        return Rejected("Missing or invalid field: " + key);
      }
      i := i + 1;
    }
    if !IsArrayField(payload, "sectors") {
      return Rejected("Sectors must be an array.");
    }
    if !IsArrayField(payload, "regulatorFeeds") {
      return Rejected("Regulator feeds must be an array.");
    }
    if !IsArrayField(payload, "policySnapshots") {
      return Rejected("Policy snapshots must be an array.");
    }
    return Accepted;
  }

  /** The first failing required key, in the listed order, is the one reported. */
  lemma FirstFailingKeyReported(payload: Value, i: nat)
    requires !payload.Null?
    requires i < |RequiredStrings| && !IsFilledString(payload, RequiredStrings[i])
    requires forall j :: 0 <= j < i ==> IsFilledString(payload, RequiredStrings[j])
    ensures ValidationOf(payload) == Rejected("Missing or invalid field: " + RequiredStrings[i])
  {
  }

  /** An empty string in a required field is rejected. */
  lemma EmptyRequiredStringRejected(payload: Value, key: string)
    requires key in RequiredStrings
    requires Field(payload, key) == Some(Str(""))
    ensures ValidationOf(payload).Rejected?
  {
    var k :| 0 <= k < |RequiredStrings| && RequiredStrings[k] == key;
    assert !IsFilledString(payload, RequiredStrings[k]);
  }

  /** The array checks run only once every required string is present, in the
      order sectors, regulator feeds, policy snapshots. */
  lemma ArrayChecksAfterStrings(payload: Value)
    requires !payload.Null?
    ensures (exists i :: 0 <= i < |RequiredStrings| && !IsFilledString(payload, RequiredStrings[i])) ==>
      ValidationOf(payload).Rejected? && Text.StartsWith(ValidationOf(payload).error, "Missing or invalid field: ")
    ensures (forall i :: 0 <= i < |RequiredStrings| ==> IsFilledString(payload, RequiredStrings[i])) ==>
      && (!IsArrayField(payload, "sectors") ==> ValidationOf(payload) == Rejected("Sectors must be an array."))
      && (IsArrayField(payload, "sectors") && !IsArrayField(payload, "regulatorFeeds") ==>
            ValidationOf(payload) == Rejected("Regulator feeds must be an array."))
      && (IsArrayField(payload, "sectors") && IsArrayField(payload, "regulatorFeeds") && !IsArrayField(payload, "policySnapshots") ==>
            ValidationOf(payload) == Rejected("Policy snapshots must be an array."))
  {
    var f := FirstUnfilled(payload, RequiredStrings);
    if f.Some? {
      var msg := "Missing or invalid field: " + RequiredStrings[f.value];
      assert msg[..|"Missing or invalid field: "|] == "Missing or invalid field: ";
    }
  }

  /** Enum values and array contents are not checked: in an accepted body any
      non-empty stance, channel and cadence, and any array contents, pass too. */
  lemma EnumsAndContentsUnchecked(payload: Value, stance: string, channel: string, focus: string,
                                  sectors: seq<Value>, feeds: seq<Value>, snapshots: seq<Value>)
    requires ValidationOf(payload).Accepted?
    requires stance != "" && channel != "" && focus != ""
    ensures
      var loose := Obj(payload.fields["riskStance" := Str(stance)]["notificationChannel" := Str(channel)]
                                     ["summaryFocus" := Str(focus)]["sectors" := Arr(sectors)]
                                     ["regulatorFeeds" := Arr(feeds)]["policySnapshots" := Arr(snapshots)]);
      ValidationOf(loose) == Accepted
  {
    var loose := Obj(payload.fields["riskStance" := Str(stance)]["notificationChannel" := Str(channel)]
                                   ["summaryFocus" := Str(focus)]["sectors" := Arr(sectors)]
                                   ["regulatorFeeds" := Arr(feeds)]["policySnapshots" := Arr(snapshots)]);
    forall i | 0 <= i < |RequiredStrings|
      ensures IsFilledString(loose, RequiredStrings[i])
    {
      assert IsFilledString(payload, RequiredStrings[i]);
    }
  }

  function StringField(payload: Value, key: string): string
  {
    match Field(payload, key)
    case Some(Str(s)) => s
    case _ => ""
  }

  function ArrayField(payload: Value, key: string): seq<Value>
  {
    match Field(payload, key)
    case Some(Arr(items)) => items
    case _ => []
  }

  /** `payload as OnboardingProfile` once it has passed validation. */
  function PayloadToInput(payload: Value): (p: ProfileInput)
    requires ValidationOf(payload).Accepted?
    ensures Field(payload, "companyName") == Some(Str(p.companyName)) && p.companyName != ""
    ensures Field(payload, "hqCountry") == Some(Str(p.hqCountry)) && p.hqCountry != ""
    ensures Field(payload, "employeeCount") == Some(Str(p.employeeCount)) && p.employeeCount != ""
    ensures Field(payload, "riskStance") == Some(Str(p.riskStance)) && p.riskStance != ""
    ensures Field(payload, "notificationChannel") == Some(Str(p.notificationChannel)) && p.notificationChannel != ""
    ensures Field(payload, "summaryFocus") == Some(Str(p.summaryFocus)) && p.summaryFocus != ""
    ensures Field(payload, "sectors") == Some(Arr(p.sectors))
    ensures Field(payload, "regulatorFeeds") == Some(Arr(p.regulatorFeeds))
    ensures Field(payload, "policySnapshots") == Some(Arr(p.policySnapshots))
  {
    assert IsFilledString(payload, RequiredStrings[0]);
    assert IsFilledString(payload, RequiredStrings[1]);
    assert IsFilledString(payload, RequiredStrings[2]);
    assert IsFilledString(payload, RequiredStrings[3]);
    assert IsFilledString(payload, RequiredStrings[4]);
    assert IsFilledString(payload, RequiredStrings[5]);
    ProfileInput(
      StringField(payload, "companyName"), StringField(payload, "hqCountry"), StringField(payload, "employeeCount"),
      ArrayField(payload, "sectors"), ArrayField(payload, "regulatorFeeds"), ArrayField(payload, "policySnapshots"),
      StringField(payload, "riskStance"), StringField(payload, "notificationChannel"), StringField(payload, "summaryFocus"))
  }

  /** What POST does with a request: `body` is None when `request.json()` throws. */
  datatype PostDecision =
    | NoSession
    | BodyThrows
    | Invalid(error: string)
    | SaveProfile(user: UserId, input: ProfileInput)

  function DecidePost(session: Option<Session>, body: Option<Value>): (d: PostDecision)
    ensures session.None? <==> d.NoSession?
    ensures d.SaveProfile? <==> session.Some? && body.Some? && ValidationOf(body.value).Accepted?
    ensures d.SaveProfile? ==> d.user == session.value.sub && d.input == PayloadToInput(body.value)
    ensures d.Invalid? <==> session.Some? && body.Some? && ValidationOf(body.value).Rejected?
    ensures d.Invalid? ==> d.error == ValidationOf(body.value).error
  {
    match session
    case None => NoSession
    case Some(s) =>
      match body
      case None => BodyThrows
      case Some(payload) =>
        match ValidationOf(payload)
        case Throws => BodyThrows
        case Rejected(e) => Invalid(e)
        case Accepted => SaveProfile(s.sub, PayloadToInput(payload))
  }

  /** GET: 401 without a session, else the stored profile or null. */
  function Get(store: Store, session: Option<Session>): (r: Response<Option<OnboardingProfile>>)
    reads store
    ensures session.None? <==> r == Fail(401, "Unauthorized")
    ensures session.Some? ==> r.Ok? && r.body == store.GetProfile(session.value.sub)
  {
    match session
    case None => Fail(401, "Unauthorized")
    case Some(s) => Ok(store.GetProfile(s.sub))
  }

  /** POST: 401 and 400 leave the store alone; an accepted body is saved and a
      following GET reads it back, unless the database rejects the write, which
      leaves the store alone and fails the request. */
  method Post(store: Store, session: Option<Session>, body: Option<Value>, now: Timestamp, freshId: CompanyId)
    returns (r: Response<bool>)
    requires store.Valid() && freshId !in store.companies
    modifies store
    ensures store.Valid()
    ensures match DecidePost(session, body)
            case NoSession => r == Fail(401, "Unauthorized") && unchanged(store)
            case BodyThrows => r == Crash && unchanged(store)
            case Invalid(e) => r == Fail(400, e) && unchanged(store)
            case SaveProfile(user, p) =>
              && (r.Crash? <==> !Writable(BuildCompanyPayload(p, now)))
              && (r.Crash? ==> store.companies == old(store.companies) && store.members == old(store.members))
              && (!r.Crash? ==>
                    && r == Ok(true)
                    && SavedState(old(store.companies), old(store.members), store.companies, store.members,
                                  user, p, now, freshId)
                    && var g := Get(store, session);
                       g.Ok? && g.body.Some? && ReadsBackAs(g.body.value, p))
  {
    var d := DecidePost(session, body);
    match d
    case NoSession => r := Fail(401, "Unauthorized");
    case BodyThrows => r := Crash;
    case Invalid(e) => r := Fail(400, e);
    case SaveProfile(user, p) =>
      var saved := store.Save(user, p, now, freshId);
      if saved.Some? {
        r := Ok(true);
      } else {
        r := Crash;
      }
  }
}
