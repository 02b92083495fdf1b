/**
 * The onboarding profile store (src/lib/onboarding-store.ts): the lookup
 * tables between the profile's string literals and the database enum codes,
 * the defensive parsers from stored JSON columns, the mapping between a
 * profile and a company record, and the upsert store keyed by the caller's
 * earliest membership.
 *
 * The database is the class `Store`: companies by id and the list of
 * memberships. Timestamps are opaque integers supplied by the caller.
 */
module OnboardingStore {
  import opened Wrappers
  import opened Json

  type UserId = string
  type CompanyId = string

  datatype PolicySnapshot = PolicySnapshot(area: string, maturity: string, ownerTeam: string, ownerContact: string)

  datatype RiskStanceCode = CONSERVATIVE | BALANCED | AGGRESSIVE
  datatype CadenceCode = WEEKLY | BIWEEKLY | MONTHLY
  datatype ChannelCode = EMAIL | SLACK | TEAMS
  datatype CompanyRole = OWNER | MEMBER
  datatype MemberStatus = ACTIVE

  // ---------------------------------------------------------------------------
  // Records as ordered entry lists, and their inversion
  // ---------------------------------------------------------------------------

  /** `Object.fromEntries(entries)`: a later entry overwrites an earlier one with the same key. */
  function FromEntries<K, V>(entries: seq<(K, V)>): map<K, V>
  {
    if entries == [] then map[] else map[entries[0].0 := entries[0].1] + FromEntries(entries[1..])
  }

  /** The keys of the built record are exactly the entries' keys. */
  lemma {:induction false} FromEntriesKeys<K, V>(entries: seq<(K, V)>, k: K)
    ensures k in FromEntries(entries) <==> exists i :: 0 <= i < |entries| && entries[i].0 == k
  {
    if entries != [] {
      FromEntriesKeys(entries[1..], k);
      if exists i :: 0 <= i < |entries| && entries[i].0 == k {
        var i :| 0 <= i < |entries| && entries[i].0 == k;
        if i > 0 { assert entries[1..][i - 1].0 == k; }
      }
      if exists i :: 0 <= i < |entries[1..]| && entries[1..][i].0 == k {
        var i :| 0 <= i < |entries[1..]| && entries[1..][i].0 == k;
        assert entries[i + 1].0 == k;
      }
    }
  }

  /** Each key of the record appears once. */
  ghost predicate DistinctKeys<K, V>(entries: seq<(K, V)>)
  {
    forall i, j :: 0 <= i < j < |entries| ==> entries[i].0 != entries[j].0
  }

  /** Each value of the record appears once. */
  ghost predicate DistinctValues<K, V>(entries: seq<(K, V)>)
  {
    forall i, j :: 0 <= i < j < |entries| ==> entries[i].1 != entries[j].1
  }

  function Swapped<K, V>(entries: seq<(K, V)>): (r: seq<(V, K)>)
    ensures |r| == |entries|
    ensures forall i :: 0 <= i < |entries| ==> r[i] == (entries[i].1, entries[i].0)
  {
    if entries == [] then [] else [(entries[0].1, entries[0].0)] + Swapped(entries[1..])
  }

  /** `invertRecord`: `Object.fromEntries(Object.entries(input).map(([k, v]) => [v, k]))`. */
  function InvertRecord<K, V>(entries: seq<(K, V)>): (r: map<V, K>)
    ensures r.Keys == set i | 0 <= i < |entries| :: entries[i].1
  {
    var r := FromEntries(Swapped(entries));
    assert r.Keys == set i | 0 <= i < |entries| :: entries[i].1 by {
      forall v | v in r.Keys ensures v in set i | 0 <= i < |entries| :: entries[i].1 {
        FromEntriesKeys(Swapped(entries), v);
      }
      forall v | v in set i | 0 <= i < |entries| :: entries[i].1 ensures v in r.Keys {
        FromEntriesKeys(Swapped(entries), v);
      }
    }
    r
  }

  /** With distinct keys, reading entry i's key from the record gives entry i's value. */
  lemma {:induction false} FromEntriesAt<K, V>(entries: seq<(K, V)>, i: int)
    requires DistinctKeys(entries)
    requires 0 <= i < |entries|
    ensures entries[i].0 in FromEntries(entries) && FromEntries(entries)[entries[i].0] == entries[i].1
  {
    if i > 0 {
      var rest := entries[1..];
      assert rest[i - 1] == entries[i];
      assert DistinctKeys(rest) by {
        forall a, b | 0 <= a < b < |rest| ensures rest[a].0 != rest[b].0 {
          assert rest[a] == entries[a + 1] && rest[b] == entries[b + 1];
        }
      }
      FromEntriesAt(rest, i - 1);
    } else if |entries| > 1 {
      FromEntriesKeys(entries[1..], entries[0].0);
      assert forall j :: 0 <= j < |entries[1..]| ==> entries[1..][j] == entries[j + 1];
    }
  }

  /** When the record is one-to-one, its inverse undoes it: the inverse has a key
      for every value, reading the record at the inverse's answer gives the value
      back, and reading the inverse at the record's answer gives the key back. */
  lemma InvertRecordInverts<K, V>(entries: seq<(K, V)>, k: K, v: V)
    requires DistinctKeys(entries) && DistinctValues(entries)
    ensures v in InvertRecord(entries) <==> exists i :: 0 <= i < |entries| && entries[i].1 == v
    ensures v in InvertRecord(entries) ==>
      InvertRecord(entries)[v] in FromEntries(entries) && FromEntries(entries)[InvertRecord(entries)[v]] == v
    ensures k in FromEntries(entries) ==>
      FromEntries(entries)[k] in InvertRecord(entries) && InvertRecord(entries)[FromEntries(entries)[k]] == k
  {
    var sw := Swapped(entries);
    assert DistinctKeys(sw);
    FromEntriesKeys(sw, v);
    if v in InvertRecord(entries) {
      var i :| 0 <= i < |sw| && sw[i].0 == v;
      FromEntriesAt(sw, i);
      FromEntriesAt(entries, i);
    }
    FromEntriesKeys(entries, k);
    if k in FromEntries(entries) {
      var i :| 0 <= i < |entries| && entries[i].0 == k;
      FromEntriesAt(sw, i);
      FromEntriesAt(entries, i);
    }
  }

  // ---------------------------------------------------------------------------
  // The lookup tables
  // ---------------------------------------------------------------------------

  const RiskEntries: seq<(string, RiskStanceCode)> :=
    [("conservative", CONSERVATIVE), ("balanced", BALANCED), ("aggressive", AGGRESSIVE)]

  const SummaryEntries: seq<(string, CadenceCode)> :=
    [("weekly", WEEKLY), ("biweekly", BIWEEKLY), ("monthly", MONTHLY)]

  const InverseNotificationEntries: seq<(ChannelCode, string)> :=
    [(EMAIL, "gmail"), (SLACK, "gmail"), (TEAMS, "gmail")]

  function RiskMap(): map<string, RiskStanceCode> { FromEntries(RiskEntries) }
  function SummaryMap(): map<string, CadenceCode> { FromEntries(SummaryEntries) }
  function InverseRiskMap(): map<RiskStanceCode, string> { InvertRecord(RiskEntries) }
  function InverseSummaryMap(): map<CadenceCode, string> { InvertRecord(SummaryEntries) }
  function InverseNotificationMap(): map<ChannelCode, string> { FromEntries(InverseNotificationEntries) }

  predicate IsRiskStance(s: string) { s == "conservative" || s == "balanced" || s == "aggressive" }
  predicate IsSummaryFocus(s: string) { s == "weekly" || s == "biweekly" || s == "monthly" }

  /** A one-to-one record of three entries knows exactly its three keys, and it
      and its inverse undo each other. */
  lemma ThreeEntryLookup<K, V>(e: seq<(K, V)>, k: K, c: V)
    requires |e| == 3
    requires e[0].0 != e[1].0 && e[0].0 != e[2].0 && e[1].0 != e[2].0
    requires e[0].1 != e[1].1 && e[0].1 != e[2].1 && e[1].1 != e[2].1
    requires c == e[0].1 || c == e[1].1 || c == e[2].1
    ensures k in FromEntries(e) <==> k == e[0].0 || k == e[1].0 || k == e[2].0
    ensures k in FromEntries(e) ==> FromEntries(e)[k] in InvertRecord(e) && InvertRecord(e)[FromEntries(e)[k]] == k
    ensures c in InvertRecord(e) && InvertRecord(e)[c] in FromEntries(e) && FromEntries(e)[InvertRecord(e)[c]] == c
  {
    assert DistinctKeys(e) && DistinctValues(e);
    InvertRecordInverts(e, k, c);
    FromEntriesKeys(e, k);
  }

  /** The stance table knows exactly the three stances, and its inverse maps each
      code back to the stance it came from, in both directions. */
  lemma RiskLookup(k: string, c: RiskStanceCode)
    ensures k in RiskMap() <==> IsRiskStance(k)
    ensures k in RiskMap() ==> RiskMap()[k] in InverseRiskMap() && InverseRiskMap()[RiskMap()[k]] == k
    ensures c in InverseRiskMap() && InverseRiskMap()[c] in RiskMap() && RiskMap()[InverseRiskMap()[c]] == c
  {
    ThreeEntryLookup(RiskEntries, k, c);
  }

  /** The cadence table knows exactly the three cadences, and its inverse maps each
      code back to the cadence it came from, in both directions. */
  lemma SummaryLookup(k: string, c: CadenceCode)
    ensures k in SummaryMap() <==> IsSummaryFocus(k)
    ensures k in SummaryMap() ==> SummaryMap()[k] in InverseSummaryMap() && InverseSummaryMap()[SummaryMap()[k]] == k
    ensures c in InverseSummaryMap() && InverseSummaryMap()[c] in SummaryMap() && SummaryMap()[InverseSummaryMap()[c]] == c
  {
    ThreeEntryLookup(SummaryEntries, k, c);
  }

  /** Every stored channel code reads back as "gmail". */
  lemma NotificationLookup(c: ChannelCode)
    ensures c in InverseNotificationMap() && InverseNotificationMap()[c] == "gmail"
  {
    var e := InverseNotificationEntries;
    assert DistinctKeys(e);
    var i := match c case EMAIL => 0 case SLACK => 1 case TEAMS => 2;
    FromEntriesAt(e, i);
  }

  function Get<K, V>(m: map<K, V>, k: K): Option<V>
  {
    if k in m then Some(m[k]) else None
  }

  /** The members every object literal inherits from `Object.prototype`. */
  const PrototypeNames: set<string> :=
    {"constructor", "__defineGetter__", "__defineSetter__", "hasOwnProperty",
     "__lookupGetter__", "__lookupSetter__", "isPrototypeOf", "propertyIsEnumerable",
     "toString", "valueOf", "__proto__", "toLocaleString"}

  /** What `record[key]` yields on an object literal: its own property, a member
      inherited from `Object.prototype` (a function, or the prototype object for
      "__proto__"), or `undefined`. */
  datatype Lookup<T> = Own(value: T) | Inherited(name: string) | Undefined

  function Read<T>(m: map<string, T>, k: string): (r: Lookup<T>)
    ensures r.Own? <==> k in m
    ensures r.Own? ==> r.value == m[k]
    ensures r.Inherited? <==> k !in m && k in PrototypeNames
  {
    if k in m then Own(m[k]) else if k in PrototypeNames then Inherited(k) else Undefined
  }

  /** An enum code looked up for a column: undefined leaves the column unset. */
  function Code<T>(l: Lookup<T>): Option<T>
  {
    if l.Own? then Some(l.value) else None
  }

  // ---------------------------------------------------------------------------
  // Profiles and company records
  // ---------------------------------------------------------------------------

  /** The profile a caller submits: a validated request body. The array fields
      are JSON arrays whose entries are not checked. */
  datatype ProfileInput = ProfileInput(
    companyName: string,
    hqCountry: string,
    employeeCount: string,
    sectors: seq<Value>,
    regulatorFeeds: seq<Value>,
    policySnapshots: seq<Value>,
    riskStance: string,
    notificationChannel: string,
    summaryFocus: string)

  /** The profile read back. A stance or cadence the tables do not know reads
      back as None (`undefined`). */
  datatype OnboardingProfile = OnboardingProfile(
    companyName: string,
    hqCountry: string,
    employeeCount: string,
    sectors: seq<string>,
    regulatorFeeds: seq<string>,
    policySnapshots: seq<PolicySnapshot>,
    riskStance: Option<string>,
    notificationChannel: string,
    summaryFocus: Option<string>,
    updatedAt: Timestamp)

  /** The company columns `buildCompanyPayload` writes, with the enum columns
      as the table lookups yield them. */
  datatype CompanyPayload = CompanyPayload(
    name: string,
    hqCountry: string,
    employeeCountBand: string,
    sectors: Value,
    regulatorFeeds: Value,
    policySnapshots: Value,
    riskStance: Lookup<RiskStanceCode>,
    notificationChannel: ChannelCode,
    summaryCadence: Lookup<CadenceCode>,
    onboardingCompletedAt: Timestamp)

  /** A company row. A None code is a column value this model does not determine
      (written from an unknown literal). */
  datatype Company = Company(
    id: CompanyId,
    name: string,
    hqCountry: string,
    employeeCountBand: string,
    sectors: Value,
    regulatorFeeds: Value,
    policySnapshots: Value,
    riskStance: Option<RiskStanceCode>,
    notificationChannel: ChannelCode,
    summaryCadence: Option<CadenceCode>,
    onboardingCompletedAt: Option<Timestamp>,
    createdByUserId: Option<UserId>,
    updatedAt: Timestamp)

  datatype Membership = Membership(
    userId: UserId,
    companyId: CompanyId,
    role: CompanyRole,
    status: MemberStatus,
    createdAt: Timestamp)

  /** `buildCompanyPayload`: the submitted fields, the stance and cadence looked
      up in their tables, and the channel always EMAIL. */
  function BuildCompanyPayload(p: ProfileInput, now: Timestamp): (r: CompanyPayload)
    ensures r.name == p.companyName && r.hqCountry == p.hqCountry && r.employeeCountBand == p.employeeCount
    ensures r.sectors == Arr(p.sectors) && r.regulatorFeeds == Arr(p.regulatorFeeds)
    ensures r.policySnapshots == Arr(p.policySnapshots)
    ensures r.notificationChannel == EMAIL && r.onboardingCompletedAt == now
    ensures r.riskStance.Own? <==> IsRiskStance(p.riskStance)
    ensures r.riskStance.Inherited? <==> p.riskStance in PrototypeNames
    ensures r.summaryCadence.Own? <==> IsSummaryFocus(p.summaryFocus)
    ensures r.summaryCadence.Inherited? <==> p.summaryFocus in PrototypeNames
  {
    RiskLookup(p.riskStance, CONSERVATIVE);
    SummaryLookup(p.summaryFocus, WEEKLY);
    LiteralsNotInherited(p.riskStance);
    LiteralsNotInherited(p.summaryFocus);
    CompanyPayload(
      p.companyName, p.hqCountry, p.employeeCount,
      Arr(p.sectors), Arr(p.regulatorFeeds), Arr(p.policySnapshots),
      Read(RiskMap(), p.riskStance), EMAIL, Read(SummaryMap(), p.summaryFocus), now)
  }

  /** No stance or cadence is the name of an inherited member. */
  lemma LiteralsNotInherited(k: string)
    ensures IsRiskStance(k) ==> k !in PrototypeNames
    ensures IsSummaryFocus(k) ==> k !in PrototypeNames
  {
  }

  /** The database takes an enum code or `undefined` for an enum column; a payload
      holding an inherited member instead is rejected, and the write throws. */
  predicate Writable(d: CompanyPayload)
  {
    !d.riskStance.Inherited? && !d.summaryCadence.Inherited?
  }

  /** `company.update({ data })`: a field the payload leaves undefined keeps its value. */
  function UpdateCompany(c: Company, d: CompanyPayload, now: Timestamp): Company
  {
    c.(name := d.name, hqCountry := d.hqCountry, employeeCountBand := d.employeeCountBand,
       sectors := d.sectors, regulatorFeeds := d.regulatorFeeds, policySnapshots := d.policySnapshots,
       riskStance := if d.riskStance.Own? then Code(d.riskStance) else c.riskStance,
       notificationChannel := d.notificationChannel,
       summaryCadence := if d.summaryCadence.Own? then Code(d.summaryCadence) else c.summaryCadence,
       onboardingCompletedAt := Some(d.onboardingCompletedAt), updatedAt := now)
  }

  /** `company.create({ data: { ...data, createdByUserId } })`. An undefined enum
      column is stored as a code this model does not determine (None). */
  function NewCompany(id: CompanyId, user: UserId, d: CompanyPayload, now: Timestamp): Company
  {
    Company(id, d.name, d.hqCountry, d.employeeCountBand, d.sectors, d.regulatorFeeds, d.policySnapshots,
            Code(d.riskStance), d.notificationChannel, Code(d.summaryCadence),
            Some(d.onboardingCompletedAt), Some(user), now)
  }

  /** `parseStringArray` of onboarding-store.ts. */
  function ParseStringArray(v: Value): (r: seq<string>)
    ensures !v.Arr? ==> r == []
    ensures v.Arr? ==> r == StringEntries(v.items)
  {
    if v.Arr? then StringEntries(v.items) else []
  }

  /** One entry of `parsePolicySnapshots`: an object with string area, maturity
      and ownerTeam; a non-string ownerContact becomes "". */
  function SnapshotOf(entry: Value): (r: Option<PolicySnapshot>)
    ensures r.Some? <==> (
      && entry.Obj?
      && (match Field(entry, "area") case Some(Str(_)) => true case _ => false)
      && (match Field(entry, "maturity") case Some(Str(_)) => true case _ => false)
      && (match Field(entry, "ownerTeam") case Some(Str(_)) => true case _ => false))
    ensures r.Some? ==> (
      && Field(entry, "area") == Some(Str(r.value.area))
      && Field(entry, "maturity") == Some(Str(r.value.maturity))
      && Field(entry, "ownerTeam") == Some(Str(r.value.ownerTeam))
      && r.value.ownerContact == (match Field(entry, "ownerContact") case Some(Str(s)) => s case _ => ""))
  {
    match (Field(entry, "area"), Field(entry, "maturity"), Field(entry, "ownerTeam"))
    case (Some(Str(area)), Some(Str(maturity)), Some(Str(ownerTeam))) =>
      var contact := match Field(entry, "ownerContact") case Some(Str(s)) => s case _ => "";
      Some(PolicySnapshot(area, maturity, ownerTeam, contact))
    case _ => None
  }

  /** The snapshots kept from an array's entries, in order. */
  function SnapshotsFrom(items: seq<Value>): (r: seq<PolicySnapshot>)
    ensures |r| <= |items|
  {
    if items == [] then []
    else
      var rest := SnapshotsFrom(items[1..]);
      match SnapshotOf(items[0])
      case Some(s) => [s] + rest
      case None => rest
  }

  lemma {:induction false} SnapshotsFromAppend(a: seq<Value>, b: seq<Value>)
    ensures SnapshotsFrom(a + b) == SnapshotsFrom(a) + SnapshotsFrom(b)
  {
    if a == [] {
      assert a + b == b;
    } else {
      assert (a + b)[0] == a[0];
      assert (a + b)[1..] == a[1..] + b;
      SnapshotsFromAppend(a[1..], b);
    }
  }

  /** Exactly the well-formed entries are kept: an entry is dropped iff it is not
      a snapshot object, and a kept entry becomes one snapshot. */
  lemma SnapshotsFromOne(v: Value)
    ensures SnapshotsFrom([v]) == (match SnapshotOf(v) case Some(s) => [s] case None => [])
  {
    assert [v][1..] == [];
  }

  /** `parsePolicySnapshots`: the reduce that pushes each well-formed entry. */
  method ParsePolicySnapshots(v: Value) returns (snapshots: seq<PolicySnapshot>)
    ensures !v.Arr? ==> snapshots == []
    ensures v.Arr? ==> snapshots == SnapshotsFrom(v.items)
  {
    if !v.Arr? {
      return [];
    }
    snapshots := [];
    var i := 0;
    while i < |v.items|
      invariant 0 <= i <= |v.items|
      invariant snapshots == SnapshotsFrom(v.items[..i])
    {
      var entry := v.items[i];
      var kept := SnapshotOf(entry);
      if kept.Some? {
        snapshots := snapshots + [kept.value];
      }
      SnapshotsFromAppend(v.items[..i], [entry]);
      SnapshotsFromOne(entry);
      assert v.items[..i + 1] == v.items[..i] + [entry];
      i := i + 1;
    }
    assert v.items[..i] == v.items;
  }

  /** How a snapshot is stored in the JSON column. */
  function SnapshotJson(s: PolicySnapshot): Value
  {
    Obj(map["area" := Str(s.area), "maturity" := Str(s.maturity),
            "ownerTeam" := Str(s.ownerTeam), "ownerContact" := Str(s.ownerContact)])
  }

  function SnapshotsJson(ss: seq<PolicySnapshot>): (r: seq<Value>)
    ensures |r| == |ss| && forall i :: 0 <= i < |ss| ==> r[i] == SnapshotJson(ss[i])
  {
    if ss == [] then [] else [SnapshotJson(ss[0])] + SnapshotsJson(ss[1..])
  }

  /** Stored snapshots read back unchanged. */
  lemma {:induction false} SnapshotsRoundTrip(ss: seq<PolicySnapshot>)
    ensures SnapshotsFrom(SnapshotsJson(ss)) == ss
  {
    if ss != [] {
      var j := SnapshotsJson(ss);
      assert j[1..] == SnapshotsJson(ss[1..]);
      assert SnapshotOf(j[0]) == Some(ss[0]);
      SnapshotsRoundTrip(ss[1..]);
    }
  }

  /** `toOnboardingProfile`. */
  function ToOnboardingProfile(c: Company): (r: OnboardingProfile)
    ensures r.notificationChannel == "gmail"
    ensures r.companyName == c.name && r.hqCountry == c.hqCountry && r.employeeCount == c.employeeCountBand
    ensures r.updatedAt == c.updatedAt
  {
    NotificationLookup(c.notificationChannel);
    OnboardingProfile(
      c.name, c.hqCountry, c.employeeCountBand,
      ParseStringArray(c.sectors), ParseStringArray(c.regulatorFeeds),
      if c.policySnapshots.Arr? then SnapshotsFrom(c.policySnapshots.items) else [],
      match c.riskStance case Some(code) => Get(InverseRiskMap(), code) case None => None,
      InverseNotificationMap()[c.notificationChannel],
      match c.summaryCadence case Some(code) => Get(InverseSummaryMap(), code) case None => None,
      c.updatedAt)
  }

  /** The profile a company row yields once the submitted profile has been written
      to it: every field of the submission, the string entries of its lists and
      its well-formed snapshots, a known stance and cadence, and channel "gmail". */
  ghost predicate ReadsBackAs(r: OnboardingProfile, p: ProfileInput)
  {
    && r.companyName == p.companyName
    && r.hqCountry == p.hqCountry
    && r.employeeCount == p.employeeCount
    && r.sectors == StringEntries(p.sectors)
    && r.regulatorFeeds == StringEntries(p.regulatorFeeds)
    && r.policySnapshots == SnapshotsFrom(p.policySnapshots)
    && (IsRiskStance(p.riskStance) ==> r.riskStance == Some(p.riskStance))
    && (IsSummaryFocus(p.summaryFocus) ==> r.summaryFocus == Some(p.summaryFocus))
    && r.notificationChannel == "gmail"
  }

  /** Creating a company from a submission and reading it back returns the submission.
      An unknown stance or focus is written as undefined, which the model stores as
      null (a nullable column without a default), so it reads back as null. */
  lemma CreatedProfileRoundTrip(id: CompanyId, user: UserId, p: ProfileInput, now: Timestamp)
    ensures ReadsBackAs(ToOnboardingProfile(NewCompany(id, user, BuildCompanyPayload(p, now), now)), p)
    ensures !IsRiskStance(p.riskStance) ==> ToOnboardingProfile(NewCompany(id, user, BuildCompanyPayload(p, now), now)).riskStance == None
    ensures !IsSummaryFocus(p.summaryFocus) ==> ToOnboardingProfile(NewCompany(id, user, BuildCompanyPayload(p, now), now)).summaryFocus == None
  {
    RiskLookup(p.riskStance, CONSERVATIVE);
    SummaryLookup(p.summaryFocus, WEEKLY);
  }

  /** Updating a company from a submission and reading it back returns the submission. */
  lemma UpdatedProfileRoundTrip(c: Company, p: ProfileInput, now: Timestamp)
    ensures ReadsBackAs(ToOnboardingProfile(UpdateCompany(c, BuildCompanyPayload(p, now), now)), p)
  {
    RiskLookup(p.riskStance, CONSERVATIVE);
    SummaryLookup(p.summaryFocus, WEEKLY);
  }

  /** A submission whose lists are plain strings and well-formed snapshots reads
      back field for field. */
  lemma WellTypedProfileRoundTrip(id: CompanyId, user: UserId, companyName: string, hqCountry: string,
                                  employeeCount: string, sectors: seq<string>, feeds: seq<string>,
                                  snapshots: seq<PolicySnapshot>, stance: string, channel: string,
                                  focus: string, now: Timestamp)
    requires IsRiskStance(stance) && IsSummaryFocus(focus)
    ensures
      var p := ProfileInput(companyName, hqCountry, employeeCount, Strs(sectors), Strs(feeds),
                            SnapshotsJson(snapshots), stance, channel, focus);
      ToOnboardingProfile(NewCompany(id, user, BuildCompanyPayload(p, now), now))
        == OnboardingProfile(companyName, hqCountry, employeeCount, sectors, feeds, snapshots,
                             Some(stance), "gmail", Some(focus), now)
  {
    var p := ProfileInput(companyName, hqCountry, employeeCount, Strs(sectors), Strs(feeds),
                          SnapshotsJson(snapshots), stance, channel, focus);
    CreatedProfileRoundTrip(id, user, p, now);
    StringEntriesOfStrs(sectors);
    StringEntriesOfStrs(feeds);
    SnapshotsRoundTrip(snapshots);
  }

  // ---------------------------------------------------------------------------
  // Memberships
  // ---------------------------------------------------------------------------

  /** The user's membership with the smallest `createdAt` (the first in the list
      among equals): `findFirst({ where: { userId }, orderBy: { createdAt: "asc" } })`. */
  function Earliest(members: seq<Membership>, user: UserId): (r: Option<Membership>)
    ensures r.None? <==> forall m :: m in members ==> m.userId != user
    ensures r.Some? ==> r.value in members && r.value.userId == user
    ensures r.Some? ==> forall m :: m in members && m.userId == user ==> r.value.createdAt <= m.createdAt
  {
    if members == [] then None
    else
      var rest := Earliest(members[1..], user);
      assert forall m :: m in members <==> m == members[0] || m in members[1..];
      if members[0].userId != user then rest
      else if rest.Some? && rest.value.createdAt < members[0].createdAt then rest
      else Some(members[0])
  }

  /** A membership added after the user's first one does not change which is earliest
      unless the user had none. */
  lemma {:induction false} EarliestAppend(members: seq<Membership>, m: Membership, user: UserId)
    requires Earliest(members, user).None?
    requires m.userId == user
    ensures Earliest(members + [m], user) == Some(m)
  {
    if members == [] {
      assert members + [m] == [m];
      assert [m][1..] == [];
    } else {
      assert (members + [m])[1..] == members[1..] + [m];
      assert members[0] in members;
      EarliestAppend(members[1..], m, user);
    }
  }

  /** Every membership points at an existing company, and each company row is
      stored under its own id. */
  ghost predicate Consistent(companies: map<CompanyId, Company>, members: seq<Membership>)
  {
    && (forall m :: m in members ==> m.companyId in companies)
    && (forall id :: id in companies ==> companies[id].id == id)
  }

  /** Rewriting a stored company row under its own id keeps the store consistent. */
  lemma UpdateKeepsConsistent(companies: map<CompanyId, Company>, members: seq<Membership>, c: Company)
    requires Consistent(companies, members)
    ensures Consistent(companies[c.id := c], members)
  {
  }

  /** Storing a new company with a membership pointing at it keeps the store consistent. */
  lemma CreateKeepsConsistent(companies: map<CompanyId, Company>, members: seq<Membership>, c: Company, m: Membership)
    requires Consistent(companies, members)
    requires m.companyId == c.id
    ensures Consistent(companies[c.id := c], members + [m])
  {
  }

  /** The store after a successful save: the company of the user's earliest
      membership rewritten from the payload, or else a new company under
      `freshId` with the user as its active owner. */
  ghost predicate SavedState(companies0: map<CompanyId, Company>, members0: seq<Membership>,
                             companies: map<CompanyId, Company>, members: seq<Membership>,
                             user: UserId, p: ProfileInput, now: Timestamp, freshId: CompanyId)
  {
    match Earliest(members0, user)
    case Some(m) =>
      && m.companyId in companies0
      && members == members0
      && companies == companies0[m.companyId := UpdateCompany(companies0[m.companyId], BuildCompanyPayload(p, now), now)]
    case None =>
      && members == members0 + [Membership(user, freshId, OWNER, ACTIVE, now)]
      && companies == companies0[freshId := NewCompany(freshId, user, BuildCompanyPayload(p, now), now)]
  }

  class Store {
    var companies: map<CompanyId, Company>
    var members: seq<Membership>

    /** Every membership points at an existing company, and each company row is
        stored under its own id. */
    ghost predicate Valid()
      reads this
    {
      Consistent(companies, members)
    }

    constructor ()
      ensures Valid() && companies == map[] && members == []
    {
      companies := map[];
      members := [];
    }

    /** `getOnboardingProfile`: the profile of the earliest membership's company. */
    function GetProfile(user: UserId): (r: Option<OnboardingProfile>)
      reads this
      ensures r.None? <==> match Earliest(members, user)
                           case None => true
                           case Some(m) => m.companyId !in companies
      ensures r.Some? ==> Earliest(members, user).Some? && Earliest(members, user).value.companyId in companies
                          && r.value == ToOnboardingProfile(companies[Earliest(members, user).value.companyId])
    {
      match Earliest(members, user)
      case Some(m) => if m.companyId in companies then Some(ToOnboardingProfile(companies[m.companyId])) else None
      case None => None
    }

    /** `saveOnboardingProfile`: update the company of the caller's earliest
        membership, or else create a company with the caller as its active owner.
        `freshId` is the id the database assigns to a new company. None is a
        write the database rejects: the transaction rolls back and the call throws. */
    method Save(user: UserId, p: ProfileInput, now: Timestamp, freshId: CompanyId) returns (r: Option<OnboardingProfile>)
      requires Valid()
      requires freshId !in companies
      modifies this
      ensures Valid()
      ensures r.None? <==> !Writable(BuildCompanyPayload(p, now))
      ensures r.None? ==> companies == old(companies) && members == old(members)
      ensures r.Some? ==> SavedState(old(companies), old(members), companies, members, user, p, now, freshId)
      ensures r.Some? ==> ReadsBackAs(r.value, p) && GetProfile(user) == r
    {
      var membership := Earliest(members, user);
      var data := BuildCompanyPayload(p, now);
      if !Writable(data) {
        return None;
      }
      if membership.Some? && membership.value.companyId in companies {
        var id := membership.value.companyId;
        var updated := UpdateCompany(companies[id], data, now);
        UpdateKeepsConsistent(companies, members, updated);
        companies := companies[id := updated];
        UpdatedProfileRoundTrip(old(companies)[id], p, now);
        r := Some(ToOnboardingProfile(updated));
      } else {
        var created := NewCompany(freshId, user, data, now);
        CreateKeepsConsistent(companies, members, created, Membership(user, freshId, OWNER, ACTIVE, now));
        companies := companies[freshId := created];
        members := members + [Membership(user, freshId, OWNER, ACTIVE, now)];
        EarliestAppend(old(members), Membership(user, freshId, OWNER, ACTIVE, now), user);
        CreatedProfileRoundTrip(freshId, user, p, now);
        r := Some(ToOnboardingProfile(created));
      }
    }
  }
}
