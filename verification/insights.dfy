/**
 * Briefing records (`RegulationInsight` rows): how a row is serialised for the
 * client, and the store the upload route creates rows in and the insights
 * route lists them from.
 */
module Insights {
  import opened Wrappers
  import opened Json
  import opened Risk
  import opened Sorting


  /** A stored row. The two list columns are JSON and the risk column is a string. */
  datatype InsightRecord = InsightRecord(
    id: string,
    companyId: string,
    title: string,
    summary: string,
    actionItems: Value,
    notifiedTeams: Value,
    riskLevel: string,
    status: string,
    archivedAt: Option<Timestamp>,
    createdAt: Timestamp,
    updatedAt: Timestamp)

  /** What the client receives. Timestamps stay abstract (their ISO rendering is
      not modelled); `archivedAt` None is `null`. */
  datatype SerializedInsight = SerializedInsight(
    id: string,
    companyId: string,
    title: string,
    summary: string,
    actionItems: seq<string>,
    notifiedTeams: seq<string>,
    riskLevel: RiskLevel,
    status: string,
    archivedAt: Option<Timestamp>,
    createdAt: Timestamp,
    updatedAt: Timestamp)

  /** `parseStringArray` of insights.ts: a falsy or non-array value gives [], an
      array its string entries in order. */
  function ParseStringArray(v: Value): (r: seq<string>)
    ensures !Truthy(v) || !v.Arr? ==> r == []
    ensures v.Arr? ==> r == StringEntries(v.items)
  {
    if !Truthy(v) then []
    else if v.Arr? then StringEntries(v.items)
    else []
  }

  /** `serializeInsight`. */
  function Serialize(rec: InsightRecord): (s: SerializedInsight)
    ensures s.id == rec.id && s.companyId == rec.companyId && s.title == rec.title
    ensures s.summary == rec.summary && s.status == rec.status
    ensures s.archivedAt.None? <==> rec.archivedAt.None?
    ensures s.riskLevel == HIGH <==> rec.riskLevel == "HIGH"
    ensures s.riskLevel == MEDIUM <==> rec.riskLevel == "MEDIUM"
    ensures forall x :: x in s.actionItems <==> rec.actionItems.Arr? && Str(x) in rec.actionItems.items
    ensures forall x :: x in s.notifiedTeams <==> rec.notifiedTeams.Arr? && Str(x) in rec.notifiedTeams.items
    ensures s.actionItems == ParseStringArray(rec.actionItems)
    ensures s.notifiedTeams == ParseStringArray(rec.notifiedTeams)
  {
    SerializedInsight(
      rec.id, rec.companyId, rec.title, rec.summary,
      ParseStringArray(rec.actionItems), ParseStringArray(rec.notifiedTeams),
      Normalize(rec.riskLevel), rec.status, rec.archivedAt, rec.createdAt, rec.updatedAt)
  }

  function SerializeAll(rs: seq<InsightRecord>): (r: seq<SerializedInsight>)
    ensures |r| == |rs| && forall i :: 0 <= i < |rs| ==> r[i] == Serialize(rs[i])
  {
    if rs == [] then [] else [Serialize(rs[0])] + SerializeAll(rs[1..])
  }

  /** The row `create` inserts: status NEW, not archived, both timestamps `now`. */
  function NewRecord(id: string, companyId: string, title: string, summary: string, risk: RiskLevel,
                     actionItems: seq<string>, notifiedTeams: seq<string>, now: Timestamp): InsightRecord
  {
    InsightRecord(id, companyId, title, summary, Arr(Strs(actionItems)), Arr(Strs(notifiedTeams)),
                  Name(risk), "NEW", None, now, now)
  }

  /** A created row serialises back to exactly what was written. */
  lemma NewRecordRoundTrip(id: string, companyId: string, title: string, summary: string, risk: RiskLevel,
                           actionItems: seq<string>, notifiedTeams: seq<string>, now: Timestamp)
    ensures Serialize(NewRecord(id, companyId, title, summary, risk, actionItems, notifiedTeams, now))
         == SerializedInsight(id, companyId, title, summary, actionItems, notifiedTeams, risk, "NEW", None, now, now)
  {
    StringEntriesOfStrs(actionItems);
    StringEntriesOfStrs(notifiedTeams);
    NormalizeName(risk, "");
  }

  /** The rows of the active (`archived` false) or archived view of a company. */
  predicate InView(rec: InsightRecord, companyId: string, archived: bool)
  {
    rec.companyId == companyId && (rec.archivedAt.Some? <==> archived)
  }

  function Select(rs: seq<InsightRecord>, companyId: string, archived: bool): (r: seq<InsightRecord>)
    ensures |r| <= |rs|
    ensures forall x :: x in r <==> x in rs && InView(x, companyId, archived)
  {
    if rs == [] then []
    else
      var rest := Select(rs[1..], companyId, archived);
      assert forall x :: x in rs <==> x == rs[0] || x in rs[1..];
      if InView(rs[0], companyId, archived) then [rs[0]] + rest else rest
  }

  function OfCompany(rs: seq<InsightRecord>, companyId: string): (r: seq<InsightRecord>)
  {
    if rs == [] then []
    else
      var rest := OfCompany(rs[1..], companyId);
      if rs[0].companyId == companyId then [rs[0]] + rest else rest
  }

  /** The active and the archived view split a company's rows between them. */
  lemma {:induction false} ViewsPartition(rs: seq<InsightRecord>, companyId: string)
    ensures multiset(Select(rs, companyId, false)) + multiset(Select(rs, companyId, true))
         == multiset(OfCompany(rs, companyId))
  {
    if rs != [] {
      ViewsPartition(rs[1..], companyId);
    }
  }

  /** The sort key of a view: `createdAt` for the active one, `archivedAt` for the archived one. */
  function ViewKey(archived: bool): InsightRecord -> real
  {
    if archived then (rec: InsightRecord) => match rec.archivedAt case Some(t) => t as real case None => 0.0
    else (rec: InsightRecord) => rec.createdAt as real
  }

  class BriefingStore {
    var records: seq<InsightRecord>

    /** Row ids are unique. */
    ghost predicate Valid()
      reads this
    {
      forall i, j :: 0 <= i < j < |records| ==> records[i].id != records[j].id
    }

    constructor ()
      ensures Valid() && records == []
    {
      records := [];
    }

    /** `regulationInsight.findUnique({ where: { id } })`. */
    function Find(id: string): (r: Option<InsightRecord>)
      reads this
      ensures r.None? <==> forall x :: x in records ==> x.id != id
      ensures r.Some? ==> r.value in records && r.value.id == id
    {
      FindIn(records, id)
    }

    /** `regulationInsight.create`, with `freshId` the id the database assigns. */
    method Create(companyId: string, title: string, summary: string, risk: RiskLevel,
                  actionItems: seq<string>, notifiedTeams: seq<string>, now: Timestamp, freshId: string)
      returns (rec: InsightRecord)
      requires Valid()
      requires forall x :: x in records ==> x.id != freshId
      modifies this
      ensures Valid()
      ensures rec == NewRecord(freshId, companyId, title, summary, risk, actionItems, notifiedTeams, now)
      ensures records == old(records) + [rec]
      ensures Find(freshId) == Some(rec)
    {
      rec := NewRecord(freshId, companyId, title, summary, risk, actionItems, notifiedTeams, now);
      records := records + [rec];
      assert forall x :: x in records ==> x == rec || x in old(records);
    }

    /** `findMany` for one company's active or archived view, newest first. */
    function List(companyId: string, archived: bool): (r: seq<InsightRecord>)
      reads this
      ensures forall x :: x in r <==> x in records && InView(x, companyId, archived)
      ensures multiset(r) == multiset(Select(records, companyId, archived))
      ensures SortedDesc(r, ViewKey(archived))
    {
      var s := Select(records, companyId, archived);
      var r := SortDesc(s, ViewKey(archived));
      assert forall x :: x in r <==> x in s by {
        forall x ensures x in r <==> x in s { SortDescSameElements(s, ViewKey(archived), x); }
      }
      r
    }
  }

  function FindIn(rs: seq<InsightRecord>, id: string): (r: Option<InsightRecord>)
    ensures r.None? <==> forall x :: x in rs ==> x.id != id
    ensures r.Some? ==> r.value in rs && r.value.id == id
  {
    if rs == [] then None
    else if rs[0].id == id then Some(rs[0])
    else
      assert forall x :: x in rs <==> x == rs[0] || x in rs[1..];
      FindIn(rs[1..], id)
  }
}
