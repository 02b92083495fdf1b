/** GET of the insights route: one company's active or archived briefings. */
module InsightsRoute {
  import opened Wrappers
  import opened Text
  import opened Http
  import opened Insights

  /** `archived` selects the archived view when it is "1" or lower-cases to "true". */
  predicate IncludeArchived(param: Option<string>)
  {
    match param
    case None => false
    case Some(p) => p == "1" || Lower(p) == "true"
  }

  /** The parameter switches to the archived view exactly for "1" and for "true"
      spelt in any mix of cases. */
  lemma IncludeArchivedCases(param: Option<string>)
    ensures IncludeArchived(param) <==>
      param == Some("1") ||
      (param.Some? && |param.value| == 4
       && (param.value[0] == 't' || param.value[0] == 'T')
       && (param.value[1] == 'r' || param.value[1] == 'R')
       && (param.value[2] == 'u' || param.value[2] == 'U')
       && (param.value[3] == 'e' || param.value[3] == 'E'))
  {
    if param.Some? && |param.value| == 4 {
      var p := param.value;
      var l := Lower(p);
      assert l == "true" <==> l[0] == 't' && l[1] == 'r' && l[2] == 'u' && l[3] == 'e';
    }
  }

  /** GET. `membership` is the company id of the caller's membership, if any (the
      lookup picks no particular one). */
  function Get(store: BriefingStore, session: Option<Session>, archivedParam: Option<string>,
               membership: Option<string>): (r: Response<seq<SerializedInsight>>)
    reads store
    ensures session.None? <==> r == Fail(401, "Unauthorized")
    ensures session.Some? && membership.None? ==> r == Ok([])
    ensures r.Ok? && membership.Some? ==>
      var rows := store.List(membership.value, IncludeArchived(archivedParam));
      |r.body| == |rows| && forall i :: 0 <= i < |rows| ==> r.body[i] == Serialize(rows[i])
  {
    match session
    case None => Fail(401, "Unauthorized")
    case Some(_) =>
      match membership
      case None => Ok([])
      case Some(companyId) => Ok(SerializeAll(store.List(companyId, IncludeArchived(archivedParam))))
  }

  /** Every listed briefing belongs to the caller's company and is in the requested
      view; the response is newest first by `createdAt` (active) or `archivedAt`
      (archived). */
  lemma GetReturnsOwnView(store: BriefingStore, session: Session, archivedParam: Option<string>,
                          companyId: string, i: int)
    requires 0 <= i < |Get(store, Some(session), archivedParam, Some(companyId)).body|
    ensures
      var out := Get(store, Some(session), archivedParam, Some(companyId)).body;
      && out[i].companyId == companyId
      && (out[i].archivedAt.Some? <==> IncludeArchived(archivedParam))
      && (i + 1 < |out| ==>
            if IncludeArchived(archivedParam) then out[i + 1].archivedAt.Some? && out[i].archivedAt.value >= out[i + 1].archivedAt.value
            else out[i].createdAt >= out[i + 1].createdAt)
  {
    var archived := IncludeArchived(archivedParam);
    var rows := store.List(companyId, archived);
    assert rows[i] in rows;
    if i + 1 < |rows| {
      assert rows[i + 1] in rows;
      assert ViewKey(archived)(rows[i]) >= ViewKey(archived)(rows[i + 1]);
    }
  }
}
