// The activity log (src/pages/ActivityLogs.tsx): the table filter and the badge
// colour of each log type.
module ActivityLogs {
  import opened Types
  import opened Text
  import opened Seqs

  /**
   * The search half of the table's test: the action, the user name when there is
   * one, or the id contains the term, ignoring case.
   */
  predicate LogMatchesSearch(log: ActivityLog, term: string) {
    IncludesCI(log.action, term)
    || (log.userName.Some? && IncludesCI(log.userName.value, term))
    || IncludesCI(log.id, term)
  }

  predicate LogShown(log: ActivityLog, term: string, typeFilter: string) {
    LogMatchesSearch(log, term) && KindSelected(typeFilter, log.kind)
  }

  /** `filteredLogs`: the shown logs in list order; nothing before the data arrives. */
  function FilteredLogs(logs: Option<seq<ActivityLog>>, term: string, typeFilter: string)
    : (r: Option<seq<ActivityLog>>)
    ensures logs.None? <==> r.None?
    ensures logs.Some? ==> IsSubsequence(r.value, logs.value)
    ensures logs.Some? ==> forall i :: 0 <= i < |r.value| ==> LogShown(r.value[i], term, typeFilter)
    ensures logs.Some? ==> forall i :: 0 <= i < |logs.value| && LogShown(logs.value[i], term, typeFilter) ==>
      logs.value[i] in r.value
    ensures logs.Some? ==> |r.value| == CountWhere(logs.value, (log: ActivityLog) => LogShown(log, term, typeFilter))
    ensures logs.Some? && term == "" && typeFilter == "all" ==> r == logs
  {
    match logs
    case None => None
    case Some(ls) =>
      var keep := (log: ActivityLog) => LogShown(log, term, typeFilter);
      FilterIsSubsequence(ls, keep);
      FilterLength(ls, keep);
      if term == "" && typeFilter == "all" then
        assert forall i :: 0 <= i < |ls| ==> keep(ls[i]) by {
          forall i | 0 <= i < |ls| ensures keep(ls[i]) { IncludesEmpty(ls[i].action); }
        }
        FilterKeepsAll(ls, keep);
        Some(Filter(ls, keep))
      else
        Some(Filter(ls, keep))
  }

  /** A log is listed exactly when it is in the list and passes the table's test. */
  lemma LogListedIffShown(logs: seq<ActivityLog>, term: string, typeFilter: string, log: ActivityLog)
    ensures log in FilteredLogs(Some(logs), term, typeFilter).value <==> log in logs && LogShown(log, term, typeFilter)
  {
    var r := FilteredLogs(Some(logs), term, typeFilter).value;
    if log in r {
      var i :| 0 <= i < |r| && r[i] == log;
      SubsequenceMembers(r, logs, i);
    }
  }

  /** A system entry, which has no user name, is found only through its action or its id. */
  lemma NoUserSearchesActionOrId(log: ActivityLog, term: string)
    requires log.userName.None?
    ensures LogMatchesSearch(log, term) <==> IncludesCI(log.action, term) || IncludesCI(log.id, term)
  {
  }

  const GrayBadge := "bg-gray-100 text-gray-800"

  /** The four log types with a colour other than gray. */
  predicate ColouredKind(kind: string) {
    kind == "mining" || kind == "transaction" || kind == "kyc" || kind == "user_action"
  }

  /** `getTypeColor`: the badge classes for a log type; `'system'` has its own case but the fallback's gray. */
  function LogTypeColor(kind: string): (r: string)
    ensures r == GrayBadge <==> !ColouredKind(kind)
  {
    match kind
    case "mining" => "bg-blue-100 text-blue-800"
    case "transaction" => "bg-green-100 text-green-800"
    case "kyc" => "bg-yellow-100 text-yellow-800"
    case "user_action" => "bg-purple-100 text-purple-800"
    case "system" => GrayBadge
    case _ => GrayBadge
  }

  /** `'system'` and any type outside the list share the gray badge. */
  lemma SystemLooksUnknown(kind: string)
    requires !ColouredKind(kind)
    ensures LogTypeColor(kind) == LogTypeColor("system")
  {
  }
}
