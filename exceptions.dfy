/** The exception log page (src/pages/Exceptions.tsx): the exception records,
    the search-and-filter that selects the rows of the table, the tallies of the
    statistics cards, the alert banner for critical exceptions, and the badge
    texts. */
module Exceptions {
  import opened Collections
  import opened Text

  datatype Severity = Low | Medium | High | Critical
  datatype ExceptionStatus = Open | InProgress | Resolved

  /** The string the source stores for a severity. */
  function SeverityName(severity: Severity): string
  {
    match severity
    case Low => "low"
    case Medium => "medium"
    case High => "high"
    case Critical => "critical"
  }

  /** The string the source stores for a status. */
  function StatusName(status: ExceptionStatus): string
  {
    match status
    case Open => "open"
    case InProgress => "in_progress"
    case Resolved => "resolved"
  }

  /** The time stamp of a record is left out: the sample records are dated
      relative to the clock. The source's `module` field is `moduleName` here. */
  datatype Exception = Exception(
    id: string,
    title: string,
    description: string,
    severity: Severity,
    status: ExceptionStatus,
    moduleName: string,
    user: Option<string>,
    stackTrace: Option<string>)

  // ---------------------------------------------------------------------------
  // Search and filters

  /** The search box and the two selects; "all" is the wildcard of a select. */
  datatype ExceptionQuery = ExceptionQuery(searchTerm: string, severityFilter: string, statusFilter: string)

  /** The page's initial query: empty search, every severity, every status. */
  const DefaultQuery := ExceptionQuery("", "all", "all")

  /** The search box: an exception is found exactly when the typed term,
      ignoring ASCII case, occurs somewhere in its title or somewhere in its
      module; an empty term finds every exception. */
  function MatchesSearch(e: Exception, term: string): (r: bool)
    ensures r <==>
      (exists i :: OccursAt(ToLower(e.title), ToLower(term), i)) ||
      (exists i :: OccursAt(ToLower(e.moduleName), ToLower(term), i))
    ensures term == "" ==> r
  {
    IncludesIgnoringCase(e.title, term) || IncludesIgnoringCase(e.moduleName, term)
  }

  /** The severity select: "all" lets every exception through, the name of a
      severity exactly the exceptions of that severity, anything else none. */
  function MatchesSeverity(e: Exception, severityFilter: string): (r: bool)
    ensures severityFilter == "all" ==> r
    ensures forall severity :: severityFilter == SeverityName(severity) ==> (r <==> e.severity == severity)
    ensures severityFilter != "all" && (forall severity :: severityFilter != SeverityName(severity)) ==> !r
  {
    severityFilter == "all" || SeverityName(e.severity) == severityFilter
  }

  /** The status select: "all" lets every exception through, the name of a
      status exactly the exceptions with that status, anything else none. */
  function MatchesStatus(e: Exception, statusFilter: string): (r: bool)
    ensures statusFilter == "all" ==> r
    ensures forall status :: statusFilter == StatusName(status) ==> (r <==> e.status == status)
    ensures statusFilter != "all" && (forall status :: statusFilter != StatusName(status)) ==> !r
  {
    statusFilter == "all" || StatusName(e.status) == statusFilter
  }

  /** The predicate handed to `exceptions.filter`: all three tests at once; the
      initial query lets every exception through. */
  function Matches(q: ExceptionQuery): (keep: Exception -> bool)
    ensures forall e :: keep(e) ==> MatchesSearch(e, q.searchTerm) && MatchesSeverity(e, q.severityFilter) && MatchesStatus(e, q.statusFilter)
    ensures forall e :: MatchesSearch(e, q.searchTerm) && MatchesSeverity(e, q.severityFilter) && MatchesStatus(e, q.statusFilter) ==> keep(e)
    ensures q == DefaultQuery ==> forall e :: keep(e)
  {
    (e: Exception) => MatchesSearch(e, q.searchTerm) && MatchesSeverity(e, q.severityFilter) && MatchesStatus(e, q.statusFilter)
  }

  /** `filteredExceptions`: the exceptions that pass all three tests, in log order. */
  function FilteredExceptions(exceptions: seq<Exception>, q: ExceptionQuery): (r: seq<Exception>)
    ensures SubsequenceOf(r, exceptions) && |r| <= |exceptions|
    ensures forall e :: e in r <==>
      e in exceptions && MatchesSearch(e, q.searchTerm) && MatchesSeverity(e, q.severityFilter) && MatchesStatus(e, q.statusFilter)
    ensures q.severityFilter != "all" ==> forall e :: e in r ==> SeverityName(e.severity) == q.severityFilter
    ensures q.statusFilter != "all" ==> forall e :: e in r ==> StatusName(e.status) == q.statusFilter
    ensures q == DefaultQuery ==> r == exceptions
    ensures forall e :: multiset(r)[e] == if Matches(q)(e) then multiset(exceptions)[e] else 0
  {
    FilterIsSubsequence(exceptions, Matches(q));
    FilterMultiset(exceptions, Matches(q));
    Filter(exceptions, Matches(q))
  }

  // ---------------------------------------------------------------------------
  // Tallies and the alert banner

  function HasStatus(status: ExceptionStatus): Exception -> bool
  {
    (e: Exception) => e.status == status
  }

  function HasSeverity(severity: Severity): Exception -> bool
  {
    (e: Exception) => e.severity == severity
  }

  /** `exceptions.filter(e => e.status === ...).length`. */
  function CountStatus(exceptions: seq<Exception>, status: ExceptionStatus): (n: nat)
    ensures n <= |exceptions|
    ensures n == 0 <==> forall e :: e in exceptions ==> e.status != status
  {
    var kept := Filter(exceptions, HasStatus(status));
    assert kept != [] ==> kept[0] in kept;
    |kept|
  }

  /** `criticalCount`: `exceptions.filter(e => e.severity === "critical").length`. */
  function CriticalCount(exceptions: seq<Exception>): (n: nat)
    ensures n <= |exceptions|
    ensures n > 0 <==> exists e :: e in exceptions && e.severity == Critical
  {
    var kept := Filter(exceptions, HasSeverity(Critical));
    assert kept != [] ==> kept[0] in kept;
    |kept|
  }

  /** The "Ouvertes", "En cours" and "Résolues" cards add up to the number of exceptions. */
  lemma {:induction false} StatusCountsSum(exceptions: seq<Exception>)
    ensures CountStatus(exceptions, Open) + CountStatus(exceptions, InProgress) + CountStatus(exceptions, Resolved)
      == |exceptions|
  {
    if exceptions != [] {
      StatusCountsSum(exceptions[1..]);
    }
  }

  /** `suffix` when more than one thing is counted, nothing otherwise. */
  function Plural(n: nat, suffix: string): (ending: string)
    ensures n > 1 ==> ending == suffix
    ensures n <= 1 ==> ending == ""
  {
    if n > 1 then suffix else ""
  }

  /** The first line of the alert banner for `n` critical exceptions. */
  function BannerText(n: nat): (text: string)
    ensures |text| > 11 + |Decimal(n)| + 27
    ensures text[..11] == "Attention: "
    ensures text[11..11 + |Decimal(n)|] == Decimal(n)
    ensures text[|text| - 27..] == " une intervention immédiate"
  {
    "Attention: " + Decimal(n) + BannerTail(n)
  }

  /** What follows the number in the banner. */
  function BannerTail(n: nat): string
  {
    " exception" + Plural(n, "s") + " critique" + Plural(n, "s") + " nécessite" + Plural(n, "nt")
      + " une intervention immédiate"
  }

  /** The alert banner: shown, with its text, only when some exception is critical. */
  function AlertBanner(exceptions: seq<Exception>): (banner: Option<string>)
    ensures banner.Some? <==> exists e :: e in exceptions && e.severity == Critical
    ensures banner.Some? ==> banner.value == BannerText(CriticalCount(exceptions))
  {
    var n := CriticalCount(exceptions);
    if n > 0 then Some(BannerText(n)) else None
  }

  /** One critical exception is announced in the singular: no plural ending. */
  lemma BannerSingular()
    ensures BannerText(1)
      == "Attention: " + "1" + " exception" + " critique" + " nécessite" + " une intervention immédiate"
  {
    assert Decimal(1) == "1";
    assert Plural(1, "s") == "" && Plural(1, "nt") == "";
  }

  /** Several critical exceptions are announced in the plural, with their number. */
  lemma BannerPlural(n: nat)
    requires n > 1
    ensures BannerText(n)
      == "Attention: " + Decimal(n) + " exceptions" + " critiques" + " nécessitent" + " une intervention immédiate"
  {
    assert Plural(n, "s") == "s" && Plural(n, "nt") == "nt";
    assert " exception" + "s" == " exceptions";
    assert " critique" + "s" == " critiques";
    assert " nécessite" + "nt" == " nécessitent";
  }

  // ---------------------------------------------------------------------------
  // Badge texts

  const SeverityNames: seq<string> := ["critical", "high", "medium", "low"]
  const StatusNames: seq<string> := ["open", "in_progress", "resolved"]

  /** The text of `getSeverityBadge(severity)`. */
  function SeverityLabel(severity: string): (text: string)
    ensures severity !in SeverityNames ==> text == severity
    ensures severity in SeverityNames ==> text != severity && text in ["Critique", "Élevée", "Moyenne", "Faible"]
  {
    match severity
    case "critical" => "Critique"
    case "high" => "Élevée"
    case "medium" => "Moyenne"
    case "low" => "Faible"
    case _ => severity
  }

  /** The text of `getStatusBadge(status)`. */
  function StatusLabel(status: string): (text: string)
    ensures status !in StatusNames ==> text == status
    ensures status in StatusNames ==> text != status && text in ["Ouvert", "En cours", "Résolu"]
  {
    match status
    case "open" => "Ouvert"
    case "in_progress" => "En cours"
    case "resolved" => "Résolu"
    case _ => status
  }

  /** Distinct severities get distinct badges, and so do distinct statuses. */
  lemma BadgesDistinguishValues(a: Severity, b: Severity, s: ExceptionStatus, t: ExceptionStatus)
    ensures SeverityLabel(SeverityName(a)) == SeverityLabel(SeverityName(b)) <==> a == b
    ensures StatusLabel(StatusName(s)) == StatusLabel(StatusName(t)) <==> s == t
  {
  }

  /** The options of the two selects, as (value, text). */
  const SeverityFilterOptions: seq<(string, string)> :=
    [("all", "Toutes les sévérités"), ("critical", "Critique"), ("high", "Élevée"), ("medium", "Moyenne"), ("low", "Faible")]
  const StatusFilterOptions: seq<(string, string)> :=
    [("all", "Tous les statuts"), ("open", "Ouvert"), ("in_progress", "En cours"), ("resolved", "Résolu")]

  /** Every value a select offers is shown with the same text as its badge. */
  lemma BadgesMatchFilterOptions()
    ensures forall i :: 1 <= i < |SeverityFilterOptions| ==>
      SeverityLabel(SeverityFilterOptions[i].0) == SeverityFilterOptions[i].1
    ensures forall i :: 1 <= i < |StatusFilterOptions| ==>
      StatusLabel(StatusFilterOptions[i].0) == StatusFilterOptions[i].1
  {
  }
}
