/**
 * What the status-listing pages share: the CSS classes that colour a status
 * badge and the status filter, whose `all` entry means "no status query".
 */
module Statuses {
  import opened Wrappers

  const Success: string := "status-success"
  const Error: string := "status-error"
  const Warning: string := "status-warning"
  const Info: string := "status-info"

  const BadgeClasses: set<string> := {Success, Error, Warning, Info}

  const AllFilter: string := "all"

  /** `filter === 'all' ? null : filter` */
  function StatusQuery(filter: string): (q: Option<string>)
    ensures q.None? <==> filter == AllFilter
    ensures q.Some? ==> q.value == filter
  {
    if filter == AllFilter then None else Some(filter)
  }

  /** Different filters other than `all` send different queries, and only
      `all` asks for every status. */
  lemma StatusQueryInjective(f: string, g: string)
    requires StatusQuery(f) == StatusQuery(g)
    ensures f == g
  {
  }
}
