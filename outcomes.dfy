/** What the hosted datastore and object storage hand back to a page.
    Every call into them is a parameter of the handler that makes it. */
module Outcomes {

  datatype Option<+T> = None | Some(value: T) {
    /** JavaScript's `x || default` for a possibly-null value. */
    function GetOr(default: T): T {
      match this
      case Some(v) => v
      case None => default
    }
  }

  /** The `{ data, error }` pair of a select: either no error and a (possibly null)
      data array, or an error. */
  datatype FetchOutcome<T> = Fetched(data: Option<seq<T>>) | FetchFailed

  /** A select sent to the datastore: the table, the columns (`"*"` for all),
      whether only the rows with `is_active = true` are asked for, and the
      column the rows come back ordered by, ascending, if any. */
  datatype Select = Select(table: string, columns: string, activeOnly: bool, orderBy: Option<string>)

  /** The `{ error }` of an insert, update or delete. */
  datatype WriteOutcome = Written | WriteFailed

  /** The list a page holds after a fetch handler: `data || []` when there was no
      error, and the list it held before when there was one. */
  function Refreshed<T>(current: seq<T>, outcome: FetchOutcome<T>): (r: seq<T>)
    ensures outcome.FetchFailed? ==> r == current
    ensures outcome == Fetched(None) ==> r == []
    ensures outcome.Fetched? && outcome.data.Some? ==> r == outcome.data.value
  {
    match outcome
    case Fetched(data) => data.GetOr([])
    case FetchFailed => current
  }
}
