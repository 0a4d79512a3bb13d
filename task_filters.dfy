/**
 * The task-list filter bar: two drop-downs (status and priority) whose
 * option values are "" ("All") and the wire values of the enumeration, and
 * a "Clear Filters" button. Each change produces a new filter record.
 */
module TaskFilters {
  import opened Wrappers
  import opened TaskModel

  datatype Filters = Filters(status: Option<Status>, priority: Option<Priority>)

  /** The option values of the status drop-down. */
  predicate StatusOption(v: string) {
    v == "" || ParseStatus(v).Some?
  }

  /** The option values of the priority drop-down. */
  predicate PriorityOption(v: string) {
    v == "" || ParsePriority(v).Some?
  }

  /** The value the status drop-down shows: the wire value, or "" for "All". */
  function StatusShown(f: Filters): (v: string)
    ensures StatusOption(v)
  {
    match f.status
    case Some(s) => StatusValue(s)
    case None => ""
  }

  /** The value the priority drop-down shows: the wire value, or "" for "All". */
  function PriorityShown(f: Filters): (v: string)
    ensures PriorityOption(v)
  {
    match f.priority
    case Some(p) => PriorityValue(p)
    case None => ""
  }

  /** Choosing a status option: "" clears the status; the priority is kept. */
  function ChangeStatus(f: Filters, v: string): (g: Filters)
    requires StatusOption(v)
    ensures g.priority == f.priority
    ensures g.status.None? <==> v == ""
    ensures g.status.Some? ==> StatusValue(g.status.value) == v
  {
    f.(status := if v == "" then None else ParseStatus(v))
  }

  /** Choosing a priority option: "" clears the priority; the status is kept. */
  function ChangePriority(f: Filters, v: string): (g: Filters)
    requires PriorityOption(v)
    ensures g.status == f.status
    ensures g.priority.None? <==> v == ""
    ensures g.priority.Some? ==> PriorityValue(g.priority.value) == v
  {
    f.(priority := if v == "" then None else ParsePriority(v))
  }

  /** The Clear button replaces the filters with the empty record. */
  function Clear(): Filters {
    Filters(None, None)
  }

  /** The Clear button is shown iff a status or a priority is set. */
  function ShowClear(f: Filters): (show: bool)
    ensures show <==> f != Clear()
  {
    f.status.Some? || f.priority.Some?
  }

  /** Choosing the option a drop-down already shows changes nothing. */
  lemma ChooseShownIsIdentity(f: Filters)
    ensures ChangeStatus(f, StatusShown(f)) == f
    ensures ChangePriority(f, PriorityShown(f)) == f
  {
    if f.status.Some? {
      StatusValueRoundTrip(f.status.value, f.status.value);
    }
    if f.priority.Some? {
      PriorityValueRoundTrip(f.priority.value, f.priority.value);
    }
  }

  /** After a change, the drop-down shows the option that was chosen. */
  lemma ShownAfterChange(f: Filters, s: string, p: string)
    requires StatusOption(s) && PriorityOption(p)
    ensures StatusShown(ChangeStatus(f, s)) == s
    ensures PriorityShown(ChangePriority(f, p)) == p
  {
  }

  /** The two drop-downs act independently: the order of two changes does not matter. */
  lemma ChangesCommute(f: Filters, s: string, p: string)
    requires StatusOption(s) && PriorityOption(p)
    ensures ChangeStatus(ChangePriority(f, p), s) == ChangePriority(ChangeStatus(f, s), p)
  {
  }

  /** After Clear both drop-downs show "All" and the button is hidden. */
  lemma ClearHidesButton()
    ensures !ShowClear(Clear()) && StatusShown(Clear()) == "" && PriorityShown(Clear()) == ""
  {
  }
}
