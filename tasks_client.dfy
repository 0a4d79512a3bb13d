/**
 * The browser client's task-list request: the optional filters become a
 * query string built by successive `append` calls on a `URLSearchParams`,
 * and the request path is "/tasks?" followed by its serialization.
 */
module TasksClient {
  import opened Wrappers
  import opened TaskModel
  import Decimal
  import opened FormUrlencoded

  /** The list filters; every field may be absent. Page and size are whole numbers. */
  datatype ListFilters = ListFilters(
    status: Option<Status>,
    priority: Option<Priority>,
    dueFrom: Option<string>,
    dueTo: Option<string>,
    page: Option<int>,
    size: Option<int>)

  /** The parameter names, in the order the client appends them. */
  const ParamNames: seq<string> := ["status", "priority", "due_from", "due_to", "page", "size"]

  /** A JavaScript string is truthy iff it is not empty. */
  function TruthyString(v: Option<string>): (r: Option<string>)
    ensures r.Some? <==> v.Some? && v.value != ""
    ensures r.Some? ==> r == v
  {
    if v.Some? && v.value != "" then v else None
  }

  /** A JavaScript number is truthy iff it is not zero; it is sent as its decimal form. */
  function TruthyNumber(v: Option<int>): (r: Option<string>)
    ensures r.Some? <==> v.Some? && v.value != 0
    ensures r.Some? ==> r.value == Decimal.IntToString(v.value)
  {
    if v.Some? && v.value != 0 then Some(Decimal.IntToString(v.value)) else None
  }

  /**
   * The text sent for parameter `r` (an index into `ParamNames`), or `None`
   * when the filter is absent or falsy and the parameter is skipped. An
   * absent filters object skips every parameter.
   */
  function ParamValue(filters: Option<ListFilters>, r: nat): Option<string>
    requires r < 6
  {
    match filters
    case None => None
    case Some(f) =>
      if r == 0 then (if f.status.Some? then Some(StatusValue(f.status.value)) else None)
      else if r == 1 then (if f.priority.Some? then Some(PriorityValue(f.priority.value)) else None)
      else if r == 2 then TruthyString(f.dueFrom)
      else if r == 3 then TruthyString(f.dueTo)
      else if r == 4 then TruthyNumber(f.page)
      else TruthyNumber(f.size)
  }

  /** The pair appended for parameter `r`, if any. */
  function ParamPair(filters: Option<ListFilters>, r: nat): (ps: seq<(string, string)>)
    requires r < 6
    ensures |ps| <= 1
  {
    match ParamValue(filters, r)
    case Some(v) => [(ParamNames[r], v)]
    case None => []
  }

  /** The pairs appended for the first `r` parameters. */
  function ParamsBefore(filters: Option<ListFilters>, r: nat): seq<(string, string)>
    requires r <= 6
  {
    if r == 0 then [] else ParamsBefore(filters, r - 1) + ParamPair(filters, r - 1)
  }

  /** The pairs of the list request, in the order they are appended. */
  function ListParams(filters: Option<ListFilters>): seq<(string, string)> {
    ParamsBefore(filters, 6)
  }

  /** The position of a parameter name in the append order. */
  function Rank(name: string): (k: nat)
    ensures k <= 6
  {
    if name == "status" then 0
    else if name == "priority" then 1
    else if name == "due_from" then 2
    else if name == "due_to" then 3
    else if name == "page" then 4
    else if name == "size" then 5
    else 6
  }

  lemma RankOfName(r: nat)
    requires r < 6
    ensures Rank(ParamNames[r]) == r
  {
  }

  /** Every pair sent is a parameter name carrying the value sent for it. */
  predicate PairsSent(filters: Option<ListFilters>, ps: seq<(string, string)>) {
    forall i :: 0 <= i < |ps| ==>
      (Rank(ps[i].0) < 6 && ps[i].0 == ParamNames[Rank(ps[i].0)]
       && ParamValue(filters, Rank(ps[i].0)) == Some(ps[i].1))
  }

  /** The names appear in strictly increasing append order. */
  predicate InAppendOrder(ps: seq<(string, string)>) {
    forall i, j :: 0 <= i < j < |ps| ==> Rank(ps[i].0) < Rank(ps[j].0)
  }

  /** The first `r` parameters send only parameters below `r`, soundly and in order. */
  lemma {:induction false} ParamsBeforeSound(filters: Option<ListFilters>, r: nat)
    requires r <= 6
    ensures PairsSent(filters, ParamsBefore(filters, r)) && InAppendOrder(ParamsBefore(filters, r))
    ensures forall i :: 0 <= i < |ParamsBefore(filters, r)| ==> Rank(ParamsBefore(filters, r)[i].0) < r
  {
    if r > 0 {
      ParamsBeforeSound(filters, r - 1);
      RankOfName(r - 1);
      var prev := ParamsBefore(filters, r - 1);
      var ps := ParamsBefore(filters, r);
      match ParamValue(filters, r - 1)
      case None =>
        assert ps == prev;
      case Some(v) =>
        assert ps == prev + [(ParamNames[r - 1], v)];
        AppendSound(filters, prev, r - 1, v);
    }
  }

  /** Appending the parameter at position `q` after parameters below `q` keeps the pairs sound and ordered. */
  lemma AppendSound(filters: Option<ListFilters>, prev: seq<(string, string)>, q: nat, v: string)
    requires q < 6 && ParamValue(filters, q) == Some(v) && Rank(ParamNames[q]) == q
    requires PairsSent(filters, prev) && InAppendOrder(prev)
    requires forall i :: 0 <= i < |prev| ==> Rank(prev[i].0) < q
    ensures var ps := prev + [(ParamNames[q], v)];
            && PairsSent(filters, ps) && InAppendOrder(ps)
            && forall i :: 0 <= i < |ps| ==> Rank(ps[i].0) < q + 1
  {
    var ps := prev + [(ParamNames[q], v)];
    assert forall i :: 0 <= i < |prev| ==> ps[i] == prev[i];
    assert ps[|prev|] == (ParamNames[q], v);
  }

  /** Among the first `r` parameters, every one with a value is sent. */
  lemma {:induction false} ParamsBeforeComplete(filters: Option<ListFilters>, r: nat, q: nat)
    requires q < r <= 6 && ParamValue(filters, q).Some?
    ensures exists i :: 0 <= i < |ParamsBefore(filters, r)| && ParamsBefore(filters, r)[i].0 == ParamNames[q]
  {
    var prev := ParamsBefore(filters, r - 1);
    var ps := ParamsBefore(filters, r);
    if q == r - 1 {
      assert ps[|prev|].0 == ParamNames[q];
    } else {
      ParamsBeforeComplete(filters, r - 1, q);
      var i :| 0 <= i < |prev| && prev[i].0 == ParamNames[q];
      assert ps[i].0 == ParamNames[q];
    }
  }

  /**
   * The list request's parameters: a name is sent iff its filter is truthy,
   * with that filter's text; the names keep the order status, priority,
   * due_from, due_to, page, size; so no name is sent twice.
   */
  lemma ListParamsFacts(filters: Option<ListFilters>)
    ensures var ps := ListParams(filters);
            (forall i :: 0 <= i < |ps| ==>
               (Rank(ps[i].0) < 6 && ps[i].0 == ParamNames[Rank(ps[i].0)]
                && ParamValue(filters, Rank(ps[i].0)) == Some(ps[i].1)))
            && (forall i, j :: 0 <= i < j < |ps| ==> Rank(ps[i].0) < Rank(ps[j].0) && ps[i].0 != ps[j].0)
            && (forall q :: 0 <= q < 6 ==> (ParamValue(filters, q).Some? <==> exists i :: 0 <= i < |ps| && ps[i].0 == ParamNames[q]))
  {
    ParamsBeforeSound(filters, 6);
    var ps := ListParams(filters);
    forall q | 0 <= q < 6
      ensures ParamValue(filters, q).Some? <==> exists i :: 0 <= i < |ps| && ps[i].0 == ParamNames[q]
    {
      RankOfName(q);
      if ParamValue(filters, q).Some? {
        ParamsBeforeComplete(filters, 6, q);
      }
    }
  }

  /** Page or size 0 is not sent, and neither is an empty date bound. */
  lemma FalsyFiltersSkipped(f: ListFilters)
    ensures var ps := ListParams(Some(f));
            (f.page == Some(0) ==> forall i :: 0 <= i < |ps| ==> ps[i].0 != "page")
            && (f.size == Some(0) ==> forall i :: 0 <= i < |ps| ==> ps[i].0 != "size")
            && (f.dueFrom == Some("") ==> forall i :: 0 <= i < |ps| ==> ps[i].0 != "due_from")
            && (f.dueTo == Some("") ==> forall i :: 0 <= i < |ps| ==> ps[i].0 != "due_to")
  {
    ListParamsFacts(Some(f));
  }

  /** A `URLSearchParams`: an ordered list of name/value pairs that `append` extends. */
  class SearchParams {
    var pairs: seq<(string, string)>

    constructor ()
      ensures pairs == []
    {
      pairs := [];
    }

    method Append(name: string, value: string)
      modifies this
      ensures pairs == old(pairs) + [(name, value)]
    {
      pairs := pairs + [(name, value)];
    }

    function ToString(): string
      reads this
    {
      Serialize(pairs)
    }
  }

  /**
   * `tasksApi.list(filters)`: the path requested is "/tasks?" followed by the
   * serialization of the pairs `ListParams` describes, even when there are
   * none.
   */
  method ListPath(filters: Option<ListFilters>) returns (path: string)
    ensures path == "/tasks?" + Serialize(ListParams(filters))
  {
    var params := new SearchParams();
    if filters.Some? {
      var f := filters.value;
      if f.status.Some? {
        params.Append("status", StatusValue(f.status.value));
      }
      assert params.pairs == ParamsBefore(filters, 1);
      if f.priority.Some? {
        params.Append("priority", PriorityValue(f.priority.value));
      }
      assert params.pairs == ParamsBefore(filters, 2);
      if f.dueFrom.Some? && f.dueFrom.value != "" {
        params.Append("due_from", f.dueFrom.value);
      }
      assert params.pairs == ParamsBefore(filters, 3);
      if f.dueTo.Some? && f.dueTo.value != "" {
        params.Append("due_to", f.dueTo.value);
      }
      assert params.pairs == ParamsBefore(filters, 4);
      if f.page.Some? && f.page.value != 0 {
        params.Append("page", Decimal.IntToString(f.page.value));
      }
      assert params.pairs == ParamsBefore(filters, 5);
      if f.size.Some? && f.size.value != 0 {
        params.Append("size", Decimal.IntToString(f.size.value));
      }
      assert params.pairs == ListParams(filters);
    } else {
      NoFiltersNoParams(6);
    }
    path := "/tasks?" + params.ToString();
  }

  lemma {:induction false} NoFiltersNoParams(r: nat)
    requires r <= 6
    ensures ParamsBefore(None, r) == []
  {
    if r > 0 {
      NoFiltersNoParams(r - 1);
    }
  }

  /** Without filters the request path is exactly "/tasks?". */
  lemma NoFiltersPath()
    ensures "/tasks?" + Serialize(ListParams(None)) == "/tasks?"
  {
    NoFiltersNoParams(6);
  }

  /** The server reads back from the query exactly the pairs the client appended, in order. */
  lemma ListQueryRoundTrip(filters: Option<ListFilters>)
    ensures var ps := ListParams(filters);
            |Parse(Serialize(ps))| == |ps|
            && forall i :: 0 <= i < |ps| ==> Parse(Serialize(ps))[i] == PairBytes(ps[i])
  {
    ParseSerialize(ListParams(filters));
  }
}
