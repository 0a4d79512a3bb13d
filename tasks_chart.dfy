/**
 * The dashboard's "Tasks Created" chart. It receives the analytics summary's
 * `tasks_per_day` object (date string to count, in the object's key order)
 * and shows either a message or a line whose points are the dates in
 * ascending string order with their counts.
 */
module TasksChart {
  import opened Wrappers
  import opened Sorting

  /** The part of the analytics response the chart reads. */
  datatype ChartData = ChartData(tasksPerDay: Option<seq<(string, int)>>)

  datatype Chart =
    | NoData
    | NoTasks
    | Line(dates: seq<string>, labels: seq<string>, counts: seq<int>)

  const NoDataMessage: string := "No task data available"
  const NoTasksMessage: string := "No tasks created in the last 14 days"

  /** Lexicographic order on strings, character by character; a prefix comes first. */
  predicate StrLe(a: string, b: string) {
    a == [] || (b != [] && (a[0] < b[0] || (a[0] == b[0] && StrLe(a[1..], b[1..]))))
  }

  lemma {:induction false} StrLeTotal(a: string, b: string)
    ensures StrLe(a, b) || StrLe(b, a)
  {
    if a != [] && b != [] && a[0] == b[0] {
      StrLeTotal(a[1..], b[1..]);
    }
  }

  lemma {:induction false} StrLeTransitive(a: string, b: string, c: string)
    requires StrLe(a, b) && StrLe(b, c)
    ensures StrLe(a, c)
  {
    if a != [] && a[0] == b[0] && b[0] == c[0] {
      StrLeTransitive(a[1..], b[1..], c[1..]);
    }
  }

  lemma {:induction false} StrLeAntisymmetric(a: string, b: string)
    requires StrLe(a, b) && StrLe(b, a)
    ensures a == b
  {
    if a != [] {
      StrLeAntisymmetric(a[1..], b[1..]);
    }
  }

  /** The comparison `Array.prototype.sort()` uses when given no comparator. */
  function DefaultOrder(): (string, string) -> bool {
    (a: string, b: string) => StrLe(a, b)
  }

  lemma DefaultOrderIsTotalOrder()
    ensures Total(DefaultOrder()) && Transitive(DefaultOrder())
  {
    forall a: string, b: string ensures DefaultOrder()(a, b) || DefaultOrder()(b, a) {
      StrLeTotal(a, b);
    }
    forall a: string, b: string, c: string | DefaultOrder()(a, b) && DefaultOrder()(b, c)
      ensures DefaultOrder()(a, c)
    {
      StrLeTransitive(a, b, c);
    }
  }

  /** `Object.keys(o)`: the keys in the object's order. */
  function ObjectKeys(entries: seq<(string, int)>): (ks: seq<string>)
    ensures |ks| == |entries| && forall i :: 0 <= i < |entries| ==> ks[i] == entries[i].0
  {
    if entries == [] then [] else [entries[0].0] + ObjectKeys(entries[1..])
  }

  /** `o[k]` for a key of the object. */
  function Get(entries: seq<(string, int)>, k: string): int {
    if entries == [] then 0 else if entries[0].0 == k then entries[0].1 else Get(entries[1..], k)
  }

  /** `dates.map(date => o[date])`. */
  function CountsOf(entries: seq<(string, int)>, dates: seq<string>): (cs: seq<int>)
    ensures |cs| == |dates| && forall i :: 0 <= i < |dates| ==> cs[i] == Get(entries, dates[i])
  {
    if dates == [] then [] else [Get(entries, dates[0])] + CountsOf(entries, dates[1..])
  }

  /** `dates.map(label)`. */
  function LabelsOf(dates: seq<string>, dateLabel: string -> string): (ls: seq<string>)
    ensures |ls| == |dates| && forall i :: 0 <= i < |dates| ==> ls[i] == dateLabel(dates[i])
  {
    if dates == [] then [] else [dateLabel(dates[0])] + LabelsOf(dates[1..], dateLabel)
  }

  /**
   * What the chart shows. `dateLabel` is the locale's rendering of a date
   * string (`new Date(date).toLocaleDateString()`).
   */
  function Render(data: Option<ChartData>, dateLabel: string -> string): (c: Chart)
    ensures c == NoData <==> data.None? || data.value.tasksPerDay.None?
    ensures c == NoTasks <==> data.Some? && data.value.tasksPerDay == Some([])
    ensures c.Line? ==> data.Some? && data.value.tasksPerDay.Some?
    ensures c.Line? ==> |c.dates| == |c.labels| == |c.counts| == |data.value.tasksPerDay.value| > 0
    ensures c.Line? ==> forall i :: 0 <= i < |c.dates| ==>
      c.counts[i] == Get(data.value.tasksPerDay.value, c.dates[i]) && c.labels[i] == dateLabel(c.dates[i])
  {
    match data
    case None => NoData
    case Some(d) =>
      match d.tasksPerDay
      case None => NoData
      case Some(entries) =>
        var dates := SortBy(ObjectKeys(entries), DefaultOrder());
        SortSameElements(ObjectKeys(entries), DefaultOrder());
        if |dates| == 0 then NoTasks
        else Line(dates, LabelsOf(dates, dateLabel), CountsOf(entries, dates))
  }

  /** The dates of the line are ascending and are exactly the object's keys. */
  lemma LineDates(data: Option<ChartData>, dateLabel: string -> string)
    requires Render(data, dateLabel).Line?
    ensures var dates := Render(data, dateLabel).dates;
            SortedBy(dates, DefaultOrder())
            && multiset(dates) == multiset(ObjectKeys(data.value.tasksPerDay.value))
  {
    var keys := ObjectKeys(data.value.tasksPerDay.value);
    DefaultOrderIsTotalOrder();
    SortSorted(keys, DefaultOrder());
    SortPermutes(keys, DefaultOrder());
  }

  /** With distinct keys, the dates strictly increase: no date is plotted twice. */
  lemma LineDatesStrictlyAscend(data: Option<ChartData>, dateLabel: string -> string, i: int, j: int)
    requires Render(data, dateLabel).Line?
    requires var keys := ObjectKeys(data.value.tasksPerDay.value);
             forall a, b :: 0 <= a < b < |keys| ==> keys[a] != keys[b]
    requires 0 <= i < j < |Render(data, dateLabel).dates|
    ensures var dates := Render(data, dateLabel).dates;
            StrLe(dates[i], dates[j]) && dates[i] != dates[j]
  {
    var keys := ObjectKeys(data.value.tasksPerDay.value);
    var dates := Render(data, dateLabel).dates;
    LineDates(data, dateLabel);
    assert DefaultOrder()(dates[i], dates[j]);
    PermutationKeepsDistinct(dates, keys);
  }

  /** A permutation of a list without repeats has no repeats. */
  lemma PermutationKeepsDistinct(s: seq<string>, t: seq<string>)
    requires multiset(s) == multiset(t)
    requires forall a, b :: 0 <= a < b < |t| ==> t[a] != t[b]
    ensures forall a, b :: 0 <= a < b < |s| ==> s[a] != s[b]
  {
    forall i, j | 0 <= i < j < |s|
      ensures s[i] != s[j]
    {
      var x := s[i];
      assert x in multiset(t);
      OccursOnce(t, x);
      assert s == s[..i] + [x] + s[i + 1..j] + [s[j]] + s[j + 1..];
      assert multiset([s[j]])[x] == 0;
    }
  }

  /** In a list without repeats, each of its elements occurs once. */
  lemma {:induction false} OccursOnce(t: seq<string>, x: string)
    requires forall a, b :: 0 <= a < b < |t| ==> t[a] != t[b]
    requires x in t
    ensures multiset(t)[x] == 1
  {
    assert t == [t[0]] + t[1..];
    if t[0] == x {
      assert forall m :: 0 <= m < |t[1..]| ==> t[1..][m] == t[m + 1] != t[0];
      assert x !in t[1..];
    } else {
      OccursOnce(t[1..], x);
    }
  }
}
