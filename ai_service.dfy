/**
 * The suggestion heuristics: a priority from urgency keywords and the share
 * of high-priority tasks in the user's history, and two one-hour time slots
 * from an hour-of-day histogram of completed tasks' due dates.
 */
module AiService {
  import opened Wrappers
  import opened TaskModel
  import Sorting
  import opened Text
  import Counting

  // ---------------------------------------------------------------------
  // Priority
  // ---------------------------------------------------------------------

  /** The task context as a dictionary; only its "title" and "description" entries are read. */
  type Context = map<string, Option<string>>

  const UrgencyKeywords: seq<string> := ["urgent", "asap", "important", "critical", "deadline"]

  /** `(ctx.get(key) or "")`: a missing key, `None` and "" all read as "". */
  function Field(ctx: Context, key: string): string {
    if key in ctx && ctx[key].Some? then ctx[key].value else ""
  }

  /** `f"{title} {description}"` lower-cased. */
  function ContextText(ctx: Context): string {
    Lower(Field(ctx, "title")) + " " + Lower(Field(ctx, "description"))
  }

  /** `p` occurs in `s` at position `i`. */
  ghost predicate OccursAt(p: string, s: string, i: int) {
    0 <= i <= |s| - |p| && s[i..i + |p|] == p
  }

  /** `p in s` for strings, declaratively. */
  ghost predicate IsSubstring(p: string, s: string) {
    exists i :: OccursAt(p, s, i)
  }

  /** `p in s` for strings, by scanning. */
  function Contains(s: string, p: string): (r: bool)
    decreases |s|
  {
    if |p| > |s| then false
    else if s[..|p|] == p then true
    else Contains(s[1..], p)
  }

  /** An occurrence one place further into `s` is an occurrence in `s[1..]`. */
  lemma OccursShift(p: string, s: string, i: nat)
    requires |s| > 0
    ensures OccursAt(p, s, i + 1) <==> OccursAt(p, s[1..], i)
  {
    if i + 1 <= |s| - |p| {
      assert s[1..][i..i + |p|] == s[i + 1..i + 1 + |p|];
    }
  }

  lemma {:induction false} ContainsIsSubstring(s: string, p: string)
    ensures Contains(s, p) <==> IsSubstring(p, s)
    decreases |s|
  {
    if |p| > |s| {
    } else if s[..|p|] == p {
      assert OccursAt(p, s, 0);
    } else {
      ContainsIsSubstring(s[1..], p);
      if IsSubstring(p, s) {
        var i :| OccursAt(p, s, i);
        assert i != 0;
        OccursShift(p, s, i - 1);
      }
      if IsSubstring(p, s[1..]) {
        var i :| OccursAt(p, s[1..], i);
        OccursShift(p, s, i);
      }
    }
  }

  function AnyKeyword(text: string, keywords: seq<string>): bool {
    if keywords == [] then false else Contains(text, keywords[0]) || AnyKeyword(text, keywords[1..])
  }

  /**
   * `any(keyword in text for keyword in urgency_keywords)`: urgency holds
   * iff one of the five keywords occurs in the lower-cased text.
   */
  function HasUrgency(ctx: Context): (urgent: bool)
    ensures urgent <==>
      exists k :: k in ["urgent", "asap", "important", "critical", "deadline"] && IsSubstring(k, ContextText(ctx))
  {
    AnyKeywordIsSubstring(ContextText(ctx), UrgencyKeywords);
    AnyKeyword(ContextText(ctx), UrgencyKeywords)
  }

  lemma {:induction false} AnyKeywordIsSubstring(text: string, keywords: seq<string>)
    ensures AnyKeyword(text, keywords) <==> exists k :: k in keywords && IsSubstring(k, text)
  {
    if keywords != [] {
      ContainsIsSubstring(text, keywords[0]);
      AnyKeywordIsSubstring(text, keywords[1..]);
      assert keywords == [keywords[0]] + keywords[1..];
    }
  }

  function CountHigh(tasks: seq<Task>): (n: nat)
    ensures n <= |tasks|
  {
    if tasks == [] then 0 else (if tasks[0].priority == High then 1 else 0) + CountHigh(tasks[1..])
  }

  /** The count of a concatenation is the sum of the counts, so each high task adds exactly one. */
  lemma {:induction false} CountHighAppend(a: seq<Task>, b: seq<Task>)
    ensures CountHigh(a + b) == CountHigh(a) + CountHigh(b)
  {
    if a == [] {
      assert a + b == b;
    } else {
      assert (a + b)[1..] == a[1..] + b;
      CountHighAppend(a[1..], b);
    }
  }

  /** The count is 0 exactly when no task is high, and |tasks| exactly when every task is. */
  lemma {:induction false} CountHighExtremes(tasks: seq<Task>)
    ensures CountHigh(tasks) == 0 <==> forall i :: 0 <= i < |tasks| ==> tasks[i].priority != High
    ensures CountHigh(tasks) == |tasks| <==> forall i :: 0 <= i < |tasks| ==> tasks[i].priority == High
  {
    if tasks != [] {
      CountHighExtremes(tasks[1..]);
      assert forall i :: 1 <= i < |tasks| ==> tasks[i] == tasks[1..][i - 1];
    }
  }

  /**
   * `_suggest_priority`, with the source's floating-point ratio tests
   * computed by integer cross-multiplication. No context gives the default;
   * with history, urgency or a high share above 0.3 gives high, else a
   * share below 0.1 gives low, else medium; without history, urgency gives
   * high, else medium.
   */
  function SuggestPriority(ctx: Option<Context>, tasks: seq<Task>): (r: (Priority, string))
    ensures ctx.None? || ctx.value == map[] ==> r == (Medium, "Default medium priority")
    ensures ctx.Some? && ctx.value != map[] && |tasks| > 0 ==>
      r.0 == (if HasUrgency(ctx.value) || HighShare(tasks) > 3.0 / 10.0 then High
              else if HighShare(tasks) < 1.0 / 10.0 then Low
              else Medium)
    ensures ctx.Some? && ctx.value != map[] && |tasks| > 0 ==> r.1 == HistoryReason(r.0)
    ensures ctx.Some? && ctx.value != map[] && |tasks| == 0 ==>
      r == if HasUrgency(ctx.value) then (High, "High priority due to urgency keywords")
           else (Medium, "Default medium priority for new users")
  {
    if ctx.None? || ctx.value == map[] then (Medium, "Default medium priority")
    else
      var urgent := HasUrgency(ctx.value);
      if |tasks| > 0 then FromHistory(urgent, tasks)
      else if urgent then (High, "High priority due to urgency keywords")
      else (Medium, "Default medium priority for new users")
  }

  /** The branch for a user with tasks: the share of high-priority tasks decides unless the text is urgent. */
  function FromHistory(urgent: bool, tasks: seq<Task>): (r: (Priority, string))
    requires |tasks| > 0
    ensures r.0 == (if urgent || HighShare(tasks) > 3.0 / 10.0 then High
                    else if HighShare(tasks) < 1.0 / 10.0 then Low
                    else Medium)
    ensures r.1 == HistoryReason(r.0)
  {
    ShareThresholds(tasks);
    var high, total := CountHigh(tasks), |tasks|;
    var p := if urgent || 10 * high > 3 * total then High
             else if 10 * high < total then Low
             else Medium;
    (p, HistoryReason(p))
  }

  /** The reason given with each priority the history branch can suggest. */
  function HistoryReason(p: Priority): string {
    match p
    case High => "High priority due to urgency keywords or user's preference for high-priority tasks"
    case Low => "Low priority based on user's historical task distribution"
    case Medium => "Medium priority based on user's historical patterns"
  }

  /** The source's floating-point share of high-priority tasks, as an exact ratio. */
  function HighShare(tasks: seq<Task>): real
    requires |tasks| > 0
  {
    CountHigh(tasks) as real / |tasks| as real
  }

  /** The two thresholds on the share, restated on counts. */
  lemma ShareThresholds(tasks: seq<Task>)
    requires |tasks| > 0
    ensures HighShare(tasks) > 3.0 / 10.0 <==> 10 * CountHigh(tasks) > 3 * |tasks|
    ensures HighShare(tasks) < 1.0 / 10.0 <==> 10 * CountHigh(tasks) < |tasks|
  {
    RatioAbove(CountHigh(tasks), |tasks|, 3);
    RatioBelow(CountHigh(tasks), |tasks|, 1);
  }

  /** `a / n > c / 10` on exact ratios, by cross-multiplication. */
  lemma RatioAbove(a: nat, n: nat, c: nat)
    requires n > 0
    ensures (10 * a > c * n) <==> (a as real / n as real > c as real / 10.0)
  {
    var q := a as real / n as real;
    assert q * n as real == a as real;
    if 10 * a > c * n {
      assert 10.0 * q * n as real > c as real * n as real;
    } else {
      assert 10.0 * q * n as real <= c as real * n as real;
    }
  }

  /** `a / n < c / 10` on exact ratios, by cross-multiplication. */
  lemma RatioBelow(a: nat, n: nat, c: nat)
    requires n > 0
    ensures (10 * a < c * n) <==> (a as real / n as real < c as real / 10.0)
  {
    var q := a as real / n as real;
    assert q * n as real == a as real;
    if 10 * a < c * n {
      assert 10.0 * q * n as real < c as real * n as real;
    } else {
      assert 10.0 * q * n as real >= c as real * n as real;
    }
  }

  /** Urgent wording always yields a high priority once there is a context. */
  lemma UrgencyForcesHigh(ctx: Context, tasks: seq<Task>)
    requires ctx != map[] && HasUrgency(ctx)
    ensures SuggestPriority(Some(ctx), tasks).0 == High
  {
  }

  // ---------------------------------------------------------------------
  // Time slots
  // ---------------------------------------------------------------------

  /** Time is in seconds: 3600 to the hour; the scan covers 72 hours. */
  const WindowHours: nat := 72

  /** A confidence value num/den. */
  datatype Confidence = Confidence(num: nat, den: nat)

  const DefaultConfidence: Confidence := Confidence(1, 2)

  datatype Slot = Slot(start: Instant, end: Instant, confidence: Confidence)

  datatype SlotReasoning = DefaultForNewUsers | FromPreferredHours(hours: seq<int>)

  /** `t.hour` of a UTC instant. */
  function HourOfDay(t: Instant): (h: int)
    ensures 0 <= h < 24
  {
    (t / 3600) % 24
  }

  /** `now.replace(minute=0, second=0, microsecond=0)`. */
  function TruncateToHour(t: Instant): (r: Instant)
    ensures r <= t < r + 3600 && r % 3600 == 0
  {
    (t / 3600) * 3600
  }

  /** `[t for t in all_tasks if t.status == DONE and t.due_at]`. */
  function Completed(tasks: seq<Task>): (r: seq<Task>)
    ensures forall t :: t in r ==> t.status == Done && t.dueAt.Some?
  {
    if tasks == [] then []
    else (if tasks[0].status == Done && tasks[0].dueAt.Some? then [tasks[0]] else []) + Completed(tasks[1..])
  }

  /** A done, dated task is kept as often as it occurs; any other task is dropped. */
  lemma {:induction false} CompletedMultiplicity(tasks: seq<Task>)
    ensures forall t :: multiset(Completed(tasks))[t] ==
                        if t.status == Done && t.dueAt.Some? then multiset(tasks)[t] else 0
  {
    if tasks != [] {
      CompletedMultiplicity(tasks[1..]);
      assert tasks == [tasks[0]] + tasks[1..];
    }
  }

  predicate AllDated(s: seq<Task>) {
    forall t :: t in s ==> t.dueAt.Some?
  }

  /** The hour of day of each task's due date, in order. */
  function DueHours(s: seq<Task>): (r: seq<int>)
    requires AllDated(s)
    ensures |r| == |s| && forall i :: 0 <= i < |s| ==> r[i] == HourOfDay(s[i].dueAt.value)
  {
    if s == [] then [] else DueHours(s[..|s| - 1]) + [HourOfDay(s[|s| - 1].dueAt.value)]
  }

  /** One entry of `hour_counts`: an hour and how many tasks are due then. */
  type HourCount = Counting.Entry<int>

  /** `hour_counts`, in the dictionary's insertion order. */
  function HourHistogram(s: seq<Task>): seq<HourCount>
    requires AllDated(s)
  {
    Counting.Histogram(DueHours(s))
  }

  /** Number of tasks in `s` due at hour `h` of the day. */
  function CountAtHour(s: seq<Task>, h: int): nat
    requires AllDated(s)
  {
    Counting.Occurrences(DueHours(s), h)
  }

  /** `sorted(..., key=count, reverse=True)`: larger counts first, ties in insertion order. */
  function ByCountDesc(a: HourCount, b: HourCount): bool {
    a.count >= b.count
  }

  /** The top two hours, or 14 and 10 for an empty histogram. */
  function PreferredHours(hist: seq<HourCount>): (r: seq<int>)
    ensures |r| <= 2
  {
    var sorted := Sorting.SortBy(hist, ByCountDesc);
    if sorted == [] then [14, 10]
    else Counting.Keys(sorted[..if |sorted| < 2 then |sorted| else 2])
  }

  /**
   * For a histogram, the preferred hours are one or two of its hours, and
   * no hour left out has a higher count than a preferred one.
   */
  lemma PreferredHoursAreTop(hist: seq<HourCount>)
    requires hist != [] && Counting.DistinctKeys(hist) && Counting.Positive(hist)
    ensures var p := PreferredHours(hist);
            && 1 <= |p| <= 2
            && (forall h :: h in p ==> Counting.Lookup(hist, h) >= 1)
            && (forall e, h :: e in hist && h in p && e.key !in p ==> e.count <= Counting.Lookup(hist, h))
  {
    var sorted := Sorting.SortBy(hist, ByCountDesc);
    Sorting.SortSameElements(hist, ByCountDesc);
    assert Sorting.Total(ByCountDesc) && Sorting.Transitive(ByCountDesc);
    Sorting.SortSorted(hist, ByCountDesc);
    var n := if |sorted| < 2 then |sorted| else 2;
    TopKeysCounted(hist, sorted, n);
    TopKeysDominate(hist, sorted, n);
  }

  /** Every key among the first `n` entries of a rearranged histogram is counted at least once. */
  lemma TopKeysCounted(hist: seq<HourCount>, sorted: seq<HourCount>, n: nat)
    requires Counting.DistinctKeys(hist) && Counting.Positive(hist)
    requires forall x :: x in sorted ==> x in hist
    requires n <= |sorted|
    ensures forall h :: h in Counting.Keys(sorted[..n]) ==> Counting.Lookup(hist, h) >= 1
  {
    forall h | h in Counting.Keys(sorted[..n]) ensures Counting.Lookup(hist, h) >= 1 {
      var i :| 0 <= i < n && sorted[i].key == h;
      assert sorted[i] in sorted;
      Counting.LookupOfMember(hist, sorted[i]);
    }
  }

  /** In a histogram sorted by descending count, no entry past the first `n` beats a key among them. */
  lemma TopKeysDominate(hist: seq<HourCount>, sorted: seq<HourCount>, n: nat)
    requires Counting.DistinctKeys(hist)
    requires forall x :: x in hist <==> x in sorted
    requires Sorting.SortedBy(sorted, ByCountDesc)
    requires n <= |sorted|
    ensures forall e, h ::
              (e in hist && h in Counting.Keys(sorted[..n]) && e.key !in Counting.Keys(sorted[..n]))
              ==> e.count <= Counting.Lookup(hist, h)
  {
    var p := Counting.Keys(sorted[..n]);
    forall e, h | e in hist && h in p && e.key !in p ensures e.count <= Counting.Lookup(hist, h) {
      var i :| 0 <= i < n && sorted[i].key == h;
      var j :| 0 <= j < |sorted| && sorted[j] == e;
      assert j >= n;
      assert sorted[i] in sorted;
      Counting.LookupOfMember(hist, sorted[i]);
    }
  }

  lemma CountAtHourIsHour(s: seq<Task>, h: int)
    requires AllDated(s)
    ensures CountAtHour(s, h) > 0 ==> 0 <= h < 24
  {
    Counting.OccurrencesPositive(DueHours(s), h);
  }

  /**
   * With at least one completed task there are one or two preferred hours,
   * each an hour of the day at which some completed task is due.
   */
  lemma PreferredOfCompleted(completed: seq<Task>)
    requires AllDated(completed) && completed != []
    ensures var p := PreferredHours(HourHistogram(completed));
            && 1 <= |p| <= 2
            && forall h :: h in p ==> 0 <= h < 24 && CountAtHour(completed, h) >= 1
  {
    Counting.HistogramFacts(DueHours(completed));
    PreferredHoursAreTop(HourHistogram(completed));
    forall h | h in PreferredHours(HourHistogram(completed)) ensures 0 <= h < 24 {
      CountAtHourIsHour(completed, h);
    }
  }

  /** Ties on the count keep their first-seen order in the ranking. */
  lemma PreferredRankingIsStable(hist: seq<HourCount>, p: HourCount)
    ensures Sorting.Ties(Sorting.SortBy(hist, ByCountDesc), p, ByCountDesc) == Sorting.Ties(hist, p, ByCountDesc)
  {
    assert Sorting.Transitive(ByCountDesc);
    Sorting.SortStable(hist, p, ByCountDesc);
  }

  /** `min(count / len(completed_tasks), 0.9)`. */
  function CappedConfidence(count: nat, n: nat): (c: Confidence)
    ensures n > 0 ==> c.den > 0 && 10 * c.num <= 9 * c.den
    ensures 10 * count <= 9 * n ==> c == Confidence(count, n)
    ensures 10 * count > 9 * n ==> c == Confidence(9, 10)
  {
    if 10 * count > 9 * n then Confidence(9, 10) else Confidence(count, n)
  }

  /** The instant `k` hours after `base`. */
  function HourAfter(base: Instant, k: int): Instant {
    base + k * 3600
  }

  lemma HourOfDayAfter(base: Instant, k: int)
    requires base % 3600 == 0
    ensures HourOfDay(HourAfter(base, k)) == (base / 3600 + k) % 24
  {
    assert HourAfter(base, k) == (base / 3600 + k) * 3600;
  }

  /** The instant `j` hours after `base` falls at a preferred hour. */
  predicate PreferredAt(base: Instant, preferred: seq<int>, j: int) {
    HourOfDay(HourAfter(base, j)) in preferred
  }

  /** The offsets `j < k` whose on-the-hour instant falls at a preferred hour, ascending. */
  function Matches(base: Instant, preferred: seq<int>, k: nat): seq<nat> {
    if k == 0 then []
    else Matches(base, preferred, k - 1)
         + (if PreferredAt(base, preferred, k - 1) then [k - 1] else [])
  }

  /** `Matches` lists exactly the preferred offsets below `k`, in ascending order. */
  lemma {:induction false} MatchesExactly(base: Instant, preferred: seq<int>, k: nat)
    ensures var r := Matches(base, preferred, k);
            && (forall j: int :: j in r <==> 0 <= j < k && PreferredAt(base, preferred, j))
            && (forall i, j :: 0 <= i < j < |r| ==> r[i] < r[j])
            && (forall i :: 0 <= i < |r| ==> r[i] < k)
  {
    if k > 0 {
      MatchesExactly(base, preferred, k - 1);
    }
  }

  lemma {:induction false} MatchesGrow(base: Instant, preferred: seq<int>, k1: nat, k2: nat)
    requires k1 <= k2
    ensures |Matches(base, preferred, k1)| <= |Matches(base, preferred, k2)|
    decreases k2
  {
    if k1 < k2 {
      MatchesGrow(base, preferred, k1, k2 - 1);
    }
  }

  /** Every hour of the day recurs three times among the first 72 hours from `base`. */
  lemma EveryHourRecursThrice(base: Instant, h: int)
    requires base % 3600 == 0 && 0 <= h < 24
    ensures var d := (h - base / 3600) % 24;
            && d + 48 < WindowHours
            && HourOfDay(HourAfter(base, d)) == h
            && HourOfDay(HourAfter(base, d + 24)) == h
            && HourOfDay(HourAfter(base, d + 48)) == h
  {
    var d := (h - base / 3600) % 24;
    HourOfDayAfter(base, d);
    HourOfDayAfter(base, d + 24);
    HourOfDayAfter(base, d + 48);
  }

  /** So the 72 on-the-hour instants of the window hold at least two preferred ones. */
  lemma WindowHoldsTwoMatches(base: Instant, preferred: seq<int>)
    requires base % 3600 == 0
    requires |preferred| >= 1 && 0 <= preferred[0] < 24
    ensures |Matches(base, preferred, WindowHours)| >= 2
  {
    var d := (preferred[0] - base / 3600) % 24;
    EveryHourRecursThrice(base, preferred[0]);
    var m := Matches(base, preferred, WindowHours);
    MatchesExactly(base, preferred, WindowHours);
    assert d in m && d + 24 in m;
    var i :| 0 <= i < |m| && m[i] == d;
    var j :| 0 <= j < |m| && m[j] == d + 24;
    assert i != j;
  }

  /** The slot starting `j` hours after `base`, rated from the histogram. */
  function SlotAt(base: Instant, j: int, hist: seq<HourCount>, n: nat): Slot {
    var start := HourAfter(base, j);
    Slot(start, start + 3600, CappedConfidence(Counting.Lookup(hist, HourOfDay(start)), n))
  }

  function SlotsAt(base: Instant, offsets: seq<nat>, hist: seq<HourCount>, n: nat): (r: seq<Slot>)
    ensures |r| == |offsets|
  {
    if offsets == [] then [] else SlotsAt(base, offsets[..|offsets| - 1], hist, n) + [SlotAt(base, offsets[|offsets| - 1], hist, n)]
  }

  /** The histogram loop: `hour_counts` built in one pass over the completed tasks. */
  method BuildHistogram(completed: seq<Task>) returns (hist: seq<HourCount>)
    requires AllDated(completed)
    ensures hist == HourHistogram(completed)
  {
    hist := [];
    var i := 0;
    while i < |completed|
      invariant 0 <= i <= |completed|
      invariant hist == HourHistogram(completed[..i])
    {
      var hour := HourOfDay(completed[i].dueAt.value);
      assert completed[..i + 1][..i] == completed[..i];
      assert DueHours(completed[..i + 1]) == DueHours(completed[..i]) + [hour];
      assert (DueHours(completed[..i]) + [hour])[..i] == DueHours(completed[..i]);
      hist := Counting.Bump(hist, hour);
      i := i + 1;
    }
    assert completed[..i] == completed;
  }

  /**
   * The scan loop: from `now` truncated to the hour, one hour at a time,
   * while inside the 72-hour window and fewer than two slots are found. It
   * returns the slots of the first preferred instants, having looked at
   * `k` instants.
   */
  method ScanWindow(now: Instant, preferred: seq<int>, hist: seq<HourCount>, n: nat)
    returns (slots: seq<Slot>, ghost k: nat)
    ensures slots == SlotsAt(TruncateToHour(now), Matches(TruncateToHour(now), preferred, k), hist, n)
    ensures |slots| <= 2
    ensures |slots| == 2 || k >= WindowHours
    ensures k > 0 ==> HourAfter(TruncateToHour(now), k - 1) < now + 72 * 3600
  {
    var base := TruncateToHour(now);
    var limit := now + 72 * 3600;
    var current := base;
    k := 0;
    slots := [];
    while current < limit && |slots| < 2
      invariant current == HourAfter(base, k)
      invariant |slots| <= 2
      invariant slots == SlotsAt(base, Matches(base, preferred, k), hist, n)
      invariant k > 0 ==> HourAfter(base, k - 1) < limit
      decreases limit - current
    {
      MatchesStep(base, preferred, k);
      HourAfterNext(base, k);
      if HourOfDay(current) in preferred {
        var confidence := CappedConfidence(Counting.Lookup(hist, HourOfDay(current)), n);
        SlotsAtSnoc(base, Matches(base, preferred, k), k, hist, n);
        assert Slot(current, current + 3600, confidence) == SlotAt(base, k, hist, n);
        slots := slots + [Slot(current, current + 3600, confidence)];
      } else {
        assert !PreferredAt(base, preferred, k);
      }
      current := current + 3600;
      k := k + 1;
    }
  }

  lemma HourAfterNext(base: Instant, k: int)
    ensures HourAfter(base, k + 1) == HourAfter(base, k) + 3600
  {
  }

  lemma MatchesStep(base: Instant, preferred: seq<int>, k: nat)
    ensures Matches(base, preferred, k + 1)
            == Matches(base, preferred, k) + (if PreferredAt(base, preferred, k) then [k] else [])
  {
  }

  lemma {:induction false} SlotsAtIndex(base: Instant, offsets: seq<nat>, hist: seq<HourCount>, n: nat)
    ensures forall i :: 0 <= i < |offsets| ==> SlotsAt(base, offsets, hist, n)[i] == SlotAt(base, offsets[i], hist, n)
  {
    if offsets != [] {
      SlotsAtIndex(base, offsets[..|offsets| - 1], hist, n);
    }
  }

  lemma SlotsAtSnoc(base: Instant, offsets: seq<nat>, j: nat, hist: seq<HourCount>, n: nat)
    ensures SlotsAt(base, offsets + [j], hist, n) == SlotsAt(base, offsets, hist, n) + [SlotAt(base, j, hist, n)]
  {
    assert (offsets + [j])[..|offsets|] == offsets;
  }

  /**
   * The slots scanned for `completed`: two of them, in order, each on the
   * hour inside the window at a preferred hour and rated by the share of
   * completed tasks due at that hour, and no preferred instant before the
   * second one other than the first.
   */
  ghost predicate ScannedSlots(now: Instant, completed: seq<Task>, slots: seq<Slot>)
    requires AllDated(completed)
  {
    var base := TruncateToHour(now);
    && |slots| == 2
    && slots[0].start < slots[1].start
    && (forall s :: s in slots ==> GoodSlot(now, completed, s))
    && (forall j: nat :: HourAfter(base, j) < slots[1].start
          && HourOfDay(HourAfter(base, j)) in PreferredHours(HourHistogram(completed))
          ==> HourAfter(base, j) == slots[0].start)
  }

  /**
   * One scanned slot: an hour long, on the hour, inside the window, at a
   * preferred hour, and rated by the share of completed tasks due at that
   * hour capped at 0.9.
   */
  ghost predicate GoodSlot(now: Instant, completed: seq<Task>, s: Slot)
    requires AllDated(completed)
  {
    && s.end == s.start + 3600
    && s.start % 3600 == 0
    && TruncateToHour(now) <= s.start < now + 72 * 3600
    && HourOfDay(s.start) in PreferredHours(HourHistogram(completed))
    && s.confidence == CappedConfidence(CountAtHour(completed, HourOfDay(s.start)), |completed|)
  }

  /** A preferred offset inside the scanned range gives a good slot. */
  lemma SlotAtIsGood(now: Instant, completed: seq<Task>, j: nat, k: nat)
    requires AllDated(completed)
    requires j < k && (k > 0 ==> HourAfter(TruncateToHour(now), k - 1) < now + 72 * 3600)
    requires PreferredAt(TruncateToHour(now), PreferredHours(HourHistogram(completed)), j)
    ensures GoodSlot(now, completed, SlotAt(TruncateToHour(now), j, HourHistogram(completed), |completed|))
  {
    var base := TruncateToHour(now);
    Counting.HistogramFacts(DueHours(completed));
    assert HourAfter(base, j) == (base / 3600 + j) * 3600;
    assert HourAfter(base, j) <= HourAfter(base, k - 1);
  }

  /**
   * `_suggest_time_slots`. Without completed tasks it returns the two
   * defaults. Otherwise it returns the first two on-the-hour instants of the
   * 72-hour window that fall at a preferred hour, rated by the share of
   * completed tasks due at that hour capped at 0.9; a preferred hour recurs
   * there at least twice, so the fallback slot is never used.
   */
  method SuggestTimeSlots(tasks: seq<Task>, now: Instant) returns (slots: seq<Slot>, reasoning: SlotReasoning)
    ensures Completed(tasks) == [] ==>
      && slots == [ Slot(now + 2 * 3600, now + 3 * 3600, DefaultConfidence),
                    Slot(now + 24 * 3600, now + 25 * 3600, DefaultConfidence) ]
      && reasoning == DefaultForNewUsers
    ensures Completed(tasks) != [] ==>
      && reasoning == FromPreferredHours(PreferredHours(HourHistogram(Completed(tasks))))
      && ScannedSlots(now, Completed(tasks), slots)
  {
    var completed := Completed(tasks);
    if completed == [] {
      var slot1 := now + 2 * 3600;
      var slot2 := now + 24 * 3600;
      return [Slot(slot1, slot1 + 3600, DefaultConfidence),
              Slot(slot2, slot2 + 3600, DefaultConfidence)], DefaultForNewUsers;
    }
    var hist := BuildHistogram(completed);
    var preferred := PreferredHours(hist);
    PreferredOfCompleted(completed);
    assert preferred[0] in preferred;
    ghost var k;
    slots, k := ScanWindow(now, preferred, hist, |completed|);
    var base := TruncateToHour(now);
    if |slots| < 2 {
      WindowHoldsTwoMatches(base, preferred);
      MatchesGrow(base, preferred, WindowHours, k);
      assert false;
    }
    reasoning := FromPreferredHours(preferred);
    SlotsInWindow(now, completed, k);
  }

  /** The first two preferred instants of the window are the scanned slots. */
  lemma SlotsInWindow(now: Instant, completed: seq<Task>, k: nat)
    requires AllDated(completed)
    requires k > 0 ==> HourAfter(TruncateToHour(now), k - 1) < now + 72 * 3600
    requires |Matches(TruncateToHour(now), PreferredHours(HourHistogram(completed)), k)| == 2
    ensures ScannedSlots(now, completed,
              SlotsAt(TruncateToHour(now), Matches(TruncateToHour(now), PreferredHours(HourHistogram(completed)), k),
                      HourHistogram(completed), |completed|))
  {
    var base := TruncateToHour(now);
    var hist := HourHistogram(completed);
    var preferred := PreferredHours(hist);
    var m := Matches(base, preferred, k);
    var slots := SlotsAt(base, m, hist, |completed|);
    MatchesExactly(base, preferred, k);
    SlotsAtIndex(base, m, hist, |completed|);
    assert m[0] in m && m[1] in m;
    SlotAtIsGood(now, completed, m[0], k);
    SlotAtIsGood(now, completed, m[1], k);
    forall j: nat | HourAfter(base, j) < slots[1].start && HourOfDay(HourAfter(base, j)) in preferred
      ensures HourAfter(base, j) == slots[0].start
    {
      assert j < m[1] <= k;
      assert j in m;
    }
  }

  /**
   * The slots are determined: two slot lists that both satisfy
   * `ScannedSlots` are equal, so the promise of `SuggestTimeSlots` fixes
   * its result.
   */
  lemma ScannedSlotsUnique(now: Instant, completed: seq<Task>, s1: seq<Slot>, s2: seq<Slot>)
    requires AllDated(completed)
    requires ScannedSlots(now, completed, s1) && ScannedSlots(now, completed, s2)
    ensures s1 == s2
  {
    var a0, a1, b0, b1 := s1[0], s1[1], s2[0], s2[1];
    assert a0 in s1 && a1 in s1 && b0 in s2 && b1 in s2;
    // each first slot is a preferred instant before the other list's second
    // slot, so the first slots agree; then neither second slot can come
    // before the other
    OnlyFirstBeforeSecond(now, completed, s2, a0);
    OnlyFirstBeforeSecond(now, completed, s1, b0);
    OnlyFirstBeforeSecond(now, completed, s2, a1);
    OnlyFirstBeforeSecond(now, completed, s1, b1);
    SlotOfStart(now, completed, a0, b0);
    SlotOfStart(now, completed, a1, b1);
    assert s1 == [a0, a1] && s2 == [b0, b1];
  }

  /** A good slot starting before the second scanned slot is the first one. */
  lemma OnlyFirstBeforeSecond(now: Instant, completed: seq<Task>, slots: seq<Slot>, t: Slot)
    requires AllDated(completed)
    requires ScannedSlots(now, completed, slots) && GoodSlot(now, completed, t)
    ensures t.start < slots[1].start ==> t.start == slots[0].start
  {
    var base := TruncateToHour(now);
    var j := HoursSince(base, t.start);
    assert HourAfter(base, j) == t.start;
  }

  /** A good slot is determined by its start. */
  lemma SlotOfStart(now: Instant, completed: seq<Task>, a: Slot, b: Slot)
    requires AllDated(completed)
    requires GoodSlot(now, completed, a) && GoodSlot(now, completed, b)
    ensures a.start == b.start ==> a == b
  {
  }

  /** An on-the-hour instant at or after `base` is a whole number of hours after it. */
  function HoursSince(base: Instant, t: Instant): (j: nat)
    requires base % 3600 == 0 && t % 3600 == 0 && base <= t
    ensures HourAfter(base, j) == t
  {
    (t - base) / 3600
  }

  /** `get_ai_suggestions`: the priority and its reason, then the time slots and their reasoning. */
  datatype Suggestions = Suggestions(priority: Priority, priorityReason: string, slots: seq<Slot>, reasoning: SlotReasoning)

  method GetSuggestions(tasks: seq<Task>, ctx: Option<Context>, now: Instant) returns (r: Suggestions)
    ensures (r.priority, r.priorityReason) == SuggestPriority(ctx, tasks)
    ensures Completed(tasks) == [] ==>
      && r.reasoning == DefaultForNewUsers
      && r.slots == [ Slot(now + 2 * 3600, now + 3 * 3600, DefaultConfidence),
                      Slot(now + 24 * 3600, now + 25 * 3600, DefaultConfidence) ]
    ensures Completed(tasks) != [] ==>
      && r.reasoning == FromPreferredHours(PreferredHours(HourHistogram(Completed(tasks))))
      && ScannedSlots(now, Completed(tasks), r.slots)
  {
    var (priority, reason) := SuggestPriority(ctx, tasks);
    var slots, reasoning := SuggestTimeSlots(tasks, now);
    r := Suggestions(priority, reason, slots, reasoning);
  }
}
