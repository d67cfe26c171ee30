/**
 * The list view's `getSortedTasks`: keep the tasks the filter selects (all,
 * completed or active), then sort that new array in place with a comparator
 * chosen by the sort option, negated for descending order.
 *
 * `Array.prototype.sort` reads a comparator result of `NaN` as 0 (the
 * SortCompare step of ECMAScript), which is what an invalid due date
 * produces; the comparator is antisymmetric on every input, and transitive
 * when no due date is invalid.
 */
module TaskView {
  import opened Wrappers
  import opened Text
  import opened Dates
  import opened TaskParser
  import opened TaskStore

  // ---------------------------------------------------------------------------
  // The filter

  datatype FilterOption = All | Completed | Active

  predicate Keeps(f: FilterOption, t: Task) {
    match f
    case All => true
    case Completed => t.completed
    case Active => !t.completed
  }

  /** `tasks.filter(...)`: the tasks the option keeps, in their original order. */
  function Filter(tasks: seq<Task>, f: FilterOption): (r: seq<Task>)
    ensures |r| <= |tasks|
    ensures forall t :: t in r ==> t in tasks && Keeps(f, t)
  {
    if tasks == [] then []
    else
      var rest := Filter(tasks[..|tasks| - 1], f);
      var last := tasks[|tasks| - 1];
      if Keeps(f, last) then rest + [last] else rest
  }

  /** Filtering two lists joined filters each, so the kept tasks stay in their order. */
  lemma {:induction false} FilterConcat(a: seq<Task>, b: seq<Task>, f: FilterOption)
    ensures Filter(a + b, f) == Filter(a, f) + Filter(b, f)
    decreases |b|
  {
    if b == [] {
      assert a + b == a;
    } else {
      var init := b[..|b| - 1];
      assert (a + b)[..|a + b| - 1] == a + init;
      assert (a + b)[|a + b| - 1] == b[|b| - 1];
      FilterConcat(a, init, f);
    }
  }

  /** One task: it stays when the option keeps it, and goes otherwise. */
  lemma FilterSingle(t: Task, f: FilterOption)
    ensures Filter([t], f) == if Keeps(f, t) then [t] else []
  {
  }

  /** The "all" option keeps the list as it is. */
  lemma {:induction false} FilterAll(tasks: seq<Task>)
    ensures Filter(tasks, All) == tasks
  {
    if tasks != [] {
      FilterAll(tasks[..|tasks| - 1]);
      assert tasks == tasks[..|tasks| - 1] + [tasks[|tasks| - 1]];
    }
  }

  /** Each kept task stays as often as it was there; the others go. */
  lemma {:induction false} FilterCounts(tasks: seq<Task>, f: FilterOption)
    ensures forall t :: multiset(Filter(tasks, f))[t] == if Keeps(f, t) then multiset(tasks)[t] else 0
  {
    if tasks != [] {
      var init := tasks[..|tasks| - 1];
      var last := tasks[|tasks| - 1];
      FilterCounts(init, f);
      assert tasks == init + [last];
      assert multiset(tasks) == multiset(init) + multiset{last};
    }
  }

  /** "completed" and "active" split the list between them. */
  lemma FilterPartition(tasks: seq<Task>)
    ensures multiset(Filter(tasks, Completed)) + multiset(Filter(tasks, Active)) == multiset(tasks)
  {
    FilterCounts(tasks, Completed);
    FilterCounts(tasks, Active);
    assert forall t :: (multiset(Filter(tasks, Completed)) + multiset(Filter(tasks, Active)))[t] == multiset(tasks)[t];
  }

  // ---------------------------------------------------------------------------
  // The comparator

  datatype SortOption = ByDueDate | ByPriority | ByAssignee | ByCreatedAt

  datatype Direction = Asc | Desc

  /** A date that holds a calendar moment, as every date the setters build does. */
  predicate Timed(d: Date) {
    d.ValidDate? && ValidMoment(d.at)
  }

  /**
   * `getTime()`: the time value of a date, `NaN` for an invalid one (and for
   * a moment outside the calendar, which no `Date` holds).
   */
  function GetTime(d: Date): (r: Number)
    ensures r.NaN? <==> !Timed(d)
    ensures r.Finite? ==> r.n == TimeValue(d.at)
  {
    if Timed(d) then Finite(TimeValue(d.at)) else NaN
  }

  /** Subtraction of numbers, `NaN` when either side is. */
  function Minus(x: Number, y: Number): (r: Number)
    ensures r.NaN? <==> x.NaN? || y.NaN?
    ensures r.Finite? ==> r.n + y.n == x.n
  {
    if x.Finite? && y.Finite? then Finite(x.n - y.n) else NaN
  }

  function Negate(x: Number): (r: Number)
    ensures r.NaN? <==> x.NaN?
    ensures r.Finite? ==> r.n == -x.n
  {
    if x.Finite? then Finite(-x.n) else NaN
  }

  /** `{ P1: 0, P2: 1, P3: 2, P4: 3 }`. */
  function PriorityRank(p: Priority): (r: int)
    ensures 0 <= r <= 3
    ensures PriorityLabel(p)[1] as int - '1' as int == r
  {
    match p
    case P1 => 0
    case P2 => 1
    case P3 => 2
    case P4 => 3
  }

  /**
   * `a.localeCompare(b)`, taken as lexicographic order on character codes:
   * negative, zero or positive as `a` comes before, equals or comes after `b`.
   */
  function LocaleCompare(a: string, b: string): (r: int)
    ensures -1 <= r <= 1
    ensures r == 0 <==> a == b
  {
    if a == [] && b == [] then 0
    else if a == [] then -1
    else if b == [] then 1
    else if a[0] < b[0] then -1
    else if a[0] > b[0] then 1
    else LocaleCompare(a[1..], b[1..])
  }

  lemma {:induction false} LocaleCompareAntisymmetric(a: string, b: string)
    ensures LocaleCompare(a, b) == -LocaleCompare(b, a)
  {
    if a != [] && b != [] && a[0] == b[0] {
      LocaleCompareAntisymmetric(a[1..], b[1..]);
    }
  }

  lemma {:induction false} LocaleCompareTransitive(a: string, b: string, c: string)
    requires LocaleCompare(a, b) <= 0 && LocaleCompare(b, c) <= 0
    ensures LocaleCompare(a, c) <= 0
  {
    if a != [] && b != [] && c != [] && a[0] == b[0] && b[0] == c[0] {
      LocaleCompareTransitive(a[1..], b[1..], c[1..]);
    }
  }

  /** `!!task.assignee`: an empty name counts as no assignee. */
  predicate HasAssignee(t: Task) {
    t.assignee.Some? && t.assignee.value != ""
  }

  /** The `switch (sortBy)`: the comparison before the direction is applied. */
  function Comparison(key: SortOption, a: Task, b: Task): Number {
    match key
    case ByDueDate =>
      if a.dueDate.None? && b.dueDate.None? then Finite(0)
      else if a.dueDate.None? then Finite(1)
      else if b.dueDate.None? then Finite(-1)
      else Minus(GetTime(a.dueDate.value), GetTime(b.dueDate.value))
    case ByPriority => Finite(PriorityRank(a.priority) - PriorityRank(b.priority))
    case ByAssignee =>
      if !HasAssignee(a) && !HasAssignee(b) then Finite(0)
      else if !HasAssignee(a) then Finite(1)
      else if !HasAssignee(b) then Finite(-1)
      else Finite(LocaleCompare(a.assignee.value, b.assignee.value))
    case ByCreatedAt => Minus(GetTime(a.createdAt), GetTime(b.createdAt))
  }

  /**
   * What the sort makes of the comparator's result: the comparison, negated
   * for descending order, with `NaN` read as 0.
   */
  function Compare(key: SortOption, dir: Direction, a: Task, b: Task): int {
    var c := if dir == Asc then Comparison(key, a, b) else Negate(Comparison(key, a, b));
    if c.NaN? then 0 else c.n
  }

  /** Swapping the two tasks negates the result, in both directions and for every option. */
  lemma CompareAntisymmetric(key: SortOption, dir: Direction, a: Task, b: Task)
    ensures Compare(key, dir, a, b) == -Compare(key, dir, b, a)
  {
    if key == ByAssignee && HasAssignee(a) && HasAssignee(b) {
      LocaleCompareAntisymmetric(a.assignee.value, b.assignee.value);
    }
  }

  /** Descending order is ascending order with the two tasks swapped. */
  lemma DescendingSwaps(key: SortOption, a: Task, b: Task)
    ensures Compare(key, Desc, a, b) == Compare(key, Asc, b, a)
  {
    CompareAntisymmetric(key, Asc, a, b);
  }

  /** A task without a due date (or assignee) sorts after one with it in ascending order, and before it in descending order. */
  lemma NullsLast(a: Task, b: Task)
    ensures a.dueDate.None? && b.dueDate.Some? ==> Compare(ByDueDate, Asc, a, b) > 0 && Compare(ByDueDate, Desc, a, b) < 0
    ensures !HasAssignee(a) && HasAssignee(b) ==> Compare(ByAssignee, Asc, a, b) > 0 && Compare(ByAssignee, Desc, a, b) < 0
    ensures a.dueDate.None? && b.dueDate.None? ==> Compare(ByDueDate, Asc, a, b) == 0
    ensures !HasAssignee(a) && !HasAssignee(b) ==> Compare(ByAssignee, Asc, a, b) == 0
  {
  }

  /** By priority, P1 comes before P2, P2 before P3 and P3 before P4. */
  lemma PriorityOrder(a: Task, b: Task)
    ensures Compare(ByPriority, Asc, a, b) < 0 <==> PriorityRank(a.priority) < PriorityRank(b.priority)
    ensures Compare(ByPriority, Asc, a, b) == 0 <==> a.priority == b.priority
  {
  }

  /** Two due dates (or creation dates) compare by their time values; an invalid one compares equal to anything. */
  lemma DatesCompareByTime(a: Task, b: Task)
    ensures a.dueDate.Some? && b.dueDate.Some? && Timed(a.dueDate.value) && Timed(b.dueDate.value) ==>
              Compare(ByDueDate, Asc, a, b) == TimeValue(a.dueDate.value.at) - TimeValue(b.dueDate.value.at)
    ensures a.dueDate.Some? && b.dueDate.Some? && (a.dueDate.value.InvalidDate? || b.dueDate.value.InvalidDate?) ==>
              Compare(ByDueDate, Asc, a, b) == 0
    ensures Timed(a.createdAt) && Timed(b.createdAt) ==>
              Compare(ByCreatedAt, Asc, a, b) == TimeValue(a.createdAt.at) - TimeValue(b.createdAt.at)
  {
  }

  /** No due date and no creation date is invalid. */
  predicate DatesValid(t: Task) {
    (t.dueDate.Some? ==> Timed(t.dueDate.value)) && Timed(t.createdAt)
  }

  /** Without invalid dates the comparator is transitive, so sorting by it is well defined. */
  lemma CompareTransitive(key: SortOption, dir: Direction, a: Task, b: Task, c: Task)
    requires DatesValid(a) && DatesValid(b) && DatesValid(c)
    requires Compare(key, dir, a, b) <= 0 && Compare(key, dir, b, c) <= 0
    ensures Compare(key, dir, a, c) <= 0
  {
    if key == ByAssignee && HasAssignee(a) && HasAssignee(b) && HasAssignee(c) {
      var x, y, z := a.assignee.value, b.assignee.value, c.assignee.value;
      if dir == Asc {
        LocaleCompareTransitive(x, y, z);
      } else {
        LocaleCompareAntisymmetric(x, y);
        LocaleCompareAntisymmetric(y, z);
        LocaleCompareAntisymmetric(x, z);
        LocaleCompareTransitive(z, y, x);
      }
    }
  }

  // ---------------------------------------------------------------------------
  // Sorting

  /** Every task compares at most 0 with the one after it. */
  predicate Sorted(s: seq<Task>, key: SortOption, dir: Direction) {
    forall k :: 0 <= k < |s| - 1 ==> Compare(key, dir, s[k], s[k + 1]) <= 0
  }

  /** With no invalid date, a sorted list has every task before every later one. */
  lemma {:induction false} SortedAllPairs(s: seq<Task>, key: SortOption, dir: Direction, i: int, j: int)
    requires Sorted(s, key, dir) && forall k :: 0 <= k < |s| ==> DatesValid(s[k])
    requires 0 <= i < j < |s|
    ensures Compare(key, dir, s[i], s[j]) <= 0
    decreases j - i
  {
    if j > i + 1 {
      SortedAllPairs(s, key, dir, i + 1, j);
      CompareTransitive(key, dir, s[i], s[i + 1], s[j]);
    }
  }

  lemma SortedJoin(s: seq<Task>, key: SortOption, dir: Direction, j: int)
    requires 0 <= j <= |s|
    requires Sorted(s[..j], key, dir) && Sorted(s[j..], key, dir)
    requires 0 < j < |s| ==> Compare(key, dir, s[j - 1], s[j]) <= 0
    ensures Sorted(s, key, dir)
  {
    forall k | 0 <= k < |s| - 1
      ensures Compare(key, dir, s[k], s[k + 1]) <= 0
    {
      if k + 1 < j {
        assert s[k] == s[..j][k] && s[k + 1] == s[..j][k + 1];
      } else if k >= j {
        assert s[k] == s[j..][k - j] && s[k + 1] == s[j..][k - j + 1];
      }
    }
  }

  /** Once the moving entry has stopped moving left, the first `i + 1` tasks are sorted. */
  lemma Inserted(s: seq<Task>, j: int, i: int, key: SortOption, dir: Direction)
    requires 0 <= j <= i < |s|
    requires Sorted(s[..j], key, dir) && Sorted(s[j..i + 1], key, dir)
    requires 0 < j ==> Compare(key, dir, s[j - 1], s[j]) <= 0
    ensures Sorted(s[..i + 1], key, dir)
  {
    var u := s[..i + 1];
    assert u[..j] == s[..j] && u[j..] == s[j..i + 1];
    SortedJoin(u, key, dir, j);
  }

  /** `filteredTasks.sort(...)`: insertion sort on the array, in place. */
  method SortInPlace(a: array<Task>, key: SortOption, dir: Direction)
    modifies a
    ensures Sorted(a[..], key, dir)
    ensures multiset(a[..]) == multiset(old(a[..]))
  {
    var i := 0;
    while i < a.Length
      invariant 0 <= i <= a.Length
      invariant Sorted(a[..i], key, dir)
      invariant multiset(a[..]) == multiset(old(a[..]))
    {
      var j := i;
      while j > 0 && Compare(key, dir, a[j - 1], a[j]) > 0
        invariant 0 <= j <= i
        invariant Sorted(a[..j], key, dir) && Sorted(a[j..i + 1], key, dir)
        invariant 0 < j < i ==> Compare(key, dir, a[j - 1], a[j + 1]) <= 0
        invariant multiset(a[..]) == multiset(old(a[..]))
      {
        SwapBack(a, j, i, key, dir);
        j := j - 1;
      }
      Inserted(a[..], j, i, key, dir);
      i := i + 1;
    }
    assert a[..a.Length] == a[..];
  }

  /** One step of insertion: the entry at `j` moves one place to the left. */
  method SwapBack(a: array<Task>, j: int, i: int, key: SortOption, dir: Direction)
    requires 0 < j <= i < a.Length
    requires Sorted(a[..j], key, dir) && Sorted(a[j..i + 1], key, dir)
    requires j < i ==> Compare(key, dir, a[j - 1], a[j + 1]) <= 0
    requires Compare(key, dir, a[j - 1], a[j]) > 0
    modifies a
    ensures a[..] == Swapped(old(a[..]), j)
    ensures multiset(a[..]) == multiset(old(a[..]))
    ensures Sorted(a[..j - 1], key, dir) && Sorted(a[j - 1..i + 1], key, dir)
    ensures 1 < j ==> Compare(key, dir, a[j - 2], a[j]) <= 0
  {
    SwapKeepsOrder(a[..], j, i, key, dir);
    a[j - 1], a[j] := a[j], a[j - 1];
  }

  /** `s` with the tasks at `j - 1` and `j` exchanged. */
  function Swapped(s: seq<Task>, j: int): (r: seq<Task>)
    requires 0 < j < |s|
    ensures |r| == |s| && r[j - 1] == s[j] && r[j] == s[j - 1]
    ensures forall k :: 0 <= k < |s| && k != j - 1 && k != j ==> r[k] == s[k]
    ensures multiset(r) == multiset(s)
  {
    s[j - 1 := s[j]][j := s[j - 1]]
  }

  /** Moving an out-of-order task one place left keeps both sorted runs sorted. */
  lemma SwapKeepsOrder(s: seq<Task>, j: int, i: int, key: SortOption, dir: Direction)
    requires 0 < j <= i < |s|
    requires Sorted(s[..j], key, dir) && Sorted(s[j..i + 1], key, dir)
    requires j < i ==> Compare(key, dir, s[j - 1], s[j + 1]) <= 0
    requires Compare(key, dir, s[j - 1], s[j]) > 0
    ensures var t := Swapped(s, j);
            Sorted(t[..j - 1], key, dir) && Sorted(t[j - 1..i + 1], key, dir)
            && (1 < j ==> Compare(key, dir, t[j - 2], t[j]) <= 0)
  {
    var t := Swapped(s, j);
    if j > 1 {
      assert s[..j][j - 2] == s[j - 2] && s[..j][j - 1] == s[j - 1];
    }
    SortedPrefix(s[..j], j - 1, key, dir);
    assert t[..j - 1] == s[..j][..j - 1];
    CompareAntisymmetric(key, dir, s[j - 1], s[j]);
    SwappedRun(s, j, i, key, dir);
  }

  /** A prefix of a sorted list is sorted. */
  lemma SortedPrefix(s: seq<Task>, n: int, key: SortOption, dir: Direction)
    requires Sorted(s, key, dir) && 0 <= n <= |s|
    ensures Sorted(s[..n], key, dir)
  {
    forall k | 0 <= k < n - 1
      ensures Compare(key, dir, s[..n][k], s[..n][k + 1]) <= 0
    {
      assert s[..n][k] == s[k] && s[..n][k + 1] == s[k + 1];
    }
  }

  /** After the swap, the run from `j - 1` to `i` is sorted. */
  lemma SwappedRun(s: seq<Task>, j: int, i: int, key: SortOption, dir: Direction)
    requires 0 < j <= i < |s|
    requires Sorted(s[j..i + 1], key, dir)
    requires j < i ==> Compare(key, dir, s[j - 1], s[j + 1]) <= 0
    requires Compare(key, dir, s[j], s[j - 1]) <= 0
    ensures Sorted(Swapped(s, j)[j - 1..i + 1], key, dir)
  {
    var t := Swapped(s, j);
    var run := t[j - 1..i + 1];
    forall k | 0 <= k < |run| - 1
      ensures Compare(key, dir, run[k], run[k + 1]) <= 0
    {
      if k >= 2 {
        assert s[j..i + 1][k - 1] == run[k] && s[j..i + 1][k] == run[k + 1];
      }
    }
  }

  /** `getSortedTasks()`: the tasks the filter keeps, sorted by the chosen option and direction. */
  method GetSortedTasks(tasks: seq<Task>, filterBy: FilterOption, key: SortOption, dir: Direction) returns (sorted: seq<Task>)
    ensures multiset(sorted) == multiset(Filter(tasks, filterBy))
    ensures Sorted(sorted, key, dir)
  {
    var filteredTasks := Filter(tasks, filterBy);
    var a := new Task[|filteredTasks|](k requires 0 <= k < |filteredTasks| => filteredTasks[k]);
    assert a[..] == filteredTasks;
    SortInPlace(a, key, dir);
    sorted := a[..];
  }
}
