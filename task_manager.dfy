/** The personal task manager (personal-task-manager/script.js): a list of task
    records held in `state.tasks`, the operations that replace it, and the
    filtered and sorted view and statistics derived from it. Ids and clock
    readings are parameters; persistence and rendering are outside the model. */
module TaskManager {
  import opened Text
  import opened Sequences
  import opened Rounding

  datatype Priority = Low | Medium | High

  /** A task record. `createdAt` and `completedAt` are clock readings in
      milliseconds; `completedAt == None` stands for null. */
  datatype Task = Task(
    id: int,
    text: string,
    priority: Priority,
    category: string,
    completed: bool,
    createdAt: int,
    completedAt: Option<int>)

  predicate IsCompleted(t: Task) { t.completed }
  predicate IsOpen(t: Task) { !t.completed }
  predicate IsHigh(t: Task) { t.priority == High }

  /** The record invariant the operations aim at: completedAt is set exactly on
      completed tasks. */
  predicate CompletionConsistent(ts: seq<Task>) {
    forall t :: t in ts ==> (t.completedAt.Some? <==> t.completed)
  }

  /** No two tasks share an id. The application does not enforce this (ids come
      from Date.now(), and an import may bring duplicates), so lemmas assume it. */
  predicate UniqueIds(ts: seq<Task>) {
    forall i, j :: 0 <= i < j < |ts| ==> ts[i].id != ts[j].id
  }

  function Ids(ts: seq<Task>): set<int> {
    set t | t in ts :: t.id
  }

  // ---------------------------------------------------------------------
  // The list operations

  /** addTask: a blank input is rejected; otherwise the trimmed text becomes a new,
      open task placed in front of the list. */
  function WithTaskAdded(ts: seq<Task>, input: string, priority: Priority, category: string,
                         id: int, now: int): (r: seq<Task>)
    ensures AllWhitespace(input) ==> r == ts
    ensures !AllWhitespace(input) ==>
      && |r| == |ts| + 1 && r[1..] == ts
      && r[0].id == id && r[0].text == Trim(input) && r[0].text != []
      && r[0].priority == priority && r[0].category == category
      && !r[0].completed && r[0].createdAt == now && r[0].completedAt == None
  {
    var text := Trim(input);
    if text == [] then ts else [Task(id, text, priority, category, false, now, None)] + ts
  }

  /** toggleTaskCompletion on one record. */
  function ToggledTask(t: Task, now: int): Task {
    t.(completed := !t.completed, completedAt := if t.completed then None else Some(now))
  }

  /** toggleTaskCompletion: every task with the id flips its completion; a task that
      becomes completed is stamped with `now`, one that becomes open loses its stamp;
      no other task and no other field changes. */
  function Toggled(ts: seq<Task>, id: int, now: int): (r: seq<Task>)
    ensures |r| == |ts|
    ensures forall i :: 0 <= i < |ts| && ts[i].id != id ==> r[i] == ts[i]
    ensures forall i :: 0 <= i < |ts| && ts[i].id == id ==>
      && r[i].completed == !ts[i].completed
      && r[i].completedAt == (if ts[i].completed then None else Some(now))
      && r[i].(completed := ts[i].completed, completedAt := ts[i].completedAt) == ts[i]
  {
    seq(|ts|, i requires 0 <= i < |ts| => if ts[i].id == id then ToggledTask(ts[i], now) else ts[i])
  }

  /** saveEditedTask's update: only text, priority and category of the tasks with
      the id change; id, completion and both timestamps are kept. */
  function Edited(ts: seq<Task>, id: int, text: string, priority: Priority, category: string): (r: seq<Task>)
    ensures |r| == |ts|
    ensures forall i :: 0 <= i < |ts| && ts[i].id != id ==> r[i] == ts[i]
    ensures forall i :: 0 <= i < |ts| && ts[i].id == id ==>
      && r[i].text == text && r[i].priority == priority && r[i].category == category
      && r[i].id == ts[i].id && r[i].completed == ts[i].completed
      && r[i].createdAt == ts[i].createdAt && r[i].completedAt == ts[i].completedAt
  {
    seq(|ts|, i requires 0 <= i < |ts| =>
      if ts[i].id == id then ts[i].(text := text, priority := priority, category := category) else ts[i])
  }

  /** deleteTask: the tasks without the id, in their order. */
  function WithoutTask(ts: seq<Task>, id: int): (r: seq<Task>)
    ensures IsSubsequence(r, ts)
    ensures id !in Ids(r)
    ensures forall t :: t in ts && t.id != id ==> t in r
    ensures forall t :: multiset(r)[t] == if t.id == id then 0 else multiset(ts)[t]
  {
    Filter((t: Task) => t.id != id, ts)
  }

  /** deleteCompletedTasks: exactly the open tasks, in their order. */
  function WithoutCompleted(ts: seq<Task>): (r: seq<Task>)
    ensures IsSubsequence(r, ts)
    ensures forall t :: t in r ==> !t.completed
    ensures forall t :: multiset(r)[t] == if t.completed then 0 else multiset(ts)[t]
  {
    Filter(IsOpen, ts)
  }

  /** markAllTasksComplete: every task is completed; a task that already was keeps
      its completedAt, the others are stamped with `now`. */
  function AllCompleted(ts: seq<Task>, now: int): (r: seq<Task>)
    ensures |r| == |ts|
    ensures forall i :: 0 <= i < |ts| ==>
      && r[i].completed
      && r[i].completedAt == (if ts[i].completed then ts[i].completedAt else Some(now))
      && r[i].(completed := ts[i].completed, completedAt := ts[i].completedAt) == ts[i]
  {
    seq(|ts|, i requires 0 <= i < |ts| =>
      ts[i].(completed := true, completedAt := if ts[i].completed then ts[i].completedAt else Some(now)))
  }

  // ---------------------------------------------------------------------
  // Import

  /** One element of an imported JSON array, already parsed. The four fields that
      are validated may be missing (None); missing `completed` reads as false. */
  datatype ImportEntry = ImportEntry(
    id: Option<int>,
    text: Option<string>,
    priority: Option<Priority>,
    category: Option<string>,
    completed: bool,
    createdAt: int,
    completedAt: Option<int>)

  /** The file's text after JSON.parse: not JSON at all, JSON that is not an array,
      an array with a null element somewhere (reading `task.id` of it throws a
      TypeError, whatever the other elements are), or an array of entries. A
      number, string or boolean element has no truthy fields and reads as an
      entry with all four missing. */
  datatype ImportData = Unparsable | NotAnArray | HoldsNull | Entries(entries: seq<ImportEntry>)

  /** How the import ended: the alert it shows. `NullRead` is the caught TypeError. */
  datatype ImportOutcome = ParseFailed | InvalidFormat | NullRead | NoValidTasks | Imported(count: nat)

  datatype ImportResult = ImportResult(tasks: seq<Task>, outcome: ImportOutcome)

  /** `task.id && task.text && task.priority && task.category`: present and truthy
      (a zero id and an empty string are falsy; the text is not trimmed). */
  predicate Truthy(e: ImportEntry) {
    && e.id.Some? && e.id.value != 0
    && e.text.Some? && e.text.value != []
    && e.priority.Some?
    && e.category.Some? && e.category.value != []
  }

  function AsTask(e: ImportEntry): Task
    requires Truthy(e)
  {
    Task(e.id.value, e.text.value, e.priority.value, e.category.value, e.completed, e.createdAt, e.completedAt)
  }

  /** The entries that `filter` keeps, each read as a task, so that file order and
      multiplicity are the filter's. */
  function ValidTasks(es: seq<ImportEntry>): (r: seq<Task>)
    ensures |r| == |Filter(Truthy, es)| <= |es|
    ensures forall i :: 0 <= i < |r| ==>
      Truthy(Filter(Truthy, es)[i]) && r[i] == AsTask(Filter(Truthy, es)[i])
  {
    var kept := Filter(Truthy, es);
    seq(|kept|, i requires 0 <= i < |kept| && Truthy(kept[i]) => AsTask(kept[i]))
  }

  /** A task is among the valid tasks exactly when some valid entry of the file
      stands for it. */
  lemma ValidTasksMembers(es: seq<ImportEntry>)
    ensures forall e :: e in es && Truthy(e) ==> AsTask(e) in ValidTasks(es)
    ensures forall t :: t in ValidTasks(es) ==> exists e :: e in es && Truthy(e) && t == AsTask(e)
  {
    var kept, r := Filter(Truthy, es), ValidTasks(es);
    forall e | e in es && Truthy(e)
      ensures AsTask(e) in r
    {
      var i :| 0 <= i < |kept| && kept[i] == e;
      assert r[i] == AsTask(e);
    }
    forall t | t in r
      ensures exists e :: e in es && Truthy(e) && t == AsTask(e)
    {
      var i :| 0 <= i < |r| && r[i] == t;
      assert kept[i] in kept;
    }
  }

  /** The tasks whose id is not among the existing ones, in order. */
  function NewTasks(existing: set<int>, valid: seq<Task>): (r: seq<Task>)
    ensures IsSubsequence(r, valid)
    ensures forall t :: t in r <==> t in valid && t.id !in existing
    ensures forall t :: multiset(r)[t] == if t.id !in existing then multiset(valid)[t] else 0
  {
    Filter((t: Task) => t.id !in existing, valid)
  }

  /** The merge of a file with at least one valid entry: the list with the new
      tasks of `valid` appended, and their number. */
  function Merged(ts: seq<Task>, valid: seq<Task>): (r: ImportResult)
    ensures |ts| <= |r.tasks| && r.tasks[..|ts|] == ts
    ensures r.outcome == Imported(|r.tasks| - |ts|)
    ensures IsSubsequence(r.tasks[|ts|..], valid)
    ensures forall t :: t in r.tasks[|ts|..] <==> t in valid && t.id !in Ids(ts)
    ensures forall t :: multiset(r.tasks[|ts|..])[t] == if t.id !in Ids(ts) then multiset(valid)[t] else 0
  {
    var added := NewTasks(Ids(ts), valid);
    var merged := ts + added;
    assert merged[..|ts|] == ts && merged[|ts|..] == added;
    ImportResult(merged, Imported(|added|))
  }

  /** importTasks' merge: unparsable text, a non-array, an array holding null and
      a file without a valid entry leave the list alone and report the failure; otherwise the valid
      entries whose id is not in the list already are appended in file order, each
      as often as the file holds it, and their number is reported. */
  function MergeImport(ts: seq<Task>, data: ImportData): (r: ImportResult)
    ensures data.Unparsable? ==> r == ImportResult(ts, ParseFailed)
    ensures data.NotAnArray? ==> r == ImportResult(ts, InvalidFormat)
    ensures data.HoldsNull? ==> r == ImportResult(ts, NullRead)
    ensures data.Entries? && ValidTasks(data.entries) == [] ==> r == ImportResult(ts, NoValidTasks)
    ensures data.Entries? && ValidTasks(data.entries) != [] ==>
      && |ts| <= |r.tasks| && r.tasks[..|ts|] == ts
      && r.outcome == Imported(|r.tasks| - |ts|)
      && IsSubsequence(r.tasks[|ts|..], ValidTasks(data.entries))
      && (forall t :: t in r.tasks[|ts|..] <==> t in ValidTasks(data.entries) && t.id !in Ids(ts))
      && (forall t :: multiset(r.tasks[|ts|..])[t] ==
            if t.id !in Ids(ts) then multiset(ValidTasks(data.entries))[t] else 0)
  {
    match data
    case Unparsable => ImportResult(ts, ParseFailed)
    case NotAnArray => ImportResult(ts, InvalidFormat)
    case HoldsNull => ImportResult(ts, NullRead)
    case Entries(es) =>
      var valid := ValidTasks(es);
      if valid == [] then ImportResult(ts, NoValidTasks) else Merged(ts, valid)
  }

  /** A file is rejected as holding no valid task exactly when none of its entries
      passes validation. */
  lemma NoValidTasksIff(ts: seq<Task>, es: seq<ImportEntry>)
    ensures MergeImport(ts, Entries(es)).outcome == NoValidTasks <==> forall e :: e in es ==> !Truthy(e)
  {
    var v := ValidTasks(es);
    if v != [] {
      assert v[0] in v;
    }
  }

  // ---------------------------------------------------------------------
  // The derived view: filterTasks, then sortTasks

  /** Whether filterTasks keeps a task under a filter key; unknown keys keep all. */
  predicate Shown(filter: string, t: Task) {
    if filter == "active" then !t.completed
    else if filter == "completed" then t.completed
    else if filter == "high" then t.priority == High
    else true
  }

  /** filterTasks: the tasks the filter keeps, each as often as in the list, in
      list order. */
  function FilterTasks(ts: seq<Task>, filter: string): (r: seq<Task>)
    ensures IsSubsequence(r, ts)
    ensures forall t :: t in r ==> Shown(filter, t)
    ensures forall t :: multiset(r)[t] == if Shown(filter, t) then multiset(ts)[t] else 0
  {
    if filter == "active" then Filter(IsOpen, ts)
    else if filter == "completed" then Filter(IsCompleted, ts)
    else if filter == "high" then Filter(IsHigh, ts)
    else SubsequenceReflexive(ts); ts
  }

  function Rank(p: Priority): int {
    match p
    case High => 3
    case Medium => 2
    case Low => 1
  }

  /** Lexicographic comparison by character code, standing in for localeCompare. */
  function LexCompare(a: string, b: string): (c: int)
    ensures -1 <= c <= 1
    decreases |a|
  {
    if a == [] then (if b == [] then 0 else -1)
    else if b == [] then 1
    else if a[0] < b[0] then -1
    else if a[0] > b[0] then 1
    else LexCompare(a[1..], b[1..])
  }

  lemma {:induction false} LexAntisymmetric(a: string, b: string)
    ensures LexCompare(a, b) == -LexCompare(b, a)
    decreases |a|
  {
    if a != [] && b != [] && a[0] == b[0] {
      LexAntisymmetric(a[1..], b[1..]);
    }
  }

  lemma {:induction false} LexTransitive(a: string, b: string, c: string)
    requires LexCompare(a, b) <= 0 && LexCompare(b, c) <= 0
    ensures LexCompare(a, c) <= 0
    decreases |a|
  {
    if a != [] && b != [] && c != [] && a[0] == b[0] && b[0] == c[0] {
      LexTransitive(a[1..], b[1..], c[1..]);
    }
  }

  predicate IsSortKey(key: string) {
    key == "date" || key == "date-oldest" || key == "priority" || key == "name"
  }

  /** The comparator sortTasks hands to Array.prototype.sort for each key:
      negative means a goes first. */
  function Compare(key: string, a: Task, b: Task): int {
    if key == "date" then b.createdAt - a.createdAt
    else if key == "date-oldest" then a.createdAt - b.createdAt
    else if key == "priority" then
      if Rank(b.priority) != Rank(a.priority) then Rank(b.priority) - Rank(a.priority)
      else b.createdAt - a.createdAt
    else if key == "name" then LexCompare(a.text, b.text)
    else 0
  }

  /** Each comparator is antisymmetric ... */
  lemma CompareAntisymmetric(key: string, a: Task, b: Task)
    ensures Compare(key, a, b) == -Compare(key, b, a)
  {
    LexAntisymmetric(a.text, b.text);
  }

  /** ... and "goes no later than" is transitive, so each is a total preorder. */
  lemma CompareTransitive(key: string, a: Task, b: Task, c: Task)
    requires Compare(key, a, b) <= 0 && Compare(key, b, c) <= 0
    ensures Compare(key, a, c) <= 0
  {
    if key == "name" {
      LexTransitive(a.text, b.text, c.text);
    }
  }

  /** Ordered by the comparator for the key. */
  ghost predicate SortedBy(key: string, s: seq<Task>) {
    forall i, j :: 0 <= i < j < |s| ==> Compare(key, s[i], s[j]) <= 0
  }

  /** Inserts x in front of the first element that may not go before it, which keeps
      earlier-inserted equals in front (a stable insertion). */
  function Insert(key: string, x: Task, s: seq<Task>): (r: seq<Task>)
    ensures |r| == |s| + 1
    ensures multiset(r) == multiset(s) + multiset{x}
    decreases |s|
  {
    if s == [] then [x]
    else if Compare(key, x, s[0]) > 0 then
      assert s == [s[0]] + s[1..];
      [s[0]] + Insert(key, x, s[1..])
    else [x] + s
  }

  function InsertionSort(key: string, s: seq<Task>): (r: seq<Task>)
    ensures |r| == |s|
    ensures multiset(r) == multiset(s)
    decreases |s|
  {
    if s == [] then []
    else
      assert s == [s[0]] + s[1..];
      Insert(key, s[0], InsertionSort(key, s[1..]))
  }

  /** A task that may go before x and before every element of s may go before every
      element of Insert(key, x, s). */
  lemma InsertKeepsLowerBound(key: string, y: Task, x: Task, s: seq<Task>)
    requires Compare(key, y, x) <= 0
    requires forall k :: 0 <= k < |s| ==> Compare(key, y, s[k]) <= 0
    ensures forall k :: 0 <= k < |Insert(key, x, s)| ==> Compare(key, y, Insert(key, x, s)[k]) <= 0
  {
    var r := Insert(key, x, s);
    forall k | 0 <= k < |r|
      ensures Compare(key, y, r[k]) <= 0
    {
      assert r[k] in multiset(r);
      if r[k] != x {
        assert r[k] in multiset(s);
        var m :| 0 <= m < |s| && s[m] == r[k];
      }
    }
  }

  lemma {:induction false} InsertSorted(key: string, x: Task, s: seq<Task>)
    requires SortedBy(key, s)
    ensures SortedBy(key, Insert(key, x, s))
    decreases |s|
  {
    if s == [] {
    } else if Compare(key, x, s[0]) > 0 {
      var tail := s[1..];
      var rest := Insert(key, x, tail);
      assert SortedBy(key, tail);
      InsertSorted(key, x, tail);
      CompareAntisymmetric(key, x, s[0]);
      assert forall k :: 0 <= k < |tail| ==> tail[k] == s[k + 1];
      InsertKeepsLowerBound(key, s[0], x, tail);
      var r := [s[0]] + rest;
      assert Insert(key, x, s) == r;
      assert forall i, j :: 0 < i < j < |r| ==> r[i] == rest[i - 1] && r[j] == rest[j - 1];
    } else {
      var r := [x] + s;
      forall i, j | 0 <= i < j < |r|
        ensures Compare(key, r[i], r[j]) <= 0
      {
        if i == 0 && j > 1 {
          CompareTransitive(key, x, s[0], s[j - 1]);
        }
      }
    }
  }

  lemma {:induction false} InsertionSortSorted(key: string, s: seq<Task>)
    ensures SortedBy(key, InsertionSort(key, s))
    decreases |s|
  {
    if s != [] {
      InsertionSortSorted(key, s[1..]);
      InsertSorted(key, s[0], InsertionSort(key, s[1..]));
    }
  }

  /** sortTasks: for a known key, a permutation of its input ordered by that key's
      comparator; for any other key, the input as it is. */
  function SortTasks(ts: seq<Task>, key: string): (r: seq<Task>)
    ensures |r| == |ts|
    ensures multiset(r) == multiset(ts)
    ensures IsSortKey(key) ==> SortedBy(key, r)
    ensures !IsSortKey(key) ==> r == ts
  {
    if IsSortKey(key) then
      InsertionSortSorted(key, ts);
      InsertionSort(key, ts)
    else ts
  }

  /** renderTaskList's list: sortTasks(filterTasks(state.tasks)). It holds exactly
      the tasks the filter keeps, in the key's order. */
  function View(ts: seq<Task>, filter: string, key: string): (r: seq<Task>)
    ensures forall t :: multiset(r)[t] == if Shown(filter, t) then multiset(ts)[t] else 0
    ensures IsSortKey(key) ==> SortedBy(key, r)
    ensures !IsSortKey(key) ==> IsSubsequence(r, ts)
  {
    SortTasks(FilterTasks(ts, filter), key)
  }

  /** Sorting by priority puts high before medium before low and, within a
      priority, newer before older. */
  lemma PrioritySortOrder(ts: seq<Task>, i: int, j: int)
    requires 0 <= i < j < |ts|
    ensures var r := SortTasks(ts, "priority");
      && Rank(r[i].priority) >= Rank(r[j].priority)
      && (r[i].priority == r[j].priority ==> r[i].createdAt >= r[j].createdAt)
  {
  }

  /** Insertion sort of two tasks swaps them when the second goes first. */
  lemma InsertionSortTwo(key: string, b: Task, c: Task)
    requires Compare(key, b, c) > 0
    ensures InsertionSort(key, [b, c]) == [c, b]
  {
    assert [b, c][1..] == [c] && [c][1..] == [];
    assert InsertionSort(key, [c]) == [c];
  }

  /** Insertion sort of three tasks when the third goes before both others and the
      first does not go after the second. */
  lemma InsertionSortThree(key: string, a: Task, b: Task, c: Task)
    requires Compare(key, b, c) > 0 && Compare(key, a, c) > 0 && Compare(key, a, b) <= 0
    ensures InsertionSort(key, [a, b, c]) == [c, a, b]
  {
    InsertionSortTwo(key, b, c);
    assert [a, b, c][1..] == [b, c];
    assert Insert(key, a, [b]) == [a, b];
    assert Insert(key, a, [c, b]) == [c] + Insert(key, a, [b]);
  }

  /** Two high-priority tasks and a low one between them: the newer high task comes
      first, then the older one, then the low one. */
  lemma PrioritySortExample(a: Task, b: Task, c: Task)
    requires a.priority == High && a.createdAt == 1
    requires b.priority == Low && b.createdAt == 2
    requires c.priority == High && c.createdAt == 3
    ensures SortTasks([a, b, c], "priority") == [c, a, b]
  {
    InsertionSortThree("priority", a, b, c);
  }

  /** Sorting by "date" is newest first and by "date-oldest" oldest first. */
  lemma DateSortOrder(ts: seq<Task>, i: int, j: int)
    requires 0 <= i < j < |ts|
    ensures SortTasks(ts, "date")[i].createdAt >= SortTasks(ts, "date")[j].createdAt
    ensures SortTasks(ts, "date-oldest")[i].createdAt <= SortTasks(ts, "date-oldest")[j].createdAt
  {
  }

  // ---------------------------------------------------------------------
  // Statistics and the bulk-actions bar

  datatype Statistics = Statistics(
    total: nat, completed: nat, pending: int, highPriority: nat, completionPercentage: nat)

  /** updateStatistics: pending is the number of open tasks, and the percentage is
      completed/total rounded half up (0 for an empty list), so it lies in 0..100. */
  function ComputeStatistics(ts: seq<Task>): (s: Statistics)
    ensures s.total == |ts|
    ensures s.completed == |Filter(IsCompleted, ts)| && s.highPriority == |Filter(IsHigh, ts)|
    ensures s.pending == |Filter(IsOpen, ts)| && s.pending == s.total - s.completed
    ensures s.completionPercentage <= 100
    ensures s.total == 0 ==> s.completionPercentage == 0
    ensures s.completionPercentage == CompletionRate(s.completed, s.total)
  {
    var total := |ts|;
    var completed := |Filter(IsCompleted, ts)|;
    FilterSplit(IsCompleted, IsOpen, ts);
    Statistics(total, completed, total - completed, |Filter(IsHigh, ts)|, CompletionRate(completed, total))
  }

  /** The condition updateBulkActions tests before showing the bar: the list has
      a completed or an open task, which holds exactly when it is non-empty. */
  function BulkActionsShown(ts: seq<Task>): (shown: bool)
    ensures shown <==> ts != []
  {
    var hasCompleted := exists t :: t in ts && t.completed;
    var hasIncomplete := exists t :: t in ts && !t.completed;
    assert ts != [] ==> ts[0] in ts;
    |ts| > 0 && (hasCompleted || hasIncomplete)
  }

  /** getCategoryIcon: the six known categories have their own icon; anything else
      is drawn as a folder, like "general". */
  function CategoryIcon(category: string): (icon: string)
    ensures icon in {"briefcase", "user", "shopping-cart", "heartbeat", "graduation-cap", "folder"}
    ensures category == "work" <==> icon == "briefcase"
    ensures category == "personal" <==> icon == "user"
    ensures category == "shopping" <==> icon == "shopping-cart"
    ensures category == "health" <==> icon == "heartbeat"
    ensures category == "learning" <==> icon == "graduation-cap"
  {
    if category == "work" then "briefcase"
    else if category == "personal" then "user"
    else if category == "shopping" then "shopping-cart"
    else if category == "health" then "heartbeat"
    else if category == "learning" then "graduation-cap"
    else "folder"
  }

  // ---------------------------------------------------------------------
  // Properties of the operations

  /** Toggling twice restores every task's completion; a task that started open
      and consistent is restored entirely, a completed one keeps the second stamp. */
  lemma ToggleTwice(ts: seq<Task>, id: int, now1: int, now2: int)
    requires CompletionConsistent(ts)
    ensures var r := Toggled(Toggled(ts, id, now1), id, now2);
      && |r| == |ts|
      && (forall i :: 0 <= i < |ts| ==> r[i].completed == ts[i].completed)
      && (forall i :: 0 <= i < |ts| && !ts[i].completed ==> r[i] == ts[i])
      && (forall i :: 0 <= i < |ts| && ts[i].id == id && ts[i].completed ==> r[i].completedAt == Some(now2))
  {
    var r := Toggled(Toggled(ts, id, now1), id, now2);
    forall i | 0 <= i < |ts| && !ts[i].completed
      ensures r[i] == ts[i]
    {
      assert ts[i] in ts;
    }
  }

  /** Adding, toggling, editing, deleting and marking all complete keep completedAt
      set exactly on completed tasks. */
  lemma AddKeepsCompletionConsistent(ts: seq<Task>, input: string, priority: Priority,
                                     category: string, id: int, now: int)
    requires CompletionConsistent(ts)
    ensures CompletionConsistent(WithTaskAdded(ts, input, priority, category, id, now))
  {
    var a := WithTaskAdded(ts, input, priority, category, id, now);
    if !AllWhitespace(input) {
      assert a == [a[0]] + ts;
    }
  }

  lemma ToggleKeepsCompletionConsistent(ts: seq<Task>, id: int, now: int)
    requires CompletionConsistent(ts)
    ensures CompletionConsistent(Toggled(ts, id, now))
  {
    var r := Toggled(ts, id, now);
    forall t | t in r
      ensures t.completedAt.Some? <==> t.completed
    {
      var k :| 0 <= k < |r| && r[k] == t;
      assert ts[k] in ts;
    }
  }

  lemma EditKeepsCompletionConsistent(ts: seq<Task>, id: int, text: string, priority: Priority, category: string)
    requires CompletionConsistent(ts)
    ensures CompletionConsistent(Edited(ts, id, text, priority, category))
  {
    var r := Edited(ts, id, text, priority, category);
    forall t | t in r
      ensures t.completedAt.Some? <==> t.completed
    {
      var k :| 0 <= k < |r| && r[k] == t;
      assert ts[k] in ts;
    }
  }

  lemma DeleteKeepsCompletionConsistent(ts: seq<Task>, id: int)
    requires CompletionConsistent(ts)
    ensures CompletionConsistent(WithoutTask(ts, id))
    ensures CompletionConsistent(WithoutCompleted(ts))
  {
  }

  lemma MarkAllKeepsCompletionConsistent(ts: seq<Task>, now: int)
    requires CompletionConsistent(ts)
    ensures CompletionConsistent(AllCompleted(ts, now))
  {
    var r := AllCompleted(ts, now);
    forall t | t in r
      ensures t.completedAt.Some? <==> t.completed
    {
      var k :| 0 <= k < |r| && r[k] == t;
      assert ts[k] in ts;
    }
  }

  /** deleteCompletedTasks removes something exactly when a completed task exists,
      and a second call changes nothing. */
  lemma DeleteCompletedIdempotent(ts: seq<Task>)
    ensures WithoutCompleted(WithoutCompleted(ts)) == WithoutCompleted(ts)
    ensures |WithoutCompleted(ts)| < |ts| <==> exists t :: t in ts && t.completed
  {
    FilterIdempotent(IsOpen, ts);
    FilterSplit(IsOpen, IsCompleted, ts);
    var c := Filter(IsCompleted, ts);
    if exists t :: t in ts && t.completed {
      var t :| t in ts && t.completed;
      assert multiset(c)[t] > 0;
    }
    if |c| > 0 {
      assert c[0] in c;
    }
  }

  /** markAllTasksComplete is idempotent: a second call, at any time, changes nothing. */
  lemma MarkAllCompleteIdempotent(ts: seq<Task>, now1: int, now2: int)
    ensures AllCompleted(AllCompleted(ts, now1), now2) == AllCompleted(ts, now1)
  {
  }

  /** Adding a task with a fresh id keeps ids unique. */
  lemma AddKeepsIdsUnique(ts: seq<Task>, input: string, priority: Priority, category: string, id: int, now: int)
    requires UniqueIds(ts) && id !in Ids(ts)
    ensures UniqueIds(WithTaskAdded(ts, input, priority, category, id, now))
  {
    var r := WithTaskAdded(ts, input, priority, category, id, now);
    if !AllWhitespace(input) {
      assert r == [r[0]] + ts;
      ConsKeepsIdsUnique(r[0], ts);
    }
  }

  /** Putting a task with a fresh id in front keeps ids unique. */
  lemma ConsKeepsIdsUnique(t: Task, ts: seq<Task>)
    requires UniqueIds(ts) && t.id !in Ids(ts)
    ensures UniqueIds([t] + ts)
  {
    var r := [t] + ts;
    forall j | 0 < j < |r|
      ensures r[0].id != r[j].id
    {
      assert r[j] == ts[j - 1] && ts[j - 1] in ts;
    }
  }

  /** A sub-sequence of a list with unique ids has unique ids. */
  lemma {:induction false} SubsequenceKeepsIdsUnique(r: seq<Task>, s: seq<Task>)
    requires IsSubsequence(r, s) && UniqueIds(s)
    ensures UniqueIds(r)
    decreases |s|
  {
    if r != [] && s != [] {
      assert UniqueIds(s[1..]);
      if r[0] == s[0] {
        SubsequenceKeepsIdsUnique(r[1..], s[1..]);
        SubsequenceMembers(r[1..], s[1..]);
        forall j | 0 < j < |r|
          ensures r[0].id != r[j].id
        {
          assert r[j] in r[1..];
          var k :| 0 <= k < |s[1..]| && s[1..][k] == r[j];
          assert s[k + 1] == r[j];
        }
      } else {
        SubsequenceKeepsIdsUnique(r, s[1..]);
      }
    }
  }

  /** Appending tasks with unique ids, none of them already in the list, to a list
      with unique ids keeps the ids unique. */
  lemma AppendKeepsIdsUnique(ts: seq<Task>, added: seq<Task>)
    requires UniqueIds(ts) && UniqueIds(added)
    requires forall t :: t in added ==> t.id !in Ids(ts)
    ensures UniqueIds(ts + added)
  {
    var r := ts + added;
    forall i, j | 0 <= i < j < |r|
      ensures r[i].id != r[j].id
    {
      if i < |ts| && j >= |ts| {
        assert r[i] == ts[i] && ts[i] in ts;
        assert r[j] == added[j - |ts|] && r[j] in added;
      } else if j < |ts| {
        assert r[i] == ts[i] && r[j] == ts[j];
      } else {
        assert r[i] == added[i - |ts|] && r[j] == added[j - |ts|];
      }
    }
  }

  /** An import never brings in a task whose id is already present, and when the
      list and the valid part of the file each have unique ids, so does the result. */
  lemma ImportKeepsIdsUnique(ts: seq<Task>, data: ImportData)
    requires UniqueIds(ts)
    requires data.Entries? ==> UniqueIds(ValidTasks(data.entries))
    ensures UniqueIds(MergeImport(ts, data).tasks)
  {
    if data.Entries? && ValidTasks(data.entries) != [] {
      var valid := ValidTasks(data.entries);
      var r := MergeImport(ts, data).tasks;
      var added := r[|ts|..];
      assert r == ts + added;
      SubsequenceKeepsIdsUnique(added, valid);
      AppendKeepsIdsUnique(ts, added);
    }
  }

  /** The file itself is not checked for repeated ids: two copies of one valid
      entry are both imported. */
  lemma ImportKeepsDuplicatesWithinFile()
    ensures var e := ImportEntry(Some(7), Some("a"), Some(Low), Some("work"), false, 0, None);
      MergeImport([], Entries([e, e])).tasks == [AsTask(e), AsTask(e)]
  {
    var e := ImportEntry(Some(7), Some("a"), Some(Low), Some("work"), false, 0, None);
    var v := ValidTasks([e, e]);
    assert [e, e][1..] == [e];
    assert ValidTasks([e]) == [AsTask(e)];
    assert v == [AsTask(e), AsTask(e)];
    assert Ids([]) == {};
    FilterKeepsAll((t: Task) => t.id !in Ids([]), v);
  }

  // ---------------------------------------------------------------------
  // The application state

  /** `state` of the application: the task list and the selections around it. */
  class TaskStore {
    var tasks: seq<Task>
    var currentFilter: string
    var currentSort: string
    var selectedPriority: Priority
    var editingTaskId: Option<int>
    var pendingAction: Option<string>
    var pendingActionData: Option<int>

    /** The list as loaded from storage, and the initial selections. */
    constructor (saved: seq<Task>)
      ensures tasks == saved
      ensures currentFilter == "all" && currentSort == "date" && selectedPriority == Medium
      ensures editingTaskId == None && pendingAction == None && pendingActionData == None
    {
      tasks := saved;
      currentFilter := "all";
      currentSort := "date";
      selectedPriority := Medium;
      editingTaskId := None;
      pendingAction := None;
      pendingActionData := None;
    }

    /** The list renderTaskList shows. */
    function VisibleTasks(): (r: seq<Task>)
      reads this
      ensures forall t :: multiset(r)[t] == if Shown(currentFilter, t) then multiset(tasks)[t] else 0
      ensures IsSortKey(currentSort) ==> SortedBy(currentSort, r)
    {
      View(tasks, currentFilter, currentSort)
    }

    method SelectPriority(p: Priority)
      modifies this
      ensures selectedPriority == p
      ensures tasks == old(tasks) && currentFilter == old(currentFilter) && currentSort == old(currentSort)
      ensures editingTaskId == old(editingTaskId) && pendingAction == old(pendingAction)
      ensures pendingActionData == old(pendingActionData)
    {
      selectedPriority := p;
    }

    method SelectFilter(filter: string)
      modifies this
      ensures currentFilter == filter
      ensures tasks == old(tasks) && currentSort == old(currentSort) && selectedPriority == old(selectedPriority)
      ensures editingTaskId == old(editingTaskId) && pendingAction == old(pendingAction)
      ensures pendingActionData == old(pendingActionData)
    {
      currentFilter := filter;
    }

    method SelectSort(key: string)
      modifies this
      ensures currentSort == key
      ensures tasks == old(tasks) && currentFilter == old(currentFilter) && selectedPriority == old(selectedPriority)
      ensures editingTaskId == old(editingTaskId) && pendingAction == old(pendingAction)
      ensures pendingActionData == old(pendingActionData)
    {
      currentSort := key;
    }

    /** addTask with the input box's text, the selected category, and Date.now(). */
    method AddTask(input: string, category: string, id: int, now: int) returns (added: bool)
      modifies this`tasks
      ensures added <==> !AllWhitespace(input)
      ensures tasks == WithTaskAdded(old(tasks), input, old(selectedPriority), category, id, now)
    {
      var text := Trim(input);
      if text == [] {
        return false;
      }
      var t := Task(id, text, selectedPriority, category, false, now, None);
      assert WithTaskAdded(tasks, input, selectedPriority, category, id, now) == [t] + tasks;
      tasks := [t] + tasks;
      added := true;
    }

    method ToggleTaskCompletion(id: int, now: int)
      modifies this
      ensures tasks == Toggled(old(tasks), id, now)
      ensures currentFilter == old(currentFilter) && currentSort == old(currentSort)
      ensures selectedPriority == old(selectedPriority) && editingTaskId == old(editingTaskId)
      ensures pendingAction == old(pendingAction) && pendingActionData == old(pendingActionData)
    {
      tasks := Toggled(tasks, id, now);
    }

    /** editTask: opens the editor for a task that exists, remembering its id. */
    method EditTask(id: int)
      modifies this
      ensures editingTaskId == if id in Ids(old(tasks)) then Some(id) else old(editingTaskId)
      ensures tasks == old(tasks) && currentFilter == old(currentFilter) && currentSort == old(currentSort)
      ensures selectedPriority == old(selectedPriority)
      ensures pendingAction == old(pendingAction) && pendingActionData == old(pendingActionData)
    {
      if id in Ids(tasks) {
        editingTaskId := Some(id);
      }
    }

    /** closeEditModal. */
    method CloseEditModal()
      modifies this
      ensures editingTaskId == None
      ensures tasks == old(tasks) && currentFilter == old(currentFilter) && currentSort == old(currentSort)
      ensures selectedPriority == old(selectedPriority)
      ensures pendingAction == old(pendingAction) && pendingActionData == old(pendingActionData)
    {
      editingTaskId := None;
    }

    /** saveEditedTask with the editor's text, its active priority button (None when
      no button is active) and its category. Without a (truthy) editing id or with a
      blank text nothing changes; otherwise the task is edited, the priority
      defaulting to medium, and the editor closes. */
    method SaveEditedTask(input: string, activePriority: Option<Priority>, category: string)
      returns (saved: bool)
      modifies this
      ensures saved <==> old(editingTaskId).Some? && old(editingTaskId).value != 0 && !AllWhitespace(input)
      ensures !saved ==> tasks == old(tasks) && editingTaskId == old(editingTaskId)
      ensures saved ==> editingTaskId == None
      ensures saved ==> tasks == Edited(old(tasks), old(editingTaskId).value, Trim(input),
                                        if activePriority.Some? then activePriority.value else Medium, category)
      ensures currentFilter == old(currentFilter) && currentSort == old(currentSort)
      ensures selectedPriority == old(selectedPriority)
      ensures pendingAction == old(pendingAction) && pendingActionData == old(pendingActionData)
    {
      if editingTaskId == None || editingTaskId.value == 0 {
        return false;
      }
      var text := Trim(input);
      if text == [] {
        return false;
      }
      var priority := if activePriority.Some? then activePriority.value else Medium;
      tasks := Edited(tasks, editingTaskId.value, text, priority, category);
      CloseEditModal();
      saved := true;
    }

    method DeleteTask(id: int)
      modifies this
      ensures tasks == WithoutTask(old(tasks), id)
      ensures currentFilter == old(currentFilter) && currentSort == old(currentSort)
      ensures selectedPriority == old(selectedPriority) && editingTaskId == old(editingTaskId)
      ensures pendingAction == old(pendingAction) && pendingActionData == old(pendingActionData)
    {
      tasks := WithoutTask(tasks, id);
    }

    /** deleteCompletedTasks; `saved` tells whether the list shrank, the only case
      in which the list is saved and re-rendered. */
    method DeleteCompletedTasks() returns (saved: bool)
      modifies this
      ensures tasks == WithoutCompleted(old(tasks))
      ensures saved <==> exists t :: t in old(tasks) && t.completed
      ensures currentFilter == old(currentFilter) && currentSort == old(currentSort)
      ensures selectedPriority == old(selectedPriority) && editingTaskId == old(editingTaskId)
      ensures pendingAction == old(pendingAction) && pendingActionData == old(pendingActionData)
    {
      var initialLength := |tasks|;
      DeleteCompletedIdempotent(tasks);
      tasks := WithoutCompleted(tasks);
      saved := |tasks| < initialLength;
    }

    method MarkAllTasksComplete(now: int)
      modifies this
      ensures tasks == AllCompleted(old(tasks), now)
      ensures currentFilter == old(currentFilter) && currentSort == old(currentSort)
      ensures selectedPriority == old(selectedPriority) && editingTaskId == old(editingTaskId)
      ensures pendingAction == old(pendingAction) && pendingActionData == old(pendingActionData)
    {
      tasks := AllCompleted(tasks, now);
    }

    method ClearAllTasks()
      modifies this
      ensures tasks == []
      ensures currentFilter == old(currentFilter) && currentSort == old(currentSort)
      ensures selectedPriority == old(selectedPriority) && editingTaskId == old(editingTaskId)
      ensures pendingAction == old(pendingAction) && pendingActionData == old(pendingActionData)
    {
      tasks := [];
    }

    /** showConfirmModal: remembers the action (and its task id) until confirmed. */
    method ShowConfirmModal(action: string, data: Option<int>)
      modifies this
      ensures pendingAction == Some(action) && pendingActionData == data
      ensures tasks == old(tasks) && currentFilter == old(currentFilter) && currentSort == old(currentSort)
      ensures selectedPriority == old(selectedPriority) && editingTaskId == old(editingTaskId)
    {
      pendingAction := Some(action);
      pendingActionData := data;
    }

    /** executePendingAction: runs the remembered action, if it is one of the four,
      and then forgets it. */
    method ExecutePendingAction(now: int)
      modifies this
      ensures pendingAction == None && pendingActionData == None
      ensures old(pendingAction) == Some("deleteTask") ==>
        tasks == if old(pendingActionData).Some? then WithoutTask(old(tasks), old(pendingActionData).value) else old(tasks)
      ensures old(pendingAction) == Some("deleteCompleted") ==> tasks == WithoutCompleted(old(tasks))
      ensures old(pendingAction) == Some("markAllComplete") ==> tasks == AllCompleted(old(tasks), now)
      ensures old(pendingAction) == Some("clearAll") ==> tasks == []
      ensures old(pendingAction) !in {Some("deleteTask"), Some("deleteCompleted"), Some("markAllComplete"), Some("clearAll")} ==>
        tasks == old(tasks)
      ensures currentFilter == old(currentFilter) && currentSort == old(currentSort)
      ensures selectedPriority == old(selectedPriority) && editingTaskId == old(editingTaskId)
    {
      if pendingAction == Some("deleteTask") {
        if pendingActionData.Some? {
          DeleteTask(pendingActionData.value);
        }
      } else if pendingAction == Some("deleteCompleted") {
        var _ := DeleteCompletedTasks();
      } else if pendingAction == Some("markAllComplete") {
        MarkAllTasksComplete(now);
      } else if pendingAction == Some("clearAll") {
        ClearAllTasks();
      }
      pendingAction := None;
      pendingActionData := None;
    }

    /** The merge step of importTasks, on the parsed file. */
    method ImportTasks(data: ImportData) returns (outcome: ImportOutcome)
      modifies this
      ensures tasks == MergeImport(old(tasks), data).tasks
      ensures outcome == MergeImport(old(tasks), data).outcome
      ensures currentFilter == old(currentFilter) && currentSort == old(currentSort)
      ensures selectedPriority == old(selectedPriority) && editingTaskId == old(editingTaskId)
      ensures pendingAction == old(pendingAction) && pendingActionData == old(pendingActionData)
    {
      var result := MergeImport(tasks, data);
      tasks := result.tasks;
      outcome := result.outcome;
    }

    /** updateStatistics for the current list. */
    function Stats(): (s: Statistics)
      reads this
      ensures s.total == |tasks| && s.pending == s.total - s.completed
      ensures s.completionPercentage <= 100
    {
      ComputeStatistics(tasks)
    }
  }

  /** Adding "Buy milk" to an empty list gives the one open task with that text. */
  lemma AddBuyMilk(id: int, t0: int)
    ensures WithTaskAdded([], "Buy milk", Medium, "personal", id, t0)
      == [Task(id, "Buy milk", Medium, "personal", false, t0, None)]
  {
    TrimKeepsTrimmed("Buy milk");
  }

  /** Adding "Buy milk" to an empty list and completing it gives one task, all
      done, none pending, none high, 100%. */
  lemma BuyMilkScenario(id: int, t0: int, t1: int)
    ensures ComputeStatistics(Toggled(WithTaskAdded([], "Buy milk", Medium, "personal", id, t0), id, t1))
      == Statistics(1, 1, 0, 0, 100)
  {
    AddBuyMilk(id, t0);
    var added := WithTaskAdded([], "Buy milk", Medium, "personal", id, t0);
    var t := Task(id, "Buy milk", Medium, "personal", false, t0, None);
    var ts := Toggled(added, id, t1);
    assert ts == [ToggledTask(t, t1)];
    assert Filter(IsCompleted, ts) == ts;
    assert Filter(IsHigh, ts) == [];
    CompletionRateExamples(1);
  }
}
