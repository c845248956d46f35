/** The productivity dashboard (productivity-dashboard/script.js): a task list
    shown oldest first, its statistics and per-priority counts, and a Pomodoro
    countdown with its mm:ss display. */
module Dashboard {
  import opened Text
  import opened Sequences
  import opened Rounding

  /** A dashboard task. The priority is the string of the button that was
      selected; `createdAt` is a clock reading in milliseconds. */
  datatype Task = Task(id: int, text: string, priority: string, completed: bool, createdAt: int)

  predicate IsCompleted(t: Task) { t.completed }
  predicate IsOpen(t: Task) { !t.completed }
  predicate IsLow(t: Task) { t.priority == "low" }
  predicate IsMedium(t: Task) { t.priority == "medium" }
  predicate IsHigh(t: Task) { t.priority == "high" }

  // ---------------------------------------------------------------------
  // The list operations

  /** addTask: a blank input is rejected; otherwise the trimmed text becomes a new,
      open task in front of the list. */
  function WithTaskAdded(ts: seq<Task>, input: string, priority: string, id: int, now: int): (r: seq<Task>)
    ensures AllWhitespace(input) ==> r == ts
    ensures !AllWhitespace(input) ==>
      && |r| == |ts| + 1 && r[1..] == ts
      && r[0] == Task(id, Trim(input), priority, false, now) && r[0].text != []
  {
    var text := Trim(input);
    if text == [] then ts else [Task(id, text, priority, false, now)] + ts
  }

  /** toggleTask: tasks with the id flip their completion; nothing else changes. */
  function Toggled(ts: seq<Task>, id: int): (r: seq<Task>)
    ensures |r| == |ts|
    ensures forall i :: 0 <= i < |ts| && ts[i].id != id ==> r[i] == ts[i]
    ensures forall i :: 0 <= i < |ts| && ts[i].id == id ==>
      r[i].completed == !ts[i].completed && r[i].(completed := ts[i].completed) == ts[i]
  {
    seq(|ts|, i requires 0 <= i < |ts| => if ts[i].id == id then ts[i].(completed := !ts[i].completed) else ts[i])
  }

  /** deleteTask: the tasks without the id, in their order. */
  function WithoutTask(ts: seq<Task>, id: int): (r: seq<Task>)
    ensures IsSubsequence(r, ts)
    ensures forall t :: t in r <==> t in ts && t.id != id
    ensures forall t :: multiset(r)[t] == if t.id != id then multiset(ts)[t] else 0
  {
    Filter((t: Task) => t.id != id, ts)
  }

  /** editTask given what prompt() returned (None for a cancelled prompt): a
      cancelled or blank answer changes nothing; otherwise the tasks with the id get
      the trimmed answer as text and nothing else changes. */
  function WithTextEdited(ts: seq<Task>, id: int, answer: Option<string>): (r: seq<Task>)
    ensures answer.None? || AllWhitespace(answer.value) ==> r == ts
    ensures answer.Some? && !AllWhitespace(answer.value) ==>
      && |r| == |ts|
      && (forall i :: 0 <= i < |ts| && ts[i].id != id ==> r[i] == ts[i])
      && (forall i :: 0 <= i < |ts| && ts[i].id == id ==> r[i] == ts[i].(text := Trim(answer.value)))
  {
    if answer.None? || Trim(answer.value) == [] then ts
    else
      var text := Trim(answer.value);
      seq(|ts|, i requires 0 <= i < |ts| => if ts[i].id == id then ts[i].(text := text) else ts[i])
  }

  /** Toggling twice restores the list. */
  lemma ToggleTwice(ts: seq<Task>, id: int)
    ensures Toggled(Toggled(ts, id), id) == ts
  {
  }

  // ---------------------------------------------------------------------
  // The rendered list

  /** The filter step of renderTasks: "active" and "completed" select, anything
      else keeps every task. */
  function Filtered(ts: seq<Task>, filter: string): (r: seq<Task>)
    ensures IsSubsequence(r, ts)
    ensures filter == "active" ==> forall t :: multiset(r)[t] == if !t.completed then multiset(ts)[t] else 0
    ensures filter == "completed" ==> forall t :: multiset(r)[t] == if t.completed then multiset(ts)[t] else 0
    ensures filter == "active" ==> forall t :: t in r <==> t in ts && !t.completed
    ensures filter == "completed" ==> forall t :: t in r <==> t in ts && t.completed
    ensures filter != "active" && filter != "completed" ==> r == ts
  {
    if filter == "active" then Filter(IsOpen, ts)
    else if filter == "completed" then Filter(IsCompleted, ts)
    else SubsequenceReflexive(ts); ts
  }

  /** renderTasks' list: the filtered tasks in reverse order. */
  function Rendered(ts: seq<Task>, filter: string): (r: seq<Task>)
    ensures |r| == |Filtered(ts, filter)|
    ensures multiset(r) == multiset(Filtered(ts, filter))
    ensures forall i :: 0 <= i < |r| ==> r[i] == Filtered(ts, filter)[|r| - 1 - i]
  {
    ReverseIsPermutation(Filtered(ts, filter));
    Reverse(Filtered(ts, filter))
  }

  /** Each task was created no earlier than the ones after it. */
  predicate NewestFirst(ts: seq<Task>) {
    forall i, j :: 0 <= i < j < |ts| ==> ts[i].createdAt >= ts[j].createdAt
  }

  /** Adding a task stamped no earlier than every task in the list keeps the list
      newest first. */
  lemma AddKeepsNewestFirst(ts: seq<Task>, input: string, priority: string, id: int, now: int)
    requires NewestFirst(ts)
    requires forall t :: t in ts ==> t.createdAt <= now
    ensures NewestFirst(WithTaskAdded(ts, input, priority, id, now))
  {
    var r := WithTaskAdded(ts, input, priority, id, now);
    if !AllWhitespace(input) {
      var t := r[0];
      assert r == [t] + ts;
      assert t.createdAt == now;
      forall i, j | 0 <= i < j < |r|
        ensures r[i].createdAt >= r[j].createdAt
      {
        assert r[j] == ts[j - 1];
        if i == 0 {
          assert ts[j - 1] in ts;
        } else {
          assert r[i] == ts[i - 1];
        }
      }
    }
  }

  lemma {:induction false} SubsequenceKeepsNewestFirst(r: seq<Task>, s: seq<Task>)
    requires IsSubsequence(r, s) && NewestFirst(s)
    ensures NewestFirst(r)
    decreases |s|
  {
    if r != [] && s != [] {
      assert NewestFirst(s[1..]);
      if r[0] == s[0] {
        SubsequenceKeepsNewestFirst(r[1..], s[1..]);
        SubsequenceMembers(r[1..], s[1..]);
        forall j | 0 < j < |r|
          ensures r[0].createdAt >= r[j].createdAt
        {
          assert r[j] in r[1..];
          var k :| 0 <= k < |s[1..]| && s[1..][k] == r[j];
          assert s[k + 1] == r[j];
        }
        forall i, j | 0 < i < j < |r|
          ensures r[i].createdAt >= r[j].createdAt
        {
          assert r[i] == r[1..][i - 1] && r[j] == r[1..][j - 1];
        }
      } else {
        SubsequenceKeepsNewestFirst(r, s[1..]);
      }
    }
  }

  /** Tasks are added in front, so the stored list is newest first and the
      reversed view shows the oldest task at the top, whatever the filter. */
  lemma RenderedIsOldestFirst(ts: seq<Task>, filter: string)
    requires NewestFirst(ts)
    ensures var r := Rendered(ts, filter);
      forall i, j :: 0 <= i < j < |r| ==> r[i].createdAt <= r[j].createdAt
  {
    SubsequenceKeepsNewestFirst(Filtered(ts, filter), ts);
  }

  // ---------------------------------------------------------------------
  // Statistics and the priority chart

  datatype Stats = Stats(total: nat, completed: nat, pending: int, highPriority: nat, completionRate: nat)

  /** updateStats: pending is the number of open tasks and the rate is
      completed/total rounded half up, 0 for an empty list. */
  function ComputeStats(ts: seq<Task>): (s: Stats)
    ensures s.total == |ts|
    ensures s.completed == |Filter(IsCompleted, ts)| && s.highPriority == |Filter(IsHigh, ts)|
    ensures s.pending == |Filter(IsOpen, ts)| && s.pending == s.total - s.completed
    ensures s.completionRate == CompletionRate(s.completed, s.total)
    ensures s.total == 0 ==> s.completionRate == 0
    ensures s.completionRate <= 100
  {
    var total := |ts|;
    var completed := |Filter(IsCompleted, ts)|;
    FilterSplit(IsCompleted, IsOpen, ts);
    Stats(total, completed, total - completed, |Filter(IsHigh, ts)|, CompletionRate(completed, total))
  }

  datatype PriorityData = PriorityData(low: nat, medium: nat, high: nat)

  /** The tasks' priorities, in list order. */
  function Priorities(ts: seq<Task>): seq<string> {
    if ts == [] then [] else [ts[0].priority] + Priorities(ts[1..])
  }

  /** Filtering by "has priority v" keeps as many tasks as v occurs among the
      priorities. */
  lemma {:induction false} FilterCountIsOccurrences(q: Task -> bool, v: string, ts: seq<Task>)
    requires forall t :: q(t) <==> t.priority == v
    ensures |Filter(q, ts)| == multiset(Priorities(ts))[v]
    decreases |ts|
  {
    if ts != [] {
      FilterCountIsOccurrences(q, v, ts[1..]);
      FilterCons(q, ts);
      assert multiset(Priorities(ts)) == multiset{ts[0].priority} + multiset(Priorities(ts[1..]));
    }
  }

  /** getPriorityData: each count is the number of times its priority occurs. */
  function PriorityCounts(ts: seq<Task>): (d: PriorityData)
    ensures d.low == multiset(Priorities(ts))["low"]
    ensures d.medium == multiset(Priorities(ts))["medium"]
    ensures d.high == multiset(Priorities(ts))["high"]
  {
    FilterCountIsOccurrences(IsLow, "low", ts);
    FilterCountIsOccurrences(IsMedium, "medium", ts);
    FilterCountIsOccurrences(IsHigh, "high", ts);
    PriorityData(|Filter(IsLow, ts)|, |Filter(IsMedium, ts)|, |Filter(IsHigh, ts)|)
  }

  predicate KnownPriority(t: Task) {
    t.priority == "low" || t.priority == "medium" || t.priority == "high"
  }

  predicate UnknownPriority(t: Task) {
    !KnownPriority(t)
  }

  /** The three counts add up to the number of tasks with a known priority. */
  lemma {:induction false} PriorityCountsKnown(ts: seq<Task>)
    ensures var d := PriorityCounts(ts);
      d.low + d.medium + d.high == |Filter(KnownPriority, ts)|
    decreases |ts|
  {
    if ts != [] {
      PriorityCountsKnown(ts[1..]);
      FilterCons(IsLow, ts);
      FilterCons(IsMedium, ts);
      FilterCons(IsHigh, ts);
      FilterCons(KnownPriority, ts);
    }
  }

  /** The three counts never exceed the number of tasks, and add up to it exactly
      when every task has one of the three priorities. */
  lemma PriorityCountsSum(ts: seq<Task>)
    ensures var d := PriorityCounts(ts);
      && d.low + d.medium + d.high <= |ts|
      && (d.low + d.medium + d.high == |ts| <==> forall t :: t in ts ==> KnownPriority(t))
  {
    PriorityCountsKnown(ts);
    FilterSplit(KnownPriority, UnknownPriority, ts);
    var unknown := Filter(UnknownPriority, ts);
    if unknown != [] {
      assert unknown[0] in unknown;
    }
  }

  // ---------------------------------------------------------------------
  // The task list state

  /** The dashboard's `tasks`, `currentFilter` and `selectedPriority`. */
  class Board {
    var tasks: seq<Task>
    var currentFilter: string
    var selectedPriority: string

    constructor (saved: seq<Task>)
      ensures tasks == saved && currentFilter == "all" && selectedPriority == "medium"
    {
      tasks := saved;
      currentFilter := "all";
      selectedPriority := "medium";
    }

    /** The list renderTasks draws. */
    function Shown(): (r: seq<Task>)
      reads this
      ensures |r| == |Filtered(tasks, currentFilter)|
      ensures multiset(r) == multiset(Filtered(tasks, currentFilter))
      ensures forall i :: 0 <= i < |r| ==> r[i] == Filtered(tasks, currentFilter)[|r| - 1 - i]
    {
      Rendered(tasks, currentFilter)
    }

    method SelectFilter(filter: string)
      modifies this
      ensures currentFilter == filter && tasks == old(tasks) && selectedPriority == old(selectedPriority)
    {
      currentFilter := filter;
    }

    method SelectPriority(priority: string)
      modifies this
      ensures selectedPriority == priority && tasks == old(tasks) && currentFilter == old(currentFilter)
    {
      selectedPriority := priority;
    }

    /** addTask with the input box's text, an id and the clock reading. */
    method AddTask(input: string, id: int, now: int) returns (added: bool)
      modifies this
      ensures added <==> !AllWhitespace(input)
      ensures tasks == WithTaskAdded(old(tasks), input, old(selectedPriority), id, now)
      ensures currentFilter == old(currentFilter) && selectedPriority == old(selectedPriority)
    {
      var text := Trim(input);
      if text == [] {
        return false;
      }
      tasks := [Task(id, text, selectedPriority, false, now)] + tasks;
      added := true;
    }

    method ToggleTask(id: int)
      modifies this
      ensures tasks == Toggled(old(tasks), id)
      ensures currentFilter == old(currentFilter) && selectedPriority == old(selectedPriority)
    {
      tasks := Toggled(tasks, id);
    }

    method DeleteTask(id: int)
      modifies this
      ensures tasks == WithoutTask(old(tasks), id)
      ensures currentFilter == old(currentFilter) && selectedPriority == old(selectedPriority)
    {
      tasks := WithoutTask(tasks, id);
    }

    /** editTask for the task with the given id and the prompt's answer. */
    method EditTask(id: int, answer: Option<string>)
      modifies this
      ensures tasks == WithTextEdited(old(tasks), id, answer)
      ensures currentFilter == old(currentFilter) && selectedPriority == old(selectedPriority)
    {
      tasks := WithTextEdited(tasks, id, answer);
    }
  }

  // ---------------------------------------------------------------------
  // The Pomodoro timer

  /** updateTimerDisplay: Math.floor(t / 60) and the JavaScript remainder t % 60
      (which takes the sign of t), each written in decimal and padded to two
      characters with "0", joined by ":". */
  function FormatTime(t: int): (r: string)
    ensures t >= 0 ==>
      && |r| >= 5 && r[|r| - 3] == ':'
      && AllDigits(r[..|r| - 3]) && AllDigits(r[|r| - 2..])
      && ParseDigits(r[..|r| - 3]) == t / 60 && ParseDigits(r[|r| - 2..]) == t % 60
  {
    var minutes := t / 60;
    var seconds := if t >= 0 then t % 60 else -((-t) % 60);
    var m := PadStart2(IntToString(minutes));
    var s := PadStart2(IntToString(seconds));
    if t >= 0 then
      PaddedNumeral(minutes);
      PaddedNumeral(seconds);
      assert (m + ":" + s)[..|m + ":" + s| - 3] == m;
      assert (m + ":" + s)[|m + ":" + s| - 2..] == s;
      m + ":" + s
    else
      m + ":" + s
  }

  /** A padded numeral is at least two digits long, reads as the number, and
      starts with "0" only when it is exactly two digits long. */
  lemma PaddedNumeral(n: nat)
    ensures var p := PadStart2(IntToString(n));
      |p| >= 2 && AllDigits(p) && ParseDigits(p) == n && (n < 60 ==> |p| == 2)
      && (|p| == 2 || p[0] != '0')
  {
    var d := NatToString(n);
    ParseNatToString(n);
    if |d| == 1 {
      ParseLeadingZero(d);
    } else if n < 60 {
      assert n >= 10;
      assert |NatToString(n / 10)| == 1;
    }
  }

  /** The number of seconds a non-negative display stands for. */
  function DisplayedSeconds(r: string): int
    requires |r| >= 5 && AllDigits(r[..|r| - 3]) && AllDigits(r[|r| - 2..])
  {
    60 * ParseDigits(r[..|r| - 3]) + ParseDigits(r[|r| - 2..])
  }

  /** Reading the display back gives the remaining time, so no two non-negative
      times share a display. */
  lemma FormatTimeRoundTrip(t: int)
    requires t >= 0
    ensures var r := FormatTime(t);
      |r| >= 5 && AllDigits(r[..|r| - 3]) && AllDigits(r[|r| - 2..]) && DisplayedSeconds(r) == t
  {
    var r := FormatTime(t);
    assert ParseDigits(r[..|r| - 3]) == t / 60 && ParseDigits(r[|r| - 2..]) == t % 60;
  }

  /** The minutes are written without a leading zero once they need more than
      two digits. */
  lemma FormatTimeLeadingZero(t: int)
    requires t >= 0
    ensures var r := FormatTime(t); |r| == 5 || r[0] != '0'
  {
    var m := PadStart2(IntToString(t / 60));
    var s := PadStart2(IntToString(t % 60));
    PaddedNumeral(t / 60);
    PaddedNumeral(t % 60);
    assert FormatTime(t) == m + ":" + s;
    assert (m + ":" + s)[0] == m[0];
  }

  /** While time is left, a valid timer shows a display that reads back as no
      more than the duration. `PomodoroTimer.Valid()` is the invariant
      `currentTime <= timerTime` that the constructor establishes and every timer
      method preserves; with `currentTime >= 0` it is this lemma's requires for
      `current := currentTime` and `duration := timerTime`. */
  lemma DisplayWithinDuration(current: int, duration: int)
    requires 0 <= current <= duration
    ensures var r := FormatTime(current);
      |r| >= 5 && AllDigits(r[..|r| - 3]) && AllDigits(r[|r| - 2..]) && DisplayedSeconds(r) <= duration
  {
    FormatTimeRoundTrip(current);
  }

  /** Once the countdown overshoots, the display shows the signed parts: one
      second past zero reads "-1:-1". */
  lemma FormatNegative()
    ensures FormatTime(-1) == "-1:-1"
  {
    assert NatToString(1) == "1";
  }

  /** The countdown's `timerTime`, `currentTime` and `isTimerRunning`, in seconds.
      A live setInterval exists exactly while the timer runs; its callback is Tick. */
  class PomodoroTimer {
    var timerTime: int
    var currentTime: int
    var isTimerRunning: bool

    /** The remaining time never exceeds the chosen duration. */
    predicate Valid()
      reads this
    {
      currentTime <= timerTime
    }

    /** 25 minutes, stopped. */
    constructor ()
      ensures Valid()
      ensures timerTime == 1500 && currentTime == 1500 && !isTimerRunning
    {
      timerTime := 25 * 60;
      currentTime := timerTime;
      isTimerRunning := false;
    }

    function Display(): string
      reads this
    {
      FormatTime(currentTime)
    }

    /** startTimer: no effect while running. */
    method Start()
      requires Valid()
      modifies this
      ensures Valid()
      ensures isTimerRunning
      ensures timerTime == old(timerTime) && currentTime == old(currentTime)
    {
      if isTimerRunning {
        return;
      }
      isTimerRunning := true;
    }

    /** pauseTimer: no effect while stopped. */
    method Pause()
      requires Valid()
      modifies this
      ensures Valid()
      ensures !isTimerRunning
      ensures timerTime == old(timerTime) && currentTime == old(currentTime)
    {
      if !isTimerRunning {
        return;
      }
      isTimerRunning := false;
    }

    /** resetTimer: stops and rewinds to the chosen duration. */
    method Reset()
      requires Valid()
      modifies this
      ensures Valid()
      ensures !isTimerRunning && currentTime == timerTime && timerTime == old(timerTime)
    {
      isTimerRunning := false;
      currentTime := timerTime;
    }

    /** The interval callback: one second less, and the timer stops once the
      remaining time is not positive. */
    method Tick()
      requires Valid() && isTimerRunning
      modifies this
      ensures Valid()
      ensures currentTime == old(currentTime) - 1 && timerTime == old(timerTime)
      ensures isTimerRunning <==> currentTime > 0
    {
      currentTime := currentTime - 1;
      if currentTime <= 0 {
        isTimerRunning := false;
      }
    }

    /** Choosing a duration in minutes: only a stopped timer takes it. */
    method SelectDuration(minutes: int)
      requires Valid()
      modifies this
      ensures Valid()
      ensures isTimerRunning == old(isTimerRunning)
      ensures !old(isTimerRunning) ==> timerTime == minutes * 60 && currentTime == timerTime
      ensures old(isTimerRunning) ==> timerTime == old(timerTime) && currentTime == old(currentTime)
    {
      if !isTimerRunning {
        timerTime := minutes * 60;
        currentTime := timerTime;
      }
    }
  }
}
