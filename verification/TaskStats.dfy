/** The statistics task (src/task_stats.c): a fixed table that gives every task a slot the
    first time it is seen, and 32-bit run-time differences. */
module TaskStats {
  import opened Words

  const MAX_TASKS := 12
  const WRAP := 0x1_0000_0000

  type Handle = nat
  const NULL: Handle := 0

  /** task_state_s; a sym of 0 is an unregistered trace string. */
  datatype Entry = Entry(task: Handle, sym: nat, last: u32)
  const FREE := Entry(NULL, 0, 0)

  /** One TaskStatus_t. elapsed is the true run time in ticks; the kernel's counter is its
      low 32 bits. recording is xTraceIsRecorderEnabled() when the task is logged. */
  datatype Status = Status(handle: Handle, sym: nat, elapsed: nat, recording: bool)

  /** uxTaskGetNumberOfTasks, then uxTaskGetSystemState: the tasks it lists (none if there
      have come to be more than the count), and the true total run time. */
  datatype Round = Round(count: nat, tasks: seq<Status>, elapsed: nat)

  /** The two assertions on the number of tasks. */
  predicate ChecksPass(r: Round) { r.count <= MAX_TASKS && r.tasks != [] }

  /** A difference taken by the task, and the true time at which it was taken. */
  datatype Sample = Sample(diff: u32, elapsed: nat)

  /** One task visited in a round: what was, or would have been, printed. */
  datatype Line = Line(task: Handle, sym: nat, sample: Sample, totalDiff: u32, logged: bool)

  datatype Stats = Stats(table: seq<Entry>, lastTotal: u32, lines: seq<Line>, totals: seq<Sample>)

  function Counter(elapsed: nat): u32 { elapsed % WRAP }

  /** Unsigned 32-bit subtraction. */
  function Minus(a: u32, b: u32): u32 { (a - b) % WRAP }

  /** First slot holding handle h, or |t|. */
  function First(t: seq<Entry>, h: Handle): (i: nat)
    ensures i <= |t|
    ensures i < |t| ==> t[i].task == h
    ensures forall j :: 0 <= j < i ==> t[j].task != h
  {
    if t == [] || t[0].task == h then 0 else
      var i := First(t[1..], h);
      assert forall j :: 1 <= j < 1 + i ==> t[j] == t[1..][j - 1];
      1 + i
  }

  lemma FirstIs(t: seq<Entry>, h: Handle, i: nat)
    requires i <= |t| && (i < |t| ==> t[i].task == h) && forall j :: 0 <= j < i ==> t[j].task != h
    ensures First(t, h) == i
  {
    var j := First(t, h);
  }

  /** task_state: find the slot, or take the first free one; None when the free slot already
      has a name, or the table is full, and a configASSERT fails. */
  function Lookup(t: seq<Entry>, s: Status): (r: Option<(seq<Entry>, nat)>)
    ensures r.Some? ==> |r.value.0| == |t| && r.value.1 < |t|
  {
    var i, j := First(t, s.handle), First(t, NULL);
    if i < |t| then Some((t, i))
    else if j < |t| && t[j].sym == 0 then Some((t[j := t[j].(task := s.handle, sym := s.sym)], j))
    else None
  }

  /** An assertion in task_state fails exactly if the task has no slot, and the first free
      slot already has a name, or there is none. */
  lemma LookupFails(t: seq<Entry>, s: Status)
    ensures Lookup(t, s) == None <==>
              && (forall i :: 0 <= i < |t| ==> t[i].task != s.handle)
              && (forall i :: 0 <= i < |t| && t[i].task == NULL && (forall j :: 0 <= j < i ==> t[j].task != NULL)
                    ==> t[i].sym != 0)
  {
    var i := First(t, NULL);
  }

  /** The loop body of stats_task for one task. */
  function Visit(st: Stats, s: Status, total: u32): (r: Option<Stats>)
    ensures r.Some? ==> |r.value.table| == |st.table|
  {
    match Lookup(st.table, s)
    case None => None
    case Some((t, i)) =>
      var line := Line(s.handle, t[i].sym, Sample(Minus(Counter(s.elapsed), t[i].last), s.elapsed),
                       Minus(total, st.lastTotal), total / 100 != 0 && s.recording);
      Some(st.(table := t[i := t[i].(last := Counter(s.elapsed))], lines := st.lines + [line]))
  }

  function VisitAll(st: Stats, tasks: seq<Status>, total: u32): (r: Option<Stats>)
    ensures r.Some? ==> |r.value.table| == |st.table|
  {
    if tasks == [] then Some(st)
    else match VisitAll(st, tasks[..|tasks| - 1], total)
      case None => None
      case Some(u) => Visit(u, tasks[|tasks| - 1], total)
  }

  /** stats_task's loop body; None when one of its assertions fails. */
  function DoRound(st: Stats, r: Round): Option<Stats>
  {
    if !ChecksPass(r) then None
    else match VisitAll(st, r.tasks, Counter(r.elapsed))
    case None => None
    case Some(u) =>
      Some(u.(lastTotal := Counter(r.elapsed),
              totals := u.totals + [Sample(Minus(Counter(r.elapsed), u.lastTotal), r.elapsed)]))
  }

  function InitialStats(): Stats { Stats(seq(MAX_TASKS, _ => FREE), 0, [], []) }

  function Exec(rounds: seq<Round>): Option<Stats>
  {
    if rounds == [] then Some(InitialStats())
    else match Exec(rounds[..|rounds| - 1])
      case None => None
      case Some(st) => DoRound(st, rounds[|rounds| - 1])
  }

  // ---- Environment: tasks have handles, and are never deleted ----

  ghost function Handles(tasks: seq<Status>): set<Handle> { set s <- tasks :: s.handle }

  /** What the kernel guarantees. */
  ghost predicate KernelOk(rounds: seq<Round>)
  {
    && (forall r <- rounds :: |r.tasks| <= r.count && NULL !in Handles(r.tasks))
    && (forall m, n :: 0 <= m < n < |rounds| && rounds[n].tasks != [] ==>
          Handles(rounds[m].tasks) <= Handles(rounds[n].tasks))
  }

  ghost predicate AllChecked(rounds: seq<Round>) { forall r <- rounds :: ChecksPass(r) }

  // ---- Table safety ----

  /** Occupied slots form a prefix of length n with pairwise distinct handles; the rest is
      untouched. */
  ghost predicate Prefix(t: seq<Entry>, n: nat)
  {
    && n <= |t|
    && (forall i :: 0 <= i < n ==> t[i].task != NULL)
    && (forall i :: n <= i < |t| ==> t[i].task == NULL && t[i].sym == 0 && t[i].last == 0)
    && (forall i, j :: 0 <= i < j < n ==> t[i].task != t[j].task)
  }

  ghost function Occupied(t: seq<Entry>): nat { First(t, NULL) }

  ghost function Tabled(t: seq<Entry>): set<Handle> { set i | 0 <= i < Occupied(t) :: t[i].task }

  ghost predicate Safe(t: seq<Entry>) { Prefix(t, Occupied(t)) }

  /** A handle keeps its slot, and its registered name. */
  ghost predicate Keeps(t: seq<Entry>, t': seq<Entry>)
  {
    && |t'| == |t|
    && forall i :: 0 <= i < |t| && t[i].task != NULL ==> t'[i].task == t[i].task && t'[i].sym == t[i].sym
  }

  lemma {:induction false} DistinctCount(t: seq<Entry>, n: nat)
    requires n <= |t| && forall i, j :: 0 <= i < j < n ==> t[i].task != t[j].task
    ensures |set i | 0 <= i < n :: t[i].task| == n
  {
    if n > 0 {
      DistinctCount(t, n - 1);
      var front := set i | 0 <= i < n - 1 :: t[i].task;
      assert (set i | 0 <= i < n :: t[i].task) == front + {t[n - 1].task};
    }
  }

  lemma {:induction false} HandleCount(tasks: seq<Status>)
    ensures |Handles(tasks)| <= |tasks|
  {
    if tasks != [] {
      var m := |tasks| - 1;
      HandleCount(tasks[..m]);
      assert tasks == tasks[..m] + [tasks[m]];
      assert Handles(tasks) == Handles(tasks[..m]) + {tasks[m].handle};
    }
  }

  lemma FirstFree(t: seq<Entry>, n: nat)
    requires Prefix(t, n)
    ensures Occupied(t) == n
  {
    FirstIs(t, NULL, n);
  }

  /** Pigeonhole: while every tabled task is among at most MAX_TASKS live ones, looking a
      live task up never fails. */
  lemma VisitSafe(st: Stats, s: Status, total: u32, live: set<Handle>)
    requires |st.table| == MAX_TASKS && Safe(st.table) && Tabled(st.table) <= live
    requires s.handle in live && s.handle != NULL && |live| <= MAX_TASKS
    ensures Visit(st, s, total).Some?
    ensures var t' := Visit(st, s, total).value.table;
            && Safe(t') && Keeps(st.table, t')
            && Tabled(t') == Tabled(st.table) + {s.handle}
  {
    var t, n := st.table, Occupied(st.table);
    var i := First(t, s.handle);
    if i < |t| {
      assert i < n && t[i].task in Tabled(t);
      StoreCounter(t, i, Counter(s.elapsed));
    } else {
      RoomForOne(t, s.handle, live);
      var e := FREE.(task := s.handle, sym := s.sym);
      assert t[n].(task := s.handle, sym := s.sym) == e;
      Allocate(t, e);
      assert t[n := e][n := e.(last := Counter(s.elapsed))] == t[n := e.(last := Counter(s.elapsed))];
      StoreCounter(t[n := e], n, Counter(s.elapsed));
    }
  }

  lemma StoreCounter(t: seq<Entry>, i: nat, c: u32)
    requires Safe(t) && i < Occupied(t)
    ensures var t' := t[i := t[i].(last := c)];
            && Safe(t') && Keeps(t, t') && Occupied(t') == Occupied(t) && Tabled(t') == Tabled(t)
  {
    var t', n := t[i := t[i].(last := c)], Occupied(t);
    FirstIs(t', NULL, n);
    assert forall j :: 0 <= j < n ==> t'[j].task == t[j].task;
  }

  lemma RoomForOne(t: seq<Entry>, h: Handle, live: set<Handle>)
    requires |t| == MAX_TASKS && Safe(t) && Tabled(t) <= live && |live| <= MAX_TASKS
    requires h in live && First(t, h) == |t|
    ensures Occupied(t) < |t|
  {
    DistinctCount(t, Occupied(t));
    assert h !in Tabled(t);
    SubsetCard(Tabled(t) + {h}, live);
  }

  lemma Allocate(t: seq<Entry>, e: Entry)
    requires Safe(t) && Occupied(t) < |t| && e.task != NULL && First(t, e.task) == |t|
    ensures var n := Occupied(t);
            var t' := t[n := e];
            && Safe(t') && Keeps(t, t') && Occupied(t') == n + 1 && Tabled(t') == Tabled(t) + {e.task}
  {
    var n := Occupied(t);
    var t' := t[n := e];
    FirstIs(t', NULL, n + 1);
    assert t'[n].task == e.task;
    forall h | h in Tabled(t)
      ensures h in Tabled(t')
    {
      var j :| 0 <= j < n && t[j].task == h;
      assert t'[j].task == h;
    }
  }

  lemma {:induction false} SubsetCard<T>(a: set<T>, b: set<T>)
    requires a <= b
    ensures |a| <= |b|
  {
    if a != {} {
      var x :| x in a;
      SubsetCard(a - {x}, b - {x});
    }
  }

  lemma {:induction false} VisitAllSafe(st: Stats, tasks: seq<Status>, total: u32, live: set<Handle>)
    requires |st.table| == MAX_TASKS && Safe(st.table) && Tabled(st.table) <= live
    requires Handles(tasks) <= live && NULL !in live && |live| <= MAX_TASKS
    ensures VisitAll(st, tasks, total).Some?
    ensures var t' := VisitAll(st, tasks, total).value.table;
            && Safe(t') && Keeps(st.table, t')
            && Tabled(t') == Tabled(st.table) + Handles(tasks)
  {
    if tasks != [] {
      var m := |tasks| - 1;
      assert tasks == tasks[..m] + [tasks[m]];
      assert Handles(tasks) == Handles(tasks[..m]) + {tasks[m].handle};
      VisitAllSafe(st, tasks[..m], total, live);
      VisitSafe(VisitAll(st, tasks[..m], total).value, tasks[m], total, live);
    }
  }

  /** The allocation assertions never fail, neither the one on a free slot's name nor the
      one on a full table: a run fails if and only if one of the checks on the number of
      tasks does. Occupied slots stay a prefix with distinct handles, and
      the table lists exactly the tasks of the latest round. */
  lemma {:induction false} TableSafety(rounds: seq<Round>)
    requires KernelOk(rounds)
    ensures Exec(rounds).Some? <==> AllChecked(rounds)
    ensures AllChecked(rounds) ==>
              var t := Exec(rounds).value.table;
              && |t| == MAX_TASKS && Safe(t)
              && Tabled(t) == if rounds == [] then {} else Handles(rounds[|rounds| - 1].tasks)
  {
    if rounds == [] {
      FirstFree(InitialStats().table, 0);
    } else {
      var m := |rounds| - 1;
      KernelOkPrefix(rounds, m);
      TableSafety(rounds[..m]);
      LastChecked(rounds);
      if AllChecked(rounds) {
        RoundSafe(rounds);
      } else if Exec(rounds).Some? {
        LastRan(rounds);
      }
    }
  }

  /** In other words: a run goes through exactly if every round has at most 12 tasks, and
      the kernel lists them. */
  lemma RunsWithTwelveTasks(rounds: seq<Round>)
    requires KernelOk(rounds)
    ensures Exec(rounds).Some? <==> forall r <- rounds :: r.count <= 12 && r.tasks != []
  {
    TableSafety(rounds);
  }

  lemma LastChecked(rounds: seq<Round>)
    requires rounds != []
    ensures AllChecked(rounds) <==> AllChecked(rounds[..|rounds| - 1]) && ChecksPass(rounds[|rounds| - 1])
  {
    var front, r := rounds[..|rounds| - 1], rounds[|rounds| - 1];
    CheckedPush(front, r);
    assert rounds == front + [r];
  }

  lemma LastRan(rounds: seq<Round>)
    requires rounds != [] && Exec(rounds).Some?
    ensures Exec(rounds[..|rounds| - 1]).Some? && ChecksPass(rounds[|rounds| - 1])
  {
  }

  lemma RoundSafe(rounds: seq<Round>)
    requires KernelOk(rounds) && AllChecked(rounds) && rounds != []
    requires var before := rounds[..|rounds| - 1];
             && Exec(before).Some?
             && var t := Exec(before).value.table;
                && |t| == MAX_TASKS && Safe(t)
                && Tabled(t) == if before == [] then {} else Handles(before[|before| - 1].tasks)
    ensures Exec(rounds).Some?
    ensures var m := |rounds| - 1;
            var t, t' := Exec(rounds[..m]).value.table, Exec(rounds).value.table;
            && |t'| == MAX_TASKS && Safe(t') && Keeps(t, t') && Tabled(t') == Handles(rounds[m].tasks)
  {
    var m := |rounds| - 1;
    var r := rounds[m];
    LiveHandles(rounds);
    DoRoundSafe(Exec(rounds[..m]).value, r);
  }

  lemma DoRoundSafe(st: Stats, r: Round)
    requires |st.table| == MAX_TASKS && Safe(st.table) && ChecksPass(r)
    requires Tabled(st.table) <= Handles(r.tasks) && NULL !in Handles(r.tasks) && |Handles(r.tasks)| <= MAX_TASKS
    ensures DoRound(st, r).Some?
    ensures var t' := DoRound(st, r).value.table;
            && |t'| == MAX_TASKS && Safe(t') && Keeps(st.table, t') && Tabled(t') == Handles(r.tasks)
  {
    VisitAllSafe(st, r.tasks, Counter(r.elapsed), Handles(r.tasks));
    Absorb(Tabled(st.table), Handles(r.tasks));
  }

  lemma Absorb<T>(a: set<T>, b: set<T>)
    requires a <= b
    ensures a + b == b
  {
  }

  /** At most MAX_TASKS live handles, none null, among them all of the round before. */
  lemma LiveHandles(rounds: seq<Round>)
    requires KernelOk(rounds) && AllChecked(rounds) && rounds != []
    ensures var m := |rounds| - 1;
            && |Handles(rounds[m].tasks)| <= MAX_TASKS && NULL !in Handles(rounds[m].tasks)
            && (m > 0 ==> Handles(rounds[m - 1].tasks) <= Handles(rounds[m].tasks))
  {
    var r := rounds[|rounds| - 1];
    assert r in rounds;
    HandleCount(r.tasks);
  }

  lemma KernelOkPrefix(rounds: seq<Round>, k: nat)
    requires KernelOk(rounds) && k <= |rounds|
    ensures KernelOk(rounds[..k])
    ensures AllChecked(rounds) ==> AllChecked(rounds[..k])
  {
  }

  /** A handle keeps its slot for ever. */
  lemma {:induction false} SlotsAreForEver(rounds: seq<Round>, k: nat)
    requires KernelOk(rounds) && AllChecked(rounds) && k <= |rounds|
    ensures Exec(rounds).Some? && Exec(rounds[..k]).Some?
    ensures Keeps(Exec(rounds[..k]).value.table, Exec(rounds).value.table)
  {
    if k == |rounds| {
      TableSafety(rounds);
      assert rounds[..k] == rounds;
    } else {
      var m := |rounds| - 1;
      KernelOkPrefix(rounds, m);
      SlotsAreForEver(rounds[..m], k);
      PrefixOfPrefix(rounds, k, m);
      SlotsStep(rounds, k);
    }
  }

  lemma PrefixOfPrefix<T>(s: seq<T>, k: nat, m: nat)
    requires k <= m <= |s|
    ensures s[..m][..k] == s[..k]
  {
  }

  lemma SlotsStep(rounds: seq<Round>, k: nat)
    requires KernelOk(rounds) && AllChecked(rounds) && k < |rounds|
    requires Exec(rounds[..k]).Some? && Exec(rounds[..|rounds| - 1]).Some?
    requires Keeps(Exec(rounds[..k]).value.table, Exec(rounds[..|rounds| - 1]).value.table)
    ensures Exec(rounds).Some? && Keeps(Exec(rounds[..k]).value.table, Exec(rounds).value.table)
  {
    RoundKeeps(rounds);
    KeepsTransitive(Exec(rounds[..k]).value.table, Exec(rounds[..|rounds| - 1]).value.table, Exec(rounds).value.table);
  }

  lemma RoundKeeps(rounds: seq<Round>)
    requires KernelOk(rounds) && AllChecked(rounds) && rounds != []
    ensures var before := rounds[..|rounds| - 1];
            && Exec(before).Some? && Exec(rounds).Some?
            && Keeps(Exec(before).value.table, Exec(rounds).value.table)
  {
    var m := |rounds| - 1;
    KernelOkPrefix(rounds, m);
    TableSafety(rounds[..m]);
    RoundSafe(rounds);
  }

  lemma KeepsTransitive(a: seq<Entry>, b: seq<Entry>, c: seq<Entry>)
    requires Keeps(a, b) && Keeps(b, c)
    ensures Keeps(a, c)
  {
  }

  // ---- Differences telescope ----

  function Sum(samples: seq<Sample>): nat
  {
    if samples == [] then 0 else Sum(samples[..|samples| - 1]) + samples[|samples| - 1].diff
  }

  /** The true time of the sample before k; 0 before the first. */
  function Previous(samples: seq<Sample>, k: nat): nat
    requires k <= |samples|
  {
    if k == 0 then 0 else samples[k - 1].elapsed
  }

  /** Each difference is taken against the counter stored by the sample before it. */
  ghost predicate Chained(samples: seq<Sample>)
  {
    forall k :: 0 <= k < |samples| ==>
      samples[k].diff == Minus(Counter(samples[k].elapsed), Counter(Previous(samples, k)))
  }

  /** The samples were taken at these times. */
  ghost predicate TakenAt(samples: seq<Sample>, times: seq<nat>)
  {
    |samples| == |times| && forall k :: 0 <= k < |times| ==> samples[k].elapsed == times[k]
  }

  /** The k-th time, counting from 1; time starts at 0. */
  function At(times: seq<nat>, k: nat): nat
    requires k <= |times|
  {
    if k == 0 then 0 else times[k - 1]
  }

  /** True time does not run backwards in the intervals from i to j. */
  ghost predicate Rising(times: seq<nat>, i: nat, j: nat)
    requires j <= |times|
  {
    forall k :: i <= k < j ==> At(times, k) <= times[k]
  }

  /** Each of the intervals from i to j is shorter than one wrap of the counter. */
  ghost predicate Short(times: seq<nat>, i: nat, j: nat)
    requires j <= |times|
  {
    forall k :: i <= k < j ==> times[k] - At(times, k) < WRAP
  }

  /** The differences taken from the i-th time to the j-th sum to the time between them
      modulo 2^32, and exactly if and only if none of these intervals wraps. */
  ghost predicate Telescopes(samples: seq<Sample>, times: seq<nat>, i: nat, j: nat)
    requires i <= j <= |times| == |samples|
  {
    && Sum(samples[i..j]) % WRAP == Minus(Counter(At(times, j)), Counter(At(times, i)))
    && (Rising(times, i, j) ==> (At(times, i) + Sum(samples[i..j]) == At(times, j) <==> Short(times, i, j)))
  }

  /** A 32-bit difference of counters is the true difference, less its whole wraps. */
  lemma MinusWraps(a: nat, b: nat) returns (w: int)
    ensures Minus(Counter(a), Counter(b)) == a - b + WRAP * w
    ensures b <= a ==> w <= 0 && (w == 0 <==> a - b < WRAP)
  {
    w := b / WRAP - a / WRAP + if Counter(a) < Counter(b) then 1 else 0;
    assert Counter(a) - Counter(b) == a - b + WRAP * (b / WRAP - a / WRAP);
  }

  lemma Residue(x: int, y: u32, w: int)
    requires x == y + WRAP * w
    ensures x % WRAP == y
  {
  }

  /** Difference k falls w whole wraps short of the interval it measures. */
  ghost predicate WrapsAt(samples: seq<Sample>, times: seq<nat>, k: nat, w: int)
    requires k < |times| == |samples|
  {
    && samples[k].diff == times[k] - At(times, k) + WRAP * w
    && (At(times, k) <= times[k] ==> w <= 0 && (w == 0 <==> times[k] - At(times, k) < WRAP))
  }

  lemma SampleWraps(samples: seq<Sample>, times: seq<nat>, k: nat) returns (w: int)
    requires Chained(samples) && TakenAt(samples, times) && k < |times|
    ensures WrapsAt(samples, times, k, w)
  {
    w := MinusWraps(times[k], At(times, k));
    assert Previous(samples, k) == At(times, k);
  }

  /** The differences in the window fall w whole wraps short of the time between its ends. */
  ghost predicate WrapsIn(samples: seq<Sample>, times: seq<nat>, i: nat, j: nat, w: int)
    requires i <= j <= |times| == |samples|
  {
    && Sum(samples[i..j]) == At(times, j) - At(times, i) + WRAP * w
    && (Rising(times, i, j) ==> w <= 0 && (w == 0 <==> Short(times, i, j)))
  }

  /** Any window of differences sums to last minus first, less the whole wraps. */
  lemma {:induction false} WindowWraps(samples: seq<Sample>, times: seq<nat>, i: nat, j: nat) returns (w: int)
    requires Chained(samples) && TakenAt(samples, times) && i <= j <= |times|
    ensures WrapsIn(samples, times, i, j, w)
    decreases j
  {
    if i == j {
      w := EmptyWindow(samples, times, i);
    } else {
      var u := WindowWraps(samples, times, i, j - 1);
      w := NextWraps(samples, times, i, j, u);
    }
  }

  lemma EmptyWindow(samples: seq<Sample>, times: seq<nat>, i: nat) returns (w: int)
    requires i <= |times| == |samples|
    ensures WrapsIn(samples, times, i, i, w)
  {
    w := 0;
    assert samples[i..i] == [];
  }

  lemma NextWraps(samples: seq<Sample>, times: seq<nat>, i: nat, j: nat, u: int) returns (w: int)
    requires Chained(samples) && TakenAt(samples, times) && i < j <= |times|
    requires WrapsIn(samples, times, i, j - 1, u)
    ensures WrapsIn(samples, times, i, j, w)
  {
    var v := SampleWraps(samples, times, j - 1);
    AddWrap(samples, times, i, j, u, v);
    w := u + v;
  }

  lemma AddWrap(samples: seq<Sample>, times: seq<nat>, i: nat, j: nat, u: int, v: int)
    requires |samples| == |times| && i < j <= |times|
    requires WrapsIn(samples, times, i, j - 1, u) && WrapsAt(samples, times, j - 1, v)
    ensures WrapsIn(samples, times, i, j, u + v)
  {
    SumLast(samples, i, j);
    AddWraps(Sum(samples[i..j - 1]), samples[j - 1].diff, At(times, i), At(times, j - 1), times[j - 1], u, v);
    LastInterval(times, i, j);
  }

  lemma LastInterval(times: seq<nat>, i: nat, j: nat)
    requires i < j <= |times|
    ensures Rising(times, i, j) <==> Rising(times, i, j - 1) && At(times, j - 1) <= times[j - 1]
    ensures Short(times, i, j) <==> Short(times, i, j - 1) && times[j - 1] - At(times, j - 1) < WRAP
  {
  }

  lemma AddWraps(sum: int, diff: int, a: int, b: int, c: int, u: int, v: int)
    requires sum == b - a + WRAP * u && diff == c - b + WRAP * v
    ensures sum + diff == c - a + WRAP * (u + v)
  {
  }

  lemma WindowTelescopes(samples: seq<Sample>, times: seq<nat>, i: nat, j: nat)
    requires Chained(samples) && TakenAt(samples, times) && i <= j <= |times|
    ensures Telescopes(samples, times, i, j)
  {
    var w := WindowWraps(samples, times, i, j);
    var v := MinusWraps(At(times, j), At(times, i));
    Residue(Sum(samples[i..j]), Minus(Counter(At(times, j)), Counter(At(times, i))), w - v);
  }

  lemma SumLast(samples: seq<Sample>, i: nat, j: nat)
    requires i < j <= |samples|
    ensures Sum(samples[i..j]) == Sum(samples[i..j - 1]) + samples[j - 1].diff
  {
    var window := samples[i..j];
    assert window[..|window| - 1] == samples[i..j - 1];
  }

  /** The samples of one task, in visiting order. */
  function SamplesOf(lines: seq<Line>, h: Handle): seq<Sample>
  {
    if lines == [] then []
    else
      var line := lines[|lines| - 1];
      SamplesOf(lines[..|lines| - 1], h) + if line.task == h then [line.sample] else []
  }

  function LoggedSum(lines: seq<Line>, h: Handle, logged: bool): nat
  {
    if lines == [] then 0
    else
      var line := lines[|lines| - 1];
      LoggedSum(lines[..|lines| - 1], h, logged)
      + if line.task == h && line.logged == logged then line.sample.diff else 0
  }

  lemma {:induction false} LoggedAndSkipped(lines: seq<Line>, h: Handle)
    ensures LoggedSum(lines, h, true) + LoggedSum(lines, h, false) == Sum(SamplesOf(lines, h))
  {
    if lines != [] {
      var m := |lines| - 1;
      LoggedAndSkipped(lines[..m], h);
      var before := SamplesOf(lines[..m], h);
      assert (before + [lines[m].sample])[..|before|] == before;
      assert before + [] == before;
    }
  }

  /** The counter the table holds for a task is the one of its latest sample. */
  ghost predicate Tracks(st: Stats, h: Handle)
  {
    var samples, i := SamplesOf(st.lines, h), First(st.table, h);
    && Chained(samples)
    && Counter(Previous(samples, |samples|)) == if i < |st.table| then st.table[i].last else 0
  }

  lemma ChainedPush(samples: seq<Sample>, x: Sample)
    requires Chained(samples)
    requires x.diff == Minus(Counter(x.elapsed), Counter(Previous(samples, |samples|)))
    ensures Chained(samples + [x])
  {
    var more := samples + [x];
    forall k | 0 <= k < |more|
      ensures more[k].diff == Minus(Counter(more[k].elapsed), Counter(Previous(more, k)))
    {
      if k < |samples| { assert Previous(more, k) == Previous(samples, k); }
    }
  }

  lemma FirstUnique(t: seq<Entry>, h: Handle, i: nat)
    requires Safe(t) && h != NULL && i < |t| && t[i].task == h
    ensures First(t, h) == i
  {
    var j, n := First(t, h), Occupied(t);
  }

  lemma VisitTracks(st: Stats, s: Status, total: u32, h: Handle)
    requires Safe(st.table) && Tracks(st, h) && h != NULL && s.handle != NULL
    requires Visit(st, s, total).Some? && Safe(Visit(st, s, total).value.table)
    ensures Tracks(Visit(st, s, total).value, h)
  {
    var st' := Visit(st, s, total).value;
    var t, t', at := st.table, st'.table, Lookup(st.table, s).value.1;
    assert st'.lines[..|st.lines|] == st.lines;
    var samples := SamplesOf(st.lines, h);
    if s.handle == h {
      FirstUnique(t', h, at);
      var x := st'.lines[|st.lines|].sample;
      assert SamplesOf(st'.lines, h) == samples + [x];
      ChainedPush(samples, x);
    } else {
      assert SamplesOf(st'.lines, h) == samples + [] == samples;
      var i := First(t, h);
      if i < |t| {
        FirstUnique(t', h, i);
      } else {
        assert forall j :: 0 <= j < |t'| ==> t'[j].task != h;
        assert First(t', h) == |t'|;
      }
    }
  }

  lemma {:induction false} VisitAllTracks(st: Stats, tasks: seq<Status>, total: u32, live: set<Handle>, h: Handle)
    requires |st.table| == MAX_TASKS && Safe(st.table) && Tabled(st.table) <= live
    requires Handles(tasks) <= live && NULL !in live && |live| <= MAX_TASKS
    requires Tracks(st, h) && h != NULL
    ensures VisitAll(st, tasks, total).Some?
    ensures Tracks(VisitAll(st, tasks, total).value, h)
  {
    VisitAllSafe(st, tasks, total, live);
    if tasks != [] {
      var m := |tasks| - 1;
      assert tasks == tasks[..m] + [tasks[m]];
      assert Handles(tasks) == Handles(tasks[..m]) + {tasks[m].handle};
      VisitAllTracks(st, tasks[..m], total, live, h);
      VisitAllSafe(st, tasks[..m], total, live);
      VisitTracks(VisitAll(st, tasks[..m], total).value, tasks[m], total, h);
    }
  }

  lemma RoundTracks(st: Stats, r: Round, live: set<Handle>, h: Handle)
    requires |st.table| == MAX_TASKS && Safe(st.table) && Tabled(st.table) <= live
    requires Handles(r.tasks) <= live && NULL !in live && |live| <= MAX_TASKS
    requires Tracks(st, h) && h != NULL && ChecksPass(r)
    ensures DoRound(st, r).Some? && Tracks(DoRound(st, r).value, h)
  {
    VisitAllTracks(st, r.tasks, Counter(r.elapsed), live, h);
  }

  lemma InitialTracks(h: Handle)
    requires h != NULL
    ensures Tracks(InitialStats(), h)
  {
    FirstIs(InitialStats().table, h, MAX_TASKS);
  }

  lemma {:induction false} RunTracks(rounds: seq<Round>, h: Handle)
    requires KernelOk(rounds) && AllChecked(rounds) && h != NULL
    ensures Exec(rounds).Some? && Tracks(Exec(rounds).value, h)
  {
    if rounds == [] {
      InitialTracks(h);
    } else {
      var m := |rounds| - 1;
      KernelOkPrefix(rounds, m);
      TableSafety(rounds[..m]);
      RunTracks(rounds[..m], h);
      LiveHandles(rounds);
      assert ChecksPass(rounds[m]);
      RoundTracks(Exec(rounds[..m]).value, rounds[m], Handles(rounds[m].tasks), h);
    }
  }

  lemma {:induction false} VisitAllTotals(st: Stats, tasks: seq<Status>, total: u32)
    requires VisitAll(st, tasks, total).Some?
    ensures VisitAll(st, tasks, total).value.totals == st.totals
    ensures VisitAll(st, tasks, total).value.lastTotal == st.lastTotal
  {
    if tasks != [] { VisitAllTotals(st, tasks[..|tasks| - 1], total); }
  }

  /** The totals so far are those of the given rounds, and the stored counter the latest. */
  ghost predicate TotalsOf(totals: seq<Sample>, lastTotal: u32, rounds: seq<Round>)
  {
    && |totals| == |rounds| && Chained(totals)
    && (forall k :: 0 <= k < |rounds| ==> totals[k].elapsed == rounds[k].elapsed)
    && lastTotal == Counter(Previous(totals, |totals|))
  }

  lemma TotalsOfPush(totals: seq<Sample>, rounds: seq<Round>, lastTotal: u32, r: Round, x: Sample)
    requires TotalsOf(totals, lastTotal, rounds)
    requires x == Sample(Minus(Counter(r.elapsed), lastTotal), r.elapsed)
    ensures TotalsOf(totals + [x], Counter(r.elapsed), rounds + [r])
  {
    ChainedPush(totals, x);
  }

  lemma RoundTotals(st: Stats, r: Round)
    requires DoRound(st, r).Some?
    ensures var st', c := DoRound(st, r).value, Counter(r.elapsed);
            && st'.lastTotal == c
            && st'.totals == st.totals + [Sample(Minus(c, st.lastTotal), r.elapsed)]
  {
    VisitAllTotals(st, r.tasks, Counter(r.elapsed));
  }

  lemma {:induction false} RunTotals(rounds: seq<Round>)
    requires Exec(rounds).Some?
    ensures var st := Exec(rounds).value;
            TotalsOf(st.totals, st.lastTotal, rounds)
  {
    if rounds != [] {
      var m := |rounds| - 1;
      var r, st := rounds[m], Exec(rounds[..m]).value;
      RunTotals(rounds[..m]);
      assert rounds == rounds[..m] + [r];
      RoundTotals(st, r);
      TotalsOfPush(st.totals, rounds[..m], st.lastTotal, r,
                   Sample(Minus(Counter(r.elapsed), st.lastTotal), r.elapsed));
    }
  }

  // ---- The run times of one task, read off the rounds ----

  function TimesOf(tasks: seq<Status>, h: Handle): seq<nat>
  {
    if tasks == [] then []
    else
      var s := tasks[|tasks| - 1];
      TimesOf(tasks[..|tasks| - 1], h) + if s.handle == h then [s.elapsed] else []
  }

  /** The run times reported for task h, in all rounds. */
  function RunTimes(rounds: seq<Round>, h: Handle): seq<nat>
  {
    if rounds == [] then []
    else RunTimes(rounds[..|rounds| - 1], h) + TimesOf(rounds[|rounds| - 1].tasks, h)
  }

  lemma {:induction false} VisitAllTimes(st: Stats, tasks: seq<Status>, total: u32, h: Handle, times: seq<nat>)
    requires VisitAll(st, tasks, total).Some? && TakenAt(SamplesOf(st.lines, h), times)
    ensures TakenAt(SamplesOf(VisitAll(st, tasks, total).value.lines, h), times + TimesOf(tasks, h))
  {
    if tasks == [] {
      assert times + [] == times;
    } else {
      var m := |tasks| - 1;
      VisitAllTimes(st, tasks[..m], total, h, times);
      VisitTimes(VisitAll(st, tasks[..m], total).value, tasks[m], total, h, times + TimesOf(tasks[..m], h));
      assert times + TimesOf(tasks, h)
             == times + TimesOf(tasks[..m], h) + if tasks[m].handle == h then [tasks[m].elapsed] else [];
    }
  }

  lemma VisitTimes(st: Stats, s: Status, total: u32, h: Handle, times: seq<nat>)
    requires Visit(st, s, total).Some? && TakenAt(SamplesOf(st.lines, h), times)
    ensures TakenAt(SamplesOf(Visit(st, s, total).value.lines, h), times + if s.handle == h then [s.elapsed] else [])
  {
    var line := VisitLine(st, s, total);
    SamplesPush(st.lines, line, h);
  }

  lemma VisitLine(st: Stats, s: Status, total: u32) returns (line: Line)
    requires Visit(st, s, total).Some?
    ensures Visit(st, s, total).value.lines == st.lines + [line]
    ensures line.task == s.handle && line.sample.elapsed == s.elapsed
  {
    var lines' := Visit(st, s, total).value.lines;
    line := lines'[|st.lines|];
  }

  lemma SamplesPush(lines: seq<Line>, line: Line, h: Handle)
    ensures SamplesOf(lines + [line], h) == SamplesOf(lines, h) + if line.task == h then [line.sample] else []
  {
    assert (lines + [line])[..|lines|] == lines;
  }

  /** A task is sampled at exactly its reported run times. */
  lemma {:induction false} SampledAtRunTimes(rounds: seq<Round>, h: Handle)
    requires Exec(rounds).Some?
    ensures TakenAt(SamplesOf(Exec(rounds).value.lines, h), RunTimes(rounds, h))
  {
    if rounds != [] {
      var m := |rounds| - 1;
      var r, st := rounds[m], Exec(rounds[..m]).value;
      SampledAtRunTimes(rounds[..m], h);
      RoundTimes(st, r, h, RunTimes(rounds[..m], h));
    }
  }

  lemma RoundTimes(st: Stats, r: Round, h: Handle, times: seq<nat>)
    requires DoRound(st, r).Some? && TakenAt(SamplesOf(st.lines, h), times)
    ensures TakenAt(SamplesOf(DoRound(st, r).value.lines, h), times + TimesOf(r.tasks, h))
  {
    VisitAllTimes(st, r.tasks, Counter(r.elapsed), h, times);
  }

  /** Over any run and any task: the differences are those of the run times reported for
      it, and over any window of reports they sum to the run time between the two ends
      modulo 2^32, and exactly if and only if no interval in the window is 2^32 ticks or
      longer. */
  lemma TaskWindowTelescopes(rounds: seq<Round>, h: Handle, i: nat, j: nat)
    requires KernelOk(rounds) && AllChecked(rounds) && h != NULL && i <= j <= |RunTimes(rounds, h)|
    ensures Exec(rounds).Some? && TakenAt(SamplesOf(Exec(rounds).value.lines, h), RunTimes(rounds, h))
    ensures Telescopes(SamplesOf(Exec(rounds).value.lines, h), RunTimes(rounds, h), i, j)
  {
    RunTracks(rounds, h);
    SampledAtRunTimes(rounds, h);
    WindowTelescopes(SamplesOf(Exec(rounds).value.lines, h), RunTimes(rounds, h), i, j);
  }

  /** In all, the differences logged and those skipped (total run time under 100 ticks, or
      the recorder off) sum to the task's last run time modulo 2^32, and exactly if and
      only if no interval is 2^32 ticks or longer. */
  lemma TaskTimesTelescope(rounds: seq<Round>, h: Handle)
    requires KernelOk(rounds) && AllChecked(rounds) && h != NULL
    ensures Exec(rounds).Some?
    ensures SumsTo(Exec(rounds).value.lines, h, RunTimes(rounds, h))
  {
    TaskWindowTelescopes(rounds, h, 0, |RunTimes(rounds, h)|);
    WholeWindow(Exec(rounds).value.lines, h, RunTimes(rounds, h));
  }

  ghost predicate SumsTo(lines: seq<Line>, h: Handle, times: seq<nat>)
  {
    var n, sum := |times|, LoggedSum(lines, h, true) + LoggedSum(lines, h, false);
    && sum % WRAP == Counter(At(times, n))
    && (Rising(times, 0, n) ==> (sum == At(times, n) <==> Short(times, 0, n)))
  }

  lemma WholeWindow(lines: seq<Line>, h: Handle, times: seq<nat>)
    requires TakenAt(SamplesOf(lines, h), times) && Telescopes(SamplesOf(lines, h), times, 0, |times|)
    ensures SumsTo(lines, h, times)
  {
    var samples := SamplesOf(lines, h);
    assert samples[0..|times|] == samples;
    LoggedAndSkipped(lines, h);
  }

  /** The times of the rounds. */
  function TotalTimes(rounds: seq<Round>): seq<nat>
  {
    seq(|rounds|, k requires 0 <= k < |rounds| => rounds[k].elapsed)
  }

  /** The total differences of any window of rounds sum to the total time between its two
      ends modulo 2^32, and exactly if and only if no interval in it is 2^32 ticks or
      longer. */
  lemma TotalTimesTelescope(rounds: seq<Round>, i: nat, j: nat)
    requires KernelOk(rounds) && AllChecked(rounds) && i <= j <= |rounds|
    ensures Exec(rounds).Some? && |Exec(rounds).value.totals| == |rounds|
    ensures Telescopes(Exec(rounds).value.totals, TotalTimes(rounds), i, j)
  {
    TableSafety(rounds);
    RunTotals(rounds);
    WindowTelescopes(Exec(rounds).value.totals, TotalTimes(rounds), i, j);
  }

  // ---- What is printed ----

  ghost predicate RoundLine(line: Line, s: Status, total: u32, lastTotal: u32)
  {
    && line.task == s.handle && line.sample.elapsed == s.elapsed
    && line.totalDiff == Minus(total, lastTotal)
    && (line.logged <==> total >= 100 && s.recording)
  }

  /** The lines of one round: one per task in order, all with the round's total difference,
      printed exactly when the recorder is on and the total is at least 100 ticks. */
  lemma {:induction false} RoundLines(st: Stats, tasks: seq<Status>, total: u32)
    requires VisitAll(st, tasks, total).Some?
    ensures var st' := VisitAll(st, tasks, total).value;
            && |st'.lines| == |st.lines| + |tasks| && st'.lines[..|st.lines|] == st.lines
            && st'.lastTotal == st.lastTotal
            && forall i :: 0 <= i < |tasks| ==>
                 RoundLine(st'.lines[|st.lines| + i], tasks[i], total, st.lastTotal)
  {
    if tasks != [] {
      var m := |tasks| - 1;
      RoundLines(st, tasks[..m], total);
      var u := VisitAll(st, tasks[..m], total).value;
      var st' := Visit(u, tasks[m], total).value;
      assert st'.lines[..|u.lines|] == u.lines;
      forall i | 0 <= i < |tasks|
        ensures RoundLine(st'.lines[|st.lines| + i], tasks[i], total, st.lastTotal)
      {
        if i < m { assert RoundLine(u.lines[|st.lines| + i], tasks[..m][i], total, st.lastTotal); }
      }
    }
  }

  /** How many tasks have been visited in all rounds. */
  function Visits(rounds: seq<Round>): nat
  {
    if rounds == [] then 0 else Visits(rounds[..|rounds| - 1]) + |rounds[|rounds| - 1].tasks|
  }

  /** What is printed, or not, for task s in round r, when the round before was taken at
      this time. */
  ghost predicate LineTells(line: Line, s: Status, r: Round, before: nat)
  {
    && line.task == s.handle && line.sample.elapsed == s.elapsed
    && line.totalDiff == (r.elapsed - before) % 0x1_0000_0000
    && (line.logged <==> r.elapsed % 0x1_0000_0000 >= 100 && s.recording)
  }

  /** The lines from the n-th on tell about round r: one per task it lists, in order. */
  ghost predicate TellAt(lines: seq<Line>, n: nat, r: Round, before: nat)
  {
    && n + |r.tasks| <= |lines|
    && forall i :: 0 <= i < |r.tasks| ==> LineTells(lines[n + i], r.tasks[i], r, before)
  }

  /** The lines of round k come after those of all rounds before. */
  ghost predicate LinesOfRound(lines: seq<Line>, rounds: seq<Round>, k: nat)
    requires k < |rounds|
  {
    TellAt(lines, Visits(rounds[..k]), rounds[k], At(TotalTimes(rounds), k))
  }

  /** In every run, and for every round in it: each task listed gets its line, with the
      total run time since the round before (since power-on in the first) modulo 2^32,
      printed exactly when the recorder is on and the total counter is at least 100 ticks. */
  lemma {:induction false} RunLines(rounds: seq<Round>, k: nat)
    requires Exec(rounds).Some? && k < |rounds|
    ensures |Exec(rounds).value.lines| == Visits(rounds)
    ensures LinesOfRound(Exec(rounds).value.lines, rounds, k)
  {
    var m := |rounds| - 1;
    LineCount(rounds);
    if k < m {
      RunLines(rounds[..m], k);
      LinesPersist(rounds, k);
    } else {
      LatestRound(rounds);
    }
  }

  lemma {:induction false} LineCount(rounds: seq<Round>)
    requires Exec(rounds).Some?
    ensures |Exec(rounds).value.lines| == Visits(rounds)
  {
    if rounds != [] {
      var m := |rounds| - 1;
      LineCount(rounds[..m]);
      RoundLines(Exec(rounds[..m]).value, rounds[m].tasks, Counter(rounds[m].elapsed));
    }
  }

  /** Later rounds leave the lines of round k as they are. */
  lemma LinesPersist(rounds: seq<Round>, k: nat)
    requires k < |rounds| - 1 && Exec(rounds).Some? && Exec(rounds[..|rounds| - 1]).Some?
    requires LinesOfRound(Exec(rounds[..|rounds| - 1]).value.lines, rounds[..|rounds| - 1], k)
    ensures LinesOfRound(Exec(rounds).value.lines, rounds, k)
  {
    var m := |rounds| - 1;
    PrefixOfPrefix(rounds, k, m);
    SameTime(rounds, k);
    LinesGrow(rounds);
    StillTells(Exec(rounds[..m]).value.lines, Exec(rounds).value.lines, Visits(rounds[..k]), rounds[k],
               At(TotalTimes(rounds), k));
  }

  lemma StillTells(lines: seq<Line>, more: seq<Line>, n: nat, r: Round, before: nat)
    requires TellAt(lines, n, r, before) && lines <= more
    ensures TellAt(more, n, r, before)
  {
  }

  lemma LinesGrow(rounds: seq<Round>)
    requires rounds != [] && Exec(rounds).Some?
    ensures Exec(rounds[..|rounds| - 1]).Some?
    ensures Exec(rounds[..|rounds| - 1]).value.lines <= Exec(rounds).value.lines
  {
    var m := |rounds| - 1;
    RoundLines(Exec(rounds[..m]).value, rounds[m].tasks, Counter(rounds[m].elapsed));
  }

  lemma SameTime(rounds: seq<Round>, k: nat)
    requires k < |rounds| - 1
    ensures At(TotalTimes(rounds), k) == At(TotalTimes(rounds[..|rounds| - 1]), k)
  {
  }

  lemma LatestRound(rounds: seq<Round>)
    requires rounds != [] && Exec(rounds).Some?
    ensures LinesOfRound(Exec(rounds).value.lines, rounds, |rounds| - 1)
  {
    var m := |rounds| - 1;
    var st, r := Exec(rounds[..m]).value, rounds[m];
    RunTotals(rounds[..m]);
    LastTotalIs(rounds, st);
    LineCount(rounds[..m]);
    ExecLast(rounds, st);
    DoRoundTells(st, r, At(TotalTimes(rounds), m));
  }

  lemma ExecLast(rounds: seq<Round>, st: Stats)
    requires rounds != [] && Exec(rounds[..|rounds| - 1]) == Some(st)
    ensures Exec(rounds) == DoRound(st, rounds[|rounds| - 1])
  {
  }

  lemma DoRoundTells(st: Stats, r: Round, before: nat)
    requires DoRound(st, r).Some? && st.lastTotal == Counter(before)
    ensures TellAt(DoRound(st, r).value.lines, |st.lines|, r, before)
  {
    var n, lines := |st.lines|, DoRound(st, r).value.lines;
    RoundLines(st, r.tasks, Counter(r.elapsed));
    forall i | 0 <= i < |r.tasks|
      ensures LineTells(lines[n + i], r.tasks[i], r, before)
    {
      LineOfRound(lines[n + i], r.tasks[i], r, st.lastTotal, before);
    }
  }

  lemma LineOfRound(line: Line, s: Status, r: Round, lastTotal: u32, before: nat)
    requires RoundLine(line, s, Counter(r.elapsed), lastTotal) && lastTotal == Counter(before)
    ensures LineTells(line, s, r, before)
  {
    MinusCounters(r.elapsed, before);
  }

  lemma LastTotalIs(rounds: seq<Round>, st: Stats)
    requires rounds != [] && TotalsOf(st.totals, st.lastTotal, rounds[..|rounds| - 1])
    ensures st.lastTotal == Counter(At(TotalTimes(rounds), |rounds| - 1))
  {
  }

  lemma MinusCounters(a: nat, b: nat)
    ensures Minus(Counter(a), Counter(b)) == (a - b) % 0x1_0000_0000
  {
    var w := MinusWraps(a, b);
    Residue(a - b, Minus(Counter(a), Counter(b)), -w);
  }

  /** A task with one name is always printed, and tabled, under that name. */
  ghost predicate Named(st: Stats, name: Handle -> nat)
  {
    && (forall line <- st.lines :: line.sym == name(line.task))
    && (forall e <- st.table :: e.task != NULL ==> e.sym == name(e.task))
  }

  lemma {:induction false} VisitAllNamed(st: Stats, tasks: seq<Status>, total: u32, name: Handle -> nat)
    requires Named(st, name) && VisitAll(st, tasks, total).Some?
    requires forall s <- tasks :: s.handle != NULL && s.sym == name(s.handle)
    ensures Named(VisitAll(st, tasks, total).value, name)
  {
    if tasks != [] {
      var m := |tasks| - 1;
      VisitAllNamed(st, tasks[..m], total, name);
      VisitNamed(VisitAll(st, tasks[..m], total).value, tasks[m], total, name);
    }
  }

  lemma VisitNamed(st: Stats, s: Status, total: u32, name: Handle -> nat)
    requires Named(st, name) && Visit(st, s, total).Some? && s.handle != NULL && s.sym == name(s.handle)
    ensures Named(Visit(st, s, total).value, name)
  {
    var st', i := Visit(st, s, total).value, Lookup(st.table, s).value.1;
    if First(st.table, s.handle) < |st.table| { assert st.table[i] in st.table; }
    forall e <- st'.table
      ensures e.task != NULL ==> e.sym == name(e.task)
    {
      var j :| 0 <= j < |st'.table| && st'.table[j] == e;
      if j != i { assert st.table[j] in st.table; }
    }
  }

  lemma {:induction false} NamesNeverMixed(rounds: seq<Round>, name: Handle -> nat)
    requires KernelOk(rounds) && AllChecked(rounds)
    requires forall r <- rounds :: forall s <- r.tasks :: s.sym == name(s.handle)
    ensures Exec(rounds).Some? && Named(Exec(rounds).value, name)
  {
    TableSafety(rounds);
    if rounds != [] {
      var m := |rounds| - 1;
      KernelOkPrefix(rounds, m);
      NamesNeverMixed(rounds[..m], name);
      var r := rounds[m];
      assert r in rounds;
      forall s <- r.tasks
        ensures s.handle != NULL && s.sym == name(s.handle)
      {
        assert s.handle in Handles(r.tasks);
      }
      VisitAllNamed(Exec(rounds[..m]).value, r.tasks, Counter(r.elapsed), name);
    }
  }

  // ---- Names ----

  /** The name task h had when it was first visited. */
  function FirstName(visited: seq<Status>, h: Handle): Option<nat>
  {
    if visited == [] then None
    else
      var name, s := FirstName(visited[..|visited| - 1], h), visited[|visited| - 1];
      if name == None && s.handle == h then Some(s.sym) else name
  }

  /** All tasks visited, in order. */
  function Visited(rounds: seq<Round>): seq<Status>
  {
    if rounds == [] then [] else Visited(rounds[..|rounds| - 1]) + rounds[|rounds| - 1].tasks
  }

  /** Lines and table carry the name under which each task was first visited. */
  ghost predicate FirstNamed(st: Stats, visited: seq<Status>)
  {
    && (forall i :: 0 <= i < |st.lines| ==> FirstName(visited, st.lines[i].task) == Some(st.lines[i].sym))
    && (forall i :: 0 <= i < |st.table| && st.table[i].task != NULL ==>
          FirstName(visited, st.table[i].task) == Some(st.table[i].sym))
    && (forall h :: h != NULL && FirstName(visited, h).Some? ==> First(st.table, h) < |st.table|)
  }

  lemma FirstNamePush(visited: seq<Status>, s: Status, h: Handle)
    ensures FirstName(visited + [s], h) ==
              if FirstName(visited, h) == None && s.handle == h then Some(s.sym) else FirstName(visited, h)
  {
    assert (visited + [s])[..|visited|] == visited;
  }

  lemma VisitFirstNamed(st: Stats, s: Status, total: u32, visited: seq<Status>)
    requires FirstNamed(st, visited) && Visit(st, s, total).Some? && s.handle != NULL
    ensures FirstNamed(Visit(st, s, total).value, visited + [s])
  {
    var st' := Visit(st, s, total).value;
    var i := VisitSlot(st, s, total);
    forall h
      ensures FirstName(visited + [s], h) ==
                if FirstName(visited, h) == None && s.handle == h then Some(s.sym) else FirstName(visited, h)
    {
      FirstNamePush(visited, s, h);
    }
    forall h | h != NULL && FirstName(visited + [s], h).Some?
      ensures First(st'.table, h) < |st'.table|
    {
      var j := if h == s.handle then i else First(st.table, h);
      assert st'.table[j].task == h;
    }
  }

  /** The slot of a visited task: its own, or a free one that takes its name. */
  lemma VisitSlot(st: Stats, s: Status, total: u32) returns (i: nat)
    requires Visit(st, s, total).Some? && s.handle != NULL
    ensures var st' := Visit(st, s, total).value;
            && i < |st.table| == |st'.table| && st'.table[i].task == s.handle
            && (forall j :: 0 <= j < |st.table| && j != i ==> st'.table[j] == st.table[j])
            && st'.table[i].sym == (if First(st.table, s.handle) < |st.table| then st.table[i].sym else s.sym)
            && (st.table[i].task == s.handle <==> First(st.table, s.handle) < |st.table|)
            && (st.table[i].task == s.handle || st.table[i].task == NULL)
            && |st'.lines| == |st.lines| + 1 && st'.lines[..|st.lines|] == st.lines
            && st'.lines[|st.lines|].task == s.handle && st'.lines[|st.lines|].sym == st'.table[i].sym
  {
    i := Lookup(st.table, s).value.1;
  }

  lemma {:induction false} VisitAllFirstNamed(st: Stats, tasks: seq<Status>, total: u32, visited: seq<Status>)
    requires FirstNamed(st, visited) && VisitAll(st, tasks, total).Some? && NULL !in Handles(tasks)
    ensures FirstNamed(VisitAll(st, tasks, total).value, visited + tasks)
  {
    if tasks == [] {
      assert visited + tasks == visited;
    } else {
      var m := |tasks| - 1;
      assert tasks == tasks[..m] + [tasks[m]];
      assert Handles(tasks) == Handles(tasks[..m]) + {tasks[m].handle};
      VisitAllFirstNamed(st, tasks[..m], total, visited);
      VisitFirstNamed(VisitAll(st, tasks[..m], total).value, tasks[m], total, visited + tasks[..m]);
      assert visited + tasks == visited + tasks[..m] + [tasks[m]];
    }
  }

  /** A task is always printed under the name it had when it was first visited, also if it
      reports another one later. */
  lemma {:induction false} PrintedUnderFirstName(rounds: seq<Round>)
    requires KernelOk(rounds) && Exec(rounds).Some?
    ensures FirstNamed(Exec(rounds).value, Visited(rounds))
  {
    if rounds == [] {
      assert forall h :: FirstName([], h) == None;
    } else {
      var m := |rounds| - 1;
      KernelOkPrefix(rounds, m);
      PrintedUnderFirstName(rounds[..m]);
      RoundFirstNamed(Exec(rounds[..m]).value, rounds[m], Visited(rounds[..m]));
    }
  }

  lemma RoundFirstNamed(st: Stats, r: Round, visited: seq<Status>)
    requires FirstNamed(st, visited) && DoRound(st, r).Some? && NULL !in Handles(r.tasks)
    ensures FirstNamed(DoRound(st, r).value, visited + r.tasks)
  {
    VisitAllFirstNamed(st, r.tasks, Counter(r.elapsed), visited);
  }

  // ---- The task as written: a table of structs updated in place ----

  class StatsTask {
    const table: array<Entry>
    var lastTotal: u32
    ghost var lines: seq<Line>
    ghost var totals: seq<Sample>

    constructor ()
      ensures fresh(table) && View() == InitialStats()
    {
      table := new Entry[MAX_TASKS](_ => FREE);
      lastTotal, lines, totals := 0, [], [];
    }

    ghost function View(): Stats
      reads this, table
    {
      Stats(table[..], lastTotal, lines, totals)
    }

    /** task_state: the slot, or the table length when an assertion fails, on a name already
        registered in the free slot or on a full table. */
    method TaskState(s: Status) returns (slot: nat)
      modifies table
      ensures match Lookup(old(table[..]), s)
              case None => slot == table.Length && table[..] == old(table[..])
              case Some((t, i)) => slot == i && table[..] == t
    {
      slot := table.Length;
      for i := 0 to table.Length
        invariant slot == table.Length
        invariant forall j :: 0 <= j < i ==> table[j].task != s.handle
      {
        if table[i].task == s.handle {
          slot := i;
          FirstIs(table[..], s.handle, i);
          break;
        }
      }
      if slot == table.Length {
        FirstIs(table[..], s.handle, slot);
        for i := 0 to table.Length
          invariant slot == table.Length && table[..] == old(table[..])
          invariant forall j :: 0 <= j < i ==> table[j].task != NULL
        {
          if table[i].task == NULL {
            FirstIs(table[..], NULL, i);
            if table[i].sym != 0 { return; }
            table[i] := table[i].(sym := s.sym);
            table[i] := table[i].(task := s.handle);
            slot := i;
            return;
          }
        }
        FirstIs(table[..], NULL, slot);
      }
    }

    /** One task of a round: find its slot, print the differences, store its counter. */
    method VisitTask(s: Status, total: u32) returns (ok: bool)
      modifies this, table
      ensures match Visit(old(View()), s, total)
              case None => !ok
              case Some(st) => ok && View() == st
      ensures lastTotal == old(lastTotal)
    {
      var slot := TaskState(s);
      ok := slot != table.Length;
      if ok {
        lines := lines + [Line(s.handle, table[slot].sym,
                               Sample(Minus(Counter(s.elapsed), table[slot].last), s.elapsed),
                               Minus(total, lastTotal), total / 100 != 0 && s.recording)];
        table[slot] := table[slot].(last := Counter(s.elapsed));
      }
    }

    /** One pass of stats_task's loop; false if an assertion failed. */
    method LoopBody(r: Round) returns (ok: bool)
      modifies this, table
      ensures match DoRound(old(View()), r)
              case None => !ok
              case Some(st) => ok && View() == st
      ensures !ChecksPass(r) ==> View() == old(View())
    {
      if r.count > MAX_TASKS { return false; }
      if |r.tasks| == 0 { return false; }
      var total := Counter(r.elapsed);
      ghost var st := View();
      for i := 0 to |r.tasks|
        invariant VisitAll(st, r.tasks[..i], total) == Some(View())
      {
        VisitAllStep(st, r.tasks, i, total);
        ok := VisitTask(r.tasks[i], total);
        if !ok {
          VisitAllFails(st, r.tasks, i + 1, total);
          return;
        }
      }
      assert r.tasks[..|r.tasks|] == r.tasks;
      ok := true;
      totals := totals + [Sample(Minus(total, lastTotal), r.elapsed)];
      lastTotal := total;
    }

    /** stats_task from power-on: with handles and no deletions it goes through all rounds,
        or stops in the first round that fails a check on the number of tasks, with nothing
        of that round done. */
    method Loop(rounds: seq<Round>) returns (ok: bool)
      requires View() == InitialStats() && KernelOk(rounds)
      modifies this, table
      ensures ok <==> AllChecked(rounds)
      ensures ok ==> Exec(rounds) == Some(View())
      ensures !ok ==> exists k :: 0 <= k < |rounds| && StopsAt(rounds, k, View())
    {
      for i := 0 to |rounds|
        invariant Exec(rounds[..i]) == Some(View())
      {
        assert rounds[..i + 1][..i] == rounds[..i];
        KernelOkPrefix(rounds, i + 1);
        TableSafety(rounds[..i + 1]);
        ok := LoopBody(rounds[i]);
        if !ok {
          StopsHere(rounds, i);
          assert StopsAt(rounds, i, View());
          return;
        }
      }
      assert rounds[..|rounds|] == rounds;
      TableSafety(rounds);
      ok := true;
    }
  }

  /** All rounds before k went through, and round k fails a check, leaving st. */
  ghost predicate StopsAt(rounds: seq<Round>, k: nat, st: Stats)
    requires k < |rounds|
  {
    AllChecked(rounds[..k]) && Exec(rounds[..k]) == Some(st) && !ChecksPass(rounds[k])
  }

  lemma StopsHere(rounds: seq<Round>, k: nat)
    requires KernelOk(rounds) && k < |rounds| && Exec(rounds[..k]).Some? && Exec(rounds[..k + 1]) == None
    ensures !ChecksPass(rounds[k]) && AllChecked(rounds[..k]) && !AllChecked(rounds)
  {
    KernelOkPrefix(rounds, k);
    KernelOkPrefix(rounds, k + 1);
    TableSafety(rounds[..k]);
    TableSafety(rounds[..k + 1]);
    CheckedPush(rounds[..k], rounds[k]);
    assert rounds[..k + 1] == rounds[..k] + [rounds[k]];
  }

  lemma CheckedPush(rounds: seq<Round>, r: Round)
    ensures AllChecked(rounds + [r]) <==> AllChecked(rounds) && ChecksPass(r)
  {
    assert r in rounds + [r];
  }

  lemma VisitAllStep(st: Stats, tasks: seq<Status>, i: nat, total: u32)
    requires i < |tasks|
    ensures VisitAll(st, tasks[..i + 1], total)
            == match VisitAll(st, tasks[..i], total) case None => None case Some(u) => Visit(u, tasks[i], total)
  {
    assert tasks[..i + 1][..i] == tasks[..i];
  }

  lemma {:induction false} VisitAllFails(st: Stats, tasks: seq<Status>, n: nat, total: u32)
    requires n <= |tasks| && VisitAll(st, tasks[..n], total) == None
    ensures VisitAll(st, tasks, total) == None
  {
    if n < |tasks| {
      var m := |tasks| - 1;
      assert tasks[..m][..n] == tasks[..n];
      VisitAllFails(st, tasks[..m], n, total);
    } else {
      assert tasks[..n] == tasks;
    }
  }
}
