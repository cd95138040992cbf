/**
  The task scheduler (src/lib/scheduler.ts). A tick reads the clock once and then visits the
  tasks in order, awaiting each task it runs; the interval timer starts further ticks meanwhile,
  so ticks overlap and resume with stale clocks.
 */
module Scheduler {
  import opened Options

  const HOUR_MS := 60 * 60 * 1000
  const DAILY_MS := 24 * HOUR_MS

  // ---- Daily tasks ------------------------------------------------------------

  /** getNextDailyMs: from `now` (epoch milliseconds) to the next `hour` o'clock UTC. */
  function NextDailyMs(now: int, hour: int): (wait: int)
    requires 0 <= hour < 24
    ensures 0 < wait <= DAILY_MS
    ensures (now + wait) % DAILY_MS == hour * HOUR_MS
  {
    var next := now - now % DAILY_MS + hour * HOUR_MS;
    var due := if next <= now then next + DAILY_MS else next;
    due - now
  }

  /** It is the first such moment: no earlier one lies strictly after `now`. */
  lemma NextDailyIsFirst(now: int, hour: int, t: int)
    requires 0 <= hour < 24
    requires now < t && t % DAILY_MS == hour * HOUR_MS
    ensures now + NextDailyMs(now, hour) <= t
  {
    var a, b := t / DAILY_MS, (now + NextDailyMs(now, hour)) / DAILY_MS;
    assert t == a * DAILY_MS + hour * HOUR_MS;
    assert now + NextDailyMs(now, hour) == b * DAILY_MS + hour * HOUR_MS;
    assert NextDailyMs(now, hour) <= DAILY_MS;
    assert a >= b;
  }

  // ---- State ------------------------------------------------------------------

  datatype Task = Task(intervalMs: nat, lastRun: Option<int>, nextRun: int, running: bool)

  /** A tick: the clock it read, how many tasks it has visited, the task it is awaiting. */
  datatype Tick = Tick(now: int, visited: nat, awaiting: bool)

  /** A task start: by which tick, with which stamp, and when it really happened. */
  datatype Start = Start(task: string, tick: nat, stamp: int, at: int)

  datatype State = State(
    clock: int, order: seq<string>, tasks: map<string, Task>, ticks: seq<Tick>, starts: seq<Start>)

  datatype Event =
    | BeginTick(now: int)
    | Visit(tick: nat, now: int, settingEnabled: bool)   // reach the next task, possibly start it
    | Return(tick: nat, now: int)                        // the awaited task settles, either way

  predicate WellFormed(s: State) {
    && (forall t | t in s.order :: t in s.tasks)
    && forall i, j | 0 <= i < j < |s.order| :: s.order[i] != s.order[j]
  }

  predicate Initial(s: State) {
    && WellFormed(s) && s.ticks == [] && s.starts == []
    && forall t | t in s.tasks :: !s.tasks[t].running && s.tasks[t].lastRun.None?
  }

  // ---- Steps ------------------------------------------------------------------

  predicate Enabled(s: State, e: Event) {
    match e
    case BeginTick(now) => s.clock <= now
    case Visit(k, now, _) =>
      s.clock <= now && k < |s.ticks| && !s.ticks[k].awaiting && s.ticks[k].visited < |s.order|
      && s.order[s.ticks[k].visited] in s.tasks
    case Return(k, now) =>
      s.clock <= now && k < |s.ticks| && s.ticks[k].awaiting && s.ticks[k].visited < |s.order|
      && s.order[s.ticks[k].visited] in s.tasks
  }

  function Current(s: State, k: nat): string
    requires k < |s.ticks| && s.ticks[k].visited < |s.order|
  {
    s.order[s.ticks[k].visited]
  }

  predicate Runs(s: State, k: nat, settingEnabled: bool)
    requires k < |s.ticks| && s.ticks[k].visited < |s.order| && Current(s, k) in s.tasks
  {
    var task := s.tasks[Current(s, k)];
    !task.running && task.nextRun <= s.ticks[k].now && settingEnabled
  }

  function Step(s: State, e: Event): State {
    if !Enabled(s, e) then s else
    match e
    case BeginTick(now) => s.(clock := now, ticks := s.ticks + [Tick(now, 0, false)])
    case Visit(k, now, settingEnabled) =>
      var tick, id := s.ticks[k], Current(s, k);
      if Runs(s, k, settingEnabled) then
        s.(clock := now,
           tasks := s.tasks[id := s.tasks[id].(running := true)],
           ticks := s.ticks[k := tick.(awaiting := true)],
           starts := s.starts + [Start(id, k, tick.now, now)])
      else
        s.(clock := now, ticks := s.ticks[k := tick.(visited := tick.visited + 1)])
    case Return(k, now) =>
      var tick, id := s.ticks[k], Current(s, k);
      var task := s.tasks[id];
      s.(clock := now,
         tasks := s.tasks[id :=
           task.(running := false, lastRun := Some(tick.now), nextRun := tick.now + task.intervalMs)],
         ticks := s.ticks[k := Tick(tick.now, tick.visited + 1, false)])
  }

  function Run(s: State, es: seq<Event>): State
    decreases |es|
  {
    if es == [] then s else Run(Step(s, es[0]), es[1..])
  }

  // ---- What each step does ----------------------------------------------------

  predicate OtherTicksKept(s: State, s': State, k: nat) {
    |s'.ticks| == |s.ticks| && forall j | 0 <= j < |s.ticks| && j != k :: s'.ticks[j] == s.ticks[j]
  }

  /**
    A tick starts the task it comes to exactly when it is idle, due by the tick's own clock and
    switched on; any other task it passes over without touching it.
   */
  lemma VisitExactly(s: State, k: nat, now: int, settingEnabled: bool)
    requires s.clock <= now && k < |s.ticks| && !s.ticks[k].awaiting && s.ticks[k].visited < |s.order|
    requires s.order[s.ticks[k].visited] in s.tasks
    ensures var s', tick := Step(s, Visit(k, now, settingEnabled)), s.ticks[k];
            var id := s.order[tick.visited];
            && OtherTicksKept(s, s', k) && s'.order == s.order && s'.clock == now && s'.ticks[k].now == tick.now
            && if settingEnabled && !s.tasks[id].running && tick.now >= s.tasks[id].nextRun then
                 && s'.starts == s.starts + [Start(id, k, tick.now, now)]
                 && s'.tasks == s.tasks[id := s.tasks[id].(running := true)]
                 && s'.ticks[k].awaiting && s'.ticks[k].visited == tick.visited
               else
                 && s'.starts == s.starts && s'.tasks == s.tasks
                 && !s'.ticks[k].awaiting && s'.ticks[k].visited == tick.visited + 1
  {
  }

  /** When the awaited task settles it is idle again, due an interval after the tick's clock reading. */
  lemma ReturnExactly(s: State, k: nat, now: int)
    requires s.clock <= now && k < |s.ticks| && s.ticks[k].awaiting && s.ticks[k].visited < |s.order|
    requires s.order[s.ticks[k].visited] in s.tasks
    ensures var s', tick := Step(s, Return(k, now)), s.ticks[k];
            var id := s.order[tick.visited];
            && OtherTicksKept(s, s', k) && s'.order == s.order && s'.clock == now && s'.starts == s.starts
            && s'.ticks[k] == Tick(tick.now, tick.visited + 1, false)
            && s'.tasks.Keys == s.tasks.Keys && (forall t | t in s.tasks && t != id :: s'.tasks[t] == s.tasks[t])
            && !s'.tasks[id].running && s'.tasks[id].intervalMs == s.tasks[id].intervalMs
            && s'.tasks[id].lastRun == Some(tick.now) && s'.tasks[id].nextRun == tick.now + s.tasks[id].intervalMs
  {
  }

  /** Whenever the run comes to the task, its setting is off. */
  predicate OffThroughout(s: State, es: seq<Event>, id: string)
    decreases |es|
  {
    es != [] ==>
      && (es[0].Visit? && Enabled(s, es[0]) && s.order[s.ticks[es[0].tick].visited] == id ==> !es[0].settingEnabled)
      && OffThroughout(Step(s, es[0]), es[1..], id)
  }

  /** A task whose setting stays off never starts, however due it is. */
  lemma {:induction false} SwitchedOffNeverStarts(s: State, es: seq<Event>, id: string)
    requires OffThroughout(s, es, id)
    ensures var before, after := s.starts, Run(s, es).starts;
            before <= after && forall i | |before| <= i < |after| :: after[i].task != id
    decreases |es|
  {
    if es != [] {
      var e := es[0];
      if Enabled(s, e) && e.Visit? {
        VisitExactly(s, e.tick, e.now, e.settingEnabled);
      }
      SwitchedOffNeverStarts(Step(s, e), es[1..], id);
    }
  }

  // ---- Invariant --------------------------------------------------------------

  /** Tick k is inside task `id`. */
  predicate Inside(s: State, k: nat, id: string) {
    k < |s.ticks| && s.ticks[k].awaiting && s.ticks[k].visited < |s.order| && s.order[s.ticks[k].visited] == id
  }

  function Latest(starts: seq<Start>, id: string): Option<Start> {
    if starts == [] then None
    else if starts[|starts| - 1].task == id then Some(starts[|starts| - 1])
    else Latest(starts[..|starts| - 1], id)
  }

  /** A running task has its one tick inside, stamped like its latest start; an idle one has none. */
  ghost predicate TaskOk(s: State, id: string)
    requires id in s.tasks
  {
    var task := s.tasks[id];
    && (task.running ==> exists k: nat :: Inside(s, k, id))
    && (forall k: nat | Inside(s, k, id) ::
          task.running && Latest(s.starts, id).Some?
          && Latest(s.starts, id).value.stamp == s.ticks[k].now && Latest(s.starts, id).value.tick == k)
    && (!task.running ==>
          match Latest(s.starts, id)
          case None => task.lastRun.None?
          case Some(start) => task.lastRun == Some(start.stamp) && task.nextRun == start.stamp + task.intervalMs)
  }

  /** Two starts of one task, the earlier at least an interval before the later. */
  predicate Spaced(s: State) {
    forall i, j | 0 <= i < j < |s.starts| && s.starts[i].task == s.starts[j].task ::
      s.starts[i].task in s.tasks && s.starts[i].stamp + s.tasks[s.starts[i].task].intervalMs <= s.starts[j].stamp
  }

  /** No tick reads the future, and none starts a task before the instant it read. */
  predicate Punctual(s: State) {
    && (forall k | 0 <= k < |s.ticks| :: s.ticks[k].now <= s.clock)
    && forall i | 0 <= i < |s.starts| :: s.starts[i].stamp <= s.starts[i].at <= s.clock
  }

  ghost predicate Inv(s: State) {
    && WellFormed(s) && Punctual(s)
    && (forall id | id in s.tasks :: TaskOk(s, id))
    && Spaced(s)
  }

  lemma LatestAppend(starts: seq<Start>, start: Start, id: string)
    ensures Latest(starts + [start], id) == if start.task == id then Some(start) else Latest(starts, id)
  {
    assert (starts + [start])[..|starts|] == starts;
  }

  /** Every earlier start of a task is stamped no later than its latest one. */
  lemma {:induction false} LatestIsLast(s: State, starts: seq<Start>, id: string)
    requires Spaced(s) && starts <= s.starts && id in s.tasks
    ensures forall i | 0 <= i < |starts| && starts[i].task == id ::
              Latest(starts, id).Some? && starts[i].stamp <= Latest(starts, id).value.stamp
    decreases |starts|
  {
    if starts != [] {
      var n := |starts| - 1;
      if starts[n].task == id {
        forall i | 0 <= i < n && starts[i].task == id ensures starts[i].stamp <= starts[n].stamp {
          assert s.starts[i] == starts[i] && s.starts[n] == starts[n];
        }
      } else {
        LatestIsLast(s, starts[..n], id);
      }
    }
  }

  lemma StartKeepsSpacing(s: State, k: nat, now: int)
    requires Inv(s) && Enabled(s, Visit(k, now, true)) && Runs(s, k, true)
    ensures Spaced(Step(s, Visit(k, now, true)))
  {
    hide Latest;
    var id := Current(s, k);
    assert TaskOk(s, id);
    LatestIsLast(s, s.starts, id);
  }

  lemma StepKeepsTask(s: State, e: Event, id: string)
    requires Inv(s) && id in s.tasks && Enabled(s, e)
    ensures id in Step(s, e).tasks && TaskOk(Step(s, e), id)
  {
    hide Latest, Spaced;
    var s' := Step(s, e);
    assert TaskOk(s, id);
    if e.BeginTick? {
      if k: nat :| Inside(s, k, id) {
        assert Inside(s', k, id);
      }
      assert forall k: nat | Inside(s', k, id) :: Inside(s, k, id);
    } else {
      var current := Current(s, e.tick);
      assert TaskOk(s, current);
      forall k: nat | k != e.tick ensures Inside(s', k, id) == Inside(s, k, id) {}
      if e.Visit? && Runs(s, e.tick, e.settingEnabled) {
        LatestAppend(s.starts, Start(current, e.tick, s.ticks[e.tick].now, e.now), id);
        if id == current {
          assert Inside(s', e.tick, id);
        }
      } else if e.Return? {
        assert Inside(s, e.tick, current);
      }
      if k: nat :| Inside(s, k, id) && k != e.tick {
        assert Inside(s', k, id);
      }
    }
  }

  lemma StepKeepsInv(s: State, e: Event)
    requires Inv(s)
    ensures Inv(Step(s, e))
  {
    hide Latest, TaskOk;
    if Enabled(s, e) {
      forall id | id in Step(s, e).tasks ensures TaskOk(Step(s, e), id) {
        StepKeepsTask(s, e, id);
      }
      if e.Visit? && Runs(s, e.tick, e.settingEnabled) {
        StartKeepsSpacing(s, e.tick, e.now);
      }
    }
  }

  lemma InitialInv(s: State)
    requires Initial(s)
    ensures Inv(s)
  {
    forall id | id in s.tasks ensures TaskOk(s, id) {
      assert forall k: nat :: !Inside(s, k, id);
    }
  }

  lemma {:induction false} RunKeepsInv(s: State, es: seq<Event>)
    requires Inv(s)
    ensures Inv(Run(s, es))
    decreases |es|
  {
    if es != [] {
      StepKeepsInv(s, es[0]);
      RunKeepsInv(Step(s, es[0]), es[1..]);
    }
  }

  // ---- Results over whole runs ------------------------------------------------

  /** However ticks overlap, no two of them are ever inside the same task. */
  lemma OneTickPerTask(s: State, es: seq<Event>, k1: nat, k2: nat, id: string)
    requires Initial(s)
    requires Inside(Run(s, es), k1, id) && Inside(Run(s, es), k2, id)
    ensures k1 == k2
  {
    InitialInv(s);
    RunKeepsInv(s, es);
    var s' := Run(s, es);
    assert TaskOk(s', id);
  }

  /** The stamps of one task's starts are at least an interval apart, whatever clocks the ticks held. */
  lemma StampsSpaced(s: State, es: seq<Event>, i: nat, j: nat)
    requires Initial(s)
    requires var r := Run(s, es).starts; i < j < |r| && r[i].task == r[j].task
    ensures var s' := Run(s, es);
            s'.starts[i].task in s'.tasks
            && s'.starts[i].stamp + s'.tasks[s'.starts[i].task].intervalMs <= s'.starts[j].stamp
  {
    InitialInv(s);
    RunKeepsInv(s, es);
  }

  /**
    A start never precedes its stamp, so the real starts of one task fall short of its interval by
    at most the earlier tick's delay, from reading the clock to reaching the task.
   */
  lemma StartsSpaced(s: State, es: seq<Event>, i: nat, j: nat)
    requires Initial(s)
    requires var r := Run(s, es).starts; i < j < |r| && r[i].task == r[j].task
    ensures var s' := Run(s, es); var a, b := s'.starts[i], s'.starts[j];
            && a.stamp <= a.at && b.stamp <= b.at && a.task in s'.tasks
            && b.at >= a.stamp + s'.tasks[a.task].intervalMs
            && s'.tasks[a.task].intervalMs - (b.at - a.at) <= a.at - a.stamp
  {
    StampsSpaced(s, es, i, j);
    InitialInv(s);
    RunKeepsInv(s, es);
  }

  /** A table of two tasks, visited in this order. */
  function Pair(clock: int, a: Task, b: Task, ticks: seq<Tick>, starts: seq<Start>): State {
    State(clock, ["first", "second"], map["first" := a, "second" := b], ticks, starts)
  }

  /** Two tasks that never ran. */
  function Fresh(intervalMs: nat): State {
    Pair(0, Task(intervalMs + 1, None, 0, false), Task(intervalMs, None, 0, false), [], [])
  }

  /** A tick at 0 whose first task takes `delay`. */
  function SlowTick(delay: nat): seq<Event> {
    [BeginTick(0), Visit(0, 0, true), Return(0, delay), Visit(0, delay, true), Return(0, delay)]
  }

  /** Another tick an interval later. */
  function PromptTick(intervalMs: nat): seq<Event> {
    [BeginTick(intervalMs), Visit(1, intervalMs, true), Visit(1, intervalMs, true)]
  }

  function AfterSlowTick(intervalMs: nat, delay: nat): State {
    Pair(delay, Task(intervalMs + 1, Some(0), intervalMs + 1, false), Task(intervalMs, Some(0), intervalMs, false),
         [Tick(0, 2, false)], [Start("first", 0, 0, 0), Start("second", 0, 0, delay)])
  }

  /** The shortfall is real: any delay up to the interval can bring two starts that much closer together. */
  lemma StartsCanCrowd(intervalMs: nat, delay: nat)
    requires delay <= intervalMs
    ensures Initial(Fresh(intervalMs))
    ensures Run(Fresh(intervalMs), SlowTick(delay) + PromptTick(intervalMs)).starts ==
            [Start("first", 0, 0, 0), Start("second", 0, 0, delay), Start("second", 1, intervalMs, intervalMs)]
  {
    hide Run, Step;
    RunConcat(Fresh(intervalMs), SlowTick(delay), PromptTick(intervalMs));
    SlowTickRun(intervalMs, delay);
    PromptTickRun(intervalMs, delay);
  }

  lemma SlowTickRun(intervalMs: nat, delay: nat)
    ensures Run(Fresh(intervalMs), SlowTick(delay)) == AfterSlowTick(intervalMs, delay)
  {
    hide Run;
    var es, s := SlowTick(delay), Fresh(intervalMs);
    var a, b := s.tasks["first"], s.tasks["second"];
    var ranA := AfterSlowTick(intervalMs, delay).tasks["first"];
    var one, two := Start("first", 0, 0, 0), Start("second", 0, 0, delay);
    var s1 := Pair(0, a, b, [Tick(0, 0, false)], []);
    var s2 := Pair(0, a.(running := true), b, [Tick(0, 0, true)], [one]);
    var s3 := Pair(delay, ranA, b, [Tick(0, 1, false)], [one]);
    var s4 := Pair(delay, ranA, b.(running := true), [Tick(0, 1, true)], [one, two]);
    assert Step(s, es[0]) == s1;
    assert Step(s1, es[1]) == s2;
    assert Step(s2, es[2]) == s3;
    assert Step(s3, es[3]) == s4;
    assert Step(s4, es[4]) == AfterSlowTick(intervalMs, delay);
    RunNext(s, es, 0);
    RunNext(s1, es, 1);
    RunNext(s2, es, 2);
    RunNext(s3, es, 3);
    RunNext(s4, es, 4);
    assert es[0..] == es;
  }

  lemma PromptTickRun(intervalMs: nat, delay: nat)
    requires delay <= intervalMs
    ensures Run(AfterSlowTick(intervalMs, delay), PromptTick(intervalMs)).starts ==
            AfterSlowTick(intervalMs, delay).starts + [Start("second", 1, intervalMs, intervalMs)]
  {
    hide Run;
    var es, s := PromptTick(intervalMs), AfterSlowTick(intervalMs, delay);
    var s1 := s.(clock := intervalMs, ticks := [Tick(0, 2, false), Tick(intervalMs, 0, false)]);
    var s2 := s1.(ticks := [Tick(0, 2, false), Tick(intervalMs, 1, false)]);
    assert Step(s, es[0]) == s1;
    assert Step(s1, es[1]) == s2;
    RunNext(s, es, 0);
    RunNext(s1, es, 1);
    RunNext(s2, es, 2);
    assert es[0..] == es;
  }

  lemma RunNext(s: State, es: seq<Event>, k: nat)
    requires k < |es|
    ensures Run(s, es[k..]) == Run(Step(s, es[k]), es[k + 1..])
    ensures k + 1 == |es| ==> Run(s, es[k..]) == Step(s, es[k])
  {
    assert es[k..][1..] == es[k + 1..];
  }

  lemma {:induction false} RunConcat(s: State, a: seq<Event>, b: seq<Event>)
    ensures Run(s, a + b) == Run(Run(s, a), b)
    decreases |a|
  {
    if a == [] {
      assert a + b == b;
    } else {
      assert (a + b)[1..] == a[1..] + b;
      RunConcat(Step(s, a[0]), a[1..], b);
    }
  }

  /** When a task ends it carries the stamp of its latest start and is next due an interval later. */
  lemma LastRunIsLatestStart(s: State, es: seq<Event>, id: string)
    requires Initial(s) && id in Run(s, es).tasks && !Run(s, es).tasks[id].running
    ensures var s' := Run(s, es); var task := s'.tasks[id];
            match Latest(s'.starts, id)
            case None => task.lastRun.None?
            case Some(start) => task.lastRun == Some(start.stamp) && task.nextRun == start.stamp + task.intervalMs
  {
    InitialInv(s);
    RunKeepsInv(s, es);
    assert TaskOk(Run(s, es), id);
  }

  // ---- The task table, updated in place ---------------------------------------

  class TaskTable {
    const order: seq<string>
    var tasks: map<string, Task>
    var ticks: seq<Tick>
    ghost var clock: int
    ghost var starts: seq<Start>

    ghost function Snapshot(): State
      reads this
    {
      State(clock, order, tasks, ticks, starts)
    }

    constructor (order: seq<string>, tasks: map<string, Task>, now: int)
      ensures Snapshot() == State(now, order, tasks, [], [])
    {
      this.order, this.tasks, ticks := order, tasks, [];
      clock, starts := now, [];
    }

    /** One iteration of the tick's loop, up to the await. */
    method VisitNext(k: nat, now: int, settingEnabled: bool) returns (started: bool)
      requires Enabled(Snapshot(), Visit(k, now, settingEnabled))
      modifies this
      ensures Snapshot() == Step(old(Snapshot()), Visit(k, now, settingEnabled))
      ensures started == Runs(old(Snapshot()), k, settingEnabled)
    {
      var id := order[ticks[k].visited];
      var task := tasks[id];
      clock := now;
      if task.running || ticks[k].now < task.nextRun || !settingEnabled {
        ticks := ticks[k := ticks[k].(visited := ticks[k].visited + 1)];
        return false;
      }
      tasks := tasks[id := task.(running := true)];
      ticks := ticks[k := ticks[k].(awaiting := true)];
      starts := starts + [Start(id, k, ticks[k].now, now)];
      return true;
    }

    /** The finally block of the tick. */
    method FinishTask(k: nat, now: int)
      requires Enabled(Snapshot(), Return(k, now))
      modifies this
      ensures Snapshot() == Step(old(Snapshot()), Return(k, now))
    {
      var id := order[ticks[k].visited];
      var task := tasks[id];
      task := task.(running := false);
      task := task.(lastRun := Some(ticks[k].now));
      task := task.(nextRun := ticks[k].now + task.intervalMs);
      tasks := tasks[id := task];
      ticks := ticks[k := Tick(ticks[k].now, ticks[k].visited + 1, false)];
      clock := now;
    }
  }
}
