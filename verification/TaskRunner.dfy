/** Deadline tasks of the Flutter engine (src/embedder/flutter_engine/task_runner.rs). Times are in
    nanoseconds. */
module TaskRunner {
  import opened Options

  datatype Task = Task(id: nat, target: nat)

  const IDLE_DELAY: nat := 60_000_000_000

  /** The reversed `Ord`: `a` leaves the heap before `b`. Smaller targets first, ties by larger id. */
  predicate Before(a: Task, b: Task) {
    a.target < b.target || (a.target == b.target && a.id > b.id)
  }

  /** Some task of a non-empty heap is at its top. */
  lemma {:induction false} TopExists(tasks: multiset<Task>) returns (top: Task)
    requires tasks != multiset{}
    ensures IsTop(tasks, top)
    decreases |tasks|
  {
    var first :| first in tasks;
    var rest := tasks - multiset{first};
    top := first;
    if rest != multiset{} {
      var other := TopExists(rest);
      if Before(other, first) {
        top := other;
      }
    }
    forall t | t in tasks ensures !Before(t, top) {
      if t != first {
        assert t in rest;
      }
    }
  }

  /** Equal priority means the same target and the same id. */
  lemma TopIsUnique(tasks: multiset<Task>, a: Task, b: Task)
    requires IsTop(tasks, a) && IsTop(tasks, b)
    ensures a == b
  {
    assert !Before(a, b) && !Before(b, a);
  }

  /** The engine's clock: it never runs backwards. */
  class Clock {
    var now: nat

    method Read() returns (time: nat)
      modifies this
      ensures time == now && old(now) <= now
    {
      time :| time >= now;
      now := time;
    }
  }

  ghost predicate IsTop(tasks: multiset<Task>, top: Task) {
    top in tasks && forall t | t in tasks :: !Before(t, top)
  }

  predicate InOrder(tasks: seq<Task>) {
    forall i, j | 0 <= i < j < |tasks| :: !Before(tasks[j], tasks[i])
  }

  /** What `reschedule_timer` answers at time `now`: the gap to the earliest target. */
  ghost predicate IsDelay(tasks: multiset<Task>, now: nat, delay: nat) {
    if tasks == multiset{} then delay == IDLE_DELAY
    else exists top: Task | top in tasks ::
      && (forall t: Task | t in tasks :: top.target <= t.target)
      && delay == if top.target > now then top.target - now else 0
  }

  /** `executed` is what `execute_task` was called with, and when; `enqueued` is every task ever
      given to `enqueue_task`. Nothing decides on either. */
  class TaskRunner {
    var tasks: multiset<Task>
    var expired: seq<Task>
    var executed: seq<(Task, nat)>
    ghost var enqueued: multiset<Task>

    /** No task is lost or run twice, and none ran before its target. */
    ghost predicate Valid(clock: Clock)
      reads this, clock
    {
      && expired == []
      && enqueued == tasks + Ran(executed)
      && (forall i | 0 <= i < |executed| :: executed[i].0.target <= executed[i].1 <= clock.now)
    }

    constructor (clock: Clock)
      ensures Valid(clock) && tasks == multiset{} && executed == [] && enqueued == multiset{}
    {
      tasks, expired, executed, enqueued := multiset{}, [], [], multiset{};
    }

    method Peek() returns (top: Option<Task>)
      ensures top.None? <==> tasks == multiset{}
      ensures top.Some? ==> IsTop(tasks, top.value)
      ensures top.Some? ==> forall t | IsTop(tasks, t) :: t == top.value
    {
      if tasks == multiset{} {
        return None;
      }
      ghost var highest := TopExists(tasks);
      assert highest in tasks && forall t | t in tasks :: !Before(t, highest);
      var first :| first in tasks && forall t | t in tasks :: !Before(t, first);
      top := Some(first);
      forall t | IsTop(tasks, t) ensures t == first {
        TopIsUnique(tasks, t, first);
      }
    }

    method RescheduleTimer(clock: Clock) returns (delay: nat)
      modifies clock
      ensures old(clock.now) <= clock.now
      ensures IsDelay(tasks, clock.now, delay)
    {
      var top := Peek();
      if top.None? {
        return IDLE_DELAY;
      }
      var now := clock.Read();
      delay := if top.value.target > now then top.value.target - now else 0;
      assert forall t | t in tasks :: !Before(t, top.value) ==> top.value.target <= t.target;
    }

    method EnqueueTask(task: Task, clock: Clock) returns (delay: nat)
      requires Valid(clock)
      modifies this, clock
      ensures Valid(clock) && old(clock.now) <= clock.now
      ensures tasks == old(tasks) + multiset{task} && enqueued == old(enqueued) + multiset{task}
      ensures executed == old(executed)
      ensures IsDelay(tasks, clock.now, delay)
    {
      tasks := tasks + multiset{task};
      enqueued := enqueued + multiset{task};
      delay := RescheduleTimer(clock);
    }

    /** `checked` is the last clock reading of the pop loop. */
    method ExecuteExpiredTasks(clock: Clock) returns (delay: nat, checked: nat)
      requires Valid(clock)
      modifies this, clock
      ensures Valid(clock) && enqueued == old(enqueued)
      ensures old(clock.now) <= checked <= clock.now
      ensures |executed| >= |old(executed)| && executed[..|old(executed)|] == old(executed)
      ensures var ran := executed[|old(executed)|..];
        && old(tasks) == tasks + Ran(ran)
        && InOrder(Names(ran))
        && (forall i | 0 <= i < |ran| :: ran[i].0.target <= checked)
      ensures forall t | t in tasks :: t.target > checked
      ensures IsDelay(tasks, clock.now, delay)
    {
      checked := DrainExpired(clock);
      delay := RescheduleTimer(clock);
    }

    /** Pops every expired task and then executes them, in the order they were popped. */
    method DrainExpired(clock: Clock) returns (checked: nat)
      requires Valid(clock)
      modifies this, clock
      ensures Valid(clock) && enqueued == old(enqueued)
      ensures old(clock.now) <= checked <= clock.now
      ensures |executed| >= |old(executed)| && executed[..|old(executed)|] == old(executed)
      ensures var ran := executed[|old(executed)|..];
        && old(tasks) == tasks + Ran(ran)
        && InOrder(Names(ran))
        && (forall i | 0 <= i < |ran| :: ran[i].0.target <= checked)
      ensures forall t | t in tasks :: t.target > checked
    {
      checked := PopExpired(clock);
      ghost var popped := expired;
      RunExpired(clock);
      ghost var ran := executed[|old(executed)|..];
      assert Names(ran) == popped;
      forall i | 0 <= i < |ran| ensures ran[i].0.target <= checked {
        assert Names(ran)[i] == ran[i].0;
      }
    }

    /** The loop that moves every expired task from the heap to `expired`. */
    method PopExpired(clock: Clock) returns (checked: nat)
      requires expired == []
      modifies this`tasks, this`expired, clock
      ensures old(clock.now) <= checked == clock.now
      ensures old(tasks) == tasks + multiset(expired)
      ensures InOrder(expired)
      ensures forall i | 0 <= i < |expired| :: expired[i].target <= checked
      ensures forall t | t in tasks :: t.target > checked
    {
      checked := clock.now;
      assert Drained(expired, tasks, old(tasks), checked);
      var top := Peek();
      while top.Some?
        invariant top.None? <==> tasks == multiset{}
        invariant top.Some? ==> IsTop(tasks, top.value)
        invariant Drained(expired, tasks, old(tasks), checked)
        invariant old(clock.now) <= checked == clock.now
        decreases |tasks|
      {
        checked := clock.Read();
        if top.value.target > checked {
          break;
        }
        PopTop(top.value, old(tasks), checked);
        top := Peek();
      }
    }

    /** `self.expired_tasks.push(tasks.pop().unwrap())`. */
    method PopTop(top: Task, ghost start: multiset<Task>, ghost checked: nat)
      requires IsTop(tasks, top) && top.target <= checked
      requires Drained(expired, tasks, start, checked)
      modifies this`tasks, this`expired
      ensures |tasks| == |old(tasks)| - 1
      ensures Drained(expired, tasks, start, checked)
    {
      PopKeepsOrder(expired, tasks, top);
      tasks := tasks - multiset{top};
      expired := expired + [top];
    }

    /** `drain(..)`, executing each expired task in turn. */
    method RunExpired(clock: Clock)
      requires forall i | 0 <= i < |expired| :: expired[i].target <= clock.now
      requires forall i | 0 <= i < |executed| :: executed[i].0.target <= executed[i].1 <= clock.now
      modifies this`expired, this`executed
      ensures expired == []
      ensures |executed| == |old(executed)| + |old(expired)| && executed[..|old(executed)|] == old(executed)
      ensures Names(executed[|old(executed)|..]) == old(expired)
      ensures Ran(executed) == Ran(old(executed)) + multiset(old(expired))
      ensures Ran(executed[|old(executed)|..]) == multiset(old(expired))
      ensures forall i | 0 <= i < |executed| :: executed[i].0.target <= executed[i].1 <= clock.now
    {
      ghost var n := |executed|;
      ghost var all := expired;
      ghost var done := 0;
      while expired != []
        invariant 0 <= done <= |all| && expired == all[done..]
        invariant |executed| == n + done && executed[..n] == old(executed)
        invariant forall i | 0 <= i < done :: executed[n + i].0 == all[i]
        invariant forall i | 0 <= i < |executed| :: executed[i].0.target <= executed[i].1 <= clock.now
        decreases |expired|
      {
        executed := executed + [(expired[0], clock.now)];
        expired := expired[1..];
        done := done + 1;
      }
      assert Names(executed[n..]) == all;
      RanAppend(executed[..n], executed[n..]);
      assert executed == executed[..n] + executed[n..];
    }
  }

  function Names(runs: seq<(Task, nat)>): seq<Task> {
    seq(|runs|, i requires 0 <= i < |runs| => runs[i].0)
  }

  /** The tasks of a series of executions. */
  function Ran(runs: seq<(Task, nat)>): multiset<Task> {
    multiset(Names(runs))
  }

  lemma RanAppend(a: seq<(Task, nat)>, b: seq<(Task, nat)>)
    ensures Ran(a + b) == Ran(a) + Ran(b)
  {
    assert Names(a + b) == Names(a) + Names(b);
  }

  /** `popped` left the heap `start` in order, all due at `checked`, and `tasks` is what is left. */
  ghost predicate Drained(popped: seq<Task>, tasks: multiset<Task>, start: multiset<Task>, checked: nat) {
    && start == tasks + multiset(popped)
    && InOrder(popped)
    && (forall i, t | 0 <= i < |popped| && t in tasks :: !Before(t, popped[i]))
    && (forall i | 0 <= i < |popped| :: popped[i].target <= checked)
  }

  /** The task at the top of the heap goes behind everything that was popped before it. */
  lemma {:induction false} PopKeepsOrder(popped: seq<Task>, tasks: multiset<Task>, top: Task)
    requires InOrder(popped) && IsTop(tasks, top)
    requires forall i, t | 0 <= i < |popped| && t in tasks :: !Before(t, popped[i])
    ensures InOrder(popped + [top])
    ensures forall i, t | 0 <= i < |popped + [top]| && t in tasks - multiset{top} :: !Before(t, (popped + [top])[i])
    ensures multiset(popped + [top]) + (tasks - multiset{top}) == multiset(popped) + tasks
  {
    forall i, t | 0 <= i < |popped + [top]| && t in tasks - multiset{top} ensures !Before(t, (popped + [top])[i]) {
      assert t in tasks;
    }
  }

  /** The delay reaches the first target and passes none: waiting for it, no task is late and at least
      one is due. Without a task it is a minute. */
  lemma DelayReachesFirst(tasks: multiset<Task>, now: nat, delay: nat)
    requires IsDelay(tasks, now, delay)
    ensures tasks == multiset{} ==> delay == 60_000_000_000
    ensures delay > 0 ==> forall t: Task | t in tasks :: t.target >= now + delay
    ensures tasks != multiset{} ==> exists t: Task :: t in tasks && t.target <= now + delay
  {
  }
}
