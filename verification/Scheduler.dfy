/**
 The scheduler calls as the kernel performs them, on the table of ready lists. Each
 method is one interrupt-disabled section, proved to be the step of `SchedulerSpec`
 it stands for.
 */
module Scheduler {
  import opened SchedulerSpec
  import opened SchedulerTurns
  import opened ReadyBitmap
  import opened WaitList

  class Scheduler {
    const table: array<seq<Tid>>
    var threads: map<Tid, Thread>
    var ready: Bitmap
    var current: Current
    var lock: nat

    ghost function View(): (s: Sched)
      reads this, table
    {
      Sched(threads, table[..], ready, current, lock)
    }

    ghost predicate Invariant()
      reads this, table
    {
      Inv(View())
    }

    /** rt_system_scheduler_init, in the build that fits the number of priorities. */
    constructor (priorities: nat, threads: map<Tid, Thread>)
      requires priorities <= 256
      requires forall t :: t in threads ==> threads[t].prio < priorities && threads[t].stat.Init?
      ensures Boot(View()) && Invariant() && table.Length == priorities && this.threads == threads
    {
      table := new seq<Tid>[priorities](_ => []);
      this.threads := threads;
      ready := if priorities > 32 then TwoLevel(0, seq(32, _ => 0)) else OneLevel(0);
      current, lock := Nobody, 0;
      new;
      EmptyBitmap(ready);
      BootInv(View());
    }

    /** rt_schedule_insert_thread. */
    method InsertThread(t: Tid)
      requires Typed(View()) && t in threads
      modifies this`threads, this`ready, table
      ensures View() == Insert(old(View()), t)
    {
      var th := threads[t];
      if current == Now(t) {
        threads := threads[t := th.(stat := Running)];
        return;
      }
      threads := threads[t := th.(stat := Ready)];
      table[th.prio] := if th.spent then table[th.prio] + [t] else [t] + table[th.prio];
      ready := Mark(ready, th.prio);
      assert table[..] == old(table[..])[th.prio := table[th.prio]];
    }

    /** rt_schedule_remove_thread. */
    method RemoveThread(t: Tid)
      requires Typed(View()) && t in threads
      modifies this`ready, table
      ensures View() == Remove(old(View()), t)
    {
      var p := threads[t].prio;
      table[p] := Without(table[p], t);
      if table[p] == [] {
        ready := Unmark(ready, p);
      }
      assert table[..] == old(table[..])[p := table[p]];
    }

    method SetThread(t: Tid, th: Thread)
      modifies this`threads
      ensures View() == WithThread(old(View()), t, th)
    {
      threads := threads[t := th];
    }

    method TakeOut(t: Tid, stat: Stat)
      requires Typed(View()) && t in threads
      modifies this`threads, this`ready, table
      ensures View() == Out(old(View()), t, stat)
    {
      RemoveThread(t);
      SetThread(t, threads[t].(stat := stat));
    }

    /** _scheduler_get_highest_priority_thread. */
    method HighestPriorityThread() returns (t: Tid, prio: nat)
      requires Queues(View()) && ready.group != 0
      ensures t == Front(View()) && prio == Top(View())
      ensures forall u :: u in threads && threads[u].stat.Ready? ==> prio <= threads[u].prio
    {
      HighestIsMostUrgent(ready);
      prio := Lookup();
      t := table[prio][0];
      forall u | u in threads && threads[u].stat.Ready? ensures prio <= threads[u].prio {
        TopIsLeast(View(), u);
      }
    }

    /** The two builds of the bitmap lookup. */
    method Lookup() returns (prio: nat)
      requires Queues(View()) && ready.group != 0
      ensures prio == Top(View())
    {
      WordSizes();
      HighestIsMostUrgent(ready);
      match ready {
        case OneLevel(group) =>
          prio := FindFirstSet.FfsByBytes(group) - 1;
        case TwoLevel(group, rows) =>
          FfsBound(group);
          var number := FindFirstSet.FfsByBytes(group) - 1;
          prio := 8 * number + FindFirstSet.FfsByBytes(rows[number]) - 1;
      }
    }

    /** The tests of rt_schedule: who is to run, and whether the current thread goes back to a list. */
    method Choose() returns (to: Tid, insert: bool)
      requires Queues(View()) && current.Now? && ready.group != 0
      ensures to == if Stays(View(), Top(View())) then current.t else Front(View())
      ensures insert == (threads[current.t].stat.Running? && !Stays(View(), Top(View())))
    {
      var top;
      to, top := HighestPriorityThread();
      insert := false;
      var cur := threads[current.t];
      if cur.stat.Running? {
        if cur.prio < top {
          to := current.t;
        } else if cur.prio == top && !cur.spent {
          to := current.t;
        } else {
          insert := true;
        }
      }
    }

    method ClearSpent()
      requires current.Now? && current.t in threads
      modifies this`threads
      ensures View() == Unflagged(old(View()))
    {
      if threads[current.t].stat.Running? {
        SetThread(current.t, threads[current.t].(spent := false));
      }
    }

    method SwitchTo(to: Tid, insert: bool)
      requires Typed(View()) && current.Now? && to in threads && insert == threads[current.t].stat.Running?
      modifies this`threads, this`ready, this`current, table
      ensures View() == Switch(old(View()), to)
    {
      var from := current.t;
      SetCurrent(to);
      if insert {
        InsertThread(from);
      }
      TakeOut(to, Running);
    }

    method SetCurrent(to: Tid)
      modifies this`current
      ensures View() == old(View()).(current := Now(to))
    {
      current := Now(to);
    }

    /** rt_schedule. */
    method Schedule()
      requires Invariant() && current.Now?
      modifies this`threads, this`ready, this`current, table
      ensures View() == SchedulerSpec.Schedule(old(View())) && Invariant()
      ensures Reschedules(old(View()), View())
    {
      ScheduleMeans(View());
      ScheduleKeeps(View());
      if lock == 0 && ready.group != 0 {
        UnflaggedKeeps(View());
        Dispatch();
      }
    }

    method Dispatch()
      requires Queues(View()) && current.Now? && ready.group != 0 && lock == 0
      modifies this`threads, this`ready, this`current, table
      ensures View() == SchedulerSpec.Schedule(old(View()))
    {
      var to, insert := Choose();
      var stays := to == current.t;
      ClearSpent();
      if stays {
        TakeOut(to, Running);
      } else {
        SwitchTo(to, insert);
      }
    }

    /** rt_thread_startup up to its call of the scheduler. */
    method Startup(t: Tid)
      requires Invariant() && t in threads && threads[t].stat.Init?
      modifies this`threads, this`ready, table
      ensures View() == Step(old(View()), SchedulerSpec.Startup(t)) && Invariant()
      ensures Does(old(View()), SchedulerSpec.Startup(t), View())
    {
      StepMeans(View(), SchedulerSpec.Startup(t));
      StepKeeps(View(), SchedulerSpec.Startup(t));
      SetThread(t, threads[t].(stat := Suspended, spent := false));
      InsertThread(t);
    }

    /** rt_system_scheduler_start. */
    method Start()
      requires Invariant() && current == Nobody && ready.group != 0
      modifies this`threads, this`ready, this`current, table
      ensures View() == Step(old(View()), SchedulerSpec.Start) && Invariant()
      ensures Does(old(View()), SchedulerSpec.Start, View())
    {
      StepMeans(View(), SchedulerSpec.Start);
      StepKeeps(View(), SchedulerSpec.Start);
      var to, _ := HighestPriorityThread();
      SetCurrent(to);
      TakeOut(to, Running);
    }

    /** rt_thread_suspend, of the calling thread. */
    method Suspend() returns (ok: bool)
      requires Invariant() && current.Now?
      modifies this`threads, this`ready, table
      ensures View() == Step(old(View()), SchedulerSpec.Suspend) && Invariant()
      ensures Does(old(View()), SchedulerSpec.Suspend, View())
      ensures ok == old(threads[current.t].stat.Running?)
    {
      StepMeans(View(), SchedulerSpec.Suspend);
      StepKeeps(View(), SchedulerSpec.Suspend);
      var stat := threads[current.t].stat;
      ok := stat.Ready? || stat.Running?;
      if ok {
        TakeOut(current.t, Suspended);
      }
    }

    /** rt_thread_resume, and what _thread_timeout does to the ready lists. */
    method Resume(t: Tid) returns (ok: bool)
      requires Invariant() && t in threads
      modifies this`threads, this`ready, table
      ensures View() == Step(old(View()), SchedulerSpec.Resume(t)) && Invariant()
      ensures Does(old(View()), SchedulerSpec.Resume(t), View())
      ensures ok == old(threads[t].stat.Suspended?)
    {
      StepMeans(View(), SchedulerSpec.Resume(t));
      StepKeeps(View(), SchedulerSpec.Resume(t));
      ok := threads[t].stat.Suspended?;
      if ok {
        InsertThread(t);
      }
    }

    /** rt_thread_yield. */
    method Yield()
      requires Invariant() && current.Now?
      modifies this`threads, this`ready, this`current, table
      ensures View() == Step(old(View()), SchedulerSpec.Yield) && Invariant()
      ensures Does(old(View()), SchedulerSpec.Yield, View())
    {
      StepMeans(View(), SchedulerSpec.Yield);
      TickKeeps(View());
      var cur := threads[current.t];
      SetThread(current.t, cur.(remaining := cur.slice, spent := true));
      Schedule();
    }

    /** rt_tick_increase up to its call of the scheduler; `expired` says that it makes it. */
    method Tick() returns (expired: bool)
      requires Invariant() && current.Now?
      modifies this`threads
      ensures View() == Step(old(View()), SchedulerSpec.Tick) && Invariant()
      ensures Does(old(View()), SchedulerSpec.Tick, View())
      ensures expired == (old(threads[current.t].remaining) == 1)
    {
      StepMeans(View(), SchedulerSpec.Tick);
      TickKeeps(View());
      var cur := threads[current.t];
      var left := if cur.remaining == 0 then TICK_MAX else cur.remaining - 1;
      expired := left == 0;
      SetThread(current.t, if expired then cur.(remaining := cur.slice, spent := true) else cur.(remaining := left));
    }

    /** rt_thread_control with RT_THREAD_CTRL_CHANGE_PRIORITY. */
    method ChangePriority(t: Tid, prio: nat)
      requires Invariant() && t in threads && prio < table.Length
      modifies this`threads, this`ready, table
      ensures View() == Step(old(View()), SchedulerSpec.ChangePriority(t, prio)) && Invariant()
      ensures Does(old(View()), SchedulerSpec.ChangePriority(t, prio), View())
    {
      StepMeans(View(), SchedulerSpec.ChangePriority(t, prio));
      ReprioritizedKeeps(View(), t, prio);
      Reprioritize(t, prio);
    }

    method Reprioritize(t: Tid, prio: nat)
      requires Typed(View()) && t in threads && prio < table.Length
      modifies this`threads, this`ready, table
      ensures View() == Reprioritized(old(View()), t, prio)
    {
      if threads[t].stat.Ready? {
        RemoveThread(t);
        SetThread(t, threads[t].(prio := prio));
        InsertThread(t);
      } else {
        SetThread(t, threads[t].(prio := prio));
      }
    }

    /** rt_enter_critical. */
    method EnterCritical()
      requires Invariant()
      modifies this`lock
      ensures View() == Step(old(View()), SchedulerSpec.EnterCritical) && Invariant()
      ensures Does(old(View()), SchedulerSpec.EnterCritical, View())
      ensures current.Now? ==> SchedulerSpec.Schedule(View()) == View()
      ensures Step(View(), SchedulerSpec.ExitCritical) == old(View())
    {
      StepMeans(View(), SchedulerSpec.EnterCritical);
      CriticalKeeps(View(), lock + 1);
      CriticalNests(View());
      lock := lock + 1;
    }

    /** rt_exit_critical up to its call of the scheduler; `unlocked` says that it makes it. */
    method ExitCritical() returns (unlocked: bool)
      requires Invariant()
      modifies this`lock
      ensures View() == Step(old(View()), SchedulerSpec.ExitCritical) && Invariant()
      ensures Does(old(View()), SchedulerSpec.ExitCritical, View())
      ensures unlocked == (old(lock) <= 1 && current.Now?)
    {
      StepMeans(View(), SchedulerSpec.ExitCritical);
      CriticalKeeps(View(), if lock <= 1 then 0 else lock - 1);
      var nest := lock - 1;
      if nest <= 0 {
        lock := 0;
        unlocked := current.Now?;
      } else {
        lock := nest;
        unlocked := false;
      }
    }

    /** _thread_exit up to its call of the scheduler. */
    method Exit()
      requires Invariant() && current.Now?
      modifies this`threads, this`ready, table
      ensures View() == Step(old(View()), SchedulerSpec.Exit) && Invariant()
      ensures Does(old(View()), SchedulerSpec.Exit, View())
    {
      StepMeans(View(), SchedulerSpec.Exit);
      OutOfCurrentKeeps(View(), Closed);
      TakeOut(current.t, Closed);
    }
  }

  lemma EmptyBitmap(b: Bitmap)
    requires b == OneLevel(0) || b == TwoLevel(0, seq(32, _ => 0))
    ensures Valid(b)
  {
    WordSizes();
    forall n | 0 <= n < 32 ensures !FindFirstSet.Bit(0, n) { FindFirstSet.NoBits(n); }
  }
}
