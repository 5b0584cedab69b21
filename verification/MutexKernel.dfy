/**
 The mutex calls as the kernel performs them: field by field, in the order of the
 source. Each interrupt-disabled section is a method, proved to be the step of
 `MutexSpec` it stands for; the theorems over runs are about those steps.
 */
module MutexKernel {
  import opened WaitList
  import opened MutexInversion
  import opened MutexSpec
  import opened MutexWaiting

  class Kernel {
    var threads: map<Tid, Thread>
    var mutexes: map<Mid, Mutex>
    ghost var net: map<(Mid, Tid), int>
    ghost var since: map<Tid, nat>
    ghost var clock: nat

    ghost function View(): MutexSpec.Kernel
      reads this
    {
      MutexSpec.Kernel(threads, mutexes, net, since, clock)
    }

    ghost predicate Valid()
      reads this
    {
      Accounted(View())
    }

    constructor (ids: set<Tid>, prio: map<Tid, Prio>, locks: set<Mid>)
      requires prio.Keys == ids
      ensures Valid() && Start(View())
      ensures threads.Keys == ids && mutexes.Keys == locks && PrioOf(threads) == prio
    {
      threads := map t | t in ids :: Thread(prio[t], Running);
      mutexes := map m | m in locks :: Mutex(1, None, 0, NO_PRIORITY, []);
      net := map[];
      since := map t | t in ids :: 0;
      clock := 0;
    }

    /** rt_thread_control with RT_THREAD_CTRL_CHANGE_PRIORITY, as far as priorities go. */
    method ChangePriority(t: Tid, p: Prio)
      requires t in threads
      modifies this`threads
      ensures threads == Reprioritized(old(threads), t, p)
      ensures threads == old(threads)[t := Thread(p, old(threads)[t].at)]
    {
      threads := threads[t := threads[t].(prio := p)];
    }

    /** rt_mutex_take up to its return or its call of the scheduler. `None` means suspended. */
    method Take(t: Tid, m: Mid, timeout: int) returns (r: Option<Error>)
      requires Valid() && Enabled(View(), Action.Take(t, m, timeout))
      modifies this
      ensures Valid() && View() == Step(old(View()), Action.Take(t, m, timeout))
      ensures r == TakeResult(old(View()), Action.Take(t, m, timeout))
      ensures Takes(old(View()), View(), t, m, timeout, r)
    {
      TakeMeans(View(), t, m, timeout);
      TakeAccounted(View(), t, m, timeout);
      assert MutexInv(mutexes[m]);
      r := Attempt(t, m, timeout);
    }

    method Attempt(t: Tid, m: Mid, timeout: int) returns (r: Option<Error>)
      requires WellTyped(View()) && Enabled(View(), Action.Take(t, m, timeout)) && MutexInv(mutexes[m])
      modifies this
      ensures View() == Taken(old(View()), t, m, timeout)
      ensures r == TakeResult(old(View()), Action.Take(t, m, timeout))
    {
      var mutex := mutexes[m];
      if mutex.owner == Some(t) {
        if mutex.hold < HOLD_MAX {
          mutexes := mutexes[m := mutex.(hold := mutex.hold + 1)];
          net := Counted(net, m, t, 1);
          return Some(EOK);
        }
        return Some(EFULL);
      }
      if mutex.value > 0 {
        mutex := mutex.(value := mutex.value - 1);
        mutex := mutex.(owner := Some(t), original := threads[t].prio);
        if mutex.hold < HOLD_MAX {
          mutex := mutex.(hold := mutex.hold + 1);
          net := Counted(net, m, t, 1);
          r := Some(EOK);
        } else {
          r := Some(EFULL);
        }
        mutexes := mutexes[m := mutex];
        return;
      }
      if timeout == 0 {
        return Some(ETIMEOUT);
      }
      Block(t, m, timeout > 0);
      r := None;
    }

    method Block(t: Tid, m: Mid, timed: bool)
      requires t in threads && m in mutexes && WellTyped(View()) && mutexes[m].owner.Some?
      modifies this
      ensures View() == Blocked(old(View()), t, m, timed)
      ensures WellTyped(View()) && JoinedByUrgency(old(mutexes)[m].waiters, mutexes[m].waiters, PrioOf(threads), t)
      ensures var o := old(mutexes)[m].owner.get;
              && threads[o].prio == (if old(threads)[t].prio < old(threads)[o].prio then old(threads)[t].prio else old(threads)[o].prio)
              && forall u :: u in old(threads) && u != o && u != t ==> threads[u] == old(threads)[u]
      ensures old(Awaitable(View(), t, m)) ==> Valid() && (old(NoInversion(View(), m)) ==> NoInversion(View(), m))
    {
      BlockMeans(View(), t, m, timed);
      BoostsThenParks(View(), t, m, timed);
      Boost(t, m);
      Park(t, m, timed);
    }

    method Boost(t: Tid, m: Mid)
      requires t in threads && m in mutexes && WellTyped(View()) && mutexes[m].owner.Some?
      modifies this`threads
      ensures View() == Boosted(old(View()), t, m)
    {
      var owner := mutexes[m].owner.get;
      if threads[t].prio < threads[owner].prio {
        ChangePriority(owner, threads[t].prio);
      }
    }

    method Park(t: Tid, m: Mid, timed: bool)
      requires t in threads && m in mutexes && WellTyped(View())
      modifies this
      ensures View() == Parked(old(View()), t, m, timed)
    {
      threads := threads[t := threads[t].(at := Suspended(m, timed))];
      var queue := WaitList.Suspend(mutexes[m].waiters, PrioOf(threads), t, ByPriority);
      mutexes := mutexes[m := mutexes[m].(waiters := queue)];
      since, clock := since[t := clock], clock + 1;
    }

    /** rt_mutex_release. */
    method Release(t: Tid, m: Mid) returns (r: Error)
      requires Valid() && Enabled(View(), Action.Release(t, m))
      modifies this
      ensures Valid() && View() == Step(old(View()), Action.Release(t, m))
      ensures r == EOK <==> old(mutexes)[m].owner == Some(t)
      ensures r == EOK || r == ERROR
      ensures Releases(old(View()), View(), t, m)
    {
      ReleaseMeans(View(), t, m);
      ReleaseAccounted(View(), t, m);
      assert MutexInv(mutexes[m]);
      r := GiveUp(t, m);
    }

    method GiveUp(t: Tid, m: Mid) returns (r: Error)
      requires WellTyped(View()) && Enabled(View(), Action.Release(t, m)) && MutexInv(mutexes[m])
      modifies this
      ensures View() == Released(old(View()), t, m)
      ensures r == if old(mutexes)[m].owner == Some(t) then EOK else ERROR
    {
      if mutexes[m].owner != Some(t) {
        return ERROR;
      }
      if mutexes[m].hold - 1 == 0 {
        HandOn(t, m);
      } else {
        mutexes := mutexes[m := mutexes[m].(hold := mutexes[m].hold - 1)];
        net := Counted(net, m, t, -1);
      }
      r := EOK;
    }

    method HandOn(t: Tid, m: Mid)
      requires t in threads && m in mutexes && WellTyped(View()) && mutexes[m].owner == Some(t)
      modifies this
      ensures View() == HandedOn(old(View()), t, m)
      ensures threads[t].prio == old(mutexes)[m].original
      ensures old(mutexes)[m].waiters != [] ==>
                var w := old(mutexes)[m].waiters[0];
                mutexes[m].owner == Some(w) && mutexes[m].hold == 1 && mutexes[m].original == threads[w].prio
                && threads[w].at == Resumed(m, EOK)
      ensures old(Droppable(View(), t, m)) ==>
                && Valid()
                && (old(mutexes)[m].waiters == [] ==> mutexes[m] == Mutex(1, None, 0, NO_PRIORITY, []))
                && (NoInversion(View(), m) <==> old(HandOffServes(View(), m)))
                && (old(Ordered(mutexes[m].waiters, PrioOf(threads), since)) ==> NoInversion(View(), m))
    {
      HandOnMeans(View(), t, m);
      PassOn(t, m);
    }

    /** The last release: the priority is restored and the head waiter, if any, gets the mutex. */
    method PassOn(t: Tid, m: Mid)
      requires t in threads && m in mutexes && WellTyped(View()) && mutexes[m].owner == Some(t)
      modifies this
      ensures View() == HandedOn(old(View()), t, m)
    {
      var mutex := mutexes[m].(hold := 0);
      net := Counted(net, m, t, -1);
      if mutex.original != threads[t].prio {
        ChangePriority(t, mutex.original);
      }
      if mutex.waiters != [] {
        var next := mutex.waiters[0];
        mutex := mutex.(owner := Some(next), original := threads[next].prio);
        mutex := mutex.(hold := mutex.hold + 1);
        net := Counted(net, m, next, 1);
        mutex := mutex.(waiters := Without(mutex.waiters, next));
        threads := threads[next := threads[next].(at := Resumed(m, EOK))];
      } else if mutex.value < VALUE_MAX {
        mutex := mutex.(value := mutex.value + 1);
        mutex := mutex.(owner := None, original := NO_PRIORITY);
      }
      mutexes := mutexes[m := mutex];
    }

    /** _thread_timeout for a thread suspended on a mutex. */
    method TimerFires(t: Tid)
      requires Valid() && Enabled(View(), Action.TimerFires(t))
      modifies this
      ensures Valid() && View() == Step(old(View()), Action.TimerFires(t))
      ensures !Involved(View(), t, old(threads)[t].at.on)
      ensures threads == old(threads)[t := Thread(old(threads)[t].prio, Resumed(old(threads)[t].at.on, ETIMEOUT))]
      ensures forall k :: k in old(mutexes) && k != old(threads)[t].at.on ==> k in mutexes && mutexes[k] == old(mutexes)[k]
    {
      assert PlaceInv(View(), t, threads[t].at.on);
      TimeoutWakes(View(), t, t, threads[t].at.on);
      TimeoutAccounted(View(), t);
      var m := threads[t].at.on;
      threads := threads[t := threads[t].(at := Resumed(m, ETIMEOUT))];
      mutexes := mutexes[m := mutexes[m].(waiters := Without(mutexes[m].waiters, t))];
    }

    /** rt_mutex_take after the scheduler came back to the thread. */
    method TakeReturns(t: Tid) returns (r: Error)
      requires Valid() && Enabled(View(), Action.TakeReturns(t))
      modifies this
      ensures Valid() && View() == Step(old(View()), Action.TakeReturns(t))
      ensures r == old(threads)[t].at.error
      ensures r == EOK ==> mutexes[old(threads)[t].at.on].owner == Some(t)
      ensures r != EOK ==> mutexes[old(threads)[t].at.on].owner != Some(t)
    {
      StepAccounted(View(), Action.TakeReturns(t));
      assert PlaceInv(View(), t, threads[t].at.on);
      r := threads[t].at.error;
      threads := threads[t := threads[t].(at := Running)];
    }
  }

  /** The states in which rt_mutex_take suspends its caller. */
  ghost predicate Awaitable(s: MutexSpec.Kernel, t: Tid, m: Mid) {
    Accounted(s) && t in s.threads && m in s.mutexes && s.threads[t].at.Running? && s.mutexes[m].value == 0 && !Owns(s, t, m)
  }

  /** The states in which rt_mutex_release gives up the last level. */
  ghost predicate Droppable(s: MutexSpec.Kernel, t: Tid, m: Mid) {
    Accounted(s) && Enabled(s, Action.Release(t, m)) && GivesUp(s, Action.Release(t, m))
  }

  lemma BlockMeans(s: MutexSpec.Kernel, t: Tid, m: Mid, timed: bool)
    requires WellTyped(s) && t in s.threads && m in s.mutexes && s.mutexes[m].owner.Some?
    ensures var s' := Blocked(s, t, m, timed);
            && WellTyped(s') && JoinedByUrgency(s.mutexes[m].waiters, s'.mutexes[m].waiters, PrioOf(s'.threads), t)
            && (Awaitable(s, t, m) ==> Accounted(s') && (NoInversion(s, m) ==> NoInversion(s', m)))
  {
    var s' := Blocked(s, t, m, timed);
    EnqueuedJoins(s.mutexes[m].waiters, PrioOf(s'.threads), t);
    EnqueuedMembers(s.mutexes[m].waiters, PrioOf(s'.threads), t, ByPriority);
    if Awaitable(s, t, m) {
      BlockAccounted(s, t, m, timed);
      if NoInversion(s, m) { BlockedHere(s, t, m, timed); }
    }
  }

  lemma BoostsThenParks(s: MutexSpec.Kernel, t: Tid, m: Mid, timed: bool)
    requires WellTyped(s) && t in s.threads && m in s.mutexes && s.mutexes[m].owner.Some?
    ensures Parked(Boosted(s, t, m), t, m, timed) == Blocked(s, t, m, timed)
  {
  }

  lemma HandOnMeans(s: MutexSpec.Kernel, t: Tid, m: Mid)
    requires WellTyped(s) && t in s.threads && m in s.mutexes && s.mutexes[m].owner == Some(t)
    ensures var s' := HandedOn(s, t, m);
            Droppable(s, t, m) ==>
              && Accounted(s') && (NoInversion(s', m) <==> HandOffServes(s, m))
              && (Ordered(s.mutexes[m].waiters, PrioOf(s.threads), s.since) ==> NoInversion(s', m))
  {
    if Droppable(s, t, m) {
      assert MutexInv(s.mutexes[m]);
      ReleaseAccounted(s, t, m);
      GivenUpHere(s, t, m);
      if Ordered(s.mutexes[m].waiters, PrioOf(s.threads), s.since) { OrderedServes(s, m); }
    }
  }

  /** The owner of `m` runs no less urgently than `t`. */
  function Boosted(s: MutexSpec.Kernel, t: Tid, m: Mid): (s': MutexSpec.Kernel)
    requires WellTyped(s) && t in s.threads && m in s.mutexes && s.mutexes[m].owner.Some?
    ensures WellTyped(s')
  {
    var o := s.mutexes[m].owner.get;
    s.(threads := if s.threads[t].prio < s.threads[o].prio then Reprioritized(s.threads, o, s.threads[t].prio) else s.threads)
  }

  /** The thread is suspended on `m`, its own priority deciding its place. */
  function Parked(s: MutexSpec.Kernel, t: Tid, m: Mid, timed: bool): MutexSpec.Kernel
    requires WellTyped(s) && t in s.threads && m in s.mutexes
  {
    var mx := s.mutexes[m];
    var threads := s.threads[t := s.threads[t].(at := Suspended(m, timed))];
    s.(threads := threads,
       mutexes := s.mutexes[m := mx.(waiters := Enqueued(mx.waiters, PrioOf(threads), t, ByPriority))],
       since := s.since[t := s.clock],
       clock := s.clock + 1)
  }
}
