/**
 What a take means for its caller, from the call to its return: when it waits, how long
 it can be ended by its timer, and what has happened when it returns.
 */
module MutexWaiting {
  import opened WaitList
  import opened MutexSpec

  /** The thread waits for mutex `m`. */
  ghost predicate Waits(s: Kernel, t: Tid, m: Mid) {
    t in s.threads && m in s.mutexes && t in s.mutexes[m].waiters
  }

  /** Thread `t` has mutex `m`, or waits for it. */
  ghost predicate Involved(s: Kernel, t: Tid, m: Mid) {
    Owns(s, t, m) || Waits(s, t, m)
  }

  /** Only the fields of `m` that are named in the update differ. */
  ghost predicate OnlyMutex(s: Kernel, s': Kernel, m: Mid, mx: Mutex)
    requires m in s.mutexes
  {
    s'.mutexes == s.mutexes[m := mx] && s'.threads == s.threads
  }

  /** What a take does before it returns `r` or, with no result yet, waits. */
  ghost predicate Takes(s: Kernel, s': Kernel, t: Tid, m: Mid, timeout: int, r: Option<Error>)
    requires t in s.threads && m in s.mutexes
  {
    var mx := s.mutexes[m];
    match mx.owner
    case None => r == Some(EOK) && OnlyMutex(s, s', m, Mutex(0, Some(t), 1, s.threads[t].prio, []))
    case Some(o) =>
      if o == t then
        if mx.hold < 255 then r == Some(EOK) && OnlyMutex(s, s', m, mx.(hold := mx.hold + 1))
        else r == Some(EFULL) && s' == s
      else if timeout == 0 then r == Some(ETIMEOUT) && s' == s
      else r == None && Queues(s, s', t, o, m) && (Enabled(s', TimerFires(t)) <==> timeout > 0)
  }

  /** The caller waits at the place its urgency gives it; the owner runs at the more urgent of the two
      priorities. Nothing else changes. */
  ghost predicate Queues(s: Kernel, s': Kernel, t: Tid, o: Tid, m: Mid)
    requires t in s.threads && m in s.mutexes
  {
    && Waits(s', t, m) && t in s'.threads && o in s.threads
    && s'.mutexes == s.mutexes[m := s.mutexes[m].(waiters := s'.mutexes[m].waiters)]
    && s'.threads == Raised(s.threads, o, s.threads[t].prio)[t := s.threads[t].(at := s'.threads[t].at)]
    && JoinedByUrgency(s.mutexes[m].waiters, s'.mutexes[m].waiters, PrioOf(s'.threads), t)
  }

  /** Thread `o` at priority `p` if that is the more urgent one. */
  function Raised(threads: map<Tid, Thread>, o: Tid, p: Prio): (r: map<Tid, Thread>)
    requires o in threads
  {
    threads[o := Thread(if p < threads[o].prio then p else threads[o].prio, threads[o].at)]
  }

  lemma TakeMeans(s: Kernel, t: Tid, m: Mid, timeout: int)
    requires Accounted(s) && Enabled(s, Take(t, m, timeout))
    ensures Takes(s, Step(s, Take(t, m, timeout)), t, m, timeout, TakeResult(s, Take(t, m, timeout)))
  {
    assert MutexInv(s.mutexes[m]) && PlaceInv(s, t, m);
    var mx := s.mutexes[m];
    if mx.owner.Some? && mx.owner != Some(t) && timeout != 0 { TakeQueues(s, t, mx.owner.get, m, timeout); }
  }

  lemma TakeQueues(s: Kernel, t: Tid, o: Tid, m: Mid, timeout: int)
    requires Accounted(s) && Enabled(s, Take(t, m, timeout)) && s.mutexes[m].owner == Some(o) && o != t && timeout != 0
    ensures var s' := Step(s, Take(t, m, timeout));
            Queues(s, s', t, o, m) && (Enabled(s', TimerFires(t)) <==> timeout > 0)
  {
    assert MutexInv(s.mutexes[m]);
    assert Step(s, Take(t, m, timeout)) == Blocked(s, t, m, timeout > 0);
    BlockedQueues(s, t, o, m, timeout > 0);
  }

  lemma BlockedQueues(s: Kernel, t: Tid, o: Tid, m: Mid, timed: bool)
    requires WellTyped(s) && t in s.threads && m in s.mutexes && s.mutexes[m].owner == Some(o) && o != t
    ensures var s' := Blocked(s, t, m, timed); Queues(s, s', t, o, m) && (Enabled(s', TimerFires(t)) <==> timed)
  {
    JoinsQueue(s, t, m, timed);
    BlockedThreads(s, t, o, m, timed);
    BlockedMutexes(s, t, m, timed);
  }

  lemma BlockedMutexes(s: Kernel, t: Tid, m: Mid, timed: bool)
    requires WellTyped(s) && t in s.threads && m in s.mutexes && s.mutexes[m].owner.Some?
    ensures var mutexes := Blocked(s, t, m, timed).mutexes;
            m in mutexes && mutexes == s.mutexes[m := s.mutexes[m].(waiters := mutexes[m].waiters)]
  {
  }

  lemma BlockedThreads(s: Kernel, t: Tid, o: Tid, m: Mid, timed: bool)
    requires WellTyped(s) && t in s.threads && m in s.mutexes && s.mutexes[m].owner == Some(o) && o != t
    ensures var threads := Blocked(s, t, m, timed).threads;
            t in threads && threads[t].at == Suspended(m, timed)
            && threads == Raised(s.threads, o, s.threads[t].prio)[t := s.threads[t].(at := Suspended(m, timed))]
  {
    RaisedBy(s.threads, o, s.threads[t].prio);
  }

  lemma JoinsQueue(s: Kernel, t: Tid, m: Mid, timed: bool)
    requires WellTyped(s) && t in s.threads && m in s.mutexes && s.mutexes[m].owner.Some?
    ensures var s' := Blocked(s, t, m, timed);
            Waits(s', t, m) && JoinedByUrgency(s.mutexes[m].waiters, s'.mutexes[m].waiters, PrioOf(s'.threads), t)
  {
    var s' := Blocked(s, t, m, timed);
    EnqueuedJoins(s.mutexes[m].waiters, PrioOf(s'.threads), t);
    EnqueuedMembers(s.mutexes[m].waiters, PrioOf(s'.threads), t, ByPriority);
  }

  lemma RaisedBy(threads: map<Tid, Thread>, o: Tid, p: Prio)
    requires o in threads
    ensures Raised(threads, o, p) == if p < threads[o].prio then Reprioritized(threads, o, p) else threads
  {
  }

  // ----- the end of a wait -----

  /** A step ends a wait in two ways only: the timer fires, or the owner gives up its last level while
      the thread is the head of the list. */
  lemma WaitEnds(s: Kernel, a: Action, t: Tid, m: Mid)
    requires Accounted(s) && Enabled(s, a) && Waits(s, t, m) && !Waits(Step(s, a), t, m)
    ensures a == TimerFires(t) || (a.Release? && a.m == m && Owns(s, a.t, m) && s.mutexes[m].hold == 1 && s.mutexes[m].waiters[0] == t)
    ensures a == TimerFires(t) ==> !Involved(Step(s, a), t, m) && Step(s, a).threads[t].at == Resumed(m, ETIMEOUT)
    ensures a.Release? ==> Owns(Step(s, a), t, m) && Step(s, a).threads[t].at == Resumed(m, EOK)
  {
    assert PlaceInv(s, t, m) && MutexInv(s.mutexes[m]);
    match a {
      case Take(u, k, timeout) => TakeLeavesWaiters(s, u, k, timeout, t, m); assert false;
      case Release(u, k) => ReleaseWakes(s, u, k, t, m);
      case TimerFires(u) => TimeoutWakes(s, u, t, m);
      case _ => assert false;
    }
  }

  lemma TakeLeavesWaiters(s: Kernel, u: Tid, k: Mid, timeout: int, t: Tid, m: Mid)
    requires Accounted(s) && Enabled(s, Take(u, k, timeout)) && Waits(s, t, m)
    ensures Waits(Step(s, Take(u, k, timeout)), t, m)
    ensures Step(s, Take(u, k, timeout)).threads[t].at == s.threads[t].at
  {
    var mx := s.mutexes[k];
    assert MutexInv(mx) && PlaceInv(s, t, m) && PlaceInv(s, u, k);
    if mx.owner.Some? && mx.owner != Some(u) && timeout != 0 {
      EnqueuedMembers(mx.waiters, PrioOf(Step(s, Take(u, k, timeout)).threads), u, ByPriority);
    }
  }

  lemma ReleaseWakes(s: Kernel, u: Tid, k: Mid, t: Tid, m: Mid)
    requires Accounted(s) && Enabled(s, Release(u, k)) && Waits(s, t, m)
    ensures var s' := Step(s, Release(u, k));
            if k == m && Owns(s, u, m) && s.mutexes[m].hold == 1 && s.mutexes[m].waiters[0] == t
            then !Waits(s', t, m) && Owns(s', t, m) && s'.threads[t].at == Resumed(m, EOK)
            else Waits(s', t, m) && s'.threads[t].at == s.threads[t].at
  {
    var mx := s.mutexes[k];
    assert MutexInv(mx) && PlaceInv(s, t, m) && PlaceInv(s, u, k);
    if mx.waiters != [] {
      WithoutMembers(mx.waiters, mx.waiters[0]);
      assert PlaceInv(s, mx.waiters[0], k);
    }
  }

  lemma TimeoutWakes(s: Kernel, u: Tid, t: Tid, m: Mid)
    requires Accounted(s) && Enabled(s, TimerFires(u)) && Waits(s, t, m)
    ensures var s' := Step(s, TimerFires(u));
            if u == t then !Involved(s', t, m) && s'.threads[t].at == Resumed(m, ETIMEOUT)
            else Waits(s', t, m) && s'.threads[t].at == s.threads[t].at
  {
    assert PlaceInv(s, t, m) && PlaceInv(s, u, s.threads[u].at.on) && MutexInv(s.mutexes[m]);
    WithoutMembers(s.mutexes[s.threads[u].at.on].waiters, u);
  }

  /** While a thread waits, its timer stays as it is. */
  lemma WaitKeepsTimer(s: Kernel, a: Action, t: Tid, m: Mid)
    requires Accounted(s) && Enabled(s, a) && Waits(s, t, m) && Waits(Step(s, a), t, m)
    ensures Enabled(Step(s, a), TimerFires(t)) <==> Enabled(s, TimerFires(t))
  {
    assert PlaceInv(s, t, m);
    match a {
      case Take(u, k, timeout) => TakeLeavesWaiters(s, u, k, timeout, t, m);
      case Release(u, k) => ReleaseWakes(s, u, k, t, m);
      case TimerFires(u) => TimeoutWakes(s, u, t, m);
      case _ =>
    }
  }

  // ----- a take from call to return -----

  /** A run all of whose states have `t` waiting for `m`. */
  ghost predicate WaitingRun(s: Kernel, acts: seq<Action>, s': Kernel, t: Tid, m: Mid)
    decreases |acts|
  {
    && Waits(s, t, m)
    && if acts == [] then s == s'
       else WellTyped(s) && Enabled(s, acts[0]) && WaitingRun(Step(s, acts[0]), acts[1..], s', t, m)
  }

  lemma {:induction false} LongWait(s: Kernel, acts: seq<Action>, s': Kernel, t: Tid, m: Mid)
    requires Accounted(s) && WaitingRun(s, acts, s', t, m)
    ensures Accounted(s') && Waits(s', t, m) && (Enabled(s', TimerFires(t)) <==> Enabled(s, TimerFires(t)))
    decreases |acts|
  {
    if acts != [] {
      StepAccounted(s, acts[0]);
      WaitKeepsTimer(s, acts[0], t, m);
      LongWait(Step(s, acts[0]), acts[1..], s', t, m);
    }
  }

  /** A take of a mutex that another thread owns, with any timeout but 0, waits; whatever happens
      meanwhile, it can be ended by its timer exactly when the timeout is positive. It then returns
      ETIMEOUT, and the caller neither has the mutex nor waits for it. */
  lemma TakeTimesOut(s: Kernel, t: Tid, m: Mid, timeout: int, acts: seq<Action>, s2: Kernel)
    requires Accounted(s) && Enabled(s, Take(t, m, timeout)) && timeout != 0
    requires s.mutexes[m].owner.Some? && s.mutexes[m].owner != Some(t)
    requires WaitingRun(Step(s, Take(t, m, timeout)), acts, s2, t, m)
    ensures Accounted(s2) && (Enabled(s2, TimerFires(t)) <==> timeout > 0)
    ensures timeout > 0 ==>
              var s3 := Step(s2, TimerFires(t));
              && Accounted(s3) && Enabled(s3, TakeReturns(t)) && TakeResult(s3, TakeReturns(t)) == Some(ETIMEOUT)
              && !Involved(Step(s3, TakeReturns(t)), t, m) && Step(s3, TakeReturns(t)).threads[t].at == Running
  {
    TakeMeans(s, t, m, timeout);
    StepAccounted(s, Take(t, m, timeout));
    LongWait(Step(s, Take(t, m, timeout)), acts, s2, t, m);
    if timeout > 0 { TimeoutReturns(s2, t, m); }
  }

  lemma TimeoutReturns(s: Kernel, t: Tid, m: Mid)
    requires Accounted(s) && Waits(s, t, m) && Enabled(s, TimerFires(t))
    ensures var s3 := Step(s, TimerFires(t));
            && Accounted(s3) && Enabled(s3, TakeReturns(t)) && TakeResult(s3, TakeReturns(t)) == Some(ETIMEOUT)
            && !Involved(Step(s3, TakeReturns(t)), t, m) && Step(s3, TakeReturns(t)).threads[t].at == Running
  {
    TimeoutWakes(s, t, t, m);
    StepAccounted(s, TimerFires(t));
  }

  // ----- releases -----

  /** What a release does: nothing for others than the owner, one level less, or the hand-over. */
  ghost predicate Releases(s: Kernel, s': Kernel, t: Tid, m: Mid)
    requires t in s.threads && m in s.mutexes
  {
    var mx := s.mutexes[m];
    if mx.owner != Some(t) then s' == s
    else if mx.hold > 1 then OnlyMutex(s, s', m, mx.(hold := mx.hold - 1))
    else HandsOver(s, s', t, m)
  }

  lemma ReleaseMeans(s: Kernel, t: Tid, m: Mid)
    requires Accounted(s) && Enabled(s, Release(t, m))
    ensures Releases(s, Step(s, Release(t, m)), t, m)
  {
    assert MutexInv(s.mutexes[m]) && NetInv(s, t, m);
    if s.mutexes[m].owner == Some(t) && s.mutexes[m].hold == 1 { HandOver(s, t, m); }
  }

  /** The owner is back at the priority it took the mutex with; the head waiter owns the mutex and is
      ready again, or the mutex is free. Nothing else changes. */
  ghost predicate HandsOver(s: Kernel, s': Kernel, t: Tid, m: Mid)
    requires t in s.threads && m in s.mutexes
  {
    var mx := s.mutexes[m];
    var threads := s.threads[t := s.threads[t].(prio := mx.original)];
    if mx.waiters == [] then s'.threads == threads && s'.mutexes == s.mutexes[m := Mutex(1, None, 0, 0xFF, [])]
    else
      var w := mx.waiters[0];
      && w in s.threads && s'.threads == threads[w := threads[w].(at := Resumed(m, EOK))]
      && s'.mutexes == s.mutexes[m := Mutex(0, Some(w), 1, s.threads[w].prio, mx.waiters[1..])]
  }

  lemma HandOver(s: Kernel, t: Tid, m: Mid)
    requires Accounted(s) && Enabled(s, Release(t, m)) && s.mutexes[m].owner == Some(t) && s.mutexes[m].hold == 1
    ensures HandsOver(s, Step(s, Release(t, m)), t, m)
  {
    var mx := s.mutexes[m];
    assert MutexInv(mx);
    SamePriority(s.threads, t, mx.original);
    if mx.waiters != [] { HandedToHead(s, t, m); }
  }

  lemma HandedToHead(s: Kernel, t: Tid, m: Mid)
    requires WellTyped(s) && t in s.threads && m in s.mutexes && MutexInv(s.mutexes[m]) && s.mutexes[m].waiters != []
    requires s.mutexes[m].owner == Some(t)
    ensures HandsOver(s, HandedOn(s, t, m), t, m)
  {
    var mx := s.mutexes[m];
    SamePriority(s.threads, t, mx.original);
    WithoutHead(mx.waiters);
    assert mx.waiters[0] in mx.waiters;
  }

  lemma SamePriority(threads: map<Tid, Thread>, t: Tid, p: Prio)
    requires t in threads
    ensures threads[t := threads[t].(prio := p)] == if p != threads[t].prio then Reprioritized(threads, t, p) else threads
  {
  }
}
