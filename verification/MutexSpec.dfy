/**
 RT-Thread mutexes as a state machine. Each interrupt-disabled section of
 rt_mutex_take, rt_mutex_release and the thread timeout is one step; a run is any
 interleaving of steps of any number of threads over any number of mutexes.
 Hand-off is direct: a release makes the head waiter the owner before it runs.
 */
module MutexSpec {
  import opened WaitList

  type Mid = nat
  const HOLD_MAX: nat := 255       // RT_MUTEX_HOLD_MAX
  const VALUE_MAX: nat := 65535    // RT_MUTEX_VALUE_MAX
  const NO_PRIORITY: nat := 0xFF

  datatype Error = EOK | EFULL | ETIMEOUT | ERROR

  /** Where a thread is with respect to rt_mutex_take. */
  datatype Place =
    | Running                                  // not inside a take
    | Suspended(on: Mid, timed: bool)          // on the mutex's list; timed: its timer is armed
    | Resumed(on: Mid, error: Error)           // ready again, take not yet returned

  datatype Thread = Thread(prio: Prio, at: Place)

  datatype Mutex = Mutex(value: nat, owner: Option<Tid>, hold: nat, original: Prio, waiters: seq<Tid>)
  datatype Option<+T> = None | Some(get: T)

  /** `net` and `since` are history: grants minus releases per mutex and thread, and arrival
      stamps of the threads queued on each mutex. */
  datatype Kernel = Kernel(threads: map<Tid, Thread>, mutexes: map<Mid, Mutex>,
                           net: map<(Mid, Tid), int>, since: map<Tid, nat>, clock: nat)

  datatype Action =
    | Take(t: Tid, m: Mid, timeout: int)
    | TakeReturns(t: Tid)
    | Release(t: Tid, m: Mid)
    | TimerFires(t: Tid)
    | SetPriority(t: Tid, p: Prio)

  function PrioOf(threads: map<Tid, Thread>): (prio: map<Tid, Prio>)
    ensures prio.Keys == threads.Keys && forall t :: t in threads ==> prio[t] == threads[t].prio
  {
    map t | t in threads :: threads[t].prio
  }

  function Count(net: map<(Mid, Tid), int>, m: Mid, t: Tid): int {
    if (m, t) in net then net[(m, t)] else 0
  }

  function Counted(net: map<(Mid, Tid), int>, m: Mid, t: Tid, d: int): map<(Mid, Tid), int> {
    net[(m, t) := Count(net, m, t) + d]
  }

  predicate WellTyped(s: Kernel) {
    && s.since.Keys == s.threads.Keys
    && forall m :: m in s.mutexes ==>
         && (s.mutexes[m].owner.Some? ==> s.mutexes[m].owner.get in s.threads)
         && forall t :: t in s.mutexes[m].waiters ==> t in s.threads
  }

  function Reprioritized(threads: map<Tid, Thread>, t: Tid, p: Prio): (r: map<Tid, Thread>)
    requires t in threads
  {
    threads[t := threads[t].(prio := p)]
  }

  /** The thread is suspended on `m`, boosting the owner first when it is more urgent. */
  function Blocked(s: Kernel, t: Tid, m: Mid, timed: bool): (s': Kernel)
    requires WellTyped(s) && t in s.threads && m in s.mutexes && s.mutexes[m].owner.Some?
  {
    var mx := s.mutexes[m];
    var o := mx.owner.get;
    var boosted := if s.threads[t].prio < s.threads[o].prio then Reprioritized(s.threads, o, s.threads[t].prio) else s.threads;
    var threads := boosted[t := boosted[t].(at := Suspended(m, timed))];
    s.(threads := threads,
       mutexes := s.mutexes[m := mx.(waiters := Enqueued(mx.waiters, PrioOf(threads), t, ByPriority))],
       since := s.since[t := s.clock],
       clock := s.clock + 1)
  }

  function Taken(s: Kernel, t: Tid, m: Mid, timeout: int): (s': Kernel)
    requires WellTyped(s) && t in s.threads && m in s.mutexes
  {
    var mx := s.mutexes[m];
    if mx.owner == Some(t) then
      if mx.hold < HOLD_MAX then
        s.(mutexes := s.mutexes[m := mx.(hold := mx.hold + 1)], net := Counted(s.net, m, t, 1))
      else s
    else if mx.value > 0 then
      var got := mx.(value := mx.value - 1, owner := Some(t), original := s.threads[t].prio);
      if mx.hold < HOLD_MAX then
        s.(mutexes := s.mutexes[m := got.(hold := mx.hold + 1)], net := Counted(s.net, m, t, 1))
      else s.(mutexes := s.mutexes[m := got])
    else if timeout == 0 || mx.owner.None? then s
    else Blocked(s, t, m, timeout > 0)
  }

  /** The last level of holding is given up: the owner's priority is restored and the mutex
      is handed to the head waiter, or becomes available. */
  function HandedOn(s: Kernel, t: Tid, m: Mid): (s': Kernel)
    requires WellTyped(s) && t in s.threads && m in s.mutexes
  {
    var mx := s.mutexes[m];
    var threads := if mx.original != s.threads[t].prio then Reprioritized(s.threads, t, mx.original) else s.threads;
    if mx.waiters != [] then
      var w := mx.waiters[0];
      s.(threads := threads[w := threads[w].(at := Resumed(m, EOK))],
         mutexes := s.mutexes[m := mx.(owner := Some(w), original := threads[w].prio, hold := 1,
                                       waiters := Without(mx.waiters, w))],
         net := Counted(Counted(s.net, m, t, -1), m, w, 1))
    else
      s.(threads := threads,
         mutexes := s.mutexes[m := mx.(value := if mx.value < VALUE_MAX then mx.value + 1 else mx.value,
                                       owner := if mx.value < VALUE_MAX then None else mx.owner,
                                       original := if mx.value < VALUE_MAX then NO_PRIORITY else mx.original,
                                       hold := 0)],
         net := Counted(s.net, m, t, -1))
  }

  function Released(s: Kernel, t: Tid, m: Mid): (s': Kernel)
    requires WellTyped(s) && t in s.threads && m in s.mutexes
  {
    var mx := s.mutexes[m];
    if mx.owner != Some(t) || mx.hold == 0 then s
    else if mx.hold == 1 then HandedOn(s, t, m)
    else s.(mutexes := s.mutexes[m := mx.(hold := mx.hold - 1)], net := Counted(s.net, m, t, -1))
  }

  function TimedOut(s: Kernel, t: Tid): (s': Kernel)
    requires WellTyped(s) && t in s.threads && s.threads[t].at.Suspended? && s.threads[t].at.on in s.mutexes
  {
    var m := s.threads[t].at.on;
    s.(threads := s.threads[t := s.threads[t].(at := Resumed(m, ETIMEOUT))],
       mutexes := s.mutexes[m := s.mutexes[m].(waiters := Without(s.mutexes[m].waiters, t))])
  }

  predicate Enabled(s: Kernel, a: Action) {
    match a
    case Take(t, m, _) => t in s.threads && m in s.mutexes && s.threads[t].at.Running?
    case TakeReturns(t) => t in s.threads && s.threads[t].at.Resumed?
    case Release(t, m) => t in s.threads && m in s.mutexes && s.threads[t].at.Running?
    case TimerFires(t) => t in s.threads && s.threads[t].at.Suspended? && s.threads[t].at.timed && s.threads[t].at.on in s.mutexes
    case SetPriority(t, p) => t in s.threads
  }

  function Step(s: Kernel, a: Action): (s': Kernel)
    requires WellTyped(s) && Enabled(s, a)
  {
    match a
    case Take(t, m, timeout) => Taken(s, t, m, timeout)
    case TakeReturns(t) => s.(threads := s.threads[t := s.threads[t].(at := Running)])
    case Release(t, m) => Released(s, t, m)
    case TimerFires(t) => TimedOut(s, t)
    case SetPriority(t, p) => s.(threads := Reprioritized(s.threads, t, p))
  }

  /** What the rt_mutex_take call of thread `t` returns in this step, if it returns. */
  function TakeResult(s: Kernel, a: Action): (r: Option<Error>)
    requires WellTyped(s) && Enabled(s, a)
  {
    match a
    case Take(t, m, timeout) =>
      var mx := s.mutexes[m];
      if mx.owner == Some(t) then Some(if mx.hold < HOLD_MAX then EOK else EFULL)
      else if mx.value > 0 then Some(if mx.hold < HOLD_MAX then EOK else EFULL)
      else if timeout == 0 then Some(ETIMEOUT)
      else None
    case TakeReturns(t) => Some(s.threads[t].at.error)
    case _ => None
  }

  // ----- accounting, under any steps whatever -----

  ghost predicate MutexInv(mx: Mutex) {
    && mx.value <= 1 && mx.hold <= HOLD_MAX
    && (mx.value == 1 <==> mx.owner.None?)
    && (mx.value == 1 <==> mx.hold == 0)
    && (mx.value == 1 ==> mx.waiters == [])
    && Distinct(mx.waiters)
    && (mx.owner.Some? ==> mx.owner.get !in mx.waiters)
  }

  /** The thread's place agrees with the mutex's fields. */
  ghost predicate PlaceInv(s: Kernel, t: Tid, m: Mid)
    requires t in s.threads && m in s.mutexes
  {
    && (t in s.mutexes[m].waiters <==> s.threads[t].at.Suspended? && s.threads[t].at.on == m)
    && (s.threads[t].at == Resumed(m, EOK) ==> s.mutexes[m].owner == Some(t))
    && (s.threads[t].at.Resumed? && s.threads[t].at.on == m && s.threads[t].at.error != EOK ==> s.mutexes[m].owner != Some(t))
  }

  ghost predicate NetInv(s: Kernel, t: Tid, m: Mid)
    requires m in s.mutexes
  {
    Count(s.net, m, t) == if s.mutexes[m].owner == Some(t) then s.mutexes[m].hold else 0
  }

  ghost predicate Accounted(s: Kernel) {
    && WellTyped(s)
    && (forall t :: t in s.threads && !s.threads[t].at.Running? ==> s.threads[t].at.on in s.mutexes)
    && (forall m :: m in s.mutexes ==> MutexInv(s.mutexes[m]))
    && (forall t, m :: t in s.threads && m in s.mutexes ==> PlaceInv(s, t, m))
    && (forall t: Tid, m :: m in s.mutexes ==> NetInv(s, t, m))
  }

  lemma TakeAccounted(s: Kernel, t: Tid, m: Mid, timeout: int)
    requires Accounted(s) && Enabled(s, Take(t, m, timeout))
    ensures Accounted(Taken(s, t, m, timeout))
  {
    var mx := s.mutexes[m];
    var s' := Taken(s, t, m, timeout);
    assert PlaceInv(s, t, m) && NetInv(s, t, m);
    if mx.owner != Some(t) && mx.value == 0 && timeout != 0 {
      BlockAccounted(s, t, m, timeout > 0);
    } else {
      forall u: Tid, k | k in s'.mutexes ensures NetInv(s', u, k) {
        assert NetInv(s, u, k);
      }
      forall u, k | u in s'.threads && k in s'.mutexes ensures PlaceInv(s', u, k) {
        assert PlaceInv(s, u, k);
      }
    }
  }

  lemma BlockAccounted(s: Kernel, t: Tid, m: Mid, timed: bool)
    requires Accounted(s) && t in s.threads && m in s.mutexes && s.threads[t].at.Running?
    requires s.mutexes[m].value == 0 && s.mutexes[m].owner != Some(t)
    ensures Accounted(Blocked(s, t, m, timed))
  {
    var s' := Blocked(s, t, m, timed);
    assert PlaceInv(s, t, m);
    EnqueuedMembers(s.mutexes[m].waiters, PrioOf(s'.threads), t, ByPriority);
    forall u: Tid, k | k in s'.mutexes ensures NetInv(s', u, k) {
      assert NetInv(s, u, k);
    }
    forall u, k | u in s'.threads && k in s'.mutexes ensures PlaceInv(s', u, k) {
      BlockPlace(s, t, m, timed, u, k);
    }
  }

  lemma BlockPlace(s: Kernel, t: Tid, m: Mid, timed: bool, u: Tid, k: Mid)
    requires Accounted(s) && t in s.threads && m in s.mutexes && s.threads[t].at.Running?
    requires s.mutexes[m].value == 0 && s.mutexes[m].owner != Some(t)
    requires u in s.threads && k in s.mutexes
    ensures PlaceInv(Blocked(s, t, m, timed), u, k)
  {
    assert PlaceInv(s, u, k);
    EnqueuedMembers(s.mutexes[m].waiters, PrioOf(Blocked(s, t, m, timed).threads), t, ByPriority);
  }

  lemma ReleaseAccounted(s: Kernel, t: Tid, m: Mid)
    requires Accounted(s) && Enabled(s, Release(t, m))
    ensures Accounted(Released(s, t, m))
  {
    var mx := s.mutexes[m];
    var s' := Released(s, t, m);
    if mx.owner == Some(t) && mx.hold == 1 {
      if mx.waiters != [] { HandOffAccounted(s, t, m); } else { FreedAccounted(s, t, m); }
    } else {
      forall u: Tid, k | k in s'.mutexes ensures NetInv(s', u, k) {
        assert NetInv(s, u, k);
      }
      forall u, k | u in s'.threads && k in s'.mutexes ensures PlaceInv(s', u, k) {
        assert PlaceInv(s, u, k);
      }
    }
  }

  lemma HandOffAccounted(s: Kernel, t: Tid, m: Mid)
    requires Accounted(s) && t in s.threads && m in s.mutexes && s.threads[t].at.Running?
    requires s.mutexes[m].owner == Some(t) && s.mutexes[m].hold == 1 && s.mutexes[m].waiters != []
    ensures Accounted(HandedOn(s, t, m))
  {
    var mx := s.mutexes[m];
    var s' := HandedOn(s, t, m);
    WithoutMembers(mx.waiters, mx.waiters[0]);
    assert PlaceInv(s, mx.waiters[0], m);
    forall u: Tid, k | k in s'.mutexes ensures NetInv(s', u, k) {
      assert NetInv(s, u, k);
    }
    forall u, k | u in s'.threads && k in s'.mutexes ensures PlaceInv(s', u, k) {
      assert PlaceInv(s, u, k) && PlaceInv(s, u, m);
    }
  }

  lemma FreedAccounted(s: Kernel, t: Tid, m: Mid)
    requires Accounted(s) && t in s.threads && m in s.mutexes && s.threads[t].at.Running?
    requires s.mutexes[m].owner == Some(t) && s.mutexes[m].hold == 1 && s.mutexes[m].waiters == []
    ensures Accounted(HandedOn(s, t, m))
  {
    var s' := HandedOn(s, t, m);
    forall u: Tid, k | k in s'.mutexes ensures NetInv(s', u, k) {
      assert NetInv(s, u, k);
    }
    forall u, k | u in s'.threads && k in s'.mutexes ensures PlaceInv(s', u, k) {
      assert PlaceInv(s, u, k) && PlaceInv(s, u, m);
    }
  }

  lemma TimeoutAccounted(s: Kernel, t: Tid)
    requires Accounted(s) && Enabled(s, TimerFires(t))
    ensures Accounted(TimedOut(s, t))
  {
    var m := s.threads[t].at.on;
    var s' := TimedOut(s, t);
    WithoutMembers(s.mutexes[m].waiters, t);
    assert PlaceInv(s, t, m);
    forall u: Tid, k | k in s'.mutexes ensures NetInv(s', u, k) {
      assert NetInv(s, u, k);
    }
    forall u, k | u in s'.threads && k in s'.mutexes ensures PlaceInv(s', u, k) {
      assert PlaceInv(s, u, k);
    }
  }

  lemma StepAccounted(s: Kernel, a: Action)
    requires Accounted(s) && Enabled(s, a)
    ensures Accounted(Step(s, a))
  {
    match a {
      case Take(t, m, timeout) => TakeAccounted(s, t, m, timeout);
      case Release(t, m) => ReleaseAccounted(s, t, m);
      case TimerFires(t) => TimeoutAccounted(s, t);
      case _ =>
        var s' := Step(s, a);
        forall u: Tid, k | k in s'.mutexes ensures NetInv(s', u, k) {
          assert NetInv(s, u, k);
        }
        forall u, k | u in s'.threads && k in s'.mutexes ensures PlaceInv(s', u, k) {
          assert PlaceInv(s, u, k);
        }
    }
  }

  ghost predicate Start(s: Kernel) {
    && s.since.Keys == s.threads.Keys && s.net == map[] && s.clock == 0
    && (forall t :: t in s.threads ==> s.threads[t].at.Running? && s.since[t] == 0)
    && (forall m :: m in s.mutexes ==> s.mutexes[m] == Mutex(1, None, 0, NO_PRIORITY, []))
  }

  ghost predicate Run(s: Kernel, acts: seq<Action>, s': Kernel)
    decreases |acts|
  {
    if acts == [] then s == s'
    else WellTyped(s) && Enabled(s, acts[0]) && Run(Step(s, acts[0]), acts[1..], s')
  }

  lemma {:induction false} RunAccounted(s: Kernel, acts: seq<Action>, s': Kernel)
    requires Accounted(s) && Run(s, acts, s')
    ensures Accounted(s')
    decreases |acts|
  {
    if acts != [] {
      StepAccounted(s, acts[0]);
      RunAccounted(Step(s, acts[0]), acts[1..], s');
    }
  }

  /** Over every run, whatever the threads do: a mutex is free exactly when it has no owner and
      no hold, and each thread's grants minus releases are the hold count if it is the owner and 0 if not. */
  lemma MutualExclusion(s: Kernel, acts: seq<Action>, s': Kernel, m: Mid)
    requires Start(s) && Run(s, acts, s') && m in s'.mutexes
    ensures var mx := s'.mutexes[m];
            && (mx.value == 1 <==> mx.owner.None?) && (mx.value == 1 <==> mx.hold == 0)
            && forall t: Tid :: Count(s'.net, m, t) == if mx.owner == Some(t) then mx.hold else 0
  {
    RunAccounted(s, acts, s');
    forall t: Tid ensures Count(s'.net, m, t) == if s'.mutexes[m].owner == Some(t) then s'.mutexes[m].hold else 0 {
      assert NetInv(s', t, m);
    }
  }

  /** A take that returns EOK leaves the caller as owner; any other return after waiting, and a
      refused one, leaves it neither owner (unless it was already, at the hold limit) nor waiter. */
  lemma TakeReturnsOwnership(s: Kernel, acts: seq<Action>, s1: Kernel, a: Action)
    requires Start(s) && Run(s, acts, s1) && Enabled(s1, a) && WellTyped(s1) && TakeResult(s1, a).Some?
    ensures var t := a.t;
            var m := if a.Take? then a.m else s1.threads[t].at.on;
            && m in s1.mutexes
              && (TakeResult(s1, a).get == EOK ==> Step(s1, a).mutexes[m].owner == Some(t))
              && (TakeResult(s1, a).get == EFULL && a.Take? ==> s1.mutexes[m].owner == Some(t) && s1.mutexes[m].hold == HOLD_MAX)
              && (TakeResult(s1, a).get == ETIMEOUT ==> Step(s1, a).mutexes[m].owner != Some(t))
              && t !in Step(s1, a).mutexes[m].waiters
  {
    RunAccounted(s, acts, s1);
    ReturnOwnership(s1, a);
  }

  lemma ReturnOwnership(s1: Kernel, a: Action)
    requires Accounted(s1) && Enabled(s1, a) && TakeResult(s1, a).Some?
    ensures var t := a.t;
            var m := if a.Take? then a.m else s1.threads[t].at.on;
            && m in s1.mutexes
              && (TakeResult(s1, a).get == EOK ==> Step(s1, a).mutexes[m].owner == Some(t))
              && (TakeResult(s1, a).get == EFULL && a.Take? ==> s1.mutexes[m].owner == Some(t) && s1.mutexes[m].hold == HOLD_MAX)
              && (TakeResult(s1, a).get == ETIMEOUT ==> Step(s1, a).mutexes[m].owner != Some(t))
              && t !in Step(s1, a).mutexes[m].waiters
  {
    var t := a.t;
    var m := if a.Take? then a.m else s1.threads[t].at.on;
    assert MutexInv(s1.mutexes[m]) && PlaceInv(s1, t, m);
  }

  // ----- priority inheritance, for threads that hold one mutex at a time -----

  ghost predicate Owns(s: Kernel, t: Tid, m: Mid) {
    m in s.mutexes && s.mutexes[m].owner == Some(t)
  }

  /** No step takes a mutex while its thread owns another one, and nobody sets priorities directly. */
  ghost predicate Disciplined(s: Kernel, a: Action) {
    match a
    case Take(t, m, _) => forall k :: Owns(s, t, k) ==> k == m
    case SetPriority(_, _) => false
    case _ => true
  }

  ghost predicate OwnerInv(s: Kernel, base: map<Tid, Prio>, m: Mid)
    requires WellTyped(s) && m in s.mutexes && base.Keys == s.threads.Keys
  {
    var mx := s.mutexes[m];
    && (mx.owner.Some? ==>
          var o := mx.owner.get;
          && mx.original == base[o] && s.threads[o].prio <= base[o]
          && !s.threads[o].at.Suspended?
          && forall w :: w in mx.waiters ==> s.threads[o].prio <= s.threads[w].prio)
    && Ordered(mx.waiters, PrioOf(s.threads), s.since)
    && forall w :: w in mx.waiters ==> s.since[w] < s.clock
  }

  ghost predicate AtBase(s: Kernel, base: map<Tid, Prio>, t: Tid)
    requires t in s.threads && base.Keys == s.threads.Keys
  {
    (forall m :: !Owns(s, t, m)) ==> s.threads[t].prio == base[t]
  }

  ghost predicate Inheriting(s: Kernel, base: map<Tid, Prio>) {
    && Accounted(s) && base.Keys == s.threads.Keys
    && (forall m :: m in s.mutexes ==> OwnerInv(s, base, m))
    && (forall t :: t in s.threads ==> AtBase(s, base, t))
    && (forall t, m, k :: Owns(s, t, m) && Owns(s, t, k) ==> m == k)
  }

  /** The order of a list only depends on the priorities and stamps of its members. */
  lemma OrderedFrame(queue: seq<Tid>, prio: map<Tid, Prio>, prio': map<Tid, Prio>, since: map<Tid, nat>, since': map<Tid, nat>)
    requires Ordered(queue, prio, since)
    requires forall u :: u in queue ==> u in prio && u in prio' && prio'[u] == prio[u] && u in since && u in since' && since'[u] == since[u]
    ensures Ordered(queue, prio', since')
  {
    forall i, j | 0 <= i < j < |queue|
      ensures prio'[queue[i]] < prio'[queue[j]] || (prio'[queue[i]] == prio'[queue[j]] && since'[queue[i]] < since'[queue[j]])
    {
      assert queue[i] in queue && queue[j] in queue;
    }
  }

  /** A mutex untouched by a step keeps its part of the invariant when its owner and waiters do. */
  lemma OwnerFrame(s: Kernel, s': Kernel, base: map<Tid, Prio>, k: Mid)
    requires WellTyped(s) && WellTyped(s') && k in s.mutexes && k in s'.mutexes && s'.mutexes[k] == s.mutexes[k]
    requires base.Keys == s.threads.Keys == s'.threads.Keys && OwnerInv(s, base, k)
    requires s.mutexes[k].owner.Some? ==> var o := s.mutexes[k].owner.get;
               s'.threads[o].prio == s.threads[o].prio && !s'.threads[o].at.Suspended?
    requires forall w :: w in s.mutexes[k].waiters ==>
               s'.threads[w].prio == s.threads[w].prio && s'.since[w] == s.since[w]
    requires s.clock <= s'.clock
    ensures OwnerInv(s', base, k)
  {
    OrderedFrame(s.mutexes[k].waiters, PrioOf(s.threads), PrioOf(s'.threads), s.since, s'.since);
  }

  /** Queued threads are suspended and owners are not. */
  lemma QueuedOwnsNothing(s: Kernel, base: map<Tid, Prio>, w: Tid, k: Mid, l: Mid)
    requires Inheriting(s, base) && k in s.mutexes && w in s.mutexes[k].waiters
    ensures !Owns(s, w, l) && s.threads[w].at.Suspended?
  {
    assert PlaceInv(s, w, k);
    assert l in s.mutexes ==> OwnerInv(s, base, l);
  }

  lemma OwnsOne(s: Kernel, base: map<Tid, Prio>, t: Tid, m: Mid, k: Mid)
    requires Inheriting(s, base) && Owns(s, t, m) && k != m
    ensures !Owns(s, t, k)
  {
  }

  lemma BlockKeepsOther(s: Kernel, base: map<Tid, Prio>, t: Tid, m: Mid, timed: bool, k: Mid)
    requires Inheriting(s, base) && t in s.threads && m in s.mutexes && s.threads[t].at.Running?
    requires s.mutexes[m].value == 0 && !Owns(s, t, m) && !Owns(s, t, k) && k in s.mutexes && k != m
    requires Accounted(Blocked(s, t, m, timed))
    ensures OwnerInv(Blocked(s, t, m, timed), base, k)
  {
    var o := s.mutexes[m].owner.get;
    OwnsOne(s, base, o, m, k);
    forall w | w in s.mutexes[k].waiters ensures w != o && w != t {
      QueuedOwnsNothing(s, base, w, k, m);
    }
    assert OwnerInv(s, base, k);
    BlockFrame(s, t, m, timed, k);
    OwnerFrame(s, Blocked(s, t, m, timed), base, k);
  }

  lemma BlockFrame(s: Kernel, t: Tid, m: Mid, timed: bool, k: Mid)
    requires WellTyped(s) && t in s.threads && m in s.mutexes && s.mutexes[m].owner.Some? && k in s.mutexes && k != m
    ensures var s', o := Blocked(s, t, m, timed), s.mutexes[m].owner.get;
            && s'.threads.Keys == s.threads.Keys && k in s'.mutexes && s'.mutexes[k] == s.mutexes[k] && s.clock <= s'.clock
            && forall u :: u in s.threads && u != t ==>
                 && s'.since[u] == s.since[u] && s'.threads[u].at == s.threads[u].at
                 && (u != o ==> s'.threads[u].prio == s.threads[u].prio)
  {
  }

  lemma BlockKeepsThis(s: Kernel, base: map<Tid, Prio>, t: Tid, m: Mid, timed: bool)
    requires Inheriting(s, base) && t in s.threads && m in s.mutexes && s.threads[t].at.Running?
    requires s.mutexes[m].value == 0 && !Owns(s, t, m)
    requires Accounted(Blocked(s, t, m, timed))
    ensures OwnerInv(Blocked(s, t, m, timed), base, m)
  {
    assert OwnerInv(s, base, m);
    forall w | w in s.mutexes[m].waiters ensures w != s.mutexes[m].owner.get && w != t {
      QueuedOwnsNothing(s, base, w, m, m);
    }
    BlockServes(s, base, t, m, timed);
  }

  lemma BlockServes(s: Kernel, base: map<Tid, Prio>, t: Tid, m: Mid, timed: bool)
    requires WellTyped(s) && t in s.threads && m in s.mutexes && base.Keys == s.threads.Keys && OwnerInv(s, base, m)
    requires s.mutexes[m].owner.Some? && s.mutexes[m].owner != Some(t)
    requires forall w :: w in s.mutexes[m].waiters ==> w != s.mutexes[m].owner.get && w != t
    requires WellTyped(Blocked(s, t, m, timed))
    ensures OwnerInv(Blocked(s, t, m, timed), base, m)
  {
    BlockKeepsOrder(s, t, m, timed);
    BlockMutex(s, t, m, timed);
    BlockThreads(s, t, m, timed);
  }

  lemma BlockMutex(s: Kernel, t: Tid, m: Mid, timed: bool)
    requires WellTyped(s) && t in s.threads && m in s.mutexes && s.mutexes[m].owner.Some?
    ensures var mx, mx' := s.mutexes[m], Blocked(s, t, m, timed).mutexes[m];
            && mx'.owner == mx.owner && mx'.original == mx.original
            && forall w :: w in mx'.waiters <==> w == t || w in mx.waiters
  {
    EnqueuedMembers(s.mutexes[m].waiters, PrioOf(Blocked(s, t, m, timed).threads), t, ByPriority);
  }

  lemma BlockThreads(s: Kernel, t: Tid, m: Mid, timed: bool)
    requires WellTyped(s) && t in s.threads && m in s.mutexes && s.mutexes[m].owner.Some? && s.mutexes[m].owner != Some(t)
    ensures var s', o := Blocked(s, t, m, timed), s.mutexes[m].owner.get;
            && s'.threads.Keys == s.threads.Keys && s'.since == s.since[t := s.clock] && s'.clock == s.clock + 1
            && s'.threads[t].prio == s.threads[t].prio && s'.threads[o].at == s.threads[o].at
            && s'.threads[o].prio == (if s.threads[t].prio < s.threads[o].prio then s.threads[t].prio else s.threads[o].prio)
            && forall u :: u in s.threads && u != t && u != o ==> s'.threads[u] == s.threads[u]
  {
  }

  lemma BlockKeepsOrder(s: Kernel, t: Tid, m: Mid, timed: bool)
    requires WellTyped(s) && t in s.threads && m in s.mutexes && s.mutexes[m].owner.Some? && s.mutexes[m].owner != Some(t)
    requires Ordered(s.mutexes[m].waiters, PrioOf(s.threads), s.since)
    requires forall w :: w in s.mutexes[m].waiters ==> w != s.mutexes[m].owner.get && w != t && s.since[w] < s.clock
    ensures var s' := Blocked(s, t, m, timed);
            s'.threads.Keys == s.threads.Keys && Ordered(s'.mutexes[m].waiters, PrioOf(s'.threads), s'.since)
  {
    var s' := Blocked(s, t, m, timed);
    BlockThreads(s, t, m, timed);
    OrderedFrame(s.mutexes[m].waiters, PrioOf(s.threads), PrioOf(s'.threads), s.since, s'.since);
    EnqueuedOrdered(s.mutexes[m].waiters, PrioOf(s'.threads), s'.since, t);
  }

  ghost predicate SameOwners(s: Kernel, s': Kernel) {
    s'.mutexes.Keys == s.mutexes.Keys && forall k :: k in s.mutexes ==> s'.mutexes[k].owner == s.mutexes[k].owner
  }

  /** A step that moves no ownership leaves "who owns at most one" and the base priorities alone. */
  lemma OwnersFrame(s: Kernel, s': Kernel, base: map<Tid, Prio>)
    requires Inheriting(s, base) && SameOwners(s, s') && s'.threads.Keys == s.threads.Keys
    requires forall u :: u in s.threads && s'.threads[u].prio != s.threads[u].prio ==> exists k :: Owns(s', u, k)
    ensures forall u :: u in s'.threads ==> AtBase(s', base, u)
    ensures forall u, k, l :: Owns(s', u, k) && Owns(s', u, l) ==> k == l
  {
    forall u | u in s'.threads ensures AtBase(s', base, u) {
      assert AtBase(s, base, u);
      if forall k :: !Owns(s', u, k) {
        forall k ensures !Owns(s, u, k) { assert !Owns(s', u, k); }
      }
    }
    forall u, k, l | Owns(s', u, k) && Owns(s', u, l) ensures k == l {
      assert Owns(s, u, k) && Owns(s, u, l);
    }
  }

  /** Enough for the invariant after a step that moves no ownership. */
  lemma Assemble(s: Kernel, s': Kernel, base: map<Tid, Prio>)
    requires Inheriting(s, base) && Accounted(s') && SameOwners(s, s') && s'.threads.Keys == s.threads.Keys
    requires forall u :: u in s.threads && s'.threads[u].prio != s.threads[u].prio ==> exists k :: Owns(s', u, k)
    requires forall k :: k in s'.mutexes ==> OwnerInv(s', base, k)
    ensures Inheriting(s', base)
  {
    OwnersFrame(s, s', base);
  }

  lemma BlockOwnerInv(s: Kernel, base: map<Tid, Prio>, t: Tid, m: Mid, timed: bool, k: Mid)
    requires Inheriting(s, base) && t in s.threads && m in s.mutexes && s.threads[t].at.Running?
    requires s.mutexes[m].value == 0 && !Owns(s, t, m) && !Owns(s, t, k) && k in s.mutexes
    requires Accounted(Blocked(s, t, m, timed))
    ensures OwnerInv(Blocked(s, t, m, timed), base, k)
  {
    if k == m { BlockKeepsThis(s, base, t, m, timed); } else { BlockKeepsOther(s, base, t, m, timed, k); }
  }

  lemma BlockFacts(s: Kernel, t: Tid, m: Mid, timed: bool)
    requires Accounted(s) && t in s.threads && m in s.mutexes && s.mutexes[m].value == 0
    ensures var s' := Blocked(s, t, m, timed);
            SameOwners(s, s') && s'.threads.Keys == s.threads.Keys
            && Owns(s', s.mutexes[m].owner.get, m)
            && forall u :: u in s.threads && s'.threads[u].prio != s.threads[u].prio ==> u == s.mutexes[m].owner.get
  {
  }

  lemma BlockInherits(s: Kernel, base: map<Tid, Prio>, t: Tid, m: Mid, timed: bool)
    requires Inheriting(s, base) && t in s.threads && m in s.mutexes && s.threads[t].at.Running?
    requires s.mutexes[m].value == 0 && forall k :: !Owns(s, t, k)
    ensures Inheriting(Blocked(s, t, m, timed), base)
  {
    assert !Owns(s, t, m);
    BlockAccounted(s, t, m, timed);
    BlockFacts(s, t, m, timed);
    var s' := Blocked(s, t, m, timed);
    forall k | k in s'.mutexes ensures OwnerInv(s', base, k) {
      assert !Owns(s, t, k);
      BlockOwnerInv(s, base, t, m, timed, k);
    }
    Assemble(s, s', base);
  }

  /** Steps that only count holds or note a return. */
  lemma QuietInherits(s: Kernel, s': Kernel, base: map<Tid, Prio>)
    requires Inheriting(s, base) && Accounted(s') && SameOwners(s, s') && s'.threads.Keys == s.threads.Keys
    requires Quiet(s, s')
    ensures Inheriting(s', base)
  {
    assert PrioOf(s'.threads) == PrioOf(s.threads);
    forall k | k in s'.mutexes ensures OwnerInv(s', base, k) {
      assert OwnerInv(s, base, k);
    }
    Assemble(s, s', base);
  }

  /** Only hold counts and the returns of takes differ. */
  ghost predicate Quiet(s: Kernel, s': Kernel) {
    && s'.threads.Keys == s.threads.Keys && s'.mutexes.Keys == s.mutexes.Keys
    && (forall u :: u in s.threads ==> s'.threads[u].prio == s.threads[u].prio && (s'.threads[u].at.Suspended? ==> s.threads[u].at.Suspended?))
    && (forall k :: k in s.mutexes ==>
          var mx, mx' := s.mutexes[k], s'.mutexes[k];
          mx'.owner == mx.owner && mx'.original == mx.original && mx'.waiters == mx.waiters)
    && s'.since == s.since && s'.clock == s.clock
  }

  /** One mutex becomes free or changes hands to a thread that owns nothing; the previous owner,
      if any, is back at its base priority. Everything else about ownership is as before. */
  lemma TransferFrame(s: Kernel, s': Kernel, base: map<Tid, Prio>, m: Mid)
    requires Inheriting(s, base) && s'.threads.Keys == s.threads.Keys && s'.mutexes.Keys == s.mutexes.Keys
    requires m in s.mutexes && forall w, k :: Owns(s', w, m) ==> !Owns(s, w, k)
    requires forall k :: k in s.mutexes && k != m ==> s'.mutexes[k].owner == s.mutexes[k].owner
    requires forall u :: u in s.threads && !Owns(s, u, m) ==> s'.threads[u].prio == s.threads[u].prio
    requires forall u :: u in s.threads && Owns(s, u, m) ==> s'.threads[u].prio == base[u]
    ensures forall u :: u in s'.threads ==> AtBase(s', base, u)
    ensures forall u, k, l :: Owns(s', u, k) && Owns(s', u, l) ==> k == l
  {
    forall u | u in s'.threads ensures AtBase(s', base, u) {
      assert AtBase(s, base, u);
      if (forall k :: !Owns(s', u, k)) && !Owns(s, u, m) {
        forall k ensures !Owns(s, u, k) { assert !Owns(s', u, k); }
      }
    }
    forall u, k, l | Owns(s', u, k) && Owns(s', u, l) ensures k == l {
      assert k != m ==> Owns(s, u, k);
      assert l != m ==> Owns(s, u, l);
    }
  }

  lemma GrantOwnerInv(s: Kernel, base: map<Tid, Prio>, t: Tid, m: Mid, timeout: int, k: Mid)
    requires Inheriting(s, base) && Enabled(s, Take(t, m, timeout)) && AtBase(s, base, t) && s.threads[t].prio == base[t]
    requires s.mutexes[m].owner != Some(t) && s.mutexes[m].value > 0 && k in s.mutexes
    requires Accounted(Taken(s, t, m, timeout))
    ensures OwnerInv(Taken(s, t, m, timeout), base, k)
  {
    assert OwnerInv(s, base, k);
    if k != m { OwnerFrame(s, Taken(s, t, m, timeout), base, k); }
  }

  lemma GrantInherits(s: Kernel, base: map<Tid, Prio>, t: Tid, m: Mid, timeout: int)
    requires Inheriting(s, base) && Enabled(s, Take(t, m, timeout)) && forall k :: !Owns(s, t, k)
    requires s.mutexes[m].owner != Some(t) && s.mutexes[m].value > 0
    ensures Inheriting(Taken(s, t, m, timeout), base)
  {
    var s' := Taken(s, t, m, timeout);
    TakeAccounted(s, t, m, timeout);
    assert AtBase(s, base, t);
    forall k | k in s'.mutexes ensures OwnerInv(s', base, k) {
      GrantOwnerInv(s, base, t, m, timeout, k);
    }
    assert MutexInv(s.mutexes[m]);
    GrantFacts(s, t, m, timeout);
    TransferFrame(s, s', base, m);
  }

  lemma GrantFacts(s: Kernel, t: Tid, m: Mid, timeout: int)
    requires WellTyped(s) && t in s.threads && m in s.mutexes && s.mutexes[m].owner.None? && s.mutexes[m].value > 0
    ensures var s' := Taken(s, t, m, timeout);
            && s'.threads == s.threads && s'.mutexes.Keys == s.mutexes.Keys && s'.mutexes[m].owner == Some(t)
            && (forall k :: k in s.mutexes && k != m ==> s'.mutexes[k].owner == s.mutexes[k].owner)
    ensures forall u :: !Owns(s, u, m)
  {
  }

  lemma TakeInherits(s: Kernel, base: map<Tid, Prio>, t: Tid, m: Mid, timeout: int)
    requires Inheriting(s, base) && Enabled(s, Take(t, m, timeout)) && Disciplined(s, Take(t, m, timeout))
    ensures Inheriting(Taken(s, t, m, timeout), base)
  {
    if Owns(s, t, m) || (s.mutexes[m].value == 0 && timeout == 0) {
      QuietTake(s, base, t, m, timeout);
    } else {
      OwnsNothing(s, t, m, timeout);
      ContendedTake(s, base, t, m, timeout);
    }
  }

  lemma QuietTake(s: Kernel, base: map<Tid, Prio>, t: Tid, m: Mid, timeout: int)
    requires Inheriting(s, base) && Enabled(s, Take(t, m, timeout))
    requires Owns(s, t, m) || (s.mutexes[m].value == 0 && timeout == 0)
    ensures Inheriting(Taken(s, t, m, timeout), base)
  {
    TakeAccounted(s, t, m, timeout);
    QuietTakeFacts(s, t, m, timeout);
    QuietInherits(s, Taken(s, t, m, timeout), base);
  }

  lemma QuietTakeFacts(s: Kernel, t: Tid, m: Mid, timeout: int)
    requires WellTyped(s) && t in s.threads && m in s.mutexes
    requires Owns(s, t, m) || (s.mutexes[m].value == 0 && timeout == 0)
    ensures Quiet(s, Taken(s, t, m, timeout))
  {
  }

  lemma ContendedTake(s: Kernel, base: map<Tid, Prio>, t: Tid, m: Mid, timeout: int)
    requires Inheriting(s, base) && Enabled(s, Take(t, m, timeout)) && forall k :: !Owns(s, t, k)
    requires s.mutexes[m].value == 0 ==> timeout != 0
    ensures Inheriting(Taken(s, t, m, timeout), base)
  {
    assert !Owns(s, t, m);
    if s.mutexes[m].value > 0 {
      GrantInherits(s, base, t, m, timeout);
    } else {
      BlockInherits(s, base, t, m, timeout > 0);
    }
  }

  lemma OwnsNothing(s: Kernel, t: Tid, m: Mid, timeout: int)
    requires Disciplined(s, Take(t, m, timeout)) && !Owns(s, t, m)
    ensures forall k :: !Owns(s, t, k)
  {
    forall k ensures !Owns(s, t, k) { assert Owns(s, t, k) ==> k == m; }
  }

  lemma ReleaseKeepsOther(s: Kernel, base: map<Tid, Prio>, t: Tid, m: Mid, k: Mid)
    requires Inheriting(s, base) && t in s.threads && s.threads[t].at.Running?
    requires Owns(s, t, m) && k in s.mutexes && k != m && Accounted(HandedOn(s, t, m))
    ensures OwnerInv(HandedOn(s, t, m), base, k)
  {
    OwnsOne(s, base, t, m, k);
    assert PlaceInv(s, t, k) && OwnerInv(s, base, k);
    HandOnFrame(s, t, m, k);
    OwnerFrame(s, HandedOn(s, t, m), base, k);
  }

  lemma HandOnFrame(s: Kernel, t: Tid, m: Mid, k: Mid)
    requires WellTyped(s) && t in s.threads && m in s.mutexes && k in s.mutexes && k != m && WellTyped(HandedOn(s, t, m))
    ensures var s' := HandedOn(s, t, m);
            && s'.threads.Keys == s.threads.Keys && k in s'.mutexes && s'.mutexes[k] == s.mutexes[k]
            && s'.since == s.since && s'.clock == s.clock
            && forall u :: u in s.threads && u != t ==>
                 s'.threads[u].prio == s.threads[u].prio && (s'.threads[u].at.Suspended? ==> s.threads[u].at.Suspended?)
  {
  }

  lemma HandOffKeepsThis(s: Kernel, base: map<Tid, Prio>, t: Tid, m: Mid)
    requires Inheriting(s, base) && t in s.threads && s.threads[t].at.Running?
    requires Owns(s, t, m) && s.mutexes[m].waiters != [] && Accounted(HandedOn(s, t, m))
    ensures OwnerInv(HandedOn(s, t, m), base, m)
  {
    var mx, w, s' := s.mutexes[m], s.mutexes[m].waiters[0], HandedOn(s, t, m);
    assert OwnerInv(s, base, m) && PlaceInv(s, t, m) && PlaceInv(s', w, m);
    HeadMostUrgent(s, base, m);
    WithoutMembers(mx.waiters, w);
    WithoutOrdered(mx.waiters, PrioOf(s.threads), s.since, w);
    OrderedFrame(s'.mutexes[m].waiters, PrioOf(s.threads), PrioOf(s'.threads), s.since, s'.since);
  }

  /** The head waiter is at its base priority and no waiter is more urgent. */
  lemma HeadMostUrgent(s: Kernel, base: map<Tid, Prio>, m: Mid)
    requires Inheriting(s, base) && m in s.mutexes && s.mutexes[m].waiters != []
    ensures var w := s.mutexes[m].waiters[0];
            && s.threads[w].prio == base[w] && (forall k :: !Owns(s, w, k))
            && forall u :: u in s.mutexes[m].waiters ==> s.threads[w].prio <= s.threads[u].prio
  {
    var w := s.mutexes[m].waiters[0];
    forall k ensures !Owns(s, w, k) { QueuedOwnsNothing(s, base, w, m, k); }
    assert AtBase(s, base, w) && OwnerInv(s, base, m);
  }

  lemma HandOffInherits(s: Kernel, base: map<Tid, Prio>, t: Tid, m: Mid)
    requires Inheriting(s, base) && t in s.threads && s.threads[t].at.Running?
    requires Owns(s, t, m) && s.mutexes[m].hold == 1 && s.mutexes[m].waiters != []
    ensures Inheriting(HandedOn(s, t, m), base)
  {
    HandOffAccounted(s, t, m);
    HandOffKeepsThis(s, base, t, m);
    var s' := HandedOn(s, t, m);
    forall k | k in s'.mutexes && k != m ensures OwnerInv(s', base, k) {
      ReleaseKeepsOther(s, base, t, m, k);
    }
    HeadMostUrgent(s, base, m);
    assert OwnerInv(s, base, m) && MutexInv(s.mutexes[m]);
    HandOnFacts(s, base, t, m);
    TransferFrame(s, s', base, m);
  }

  lemma FreedInherits(s: Kernel, base: map<Tid, Prio>, t: Tid, m: Mid)
    requires Inheriting(s, base) && t in s.threads && s.threads[t].at.Running?
    requires Owns(s, t, m) && s.mutexes[m].hold == 1 && s.mutexes[m].waiters == []
    ensures Inheriting(HandedOn(s, t, m), base)
  {
    FreedAccounted(s, t, m);
    var s' := HandedOn(s, t, m);
    forall k | k in s'.mutexes ensures OwnerInv(s', base, k) {
      if k != m { ReleaseKeepsOther(s, base, t, m, k); }
    }
    assert OwnerInv(s, base, m) && MutexInv(s.mutexes[m]);
    HandOnFacts(s, base, t, m);
    TransferFrame(s, s', base, m);
  }

  lemma HandOnFacts(s: Kernel, base: map<Tid, Prio>, t: Tid, m: Mid)
    requires WellTyped(s) && base.Keys == s.threads.Keys && t in s.threads && Owns(s, t, m)
    requires s.mutexes[m].original == base[t] && s.mutexes[m].value == 0
    ensures var s' := HandedOn(s, t, m);
            && s'.threads.Keys == s.threads.Keys && s'.mutexes.Keys == s.mutexes.Keys
            && (forall k :: k in s.mutexes && k != m ==> s'.mutexes[k].owner == s.mutexes[k].owner)
            && (forall u :: u in s.threads && u != t ==> s'.threads[u].prio == s.threads[u].prio)
            && s'.threads[t].prio == base[t]
            && s'.mutexes[m].owner == if s.mutexes[m].waiters == [] then None else Some(s.mutexes[m].waiters[0])
  {
  }

  lemma ReleaseInherits(s: Kernel, base: map<Tid, Prio>, t: Tid, m: Mid)
    requires Inheriting(s, base) && Enabled(s, Release(t, m))
    ensures Inheriting(Released(s, t, m), base)
  {
    if Owns(s, t, m) && s.mutexes[m].hold == 1 {
      if s.mutexes[m].waiters != [] { HandOffInherits(s, base, t, m); } else { FreedInherits(s, base, t, m); }
    } else {
      QuietRelease(s, base, t, m);
    }
  }

  lemma QuietRelease(s: Kernel, base: map<Tid, Prio>, t: Tid, m: Mid)
    requires Inheriting(s, base) && Enabled(s, Release(t, m)) && !(Owns(s, t, m) && s.mutexes[m].hold == 1)
    ensures Inheriting(Released(s, t, m), base)
  {
    ReleaseAccounted(s, t, m);
    QuietReleaseFacts(s, t, m);
    QuietInherits(s, Released(s, t, m), base);
  }

  lemma QuietReleaseFacts(s: Kernel, t: Tid, m: Mid)
    requires WellTyped(s) && t in s.threads && m in s.mutexes && !(Owns(s, t, m) && s.mutexes[m].hold == 1)
    ensures Quiet(s, Released(s, t, m))
  {
  }

  lemma TimeoutInherits(s: Kernel, base: map<Tid, Prio>, t: Tid)
    requires Inheriting(s, base) && Enabled(s, TimerFires(t))
    ensures Inheriting(TimedOut(s, t), base)
  {
    TimeoutAccounted(s, t);
    TimeoutFrame(s, t);
    var s' := TimedOut(s, t);
    forall k | k in s'.mutexes ensures OwnerInv(s', base, k) {
      TimeoutOwnerInv(s, base, t, k);
    }
    Assemble(s, s', base);
  }

  lemma TimeoutOwnerInv(s: Kernel, base: map<Tid, Prio>, t: Tid, k: Mid)
    requires Inheriting(s, base) && Enabled(s, TimerFires(t)) && k in s.mutexes && Accounted(TimedOut(s, t))
    ensures OwnerInv(TimedOut(s, t), base, k)
  {
    if k == s.threads[t].at.on {
      TimeoutKeepsThis(s, base, t, k);
    } else {
      TimeoutKeepsOther(s, base, t, k);
    }
  }

  /** The threads and lists after a timeout. */
  lemma TimeoutFrame(s: Kernel, t: Tid)
    requires WellTyped(s) && Enabled(s, TimerFires(t)) && WellTyped(TimedOut(s, t))
    ensures var s', m := TimedOut(s, t), s.threads[t].at.on;
            && s'.threads.Keys == s.threads.Keys && s'.since == s.since && s'.clock == s.clock && s'.net == s.net
            && SameOwners(s, s') && PrioOf(s'.threads) == PrioOf(s.threads)
            && s'.mutexes[m] == s.mutexes[m].(waiters := Without(s.mutexes[m].waiters, t))
            && (forall k :: k in s.mutexes && k != m ==> s'.mutexes[k] == s.mutexes[k])
            && forall u :: u in s.threads ==>
                 s'.threads[u].prio == s.threads[u].prio && (s'.threads[u].at.Suspended? ==> s.threads[u].at.Suspended?)
  {
  }

  lemma TimeoutKeepsThis(s: Kernel, base: map<Tid, Prio>, t: Tid, k: Mid)
    requires Inheriting(s, base) && Enabled(s, TimerFires(t)) && Accounted(TimedOut(s, t)) && k == s.threads[t].at.on
    ensures OwnerInv(TimedOut(s, t), base, k)
  {
    assert OwnerInv(s, base, k);
    TimeoutFrame(s, t);
    WithoutMembers(s.mutexes[k].waiters, t);
    WithoutOrdered(s.mutexes[k].waiters, PrioOf(s.threads), s.since, t);
  }

  lemma TimeoutKeepsOther(s: Kernel, base: map<Tid, Prio>, t: Tid, k: Mid)
    requires Inheriting(s, base) && Enabled(s, TimerFires(t)) && k in s.mutexes && Accounted(TimedOut(s, t))
    requires k != s.threads[t].at.on
    ensures OwnerInv(TimedOut(s, t), base, k)
  {
    assert OwnerInv(s, base, k);
    TimeoutFrame(s, t);
    OwnerFrame(s, TimedOut(s, t), base, k);
  }

  lemma StepInherits(s: Kernel, base: map<Tid, Prio>, a: Action)
    requires Inheriting(s, base) && Enabled(s, a) && Disciplined(s, a)
    ensures Inheriting(Step(s, a), base)
  {
    match a {
      case Take(t, m, timeout) => TakeInherits(s, base, t, m, timeout);
      case Release(t, m) => ReleaseInherits(s, base, t, m);
      case TimerFires(t) => TimeoutInherits(s, base, t);
      case TakeReturns(t) => ReturnInherits(s, base, t);
    }
  }

  lemma ReturnInherits(s: Kernel, base: map<Tid, Prio>, t: Tid)
    requires Inheriting(s, base) && Enabled(s, TakeReturns(t))
    ensures Inheriting(Step(s, TakeReturns(t)), base)
  {
    StepAccounted(s, TakeReturns(t));
    QuietReturn(s, t);
    QuietInherits(s, Step(s, TakeReturns(t)), base);
  }

  lemma QuietReturn(s: Kernel, t: Tid)
    requires WellTyped(s) && Enabled(s, TakeReturns(t))
    ensures Quiet(s, Step(s, TakeReturns(t)))
  {
  }

  ghost predicate DisciplinedRun(s: Kernel, acts: seq<Action>, s': Kernel)
    decreases |acts|
  {
    if acts == [] then s == s'
    else WellTyped(s) && Enabled(s, acts[0]) && Disciplined(s, acts[0]) && DisciplinedRun(Step(s, acts[0]), acts[1..], s')
  }

  lemma {:induction false} RunInherits(s: Kernel, base: map<Tid, Prio>, acts: seq<Action>, s': Kernel)
    requires Inheriting(s, base) && DisciplinedRun(s, acts, s')
    ensures Inheriting(s', base)
    decreases |acts|
  {
    if acts != [] {
      StepInherits(s, base, acts[0]);
      RunInherits(Step(s, acts[0]), base, acts[1..], s');
    }
  }

  /** No waiter is more urgent than the owner. */
  ghost predicate NoInversion(s: Kernel, m: Mid)
    requires WellTyped(s) && m in s.mutexes
  {
    s.mutexes[m].owner.Some? ==>
      forall w :: w in s.mutexes[m].waiters ==> s.threads[s.mutexes[m].owner.get].prio <= s.threads[w].prio
  }

  lemma StartInherits(s: Kernel)
    requires Start(s)
    ensures Inheriting(s, PrioOf(s.threads))
  {
  }

  /** While threads hold one mutex at a time: in every reachable state each wait list is ordered by
      priority and then arrival, the owner is at least as urgent as every waiter, and a thread that
      owns nothing runs at the priority it started with. */
  lemma PriorityInheritance(s: Kernel, acts: seq<Action>, s': Kernel)
    requires Start(s) && DisciplinedRun(s, acts, s')
    ensures WellTyped(s') && s'.threads.Keys == s.threads.Keys
    ensures forall m :: m in s'.mutexes ==> NoInversion(s', m) && Ordered(s'.mutexes[m].waiters, PrioOf(s'.threads), s'.since)
    ensures forall t :: t in s'.threads && (forall m :: !Owns(s', t, m)) ==> s'.threads[t].prio == s.threads[t].prio
  {
    StartInherits(s);
    RunInherits(s, PrioOf(s.threads), acts, s');
    forall m | m in s'.mutexes ensures NoInversion(s', m) && Ordered(s'.mutexes[m].waiters, PrioOf(s'.threads), s'.since) {
      assert OwnerInv(s', PrioOf(s.threads), m);
    }
    forall t | t in s'.threads && (forall m :: !Owns(s', t, m)) ensures s'.threads[t].prio == s.threads[t].prio {
      assert AtBase(s', PrioOf(s.threads), t);
    }
  }

  lemma RunCons(s: Kernel, a: Action, acts: seq<Action>, s': Kernel)
    requires WellTyped(s) && Enabled(s, a) && Run(Step(s, a), acts, s')
    ensures Run(s, [a] + acts, s')
  {
    assert ([a] + acts)[1..] == acts;
  }

  /** The discipline is needed, for any two priorities: thread 0 takes mutexes 0 and 1, thread 1
      blocks on mutex 0 and boosts thread 0, and releasing mutex 1 undoes the boost while thread 1 still waits. */
  lemma NestedMutexesInvert(lo: Prio, hi: Prio)
    requires hi < lo
    ensures Start(Nested(0, lo, hi))
    ensures Run(Nested(0, lo, hi), [Take(0, 0, -1)] + ([Take(0, 1, -1)] + LAST_TWO), Nested(4, lo, hi))
    ensures !NoInversion(Nested(4, lo, hi), 0)
  {
    NestedStart(lo, hi);
    NestedInverts(lo, hi);
    NestedWhole(lo, hi);
  }

  lemma NestedWhole(lo: Prio, hi: Prio)
    requires hi < lo
    ensures Run(Nested(0, lo, hi), [Take(0, 0, -1)] + ([Take(0, 1, -1)] + LAST_TWO), Nested(4, lo, hi))
  {
    NestedPrefix(lo, hi);
    NestedRun(lo, hi);
  }

  lemma NestedStart(lo: Prio, hi: Prio)
    requires hi < lo
    ensures Start(Nested(0, lo, hi))
  {
  }

  lemma NestedInverts(lo: Prio, hi: Prio)
    requires hi < lo
    ensures !NoInversion(Nested(4, lo, hi), 0)
  {
    var s := Nested(4, lo, hi);
    assert s.mutexes[0].waiters[0] == 1 && 1 in s.mutexes[0].waiters;
    assert s.threads[0].prio == lo && s.threads[1].prio == hi;
  }

  const LAST_TWO := [Take(1, 0, -1), Release(0, 1)]

  lemma NestedRun(lo: Prio, hi: Prio)
    requires hi < lo
    ensures Run(Nested(2, lo, hi), LAST_TWO, Nested(4, lo, hi))
  {
    NestedBlock(lo, hi);
    NestedRelease(lo, hi);
    RunCons(Nested(3, lo, hi), Release(0, 1), [], Nested(4, lo, hi));
    RunCons(Nested(2, lo, hi), Take(1, 0, -1), [Release(0, 1)], Nested(4, lo, hi));
    assert [Take(1, 0, -1)] + [Release(0, 1)] == LAST_TWO;
  }

  lemma NestedPrefix(lo: Prio, hi: Prio)
    requires hi < lo
    ensures Run(Nested(2, lo, hi), LAST_TWO, Nested(4, lo, hi)) ==>
              Run(Nested(0, lo, hi), [Take(0, 0, -1)] + ([Take(0, 1, -1)] + LAST_TWO), Nested(4, lo, hi))
  {
    NestedTake0(lo, hi);
    NestedTake1(lo, hi);
    if Run(Nested(2, lo, hi), LAST_TWO, Nested(4, lo, hi)) {
      RunCons(Nested(1, lo, hi), Take(0, 1, -1), LAST_TWO, Nested(4, lo, hi));
      RunCons(Nested(0, lo, hi), Take(0, 0, -1), [Take(0, 1, -1)] + LAST_TWO, Nested(4, lo, hi));
    }
  }

  /** The states of the run in `NestedMutexesInvert`. */
  function Nested(i: nat, lo: Prio, hi: Prio): (s: Kernel)
    requires i <= 4
    ensures WellTyped(s)
  {
    var free := Mutex(1, None, 0, NO_PRIORITY, []);
    var held := Mutex(0, Some(0), 1, lo, []);
    var low, high := Thread(lo, Running), Thread(hi, Running);
    var boosted, waiting := Thread(hi, Running), Thread(hi, Suspended(0, false));
    var never := map[0 := 0, 1 := 0];
    if i == 0 then Kernel(map[0 := low, 1 := high], map[0 := free, 1 := free], map[], never, 0)
    else if i == 1 then Kernel(map[0 := low, 1 := high], map[0 := held, 1 := free], map[(0, 0) := 1], never, 0)
    else if i == 2 then Kernel(map[0 := low, 1 := high], map[0 := held, 1 := held], map[(0, 0) := 1, (1, 0) := 1], never, 0)
    else if i == 3 then
      Kernel(map[0 := boosted, 1 := waiting], map[0 := held.(waiters := [1]), 1 := held], map[(0, 0) := 1, (1, 0) := 1], never, 1)
    else
      Kernel(map[0 := low, 1 := waiting], map[0 := held.(waiters := [1]), 1 := free], map[(0, 0) := 1, (1, 0) := 0], never, 1)
  }

  lemma NestedTake0(lo: Prio, hi: Prio)
    requires hi < lo
    ensures Enabled(Nested(0, lo, hi), Take(0, 0, -1)) && Step(Nested(0, lo, hi), Take(0, 0, -1)) == Nested(1, lo, hi)
  {
  }

  lemma NestedTake1(lo: Prio, hi: Prio)
    requires hi < lo
    ensures Enabled(Nested(1, lo, hi), Take(0, 1, -1)) && Step(Nested(1, lo, hi), Take(0, 1, -1)) == Nested(2, lo, hi)
  {
  }

  lemma NestedBlock(lo: Prio, hi: Prio)
    requires hi < lo
    ensures Enabled(Nested(2, lo, hi), Take(1, 0, -1)) && Step(Nested(2, lo, hi), Take(1, 0, -1)) == Nested(3, lo, hi)
  {
    NestedBlocked(lo, hi);
    NestedBlocks(lo, hi);
  }

  lemma NestedBlocked(lo: Prio, hi: Prio)
    requires hi < lo
    ensures Blocked(Nested(2, lo, hi), 1, 0, false) == Nested(3, lo, hi)
  {
    NestedThreads(lo, hi);
    NestedLists(lo, hi);
    BlockedFirst(Nested(2, lo, hi), Nested(3, lo, hi), 0, 1, 0);
  }

  /** What suspending the first waiter does, when it boosts the owner. */
  lemma BlockedFirst(s: Kernel, s': Kernel, o: Tid, t: Tid, m: Mid)
    requires WellTyped(s) && o in s.threads && t in s.threads && o != t && s.threads[t].prio < s.threads[o].prio
    requires m in s.mutexes && s.mutexes[m].owner == Some(o) && s.mutexes[m].waiters == []
    requires s'.threads == Reprioritized(s.threads, o, s.threads[t].prio)[t := s.threads[t].(at := Suspended(m, false))]
    requires s'.mutexes == s.mutexes[m := s.mutexes[m].(waiters := [t])]
    requires s'.net == s.net && s'.since == s.since[t := s.clock] && s'.clock == s.clock + 1
    ensures Blocked(s, t, m, false) == s'
  {
    EnqueuedAlone(PrioOf(s'.threads), t);
  }

  lemma NestedLists(lo: Prio, hi: Prio)
    requires hi < lo
    ensures var s, s' := Nested(2, lo, hi), Nested(3, lo, hi);
            && 0 in s.mutexes && s'.mutexes == s.mutexes[0 := s.mutexes[0].(waiters := [1])]
            && s'.since == s.since[1 := s.clock] && s'.net == s.net && s'.clock == s.clock + 1
  {
  }

  lemma NestedThreads(lo: Prio, hi: Prio)
    requires hi < lo
    ensures var threads := Nested(2, lo, hi).threads;
            Reprioritized(threads, 0, hi)[1 := threads[1].(at := Suspended(0, false))] == Nested(3, lo, hi).threads
  {
  }

  lemma NestedBlocks(lo: Prio, hi: Prio)
    requires hi < lo
    ensures Enabled(Nested(2, lo, hi), Take(1, 0, -1)) && Step(Nested(2, lo, hi), Take(1, 0, -1)) == Blocked(Nested(2, lo, hi), 1, 0, false)
  {
  }

  lemma NestedRelease(lo: Prio, hi: Prio)
    requires hi < lo
    ensures Enabled(Nested(3, lo, hi), Release(0, 1)) && Step(Nested(3, lo, hi), Release(0, 1)) == Nested(4, lo, hi)
  {
  }
}
