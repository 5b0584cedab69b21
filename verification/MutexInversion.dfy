/**
 Exactly when a step of the mutex machine leaves a waiter more urgent than the owner it
 waits for. Threads may hold and await any number of mutexes here.
 */
module MutexInversion {
  import opened WaitList
  import opened MutexSpec

  ghost predicate Uninverted(s: Kernel)
    requires WellTyped(s)
  {
    forall m :: m in s.mutexes ==> NoInversion(s, m)
  }

  ghost predicate ListsOrdered(s: Kernel)
    requires WellTyped(s)
  {
    forall m :: m in s.mutexes ==> Ordered(s.mutexes[m].waiters, PrioOf(s.threads), s.since)
  }

  // ----- the steps that change who is urgent, and their guards -----

  /** The release gives up the last level of holding. */
  predicate GivesUp(s: Kernel, a: Action) {
    a.Release? && a.m in s.mutexes && s.mutexes[a.m].owner == Some(a.t) && s.mutexes[a.m].hold == 1
  }

  /** The take suspends its caller. */
  predicate Blocks(s: Kernel, a: Action) {
    a.Take? && a.m in s.mutexes && s.mutexes[a.m].owner != Some(a.t) && s.mutexes[a.m].value == 0 && a.timeout != 0
  }

  /** The priority that the release of `m` restores still serves every waiter of the other mutexes
      its thread owns. */
  ghost predicate RestoreServes(s: Kernel, t: Tid, m: Mid)
    requires WellTyped(s) && m in s.mutexes
  {
    forall k, w :: k in s.mutexes && k != m && s.mutexes[k].owner == Some(t) && w in s.mutexes[k].waiters ==>
      s.mutexes[m].original <= s.threads[w].prio
  }

  /** The waiter that a release of `m` would hand it to is as urgent as every other. A list whose members
      changed their priorities while they waited need not begin with the most urgent one. */
  ghost predicate HandOffServes(s: Kernel, m: Mid)
    requires WellTyped(s) && m in s.mutexes
  {
    var q := s.mutexes[m].waiters;
    q != [] ==> forall w :: w in q ==> s.threads[q[0]].prio <= s.threads[w].prio
  }

  /** The owner of `m` is not boosted, or is not queued itself on a mutex whose owner is less urgent
      than the caller `t`. */
  ghost predicate BoostServes(s: Kernel, t: Tid, m: Mid)
    requires WellTyped(s) && t in s.threads && m in s.mutexes && s.mutexes[m].owner.Some?
  {
    var o := s.mutexes[m].owner.get;
    s.threads[t].prio < s.threads[o].prio ==>
      forall k :: k in s.mutexes && o in s.mutexes[k].waiters && s.mutexes[k].owner.Some? ==>
        s.threads[s.mutexes[k].owner.get].prio <= s.threads[t].prio
  }

  /** A priority given from outside serves the waiters of what the thread owns, and the owners of
      what it awaits serve it. */
  ghost predicate ChangeServes(s: Kernel, t: Tid, p: Prio)
    requires WellTyped(s)
  {
    && (forall k, w :: k in s.mutexes && s.mutexes[k].owner == Some(t) && w in s.mutexes[k].waiters ==> p <= s.threads[w].prio)
    && forall k :: k in s.mutexes && t in s.mutexes[k].waiters && s.mutexes[k].owner.Some? ==>
         s.threads[s.mutexes[k].owner.get].prio <= p
  }

  ghost predicate Guarded(s: Kernel, a: Action)
    requires Accounted(s) && Enabled(s, a)
  {
    && (GivesUp(s, a) ==> RestoreServes(s, a.t, a.m) && HandOffServes(s, a.m))
    && (Blocks(s, a) ==> (assert MutexInv(s.mutexes[a.m]); BoostServes(s, a.t, a.m)))
    && (a.SetPriority? ==> ChangeServes(s, a.t, a.p))
  }

  // ----- each step, in both directions -----

  /** An ordered list begins with its most urgent member. */
  lemma OrderedServes(s: Kernel, m: Mid)
    requires Accounted(s) && m in s.mutexes && Ordered(s.mutexes[m].waiters, PrioOf(s.threads), s.since)
    ensures HandOffServes(s, m)
  {
    var q := s.mutexes[m].waiters;
    forall w | w in q && q != [] ensures s.threads[q[0]].prio <= s.threads[w].prio {
      var j :| 0 <= j < |q| && q[j] == w;
      assert q[0] in q;
    }
  }

  lemma HandedOnPriorities(s: Kernel, t: Tid, m: Mid)
    requires WellTyped(s) && t in s.threads && m in s.mutexes
    ensures var s' := HandedOn(s, t, m);
            && s'.threads.Keys == s.threads.Keys && s'.since == s.since && s'.clock == s.clock
            && (forall u :: u in s.threads && u != t ==> s'.threads[u].prio == s.threads[u].prio)
            && s'.threads[t].prio == s.mutexes[m].original
  {
  }

  /** Mutex `k` after thread `t` gave up mutex `m`. */
  ghost predicate ServedAfter(s: Kernel, t: Tid, m: Mid, k: Mid)
    requires WellTyped(s) && m in s.mutexes && k in s.mutexes
  {
    if k == m then HandOffServes(s, m)
    else s.mutexes[k].owner == Some(t) ==> forall w :: w in s.mutexes[k].waiters ==> s.mutexes[m].original <= s.threads[w].prio
  }

  lemma GivenUpAt(s: Kernel, t: Tid, m: Mid, k: Mid)
    requires Accounted(s) && Uninverted(s) && Enabled(s, Release(t, m)) && GivesUp(s, Release(t, m))
    requires k in s.mutexes && Accounted(HandedOn(s, t, m))
    ensures NoInversion(HandedOn(s, t, m), k) <==> ServedAfter(s, t, m, k)
  {
    assert PlaceInv(s, t, k) && PlaceInv(s, t, m);
    if k == m {
      GivenUpHere(s, t, m);
    } else {
      assert NoInversion(s, k);
      HandedOnPriorities(s, t, m);
      assert HandedOn(s, t, m).mutexes[k] == s.mutexes[k];
    }
  }

  lemma GivenUpHere(s: Kernel, t: Tid, m: Mid)
    requires Accounted(s) && m in s.mutexes && Enabled(s, Release(t, m)) && GivesUp(s, Release(t, m))
    requires Accounted(HandedOn(s, t, m))
    ensures NoInversion(HandedOn(s, t, m), m) <==> HandOffServes(s, m)
  {
    assert MutexInv(s.mutexes[m]) && PlaceInv(s, t, m);
    HandedOnPriorities(s, t, m);
    if s.mutexes[m].waiters != [] {
      WithoutMembers(s.mutexes[m].waiters, s.mutexes[m].waiters[0]);
    }
  }

  lemma GivenUp(s: Kernel, t: Tid, m: Mid)
    requires Accounted(s) && Uninverted(s) && Enabled(s, Release(t, m)) && GivesUp(s, Release(t, m))
    requires Accounted(HandedOn(s, t, m))
    ensures Uninverted(HandedOn(s, t, m)) <==> RestoreServes(s, t, m) && HandOffServes(s, m)
  {
    forall k | k in s.mutexes ensures NoInversion(HandedOn(s, t, m), k) <==> ServedAfter(s, t, m, k) {
      GivenUpAt(s, t, m, k);
    }
    ServedAll(s, t, m);
  }

  lemma ServedAll(s: Kernel, t: Tid, m: Mid)
    requires WellTyped(s) && m in s.mutexes
    ensures (forall k :: k in s.mutexes ==> ServedAfter(s, t, m, k)) <==> RestoreServes(s, t, m) && HandOffServes(s, m)
  {
    if forall k :: k in s.mutexes ==> ServedAfter(s, t, m, k) {
      assert ServedAfter(s, t, m, m);
      forall k, w | k in s.mutexes && k != m && s.mutexes[k].owner == Some(t) && w in s.mutexes[k].waiters
        ensures s.mutexes[m].original <= s.threads[w].prio
      {
        assert ServedAfter(s, t, m, k);
      }
    }
  }

  /** Mutex `k` after thread `t` was suspended on mutex `m`. */
  lemma BlockedAt(s: Kernel, t: Tid, m: Mid, timed: bool, k: Mid)
    requires Accounted(s) && Uninverted(s) && t in s.threads && m in s.mutexes && s.threads[t].at.Running?
    requires s.mutexes[m].value == 0 && s.mutexes[m].owner.Some? && s.mutexes[m].owner != Some(t)
    requires k in s.mutexes && Accounted(Blocked(s, t, m, timed))
    ensures var s', o := Blocked(s, t, m, timed), s.mutexes[m].owner.get;
            NoInversion(s', k) <==> (s.threads[t].prio < s.threads[o].prio && o in s.mutexes[k].waiters && s.mutexes[k].owner.Some? ==>
                                       s.threads[s.mutexes[k].owner.get].prio <= s.threads[t].prio)
  {
    assert NoInversion(s, k);
    if k == m {
      BlockedHere(s, t, m, timed);
    } else {
      assert PlaceInv(s, t, k) && MutexInv(s.mutexes[k]);
      BlockedElsewhere(s, t, m, timed, k);
    }
  }

  lemma BlockedElsewhere(s: Kernel, t: Tid, m: Mid, timed: bool, k: Mid)
    requires WellTyped(s) && t in s.threads && m in s.mutexes && s.mutexes[m].owner.Some? && s.mutexes[m].owner != Some(t)
    requires k in s.mutexes && k != m && t !in s.mutexes[k].waiters && NoInversion(s, k) && WellTyped(Blocked(s, t, m, timed))
    requires s.mutexes[k].owner.Some? ==> s.mutexes[k].owner.get !in s.mutexes[k].waiters
    ensures var s', o := Blocked(s, t, m, timed), s.mutexes[m].owner.get;
            k in s'.mutexes
            && (NoInversion(s', k) <==> (s.threads[t].prio < s.threads[o].prio && o in s.mutexes[k].waiters && s.mutexes[k].owner.Some? ==>
                                           s.threads[s.mutexes[k].owner.get].prio <= s.threads[t].prio))
  {
    BlockThreads(s, t, m, timed);
    BlockFrame(s, t, m, timed, k);
  }

  lemma BlockedHere(s: Kernel, t: Tid, m: Mid, timed: bool)
    requires Accounted(s) && t in s.threads && m in s.mutexes && NoInversion(s, m)
    requires s.mutexes[m].owner.Some? && s.mutexes[m].owner != Some(t)
    requires Accounted(Blocked(s, t, m, timed))
    ensures NoInversion(Blocked(s, t, m, timed), m) && s.mutexes[m].owner.get !in s.mutexes[m].waiters
  {
    assert MutexInv(s.mutexes[m]);
    BlockThreads(s, t, m, timed);
    EnqueuedMembers(s.mutexes[m].waiters, PrioOf(Blocked(s, t, m, timed).threads), t, ByPriority);
  }

  lemma BlockedIff(s: Kernel, t: Tid, m: Mid, timed: bool)
    requires Accounted(s) && Uninverted(s) && t in s.threads && m in s.mutexes && s.threads[t].at.Running?
    requires s.mutexes[m].value == 0 && s.mutexes[m].owner.Some? && s.mutexes[m].owner != Some(t)
    requires Accounted(Blocked(s, t, m, timed))
    ensures Uninverted(Blocked(s, t, m, timed)) <==> BoostServes(s, t, m)
  {
    var o := s.mutexes[m].owner.get;
    forall k | k in s.mutexes
      ensures NoInversion(Blocked(s, t, m, timed), k) <==>
                (s.threads[t].prio < s.threads[o].prio && o in s.mutexes[k].waiters && s.mutexes[k].owner.Some? ==>
                   s.threads[s.mutexes[k].owner.get].prio <= s.threads[t].prio)
    {
      BlockedAt(s, t, m, timed, k);
    }
  }

  ghost predicate ChangeServesAt(s: Kernel, t: Tid, p: Prio, k: Mid)
    requires WellTyped(s) && k in s.mutexes
  {
    && (s.mutexes[k].owner == Some(t) ==> forall w :: w in s.mutexes[k].waiters ==> p <= s.threads[w].prio)
    && (t in s.mutexes[k].waiters && s.mutexes[k].owner.Some? ==> s.threads[s.mutexes[k].owner.get].prio <= p)
  }

  lemma ChangedAt(s: Kernel, t: Tid, p: Prio, k: Mid)
    requires Accounted(s) && Uninverted(s) && t in s.threads && k in s.mutexes && Accounted(Step(s, SetPriority(t, p)))
    ensures NoInversion(Step(s, SetPriority(t, p)), k) <==> ChangeServesAt(s, t, p, k)
  {
    assert NoInversion(s, k) && MutexInv(s.mutexes[k]);
  }

  lemma ChangedIff(s: Kernel, t: Tid, p: Prio)
    requires Accounted(s) && Uninverted(s) && t in s.threads && Accounted(Step(s, SetPriority(t, p)))
    ensures Uninverted(Step(s, SetPriority(t, p))) <==> ChangeServes(s, t, p)
  {
    forall k | k in s.mutexes ensures NoInversion(Step(s, SetPriority(t, p)), k) <==> ChangeServesAt(s, t, p, k) {
      ChangedAt(s, t, p, k);
    }
    ChangeServesAll(s, t, p);
  }

  lemma ChangeServesAll(s: Kernel, t: Tid, p: Prio)
    requires WellTyped(s)
    ensures (forall k :: k in s.mutexes ==> ChangeServesAt(s, t, p, k)) <==> ChangeServes(s, t, p)
  {
    if forall k :: k in s.mutexes ==> ChangeServesAt(s, t, p, k) {
      forall k, w | k in s.mutexes && s.mutexes[k].owner == Some(t) && w in s.mutexes[k].waiters ensures p <= s.threads[w].prio {
        assert ChangeServesAt(s, t, p, k);
      }
      forall k | k in s.mutexes && t in s.mutexes[k].waiters && s.mutexes[k].owner.Some?
        ensures s.threads[s.mutexes[k].owner.get].prio <= p
      {
        assert ChangeServesAt(s, t, p, k);
      }
    }
  }

  /** Steps that neither suspend, give up nor set a priority leave every priority, and give no mutex
      a waiter. */
  lemma QuietAt(s: Kernel, a: Action, k: Mid)
    requires Accounted(s) && Enabled(s, a) && !GivesUp(s, a) && !Blocks(s, a) && !a.SetPriority? && k in s.mutexes
    requires Accounted(Step(s, a))
    ensures var s' := Step(s, a);
            && WellTyped(s') && k in s'.mutexes && PrioOf(s'.threads) == PrioOf(s.threads) && s'.since == s.since
            && s'.clock == s.clock && s'.mutexes.Keys == s.mutexes.Keys
            && (s'.mutexes[k].owner == s.mutexes[k].owner || s.mutexes[k].waiters == [])
            && (s'.mutexes[k].waiters == s.mutexes[k].waiters
                || (a.TimerFires? && s'.mutexes[k].waiters == Without(s.mutexes[k].waiters, a.t)))
  {
    assert MutexInv(s.mutexes[k]);
    match a
    case Take(t, m, timeout) => QuietTakeAt(s, t, m, timeout);
    case Release(t, m) => QuietReleaseAt(s, t, m);
    case TimerFires(t) => TimeoutFrame(s, t);
    case TakeReturns(t) => assert PrioOf(Step(s, a).threads) == PrioOf(s.threads);
  }

  lemma QuietReleaseAt(s: Kernel, t: Tid, m: Mid)
    requires Accounted(s) && Enabled(s, Release(t, m)) && !GivesUp(s, Release(t, m))
    ensures var s' := Step(s, Release(t, m));
            && s'.threads == s.threads && s'.since == s.since && s'.clock == s.clock && s'.mutexes.Keys == s.mutexes.Keys
            && (forall k :: k in s.mutexes && k != m ==> s'.mutexes[k] == s.mutexes[k])
            && s'.mutexes[m].waiters == s.mutexes[m].waiters && s'.mutexes[m].owner == s.mutexes[m].owner
  {
    assert MutexInv(s.mutexes[m]);
  }

  lemma QuietTakeAt(s: Kernel, t: Tid, m: Mid, timeout: int)
    requires Accounted(s) && Enabled(s, Take(t, m, timeout)) && !Blocks(s, Take(t, m, timeout))
    ensures var s' := Taken(s, t, m, timeout);
            && s'.threads == s.threads && s'.since == s.since && s'.clock == s.clock && s'.mutexes.Keys == s.mutexes.Keys
            && (forall k :: k in s.mutexes && k != m ==> s'.mutexes[k] == s.mutexes[k])
            && s'.mutexes[m].waiters == s.mutexes[m].waiters
            && (s'.mutexes[m].owner == s.mutexes[m].owner || s.mutexes[m].waiters == [])
  {
    assert MutexInv(s.mutexes[m]);
  }

  lemma QuietKeeps(s: Kernel, a: Action)
    requires Accounted(s) && Uninverted(s) && Enabled(s, a) && Accounted(Step(s, a))
    requires !GivesUp(s, a) && !Blocks(s, a) && !a.SetPriority?
    ensures Uninverted(Step(s, a))
  {
    var s' := Step(s, a);
    forall k | k in s'.mutexes ensures NoInversion(s', k) {
      QuietNoInversion(s, a, k);
    }
  }

  lemma QuietNoInversion(s: Kernel, a: Action, k: Mid)
    requires Accounted(s) && Uninverted(s) && Enabled(s, a) && Accounted(Step(s, a)) && k in Step(s, a).mutexes
    requires !GivesUp(s, a) && !Blocks(s, a) && !a.SetPriority?
    ensures NoInversion(Step(s, a), k)
  {
    var s' := Step(s, a);
    QuietKeys(s, a, k);
    QuietAt(s, a, k);
    assert NoInversion(s, k);
    if a.TimerFires? { WithoutMembers(s.mutexes[k].waiters, a.t); }
    forall w | w in s'.mutexes[k].waiters && s'.mutexes[k].owner.Some?
      ensures s'.threads[s'.mutexes[k].owner.get].prio <= s'.threads[w].prio
    {
      var o := s'.mutexes[k].owner.get;
      assert PrioOf(s'.threads)[o] == PrioOf(s.threads)[o] && PrioOf(s'.threads)[w] == PrioOf(s.threads)[w];
    }
  }

  lemma QuietKeys(s: Kernel, a: Action, k: Mid)
    requires Accounted(s) && Enabled(s, a) && k in Step(s, a).mutexes
    ensures k in s.mutexes
  {
  }

  /** A step from an accounted state without inversion keeps it so exactly when its guard holds, and
      every guard can be read off before the step. */
  lemma InversionIff(s: Kernel, a: Action)
    requires Accounted(s) && Uninverted(s) && Enabled(s, a)
    ensures Accounted(Step(s, a)) && (Uninverted(Step(s, a)) <==> Guarded(s, a))
  {
    StepAccounted(s, a);
    if GivesUp(s, a) {
      GivenUp(s, a.t, a.m);
    } else if Blocks(s, a) {
      assert MutexInv(s.mutexes[a.m]);
      BlockedIff(s, a.t, a.m, a.timeout > 0);
    } else if a.SetPriority? {
      ChangedIff(s, a.t, a.p);
    } else {
      QuietKeeps(s, a);
    }
  }

  // ----- runs -----

  /** No state of the run has an inversion. */
  ghost predicate NeverInverted(s: Kernel, acts: seq<Action>)
    decreases |acts|
  {
    && Accounted(s) && Uninverted(s)
    && (acts != [] ==> Enabled(s, acts[0]) && NeverInverted(Step(s, acts[0]), acts[1..]))
  }

  /** Every step of the run meets its guard. */
  ghost predicate AlwaysGuarded(s: Kernel, acts: seq<Action>)
    decreases |acts|
  {
    acts == [] || (Accounted(s) && Enabled(s, acts[0]) && Guarded(s, acts[0]) && AlwaysGuarded(Step(s, acts[0]), acts[1..]))
  }

  /** Over every run, whatever the threads hold, await and set: no waiter is ever more urgent than the
      owner exactly when every guard was met. */
  lemma {:induction false} RunInversionIff(s: Kernel, acts: seq<Action>, s': Kernel)
    requires Accounted(s) && Uninverted(s) && Run(s, acts, s')
    ensures NeverInverted(s, acts) <==> AlwaysGuarded(s, acts)
    decreases |acts|
  {
    if acts != [] {
      InversionIff(s, acts[0]);
      if Guarded(s, acts[0]) {
        RunInversionIff(Step(s, acts[0]), acts[1..], s');
      }
    }
  }

  /** In particular from the start. */
  lemma InversionFromStart(s: Kernel, acts: seq<Action>, s': Kernel)
    requires Start(s) && Run(s, acts, s')
    ensures NeverInverted(s, acts) <==> AlwaysGuarded(s, acts)
  {
    StartSorted(s);
    RunInversionIff(s, acts, s');
  }

  // ----- where the hand-off guard holds by itself: lists nobody has stirred -----

  /** Stamps of queued threads lie in the past. */
  ghost predicate Stamped(s: Kernel)
    requires WellTyped(s)
  {
    forall m, w :: m in s.mutexes && w in s.mutexes[m].waiters ==> s.since[w] < s.clock
  }

  /** The step changes no priority of a thread that waits: the source leaves such a thread where it is
      in its list. */
  ghost predicate Unstirred(s: Kernel, a: Action)
    requires Accounted(s) && Enabled(s, a)
  {
    && (Blocks(s, a) ==>
          assert MutexInv(s.mutexes[a.m]);
          var o := s.mutexes[a.m].owner.get;
          s.threads[a.t].prio < s.threads[o].prio ==> !s.threads[o].at.Suspended?)
    && (a.SetPriority? ==> !s.threads[a.t].at.Suspended?)
  }

  ghost predicate Sorted(s: Kernel) {
    Accounted(s) && ListsOrdered(s) && Stamped(s)
  }

  ghost predicate ListFine(s: Kernel, k: Mid)
    requires WellTyped(s) && k in s.mutexes
  {
    && Ordered(s.mutexes[k].waiters, PrioOf(s.threads), s.since)
    && forall w :: w in s.mutexes[k].waiters ==> s.since[w] < s.clock
  }

  lemma AllFine(s: Kernel)
    requires Accounted(s) && forall k :: k in s.mutexes ==> ListFine(s, k)
    ensures Sorted(s)
  {
    forall k, w | k in s.mutexes && w in s.mutexes[k].waiters ensures s.since[w] < s.clock {
      assert ListFine(s, k);
    }
    forall k | k in s.mutexes ensures Ordered(s.mutexes[k].waiters, PrioOf(s.threads), s.since) {
      assert ListFine(s, k);
    }
  }

  /** One list keeps its order when its members keep their priorities and stamps, also without `t`. */
  lemma ListKept(s: Kernel, s': Kernel, k: Mid, q: seq<Tid>, t: Tid)
    requires Sorted(s) && WellTyped(s') && k in s.mutexes && s'.threads.Keys == s.threads.Keys && s.clock <= s'.clock
    requires q == s.mutexes[k].waiters || q == Without(s.mutexes[k].waiters, t)
    requires forall w :: w in s.mutexes[k].waiters ==> s'.threads[w].prio == s.threads[w].prio && s'.since[w] == s.since[w]
    ensures Ordered(q, PrioOf(s'.threads), s'.since) && forall w :: w in q ==> w in s'.since && s'.since[w] < s'.clock
  {
    var was := s.mutexes[k].waiters;
    OrderedFrame(was, PrioOf(s.threads), PrioOf(s'.threads), s.since, s'.since);
    if q != was {
      WithoutOrdered(was, PrioOf(s'.threads), s'.since, t);
      WithoutMembers(was, t);
    }
  }

  lemma GivenUpSorted(s: Kernel, t: Tid, m: Mid)
    requires Sorted(s) && Enabled(s, Release(t, m)) && GivesUp(s, Release(t, m)) && Accounted(HandedOn(s, t, m))
    ensures Sorted(HandedOn(s, t, m))
  {
    forall k | k in s.mutexes ensures ListFine(HandedOn(s, t, m), k) {
      GivenUpListKept(s, t, m, k);
    }
    AllFine(HandedOn(s, t, m));
  }

  lemma GivenUpListKept(s: Kernel, t: Tid, m: Mid, k: Mid)
    requires Sorted(s) && Enabled(s, Release(t, m)) && GivesUp(s, Release(t, m)) && Accounted(HandedOn(s, t, m))
    requires k in s.mutexes
    ensures ListFine(HandedOn(s, t, m), k)
  {
    assert PlaceInv(s, t, k);
    HandedOnPriorities(s, t, m);
    HandedOnWaiters(s, t, m, k);
    var q := s.mutexes[k].waiters;
    ListKept(s, HandedOn(s, t, m), k, HandedOn(s, t, m).mutexes[k].waiters, if q != [] then q[0] else t);
  }

  lemma HandedOnWaiters(s: Kernel, t: Tid, m: Mid, k: Mid)
    requires WellTyped(s) && t in s.threads && m in s.mutexes && k in s.mutexes
    ensures var q, q' := s.mutexes[k].waiters, HandedOn(s, t, m).mutexes[k].waiters;
            q' == if k == m && q != [] then Without(q, q[0]) else q
  {
  }

  lemma BlockedSorted(s: Kernel, t: Tid, m: Mid, timeout: int)
    requires Sorted(s) && Enabled(s, Take(t, m, timeout)) && Blocks(s, Take(t, m, timeout)) && Unstirred(s, Take(t, m, timeout))
    requires Accounted(Blocked(s, t, m, timeout > 0))
    ensures Sorted(Blocked(s, t, m, timeout > 0))
  {
    forall k | k in s.mutexes ensures ListFine(Blocked(s, t, m, timeout > 0), k) {
      BlockedListKept(s, t, m, timeout, k);
    }
    AllFine(Blocked(s, t, m, timeout > 0));
  }

  lemma BlockedListKept(s: Kernel, t: Tid, m: Mid, timeout: int, k: Mid)
    requires Sorted(s) && Enabled(s, Take(t, m, timeout)) && Blocks(s, Take(t, m, timeout)) && Unstirred(s, Take(t, m, timeout))
    requires Accounted(Blocked(s, t, m, timeout > 0)) && k in s.mutexes
    ensures ListFine(Blocked(s, t, m, timeout > 0), k)
  {
    assert MutexInv(s.mutexes[m]) && PlaceInv(s, t, k) && PlaceInv(s, s.mutexes[m].owner.get, k);
    BlockedKeepsList(s, t, m, timeout > 0, k);
    if k == m { BlockedHereSorted(s, t, m, timeout > 0); } else { BlockFrame(s, t, m, timeout > 0, k); }
  }

  /** What list `k` held before the step is still in order by the priorities and stamps after it. */
  lemma BlockedKeepsList(s: Kernel, t: Tid, m: Mid, timed: bool, k: Mid)
    requires Sorted(s) && t in s.threads && m in s.mutexes && s.mutexes[m].owner.Some? && s.mutexes[m].owner != Some(t)
    requires k in s.mutexes && t !in s.mutexes[k].waiters && WellTyped(Blocked(s, t, m, timed))
    requires var o := s.mutexes[m].owner.get; o in s.mutexes[k].waiters ==> s.threads[t].prio >= s.threads[o].prio
    ensures var s', q := Blocked(s, t, m, timed), s.mutexes[k].waiters;
            s'.threads.Keys == s.threads.Keys && s'.clock == s.clock + 1 && Ordered(q, PrioOf(s'.threads), s'.since)
            && forall w :: w in q ==> w in s'.since && s'.since[w] < s'.clock - 1
  {
    BlockThreads(s, t, m, timed);
    ListKept(s, Blocked(s, t, m, timed), k, s.mutexes[k].waiters, t);
  }

  lemma BlockedHereSorted(s: Kernel, t: Tid, m: Mid, timed: bool)
    requires Accounted(s) && t in s.threads && m in s.mutexes && s.mutexes[m].owner.Some? && t !in s.mutexes[m].waiters
    requires var s' := Blocked(s, t, m, timed);
             WellTyped(s') && Ordered(s.mutexes[m].waiters, PrioOf(s'.threads), s'.since)
             && forall w :: w in s.mutexes[m].waiters ==> w in s'.since && s'.since[w] < s'.clock - 1
    ensures ListFine(Blocked(s, t, m, timed), m)
  {
    var s', q := Blocked(s, t, m, timed), s.mutexes[m].waiters;
    EnqueuedOrdered(q, PrioOf(s'.threads), s'.since, t);
    EnqueuedMembers(q, PrioOf(s'.threads), t, ByPriority);
  }

  lemma ChangedSorted(s: Kernel, t: Tid, p: Prio)
    requires Sorted(s) && Enabled(s, SetPriority(t, p)) && Unstirred(s, SetPriority(t, p)) && Accounted(Step(s, SetPriority(t, p)))
    ensures Sorted(Step(s, SetPriority(t, p)))
  {
    var s' := Step(s, SetPriority(t, p));
    forall k | k in s.mutexes
      ensures Ordered(s'.mutexes[k].waiters, PrioOf(s'.threads), s'.since)
      ensures forall w :: w in s'.mutexes[k].waiters ==> s'.since[w] < s'.clock
    {
      assert PlaceInv(s, t, k);
      ListKept(s, s', k, s.mutexes[k].waiters, t);
    }
  }

  lemma QuietSorted(s: Kernel, a: Action)
    requires Sorted(s) && Enabled(s, a) && Accounted(Step(s, a)) && !GivesUp(s, a) && !Blocks(s, a) && !a.SetPriority?
    ensures Sorted(Step(s, a))
  {
    forall k | k in Step(s, a).mutexes ensures ListFine(Step(s, a), k) {
      QuietListKept(s, a, k);
    }
    AllFine(Step(s, a));
  }

  lemma QuietListKept(s: Kernel, a: Action, k: Mid)
    requires Sorted(s) && Enabled(s, a) && Accounted(Step(s, a)) && !GivesUp(s, a) && !Blocks(s, a) && !a.SetPriority?
    requires k in Step(s, a).mutexes
    ensures ListFine(Step(s, a), k)
  {
    var s' := Step(s, a);
    QuietKeys(s, a, k);
    QuietAt(s, a, k);
    assert s'.threads.Keys == PrioOf(s'.threads).Keys == s.threads.Keys;
    forall w | w in s.mutexes[k].waiters ensures s'.threads[w].prio == s.threads[w].prio {
      assert PrioOf(s'.threads)[w] == PrioOf(s.threads)[w];
    }
    ListKept(s, s', k, s'.mutexes[k].waiters, a.t);
  }

  lemma StepSorted(s: Kernel, a: Action)
    requires Sorted(s) && Enabled(s, a) && Unstirred(s, a)
    ensures Sorted(Step(s, a))
  {
    StepAccounted(s, a);
    if GivesUp(s, a) {
      GivenUpSorted(s, a.t, a.m);
    } else if Blocks(s, a) {
      assert MutexInv(s.mutexes[a.m]);
      BlockedSorted(s, a.t, a.m, a.timeout);
    } else if a.SetPriority? {
      ChangedSorted(s, a.t, a.p);
    } else {
      QuietSorted(s, a);
    }
  }

  lemma StartSorted(s: Kernel)
    requires Start(s)
    ensures Sorted(s) && Uninverted(s)
  {
  }

  ghost predicate UnstirredRun(s: Kernel, acts: seq<Action>, s': Kernel)
    decreases |acts|
  {
    if acts == [] then s == s'
    else Accounted(s) && Enabled(s, acts[0]) && Unstirred(s, acts[0]) && UnstirredRun(Step(s, acts[0]), acts[1..], s')
  }

  /** While no priority of a waiting thread changes, every list stays ordered, and every hand-off goes
      to the most urgent waiter, with any nesting. */
  lemma {:induction false} UnstirredHandsOffWell(s: Kernel, acts: seq<Action>, s': Kernel)
    requires Sorted(s) && UnstirredRun(s, acts, s')
    ensures Sorted(s') && forall m :: m in s'.mutexes ==> HandOffServes(s', m)
    decreases |acts|
  {
    if acts == [] {
      forall m | m in s'.mutexes ensures HandOffServes(s', m) {
        OrderedServes(s', m);
      }
    } else {
      StepSorted(s, acts[0]);
      UnstirredHandsOffWell(Step(s, acts[0]), acts[1..], s');
    }
  }

  // ----- a stirred list -----

  ghost predicate Reaches(s: Kernel, s': Kernel) {
    exists acts :: Run(s, acts, s')
  }

  lemma {:induction false} RunThen(s: Kernel, acts: seq<Action>, s1: Kernel, a: Action)
    requires Run(s, acts, s1) && WellTyped(s1) && Enabled(s1, a)
    ensures Run(s, acts + [a], Step(s1, a))
    decreases |acts|
  {
    if acts == [] {
      assert acts + [a] == [a] && [a][1..] == [];
    } else {
      assert (acts + [a])[1..] == acts[1..] + [a];
      RunThen(Step(s, acts[0]), acts[1..], s1, a);
    }
  }

  lemma ReachesOn(s: Kernel, s1: Kernel, a: Action)
    requires Reaches(s, s1) && WellTyped(s1) && Enabled(s1, a)
    ensures Reaches(s, Step(s1, a))
  {
    var acts :| Run(s, acts, s1);
    RunThen(s, acts, s1, a);
  }

  /** From `s1`, reached from `s`, thread `t` takes the free mutex `m`. */
  lemma Granted(s: Kernel, s1: Kernel, t: Tid, m: Mid) returns (s': Kernel)
    requires Reaches(s, s1) && WellTyped(s1) && t in s1.threads && m in s1.mutexes && s1.threads[t].at.Running?
    requires s1.mutexes[m] == Mutex(1, None, 0, NO_PRIORITY, [])
    ensures Reaches(s, s') && WellTyped(s') && s'.threads == s1.threads
    ensures s'.mutexes == s1.mutexes[m := Mutex(0, Some(t), 1, s1.threads[t].prio, [])]
  {
    ReachesOn(s, s1, Take(t, m, -1));
    s' := Step(s1, Take(t, m, -1));
  }

  /** It is suspended behind all who wait, without boosting anyone. */
  lemma Waits(s: Kernel, s1: Kernel, t: Tid, m: Mid) returns (s': Kernel)
    requires Reaches(s, s1) && WellTyped(s1) && t in s1.threads && m in s1.mutexes && s1.threads[t].at.Running?
    requires s1.mutexes[m].value == 0 && s1.mutexes[m].owner.Some? && s1.mutexes[m].owner != Some(t)
    requires s1.threads[s1.mutexes[m].owner.get].prio <= s1.threads[t].prio
    requires forall w :: w in s1.mutexes[m].waiters ==> s1.threads[w].prio <= s1.threads[t].prio && w != t
    ensures Reaches(s, s') && WellTyped(s') && s'.threads == s1.threads[t := s1.threads[t].(at := Suspended(m, false))]
    ensures s'.mutexes == s1.mutexes[m := s1.mutexes[m].(waiters := s1.mutexes[m].waiters + [t])]
  {
    var q := s1.mutexes[m].waiters;
    ReachesOn(s, s1, Take(t, m, -1));
    PlaceIs(q, PrioOf(Blocked(s1, t, m, false).threads), s1.threads[t].prio, |q|);
    assert q[..|q|] + [t] + q[|q|..] == q + [t];
    s' := Step(s1, Take(t, m, -1));
  }

  /** It is suspended first, boosting the owner. */
  lemma WaitsBoosting(s: Kernel, s1: Kernel, t: Tid, m: Mid) returns (s': Kernel)
    requires Reaches(s, s1) && WellTyped(s1) && t in s1.threads && m in s1.mutexes && s1.threads[t].at.Running?
    requires s1.mutexes[m].value == 0 && s1.mutexes[m].owner.Some? && s1.mutexes[m].owner != Some(t)
    requires s1.mutexes[m].waiters == [] && s1.threads[t].prio < s1.threads[s1.mutexes[m].owner.get].prio
    ensures Reaches(s, s') && WellTyped(s')
    ensures s'.threads == Reprioritized(s1.threads, s1.mutexes[m].owner.get, s1.threads[t].prio)
                            [t := s1.threads[t].(at := Suspended(m, false))]
    ensures s'.mutexes == s1.mutexes[m := s1.mutexes[m].(waiters := [t])]
  {
    ReachesOn(s, s1, Take(t, m, -1));
    EnqueuedAlone(PrioOf(Blocked(s1, t, m, false).threads), t);
    s' := Step(s1, Take(t, m, -1));
  }

  /** Four threads that run with the given order of urgency, and two free mutexes. */
  ghost predicate Cast(s: Kernel, t0: Tid, t1: Tid, t2: Tid, t3: Tid, m0: Mid, m1: Mid) {
    && Start(s) && {t0, t1, t2, t3} <= s.threads.Keys && m0 in s.mutexes && m1 in s.mutexes && m0 != m1
    && t0 != t1 && t0 != t2 && t0 != t3 && t1 != t2 && t1 != t3 && t2 != t3
    && s.threads[t0].prio <= s.threads[t3].prio < s.threads[t1].prio <= s.threads[t2].prio
  }

  /** `t0` and `t2` hold a mutex each, `t1` and then `t2` wait for `t0`. */
  ghost predicate TwoWait(s: Kernel, s': Kernel, t0: Tid, t1: Tid, t2: Tid, m0: Mid, m1: Mid)
    requires {t0, t1, t2} <= s.threads.Keys
  {
    && WellTyped(s')
    && s'.threads == s.threads[t1 := s.threads[t1].(at := Suspended(m0, false))][t2 := s.threads[t2].(at := Suspended(m0, false))]
    && s'.mutexes == s.mutexes[m1 := Mutex(0, Some(t2), 1, s.threads[t2].prio, [])]
                              [m0 := Mutex(0, Some(t0), 1, s.threads[t0].prio, [t1, t2])]
  }

  /** `t0` and `t2` hold a mutex each. */
  ghost predicate TwoHold(s: Kernel, s': Kernel, t0: Tid, t2: Tid, m0: Mid, m1: Mid)
    requires {t0, t2} <= s.threads.Keys
  {
    && WellTyped(s') && s'.threads == s.threads
    && s'.mutexes == s.mutexes[m1 := Mutex(0, Some(t2), 1, s.threads[t2].prio, [])]
                              [m0 := Mutex(0, Some(t0), 1, s.threads[t0].prio, [])]
  }

  lemma ReachTwoHold(s: Kernel, t0: Tid, t1: Tid, t2: Tid, t3: Tid, m0: Mid, m1: Mid) returns (s': Kernel)
    requires Cast(s, t0, t1, t2, t3, m0, m1)
    ensures TwoHold(s, s', t0, t2, m0, m1) && Reaches(s, s')
  {
    assert Run(s, [], s);
    var s1 := Granted(s, s, t2, m1);
    s' := Granted(s, s1, t0, m0);
  }

  /** And `t1` waits for `t0`. */
  ghost predicate OneWaits(s: Kernel, s': Kernel, t0: Tid, t1: Tid, t2: Tid, m0: Mid, m1: Mid)
    requires {t0, t1, t2} <= s.threads.Keys
  {
    && WellTyped(s') && s'.threads == s.threads[t1 := s.threads[t1].(at := Suspended(m0, false))]
    && s'.mutexes == s.mutexes[m1 := Mutex(0, Some(t2), 1, s.threads[t2].prio, [])]
                              [m0 := Mutex(0, Some(t0), 1, s.threads[t0].prio, [t1])]
  }

  lemma ReachOneWaits(s: Kernel, t0: Tid, t1: Tid, t2: Tid, t3: Tid, m0: Mid, m1: Mid) returns (s': Kernel)
    requires Cast(s, t0, t1, t2, t3, m0, m1)
    ensures OneWaits(s, s', t0, t1, t2, m0, m1) && Reaches(s, s')
  {
    var s2 := ReachTwoHold(s, t0, t1, t2, t3, m0, m1);
    s' := Waits(s, s2, t1, m0);
    assert [] + [t1] == [t1];
  }

  lemma ReachTwoWait(s: Kernel, t0: Tid, t1: Tid, t2: Tid, t3: Tid, m0: Mid, m1: Mid) returns (s': Kernel)
    requires Cast(s, t0, t1, t2, t3, m0, m1)
    ensures TwoWait(s, s', t0, t1, t2, m0, m1) && Reaches(s, s')
  {
    var s3 := ReachOneWaits(s, t0, t1, t2, t3, m0, m1);
    s' := Waits(s, s3, t2, m0);
    assert [t1] + [t2] == [t1, t2];
  }

  /** `t3` waits for `t2`, which has its priority now and still stands behind `t1`. */
  ghost predicate Stirred(s: Kernel, s': Kernel, t0: Tid, t1: Tid, t2: Tid, t3: Tid, m0: Mid, m1: Mid)
    requires {t0, t1, t2, t3} <= s.threads.Keys
  {
    && WellTyped(s') && {t0, t1, t2, t3} <= s'.threads.Keys
    && s'.threads[t0] == s.threads[t0] && s'.threads[t1].prio == s.threads[t1].prio
    && s'.threads[t2].prio == s'.threads[t3].prio == s.threads[t3].prio
    && s'.mutexes == s.mutexes[m1 := Mutex(0, Some(t2), 1, s.threads[t2].prio, [t3])]
                              [m0 := Mutex(0, Some(t0), 1, s.threads[t0].prio, [t1, t2])]
  }

  lemma ReachStirred(s: Kernel, t0: Tid, t1: Tid, t2: Tid, t3: Tid, m0: Mid, m1: Mid) returns (s': Kernel)
    requires Cast(s, t0, t1, t2, t3, m0, m1)
    ensures Stirred(s, s', t0, t1, t2, t3, m0, m1) && Reaches(s, s')
  {
    var s4 := ReachTwoWait(s, t0, t1, t2, t3, m0, m1);
    s' := WaitsBoosting(s, s4, t3, m1);
  }

  /** No inversion yet, and the release of `m` by its owner `t` restores a priority that serves every
      other mutex, but hands `m` to a thread less urgent than another waiter. */
  ghost predicate HandOffInverts(s: Kernel, t: Tid, m: Mid) {
    && Accounted(s) && Uninverted(s) && Enabled(s, Release(t, m)) && GivesUp(s, Release(t, m))
    && RestoreServes(s, t, m) && !HandOffServes(s, m) && !NoInversion(Step(s, Release(t, m)), m)
  }

  lemma StirredFacts(s: Kernel, s': Kernel, t0: Tid, t1: Tid, t2: Tid, t3: Tid, m0: Mid, m1: Mid)
    requires Cast(s, t0, t1, t2, t3, m0, m1) && Stirred(s, s', t0, t1, t2, t3, m0, m1)
    ensures Uninverted(s') && Enabled(s', Release(t0, m0)) && GivesUp(s', Release(t0, m0))
    ensures RestoreServes(s', t0, m0) && !HandOffServes(s', m0)
  {
    var q := s'.mutexes[m0].waiters;
    assert q[0] == t1 && q[1] == t2 && t2 in q;
  }

  /** The guard of a hand-off is needed: for any four threads in order of urgency, a boost reaches a
      thread that already waits, and a release then passes it over. */
  lemma StirredListInverts(s: Kernel, t0: Tid, t1: Tid, t2: Tid, t3: Tid, m0: Mid, m1: Mid)
    requires Cast(s, t0, t1, t2, t3, m0, m1)
    ensures exists s' :: Reaches(s, s') && HandOffInverts(s', t0, m0)
  {
    var s' := ReachStirred(s, t0, t1, t2, t3, m0, m1);
    StirredFacts(s, s', t0, t1, t2, t3, m0, m1);
    StirredInverts(s, s', t0, m0);
  }

  lemma StirredInverts(s: Kernel, s': Kernel, t: Tid, m: Mid)
    requires Start(s) && Reaches(s, s') && WellTyped(s') && Uninverted(s')
    requires Enabled(s', Release(t, m)) && GivesUp(s', Release(t, m)) && RestoreServes(s', t, m) && !HandOffServes(s', m)
    ensures HandOffInverts(s', t, m)
  {
    StartSorted(s);
    var acts :| Run(s, acts, s');
    RunAccounted(s, acts, s');
    StepAccounted(s', Release(t, m));
    GivenUpHere(s', t, m);
  }
}
