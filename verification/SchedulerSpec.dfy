/**
 The uniprocessor scheduler as a state machine over its critical sections: the
 ready lists and their bitmap, the current thread, the YIELD flag and the scheduler
 lock. Lists that IPC objects keep are not part of this state.
 */
module SchedulerSpec {
  import opened ReadyBitmap
  import opened WaitList

  const TICK_MAX: nat := 0xFFFF_FFFF  // remaining_tick is a 32-bit counter

  datatype Stat = Init | Ready | Suspended | Running | Closed

  /** `spent` is RT_THREAD_STAT_YIELD; the other bits of the status word are not modelled. */
  datatype Thread = Thread(stat: Stat, spent: bool, prio: nat, remaining: nat, slice: nat)

  datatype Current = Nobody | Now(t: Tid)

  datatype Sched = Sched(threads: map<Tid, Thread>, table: seq<seq<Tid>>, ready: Bitmap, current: Current, lock: nat)

  datatype Action =
    | Startup(t: Tid)
    | Start
    | Suspend
    | Resume(t: Tid)
    | Yield
    | Tick
    | ChangePriority(t: Tid, prio: nat)
    | Reschedule
    | EnterCritical
    | ExitCritical
    | Exit

  // ----- what holds between critical sections -----

  ghost predicate Typed(s: Sched) {
    && Valid(s.ready) && |s.table| <= Capacity(s.ready)
    && (forall t :: t in s.threads ==> s.threads[t].prio < |s.table|)
    && (s.current.Now? ==> s.current.t in s.threads)
  }

  /** The bitmap agrees with which lists are non-empty. */
  ghost predicate Agree(s: Sched)
    requires Typed(s)
  {
    forall p :: 0 <= p < Capacity(s.ready) ==> (Marked(s.ready, p) <==> p < |s.table| && s.table[p] != [])
  }

  /** The threads on list `p` are ready ones of that priority, each once. */
  ghost predicate Level(threads: map<Tid, Thread>, list: seq<Tid>, p: nat) {
    Distinct(list) && forall t :: t in list ==> t in threads && threads[t].stat.Ready? && threads[t].prio == p
  }

  /** The ready lists hold exactly the ready threads, each on the list of its own priority. */
  ghost predicate Lists(threads: map<Tid, Thread>, table: seq<seq<Tid>>) {
    && (forall p :: 0 <= p < |table| ==> Level(threads, table[p], p))
    && (forall t :: t in threads && threads[t].stat.Ready? ==> threads[t].prio < |table| && t in table[threads[t].prio])
  }

  ghost predicate Queues(s: Sched) {
    Typed(s) && Agree(s) && Lists(s.threads, s.table)
  }

  /** Only the current thread runs, and it is on no ready list. */
  ghost predicate Single(s: Sched) {
    && (forall t :: t in s.threads && s.threads[t].stat.Running? ==> s.current == Now(t))
    && (s.current.Now? ==>
          s.current.t in s.threads && !s.threads[s.current.t].stat.Ready? && !s.threads[s.current.t].stat.Init?)
  }

  ghost predicate Inv(s: Sched) {
    Queues(s) && Single(s)
  }

  // ----- rt_schedule_insert_thread and rt_schedule_remove_thread -----

  function WithThread(s: Sched, t: Tid, th: Thread): Sched {
    s.(threads := s.threads[t := th])
  }

  /** Without YIELD at the head of its list, to be scheduled next; with YIELD at the tail. */
  function Insert(s: Sched, t: Tid): (s': Sched)
    requires Typed(s) && t in s.threads
    ensures Typed(s') && s'.threads.Keys == s.threads.Keys && s'.current == s.current
  {
    var th := s.threads[t];
    if s.current == Now(t) then
      WithThread(s, t, th.(stat := Running))
    else
      var list := s.table[th.prio];
      MarkKeeps(s.ready, th.prio);
      WithThread(s, t, th.(stat := Ready)).(
        table := s.table[th.prio := if th.spent then list + [t] else [t] + list],
        ready := Mark(s.ready, th.prio))
  }

  function Remove(s: Sched, t: Tid): (s': Sched)
    requires Typed(s) && t in s.threads
    ensures Typed(s') && s'.threads == s.threads
  {
    var p := s.threads[t].prio;
    UnmarkKeeps(s.ready, p);
    var list := Without(s.table[p], t);
    s.(table := s.table[p := list], ready := if list == [] then Unmark(s.ready, p) else s.ready)
  }

  /** A thread leaves the ready lists for another status. */
  function Out(s: Sched, t: Tid, stat: Stat): Sched
    requires Typed(s) && t in s.threads
  {
    WithThread(Remove(s, t), t, s.threads[t].(stat := stat))
  }

  lemma InsertKeeps(s: Sched, t: Tid)
    requires Queues(s) && t in s.threads && !s.threads[t].stat.Ready? && s.current != Now(t)
    ensures Queues(Insert(s, t))
  {
    var s', p := Insert(s, t), s.threads[t].prio;
    MarkKeeps(s.ready, p);
    NotListed(s, t);
    forall q | 0 <= q < |s'.table| ensures Level(s'.threads, s'.table[q], q) {
      assert Level(s.threads, s.table[q], q);
    }
  }

  lemma NotListed(s: Sched, t: Tid)
    requires Queues(s) && t in s.threads && !s.threads[t].stat.Ready?
    ensures forall q :: 0 <= q < |s.table| ==> t !in s.table[q]
  {
    forall q | 0 <= q < |s.table| ensures t !in s.table[q] {
      assert Level(s.threads, s.table[q], q);
    }
  }

  lemma OutKeeps(s: Sched, t: Tid, stat: Stat)
    requires Queues(s) && t in s.threads && !stat.Ready?
    ensures Queues(Out(s, t, stat))
    ensures !s.threads[t].stat.Ready? ==> Out(s, t, stat) == WithThread(s, t, s.threads[t].(stat := stat)).(ready := Out(s, t, stat).ready)
  {
    var s', p := Out(s, t, stat), s.threads[t].prio;
    UnmarkKeeps(s.ready, p);
    WithoutMembers(s.table[p], t);
    forall q | 0 <= q < |s'.table| ensures Level(s'.threads, s'.table[q], q) {
      assert Level(s.threads, s.table[q], q) && Level(s.threads, s.table[p], p);
    }
    if !s.threads[t].stat.Ready? {
      NotListed(s, t);
      assert s'.table == s.table;
    }
  }

  // ----- rt_schedule -----

  function Top(s: Sched): (p: nat)
    requires Typed(s) && Agree(s) && s.ready.group != 0
    ensures p < |s.table| && s.table[p] != [] && p == Highest(s.ready)
    ensures forall q :: 0 <= q < p ==> s.table[q] == []
  {
    HighestIsMostUrgent(s.ready);
    Highest(s.ready)
  }

  /** The first thread of the most urgent non-empty list. */
  function Front(s: Sched): (t: Tid)
    requires Queues(s) && s.ready.group != 0
    ensures t in s.threads && s.threads[t].stat.Ready? && s.threads[t].prio == Top(s)
  {
    assert Level(s.threads, s.table[Top(s)], Top(s));
    s.table[Top(s)][0]
  }

  /** The current thread stays: it runs, and either is strictly more urgent than every ready
      thread or is as urgent and has not used up its slice. */
  predicate Stays(s: Sched, top: nat)
    requires s.current.Now? && s.current.t in s.threads
  {
    var cur := s.threads[s.current.t];
    cur.stat.Running? && (cur.prio < top || (cur.prio == top && !cur.spent))
  }

  /** A running thread loses its YIELD flag before anything else happens to it. */
  function Unflagged(s: Sched): Sched
    requires s.current.Now? && s.current.t in s.threads
  {
    var cur := s.threads[s.current.t];
    if cur.stat.Running? then WithThread(s, s.current.t, cur.(spent := false)) else s
  }

  function Switch(s: Sched, to: Tid): Sched
    requires Typed(s) && s.current.Now? && to in s.threads
  {
    var c := s.current.t;
    var s1 := s.(current := Now(to));
    var s2 := if s.threads[c].stat.Running? then Insert(s1, c) else s1;
    Out(s2, to, Running)
  }

  function Schedule(s: Sched): Sched
    requires Queues(s) && s.current.Now?
  {
    if s.lock != 0 || s.ready.group == 0 then s
    else
      var to := if Stays(s, Top(s)) then s.current.t else Front(s);
      if to == s.current.t then Out(Unflagged(s), to, Running) else Switch(Unflagged(s), to)
  }

  // ----- the steps -----

  ghost predicate Enabled(s: Sched, a: Action) {
    match a
    case Startup(t) => t in s.threads && s.threads[t].stat.Init?
    case Start => s.current == Nobody && s.ready.group != 0
    case Resume(t) => t in s.threads
    case ChangePriority(t, prio) => t in s.threads && prio < |s.table|
    case EnterCritical => true
    case ExitCritical => true
    case Suspend => s.current.Now?
    case Yield => s.current.Now?
    case Tick => s.current.Now?
    case Reschedule => s.current.Now?
    case Exit => s.current.Now?
  }

  function Reload(th: Thread): Thread {
    th.(remaining := th.slice, spent := true)
  }

  function Reloaded(s: Sched): (s': Sched)
    requires Inv(s) && s.current.Now?
    ensures Queues(s') && s'.current == s.current
  {
    var s' := WithThread(s, s.current.t, Reload(s.threads[s.current.t]));
    OffList(s, s.current.t, Reload(s.threads[s.current.t]));
    s'
  }

  /** One tick of the running thread's time slice; the counter wraps below zero. */
  function Ticked(th: Thread): Thread {
    var left := if th.remaining == 0 then TICK_MAX else th.remaining - 1;
    if left == 0 then Reload(th) else th.(remaining := left)
  }

  function Reprioritized(s: Sched, t: Tid, prio: nat): Sched
    requires Typed(s) && t in s.threads && prio < |s.table|
  {
    var th := s.threads[t].(prio := prio);
    if th.stat.Ready? then Insert(WithThread(Remove(s, t), t, th), t) else WithThread(s, t, th)
  }

  function Step(s: Sched, a: Action): (s': Sched)
    requires Inv(s) && Enabled(s, a)
  {
    match a
    case Startup(t) => Insert(WithThread(s, t, s.threads[t].(stat := Suspended, spent := false)), t)
    case Start => Out(s.(current := Now(Front(s))), Front(s), Running)
    case Suspend =>
      if s.threads[s.current.t].stat.Running? then Out(s, s.current.t, Suspended) else s
    case Resume(t) => if s.threads[t].stat.Suspended? then Insert(s, t) else s
    case Yield => Schedule(Reloaded(s))
    case Tick => WithThread(s, s.current.t, Ticked(s.threads[s.current.t]))
    case ChangePriority(t, prio) => Reprioritized(s, t, prio)
    case Reschedule => Schedule(s)
    case EnterCritical => s.(lock := s.lock + 1)
    case ExitCritical => s.(lock := if s.lock <= 1 then 0 else s.lock - 1)
    case Exit => Out(s, s.current.t, Closed)
  }

  // ----- what one rt_schedule does to the lists -----

  /** Changing a thread that is on no list disturbs no list. */
  lemma OffList(s: Sched, t: Tid, th: Thread)
    requires Queues(s) && t in s.threads && !s.threads[t].stat.Ready? && !th.stat.Ready? && th.prio < |s.table|
    ensures Queues(WithThread(s, t, th))
  {
    NotListed(s, t);
    forall p | 0 <= p < |s.table| ensures Level(s.threads[t := th], s.table[p], p) {
      assert Level(s.threads, s.table[p], p);
    }
  }

  lemma UnflaggedKeeps(s: Sched)
    requires Inv(s) && s.current.Now?
    ensures Queues(Unflagged(s))
  {
    OffList(s, s.current.t, s.threads[s.current.t].(spent := false));
  }

  /** The lists after the current thread gave way to the front thread. */
  function Rotated(s: Sched): seq<seq<Tid>>
    requires Queues(s) && s.current.Now? && s.ready.group != 0
  {
    var top := Top(s);
    var cur := s.threads[s.current.t];
    var rest := s.table[top][1..];
    if !cur.stat.Running? then s.table[top := rest]
    else if cur.prio == top then s.table[top := [s.current.t] + rest]
    else s.table[top := rest][cur.prio := [s.current.t] + s.table[cur.prio]]
  }

  /** The current thread stays as long as no ready thread is more urgent, or as urgent while the
      slice is used up. */
  lemma ScheduleStays(s: Sched)
    requires Inv(s) && s.current.Now? && s.lock == 0 && s.ready.group != 0 && Stays(s, Top(s))
    ensures var s' := Schedule(s); var c := s.current.t;
            && s'.current == s.current && s'.table == s.table && s'.lock == 0
            && s'.threads == s.threads[c := s.threads[c].(spent := false)]
            && Queues(s')
  {
    UnflaggedKeeps(s);
    OutKeeps(Unflagged(s), s.current.t, Running);
  }

  /** Otherwise it gives way to the front thread of the most urgent list. A thread that could
      still run goes to the head of its list: its YIELD flag is gone by then. */
  lemma ScheduleSwitches(s: Sched)
    requires Inv(s) && s.current.Now? && s.lock == 0 && s.ready.group != 0 && !Stays(s, Top(s))
    ensures var s' := Schedule(s); var c := s.current.t; var cur := s.threads[c]; var to := Front(s);
            && to != c && s'.current == Now(to) && s'.lock == 0 && s'.table == Rotated(s)
            && s'.threads == (if cur.stat.Running? then s.threads[c := cur.(stat := Ready, spent := false)] else s.threads)
                             [to := s.threads[to].(stat := Running)]
            && Queues(s')
  {
    UnflaggedKeeps(s);
    SwitchEffect(Unflagged(s), s, Front(s));
  }

  ghost predicate Switching(s: Sched, was: Sched, to: Tid) {
    && Queues(s) && Queues(was) && was.current.Now? && was.ready.group != 0 && to == Front(was)
    && to != was.current.t && s == Unflagged(was) && !was.threads[was.current.t].stat.Ready?
  }

  function Moved(s: Sched, to: Tid): (s2: Sched)
    requires Typed(s) && s.current.Now? && to in s.threads
    ensures Typed(s2) && to in s2.threads && Switch(s, to) == Out(s2, to, Running)
  {
    var s1 := s.(current := Now(to));
    if s.threads[s.current.t].stat.Running? then Insert(s1, s.current.t) else s1
  }

  lemma MovedKeeps(s: Sched, was: Sched, to: Tid)
    requires Switching(s, was, to)
    ensures Queues(Moved(s, to)) && Moved(s, to).threads[to] == s.threads[to]
  {
    if s.threads[s.current.t].stat.Running? {
      InsertKeeps(s.(current := Now(to)), s.current.t);
    }
  }

  lemma MovedTable(s: Sched, was: Sched, to: Tid)
    requires Switching(s, was, to)
    ensures var t2 := Moved(s, to).table; var top := Top(was);
            t2[top := Without(t2[top], to)] == Rotated(was)
  {
    var c := s.current.t;
    var top, p := Top(was), s.threads[c].prio;
    assert Level(s.threads, s.table[top], top) && s.table == was.table;
    WithoutHead(s.table[top]);
    if s.threads[c].stat.Running? {
      NotListed(s, c);
      TableMoves(s.table, top, p, c);
      assert Moved(s, to).table == s.table[p := [c] + s.table[p]];
    }
  }

  lemma TableMoves(table: seq<seq<Tid>>, top: nat, p: nat, c: Tid)
    requires top < |table| && p < |table| && table[top] != [] && Distinct(table[top]) && c !in table[top]
    ensures var t2 := table[p := [c] + table[p]]; var rest := table[top][1..];
            t2[top := Without(t2[top], table[top][0])]
              == if p == top then table[top := [c] + rest] else table[top := rest][p := [c] + table[p]]
  {
    if p == top { SecondLeaves(c, table[top]); } else { WithoutHead(table[top]); }
  }

  lemma SwitchEffect(s: Sched, was: Sched, to: Tid)
    requires Switching(s, was, to)
    ensures var s' := Switch(s, to); var c := s.current.t; var cur := s.threads[c];
            && s'.current == Now(to) && s'.lock == s.lock && s'.table == Rotated(was)
            && s'.threads == (if cur.stat.Running? then s.threads[c := cur.(stat := Ready)] else s.threads)
                             [to := s.threads[to].(stat := Running)]
            && Queues(s')
  {
    MovedKeeps(s, was, to);
    OutKeeps(Moved(s, to), to, Running);
    MovedTable(s, was, to);
  }

  lemma SecondLeaves(c: Tid, list: seq<Tid>)
    requires list != [] && Distinct(list) && c !in list
    ensures Without([c] + list, list[0]) == [c] + list[1..]
  {
    WithoutHead(list);
    assert ([c] + list)[1..] == list;
  }

  lemma ScheduleKeeps(s: Sched)
    requires Inv(s) && s.current.Now?
    ensures Inv(Schedule(s))
  {
    if s.lock == 0 && s.ready.group != 0 {
      if Stays(s, Top(s)) {
        ScheduleStays(s);
      } else {
        ScheduleSwitches(s);
        SwitchedSingle(s, Schedule(s), Front(s));
      }
    }
  }

  lemma SwitchedSingle(s: Sched, s': Sched, to: Tid)
    requires Single(s) && s.current.Now? && to in s.threads && to != s.current.t && s'.current == Now(to)
    requires var c := s.current.t; var cur := s.threads[c];
             s'.threads == (if cur.stat.Running? then s.threads[c := cur.(stat := Ready, spent := false)] else s.threads)
                             [to := s.threads[to].(stat := Running)]
    ensures Single(s')
  {
  }

  lemma ReprioritizedKeeps(s: Sched, t: Tid, prio: nat)
    requires Inv(s) && t in s.threads && prio < |s.table|
    ensures Inv(Reprioritized(s, t, prio))
  {
    if s.threads[t].stat.Ready? {
      RelistedKeeps(s, t, prio);
      RelistedThreads(s, t, prio);
    } else {
      OffList(s, t, s.threads[t].(prio := prio));
    }
  }

  /** While it moves from list to list, a ready thread is for a moment on none. */
  function Unlisted(s: Sched, t: Tid, prio: nat): (s1: Sched)
    requires Typed(s) && t in s.threads && prio < |s.table|
    ensures Typed(s1) && t in s1.threads
  {
    WithThread(Remove(s, t), t, s.threads[t].(prio := prio, stat := Suspended))
  }

  lemma UnlistedKeeps(s: Sched, t: Tid, prio: nat)
    requires Queues(s) && t in s.threads && prio < |s.table|
    ensures Queues(Unlisted(s, t, prio))
  {
    var th := s.threads[t].(stat := Suspended);
    OutKeeps(s, t, Suspended);
    OffList(Out(s, t, Suspended), t, th.(prio := prio));
    assert Unlisted(s, t, prio) == WithThread(Out(s, t, Suspended), t, th.(prio := prio)) by {
      assert s.threads[t := th][t := th.(prio := prio)] == s.threads[t := th.(prio := prio)];
    }
  }

  lemma RelistedKeeps(s: Sched, t: Tid, prio: nat)
    requires Inv(s) && t in s.threads && prio < |s.table| && s.threads[t].stat.Ready?
    ensures Queues(Reprioritized(s, t, prio))
  {
    UnlistedKeeps(s, t, prio);
    InsertKeeps(Unlisted(s, t, prio), t);
    RelistedIs(s, t, prio);
  }

  lemma RelistedIs(s: Sched, t: Tid, prio: nat)
    requires Typed(s) && t in s.threads && prio < |s.table| && s.threads[t].stat.Ready? && s.current != Now(t)
    ensures Reprioritized(s, t, prio) == Insert(Unlisted(s, t, prio), t)
  {
    var s2 := WithThread(Remove(s, t), t, s.threads[t].(prio := prio));
    assert Unlisted(s, t, prio).threads == s2.threads[t := s2.threads[t].(stat := Suspended)];
    InsertForgets(Unlisted(s, t, prio), s2, t);
  }

  lemma RelistedThreads(s: Sched, t: Tid, prio: nat)
    requires Inv(s) && t in s.threads && prio < |s.table| && s.threads[t].stat.Ready?
    ensures var s' := Reprioritized(s, t, prio);
            s'.threads == s.threads[t := s.threads[t].(prio := prio)] && s'.current == s.current
  {
    var th := s.threads[t].(prio := prio);
    assert s.threads[t := th][t := th.(stat := Ready)] == s.threads[t := th];
  }

  /** Insertion overwrites the status. */
  lemma InsertForgets(s1: Sched, s2: Sched, t: Tid)
    requires Typed(s1) && Typed(s2) && t in s1.threads && t in s2.threads && s1.current != Now(t)
    requires s1 == WithThread(s2, t, s2.threads[t].(stat := s1.threads[t].stat))
    ensures Insert(s1, t) == Insert(s2, t)
  {
    assert Insert(s1, t).threads == Insert(s2, t).threads;
  }

  lemma StartupKeeps(s: Sched, t: Tid)
    requires Inv(s) && t in s.threads && s.threads[t].stat.Init?
    ensures Inv(Step(s, Startup(t)))
  {
    var th := s.threads[t].(stat := Suspended, spent := false);
    OffList(s, t, th);
    InsertKeeps(WithThread(s, t, th), t);
  }

  lemma OutOfCurrentKeeps(s: Sched, stat: Stat)
    requires Inv(s) && s.current.Now? && (stat.Suspended? || stat.Closed?)
    ensures Inv(Out(s, s.current.t, stat))
  {
    OutKeeps(s, s.current.t, stat);
  }

  lemma TickKeeps(s: Sched)
    requires Inv(s) && s.current.Now?
    ensures Inv(Step(s, Tick)) && Inv(Reloaded(s))
  {
    OffList(s, s.current.t, Ticked(s.threads[s.current.t]));
  }

  lemma CriticalKeeps(s: Sched, lock: nat)
    requires Inv(s)
    ensures Inv(s.(lock := lock))
  {
  }

  lemma StepKeeps(s: Sched, a: Action)
    requires Inv(s) && Enabled(s, a)
    ensures Inv(Step(s, a))
  {
    match a
    case Startup(t) => StartupKeeps(s, t);
    case Start => StartKeeps(s);
    case Suspend => OutOfCurrentKeeps(s, Suspended);
    case Resume(t) => if s.threads[t].stat.Suspended? { ResumeKeeps(s, t); }
    case Yield => TickKeeps(s); ScheduleKeeps(Reloaded(s));
    case Tick => TickKeeps(s);
    case ChangePriority(t, prio) => ReprioritizedKeeps(s, t, prio);
    case Reschedule => ScheduleKeeps(s);
    case EnterCritical => CriticalKeeps(s, s.lock + 1);
    case ExitCritical => CriticalKeeps(s, if s.lock <= 1 then 0 else s.lock - 1);
    case Exit => OutOfCurrentKeeps(s, Closed);
  }

  lemma StartKeeps(s: Sched)
    requires Inv(s) && Enabled(s, Start)
    ensures Inv(Step(s, Start))
  {
    var t := Front(s);
    OutKeeps(s.(current := Now(t)), t, Running);
  }

  lemma ResumeKeeps(s: Sched, t: Tid)
    requires Inv(s) && t in s.threads && s.threads[t].stat.Suspended?
    ensures Inv(Insert(s, t))
  {
    if s.current == Now(t) {
      OffList(s, t, s.threads[t].(stat := Running));
    } else {
      InsertKeeps(s, t);
    }
  }

  // ----- the most urgent thread runs -----

  /** The current thread runs and no ready thread is more urgent. */
  ghost predicate MostUrgent(s: Sched) {
    && s.current.Now? && s.current.t in s.threads && s.threads[s.current.t].stat.Running?
    && forall t :: t in s.threads && s.threads[t].stat.Ready? ==> s.threads[s.current.t].prio <= s.threads[t].prio
  }

  /** The idle thread can always run. */
  predicate Alive(s: Sched, idle: Tid) {
    idle in s.threads && (s.threads[idle].stat.Ready? || s.threads[idle].stat.Running?)
  }

  lemma TopIsLeast(s: Sched, t: Tid)
    requires Queues(s) && s.ready.group != 0 && t in s.threads && s.threads[t].stat.Ready?
    ensures Top(s) <= s.threads[t].prio
  {
    var p := s.threads[t].prio;
    assert s.table[p] != [];
  }

  lemma NothingReady(s: Sched, t: Tid)
    requires Queues(s) && s.ready.group == 0 && t in s.threads
    ensures !s.threads[t].stat.Ready?
  {
    HighestIsMostUrgent(s.ready);
    assert s.table[s.threads[t].prio] == [];
  }

  /** What rt_schedule achieves while the scheduler is not locked. */
  lemma ScheduleRunsMostUrgent(s: Sched, idle: Tid)
    requires Inv(s) && s.current.Now? && s.lock == 0 && Alive(s, idle)
    ensures MostUrgent(Schedule(s))
  {
    var s' := Schedule(s);
    if s.ready.group == 0 {
      NothingReady(s, idle);
      forall t | t in s.threads ensures !s.threads[t].stat.Ready? { NothingReady(s, t); }
    } else {
      forall t | t in s.threads && s.threads[t].stat.Ready? ensures Top(s) <= s.threads[t].prio { TopIsLeast(s, t); }
      if Stays(s, Top(s)) { ScheduleStays(s); } else { ScheduleSwitches(s); }
    }
  }

  // ----- runs in which the idle thread neither suspends nor exits -----

  ghost predicate Boot(s: Sched) {
    && s.current == Nobody && s.lock == 0 && s.ready.group == 0 && Typed(s)
    && (forall t :: t in s.threads ==> s.threads[t].stat.Init?)
    && forall p :: 0 <= p < |s.table| ==> s.table[p] == []
  }

  ghost predicate Run(s: Sched, acts: seq<Action>, s': Sched, idle: Tid)
    decreases |acts|
  {
    if acts == [] then s == s'
    else
      && Inv(s) && Enabled(s, acts[0]) && !((acts[0].Suspend? || acts[0].Exit?) && s.current == Now(idle))
      && Run(Step(s, acts[0]), acts[1..], s', idle)
  }

  lemma BootInv(s: Sched)
    requires Boot(s)
    ensures Inv(s)
  {
    HighestIsMostUrgent(s.ready);
  }

  /** A thread that never suspends or exits goes from its start only between ready and running. */
  ghost predicate Steady(s: Sched, t: Tid) {
    t in s.threads && (s.threads[t].stat.Init? || Alive(s, t))
  }

  lemma StepSteady(s: Sched, a: Action, idle: Tid)
    requires Inv(s) && Enabled(s, a) && Steady(s, idle) && !((a.Suspend? || a.Exit?) && s.current == Now(idle))
    ensures Steady(Step(s, a), idle)
  {
    match a
    case Yield => TickKeeps(s); ScheduleSteady(Reloaded(s), idle);
    case Reschedule => ScheduleSteady(s, idle);
    case ChangePriority(t, prio) => if s.threads[t].stat.Ready? { RelistedThreads(s, t, prio); }
    case _ =>
  }

  lemma ScheduleSteady(s: Sched, idle: Tid)
    requires Inv(s) && s.current.Now? && Steady(s, idle)
    ensures Steady(Schedule(s), idle)
  {
    if s.lock == 0 && s.ready.group != 0 {
      if Stays(s, Top(s)) {
        ScheduleStays(s);
      } else {
        ScheduleSwitches(s);
        SwitchedSteady(s, Schedule(s), Front(s), idle);
      }
    }
  }

  lemma SwitchedSteady(s: Sched, s': Sched, to: Tid, idle: Tid)
    requires s.current.Now? && s.current.t in s.threads && to in s.threads && Steady(s, idle)
    requires var c := s.current.t; var cur := s.threads[c];
             s'.threads == (if cur.stat.Running? then s.threads[c := cur.(stat := Ready, spent := false)] else s.threads)
                             [to := s.threads[to].(stat := Running)]
    ensures Steady(s', idle)
  {
  }

  lemma {:induction false} RunKeeps(s: Sched, acts: seq<Action>, s': Sched, idle: Tid)
    requires Inv(s) && Steady(s, idle) && Run(s, acts, s', idle)
    ensures Inv(s') && Steady(s', idle)
    decreases |acts|
  {
    if acts != [] {
      StepKeeps(s, acts[0]);
      StepSteady(s, acts[0], idle);
      RunKeeps(Step(s, acts[0]), acts[1..], s', idle);
    }
  }

  /** Over every run from boot: bitmap, lists and statuses agree; and whenever rt_schedule runs
      with the scheduler unlocked after the idle thread was started, the most urgent thread runs. */
  lemma MostUrgentThreadRuns(s: Sched, acts: seq<Action>, s': Sched, idle: Tid)
    requires Boot(s) && idle in s.threads && Run(s, acts, s', idle)
    ensures Inv(s') && idle in s'.threads
    ensures s'.current.Now? && s'.lock == 0 && !s'.threads[idle].stat.Init? ==>
              MostUrgent(Schedule(s')) && MostUrgent(Schedule(Reloaded(s')))
  {
    BootInv(s);
    RunKeeps(s, acts, s', idle);
    if s'.current.Now? && s'.lock == 0 && !s'.threads[idle].stat.Init? {
      ScheduleRunsMostUrgent(s', idle);
      YieldRunsMostUrgent(s', idle);
    }
  }

  lemma YieldRunsMostUrgent(s: Sched, idle: Tid)
    requires Inv(s) && s.current.Now? && s.lock == 0 && Alive(s, idle)
    ensures MostUrgent(Schedule(Reloaded(s)))
  {
    TickKeeps(s);
    ScheduleRunsMostUrgent(Reloaded(s), idle);
  }

  // ----- the scheduler lock -----

  /** Leaving undoes entering, and in between rt_schedule does nothing. */
  lemma CriticalNests(s: Sched)
    requires Inv(s)
    ensures var s1 := Step(s, EnterCritical);
            && Inv(s1) && Step(s1, ExitCritical) == s
            && (s.current.Now? ==> Schedule(s1) == s1)
  {
    CriticalKeeps(s, s.lock + 1);
  }

  /** The scheduler is locked in every state of the run. */
  ghost predicate StaysLocked(s: Sched, acts: seq<Action>)
    decreases |acts|
  {
    s.lock > 0 && (acts != [] ==> Inv(s) && Enabled(s, acts[0]) && StaysLocked(Step(s, acts[0]), acts[1..]))
  }

  lemma LockedStep(s: Sched, a: Action)
    requires Inv(s) && Enabled(s, a) && s.lock > 0 && s.current.Now?
    ensures Inv(Step(s, a)) && Step(s, a).current == s.current
  {
    StepKeeps(s, a);
  }

  /** Nobody else gets the processor while the scheduler stays locked, whatever is called. */
  lemma {:induction false} NoSwitchWhileLocked(s: Sched, acts: seq<Action>, s': Sched, idle: Tid)
    requires Inv(s) && s.current.Now? && Run(s, acts, s', idle) && StaysLocked(s, acts)
    ensures s'.current == s.current
    decreases |acts|
  {
    if acts != [] {
      LockedStep(s, acts[0]);
      NoSwitchWhileLocked(Step(s, acts[0]), acts[1..], s', idle);
    }
  }

  // ----- yielding at one priority level -----

  function Other(x: Tid, y: Tid, t: Tid): Tid {
    if t == x then y else x
  }

  /** One of `x` and `y` runs at the most urgent level and the other leads the ready list of
      that level, ahead of `rest`. */
  ghost predicate Duel(s: Sched, p: nat, x: Tid, y: Tid, rest: seq<Tid>) {
    && Inv(s) && x != y && p < |s.table|
    && (s.current == Now(x) || s.current == Now(y))
    && s.threads[s.current.t].stat.Running? && s.threads[s.current.t].prio == p
    && s.table[p] == [Other(x, y, s.current.t)] + rest
    && forall q :: 0 <= q < p ==> s.table[q] == []
  }

  lemma DuelTop(s: Sched, p: nat, x: Tid, y: Tid, rest: seq<Tid>)
    requires Duel(s, p, x, y, rest)
    ensures s.ready.group != 0 && Top(s) == p && Front(s) == Other(x, y, s.current.t)
  {
    HighestIsMostUrgent(s.ready);
    assert Marked(s.ready, p);
    assert s.table[Top(s)] != [] && s.table[p] != [];
  }

  /** The running thread and the head of the list change places; nothing else moves. */
  lemma YieldSwaps(s: Sched, p: nat, x: Tid, y: Tid, rest: seq<Tid>)
    requires Duel(s, p, x, y, rest) && s.lock == 0
    ensures var s' := Step(s, Yield);
            && Duel(s', p, x, y, rest) && s'.current == Now(Other(x, y, s.current.t)) && s'.lock == 0
            && s'.table == s.table[p := [s.current.t] + rest]
  {
    TickKeeps(s);
    var r := Reloaded(s);
    assert Duel(r, p, x, y, rest);
    DuelTop(r, p, x, y, rest);
    ScheduleSwitches(r);
    StepKeeps(s, Yield);
  }

  lemma DuelSchedules(s: Sched, p: nat, x: Tid, y: Tid, rest: seq<Tid>)
    requires Duel(s, p, x, y, rest)
    ensures Duel(Schedule(s), p, x, y, rest) && forall q :: 0 <= q < |s.table| && q != p ==> Schedule(s).table[q] == s.table[q]
    ensures |Schedule(s).table| == |s.table|
  {
    ScheduleKeeps(s);
    DuelTop(s, p, x, y, rest);
    if s.lock == 0 {
      if Stays(s, p) { ScheduleStays(s); } else { ScheduleSwitches(s); }
    }
  }

  predicate SlicesOnly(acts: seq<Action>) {
    forall i :: 0 <= i < |acts| ==> acts[i].Yield? || acts[i].Tick? || acts[i].Reschedule?
  }

  /** Yields, ticks and expired slices only ever pass the processor between two threads of the
      level; the third in line waits for ever, although rt_thread_yield is documented as giving way
      to the other threads. */
  lemma {:induction false} ThirdNeverRuns(s: Sched, acts: seq<Action>, s': Sched, p: nat, x: Tid, y: Tid, rest: seq<Tid>, idle: Tid)
    requires Duel(s, p, x, y, rest) && SlicesOnly(acts) && Run(s, acts, s', idle)
    ensures Duel(s', p, x, y, rest) && |s'.table| == |s.table|
    ensures forall q :: 0 <= q < |s.table| && q != p ==> s'.table[q] == s.table[q]
    decreases |acts|
  {
    if acts != [] {
      var s1 := Step(s, acts[0]);
      TickKeeps(s);
      match acts[0] {
        case Yield => DuelSchedules(Reloaded(s), p, x, y, rest);
        case Tick => assert Duel(s1, p, x, y, rest);
        case Reschedule => DuelSchedules(s, p, x, y, rest);
      }
      ThirdNeverRuns(s1, acts[1..], s', p, x, y, rest, idle);
    }
  }

  function Yields(n: nat): (acts: seq<Action>)
    ensures |acts| == n
  {
    seq(n, i => Yield)
  }

  /** The state after `n` yields, if one yield swaps. */
  predicate AfterYields(s: Sched, even: bool, s': Sched, p: nat, x: Tid, y: Tid, rest: seq<Tid>)
    requires s.current.Now? && p < |s.table|
  {
    && s'.current == (if even then s.current else Now(Other(x, y, s.current.t)))
    && s'.table == (if even then s.table else s.table[p := [s.current.t] + rest])
  }

  lemma OneMore(s: Sched, s1: Sched, even: bool, s': Sched, p: nat, x: Tid, y: Tid, rest: seq<Tid>)
    requires s.current == Now(x) || s.current == Now(y)
    requires p < |s.table| && s.table[p] == [Other(x, y, s.current.t)] + rest
    requires s1.current == Now(Other(x, y, s.current.t)) && s1.table == s.table[p := [s.current.t] + rest]
    requires AfterYields(s1, even, s', p, x, y, rest)
    ensures AfterYields(s, !even, s', p, x, y, rest)
  {
    if !even {
      assert s.table[p := [s.current.t] + rest][p := [s1.current.t] + rest] == s.table;
    }
  }

  lemma Parity(n: nat)
    requires n > 0
    ensures (n % 2 == 0) == !((n - 1) % 2 == 0)
  {
  }

  lemma NoYields(s: Sched, s': Sched, idle: Tid)
    requires Run(s, Yields(0), s', idle)
    ensures s' == s
  {
    assert Yields(0) == [];
  }

  lemma FirstYield(s: Sched, n: nat, s': Sched, idle: Tid)
    requires Inv(s) && s.current.Now? && n > 0 && Run(s, Yields(n), s', idle)
    ensures Run(Step(s, Yield), Yields(n - 1), s', idle)
  {
    assert Yields(n)[0] == Yield && Yields(n)[1..] == Yields(n - 1);
  }

  /** With nothing but yields, the two alternate and every second yield restores the lists. */
  lemma {:induction false} YieldsAlternate(s: Sched, n: nat, s': Sched, p: nat, x: Tid, y: Tid, rest: seq<Tid>, idle: Tid)
    requires Duel(s, p, x, y, rest) && s.lock == 0 && Run(s, Yields(n), s', idle)
    ensures AfterYields(s, n % 2 == 0, s', p, x, y, rest)
    decreases n
  {
    if n > 0 {
      YieldSwaps(s, p, x, y, rest);
      FirstYield(s, n, s', idle);
      YieldsAlternate(Step(s, Yield), n - 1, s', p, x, y, rest, idle);
      OneMore(s, Step(s, Yield), (n - 1) % 2 == 0, s', p, x, y, rest);
      Parity(n);
    } else {
      NoYields(s, s', idle);
    }
  }

  // ----- how the third in line comes about, and who is passed over -----

  lemma {:induction false} RunThen(s: Sched, acts: seq<Action>, s1: Sched, a: Action, idle: Tid)
    requires Run(s, acts, s1, idle) && Inv(s1) && Enabled(s1, a) && !((a.Suspend? || a.Exit?) && s1.current == Now(idle))
    ensures Run(s, acts + [a], Step(s1, a), idle)
    decreases |acts|
  {
    if acts == [] {
      assert acts + [a] == [a] && [a][1..] == [];
    } else {
      assert (acts + [a])[1..] == acts[1..] + [a];
      RunThen(Step(s, acts[0]), acts[1..], s1, a, idle);
    }
  }

  /** From boot, `list` has been started back to front, all at level `p`, and nothing runs yet. */
  ghost predicate Lined(boot: Sched, s: Sched, list: seq<Tid>, p: nat) {
    && Inv(s) && s.current == Nobody && s.lock == 0 && p < |boot.table| && s.table == boot.table[p := list]
    && s.threads.Keys == boot.threads.Keys
    && (forall t :: t in s.threads ==> s.threads[t].prio == boot.threads[t].prio && (t !in list ==> s.threads[t].stat.Init?))
    && forall t :: t in s.threads ==> Untouched(boot.threads[t], s.threads[t]) && (t in list ==> !s.threads[t].spent)
  }

  /** The slice and what is left of it are as they were. */
  predicate Untouched(th: Thread, th': Thread) {
    th'.remaining == th.remaining && th'.slice == th.slice
  }

  lemma OneStarted(boot: Sched, s: Sched, t: Tid, list: seq<Tid>, p: nat)
    requires Lined(boot, s, list, p) && t in s.threads && t !in list && boot.threads[t].prio == p
    ensures Lined(boot, Step(s, Startup(t)), [t] + list, p)
  {
    StartupKeeps(s, t);
    assert s.table[p := [t] + list] == boot.table[p := [t] + list];
  }

  lemma {:induction false} LineUp(boot: Sched, list: seq<Tid>, p: nat, idle: Tid) returns (acts: seq<Action>, s: Sched)
    requires Boot(boot) && Distinct(list) && p < |boot.table|
    requires forall t :: t in list ==> t in boot.threads && boot.threads[t].prio == p
    ensures Run(boot, acts, s, idle) && Lined(boot, s, list, p)
    decreases |list|
  {
    if list == [] {
      BootInv(boot);
      acts, s := [], boot;
      assert boot.table[p := []] == boot.table;
    } else {
      acts, s := LineUp(boot, list[1..], p, idle);
      assert list[0] !in list[1..] && [list[0]] + list[1..] == list;
      RunThen(boot, acts, s, Startup(list[0]), idle);
      OneStarted(boot, s, list[0], list[1..], p);
      acts, s := acts + [Startup(list[0])], Step(s, Startup(list[0]));
    }
  }

  lemma FirstDispatched(boot: Sched, s: Sched, p: nat, x: Tid, y: Tid, rest: seq<Tid>)
    requires Boot(boot) && Lined(boot, s, [x, y] + rest, p) && Distinct([x, y] + rest)
    ensures Enabled(s, Start) && Duel(Step(s, Start), p, x, y, rest) && Step(s, Start).lock == 0
  {
    var list := [x, y] + rest;
    assert s.table[p] == list && list[0] != list[1] && Marked(s.ready, p);
    HighestIsMostUrgent(s.ready);
    assert s.table[Top(s)] != [];
    StartKeeps(s);
    WithoutHead(list);
  }

  /** From every boot, any threads of one priority can be brought to a duel of two of them with all
      the others waiting behind. */
  lemma DuelReached(boot: Sched, p: nat, x: Tid, y: Tid, rest: seq<Tid>, idle: Tid)
    requires Boot(boot) && Distinct([x, y] + rest) && p < |boot.table|
    requires forall t :: t in [x, y] + rest ==> t in boot.threads && boot.threads[t].prio == p
    ensures exists acts, s :: Run(boot, acts, s, idle) && Duel(s, p, x, y, rest) && s.lock == 0
  {
    var acts, s := LineUp(boot, [x, y] + rest, p, idle);
    FirstDispatched(boot, s, p, x, y, rest);
    RunThen(boot, acts, s, Start, idle);
  }

  /** Yielding again and again brings `t` to the processor. */
  ghost predicate Dispatched(s: Sched, t: Tid, idle: Tid) {
    exists n: nat, s' :: Run(s, Yields(n), s', idle) && s'.current == Now(t)
  }

  lemma PassedOver(s: Sched, p: nat, x: Tid, y: Tid, rest: seq<Tid>, t: Tid, idle: Tid)
    requires Duel(s, p, x, y, rest) && t in rest
    ensures !Dispatched(s, t, idle) && t in s.table[p]
  {
    assert Level(s.threads, s.table[p], p);
    var i :| 0 <= i < |rest| && rest[i] == t;
    assert s.table[p][i + 1] == t && s.table[p][0] == Other(x, y, s.current.t);
    forall n: nat, s' | Run(s, Yields(n), s', idle) ensures s'.current != Now(t) {
      ThirdNeverRuns(s, Yields(n), s', p, x, y, rest, idle);
    }
  }

  lemma OtherDispatched(s: Sched, p: nat, x: Tid, y: Tid, rest: seq<Tid>, idle: Tid)
    requires Duel(s, p, x, y, rest) && s.lock == 0
    ensures Dispatched(s, Other(x, y, s.current.t), idle)
  {
    YieldSwaps(s, p, x, y, rest);
    assert Yields(1)[0] == Yield && Yields(1)[1..] == [];
    assert Run(s, Yields(1), Step(s, Yield), idle);
  }

  /** Repeated yields let every ready thread of the level run exactly when no more than one waits. */
  lemma EveryoneRunsIff(s: Sched, p: nat, x: Tid, y: Tid, rest: seq<Tid>, idle: Tid)
    requires Duel(s, p, x, y, rest) && s.lock == 0
    ensures (forall t :: t in s.table[p] ==> Dispatched(s, t, idle)) <==> rest == []
  {
    if rest == [] {
      OtherDispatched(s, p, x, y, rest, idle);
    } else {
      PassedOver(s, p, x, y, rest, rest[0], idle);
    }
  }
}
