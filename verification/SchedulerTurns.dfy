/**
 What the scheduler calls do to threads and ready lists, and what time slices do to the
 processor: two threads that share a level take turns, each for exactly its slice.
 */
module SchedulerTurns {
  import opened SchedulerSpec
  import opened ReadyBitmap
  import opened WaitList
  import LwrbIndex

  // ----- each call, on threads and lists -----

  /** Thread `t` becomes `th`; the lists and the rest stay. */
  ghost predicate OnlyThread(s: Sched, s': Sched, t: Tid, th: Thread) {
    s'.threads == s.threads[t := th] && s'.table == s.table && s'.current == s.current && s'.lock == s.lock
  }

  /** Thread `t` becomes `th` and joins list `p`, at the tail if it has used up its slice and at the
      head otherwise. */
  ghost predicate Joins(s: Sched, s': Sched, t: Tid, th: Thread, table: seq<seq<Tid>>)
    requires th.prio < |table|
  {
    && s'.threads == s.threads[t := th] && s'.current == s.current && s'.lock == s.lock
    && s'.table == table[th.prio := if th.spent then table[th.prio] + [t] else [t] + table[th.prio]]
  }

  ghost predicate NobodyReady(s: Sched) {
    forall p :: 0 <= p < |s.table| ==> s.table[p] == []
  }

  /** `to` leads the most urgent list that is not empty, list `top`. */
  ghost predicate Leads(s: Sched, top: nat, to: Tid) {
    && top < |s.table| && s.table[top] != [] && s.table[top][0] == to
    && forall p :: 0 <= p < top ==> s.table[p] == []
  }

  /** rt_schedule: who stays, who takes over, and where the other one waits. */
  ghost predicate Reschedules(s: Sched, s': Sched)
    requires s.current.Now? && s.current.t in s.threads
  {
    if s.lock != 0 || NobodyReady(s) then s' == s
    else exists top: nat, to :: Leads(s, top, to) && GivesWay(s, s', top, to)
  }

  ghost predicate GivesWay(s: Sched, s': Sched, top: nat, to: Tid)
    requires s.current.Now? && s.current.t in s.threads && Leads(s, top, to)
  {
    var c := s.current.t;
    var cur := s.threads[c];
    if cur.stat.Running? && (cur.prio < top || (cur.prio == top && !cur.spent)) then OnlyThread(s, s', c, cur.(spent := false))
    else
      && to in s.threads && cur.prio < |s.table| && s'.current == Now(to) && s'.lock == s.lock
      && var rest := s.table[top := s.table[top][1..]];
         if cur.stat.Running? then
           && s'.threads == s.threads[c := cur.(stat := Ready, spent := false)][to := s.threads[to].(stat := Running)]
           && s'.table == rest[cur.prio := [c] + rest[cur.prio]]
         else
           && s'.threads == s.threads[to := s.threads[to].(stat := Running)]
           && s'.table == rest
  }

  lemma ScheduleMeans(s: Sched)
    requires Inv(s) && s.current.Now?
    ensures Reschedules(s, Schedule(s))
  {
    HighestIsMostUrgent(s.ready);
    if s.lock == 0 {
      if s.ready.group == 0 {
        forall p | 0 <= p < |s.table| ensures s.table[p] == [] { assert !Marked(s.ready, p); }
      } else {
        assert Leads(s, Top(s), Front(s));
        if Stays(s, Top(s)) { ScheduleStays(s); } else { SwitchMeans(s); }
      }
    }
  }

  lemma SwitchMeans(s: Sched)
    requires Inv(s) && s.current.Now? && s.lock == 0 && s.ready.group != 0 && !Stays(s, Top(s))
    ensures Leads(s, Top(s), Front(s)) && GivesWay(s, Schedule(s), Top(s), Front(s))
  {
    ScheduleSwitches(s);
    if s.threads[s.current.t].stat.Running? && s.threads[s.current.t].prio == Top(s) {
      TwiceAt(s.table, Top(s), s.table[Top(s)][1..], [s.current.t] + s.table[Top(s)][1..]);
    }
  }

  lemma TwiceAt(table: seq<seq<Tid>>, p: nat, a: seq<Tid>, b: seq<Tid>)
    requires p < |table|
    ensures table[p := a][p := b] == table[p := b]
  {
  }

  /** One tick of the current thread: its slice runs out at the tick that finds one tick left. */
  function TickOf(th: Thread): (th': Thread) {
    if th.remaining == 1 then Thread(th.stat, true, th.prio, th.slice, th.slice)
    else Thread(th.stat, th.spent, th.prio, if th.remaining == 0 then 0xFFFF_FFFF else th.remaining - 1, th.slice)
  }

  /** Every call. */
  ghost predicate Does(s: Sched, a: Action, s': Sched)
    requires Inv(s) && Enabled(s, a)
  {
    match a
    case Startup(t) => Joins(s, s', t, s.threads[t].(stat := Ready, spent := false), s.table)
    case Start =>
      exists top: nat, to :: Leads(s, top, to) && to in s.threads && s'.current == Now(to) && s'.lock == s.lock
        && s'.threads == s.threads[to := s.threads[to].(stat := Running)] && s'.table == s.table[top := s.table[top][1..]]
    case Suspend =>
      var cur := s.threads[s.current.t];
      if cur.stat.Running? then OnlyThread(s, s', s.current.t, cur.(stat := Suspended)) else s' == s
    case Resume(t) =>
      var th := s.threads[t];
      if !th.stat.Suspended? then s' == s
      else if s.current == Now(t) then OnlyThread(s, s', t, th.(stat := Running))
      else Joins(s, s', t, th.(stat := Ready), s.table)
    case Yield =>
      var c := s.current.t;
      var th := s.threads[c].(spent := true, remaining := s.threads[c].slice);
      Reschedules(s.(threads := s.threads[c := th]), s')
    case Tick => OnlyThread(s, s', s.current.t, TickOf(s.threads[s.current.t]))
    case ChangePriority(t, prio) =>
      var th := s.threads[t];
      if th.stat.Ready? then
        Joins(s, s', t, th.(prio := prio), s.table[th.prio := Without(s.table[th.prio], t)])
      else OnlyThread(s, s', t, th.(prio := prio))
    case Reschedule => Reschedules(s, s')
    case EnterCritical => s' == s.(lock := s.lock + 1)
    case ExitCritical => s' == s.(lock := if s.lock > 0 then s.lock - 1 else 0)
    case Exit => OnlyThread(s, s', s.current.t, s.threads[s.current.t].(stat := Closed))
  }

  lemma OutOfNoList(s: Sched, t: Tid, stat: Stat)
    requires Queues(s) && t in s.threads && !s.threads[t].stat.Ready? && !stat.Ready?
    ensures OnlyThread(s, Out(s, t, stat), t, s.threads[t].(stat := stat))
  {
    OutKeeps(s, t, stat);
  }

  lemma StartMeans(s: Sched)
    requires Inv(s) && Enabled(s, Start)
    ensures Does(s, Start, Step(s, Start))
  {
    var top, to := Top(s), Front(s);
    assert Leads(s, top, to) && Level(s.threads, s.table[top], top);
    WithoutHead(s.table[top]);
  }

  lemma PriorityMeans(s: Sched, t: Tid, prio: nat)
    requires Inv(s) && t in s.threads && prio < |s.table|
    ensures Does(s, ChangePriority(t, prio), Step(s, ChangePriority(t, prio)))
  {
    if s.threads[t].stat.Ready? { RelistedThreads(s, t, prio); }
  }

  lemma StartupMeans(s: Sched, t: Tid)
    requires Inv(s) && t in s.threads && s.threads[t].stat.Init?
    ensures Does(s, Startup(t), Step(s, Startup(t)))
  {
    var th := s.threads[t].(stat := Suspended, spent := false);
    assert s.threads[t := th][t := th.(stat := Ready)] == s.threads[t := th.(stat := Ready)];
  }

  lemma StepMeans(s: Sched, a: Action)
    requires Inv(s) && Enabled(s, a)
    ensures Does(s, a, Step(s, a))
  {
    match a
    case Startup(t) => StartupMeans(s, t);
    case Start => StartMeans(s);
    case Suspend => OutOfNoList(s, s.current.t, Suspended);
    case Resume(t) =>
    case Yield => YieldMeans(s);
    case Tick =>
    case ChangePriority(t, prio) => PriorityMeans(s, t, prio);
    case Reschedule => ScheduleMeans(s);
    case EnterCritical =>
    case ExitCritical =>
    case Exit => OutOfNoList(s, s.current.t, Closed);
  }

  lemma YieldMeans(s: Sched)
    requires Inv(s) && s.current.Now?
    ensures Does(s, Yield, Step(s, Yield))
  {
    TickKeeps(s);
    ScheduleMeans(Reloaded(s));
  }

  // ----- taking turns -----

  /** Threads `x` and `y`, with slices of `a` and `b` ticks, share the most urgent level; both have whole
      slices but for what the running one has used, and `q` ticks of the round of both slices, that of `x`
      first, are over. */
  ghost predicate Round(s: Sched, p: nat, x: Tid, y: Tid, rest: seq<Tid>, a: nat, b: nat, q: nat) {
    && Duel(s, p, x, y, rest) && s.lock == 0 && q < a + b
    && InTurn(s.threads, s.current, x, y, a, b, q)
  }

  ghost predicate InTurn(threads: map<Tid, Thread>, current: Current, x: Tid, y: Tid, a: nat, b: nat, q: nat) {
    && x in threads && y in threads && threads[x].slice == a > 0 && threads[y].slice == b > 0
    && !threads[x].spent && !threads[y].spent
    && current == (if q < a then Now(x) else Now(y))
    && threads[x].remaining == (if q < a then a - q else a)
    && threads[y].remaining == (if q < a then b else a + b - q)
  }

  /** A tick and the rt_schedule that follows it. */
  function Ticked(s: Sched): (s': Sched)
    requires Inv(s) && s.current.Now?
    ensures Inv(s') && s'.current.Now?
  {
    TickKeeps(s);
    ScheduleKeeps(Step(s, Tick));
    Schedule(Step(s, Tick))
  }

  lemma TickInDuel(s: Sched, p: nat, x: Tid, y: Tid, rest: seq<Tid>)
    requires Duel(s, p, x, y, rest)
    ensures var c := s.current.t; var s1 := Step(s, Tick);
            && Duel(s1, p, x, y, rest) && s1.current == s.current && s1.table == s.table && s1.lock == s.lock
            && s1.threads == s.threads[c := TickOf(s.threads[c])]
  {
    TickKeeps(s);
    StepMeans(s, Tick);
  }

  lemma StaysInDuel(s: Sched, p: nat, x: Tid, y: Tid, rest: seq<Tid>)
    requires Duel(s, p, x, y, rest) && s.lock == 0 && !s.threads[s.current.t].spent
    ensures Schedule(s).current == s.current && Schedule(s).threads == s.threads && Schedule(s).lock == 0
    ensures Duel(Schedule(s), p, x, y, rest)
  {
    DuelTop(s, p, x, y, rest);
    ScheduleStays(s);
    DuelSchedules(s, p, x, y, rest);
    assert s.threads[s.current.t].(spent := false) == s.threads[s.current.t];
  }

  lemma LeavesInDuel(s: Sched, p: nat, x: Tid, y: Tid, rest: seq<Tid>)
    requires Duel(s, p, x, y, rest) && s.lock == 0 && s.threads[s.current.t].spent
    ensures var c := s.current.t; var o := Other(x, y, c);
            && o in s.threads && o != c && Schedule(s).current == Now(o) && Schedule(s).lock == 0
            && Schedule(s).threads == s.threads[c := s.threads[c].(stat := Ready, spent := false)][o := s.threads[o].(stat := Running)]
            && Duel(Schedule(s), p, x, y, rest)
  {
    DuelTop(s, p, x, y, rest);
    ScheduleSwitches(s);
    DuelSchedules(s, p, x, y, rest);
  }

  lemma TickGoesOn(s: Sched, p: nat, x: Tid, y: Tid, rest: seq<Tid>)
    requires Duel(s, p, x, y, rest) && s.lock == 0 && !s.threads[s.current.t].spent && s.threads[s.current.t].remaining > 1
    ensures var c := s.current.t; var th := s.threads[c];
            Ticked(s).current == s.current && Ticked(s).threads == s.threads[c := th.(remaining := th.remaining - 1)]
            && Duel(Ticked(s), p, x, y, rest) && Ticked(s).lock == 0
  {
    TickInDuel(s, p, x, y, rest);
    StaysInDuel(Step(s, Tick), p, x, y, rest);
  }

  /** The last tick of a slice passes the processor on. */
  lemma TickPassesOn(s: Sched, p: nat, x: Tid, y: Tid, rest: seq<Tid>)
    requires Duel(s, p, x, y, rest) && s.lock == 0 && s.threads[s.current.t].remaining == 1
    ensures var c := s.current.t; var th, o := s.threads[c], Other(x, y, c);
            && o in s.threads && o != c && Ticked(s).current == Now(o)
            && Ticked(s).threads == s.threads[c := th.(stat := Ready, spent := false, remaining := th.slice)]
                                             [o := s.threads[o].(stat := Running)]
            && Duel(Ticked(s), p, x, y, rest) && Ticked(s).lock == 0
  {
    TickInDuel(s, p, x, y, rest);
    LeavesInDuel(Step(s, Tick), p, x, y, rest);
    OverwrittenTick(s.threads, s.current.t);
  }

  lemma OverwrittenTick(threads: map<Tid, Thread>, c: Tid)
    requires c in threads && threads[c].remaining == 1
    ensures threads[c := TickOf(threads[c])][c := TickOf(threads[c]).(stat := Ready, spent := false)]
            == threads[c := threads[c].(stat := Ready, spent := false, remaining := threads[c].slice)]
  {
  }

  function Next(q: nat, both: nat): nat {
    if q + 1 == both then 0 else q + 1
  }

  /** One tick moves the round on by one. */
  lemma RoundTicks(s: Sched, p: nat, x: Tid, y: Tid, rest: seq<Tid>, a: nat, b: nat, q: nat)
    requires Round(s, p, x, y, rest, a, b, q)
    ensures Round(Ticked(s), p, x, y, rest, a, b, Next(q, a + b))
  {
    if s.threads[s.current.t].remaining > 1 { TickGoesOn(s, p, x, y, rest); } else { TickPassesOn(s, p, x, y, rest); }
  }

  /** `n` ticks, each with its rt_schedule. */
  function Ticks(n: nat): (acts: seq<Action>) {
    if n == 0 then [] else [Tick, Reschedule] + Ticks(n - 1)
  }

  lemma FirstTick(s: Sched, n: nat, s': Sched, idle: Tid)
    requires Inv(s) && s.current.Now? && n > 0
    ensures Run(s, Ticks(n), s', idle) <==> Run(Ticked(s), Ticks(n - 1), s', idle)
  {
    TickKeeps(s);
    var acts := Ticks(n);
    assert acts[1..] == [Reschedule] + Ticks(n - 1) && acts[1..][1..] == Ticks(n - 1);
    RunOne(s, acts, s', idle);
    RunOne(Step(s, Tick), acts[1..], s', idle);
  }

  lemma RunOne(s: Sched, acts: seq<Action>, s': Sched, idle: Tid)
    requires Inv(s) && acts != [] && Enabled(s, acts[0]) && !acts[0].Suspend? && !acts[0].Exit?
    ensures Run(s, acts, s', idle) <==> Run(Step(s, acts[0]), acts[1..], s', idle)
  {
  }

  /** The states from one tick to the next. */
  ghost predicate Ticking(ss: seq<Sched>) {
    && ss != [] && (forall i :: 0 <= i < |ss| ==> Inv(ss[i]) && ss[i].current.Now?)
    && forall i :: 0 < i < |ss| ==> ss[i] == Ticked(ss[i - 1])
  }

  /** They are what a run of the machine passes through. */
  lemma {:induction false} TickingRuns(ss: seq<Sched>, idle: Tid)
    requires Ticking(ss)
    ensures Run(ss[0], Ticks(|ss| - 1), ss[|ss| - 1], idle)
    decreases |ss|
  {
    if |ss| > 1 {
      assert ss[1] == Ticked(ss[0]);
      TickingRuns(ss[1..], idle);
      FirstTick(ss[0], |ss| - 1, ss[|ss| - 1], idle);
    }
  }

  /** Two threads of the most urgent level take turns by the clock: after any number of ticks it is the
      position in the round of both slices that says which one runs, and with how much of its slice. */
  lemma SlicesAlternate(ss: seq<Sched>, n: nat, p: nat, x: Tid, y: Tid, rest: seq<Tid>, a: nat, b: nat, q: nat)
    requires Ticking(ss) && n < |ss| && Round(ss[0], p, x, y, rest, a, b, q)
    ensures var k, s := (q + n) % (a + b), ss[n];
            && x in s.threads && y in s.threads
            && s.current == (if k < a then Now(x) else Now(y))
            && s.threads[x].remaining == (if k < a then a - k else a)
            && s.threads[y].remaining == (if k < a then b else a + b - k)
  {
    RoundAfter(ss, n, p, x, y, rest, a, b, q);
    AdvanceIs(q, n, a + b);
  }

  function Advance(q: nat, n: nat, both: nat): nat {
    if n == 0 then q else Next(Advance(q, n - 1, both), both)
  }

  lemma {:induction false} AdvanceIs(q: nat, n: nat, both: nat)
    requires q < both
    ensures Advance(q, n, both) == (q + n) % both
  {
    if n > 0 {
      AdvanceIs(q, n - 1, both);
      NextInRound(q + n - 1, both);
    } else {
      Below(q, both);
    }
  }

  lemma {:induction false} RoundAfter(ss: seq<Sched>, n: nat, p: nat, x: Tid, y: Tid, rest: seq<Tid>, a: nat, b: nat, q: nat)
    requires Ticking(ss) && n < |ss| && Round(ss[0], p, x, y, rest, a, b, q)
    ensures Round(ss[n], p, x, y, rest, a, b, Advance(q, n, a + b))
    decreases n
  {
    if n > 0 {
      RoundAfter(ss, n - 1, p, x, y, rest, a, b, q);
      RoundTicks(ss[n - 1], p, x, y, rest, a, b, Advance(q, n - 1, a + b));
    }
  }

  lemma NextInRound(n: nat, both: nat)
    requires both > 0
    ensures Next(n % both, both) == (n + 1) % both
  {
    var k, r := n / both, n % both;
    assert n == k * both + r;
    if r + 1 == both {
      assert n + 1 == (k + 1) * both;
      LwrbIndex.ModOf(k + 1, both, 0);
    } else {
      LwrbIndex.ModOf(k, both, r + 1);
    }
  }

  lemma Below(q: nat, both: nat)
    requires q < both
    ensures q % both == q
  {
  }

  lemma FirstRound(boot: Sched, s: Sched, p: nat, x: Tid, y: Tid, rest: seq<Tid>)
    requires Boot(boot) && Lined(boot, s, [x, y] + rest, p) && Distinct([x, y] + rest) && x in boot.threads && y in boot.threads
    requires boot.threads[x].remaining == boot.threads[x].slice > 0 && boot.threads[y].remaining == boot.threads[y].slice > 0
    ensures Enabled(s, Start) && Round(Step(s, Start), p, x, y, rest, boot.threads[x].slice, boot.threads[y].slice, 0)
  {
    FirstDispatched(boot, s, p, x, y, rest);
    StartMeans(s);
    var list := [x, y] + rest;
    assert x == list[0] && y == list[1];
  }

  /** From every boot in which the slices are whole, as rt_thread_init leaves them, any threads of one
      priority can be brought to the start of a round of two of them, all the others waiting behind. */
  lemma RoundReached(boot: Sched, p: nat, x: Tid, y: Tid, rest: seq<Tid>, idle: Tid)
    requires Boot(boot) && Distinct([x, y] + rest) && p < |boot.table|
    requires forall t :: t in [x, y] + rest ==> t in boot.threads && boot.threads[t].prio == p
    requires forall t :: t in boot.threads ==> boot.threads[t].remaining == boot.threads[t].slice > 0
    ensures x in boot.threads && y in boot.threads
    ensures exists acts, s :: Run(boot, acts, s, idle) && Round(s, p, x, y, rest, boot.threads[x].slice, boot.threads[y].slice, 0)
  {
    assert ([x, y] + rest)[0] == x && ([x, y] + rest)[1] == y;
    var acts, s := LineUp(boot, [x, y] + rest, p, idle);
    FirstRound(boot, s, p, x, y, rest);
    RunThen(boot, acts, s, Start, idle);
  }
}
