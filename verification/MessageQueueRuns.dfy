/**
 What a message queue does to its messages and to its waiters, step by step and over whole
 runs: messages leave in the order of the deque, and no wake-up is lost.
 */
module MessageQueueRuns {
  import opened MessageQueueSpec
  import opened WaitList

  // ----- the deque -----

  /** The step is a receive that looks at the queue, at once or after having been woken. */
  predicate Receives(s: MQ, a: Action)
    requires Enabled(s, a)
  {
    (a.Enter? && a.op.RecvOp?) || (a.Retry? && s.pc[a.t].ok && s.pc[a.t].op.RecvOp?)
  }

  function Wanted(s: MQ, a: Action): (size: nat)
    requires Enabled(s, a) && Receives(s, a)
  {
    if a.Enter? then a.op.size else s.pc[a.t].op.size
  }

  /** The step links a filled slot. */
  predicate Links(s: MQ, a: Action)
    requires Enabled(s, a)
  {
    a.Finish? && s.pc[a.t].Linking?
  }

  /** What every step does to the messages, as the deque they form. */
  ghost predicate Moves(s: MQ, a: Action, s': MQ)
    requires Enabled(s, a) && |s.messages| == |s.queue|
  {
    if Receives(s, a) && s.messages != [] then
      && s'.messages == s.messages[1..] && s'.queue == s.queue[1..]
      && a.t in s'.pc && s'.pc[a.t] == Draining(s.queue[0], Wanted(s, a), s.messages[0])
    else if Links(s, a) then
      var op, slot := s.pc[a.t].op, s.pc[a.t].slot;
      if op.SendOp? then s'.messages == s.messages + [op.buf] && s'.queue == s.queue + [slot]
      else op.UrgentOp? && s'.messages == [op.buf] + s.messages && s'.queue == [slot] + s.queue
    else if a.Reset? then s'.messages == [] && s'.queue == []
    else s'.messages == s.messages && s'.queue == s.queue
  }

  lemma AttemptMoves(s: MQ, t: Tid, op: Op, timed: bool, mayWait: bool)
    requires Inv(s) && t in s.pc
    ensures var s' := Attempt(s, t, op, timed, mayWait);
            if op.RecvOp? && s.messages != [] then
              && s'.messages == s.messages[1..] && s'.queue == s.queue[1..]
              && t in s'.pc && s'.pc[t] == Draining(s.queue[0], op.size, s.messages[0])
            else s'.messages == s.messages && s'.queue == s.queue
  {
  }

  lemma GiveBackMoves(s: MQ, t: Tid)
    requires Sound(s) && t in s.pc && s.pc[t].Returning?
    ensures Finished(s, t).messages == s.messages && Finished(s, t).queue == s.queue
  {
  }

  lemma StepMoves(s: MQ, a: Action)
    requires Inv(s) && Enabled(s, a)
    ensures Moves(s, a, Step(s, a))
  {
    match a
    case Enter(t, op, timeout) => AttemptMoves(s, t, op, timeout > 0, timeout != 0);
    case Retry(t, expired) =>
      if s.pc[t].ok { AttemptMoves(s, t, s.pc[t].op, s.pc[t].timed, !(s.pc[t].timed && expired)); }
    case Finish(t) => if s.pc[t].Linking? { LinkEffect(s, t); } else { GiveBackMoves(s, t); }
    case Reset => ResetKeeps(s);
    case _ =>
  }

  /** In every reachable state, every step moves the deque as `Moves` says: a receive takes the front
      message with its slot whether it had to wait or not, linking appends or, for an urgent message,
      prepends, a reset empties, and no other step touches it. */
  lemma StepRefinesDeque(s: MQ, acts: seq<Action>, s1: MQ, a: Action)
    requires Start(s) && Run(s, acts, s1) && Enabled(s1, a)
    ensures Sound(s1) && |s1.messages| == |s1.queue| && Moves(s1, a, Step(s1, a))
  {
    StartInv(s);
    RunKeeps(s, acts, s1);
    StepMoves(s1, a);
  }

  // ----- first in, first out -----

  /** The message a step takes off the queue, if any. */
  function Out(s: MQ, a: Action): seq<seq<Byte>>
    requires Enabled(s, a)
  {
    if Receives(s, a) && s.messages != [] then [s.messages[0]] else []
  }

  /** The message a step links, if any. */
  function In(s: MQ, a: Action): seq<seq<Byte>>
    requires Sound(s) && Enabled(s, a)
  {
    if Links(s, a) then [s.pc[a.t].op.buf] else []
  }

  /** The messages that receives took off the queue over a run, in order. */
  ghost function Taken(s: MQ, acts: seq<Action>): seq<seq<Byte>>
    decreases |acts|
  {
    if acts == [] || !Sound(s) || !Enabled(s, acts[0]) then [] else Out(s, acts[0]) + Taken(Step(s, acts[0]), acts[1..])
  }

  /** The messages that were linked, in order. */
  ghost function Put(s: MQ, acts: seq<Action>): seq<seq<Byte>>
    decreases |acts|
  {
    if acts == [] || !Sound(s) || !Enabled(s, acts[0]) then [] else In(s, acts[0]) + Put(Step(s, acts[0]), acts[1..])
  }

  /** No urgent message and no reset. */
  predicate Plain(a: Action) {
    !a.Reset? && (a.Enter? ==> !a.op.UrgentOp?)
  }

  predicate NotUrgent(pc: Pc) {
    match pc
    case Waiting(op, _) => !op.UrgentOp?
    case Woken(op, _, _) => !op.UrgentOp?
    case Filling(op, _) => !op.UrgentOp?
    case Linking(op, _) => !op.UrgentOp?
    case _ => true
  }

  ghost predicate NoneUrgent(pc: map<Tid, Pc>) {
    forall t :: t in pc ==> NotUrgent(pc[t])
  }

  lemma PlainWakes(s: MQ)
    requires NoneUrgent(s.pc)
    ensures NoneUrgent(WakeReceiver(s).pc) && NoneUrgent(WakeSender(s).pc)
  {
    if s.receivers != [] { assert s.receivers[0] in s.pc ==> NotUrgent(s.pc[s.receivers[0]]); }
    if s.senders != [] { assert s.senders[0] in s.pc ==> NotUrgent(s.pc[s.senders[0]]); }
  }

  lemma PlainAttempt(s: MQ, t: Tid, op: Op, timed: bool, mayWait: bool)
    requires Sound(s) && NoneUrgent(s.pc) && !op.UrgentOp?
    ensures NoneUrgent(Attempt(s, t, op, timed, mayWait).pc)
  {
  }

  lemma PlainFinish(s: MQ, t: Tid)
    requires Sound(s) && NoneUrgent(s.pc) && Enabled(s, Finish(t))
    ensures NoneUrgent(Finished(s, t).pc)
  {
    if s.pc[t].Returning? {
      PlainWakes(GaveBack(s, t));
    } else {
      PlainWakes(Linked(s, t));
    }
  }

  lemma PlainStep(s: MQ, a: Action)
    requires Sound(s) && Enabled(s, a) && NoneUrgent(s.pc) && Plain(a)
    ensures NoneUrgent(Step(s, a).pc)
  {
    match a
    case Enter(t, op, timeout) => PlainAttempt(s, t, op, timeout > 0, timeout != 0);
    case Retry(t, expired) =>
      assert NotUrgent(s.pc[t]);
      if s.pc[t].ok { PlainAttempt(s, t, s.pc[t].op, s.pc[t].timed, !(s.pc[t].timed && expired)); }
    case Finish(t) => PlainFinish(s, t);
    case Copy(t) => assert NotUrgent(s.pc[t]);
    case TimerFires(t) => assert NotUrgent(s.pc[t]);
  }

  lemma MoveBalances(s: MQ, a: Action, s1: MQ)
    requires Sound(s) && Enabled(s, a) && |s.messages| == |s.queue| && Moves(s, a, s1) && Plain(a) && NoneUrgent(s.pc)
    ensures s.messages + In(s, a) == Out(s, a) + s1.messages
  {
    if Links(s, a) { assert NotUrgent(s.pc[a.t]); }
  }

  /** Without urgent messages and resets the queue is first in, first out over every run: what was
      queued and then linked is what was taken, in order, followed by what is still queued. */
  lemma {:induction false} FirstInFirstOut(s: MQ, acts: seq<Action>, s': MQ)
    requires Inv(s) && NoneUrgent(s.pc) && Run(s, acts, s') && forall a :: a in acts ==> Plain(a)
    ensures s.messages + Put(s, acts) == Taken(s, acts) + s'.messages
    decreases |acts|
  {
    if acts != [] {
      var a, rest := acts[0], acts[1..];
      assert acts == [a] + rest;
      RunTail(s, a, rest, s');
      FifoKeeps(s, a);
      FirstInFirstOut(Step(s, a), rest, s');
      FifoOneMore(s, a, rest, s'.messages);
    }
  }

  lemma RunTail(s: MQ, a: Action, rest: seq<Action>, s': MQ)
    requires Run(s, [a] + rest, s')
    ensures Sound(s) && Enabled(s, a) && Run(Step(s, a), rest, s')
  {
    assert ([a] + rest)[1..] == rest;
  }

  lemma FifoKeeps(s: MQ, a: Action)
    requires Inv(s) && NoneUrgent(s.pc) && Enabled(s, a) && Plain(a)
    ensures Inv(Step(s, a)) && NoneUrgent(Step(s, a).pc)
  {
    StepKeeps(s, a);
    PlainStep(s, a);
  }

  lemma FifoOneMore(s: MQ, a: Action, rest: seq<Action>, left: seq<seq<Byte>>)
    requires Inv(s) && NoneUrgent(s.pc) && Enabled(s, a) && Plain(a)
    requires Step(s, a).messages + Put(Step(s, a), rest) == Taken(Step(s, a), rest) + left
    ensures s.messages + Put(s, [a] + rest) == Taken(s, [a] + rest) + left
  {
    FifoStep(s, a);
    FifoLogs(s, a, rest);
    Chained(s.messages, In(s, a), Put(Step(s, a), rest), Out(s, a), Step(s, a).messages, Taken(Step(s, a), rest), left);
  }

  lemma FifoLogs(s: MQ, a: Action, rest: seq<Action>)
    requires Sound(s) && Enabled(s, a)
    ensures Put(s, [a] + rest) == In(s, a) + Put(Step(s, a), rest)
    ensures Taken(s, [a] + rest) == Out(s, a) + Taken(Step(s, a), rest)
  {
    assert ([a] + rest)[1..] == rest;
  }

  lemma FifoStep(s: MQ, a: Action)
    requires Inv(s) && NoneUrgent(s.pc) && Enabled(s, a) && Plain(a)
    ensures s.messages + In(s, a) == Out(s, a) + Step(s, a).messages
  {
    StepMoves(s, a);
    MoveBalances(s, a, Step(s, a));
  }

  lemma Chained<T>(m: seq<T>, i: seq<T>, put: seq<T>, o: seq<T>, m1: seq<T>, taken: seq<T>, m': seq<T>)
    requires m + i == o + m1 && m1 + put == taken + m'
    ensures m + (i + put) == (o + taken) + m'
  {
    assert m + (i + put) == (m + i) + put == o + (m1 + put) == (o + taken) + m';
  }

  // ----- no lost wake-up -----

  /** Contexts that were woken to receive (or to send) and have not run yet. */
  function WokenFor(pc: map<Tid, Pc>, recv: bool): (w: set<Tid>) {
    set t | t in pc && pc[t].Woken? && pc[t].ok && pc[t].op.RecvOp? == recv
  }

  /** While someone waits to receive, every message is matched by a receiver already woken; while
      someone waits to send, every free slot is matched by a sender already woken. */
  ghost predicate NoneLost(s: MQ) {
    && (s.receivers != [] ==> s.entry <= |WokenFor(s.pc, true)|)
    && (s.senders != [] ==> |s.frees| <= |WokenFor(s.pc, false)|)
  }

  /** How the count of woken contexts changes when one context moves. */
  lemma WokenChanges(pc: map<Tid, Pc>, t: Tid, p: Pc, recv: bool)
    requires t in pc
    ensures var before, after := WokenFor(pc, recv), WokenFor(pc[t := p], recv);
            |after| == |before| - (if t in before then 1 else 0)
                       + (if p.Woken? && p.ok && p.op.RecvOp? == recv then 1 else 0)
  {
    var before, after := WokenFor(pc, recv), WokenFor(pc[t := p], recv);
    if p.Woken? && p.ok && p.op.RecvOp? == recv {
      assert after == before - {t} + {t};
    } else {
      assert after == before - {t};
    }
  }

  /** A context that is not woken moves to where it is not woken either. */
  lemma SameWoken(pc: map<Tid, Pc>, t: Tid, p: Pc)
    requires t in pc && !(pc[t].Woken? && pc[t].ok) && !(p.Woken? && p.ok)
    ensures forall recv :: |WokenFor(pc[t := p], recv)| == |WokenFor(pc, recv)|
  {
    WokenChanges(pc, t, p, true);
    WokenChanges(pc, t, p, false);
  }

  lemma WakeReceiverCounts(s: MQ)
    requires Queued(s)
    ensures var s' := WakeReceiver(s);
            && |WokenFor(s'.pc, true)| == |WokenFor(s.pc, true)| + (if s.receivers != [] then 1 else 0)
            && |WokenFor(s'.pc, false)| == |WokenFor(s.pc, false)|
            && s'.senders == s.senders && s'.entry == s.entry && s'.frees == s.frees
            && (s.receivers == [] ==> s'.receivers == [])
  {
    if s.receivers != [] {
      var t := s.receivers[0];
      assert t in s.receivers;
      WokenChanges(s.pc, t, Woken(s.pc[t].op, s.pc[t].timed, true), true);
      WokenChanges(s.pc, t, Woken(s.pc[t].op, s.pc[t].timed, true), false);
    }
  }

  lemma WakeSenderCounts(s: MQ)
    requires Queued(s)
    ensures var s' := WakeSender(s);
            && |WokenFor(s'.pc, false)| == |WokenFor(s.pc, false)| + (if s.senders != [] then 1 else 0)
            && |WokenFor(s'.pc, true)| == |WokenFor(s.pc, true)|
            && s'.receivers == s.receivers && s'.entry == s.entry && s'.frees == s.frees
            && (s.senders == [] ==> s'.senders == [])
  {
    if s.senders != [] {
      var t := s.senders[0];
      assert t in s.senders;
      WokenChanges(s.pc, t, Woken(s.pc[t].op, s.pc[t].timed, true), true);
      WokenChanges(s.pc, t, Woken(s.pc[t].op, s.pc[t].timed, true), false);
    }
  }

  /** The lists and amounts after a call looked at the queue. */
  lemma AttemptCounts(s: MQ, t: Tid, op: Op, timed: bool, mayWait: bool)
    requires Inv(s) && t in s.pc
    ensures var s' := Attempt(s, t, op, timed, mayWait);
            && t in s'.pc && s'.pc == s.pc[t := s'.pc[t]] && !s'.pc[t].Woken?
            && (s'.receivers == s.receivers || (op.RecvOp? && s.entry == 0))
            && (s'.senders == s.senders || (!op.RecvOp? && s.frees == []))
            && s'.entry == (if op.RecvOp? && s.entry > 0 then s.entry - 1 else s.entry)
            && |s'.frees| == (if !op.RecvOp? && s.frees != [] then |s.frees| - 1 else |s.frees|)
  {
  }

  lemma AttemptLoses(s: MQ, t: Tid, op: Op, timed: bool, mayWait: bool)
    requires Inv(s) && NoneLost(s) && t in s.pc && !s.pc[t].Waiting? && (s.pc[t].Woken? ==> s.pc[t].op == op)
    ensures NoneLost(Attempt(s, t, op, timed, mayWait))
  {
    AttemptCounts(s, t, op, timed, mayWait);
    var p := Attempt(s, t, op, timed, mayWait).pc[t];
    WokenChanges(s.pc, t, p, true);
    WokenChanges(s.pc, t, p, false);
  }

  lemma LinkLoses(s: MQ, t: Tid)
    requires Inv(s) && Queued(s) && NoneLost(s) && t in s.pc && s.pc[t].Linking?
    ensures NoneLost(Finished(s, t))
  {
    var s1 := Linked(s, t);
    LinkedInv(s, t);
    LinkedQueued(s, t);
    LinkedCounts(s, t);
    WakeReceiverCounts(s1);
  }

  lemma LinkedCounts(s: MQ, t: Tid)
    requires Sound(s) && t in s.pc && s.pc[t].Linking? && s.entry < ENTRY_MAX
    ensures var s1 := Linked(s, t);
            && s1.entry == s.entry + 1 && s1.frees == s.frees && s1.receivers == s.receivers && s1.senders == s.senders
            && forall recv :: |WokenFor(s1.pc, recv)| == |WokenFor(s.pc, recv)|
  {
    SameWoken(s.pc, t, Idle);
  }

  lemma GiveBackLoses(s: MQ, t: Tid)
    requires Inv(s) && Queued(s) && NoneLost(s) && t in s.pc && s.pc[t].Returning?
    ensures NoneLost(Finished(s, t))
  {
    GaveBackCounts(s, t);
    WakeSenderCounts(GaveBack(s, t));
  }

  lemma GaveBackCounts(s: MQ, t: Tid)
    requires Sound(s) && Queued(s) && t in s.pc && s.pc[t].Returning?
    ensures var s1 := GaveBack(s, t);
            && Queued(s1) && s1.entry == s.entry && |s1.frees| == |s.frees| + 1
            && s1.receivers == s.receivers && s1.senders == s.senders
            && forall recv :: |WokenFor(s1.pc, recv)| == |WokenFor(s.pc, recv)|
  {
    SameWoken(s.pc, t, Idle);
  }

  lemma CopyLoses(s: MQ, t: Tid)
    requires Sound(s) && NoneLost(s) && Enabled(s, Copy(t))
    ensures NoneLost(Copied(s, t))
  {
    SameWoken(s.pc, t, Copied(s, t).pc[t]);
  }

  lemma TimeoutLoses(s: MQ, t: Tid)
    requires Sound(s) && Queued(s) && NoneLost(s) && Enabled(s, TimerFires(t))
    ensures NoneLost(Step(s, TimerFires(t)))
  {
    SameWoken(s.pc, t, Woken(s.pc[t].op, s.pc[t].timed, false));
  }

  lemma ResetLoses(s: MQ)
    requires Sound(s)
    ensures NoneLost(ResetAll(s))
  {
    ResetLists(s);
  }

  lemma RetryLoses(s: MQ, t: Tid, expired: bool)
    requires Inv(s) && NoneLost(s) && Enabled(s, Retry(t, expired))
    ensures NoneLost(Step(s, Retry(t, expired)))
  {
    if s.pc[t].ok {
      AttemptLoses(s, t, s.pc[t].op, s.pc[t].timed, !(s.pc[t].timed && expired));
    } else {
      SameWoken(s.pc, t, Idle);
    }
  }

  lemma StepLoses(s: MQ, a: Action)
    requires Inv(s) && Queued(s) && NoneLost(s) && Enabled(s, a)
    ensures NoneLost(Step(s, a))
  {
    match a
    case Enter(t, op, timeout) => AttemptLoses(s, t, op, timeout > 0, timeout != 0);
    case Retry(t, expired) => RetryLoses(s, t, expired);
    case Copy(t) => CopyLoses(s, t);
    case Finish(t) => if s.pc[t].Linking? { LinkLoses(s, t); } else { GiveBackLoses(s, t); }
    case TimerFires(t) => TimeoutLoses(s, t);
    case Reset => ResetLoses(s);
  }

  lemma {:induction false} RunLoses(s: MQ, acts: seq<Action>, s': MQ)
    requires Inv(s) && Queued(s) && NoneLost(s) && Run(s, acts, s')
    ensures NoneLost(s')
    decreases |acts|
  {
    if acts != [] {
      StepValid(s, acts[0]);
      StepLoses(s, acts[0]);
      RunLoses(Step(s, acts[0]), acts[1..], s');
    }
  }

  /** No wake-up is lost: over every run, while anyone waits to receive there are no more messages
      than receivers already woken, and while anyone waits to send there are no more free slots than
      senders already woken. */
  lemma NoLostWakeup(s: MQ, acts: seq<Action>, s': MQ)
    requires Start(s) && Run(s, acts, s')
    ensures s'.receivers != [] ==> s'.entry <= |WokenFor(s'.pc, true)|
    ensures s'.senders != [] ==> |s'.frees| <= |WokenFor(s'.pc, false)|
  {
    StartInv(s);
    RunLoses(s, acts, s');
  }

  // ----- who is woken -----

  ghost predicate UrgentLists(s: MQ) {
    UrgentFirst(s.receivers, s.cfg.prio) && UrgentFirst(s.senders, s.cfg.prio)
  }

  /** `s'` has the lists of `s`. */
  predicate SameLists(s: MQ, s': MQ) {
    s'.receivers == s.receivers && s'.senders == s.senders && s'.cfg == s.cfg
  }

  lemma WakeUrgent(s: MQ)
    requires UrgentLists(s)
    ensures UrgentLists(WakeReceiver(s)) && UrgentLists(WakeSender(s))
  {
    if s.receivers != [] { RestUrgentFirst(s.receivers, s.cfg.prio); }
    if s.senders != [] { RestUrgentFirst(s.senders, s.cfg.prio); }
  }

  lemma SuspendedUrgent(s: MQ, t: Tid, op: Op, timed: bool)
    requires t in s.cfg.prio && s.cfg.flag == ByPriority && UrgentLists(s)
    ensures UrgentLists(Suspended(s, t, op, timed))
  {
    if op.RecvOp? { JoinedUrgentFirst(s.receivers, s.cfg, t); } else { JoinedUrgentFirst(s.senders, s.cfg, t); }
  }

  lemma AttemptUrgent(s: MQ, t: Tid, op: Op, timed: bool, mayWait: bool)
    requires Sound(s) && t in s.cfg.prio && s.cfg.flag == ByPriority && UrgentLists(s)
    ensures var s' := Attempt(s, t, op, timed, mayWait); UrgentLists(s') && s'.cfg == s.cfg
  {
    var s' := Attempt(s, t, op, timed, mayWait);
    if s' == Suspended(s, t, op, timed) { SuspendedUrgent(s, t, op, timed); } else { assert SameLists(s, s'); }
  }

  lemma FinishUrgent(s: MQ, t: Tid)
    requires Sound(s) && Enabled(s, Finish(t)) && UrgentLists(s)
    ensures UrgentLists(Finished(s, t)) && Finished(s, t).cfg == s.cfg
  {
    var s1 := if s.pc[t].Returning? then GaveBack(s, t) else Linked(s, t);
    assert SameLists(s, s1);
    WakeUrgent(s1);
  }

  lemma StepUrgent(s: MQ, a: Action)
    requires Inv(s) && Queued(s) && Enabled(s, a) && s.cfg.flag == ByPriority && UrgentLists(s)
    ensures UrgentLists(Step(s, a)) && Step(s, a).cfg == s.cfg
  {
    match a
    case Enter(t, op, timeout) => AttemptUrgent(s, t, op, timeout > 0, timeout != 0);
    case Retry(t, expired) =>
      if s.pc[t].ok { AttemptUrgent(s, t, s.pc[t].op, s.pc[t].timed, !(s.pc[t].timed && expired)); }
    case Copy(t) => assert SameLists(s, Copied(s, t));
    case Finish(t) => FinishUrgent(s, t);
    case TimerFires(t) =>
      WithoutUrgentFirst(s.receivers, s.cfg.prio, t);
      WithoutUrgentFirst(s.senders, s.cfg.prio, t);
    case Reset => ResetLists(s);
  }

  lemma {:induction false} RunUrgent(s: MQ, acts: seq<Action>, s': MQ)
    requires Inv(s) && Queued(s) && s.cfg.flag == ByPriority && UrgentLists(s) && Run(s, acts, s')
    ensures UrgentLists(s')
    decreases |acts|
  {
    if acts != [] {
      StepValid(s, acts[0]);
      StepUrgent(s, acts[0]);
      RunUrgent(Step(s, acts[0]), acts[1..], s');
    }
  }

  /** Over every run of a queue that lets its waiters queue by priority: whoever is woken next is
      as urgent as everyone else who waits for the same thing. */
  lemma WakesMostUrgent(s: MQ, acts: seq<Action>, s': MQ, u: Tid)
    requires Start(s) && s.cfg.flag == ByPriority && Run(s, acts, s') && u in s'.cfg.prio
    ensures u in s'.receivers ==> s'.receivers[0] in s'.cfg.prio && s'.cfg.prio[s'.receivers[0]] <= s'.cfg.prio[u]
    ensures u in s'.senders ==> s'.senders[0] in s'.cfg.prio && s'.cfg.prio[s'.senders[0]] <= s'.cfg.prio[u]
  {
    StartInv(s);
    RunUrgent(s, acts, s');
  }
}
