/**
 What each step of a message queue does to slots, messages and waiters, in terms of the lists
 that the link fields spell out; and how the wait of a call ends.
 */
module MessageQueueWaiting {
  import opened WaitList
  import opened MessageQueueSpec

  // ----- each step -----

  /** The state but for the link fields, which spell out `frees` and `queue`. */
  function Lists(s: MQ): MQ {
    s.(next := [], free := NULL, head := NULL, tail := NULL)
  }

  /** The head of a list, if there is one, is made ready with its call to be tried again. */
  ghost predicate Wakes(pc: map<Tid, Pc>, list: seq<Tid>, pc': map<Tid, Pc>, list': seq<Tid>) {
    if list == [] then pc' == pc && list' == []
    else
      && list[0] in pc && pc[list[0]].Waiting?
      && pc' == pc[list[0] := Woken(pc[list[0]].op, pc[list[0]].timed, true)] && list' == list[1..]
  }

  /** The caller waits in the list of its kind, with its timer armed or not. */
  ghost predicate Waits(s: MQ, s': MQ, t: Tid, op: Op, timed: bool) {
    && Lists(s') == Lists(s).(pc := s.pc[t := Waiting(op, timed)], senders := s'.senders, receivers := s'.receivers)
    && (if op.RecvOp? then Joins(s.receivers, s'.receivers, s.cfg, t) && s'.senders == s.senders
        else Joins(s.senders, s'.senders, s.cfg, t) && s'.receivers == s.receivers)
  }

  /** One pass of the wait loop: a receive takes the first message with its slot, and a send the first free
      slot; without one the call waits if it may, which an urgent send never does, or fails. */
  ghost predicate Attempts(s: MQ, s': MQ, t: Tid, op: Op, timed: bool, mayWait: bool)
    requires |s.messages| == |s.queue|
  {
    if op.RecvOp? && s.queue != [] then
      s.entry > 0 && Lists(s') == Lists(s).(pc := s.pc[t := Draining(s.queue[0], op.size, s.messages[0])], entry := s.entry - 1,
                                            queue := s.queue[1..], messages := s.messages[1..])
    else if !op.RecvOp? && s.frees != [] then
      Lists(s') == Lists(s).(pc := s.pc[t := Filling(op, s.frees[0])], frees := s.frees[1..])
    else if mayWait && !op.UrgentOp? then Waits(s, s', t, op, timed)
    else s' == s.(pc := s.pc[t := Idle])
  }

  /** The copy: a message goes to the front of its slot, or as much of it as the caller asked for comes out. */
  ghost predicate Copies(s: MQ, s': MQ, t: Tid)
    requires Sound(s) && t in s.pc && (s.pc[t].Filling? || s.pc[t].Draining?)
  {
    var slot := s.pc[t].slot;
    match s.pc[t]
    case Filling(op, _) =>
      && !op.RecvOp? && slot < |s.body| && |op.buf| <= |s.body[slot]|
      && Lists(s') == Lists(s).(pc := s.pc[t := Linking(op, slot)], body := s.body[slot := op.buf + s.body[slot][|op.buf|..]])
    case Draining(_, size, msg) =>
      var n := if size < s.msgSize then size else s.msgSize;
      && slot < |s.body| && n <= |s.body[slot]|
      && s' == s.(pc := s.pc[t := Returning(slot, s.body[slot][..n], size, msg)])
  }

  /** The second section of a call: a filled slot joins the queue, at its end or as an urgent one at its front,
      and the first receiver is woken; a slot read joins the free list, and the first sender is woken. */
  ghost predicate Finishes(s: MQ, s': MQ, t: Tid)
    requires t in s.pc && (s.pc[t].Linking? || s.pc[t].Returning?)
  {
    match s.pc[t]
    case Linking(op, slot) =>
      && !op.RecvOp? && Wakes(s.pc[t := Idle], s.receivers, s'.pc, s'.receivers)
      && Lists(s') == Lists(s).(pc := s'.pc, receivers := s'.receivers, entry := s.entry + 1,
                                queue := if op.SendOp? then s.queue + [slot] else [slot] + s.queue,
                                messages := if op.SendOp? then s.messages + [op.buf] else [op.buf] + s.messages)
    case Returning(slot, _, _, _) =>
      && Wakes(s.pc[t := Idle], s.senders, s'.pc, s'.senders)
      && Lists(s') == Lists(s).(pc := s'.pc, senders := s'.senders, frees := [slot] + s.frees)
  }

  ghost predicate Does(s: MQ, a: Action, s': MQ)
    requires Inv(s) && Enabled(s, a)
  {
    match a
    case Enter(t, op, timeout) => Attempts(s, s', t, op, timeout > 0, timeout != 0)
    case Retry(t, expired) =>
      if s.pc[t].ok then Attempts(s, s', t, s.pc[t].op, s.pc[t].timed, !s.pc[t].timed || !expired)
      else s' == s.(pc := s.pc[t := Idle])
    case Copy(t) => Copies(s, s', t)
    case Finish(t) => Finishes(s, s', t)
    case TimerFires(t) =>
      s' == s.(pc := s.pc[t := Woken(s.pc[t].op, s.pc[t].timed, false)],
               senders := Without(s.senders, t), receivers := Without(s.receivers, t))
    case Reset =>
      && s'.queue == [] && s'.messages == [] && s'.entry == 0 && s'.senders == s'.receivers == [] && s'.pc.Keys == s.pc.Keys
      && forall t :: t in s.pc ==> s'.pc[t] == if s.pc[t].Waiting? then Woken(s.pc[t].op, s.pc[t].timed, false) else s.pc[t]
  }

  lemma AttemptMeans(s: MQ, t: Tid, op: Op, timed: bool, mayWait: bool)
    requires Inv(s) && Queued(s) && t in s.pc
    ensures Attempts(s, Attempt(s, t, op, timed, mayWait), t, op, timed, mayWait)
  {
    JoinedJoins(s.receivers, s.cfg, t);
    JoinedJoins(s.senders, s.cfg, t);
  }

  lemma CopyMeans(s: MQ, t: Tid)
    requires Inv(s) && Enabled(s, Copy(t))
    ensures Copies(s, Copied(s, t), t)
  {
    assert Fits(s.pc[t], s.msgSize) && FlightPayload(s, s.pc[t]);
  }

  lemma LinkMeans(s: MQ, t: Tid)
    requires Inv(s) && Queued(s) && t in s.pc && s.pc[t].Linking?
    ensures Finishes(s, Finished(s, t), t)
  {
    assert Fits(s.pc[t], s.msgSize);
    LinkedInv(s, t);
    LinkLists(s, t);
    LinkedQueued(s, t);
    WakeMeans(Linked(s, t), s.receivers, s.pc[t := Idle]);
  }

  lemma WakeMeans(s: MQ, receivers: seq<Tid>, pc: map<Tid, Pc>)
    requires s.receivers == receivers && s.pc == pc && Queued(s)
    ensures var s' := WakeReceiver(s);
            Wakes(pc, receivers, s'.pc, s'.receivers) && Lists(s') == Lists(s).(pc := s'.pc, receivers := s'.receivers)
  {
    if s.receivers != [] { assert s.receivers[0] in s.receivers; }
  }

  lemma LinkLists(s: MQ, t: Tid)
    requires Inv(s) && t in s.pc && s.pc[t].Linking? && s.entry < ENTRY_MAX && !s.pc[t].op.RecvOp?
    ensures var op, slot := s.pc[t].op, s.pc[t].slot;
            Lists(Linked(s, t)) == Lists(s).(pc := s.pc[t := Idle], entry := s.entry + 1,
              queue := if op.SendOp? then s.queue + [slot] else [slot] + s.queue,
              messages := if op.SendOp? then s.messages + [op.buf] else [op.buf] + s.messages)
  {
  }

  lemma ReturnMeans(s: MQ, t: Tid)
    requires Inv(s) && Queued(s) && t in s.pc && s.pc[t].Returning?
    ensures Finishes(s, Finished(s, t), t)
  {
    if s.senders != [] { assert s.senders[0] in s.senders; }
  }

  lemma ResetMeans(s: MQ)
    requires Inv(s) && Queued(s)
    ensures Does(s, Reset, Step(s, Reset))
  {
    StepValid(s, Reset);
    ResetLists(s);
  }

  lemma StepMeans(s: MQ, a: Action)
    requires Inv(s) && Queued(s) && Enabled(s, a)
    ensures Does(s, a, Step(s, a))
  {
    match a
    case Enter(t, op, timeout) => AttemptMeans(s, t, op, timeout > 0, timeout != 0);
    case Retry(t, expired) => RetryMeans(s, t, expired);
    case Copy(t) => CopyMeans(s, t);
    case Finish(t) => if s.pc[t].Linking? { LinkMeans(s, t); } else { ReturnMeans(s, t); }
    case TimerFires(t) =>
    case Reset => ResetMeans(s);
  }

  lemma RetryMeans(s: MQ, t: Tid, expired: bool)
    requires Inv(s) && Queued(s) && Enabled(s, Retry(t, expired))
    ensures Does(s, Retry(t, expired), Step(s, Retry(t, expired)))
  {
    if s.pc[t].ok { AttemptMeans(s, t, s.pc[t].op, s.pc[t].timed, !(s.pc[t].timed && expired)); }
  }

  // ----- how a wait ends -----

  /** While a context waits, nothing touches its call or its timer; its wait ends with the timer, with a reset,
      or at the head of its list: a receiver's when a message is linked, a sender's when a slot is freed. */
  ghost predicate Ends(s: MQ, a: Action, s': MQ, t: Tid)
    requires Enabled(s, a) && t in s.pc && s.pc[t].Waiting?
  {
    var op, timed := s.pc[t].op, s.pc[t].timed;
    && t in s'.pc
    && if s'.pc[t].Waiting? then s'.pc[t] == s.pc[t] && a != TimerFires(t) && a != Reset
       else if a == TimerFires(t) || a == Reset then s'.pc[t] == Woken(op, timed, false)
       else
         var list := if op.RecvOp? then s.receivers else s.senders;
         && s'.pc[t] == Woken(op, timed, true) && list != [] && t == list[0]
         && if op.RecvOp? then |s'.messages| == |s.messages| + 1 else |s'.frees| == |s.frees| + 1
  }

  lemma WaitEnds(s: MQ, a: Action, t: Tid)
    requires Inv(s) && Queued(s) && Enabled(s, a) && t in s.pc && s.pc[t].Waiting?
    ensures Ends(s, a, Step(s, a), t)
  {
    StepMeans(s, a);
    match a
    case Enter(u, op, timeout) => AttemptEnds(s, a, Step(s, a), u, op, timeout > 0, timeout != 0, t);
    case Retry(u, expired) =>
      if s.pc[u].ok { AttemptEnds(s, a, Step(s, a), u, s.pc[u].op, s.pc[u].timed, !s.pc[u].timed || !expired, t); }
    case Finish(u) => FinishEnds(s, u, Step(s, a), t);
    case _ =>
  }

  lemma AttemptEnds(s: MQ, a: Action, s': MQ, u: Tid, op: Op, timed: bool, mayWait: bool, t: Tid)
    requires |s.messages| == |s.queue| && Enabled(s, a) && Attempts(s, s', u, op, timed, mayWait)
    requires t in s.pc && s.pc[t].Waiting? && u != t && a != TimerFires(t) && a != Reset
    ensures Ends(s, a, s', t)
  {
  }

  lemma FinishEnds(s: MQ, u: Tid, s': MQ, t: Tid)
    requires Inv(s) && Queued(s) && Enabled(s, Finish(u)) && Finishes(s, s', u) && t in s.pc && s.pc[t].Waiting?
    ensures Ends(s, Finish(u), s', t)
  {
    var list := if s.pc[u].Linking? then s.receivers else s.senders;
    if list != [] { assert list[0] in list; }
  }

  /** A run all of whose states have `t` waiting. */
  ghost predicate WaitingRun(s: MQ, acts: seq<Action>, s': MQ, t: Tid)
    decreases |acts|
  {
    && t in s.pc && s.pc[t].Waiting?
    && if acts == [] then s == s' else Sound(s) && Enabled(s, acts[0]) && WaitingRun(Step(s, acts[0]), acts[1..], s', t)
  }

  lemma {:induction false} LongWait(s: MQ, acts: seq<Action>, s': MQ, t: Tid)
    requires Inv(s) && Queued(s) && WaitingRun(s, acts, s', t)
    ensures Inv(s') && Queued(s') && t in s'.pc && s'.pc[t] == s.pc[t]
    decreases |acts|
  {
    if acts != [] {
      StepValid(s, acts[0]);
      WaitEnds(s, acts[0], t);
      LongWait(Step(s, acts[0]), acts[1..], s', t);
    }
  }

  /** A call waits exactly when its timeout is not 0, it is not urgent and there is no message to receive or
      slot to fill. Then, whatever happens meanwhile, its timer can fire exactly when the timeout is positive;
      the call then fails, and the context is on no list. */
  lemma CallTimesOut(s: MQ, t: Tid, op: Op, timeout: int, acts: seq<Action>, s2: MQ)
    requires Inv(s) && Queued(s) && Enabled(s, Enter(t, op, timeout)) && WaitingRun(Step(s, Enter(t, op, timeout)), acts, s2, t)
    ensures timeout != 0 && !op.UrgentOp? && (if op.RecvOp? then s.messages == [] else s.frees == [])
    ensures Inv(s2) && Queued(s2) && (Enabled(s2, TimerFires(t)) <==> timeout > 0)
    ensures timeout > 0 ==>
              var s3 := Step(s2, TimerFires(t));
              && Inv(s3) && t !in s3.senders && t !in s3.receivers && s3.messages == s2.messages && s3.frees == s2.frees
              && forall expired :: Enabled(s3, Retry(t, expired)) && Step(s3, Retry(t, expired)) == s3.(pc := s3.pc[t := Idle])
  {
    EntersWait(s, t, op, timeout);
    StepValid(s, Enter(t, op, timeout));
    LongWait(Step(s, Enter(t, op, timeout)), acts, s2, t);
    if timeout > 0 { TimeoutFails(s2, t); }
  }

  lemma EntersWait(s: MQ, t: Tid, op: Op, timeout: int)
    requires Inv(s) && Queued(s) && Enabled(s, Enter(t, op, timeout))
    ensures var p := Step(s, Enter(t, op, timeout)).pc;
            && t in p
            && (p[t].Waiting? <==> timeout != 0 && !op.UrgentOp? && (if op.RecvOp? then s.messages == [] else s.frees == []))
            && (p[t].Waiting? ==> p[t] == Waiting(op, timeout > 0))
  {
    AttemptMeans(s, t, op, timeout > 0, timeout != 0);
  }

  lemma TimeoutFails(s: MQ, t: Tid)
    requires Inv(s) && Queued(s) && Enabled(s, TimerFires(t))
    ensures var s3 := Step(s, TimerFires(t));
            && Inv(s3) && t !in s3.senders && t !in s3.receivers && s3.messages == s.messages && s3.frees == s.frees
            && forall expired :: Enabled(s3, Retry(t, expired)) && Step(s3, Retry(t, expired)) == s3.(pc := s3.pc[t := Idle])
  {
    StepValid(s, TimerFires(t));
    OffLists(s, t);
  }

  lemma OffLists(s: MQ, t: Tid)
    requires Sound(s) && Enabled(s, TimerFires(t))
    ensures t !in Step(s, TimerFires(t)).senders && t !in Step(s, TimerFires(t)).receivers
  {
    WithoutMembers(s.senders, t);
    WithoutMembers(s.receivers, t);
  }
}
