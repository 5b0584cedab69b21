/**
 What the mailbox calls mean for those who wait: who waits, at which place and with which
 timer, whom a call wakes, and how a wait ends.
 */
module MailboxWaiting {
  import opened WaitList
  import opened MailboxSpec

  // ----- each step -----

  /** The mails and the configuration are the same. */
  ghost predicate SameMails(s: MB, s': MB) {
    && s'.size == s.size && s'.pool == s.pool && s'.entry == s.entry
    && s'.inOffset == s.inOffset && s'.outOffset == s.outOffset && s'.cfg == s.cfg
  }

  /** The head of one list, if there is one, is made ready with its call to be tried again. */
  ghost predicate Wakes(pc: map<Tid, Pc>, list: seq<Tid>, pc': map<Tid, Pc>, list': seq<Tid>) {
    if list == [] then pc' == pc && list' == []
    else
      && list[0] in pc && !pc[list[0]].Idle?
      && pc' == pc[list[0] := Woken(pc[list[0]].op, pc[list[0]].timed, true)] && list' == list[1..]
  }

  ghost predicate WakesReceiver(s: MB, s': MB) {
    Wakes(s.pc, s.receivers, s'.pc, s'.receivers) && s'.senders == s.senders
  }

  ghost predicate WakesSender(s: MB, s': MB) {
    Wakes(s.pc, s.senders, s'.pc, s'.senders) && s'.receivers == s.receivers
  }

  /** The caller waits in the list of its kind, with its timer armed or not. */
  ghost predicate Waits(s: MB, s': MB, t: Tid, op: Op, timed: bool) {
    && SameMails(s, s') && s'.pc == s.pc[t := Waiting(op, timed)]
    && (if op.Recv? then Joins(s.receivers, s'.receivers, s.cfg, t) && s'.senders == s.senders
        else Joins(s.senders, s'.senders, s.cfg, t) && s'.receivers == s.receivers)
  }

  /** One pass of the wait loop of a call: it succeeds and wakes one of the other kind; or, with the mailbox
      full or empty, it waits if it may; or it fails. */
  ghost predicate Attempts(s: MB, s': MB, t: Tid, op: Op, timed: bool, mayWait: bool, r: Result)
    requires Ring(s) && Ring(s')
  {
    var done := s.(pc := s.pc[t := Idle]);
    match op
    case Send(value) =>
      if |Contents(s)| < s.size then r == Ok && Contents(s') == Contents(s) + [value] && WakesReceiver(done, s')
      else if mayWait then r == Suspended && Waits(s, s', t, op, timed)
      else r == Full && s' == done
    case Recv =>
      if Contents(s) != [] then r == Got(Contents(s)[0]) && Contents(s') == Contents(s)[1..] && WakesSender(done, s')
      else if mayWait then r == Suspended && Waits(s, s', t, op, timed)
      else r == Timeout && s' == done
  }

  ghost predicate Does(s: MB, a: Action, s': MB, r: Result)
    requires Ring(s) && Enabled(s, a) && Ring(s')
  {
    match a
    case Enter(t, op, timeout) => Attempts(s, s', t, op, timeout > 0, timeout != 0, r)
    case Urgent(value) =>
      if |Contents(s)| < s.size then r == Ok && Contents(s') == [value] + Contents(s) && WakesReceiver(s, s')
      else r == Full && s' == s
    case Retry(t, expired) =>
      if s.pc[t].ok then Attempts(s, s', t, s.pc[t].op, s.pc[t].timed, !s.pc[t].timed || !expired, r)
      else r == Failed && s' == s.(pc := s.pc[t := Idle])
    case TimerFires(t) =>
      && SameMails(s, s') && s'.pc == s.pc[t := Woken(s.pc[t].op, s.pc[t].timed, false)]
      && s'.senders == Without(s.senders, t) && s'.receivers == Without(s.receivers, t)
    case Reset =>
      && r == Ok && Contents(s') == [] && s'.senders == s'.receivers == [] && s'.pc.Keys == s.pc.Keys
      && forall t :: t in s.pc ==> s'.pc[t] == if s.pc[t].Waiting? then Woken(s.pc[t].op, s.pc[t].timed, false) else s.pc[t]
  }

  lemma StepMeans(s: MB, a: Action)
    requires Inv(s) && Enabled(s, a)
    ensures Ring(Step(s, a)) && Does(s, a, Step(s, a), StepResult(s, a).1)
  {
    StepRefinesDeque(s, a);
    match a
    case Enter(t, op, timeout) => AttemptMeans(s, t, op, timeout > 0, timeout != 0);
    case Urgent(value) => if s.entry < s.size { UrgentWakes(s, value); }
    case Retry(t, expired) =>
      if s.pc[t].ok { AttemptMeans(s, t, s.pc[t].op, s.pc[t].timed, !(s.pc[t].timed && expired)); }
    case TimerFires(t) =>
    case Reset =>
  }

  lemma UrgentWakes(s: MB, value: Mail)
    requires Inv(s) && s.entry < s.size
    ensures WakesReceiver(s, WakeReceiver(PutFirst(s, value)))
  {
    if s.receivers != [] { assert s.receivers[0] in s.receivers; }
  }

  lemma AttemptMeans(s: MB, t: Tid, op: Op, timed: bool, mayWait: bool)
    requires Inv(s) && t in s.pc && !s.pc[t].Waiting?
    ensures var (s', r) := Attempt(s, t, op, timed, mayWait); Ring(s') && Attempts(s, s', t, op, timed, mayWait, r)
  {
    AttemptRefines(s, t, op, timed, mayWait);
    if s.receivers != [] { assert s.receivers[0] in s.receivers; }
    if s.senders != [] { assert s.senders[0] in s.senders; }
    JoinedJoins(s.receivers, s.cfg, t);
    JoinedJoins(s.senders, s.cfg, t);
  }

  // ----- how a wait ends -----

  /** While a context waits, nothing touches its call or its timer; and its wait ends with the timer, with
      a reset, or at the head of its list, woken by a call of the other kind that succeeds. */
  lemma WaitEnds(s: MB, a: Action, t: Tid)
    requires Inv(s) && Enabled(s, a) && t in s.pc && s.pc[t].Waiting?
    ensures Ends(s, a, Step(s, a).pc, StepResult(s, a).1, t)
  {
    match a
    case Enter(u, op, timeout) => AttemptEnds(s, a, u, op, timeout > 0, timeout != 0, t);
    case Retry(u, expired) =>
      if s.pc[u].ok { AttemptEnds(s, a, u, s.pc[u].op, s.pc[u].timed, !(s.pc[u].timed && expired), t); }
    case _ => StepMeans(s, a);
  }

  ghost predicate Ends(s: MB, a: Action, pc': map<Tid, Pc>, r: Result, t: Tid)
    requires t in s.pc && s.pc[t].Waiting?
  {
    var op, timed := s.pc[t].op, s.pc[t].timed;
    && t in pc'
    && if pc'[t].Waiting? then pc'[t] == s.pc[t] && a != TimerFires(t) && a != Reset
       else if a == TimerFires(t) || a == Reset then pc'[t] == Woken(op, timed, false)
       else
         var list := if op.Recv? then s.receivers else s.senders;
         && pc'[t] == Woken(op, timed, true) && list != [] && t == list[0]
         && if op.Recv? then r.Ok? else r.Got?
  }

  lemma AttemptEnds(s: MB, a: Action, u: Tid, op: Op, timed: bool, mayWait: bool, t: Tid)
    requires Inv(s) && t in s.pc && s.pc[t].Waiting? && u in s.pc && !s.pc[u].Waiting? && a != TimerFires(t) && a != Reset
    ensures var (s', r) := Attempt(s, u, op, timed, mayWait); Ends(s, a, s'.pc, r, t)
  {
    AttemptMeans(s, u, op, timed, mayWait);
  }

  /** A run all of whose states have `t` waiting. */
  ghost predicate WaitingRun(s: MB, acts: seq<Action>, s': MB, t: Tid)
    decreases |acts|
  {
    && t in s.pc && s.pc[t].Waiting?
    && if acts == [] then s == s' else Ring(s) && Enabled(s, acts[0]) && WaitingRun(Step(s, acts[0]), acts[1..], s', t)
  }

  lemma {:induction false} LongWait(s: MB, acts: seq<Action>, s': MB, t: Tid)
    requires Inv(s) && WaitingRun(s, acts, s', t)
    ensures Inv(s') && t in s'.pc && s'.pc[t] == s.pc[t]
    decreases |acts|
  {
    if acts != [] {
      StepKeeps(s, acts[0]);
      WaitEnds(s, acts[0], t);
      LongWait(Step(s, acts[0]), acts[1..], s', t);
    }
  }

  /** A call waits exactly when it cannot succeed and its timeout is not 0. Then, whatever happens
      meanwhile, its timer can fire exactly when the timeout is positive; the call then fails, and the
      context is on no list. */
  lemma CallTimesOut(s: MB, t: Tid, op: Op, timeout: int, acts: seq<Action>, s2: MB)
    requires Inv(s) && Enabled(s, Enter(t, op, timeout)) && WaitingRun(Step(s, Enter(t, op, timeout)), acts, s2, t)
    ensures timeout != 0 && (if op.Recv? then Contents(s) == [] else |Contents(s)| == s.size)
    ensures Inv(s2) && (Enabled(s2, TimerFires(t)) <==> timeout > 0)
    ensures timeout > 0 ==>
              var s3 := Step(s2, TimerFires(t));
              && Inv(s3) && t !in s3.senders && t !in s3.receivers && Contents(s3) == Contents(s2)
              && forall expired :: Enabled(s3, Retry(t, expired)) && StepResult(s3, Retry(t, expired)) == (s3.(pc := s3.pc[t := Idle]), Failed)
  {
    StepMeans(s, Enter(t, op, timeout));
    StepKeeps(s, Enter(t, op, timeout));
    LongWait(Step(s, Enter(t, op, timeout)), acts, s2, t);
    if timeout > 0 { TimeoutFails(s2, t); }
  }

  lemma TimeoutFails(s: MB, t: Tid)
    requires Inv(s) && Enabled(s, TimerFires(t))
    ensures var s3 := Step(s, TimerFires(t));
            && Inv(s3) && t !in s3.senders && t !in s3.receivers && Contents(s3) == Contents(s)
            && forall expired :: Enabled(s3, Retry(t, expired)) && StepResult(s3, Retry(t, expired)) == (s3.(pc := s3.pc[t := Idle]), Failed)
  {
    StepKeeps(s, TimerFires(t));
    StepRefinesDeque(s, TimerFires(t));
  }
}
