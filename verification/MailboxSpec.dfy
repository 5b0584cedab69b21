/**
 RT-Thread mailboxes as a state machine over the critical sections of
 rt_mb_send_wait, rt_mb_urgent, rt_mb_recv and rt_mb_control. Blocking is Mesa
 style: a woken context runs its wait loop again and may find that another one was
 faster. The mails live in a ring of `size` cells.
 */
module MailboxSpec {
  import LwrbIndex
  import opened WaitList

  type Mail = nat
  const ENTRY_MAX: nat := 65535  // RT_MB_ENTRY_MAX, the range of the 16-bit fields

  datatype Op = Send(value: Mail) | Recv
  datatype Pc = Idle | Waiting(op: Op, timed: bool) | Woken(op: Op, timed: bool, ok: bool)

  datatype MB = MB(size: nat, pool: seq<Mail>, inOffset: nat, outOffset: nat, entry: nat,
                   senders: seq<Tid>, receivers: seq<Tid>, pc: map<Tid, Pc>,
                   cfg: ListConfig)

  datatype Result = Ok | Got(value: Mail) | Full | Timeout | Failed | Suspended

  datatype Action =
    | Enter(t: Tid, op: Op, timeout: int)
    | Urgent(value: Mail)
    | Retry(t: Tid, expired: bool)
    | TimerFires(t: Tid)
    | Reset

  // ----- the ring -----

  function Cell(size: nat, from: nat, i: nat): (c: nat)
    requires from < size && i <= size
    ensures c < size
  {
    if from + i >= size then from + i - size else from + i
  }

  predicate Ring(s: MB) {
    && |s.pool| == s.size <= ENTRY_MAX && s.entry <= s.size
    && (s.size == 0 ==> s.inOffset == s.outOffset == 0)
    && (s.size > 0 ==> s.outOffset < s.size && s.inOffset == Cell(s.size, s.outOffset, s.entry))
  }

  /** The mails held, the one to be received next first. */
  function Contents(s: MB): (q: seq<Mail>)
    requires Ring(s)
    ensures |q| == s.entry
    ensures forall i :: 0 <= i < s.entry ==> q[i] == s.pool[Cell(s.size, s.outOffset, i)]
  {
    seq(s.entry, i requires 0 <= i < s.entry => s.pool[Cell(s.size, s.outOffset, i)])
  }

  function Put(s: MB, value: Mail): (s': MB)
    requires Ring(s) && s.entry < s.size
  {
    s.(pool := s.pool[s.inOffset := value],
       inOffset := if s.inOffset + 1 >= s.size then 0 else s.inOffset + 1,
       entry := if s.entry < ENTRY_MAX then s.entry + 1 else s.entry)
  }

  function PutFirst(s: MB, value: Mail): (s': MB)
    requires Ring(s) && s.entry < s.size
  {
    var out := if s.outOffset > 0 then s.outOffset - 1 else s.size - 1;
    s.(pool := s.pool[out := value], outOffset := out, entry := s.entry + 1)
  }

  function Take(s: MB): (s': MB)
    requires Ring(s) && s.entry > 0
  {
    s.(outOffset := if s.outOffset + 1 >= s.size then 0 else s.outOffset + 1, entry := s.entry - 1)
  }

  lemma PutAppends(s: MB, value: Mail)
    requires Ring(s) && s.entry < s.size
    ensures Ring(Put(s, value)) && Contents(Put(s, value)) == Contents(s) + [value]
  {
    var s' := Put(s, value);
    forall i | 0 <= i < s'.entry ensures Contents(s')[i] == (Contents(s) + [value])[i] {
      assert i < s.entry ==> Cell(s.size, s.outOffset, i) != s.inOffset;
    }
  }

  lemma PutFirstPrepends(s: MB, value: Mail)
    requires Ring(s) && s.entry < s.size
    ensures Ring(PutFirst(s, value)) && Contents(PutFirst(s, value)) == [value] + Contents(s)
  {
    var s' := PutFirst(s, value);
    forall i | 0 <= i < s'.entry ensures Contents(s')[i] == ([value] + Contents(s))[i] {
      if i > 0 {
        assert Cell(s.size, s'.outOffset, i) == Cell(s.size, s.outOffset, i - 1) != s'.outOffset;
      }
    }
  }

  lemma TakeDropsFirst(s: MB)
    requires Ring(s) && s.entry > 0
    ensures Ring(Take(s)) && Contents(Take(s)) == Contents(s)[1..] && s.pool[s.outOffset] == Contents(s)[0]
  {
    var s' := Take(s);
    forall i | 0 <= i < s'.entry ensures Contents(s')[i] == Contents(s)[1..][i] {
      assert Cell(s.size, s'.outOffset, i) == Cell(s.size, s.outOffset, i + 1);
    }
  }

  // ----- steps -----

  function WakeReceiver(s: MB): (s': MB) {
    if s.receivers != [] && s.receivers[0] in s.pc && s.pc[s.receivers[0]].Waiting? then
      var t := s.receivers[0];
      s.(receivers := s.receivers[1..], pc := s.pc[t := Woken(s.pc[t].op, s.pc[t].timed, true)])
    else s
  }

  function WakeSender(s: MB): (s': MB) {
    if s.senders != [] && s.senders[0] in s.pc && s.pc[s.senders[0]].Waiting? then
      var t := s.senders[0];
      s.(senders := s.senders[1..], pc := s.pc[t := Woken(s.pc[t].op, s.pc[t].timed, true)])
    else s
  }

  function Block(s: MB, t: Tid, op: Op, timed: bool): (s': MB) {
    var s1 := s.(pc := s.pc[t := Waiting(op, timed)]);
    if op.Recv? then s1.(receivers := Joined(s.receivers, s.cfg, t))
    else s1.(senders := Joined(s.senders, s.cfg, t))
  }

  /** The wait loop of a call, entered (again) with `mayWait` telling whether time is left. */
  function Attempt(s: MB, t: Tid, op: Op, timed: bool, mayWait: bool): (r: (MB, Result))
    requires Ring(s)
  {
    var done := s.(pc := s.pc[t := Idle]);
    match op
    case Send(value) =>
      if s.entry < s.size then (WakeReceiver(Put(done, value)), Ok)
      else if mayWait then (Block(s, t, op, timed), Suspended)
      else (done, Full)
    case Recv =>
      if s.entry > 0 then (WakeSender(Take(done)), Got(s.pool[s.outOffset]))
      else if mayWait then (Block(s, t, op, timed), Suspended)
      else (done, Timeout)
  }

  function AllWoken(pc: map<Tid, Pc>): (pc': map<Tid, Pc>) {
    map t | t in pc :: if pc[t].Waiting? then Woken(pc[t].op, pc[t].timed, false) else pc[t]
  }

  predicate Enabled(s: MB, a: Action) {
    match a
    case Enter(t, _, _) => t in s.pc && s.pc[t].Idle?
    case Urgent(_) => true
    case Retry(t, _) => t in s.pc && s.pc[t].Woken?
    case TimerFires(t) => t in s.pc && s.pc[t].Waiting? && s.pc[t].timed
    case Reset => true
  }

  function StepResult(s: MB, a: Action): (r: (MB, Result))
    requires Ring(s) && Enabled(s, a)
  {
    match a
    case Enter(t, op, timeout) => Attempt(s, t, op, timeout > 0, timeout != 0)
    case Urgent(value) => if s.entry < s.size then (WakeReceiver(PutFirst(s, value)), Ok) else (s, Full)
    case Retry(t, expired) =>
      if s.pc[t].ok then Attempt(s, t, s.pc[t].op, s.pc[t].timed, !(s.pc[t].timed && expired))
      else (s.(pc := s.pc[t := Idle]), Failed)
    case TimerFires(t) =>
      (s.(senders := Without(s.senders, t), receivers := Without(s.receivers, t),
          pc := s.pc[t := Woken(s.pc[t].op, s.pc[t].timed, false)]), Suspended)
    case Reset =>
      (s.(entry := 0, inOffset := 0, outOffset := 0, senders := [], receivers := [], pc := AllWoken(s.pc)), Ok)
  }

  function Step(s: MB, a: Action): (s': MB)
    requires Ring(s) && Enabled(s, a)
  {
    StepResult(s, a).0
  }

  // ----- refinement of a bounded deque -----

  /** The operation a step performs on the mails, if it is a send or a receive. */
  function Operation(s: MB, a: Action): (op: Op)
    requires Enabled(s, a)
  {
    match a
    case Enter(_, op, _) => op
    case Urgent(value) => Send(value)
    case Retry(t, _) => s.pc[t].op
    case _ => Recv
  }

  /** Every step is a step of a deque bounded by `size`: a send that succeeds appends, an urgent
      one prepends, a receive that succeeds returns and removes the front, a reset empties it, and
      every other step leaves it alone. A call succeeds exactly when the deque has room, or a mail. */
  lemma StepRefinesDeque(s: MB, a: Action)
    requires Ring(s) && Enabled(s, a)
    ensures Ring(Step(s, a)) && |Contents(Step(s, a))| <= s.size == Step(s, a).size
    ensures var q, q', r := Contents(s), Contents(Step(s, a)), StepResult(s, a).1;
            match r
            case Ok => if a == Reset then q' == [] else |q| < s.size && q' == if a.Urgent? then [a.value] + q else q + [Operation(s, a).value]
            case Got(value) => q != [] && value == q[0] && q' == q[1..]
            case _ => q' == q
    ensures var r := StepResult(s, a).1;
            a.Enter? || a.Urgent? || (a.Retry? && s.pc[a.t].ok) ==>
              if Operation(s, a).Recv? then r.Got? <==> Contents(s) != []
              else r.Ok? <==> |Contents(s)| < s.size
  {
    match a {
      case Enter(t, op, timeout) => AttemptRefines(s, t, op, timeout > 0, timeout != 0);
      case Retry(t, expired) =>
        if s.pc[t].ok { AttemptRefines(s, t, s.pc[t].op, s.pc[t].timed, !(s.pc[t].timed && expired)); }
      case Urgent(value) =>
        if s.entry < s.size {
          PutFirstPrepends(s, value);
          SameContents(PutFirst(s, value), WakeReceiver(PutFirst(s, value)));
        }
      case TimerFires(t) => SameContents(s, Step(s, a));
      case Reset =>
    }
  }

  lemma SameContents(s: MB, s': MB)
    requires Ring(s) && s' == s.(pc := s'.pc, senders := s'.senders, receivers := s'.receivers)
    ensures Ring(s') && Contents(s') == Contents(s)
  {
  }

  lemma AttemptRefines(s: MB, t: Tid, op: Op, timed: bool, mayWait: bool)
    requires Ring(s)
    ensures var (s', r) := Attempt(s, t, op, timed, mayWait);
            && Ring(s') && s'.size == s.size
            && match op
               case Send(value) =>
                 if |Contents(s)| < s.size then r == Ok && Contents(s') == Contents(s) + [value]
                 else !r.Ok? && !r.Got? && Contents(s') == Contents(s)
               case Recv =>
                 if Contents(s) != [] then r == Got(Contents(s)[0]) && Contents(s') == Contents(s)[1..]
                 else !r.Ok? && !r.Got? && Contents(s') == Contents(s)
  {
    var done := s.(pc := s.pc[t := Idle]);
    var s' := Attempt(s, t, op, timed, mayWait).0;
    SameContents(s, done);
    if op.Send? && s.entry < s.size {
      PutAppends(done, op.value);
      SameContents(Put(done, op.value), s');
    } else if op.Recv? && s.entry > 0 {
      TakeDropsFirst(done);
      SameContents(Take(done), s');
    } else {
      SameContents(s, s');
    }
  }

  // ----- no lost wake-up -----

  /** Contexts that were woken for `recv` (or to send) and have not run yet. */
  function WokenFor(pc: map<Tid, Pc>, recv: bool): (w: set<Tid>) {
    set t | t in pc && pc[t].Woken? && pc[t].ok && pc[t].op.Recv? == recv
  }

  ghost predicate Queued(s: MB) {
    && s.pc.Keys <= s.cfg.prio.Keys && Distinct(s.receivers) && Distinct(s.senders)
    && (forall t :: t in s.receivers <==> t in s.pc && s.pc[t].Waiting? && s.pc[t].op.Recv?)
    && (forall t :: t in s.senders <==> t in s.pc && s.pc[t].Waiting? && s.pc[t].op.Send?)
  }

  /** While someone waits to receive, every mail is matched by a receiver already woken; while
      someone waits to send, every free cell is matched by a sender already woken. */
  ghost predicate NoneLost(s: MB) {
    && (s.receivers != [] ==> s.entry <= |WokenFor(s.pc, true)|)
    && (s.senders != [] ==> s.size - s.entry <= |WokenFor(s.pc, false)|)
  }

  ghost predicate Inv(s: MB) {
    Ring(s) && Queued(s) && NoneLost(s)
  }

  /** How the count of woken contexts changes when one context moves. */
  lemma WokenChanges(pc: map<Tid, Pc>, t: Tid, p: Pc, recv: bool)
    requires t in pc
    ensures var before, after := WokenFor(pc, recv), WokenFor(pc[t := p], recv);
            |after| == |before| - (if t in before then 1 else 0)
                       + (if p.Woken? && p.ok && p.op.Recv? == recv then 1 else 0)
  {
    var before, after := WokenFor(pc, recv), WokenFor(pc[t := p], recv);
    if p.Woken? && p.ok && p.op.Recv? == recv {
      assert after == before - {t} + {t};
    } else {
      assert after == before - {t};
    }
  }

  lemma WakeReceiverEffect(s: MB)
    requires Queued(s)
    ensures Queued(WakeReceiver(s))
    ensures var s' := WakeReceiver(s);
            && |WokenFor(s'.pc, true)| == |WokenFor(s.pc, true)| + (if s.receivers != [] then 1 else 0)
            && |WokenFor(s'.pc, false)| == |WokenFor(s.pc, false)|
            && s'.senders == s.senders && s'.entry == s.entry && s'.size == s.size
            && (s.receivers == [] ==> s'.receivers == [])
  {
    if s.receivers != [] {
      var t := s.receivers[0];
      assert t in s.receivers && s.receivers == [t] + s.receivers[1..];
      WokenChanges(s.pc, t, Woken(s.pc[t].op, s.pc[t].timed, true), true);
      WokenChanges(s.pc, t, Woken(s.pc[t].op, s.pc[t].timed, true), false);
    }
  }

  lemma WakeSenderEffect(s: MB)
    requires Queued(s)
    ensures Queued(WakeSender(s))
    ensures var s' := WakeSender(s);
            && |WokenFor(s'.pc, false)| == |WokenFor(s.pc, false)| + (if s.senders != [] then 1 else 0)
            && |WokenFor(s'.pc, true)| == |WokenFor(s.pc, true)|
            && s'.receivers == s.receivers && s'.entry == s.entry && s'.size == s.size
            && (s.senders == [] ==> s'.senders == [])
  {
    if s.senders != [] {
      var t := s.senders[0];
      assert t in s.senders && s.senders == [t] + s.senders[1..];
      WokenChanges(s.pc, t, Woken(s.pc[t].op, s.pc[t].timed, true), true);
      WokenChanges(s.pc, t, Woken(s.pc[t].op, s.pc[t].timed, true), false);
    }
  }

  /** A context stops running its call: at most it uses up the wake-up it was given. */
  lemma Leaves(s: MB, t: Tid)
    requires Queued(s) && t in s.pc && !s.pc[t].Waiting?
    ensures var done := s.(pc := s.pc[t := Idle]);
            && Queued(done)
            && |WokenFor(done.pc, true)| == |WokenFor(s.pc, true)| - (if t in WokenFor(s.pc, true) then 1 else 0)
            && |WokenFor(done.pc, false)| == |WokenFor(s.pc, false)| - (if t in WokenFor(s.pc, false) then 1 else 0)
  {
    WokenChanges(s.pc, t, Idle, true);
    WokenChanges(s.pc, t, Idle, false);
  }

  lemma AttemptKeeps(s: MB, t: Tid, op: Op, timed: bool, mayWait: bool)
    requires Inv(s) && t in s.pc && (s.pc[t].Idle? || (s.pc[t].Woken? && s.pc[t].op == op))
    ensures Inv(Attempt(s, t, op, timed, mayWait).0)
  {
    AttemptRefines(s, t, op, timed, mayWait);
    var done := s.(pc := s.pc[t := Idle]);
    Leaves(s, t);
    if op.Send? && s.entry < s.size {
      WakeReceiverEffect(Put(done, op.value));
    } else if op.Recv? && s.entry > 0 {
      WakeSenderEffect(Take(done));
    } else if mayWait {
      BlockKeeps(s, t, op, timed);
    }
  }

  lemma BlockKeeps(s: MB, t: Tid, op: Op, timed: bool)
    requires Inv(s) && t in s.pc && (s.pc[t].Idle? || (s.pc[t].Woken? && s.pc[t].op == op))
    requires if op.Recv? then s.entry == 0 else s.entry == s.size
    ensures Queued(Block(s, t, op, timed)) && NoneLost(Block(s, t, op, timed))
  {
    JoinedMembers(if op.Recv? then s.receivers else s.senders, s.cfg, t);
    WokenChanges(s.pc, t, Waiting(op, timed), true);
    WokenChanges(s.pc, t, Waiting(op, timed), false);
  }

  lemma StepKeeps(s: MB, a: Action)
    requires Inv(s) && Enabled(s, a)
    ensures Inv(Step(s, a))
  {
    match a {
      case Enter(t, op, timeout) => AttemptKeeps(s, t, op, timeout > 0, timeout != 0);
      case Retry(t, expired) =>
        if s.pc[t].ok {
          AttemptKeeps(s, t, s.pc[t].op, s.pc[t].timed, !(s.pc[t].timed && expired));
        } else {
          Leaves(s, t);
        }
      case Urgent(value) =>
        if s.entry < s.size {
          PutFirstPrepends(s, value);
          WakeReceiverEffect(PutFirst(s, value));
        }
      case TimerFires(t) =>
        WithoutMembers(s.senders, t);
        WithoutMembers(s.receivers, t);
        WokenChanges(s.pc, t, Woken(s.pc[t].op, s.pc[t].timed, false), true);
        WokenChanges(s.pc, t, Woken(s.pc[t].op, s.pc[t].timed, false), false);
      case Reset =>
    }
  }

  // ----- who is woken -----

  ghost predicate UrgentLists(s: MB) {
    UrgentFirst(s.receivers, s.cfg.prio) && UrgentFirst(s.senders, s.cfg.prio)
  }

  lemma StepUrgent(s: MB, a: Action)
    requires Inv(s) && Enabled(s, a) && s.cfg.flag == ByPriority && UrgentLists(s)
    ensures UrgentLists(Step(s, a)) && Step(s, a).cfg == s.cfg
  {
    match a {
      case Enter(t, op, timeout) => AttemptUrgent(s, t, op, timeout > 0, timeout != 0);
      case Retry(t, expired) =>
        if s.pc[t].ok { AttemptUrgent(s, t, s.pc[t].op, s.pc[t].timed, !(s.pc[t].timed && expired)); }
      case Urgent(value) => if s.entry < s.size { WakeUrgent(PutFirst(s, value)); }
      case TimerFires(t) =>
        WithoutUrgentFirst(s.senders, s.cfg.prio, t);
        WithoutUrgentFirst(s.receivers, s.cfg.prio, t);
      case Reset =>
    }
  }

  lemma AttemptUrgent(s: MB, t: Tid, op: Op, timed: bool, mayWait: bool)
    requires Ring(s) && t in s.cfg.prio && s.cfg.flag == ByPriority && UrgentLists(s)
    ensures var s' := Attempt(s, t, op, timed, mayWait).0;
            UrgentLists(s') && s'.cfg == s.cfg
  {
    var done := s.(pc := s.pc[t := Idle]);
    if op.Send? && s.entry < s.size {
      WakeUrgent(Put(done, op.value));
    } else if op.Recv? && s.entry > 0 {
      WakeUrgent(Take(done));
    } else if mayWait {
      BlockUrgent(s, t, op, timed);
    }
  }

  lemma WakeUrgent(s: MB)
    requires UrgentLists(s)
    ensures UrgentLists(WakeReceiver(s)) && UrgentLists(WakeSender(s))
  {
    if s.receivers != [] { RestUrgentFirst(s.receivers, s.cfg.prio); }
    if s.senders != [] { RestUrgentFirst(s.senders, s.cfg.prio); }
  }

  lemma BlockUrgent(s: MB, t: Tid, op: Op, timed: bool)
    requires t in s.cfg.prio && s.cfg.flag == ByPriority && UrgentLists(s)
    ensures UrgentLists(Block(s, t, op, timed))
  {
    if op.Recv? { JoinedUrgentFirst(s.receivers, s.cfg, t); } else { JoinedUrgentFirst(s.senders, s.cfg, t); }
  }

  // ----- runs -----

  ghost predicate Start(s: MB) {
    && |s.pool| == s.size <= ENTRY_MAX && s.entry == s.inOffset == s.outOffset == 0
    && s.senders == [] && s.receivers == [] && s.pc.Keys <= s.cfg.prio.Keys && forall t :: t in s.pc ==> s.pc[t].Idle?
  }

  ghost predicate Run(s: MB, acts: seq<Action>, s': MB)
    decreases |acts|
  {
    if acts == [] then s == s'
    else Ring(s) && Enabled(s, acts[0]) && Run(Step(s, acts[0]), acts[1..], s')
  }

  lemma {:induction false} RunKeeps(s: MB, acts: seq<Action>, s': MB)
    requires Inv(s) && Run(s, acts, s')
    ensures Inv(s')
    decreases |acts|
  {
    if acts != [] {
      StepKeeps(s, acts[0]);
      RunKeeps(Step(s, acts[0]), acts[1..], s');
    }
  }

  lemma {:induction false} RunUrgent(s: MB, acts: seq<Action>, s': MB)
    requires Inv(s) && s.cfg.flag == ByPriority && UrgentLists(s) && Run(s, acts, s')
    ensures UrgentLists(s')
    decreases |acts|
  {
    if acts != [] {
      StepKeeps(s, acts[0]);
      StepUrgent(s, acts[0]);
      RunUrgent(Step(s, acts[0]), acts[1..], s');
    }
  }

  /** Over every run of a mailbox that queues by priority: whoever is woken next is as urgent as
      everyone else who waits for the same thing. */
  lemma WakesMostUrgent(s: MB, acts: seq<Action>, s': MB, u: Tid)
    requires Start(s) && s.cfg.flag == ByPriority && Run(s, acts, s') && u in s'.cfg.prio
    ensures u in s'.receivers ==> s'.receivers[0] in s'.cfg.prio && s'.cfg.prio[s'.receivers[0]] <= s'.cfg.prio[u]
    ensures u in s'.senders ==> s'.senders[0] in s'.cfg.prio && s'.cfg.prio[s'.senders[0]] <= s'.cfg.prio[u]
  {
    RunUrgent(s, acts, s');
  }

  /** Over every run: the offsets and the count agree; and no wake-up is lost. In particular, when
      all woken receivers have run, nobody waits for a mail that is there, and likewise for room. */
  lemma NoLostWakeup(s: MB, acts: seq<Action>, s': MB)
    requires Start(s) && Run(s, acts, s')
    ensures s'.size > 0 ==> s'.outOffset < s'.size && (s'.outOffset + s'.entry) % s'.size == s'.inOffset
    ensures s'.receivers != [] ==> s'.entry <= |WokenFor(s'.pc, true)|
    ensures s'.senders != [] ==> s'.size - s'.entry <= |WokenFor(s'.pc, false)|
    ensures WokenFor(s'.pc, true) == {} && s'.receivers != [] ==> s'.entry == 0
    ensures WokenFor(s'.pc, false) == {} && s'.senders != [] ==> s'.entry == s'.size
  {
    RunKeeps(s, acts, s');
    if s'.size > 0 { CellIsMod(s'.size, s'.outOffset, s'.entry); }
  }

  lemma CellIsMod(size: nat, from: nat, i: nat)
    requires from < size && i <= size
    ensures (from + i) % size == Cell(size, from, i)
  {
    if from + i >= size {
      LwrbIndex.ModOf(1, size, from + i - size);
    } else {
      LwrbIndex.ModOf(0, size, from + i);
    }
  }
}
