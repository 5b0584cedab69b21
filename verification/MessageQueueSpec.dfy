/**
 RT-Thread message queues as a state machine over the critical sections of
 rt_mq_send_wait, rt_mq_urgent, rt_mq_recv and rt_mq_control. A message is copied
 outside the critical sections, so a slot can be in flight: off the free list and
 not yet, or no longer, on the queue. A run is any interleaving of the sections of
 any number of contexts, of timer expiries and of resets.
 Slots are numbered; -1 stands for RT_NULL.
 */
module MessageQueueSpec {
  import opened WaitList

  type Byte = bv8
  const NULL: int := -1
  const ENTRY_MAX: nat := 65535  // RT_MQ_ENTRY_MAX

  datatype Op = SendOp(buf: seq<Byte>) | UrgentOp(buf: seq<Byte>) | RecvOp(size: nat)

  /** Where a context is. `msg` is history: the message that left the queue with the slot. */
  datatype Pc =
    | Idle
    | Waiting(op: Op, timed: bool)
    | Woken(op: Op, timed: bool, ok: bool)
    | Filling(op: Op, slot: nat)
    | Linking(op: Op, slot: nat)
    | Draining(slot: nat, size: nat, msg: seq<Byte>)
    | Returning(slot: nat, out: seq<Byte>, size: nat, msg: seq<Byte>)

  /** The fields of struct rt_messagequeue and its pool. History: `frees` and `queue` list the
      slots that the link fields spell out, `messages` is the deque the queue stands for. */
  datatype MQ = MQ(msgSize: nat, next: seq<int>, body: seq<seq<Byte>>,
                   free: int, head: int, tail: int, entry: nat,
                   senders: seq<Tid>, receivers: seq<Tid>, pc: map<Tid, Pc>, cfg: ListConfig,
                   frees: seq<nat>, queue: seq<nat>, messages: seq<seq<Byte>>)

  datatype Action =
    | Enter(t: Tid, op: Op, timeout: int)
    | Retry(t: Tid, expired: bool)
    | Copy(t: Tid)
    | Finish(t: Tid)
    | TimerFires(t: Tid)
    | Reset

  function Slot(pc: Pc): int {
    if pc.Filling? || pc.Linking? || pc.Draining? || pc.Returning? then pc.slot else NULL
  }

  function Min(x: nat, y: nat): nat { if x < y then x else y }
  function Rest<T>(q: seq<T>): seq<T> { if q == [] then [] else q[1..] }
  function First(q: seq<seq<Byte>>): seq<Byte> { if q == [] then [] else q[0] }

  // ----- steps -----

  function Suspended(s: MQ, t: Tid, op: Op, timed: bool): (s': MQ) {
    var s1 := s.(pc := s.pc[t := Waiting(op, timed)]);
    if op.RecvOp? then s1.(receivers := Joined(s.receivers, s.cfg, t))
    else s1.(senders := Joined(s.senders, s.cfg, t))
  }

  /** The head of the list is made ready with error EOK. */
  function WakeReceiver(s: MQ): (s': MQ) {
    if s.receivers != [] && s.receivers[0] in s.pc && s.pc[s.receivers[0]].Waiting? then
      var t := s.receivers[0];
      s.(receivers := s.receivers[1..], pc := s.pc[t := Woken(s.pc[t].op, s.pc[t].timed, true)])
    else s
  }

  function WakeSender(s: MQ): (s': MQ) {
    if s.senders != [] && s.senders[0] in s.pc && s.pc[s.senders[0]].Waiting? then
      var t := s.senders[0];
      s.(senders := s.senders[1..], pc := s.pc[t := Woken(s.pc[t].op, s.pc[t].timed, true)])
    else s
  }

  /** A pending send is within the message size, and only sends own a slot to fill. */
  predicate Fits(pc: Pc, msgSize: nat) {
    match pc
    case Waiting(op, _) => op.RecvOp? || |op.buf| <= msgSize
    case Woken(op, _, _) => op.RecvOp? || |op.buf| <= msgSize
    case Filling(op, _) => !op.RecvOp? && |op.buf| <= msgSize
    case Linking(op, _) => !op.RecvOp? && |op.buf| <= msgSize
    case _ => true
  }

  predicate Sound(s: MQ) {
    && |s.body| == |s.next| && NULL <= s.free < |s.next| && NULL <= s.head < |s.next| && NULL <= s.tail < |s.next|
    && (s.entry > 0 ==> s.head != NULL)
    && (forall i :: 0 <= i < |s.next| ==> NULL <= s.next[i] < |s.next|)
    && (forall i :: 0 <= i < |s.body| ==> |s.body[i]| == s.msgSize)
    && (forall t :: t in s.pc ==> Slot(s.pc[t]) < |s.next|)
    && (forall t :: t in s.pc ==> Fits(s.pc[t], s.msgSize))
  }

  /** A slot is taken off the free list. */
  function TakeSlot(s: MQ, t: Tid, op: Op): (s': MQ)
    requires Sound(s) && s.free != NULL
  {
    s.(free := s.next[s.free], frees := Rest(s.frees), pc := s.pc[t := Filling(op, s.free)])
  }

  /** The first message is taken off the queue. */
  function TakeMessage(s: MQ, t: Tid, size: nat): (s': MQ)
    requires Sound(s) && s.entry > 0
  {
    s.(head := s.next[s.head], tail := if s.tail == s.head then NULL else s.tail, entry := s.entry - 1,
       queue := Rest(s.queue), messages := Rest(s.messages),
       pc := s.pc[t := Draining(s.head, size, First(s.messages))])
  }

  /** The wait loop of a call, entered (again) with `mayWait` telling whether time is left. */
  function Attempt(s: MQ, t: Tid, op: Op, timed: bool, mayWait: bool): (s': MQ)
    requires Sound(s)
  {
    if op.RecvOp? then
      if s.entry > 0 then TakeMessage(s, t, op.size)
      else if mayWait then Suspended(s, t, op, timed)
      else s.(pc := s.pc[t := Idle])
    else
      if s.free != NULL then TakeSlot(s, t, op)
      else if mayWait && op.SendOp? then Suspended(s, t, op, timed)
      else s.(pc := s.pc[t := Idle])
  }

  function Overwritten(cell: seq<Byte>, buf: seq<Byte>): (b: seq<Byte>)
    requires |buf| <= |cell|
    ensures |b| == |cell|
  {
    buf + cell[|buf|..]
  }

  /** The copy outside the critical sections, on a slot only this context can reach. */
  function Copied(s: MQ, t: Tid): (s': MQ)
    requires Sound(s) && t in s.pc && (s.pc[t].Filling? || s.pc[t].Draining?)
  {
    match s.pc[t]
    case Filling(op, slot) =>
      s.(next := if op.SendOp? then s.next[slot := NULL] else s.next,
         body := s.body[slot := Overwritten(s.body[slot], op.buf)],
         pc := s.pc[t := Linking(op, slot)])
    case Draining(slot, size, msg) =>
      s.(pc := s.pc[t := Returning(slot, s.body[slot][..Min(size, s.msgSize)], size, msg)])
  }

  function LinkLast(s: MQ, t: Tid, slot: nat, buf: seq<Byte>): (s': MQ)
    requires Sound(s) && slot < |s.next|
  {
    s.(next := if s.tail != NULL then s.next[s.tail := slot] else s.next,
       tail := slot, head := if s.head == NULL then slot else s.head,
       queue := s.queue + [slot], messages := s.messages + [buf])
  }

  function LinkFirst(s: MQ, t: Tid, slot: nat, buf: seq<Byte>): (s': MQ)
    requires Sound(s) && slot < |s.next|
  {
    s.(next := s.next[slot := s.head], head := slot, tail := if s.tail == NULL then slot else s.tail,
       queue := [slot] + s.queue, messages := [buf] + s.messages)
  }

  /** A filled slot is linked, at the tail or as an urgent message at the head, and counted. */
  function Linked(s: MQ, t: Tid): (s': MQ)
    requires Sound(s) && t in s.pc && s.pc[t].Linking?
  {
    var Linking(op, slot) := s.pc[t];
    var s1 := if op.SendOp? then LinkLast(s, t, slot, op.buf) else LinkFirst(s, t, slot, op.buf);
    s1.(pc := s.pc[t := Idle], entry := if s.entry < ENTRY_MAX then s.entry + 1 else s.entry)
  }

  function GaveBack(s: MQ, t: Tid): (s': MQ)
    requires Sound(s) && t in s.pc && s.pc[t].Returning?
  {
    var slot := s.pc[t].slot;
    s.(next := s.next[slot := s.free], free := slot, frees := [slot] + s.frees, pc := s.pc[t := Idle])
  }

  /** The second critical section of each call; a full entry count returns without waking anyone. */
  function Finished(s: MQ, t: Tid): (s': MQ)
    requires Sound(s) && t in s.pc && (s.pc[t].Linking? || s.pc[t].Returning?)
  {
    if s.pc[t].Returning? then WakeSender(GaveBack(s, t))
    else if s.entry < ENTRY_MAX then WakeReceiver(Linked(s, t))
    else Linked(s, t)
  }

  /** Every waiter is made ready with an error. */
  function AllWoken(pc: map<Tid, Pc>): (pc': map<Tid, Pc>) {
    map t | t in pc :: if pc[t].Waiting? then Woken(pc[t].op, pc[t].timed, false) else pc[t]
  }

  /** One round of the release loop of rt_mq_control: the head slot goes to the front of the free list. */
  function Discard(s: MQ): (s': MQ)
    requires Sound(s) && s.head != NULL
    ensures s.entry == 0 ==> Sound(s')
  {
    s.(head := s.next[s.head], tail := if s.tail == s.head then NULL else s.tail,
       next := s.next[s.head := s.free], free := s.head,
       frees := [s.head] + s.frees, queue := Rest(s.queue), messages := Rest(s.messages))
  }

  /** The loop; a queue cannot be longer than the pool. */
  function DiscardAll(s: MQ, rounds: nat): (s': MQ)
    requires Sound(s) && s.entry == 0
    ensures Sound(s') && s'.entry == 0
    decreases rounds
  {
    if rounds == 0 || s.head == NULL then s else DiscardAll(Discard(s), rounds - 1)
  }

  function ResetAll(s: MQ): (s': MQ)
    requires Sound(s)
  {
    DiscardAll(s.(entry := 0, senders := [], receivers := [], pc := AllWoken(s.pc)), |s.next|)
  }

  predicate Enabled(s: MQ, a: Action) {
    match a
    case Enter(t, op, _) =>
      t in s.pc && s.pc[t].Idle? && (op.RecvOp? || (op.buf != [] && |op.buf| <= s.msgSize)) && (op.RecvOp? ==> op.size > 0)
    case Retry(t, _) => t in s.pc && s.pc[t].Woken?
    case Copy(t) => t in s.pc && (s.pc[t].Filling? || s.pc[t].Draining?)
    case Finish(t) => t in s.pc && (s.pc[t].Linking? || s.pc[t].Returning?)
    case TimerFires(t) => t in s.pc && s.pc[t].Waiting? && s.pc[t].timed
    case Reset => true
  }

  function Step(s: MQ, a: Action): (s': MQ)
    requires Sound(s) && Enabled(s, a)
  {
    match a
    case Enter(t, op, timeout) => Attempt(s, t, op, timeout > 0, timeout != 0)
    case Retry(t, expired) =>
      if s.pc[t].ok then Attempt(s, t, s.pc[t].op, s.pc[t].timed, !(s.pc[t].timed && expired))
      else s.(pc := s.pc[t := Idle])
    case Copy(t) => Copied(s, t)
    case Finish(t) => Finished(s, t)
    case TimerFires(t) =>
      s.(senders := Without(s.senders, t), receivers := Without(s.receivers, t),
         pc := s.pc[t := Woken(s.pc[t].op, s.pc[t].timed, false)])
    case Reset => ResetAll(s)
  }

  // ----- invariant -----

  function Successor(list: seq<nat>, i: nat): int
    requires i < |list|
  {
    if i + 1 < |list| then list[i + 1] else NULL
  }

  ghost predicate Links(next: seq<int>, from: int, list: seq<nat>) {
    && (forall i :: 0 <= i < |list| ==> list[i] < |next|)
    && from == (if list == [] then NULL else list[0])
    && (forall i :: 0 <= i < |list| ==> next[list[i]] == Successor(list, i))
  }

  /** The link fields from `from` on spell out `list`, which ends with RT_NULL. */
  ghost predicate Chain(next: seq<int>, from: int, list: seq<nat>) {
    Links(next, from, list) && Distinct(list)
  }

  ghost predicate Held(s: MQ, slot: nat) {
    exists t :: t in s.pc && Slot(s.pc[t]) == slot
  }

  /** Every slot is in exactly one place: free, queued, or in flight with one context. */
  ghost predicate Partition(s: MQ) {
    && (forall x :: 0 <= x < |s.next| ==> x in s.frees || x in s.queue || Held(s, x))
    && (forall x :: x in s.frees ==> x !in s.queue && !Held(s, x))
    && (forall x :: x in s.queue ==> !Held(s, x))
    && (forall t, u :: t in s.pc && u in s.pc && t != u && Slot(s.pc[t]) != NULL ==> Slot(s.pc[t]) != Slot(s.pc[u]))
  }

  /** The queued slots carry the deque's messages; a slot may be longer than its message. */
  ghost predicate QueuePayload(s: MQ) {
    && |s.messages| == |s.queue|
    && forall i :: 0 <= i < |s.queue| ==> s.queue[i] < |s.body| && s.messages[i] <= s.body[s.queue[i]]
  }

  /** A context in flight has the right bytes in its slot, or already in its buffer. */
  ghost predicate FlightPayload(s: MQ, pc: Pc) {
    match pc
    case Linking(op, slot) =>
      && slot < |s.body| && slot < |s.next| && !op.RecvOp? && op.buf <= s.body[slot]
      && (op.SendOp? ==> s.next[slot] == NULL)
    case Draining(slot, size, msg) => slot < |s.body| && msg <= s.body[slot]
    case Returning(slot, out, size, msg) => Delivered(out, size, msg, s.msgSize)
    case _ => true
  }

  /** `out` is what a receiver with room for `size` bytes gets of `msg`: all of it that fits, unchanged. */
  ghost predicate Delivered(out: seq<Byte>, size: nat, msg: seq<Byte>, msgSize: nat) {
    |out| == Min(size, msgSize) && |msg| <= msgSize && out[..Min(size, |msg|)] == msg[..Min(size, |msg|)]
  }

  ghost predicate Payloads(s: MQ) {
    QueuePayload(s) && forall t :: t in s.pc ==> FlightPayload(s, s.pc[t])
  }

  /** Everything but the entry count. */
  ghost predicate Core(s: MQ) {
    && Sound(s)
    && Chain(s.next, s.free, s.frees) && Chain(s.next, s.head, s.queue)
    && s.tail == (if s.queue == [] then NULL else s.queue[|s.queue| - 1])
    && |s.next| <= ENTRY_MAX
    && Partition(s) && Payloads(s)
  }

  ghost predicate Inv(s: MQ) {
    Core(s) && s.entry == |s.queue|
  }

  // ----- chains -----

  lemma LinksPop(next: seq<int>, from: int, list: seq<nat>)
    requires Links(next, from, list) && list != []
    ensures 0 <= from < |next| && from == list[0] && Links(next, next[from], list[1..])
  {
    assert next[list[0]] == Successor(list, 0);
    forall i | 0 <= i < |list| - 1 ensures next[list[1..][i]] == Successor(list[1..], i) {
      assert next[list[i + 1]] == Successor(list, i + 1);
    }
  }

  lemma ChainPop(next: seq<int>, from: int, list: seq<nat>)
    requires Chain(next, from, list) && list != []
    ensures 0 <= from < |next| && from == list[0] && Chain(next, next[from], list[1..])
    ensures list[0] !in list[1..] && forall x :: x in list <==> x == list[0] || x in list[1..]
  {
    LinksPop(next, from, list);
    forall x ensures x in list <==> x == list[0] || x in list[1..] {
      assert list == [list[0]] + list[1..];
    }
  }

  lemma ChainPush(next: seq<int>, from: int, list: seq<nat>, x: nat)
    requires Chain(next, from, list) && x < |next| && x !in list
    ensures Chain(next[x := from], x, [x] + list)
  {
    var list' := [x] + list;
    LinksPush(next, from, list, x);
    forall i, j | 0 <= i < j < |list'| ensures list'[i] != list'[j] {
      assert list'[j] == list[j - 1];
      assert i > 0 ==> list'[i] == list[i - 1];
    }
  }

  lemma LinksPush(next: seq<int>, from: int, list: seq<nat>, x: nat)
    requires Links(next, from, list) && x < |next| && x !in list
    ensures Links(next[x := from], x, [x] + list)
  {
    var list' := [x] + list;
    forall i | 0 <= i < |list'| ensures list'[i] < |next| && next[x := from][list'[i]] == Successor(list', i) {
      if i > 0 {
        assert list'[i] == list[i - 1] && list[i - 1] in list;
        assert next[list[i - 1]] == Successor(list, i - 1);
      }
    }
  }

  lemma ChainAppend(next: seq<int>, from: int, list: seq<nat>, x: nat)
    requires Chain(next, from, list) && x < |next| && x !in list && next[x] == NULL
    ensures list == [] ==> Chain(next, x, [x])
    ensures list != [] ==> Chain(next[list[|list| - 1] := x], from, list + [x])
  {
    if list != [] {
      LinksAppend(next, from, list, x);
      assert Distinct(list + [x]);
    }
  }

  lemma LinksAppend(next: seq<int>, from: int, list: seq<nat>, x: nat)
    requires Chain(next, from, list) && x < |next| && x !in list && next[x] == NULL && list != []
    ensures Links(next[list[|list| - 1] := x], from, list + [x])
  {
    var last, list' := |list| - 1, list + [x];
    forall i | 0 <= i < |list'| ensures next[list[last] := x][list'[i]] == Successor(list', i) {
      if i < last { assert next[list[i]] == Successor(list, i) && list[i] != list[last]; }
    }
  }

  /** Writing a link outside a chain leaves the chain alone. */
  lemma ChainFrame(next: seq<int>, from: int, list: seq<nat>, x: nat, y: int)
    requires Chain(next, from, list) && x < |next| && x !in list
    ensures Chain(next[x := y], from, list)
  {
    forall i | 0 <= i < |list| ensures next[x := y][list[i]] == Successor(list, i) {
      assert list[i] in list;
    }
  }

  // ----- who holds what -----

  ghost predicate SameSlots(s: MQ, s': MQ) {
    s'.pc.Keys == s.pc.Keys && forall t :: t in s.pc ==> Slot(s'.pc[t]) == Slot(s.pc[t])
  }

  lemma PartitionFrame(s: MQ, s': MQ)
    requires Partition(s) && SameSlots(s, s') && s'.frees == s.frees && s'.queue == s.queue && |s'.next| == |s.next|
    ensures Partition(s')
  {
    HeldFrame(s, s');
  }

  lemma HeldFrame(s: MQ, s': MQ)
    requires SameSlots(s, s')
    ensures forall x :: Held(s', x) <==> Held(s, x)
  {
    forall x ensures Held(s', x) <==> Held(s, x) {
      if Held(s, x) {
        var t :| t in s.pc && Slot(s.pc[t]) == x;
        assert Slot(s'.pc[t]) == x;
      }
      if Held(s', x) {
        var t :| t in s'.pc && Slot(s'.pc[t]) == x;
        assert Slot(s.pc[t]) == x;
      }
    }
  }

  /** Context `t` comes to hold slot `x`. */
  lemma HeldMore(s: MQ, s': MQ, t: Tid, x: nat)
    requires t in s.pc && Slot(s.pc[t]) == NULL && s'.pc.Keys == s.pc.Keys && Slot(s'.pc[t]) == x
    requires forall u :: u in s.pc && u != t ==> Slot(s'.pc[u]) == Slot(s.pc[u])
    ensures forall y: nat :: Held(s', y) <==> Held(s, y) || y == x
  {
    forall y: nat ensures Held(s', y) <==> Held(s, y) || y == x {
      if Held(s, y) {
        var u :| u in s.pc && Slot(s.pc[u]) == y;
        assert u != t && Slot(s'.pc[u]) == y;
      }
      if Held(s', y) {
        var u :| u in s'.pc && Slot(s'.pc[u]) == y;
        assert u != t ==> Slot(s.pc[u]) == y;
      }
    }
  }

  /** Context `t`, the only holder of slot `x`, lets go of it. */
  lemma HeldLess(s: MQ, s': MQ, t: Tid, x: nat)
    requires t in s.pc && Slot(s.pc[t]) == x && s'.pc.Keys == s.pc.Keys && Slot(s'.pc[t]) == NULL
    requires forall u :: u in s.pc && u != t ==> Slot(s'.pc[u]) == Slot(s.pc[u]) && Slot(s.pc[u]) != x
    ensures forall y: nat :: Held(s', y) <==> Held(s, y) && y != x
  {
    forall y: nat ensures Held(s', y) <==> Held(s, y) && y != x {
      if Held(s, y) && y != x {
        var u :| u in s.pc && Slot(s.pc[u]) == y;
        assert u != t && Slot(s'.pc[u]) == y;
      }
      if Held(s', y) {
        var u :| u in s'.pc && Slot(s'.pc[u]) == y;
        assert u != t && Slot(s.pc[u]) == y;
      }
    }
  }

  // ----- steps keep the invariant -----

  /** Only the wait lists and the program points of contexts without a slot differ. */
  ghost predicate Quiet(s: MQ, s': MQ) {
    && s'.pc.Keys == s.pc.Keys
    && s' == s.(pc := s'.pc, senders := s'.senders, receivers := s'.receivers)
    && forall t :: t in s.pc ==>
         s'.pc[t] == s.pc[t] || (Slot(s.pc[t]) == NULL && Slot(s'.pc[t]) == NULL && Fits(s'.pc[t], s.msgSize))
  }

  lemma QuietSound(s: MQ, s': MQ)
    requires Sound(s) && Quiet(s, s')
    ensures Sound(s')
  {
  }

  lemma QuietPayloads(s: MQ, s': MQ)
    requires Payloads(s) && Quiet(s, s')
    ensures Payloads(s')
  {
    forall u | u in s'.pc ensures FlightPayload(s', s'.pc[u]) {
      assert FlightPayload(s, s.pc[u]);
    }
  }

  /** Steps that only move contexts between waiting and not waiting. */
  lemma QuietKeeps(s: MQ, s': MQ)
    requires Inv(s) && Quiet(s, s')
    ensures Inv(s')
  {
    QuietSound(s, s');
    QuietPayloads(s, s');
    PartitionFrame(s, s');
  }

  lemma TakeSlotPartition(s: MQ, t: Tid, op: Op)
    requires Inv(s) && s.free != NULL && t in s.pc && Slot(s.pc[t]) == NULL
    ensures Partition(TakeSlot(s, t, op))
  {
    var s' := TakeSlot(s, t, op);
    HeldMore(s, s', t, s.free);
    ChainPop(s.next, s.free, s.frees);
    assert s.frees[0] in s.frees;
  }

  lemma TakeSlotKeeps(s: MQ, t: Tid, op: Op)
    requires Inv(s) && s.free != NULL && t in s.pc && Slot(s.pc[t]) == NULL && !op.RecvOp? && |op.buf| <= s.msgSize
    ensures Inv(TakeSlot(s, t, op))
  {
    ChainPop(s.next, s.free, s.frees);
    TakeSlotPartition(s, t, op);
    TakeSlotPayloads(s, t, op);
  }

  lemma TakeSlotPayloads(s: MQ, t: Tid, op: Op)
    requires Sound(s) && Payloads(s) && s.free != NULL
    ensures Payloads(TakeSlot(s, t, op))
  {
    var s' := TakeSlot(s, t, op);
    forall u | u in s'.pc ensures FlightPayload(s', s'.pc[u]) {
      assert u != t ==> FlightPayload(s, s.pc[u]);
    }
  }

  lemma TakeMessagePartition(s: MQ, t: Tid, size: nat)
    requires Inv(s) && s.entry > 0 && t in s.pc && Slot(s.pc[t]) == NULL
    ensures Partition(TakeMessage(s, t, size))
  {
    var s' := TakeMessage(s, t, size);
    HeldMore(s, s', t, s.head);
    ChainPop(s.next, s.head, s.queue);
    assert s.queue[0] in s.queue;
  }

  lemma TakeMessageKeeps(s: MQ, t: Tid, size: nat)
    requires Inv(s) && s.entry > 0 && t in s.pc && Slot(s.pc[t]) == NULL
    ensures Inv(TakeMessage(s, t, size))
  {
    ChainPop(s.next, s.head, s.queue);
    TakeMessagePartition(s, t, size);
    TakeMessagePayloads(s, t, size);
  }

  lemma TakeMessagePayloads(s: MQ, t: Tid, size: nat)
    requires Sound(s) && Payloads(s) && s.entry > 0 && s.queue != [] && s.head == s.queue[0]
    ensures Payloads(TakeMessage(s, t, size))
  {
    var s' := TakeMessage(s, t, size);
    forall u | u in s'.pc ensures FlightPayload(s', s'.pc[u]) {
      assert u != t ==> FlightPayload(s, s.pc[u]);
    }
  }

  lemma AttemptKeeps(s: MQ, t: Tid, op: Op, timed: bool, mayWait: bool)
    requires Inv(s) && t in s.pc && Slot(s.pc[t]) == NULL && (!op.RecvOp? ==> |op.buf| <= s.msgSize)
    ensures Inv(Attempt(s, t, op, timed, mayWait))
  {
    if op.RecvOp? && s.entry > 0 {
      TakeMessageKeeps(s, t, op.size);
    } else if !op.RecvOp? && s.free != NULL {
      TakeSlotKeeps(s, t, op);
    } else {
      AttemptQuiet(s, t, op, timed, mayWait);
      QuietKeeps(s, Attempt(s, t, op, timed, mayWait));
    }
  }

  lemma AttemptQuiet(s: MQ, t: Tid, op: Op, timed: bool, mayWait: bool)
    requires Sound(s) && t in s.pc && Slot(s.pc[t]) == NULL && (!op.RecvOp? ==> |op.buf| <= s.msgSize)
    requires if op.RecvOp? then s.entry == 0 else s.free == NULL
    ensures Quiet(s, Attempt(s, t, op, timed, mayWait))
  {
  }

  /** A slot in flight belongs to nobody else. */
  lemma InFlight(s: MQ, t: Tid, x: nat)
    requires Core(s) && t in s.pc && Slot(s.pc[t]) == x
    ensures x < |s.next| && x !in s.frees && x !in s.queue
    ensures forall u :: u in s.pc && u != t ==> Slot(s.pc[u]) != x
  {
    assert Held(s, x);
  }

  lemma FillPayloads(s: MQ, t: Tid)
    requires Inv(s) && t in s.pc && s.pc[t].Filling?
    ensures Payloads(Copied(s, t))
  {
    var s' := Copied(s, t);
    InFlight(s, t, s.pc[t].slot);
    forall u | u in s'.pc ensures FlightPayload(s', s'.pc[u]) {
      assert FlightPayload(s, s.pc[u]);
    }
    forall i | 0 <= i < |s.queue| ensures s.queue[i] < |s'.body| && s.messages[i] <= s'.body[s.queue[i]] {
      assert s.queue[i] in s.queue;
    }
  }

  lemma FillSound(s: MQ, t: Tid)
    requires Sound(s) && t in s.pc && s.pc[t].Filling?
    ensures Sound(Copied(s, t))
  {
  }

  lemma FillKeeps(s: MQ, t: Tid)
    requires Inv(s) && t in s.pc && s.pc[t].Filling?
    ensures Inv(Copied(s, t))
  {
    var slot := s.pc[t].slot;
    InFlight(s, t, slot);
    FillSound(s, t);
    FillPayloads(s, t);
    PartitionFrame(s, Copied(s, t));
    ChainFrame(s.next, s.free, s.frees, slot, NULL);
    ChainFrame(s.next, s.head, s.queue, slot, NULL);
  }

  lemma DrainKeeps(s: MQ, t: Tid)
    requires Inv(s) && t in s.pc && s.pc[t].Draining?
    ensures Inv(Copied(s, t))
  {
    PartitionFrame(s, Copied(s, t));
    DrainPayloads(s, t);
    DrainSound(s, t);
  }

  lemma DrainSound(s: MQ, t: Tid)
    requires Sound(s) && t in s.pc && s.pc[t].Draining?
    ensures Sound(Copied(s, t))
  {
  }

  lemma DrainPayloads(s: MQ, t: Tid)
    requires Sound(s) && Payloads(s) && t in s.pc && s.pc[t].Draining?
    ensures Payloads(Copied(s, t))
  {
    var s' := Copied(s, t);
    forall u | u in s'.pc ensures FlightPayload(s', s'.pc[u]) {
      assert FlightPayload(s, s.pc[u]);
    }
  }

  lemma LinkLastChains(s: MQ, t: Tid)
    requires Inv(s) && t in s.pc && s.pc[t].Linking? && s.pc[t].op.SendOp?
    ensures var s1 := Linked(s, t);
            Chain(s1.next, s1.free, s1.frees) && Chain(s1.next, s1.head, s1.queue) && QueuePayload(s1)
  {
    var slot := s.pc[t].slot;
    InFlight(s, t, slot);
    assert FlightPayload(s, s.pc[t]);
    ChainAppend(s.next, s.head, s.queue, slot);
    if s.tail != NULL {
      assert s.queue[|s.queue| - 1] in s.queue;
      ChainFrame(s.next, s.free, s.frees, s.tail, slot);
    }
  }

  lemma LinkFirstChains(s: MQ, t: Tid)
    requires Inv(s) && t in s.pc && s.pc[t].Linking? && !s.pc[t].op.SendOp?
    ensures var s1 := Linked(s, t);
            Chain(s1.next, s1.free, s1.frees) && Chain(s1.next, s1.head, s1.queue) && QueuePayload(s1)
  {
    var slot := s.pc[t].slot;
    InFlight(s, t, slot);
    assert FlightPayload(s, s.pc[t]);
    ChainPush(s.next, s.head, s.queue, slot);
    ChainFrame(s.next, s.free, s.frees, slot, s.head);
  }

  lemma LinkedSound(s: MQ, t: Tid)
    requires Inv(s) && t in s.pc && s.pc[t].Linking?
    ensures Sound(Linked(s, t))
  {
  }

  lemma LinkedPartition(s: MQ, t: Tid)
    requires Inv(s) && t in s.pc && s.pc[t].Linking?
    ensures Partition(Linked(s, t))
  {
    var slot := s.pc[t].slot;
    InFlight(s, t, slot);
    HeldLess(s, Linked(s, t), t, slot);
    assert forall x :: x in Linked(s, t).queue <==> x in s.queue || x == slot;
  }

  /** Linking changes no link field of another slot in flight. */
  lemma LinkedFlights(s: MQ, t: Tid)
    requires Inv(s) && t in s.pc && s.pc[t].Linking?
    ensures var s1 := Linked(s, t); forall u :: u in s1.pc ==> FlightPayload(s1, s1.pc[u])
  {
    var s1 := Linked(s, t);
    InFlight(s, t, s.pc[t].slot);
    if s.tail != NULL { TailNotInFlight(s); }
    forall u | u in s1.pc ensures FlightPayload(s1, s1.pc[u]) {
      assert FlightPayload(s, s.pc[u]);
    }
  }

  lemma TailNotInFlight(s: MQ)
    requires Inv(s) && s.tail != NULL
    ensures forall u :: u in s.pc ==> Slot(s.pc[u]) != s.tail
  {
    assert s.queue[|s.queue| - 1] in s.queue;
    forall u | u in s.pc ensures Slot(s.pc[u]) != s.tail { NotHeld(s, u, s.tail); }
  }

  lemma LinkedInv(s: MQ, t: Tid)
    requires Inv(s) && t in s.pc && s.pc[t].Linking?
    ensures s.entry < ENTRY_MAX && Inv(Linked(s, t))
  {
    InFlight(s, t, s.pc[t].slot);
    Room(s, s.pc[t].slot);
    if s.pc[t].op.SendOp? { LinkLastChains(s, t); } else { LinkFirstChains(s, t); }
    LinkedSound(s, t);
    LinkedPartition(s, t);
    LinkedFlights(s, t);
    LinkedTail(s, t);
  }

  lemma LinkedTail(s: MQ, t: Tid)
    requires Inv(s) && t in s.pc && s.pc[t].Linking?
    ensures var s1 := Linked(s, t); |s1.queue| == |s.queue| + 1 && s1.tail == s1.queue[|s1.queue| - 1]
  {
  }

  lemma LinkKeeps(s: MQ, t: Tid)
    requires Inv(s) && t in s.pc && s.pc[t].Linking?
    ensures Inv(Finished(s, t))
  {
    LinkedInv(s, t);
    WakeReceiverKeeps(Linked(s, t));
  }

  lemma WakeReceiverKeeps(s: MQ)
    requires Inv(s)
    ensures Inv(WakeReceiver(s))
  {
    QuietWake(s);
    QuietKeeps(s, WakeReceiver(s));
  }

  lemma WakeSenderKeeps(s: MQ)
    requires Inv(s)
    ensures Inv(WakeSender(s))
  {
    QuietWake(s);
    QuietKeeps(s, WakeSender(s));
  }

  lemma QuietWake(s: MQ)
    requires Sound(s)
    ensures Quiet(s, WakeSender(s)) && Quiet(s, WakeReceiver(s))
  {
    if s.senders != [] && s.senders[0] in s.pc { assert Fits(s.pc[s.senders[0]], s.msgSize); }
    if s.receivers != [] && s.receivers[0] in s.pc { assert Fits(s.pc[s.receivers[0]], s.msgSize); }
  }

  function Below(n: nat): (all: set<nat>)
    ensures |all| == n && forall i :: i in all <==> 0 <= i < n
  {
    if n == 0 then {} else Below(n - 1) + {n - 1}
  }

  function Members(list: seq<nat>): (all: set<nat>)
    ensures forall x :: x in all <==> x in list
  {
    if list == [] then {}
    else
      assert list == list[..|list| - 1] + [list[|list| - 1]];
      Members(list[..|list| - 1]) + {list[|list| - 1]}
  }

  lemma {:induction false} DistinctCount(list: seq<nat>)
    requires Distinct(list)
    ensures |Members(list)| == |list|
    decreases |list|
  {
    if list != [] {
      DistinctCount(list[..|list| - 1]);
      assert list[|list| - 1] !in list[..|list| - 1];
    }
  }

  /** Distinct slots below `n`, one of them missing: fewer than `n`. */
  lemma Fewer(list: seq<nat>, n: nat, x: nat)
    requires x < n && x !in list && Distinct(list)
    requires forall i :: 0 <= i < |list| ==> list[i] < n
    ensures |list| < n
  {
    DistinctCount(list);
    SubsetCount(Members(list), Below(n) - {x});
  }

  lemma {:induction false} SubsetCount(a: set<nat>, b: set<nat>)
    requires a <= b
    ensures |a| <= |b|
    decreases |a|
  {
    if a != {} {
      var x :| x in a;
      SubsetCount(a - {x}, b - {x});
    }
  }

  /** While a slot is in flight the queue is shorter than the pool, so the entry count cannot overflow. */
  lemma Room(s: MQ, slot: nat)
    requires Inv(s) && slot < |s.next| && slot !in s.queue
    ensures s.entry < |s.next| <= ENTRY_MAX
  {
    Fewer(s.queue, |s.next|, slot);
  }

  lemma GaveBackChains(s: MQ, t: Tid)
    requires Inv(s) && t in s.pc && s.pc[t].Returning?
    ensures var s1 := GaveBack(s, t); Chain(s1.next, s1.free, s1.frees) && Chain(s1.next, s1.head, s1.queue)
  {
    var slot := s.pc[t].slot;
    InFlight(s, t, slot);
    ChainPush(s.next, s.free, s.frees, slot);
    ChainFrame(s.next, s.head, s.queue, slot, s.free);
  }

  lemma GaveBackPartition(s: MQ, t: Tid)
    requires Inv(s) && t in s.pc && s.pc[t].Returning?
    ensures Partition(GaveBack(s, t))
  {
    InFlight(s, t, s.pc[t].slot);
    HeldLess(s, GaveBack(s, t), t, s.pc[t].slot);
  }

  lemma GaveBackPayloads(s: MQ, t: Tid)
    requires Inv(s) && t in s.pc && s.pc[t].Returning?
    ensures Payloads(GaveBack(s, t))
  {
    var s1 := GaveBack(s, t);
    InFlight(s, t, s.pc[t].slot);
    forall u | u in s1.pc ensures FlightPayload(s1, s1.pc[u]) {
      assert FlightPayload(s, s.pc[u]);
    }
  }

  lemma GaveBackSound(s: MQ, t: Tid)
    requires Sound(s) && t in s.pc && s.pc[t].Returning?
    ensures Sound(GaveBack(s, t))
  {
  }

  lemma GiveBackKeeps(s: MQ, t: Tid)
    requires Inv(s) && t in s.pc && s.pc[t].Returning?
    ensures Inv(Finished(s, t))
  {
    GaveBackSound(s, t);
    GaveBackChains(s, t);
    GaveBackPartition(s, t);
    GaveBackPayloads(s, t);
    WakeSenderKeeps(GaveBack(s, t));
  }

  lemma DiscardChains(s: MQ)
    requires Core(s) && s.entry == 0 && s.head != NULL
    ensures var s' := Discard(s); Chain(s'.next, s'.free, s'.frees) && Chain(s'.next, s'.head, s'.queue)
  {
    var slot := s.queue[0];
    assert slot in s.queue && slot !in s.frees;
    ChainPop(s.next, s.head, s.queue);
    ChainFrame(s.next, s.next[s.head], s.queue[1..], slot, s.free);
    ChainPush(s.next, s.free, s.frees, slot);
  }

  lemma DiscardPayloads(s: MQ)
    requires Core(s) && s.entry == 0 && s.head != NULL
    ensures Payloads(Discard(s))
  {
    var s', slot := Discard(s), s.queue[0];
    assert slot in s.queue && !Held(s, slot);
    forall u | u in s'.pc ensures FlightPayload(s', s'.pc[u]) {
      assert FlightPayload(s, s.pc[u]);
      NotHeld(s, u, slot);
    }
  }

  lemma DiscardKeeps(s: MQ)
    requires Core(s) && s.entry == 0 && s.head != NULL
    ensures Core(Discard(s)) && |Discard(s).queue| == |s.queue| - 1
  {
    DiscardChains(s);
    DiscardPayloads(s);
    DiscardPartition(s, s.queue[0]);
  }

  lemma NotHeld(s: MQ, u: Tid, slot: nat)
    requires u in s.pc && !Held(s, slot)
    ensures Slot(s.pc[u]) != slot
  {
  }

  lemma DiscardPartition(s: MQ, slot: nat)
    requires Core(s) && s.entry == 0 && s.queue != [] && slot == s.queue[0]
    ensures Partition(Discard(s))
  {
    var s' := Discard(s);
    HeldFrame(s, s');
    ChainPop(s.next, s.head, s.queue);
  }

  lemma {:induction false} DiscardAllKeeps(s: MQ, rounds: nat)
    requires Core(s) && s.entry == 0 && |s.queue| <= rounds
    ensures var s' := DiscardAll(s, rounds); Core(s') && s'.queue == []
    decreases rounds
  {
    if rounds > 0 && s.head != NULL {
      DiscardKeeps(s);
      DiscardAllKeeps(Discard(s), rounds - 1);
    }
  }

  lemma ResetKeeps(s: MQ)
    requires Inv(s)
    ensures Inv(ResetAll(s)) && ResetAll(s).messages == []
  {
    ResetStarts(s);
    DiscardAllKeeps(s.(entry := 0, senders := [], receivers := [], pc := AllWoken(s.pc)), |s.next|);
  }

  lemma ResetStarts(s: MQ)
    requires Inv(s)
    ensures Core(s.(entry := 0, senders := [], receivers := [], pc := AllWoken(s.pc))) && |s.queue| <= |s.next|
  {
    var s1 := s.(senders := [], receivers := [], pc := AllWoken(s.pc));
    QuietKeeps(s, s1);
    QueueFits(s);
    Uncounted(s1);
  }

  lemma Uncounted(s: MQ)
    requires Core(s)
    ensures Core(s.(entry := 0))
  {
    PartitionFrame(s, s.(entry := 0));
    forall u | u in s.pc ensures FlightPayload(s.(entry := 0), s.pc[u]) {
      assert FlightPayload(s, s.pc[u]);
    }
  }

  lemma QueueFits(s: MQ)
    requires Inv(s)
    ensures |s.queue| <= |s.next|
  {
    if |s.queue| > 0 {
      Fewer(s.queue[1..], |s.next|, s.queue[0]);
    }
  }

  lemma RetryKeeps(s: MQ, t: Tid, expired: bool)
    requires Inv(s) && Enabled(s, Retry(t, expired))
    ensures Inv(Step(s, Retry(t, expired)))
  {
    var Woken(op, timed, ok) := s.pc[t];
    if ok {
      AttemptKeeps(s, t, op, timed, !(timed && expired));
    } else {
      QuietKeeps(s, s.(pc := s.pc[t := Idle]));
    }
  }

  lemma StepKeeps(s: MQ, a: Action)
    requires Inv(s) && Enabled(s, a)
    ensures Inv(Step(s, a))
  {
    match a {
      case Enter(t, op, timeout) => AttemptKeeps(s, t, op, timeout > 0, timeout != 0);
      case Retry(t, expired) => RetryKeeps(s, t, expired);
      case Copy(t) => if s.pc[t].Filling? { FillKeeps(s, t); } else { DrainKeeps(s, t); }
      case Finish(t) =>
        if s.pc[t].Returning? { GiveBackKeeps(s, t); } else { LinkKeeps(s, t); }
      case TimerFires(t) => TimeoutKeeps(s, t);
      case Reset => ResetKeeps(s);
    }
  }

  lemma TimeoutKeeps(s: MQ, t: Tid)
    requires Inv(s) && Enabled(s, TimerFires(t))
    ensures Inv(Step(s, TimerFires(t)))
  {
    assert Fits(s.pc[t], s.msgSize);
    QuietKeeps(s, Step(s, TimerFires(t)));
  }

  // ----- wait lists -----

  /** A context is on the receiver (sender) list exactly when it waits to receive (send), and on it once. */
  ghost predicate Queued(s: MQ) {
    && s.pc.Keys <= s.cfg.prio.Keys && Distinct(s.receivers) && Distinct(s.senders)
    && (forall t :: t in s.receivers <==> t in s.pc && s.pc[t].Waiting? && s.pc[t].op.RecvOp?)
    && (forall t :: t in s.senders <==> t in s.pc && s.pc[t].Waiting? && !s.pc[t].op.RecvOp?)
  }

  lemma SuspendedQueued(s: MQ, t: Tid, op: Op, timed: bool)
    requires Queued(s) && t in s.pc && !s.pc[t].Waiting?
    ensures Queued(Suspended(s, t, op, timed))
  {
    JoinedMembers(if op.RecvOp? then s.receivers else s.senders, s.cfg, t);
  }

  lemma WakeReceiverQueued(s: MQ)
    requires Queued(s)
    ensures Queued(WakeReceiver(s))
  {
    if s.receivers != [] {
      assert s.receivers[0] in s.receivers;
      assert s.receivers == [s.receivers[0]] + s.receivers[1..];
    }
  }

  lemma WakeSenderQueued(s: MQ)
    requires Queued(s)
    ensures Queued(WakeSender(s))
  {
    if s.senders != [] {
      assert s.senders[0] in s.senders;
      assert s.senders == [s.senders[0]] + s.senders[1..];
    }
  }

  lemma {:induction false} DiscardAllLists(s: MQ, rounds: nat)
    requires Sound(s) && s.entry == 0
    ensures var s' := DiscardAll(s, rounds); s'.pc == s.pc && s'.senders == s.senders && s'.receivers == s.receivers && s'.cfg == s.cfg
    decreases rounds
  {
    if rounds > 0 && s.head != NULL { DiscardAllLists(Discard(s), rounds - 1); }
  }

  lemma LinkedQueued(s: MQ, t: Tid)
    requires Sound(s) && Queued(s) && t in s.pc && s.pc[t].Linking?
    ensures Queued(Linked(s, t))
  {
  }

  lemma DiscardRound(s: MQ, rounds: nat)
    requires Sound(s) && s.entry == 0
    ensures rounds > 0 && s.head != NULL ==> DiscardAll(s, rounds) == DiscardAll(Discard(s), rounds - 1)
    ensures s.head == NULL ==> DiscardAll(s, rounds) == s
  {
  }

  /** The head is null exactly when nothing is queued. */
  lemma CoreHead(s: MQ)
    requires Core(s)
    ensures s.head == NULL <==> s.queue == []
  {
  }

  lemma FinishQueued(s: MQ, t: Tid)
    requires Inv(s) && Queued(s) && Enabled(s, Finish(t))
    ensures Queued(Finished(s, t))
  {
    if s.pc[t].Returning? {
      WakeSenderQueued(GaveBack(s, t));
    } else {
      WakeReceiverQueued(Linked(s, t));
    }
  }

  lemma TimeoutQueued(s: MQ, t: Tid)
    requires Inv(s) && Queued(s) && Enabled(s, TimerFires(t))
    ensures Queued(Step(s, TimerFires(t)))
  {
    WithoutMembers(s.senders, t);
    WithoutMembers(s.receivers, t);
  }

  lemma ResetQueued(s: MQ)
    requires Inv(s) && Queued(s)
    ensures Queued(ResetAll(s))
  {
    ResetLists(s);
  }

  /** A reset leaves nobody waiting. */
  lemma ResetLists(s: MQ)
    requires Sound(s)
    ensures var s' := ResetAll(s); s'.senders == [] && s'.receivers == [] && s'.pc == AllWoken(s.pc) && s'.cfg == s.cfg
  {
    DiscardAllLists(s.(entry := 0, senders := [], receivers := [], pc := AllWoken(s.pc)), |s.next|);
  }

  lemma RetryQueued(s: MQ, t: Tid, expired: bool)
    requires Inv(s) && Queued(s) && Enabled(s, Retry(t, expired))
    ensures Queued(Step(s, Retry(t, expired)))
  {
    if s.pc[t].ok { AttemptQueued(s, t, s.pc[t].op, s.pc[t].timed, !(s.pc[t].timed && expired)); }
  }

  lemma CopyQueued(s: MQ, t: Tid)
    requires Inv(s) && Queued(s) && Enabled(s, Copy(t))
    ensures Queued(Copied(s, t))
  {
  }

  lemma StepQueued(s: MQ, a: Action)
    requires Inv(s) && Queued(s) && Enabled(s, a)
    ensures Queued(Step(s, a))
  {
    match a {
      case Enter(t, op, timeout) => AttemptQueued(s, t, op, timeout > 0, timeout != 0);
      case Retry(t, expired) => RetryQueued(s, t, expired);
      case Copy(t) => CopyQueued(s, t);
      case Finish(t) => FinishQueued(s, t);
      case TimerFires(t) => TimeoutQueued(s, t);
      case Reset => ResetQueued(s);
    }
  }

  lemma AttemptQueued(s: MQ, t: Tid, op: Op, timed: bool, mayWait: bool)
    requires Inv(s) && Queued(s) && t in s.pc && !s.pc[t].Waiting?
    ensures Queued(Attempt(s, t, op, timed, mayWait))
  {
    var s' := Attempt(s, t, op, timed, mayWait);
    if s'.pc[t].Waiting? {
      SuspendedQueued(s, t, op, timed);
    } else {
      NotWaitingQueued(s, s', t);
    }
  }

  lemma NotWaitingQueued(s: MQ, s': MQ, t: Tid)
    requires Queued(s) && t in s.pc && !s.pc[t].Waiting?
    requires t in s'.pc && !s'.pc[t].Waiting? && s'.pc == s.pc[t := s'.pc[t]]
    requires s'.senders == s.senders && s'.receivers == s.receivers && s'.cfg == s.cfg
    ensures Queued(s')
  {
  }

  lemma StepValid(s: MQ, a: Action)
    requires Inv(s) && Queued(s) && Enabled(s, a)
    ensures Inv(Step(s, a)) && Queued(Step(s, a))
    ensures a == Reset ==> Step(s, a).queue == []
  {
    StepKeeps(s, a);
    StepQueued(s, a);
    if a == Reset { ResetKeeps(s); }
  }

  // ----- runs -----

  /** rt_mq_init: the free list is built by pushing each slot in turn. */
  function Descending(n: nat): (list: seq<nat>)
    ensures |list| == n && forall i :: 0 <= i < n ==> list[i] == n - 1 - i
  {
    if n == 0 then [] else [n - 1] + Descending(n - 1)
  }

  ghost predicate Start(s: MQ) {
    && |s.next| == |s.body| <= ENTRY_MAX
    && (forall i :: 0 <= i < |s.body| ==> |s.body[i]| == s.msgSize)
    && (forall i :: 0 <= i < |s.next| ==> s.next[i] == i - 1)
    && s.free == |s.next| - 1 && s.frees == Descending(|s.next|)
    && s.head == NULL && s.tail == NULL && s.entry == 0 && s.queue == [] && s.messages == []
    && s.senders == [] && s.receivers == [] && s.pc.Keys <= s.cfg.prio.Keys && forall t :: t in s.pc ==> s.pc[t].Idle?
  }

  lemma StartInv(s: MQ)
    requires Start(s)
    ensures Inv(s) && Queued(s)
  {
    StartChain(s);
    StartPartition(s);
  }

  lemma StartChain(s: MQ)
    requires Start(s)
    ensures Chain(s.next, s.free, s.frees)
  {
  }

  lemma StartPartition(s: MQ)
    requires Start(s)
    ensures Partition(s)
  {
    forall x | 0 <= x < |s.next| ensures x in s.frees {
      assert s.frees[|s.next| - 1 - x] == x;
    }
  }

  ghost predicate Run(s: MQ, acts: seq<Action>, s': MQ)
    decreases |acts|
  {
    if acts == [] then s == s'
    else Sound(s) && Enabled(s, acts[0]) && Run(Step(s, acts[0]), acts[1..], s')
  }

  lemma {:induction false} RunKeeps(s: MQ, acts: seq<Action>, s': MQ)
    requires Inv(s) && Queued(s) && Run(s, acts, s')
    ensures Inv(s') && Queued(s')
    decreases |acts|
  {
    if acts != [] {
      StepKeeps(s, acts[0]);
      StepQueued(s, acts[0]);
      RunKeeps(Step(s, acts[0]), acts[1..], s');
    }
  }

  /** Main result: at every interleaving the pool's slots are partitioned into the free list, the
      queue and the slots in flight; the entry count is the queue length; the tail is the last
      queued slot and is null exactly when the head is; and a context waits on exactly one list. */
  lemma SlotsConserved(s: MQ, acts: seq<Action>, s': MQ)
    requires Start(s) && Run(s, acts, s')
    ensures Chain(s'.next, s'.free, s'.frees) && Chain(s'.next, s'.head, s'.queue) && Partition(s')
    ensures s'.entry == |s'.queue|
    ensures s'.tail == (if s'.queue == [] then NULL else s'.queue[|s'.queue| - 1]) && (s'.tail == NULL <==> s'.head == NULL)
    ensures Queued(s')
  {
    StartInv(s);
    RunKeeps(s, acts, s');
  }

  /** The entry count never reaches its limit when a message is to be linked, so a send that has
      its slot cannot fail. */
  lemma EntryNeverOverflows(s: MQ, acts: seq<Action>, s': MQ, t: Tid)
    requires Start(s) && Run(s, acts, s') && t in s'.pc && s'.pc[t].Linking?
    ensures s'.entry < ENTRY_MAX
  {
    StartInv(s);
    RunKeeps(s, acts, s');
    LinkedInv(s', t);
  }

  /** Each queued slot carries its message, and what a receiver has copied out is its message,
      unchanged, as far as its buffer reaches. */
  lemma MessagesArriveUnchanged(s: MQ, acts: seq<Action>, s': MQ, t: Tid)
    requires Start(s) && Run(s, acts, s')
    ensures |s'.messages| == |s'.queue|
    ensures forall i :: 0 <= i < |s'.queue| ==> s'.queue[i] < |s'.body| && s'.messages[i] <= s'.body[s'.queue[i]]
    ensures t in s'.pc && s'.pc[t].Returning? ==> Delivered(s'.pc[t].out, s'.pc[t].size, s'.pc[t].msg, s'.msgSize)
  {
    StartInv(s);
    RunKeeps(s, acts, s');
    assert t in s'.pc ==> FlightPayload(s', s'.pc[t]);
  }

  /** Linking appends to the deque of messages; an urgent message goes in front. */
  lemma LinkOrder(s: MQ, acts: seq<Action>, s1: MQ, t: Tid)
    requires Start(s) && Run(s, acts, s1) && t in s1.pc && s1.pc[t].Linking?
    ensures Sound(s1)
    ensures var op, s2 := s1.pc[t].op, Finished(s1, t);
            if op.SendOp? then s2.messages == s1.messages + [op.buf] && s2.queue == s1.queue + [s1.pc[t].slot]
            else op.UrgentOp? && s2.messages == [op.buf] + s1.messages && s2.queue == [s1.pc[t].slot] + s1.queue
  {
    StartInv(s);
    RunKeeps(s, acts, s1);
    LinkEffect(s1, t);
  }

  lemma LinkEffect(s: MQ, t: Tid)
    requires Inv(s) && t in s.pc && s.pc[t].Linking?
    ensures var op, s2 := s.pc[t].op, Finished(s, t);
            if op.SendOp? then s2.messages == s.messages + [op.buf] && s2.queue == s.queue + [s.pc[t].slot]
            else op.UrgentOp? && s2.messages == [op.buf] + s.messages && s2.queue == [s.pc[t].slot] + s.queue
  {
    assert FlightPayload(s, s.pc[t]);
    var s1 := Linked(s, t);
    assert WakeReceiver(s1).messages == s1.messages && WakeReceiver(s1).queue == s1.queue;
  }

  /** A receive that finds a message takes the front one, with its slot; otherwise it waits or fails. */
  lemma ReceiveTakesFront(s: MQ, acts: seq<Action>, s1: MQ, t: Tid, size: nat, timeout: int)
    requires Start(s) && Run(s, acts, s1) && Enabled(s1, Enter(t, RecvOp(size), timeout))
    ensures Sound(s1) && |s1.messages| == |s1.queue|
    ensures var s2 := Step(s1, Enter(t, RecvOp(size), timeout));
            if s1.messages != [] then
              s2.pc[t] == Draining(s1.queue[0], size, s1.messages[0]) && s2.messages == s1.messages[1..] && s2.queue == s1.queue[1..]
            else if timeout != 0 then s2.pc[t] == Waiting(RecvOp(size), timeout > 0) && t in s2.receivers
            else s2 == s1
  {
    StartInv(s);
    RunKeeps(s, acts, s1);
    if s1.messages != [] {
      ReceiveFinds(s1, t, size, timeout > 0, timeout != 0);
    } else {
      ReceiveWaits(s1, t, size, timeout > 0, timeout != 0);
    }
  }

  lemma ReceiveFinds(s: MQ, t: Tid, size: nat, timed: bool, mayWait: bool)
    requires Inv(s) && t in s.pc && s.messages != []
    ensures var s' := Attempt(s, t, RecvOp(size), timed, mayWait);
            s'.pc[t] == Draining(s.queue[0], size, s.messages[0]) && s'.messages == s.messages[1..] && s'.queue == s.queue[1..]
  {
  }

  lemma ReceiveWaits(s: MQ, t: Tid, size: nat, timed: bool, mayWait: bool)
    requires Inv(s) && t in s.pc && s.pc[t].Idle? && s.messages == []
    ensures var s' := Attempt(s, t, RecvOp(size), timed, mayWait);
            if mayWait then s'.pc[t] == Waiting(RecvOp(size), timed) && t in s'.receivers else s' == s
  {
    assert s.pc[t := Idle] == s.pc;
    JoinedMembers(s.receivers, s.cfg, t);
  }
}
