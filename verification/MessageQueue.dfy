/**
 The message-queue calls as the kernel performs them, on arrays of link fields and
 message bodies. Each method is one interrupt-disabled section, or the copy between
 two of them, proved to be the corresponding step of `MessageQueueSpec`.
 */
module MessageQueue {
  import opened MessageQueueSpec
  import opened MessageQueueWaiting
  import opened WaitList

  class MessageQueue {
    const msgSize: nat
    const next: array<int>
    const body: array<seq<Byte>>
    var free: int
    var head: int
    var tail: int
    var entry: nat
    var senders: seq<Tid>
    var receivers: seq<Tid>
    var pc: map<Tid, Pc>
    const cfg: ListConfig
    ghost var frees: seq<nat>
    ghost var queue: seq<nat>
    var messages: seq<seq<Byte>>  // history: the deque the queue stands for

    ghost function View(): (s: MQ)
      reads this, next, body
    {
      MQ(msgSize, next[..], body[..], free, head, tail, entry, senders, receivers, pc, cfg, frees, queue, messages)
    }

    ghost predicate Valid()
      reads this, next, body
    {
      Inv(View()) && Queued(View())
    }

    /** rt_mq_init: every slot is pushed on the free list. */
    constructor (msgSize: nat, maxMsgs: nat, cfg: ListConfig)
      requires maxMsgs <= ENTRY_MAX
      ensures Valid() && Start(View()) && next.Length == maxMsgs && fresh(next) && fresh(body) && this.cfg == cfg
    {
      this.msgSize, this.cfg := msgSize, cfg;
      next := new int[maxMsgs](_ => NULL);
      body := new seq<Byte>[maxMsgs](_ => seq(msgSize, _ => 0));
      free, head, tail, entry := NULL, NULL, NULL, 0;
      senders, receivers := [], [];
      pc := map t | t in cfg.prio :: Idle;
      frees, queue, messages := [], [], [];
      new;
      FillFreeList();
      StartInv(View());
    }

    method FillFreeList()
      requires free == NULL && frees == []
      modifies this`free, this`frees, next
      ensures free == next.Length - 1 && frees == Descending(next.Length)
      ensures forall i :: 0 <= i < next.Length ==> next[i] == i - 1
    {
      for temp := 0 to next.Length
        invariant free == temp - 1 && frees == Descending(temp)
        invariant forall i :: 0 <= i < temp ==> next[i] == i - 1
      {
        next[temp] := free;
        free := temp;
        frees := [temp] + frees;
      }
    }

    /** The wait loop up to the point where the call has a slot, gives up or is suspended. */
    method Attempt(t: Tid, op: Op, timed: bool, mayWait: bool)
      requires Sound(View()) && Known(t)
      modifies this
      ensures View() == MessageQueueSpec.Attempt(old(View()), t, op, timed, mayWait)
    {
      if op.RecvOp? {
        if entry == 0 {
          if mayWait { Suspend(t, op, timed); } else { pc := pc[t := Idle]; }
          return;
        }
        var msg := head;
        head := next[msg];
        if tail == msg {
          tail := NULL;
        }
        entry := entry - 1;
        pc := pc[t := Draining(msg, op.size, First(messages))];
        queue, messages := Rest(queue), Rest(messages);
      } else {
        if free == NULL {
          if mayWait && op.SendOp? { Suspend(t, op, timed); } else { pc := pc[t := Idle]; }
          return;
        }
        var msg := free;
        free := next[msg];
        pc := pc[t := Filling(op, msg)];
        frees := Rest(frees);
      }
    }

    /** The lists hold contexts only, and every context has a priority. */
    ghost predicate Known(t: Tid)
      reads this
    {
      t in cfg.prio && (forall u :: u in receivers ==> u in cfg.prio) && forall u :: u in senders ==> u in cfg.prio
    }

    method Suspend(t: Tid, op: Op, timed: bool)
      requires Known(t)
      modifies this`senders, this`receivers, this`pc
      ensures View() == Suspended(old(View()), t, op, timed)
    {
      pc := pc[t := Waiting(op, timed)];
      if op.RecvOp? {
        receivers := WaitList.Suspend(receivers, cfg.prio, t, cfg.flag);
      } else {
        senders := WaitList.Suspend(senders, cfg.prio, t, cfg.flag);
      }
    }

    method Enter(t: Tid, op: Op, timeout: int)
      requires Valid() && Enabled(View(), Action.Enter(t, op, timeout))
      modifies this
      ensures Valid() && View() == Step(old(View()), Action.Enter(t, op, timeout))
      ensures Does(old(View()), Action.Enter(t, op, timeout), View())
    {
      StepMeans(View(), Action.Enter(t, op, timeout));
      StepValid(View(), Action.Enter(t, op, timeout));
      Attempt(t, op, timeout > 0, timeout != 0);
    }

    /** After rt_schedule returns to a call that was suspended. */
    method Retry(t: Tid, expired: bool)
      requires Valid() && Enabled(View(), Action.Retry(t, expired))
      modifies this
      ensures Valid() && View() == Step(old(View()), Action.Retry(t, expired))
      ensures Does(old(View()), Action.Retry(t, expired), View())
    {
      StepMeans(View(), Action.Retry(t, expired));
      StepValid(View(), Action.Retry(t, expired));
      var Woken(op, timed, ok) := pc[t];
      if !ok {
        Withdraw(t);
      } else {
        Attempt(t, op, timed, !(timed && expired));
      }
    }

    method Withdraw(t: Tid)
      modifies this`pc
      ensures View() == old(View()).(pc := old(pc)[t := Idle])
    {
      pc := pc[t := Idle];
    }

    /** The copy between the critical sections. */
    method Copy(t: Tid)
      requires Valid() && Enabled(View(), Action.Copy(t))
      modifies this`pc, next, body
      ensures Valid() && View() == Step(old(View()), Action.Copy(t))
      ensures Does(old(View()), Action.Copy(t), View())
    {
      StepMeans(View(), Action.Copy(t));
      StepValid(View(), Action.Copy(t));
      CopyMessage(t);
    }

    method CopyMessage(t: Tid)
      requires Sound(View()) && Enabled(View(), Action.Copy(t))
      modifies this`pc, next, body
      ensures View() == Copied(old(View()), t)
    {
      match pc[t] {
        case Filling(op, slot) =>
          if op.SendOp? {
            next[slot] := NULL;
          }
          body[slot] := Overwritten(body[slot], op.buf);
          pc := pc[t := Linking(op, slot)];
        case Draining(slot, size, msg) =>
          pc := pc[t := Returning(slot, body[slot][..Min(size, msgSize)], size, msg)];
      }
    }

    method ResumeReceiver()
      modifies this`receivers, this`pc
      requires Queued(View())
      ensures View() == WakeReceiver(old(View()))
    {
      if receivers != [] {
        var t := receivers[0];
        assert t in receivers;
        receivers := receivers[1..];
        pc := pc[t := Woken(pc[t].op, pc[t].timed, true)];
      }
    }

    method ResumeSender()
      modifies this`senders, this`pc
      requires Queued(View())
      ensures View() == WakeSender(old(View()))
    {
      if senders != [] {
        var t := senders[0];
        assert t in senders;
        senders := senders[1..];
        pc := pc[t := Woken(pc[t].op, pc[t].timed, true)];
      }
    }

    /** Links the filled slot; returns without waking anyone if the entry count is exhausted. */
    method Link(t: Tid)
      requires Sound(View()) && t in pc && pc[t].Linking?
      modifies this, next
      ensures View() == Linked(old(View()), t)
    {
      var Linking(op, slot) := pc[t];
      if op.SendOp? {
        if tail != NULL {
          next[tail] := slot;
        }
        tail := slot;
        if head == NULL {
          head := slot;
        }
        queue, messages := queue + [slot], messages + [op.buf];
      } else {
        next[slot] := head;
        head := slot;
        if tail == NULL {
          tail := slot;
        }
        queue, messages := [slot] + queue, [op.buf] + messages;
      }
      if entry < ENTRY_MAX {
        entry := entry + 1;
      }
      pc := pc[t := Idle];
    }

    method Finish(t: Tid)
      requires Valid() && Enabled(View(), Action.Finish(t))
      modifies this, next
      ensures Valid() && View() == Step(old(View()), Action.Finish(t))
      ensures Does(old(View()), Action.Finish(t), View())
    {
      StepMeans(View(), Action.Finish(t));
      StepValid(View(), Action.Finish(t));
      if pc[t].Linking? {
        LinkAndWake(t);
      } else {
        GiveBack(t);
        ResumeSender();
      }
    }

    method LinkAndWake(t: Tid)
      requires Valid() && t in pc && pc[t].Linking?
      modifies this, next
      ensures View() == Finished(old(View()), t)
    {
      LinkedInv(View(), t);
      LinkedQueued(View(), t);
      Link(t);
      ResumeReceiver();
    }

    method GiveBack(t: Tid)
      requires Valid() && t in pc && pc[t].Returning?
      modifies this, next
      ensures View() == GaveBack(old(View()), t) && Queued(View())
    {
      GaveBackSound(View(), t);
      var slot := pc[t].slot;
      next[slot] := free;
      free := slot;
      frees := [slot] + frees;
      pc := pc[t := Idle];
    }

    method TimerFires(t: Tid)
      requires Valid() && Enabled(View(), Action.TimerFires(t))
      modifies this`senders, this`receivers, this`pc
      ensures Valid() && View() == Step(old(View()), Action.TimerFires(t))
      ensures Does(old(View()), Action.TimerFires(t), View())
    {
      StepMeans(View(), Action.TimerFires(t));
      StepValid(View(), Action.TimerFires(t));
      Expire(t);
    }

    method Expire(t: Tid)
      requires t in pc && pc[t].Waiting?
      modifies this`senders, this`receivers, this`pc
      ensures View() == old(View()).(senders := Without(old(senders), t), receivers := Without(old(receivers), t),
                                     pc := old(pc)[t := Woken(old(pc)[t].op, old(pc)[t].timed, false)])
    {
      senders, receivers := Without(senders, t), Without(receivers, t);
      pc := pc[t := Woken(pc[t].op, pc[t].timed, false)];
    }

    /** rt_mq_control with RT_IPC_CMD_RESET. */
    method Reset()
      requires Valid()
      modifies this, next
      ensures Valid() && View() == Step(old(View()), Action.Reset)
      ensures Does(old(View()), Action.Reset, View())
      ensures queue == [] && entry == 0
    {
      StepMeans(View(), Action.Reset);
      StepValid(View(), Action.Reset);
      ResetStarts(View());
      ghost var s0 := View().(entry := 0, senders := [], receivers := [], pc := AllWoken(pc));
      WakeEveryone();
      DrainQueue(s0);
    }

    method WakeEveryone()
      modifies this`pc, this`senders, this`receivers, this`entry
      ensures View() == old(View()).(entry := 0, senders := [], receivers := [], pc := AllWoken(old(pc)))
    {
      pc, senders, receivers, entry := AllWoken(pc), [], [], 0;
    }

    /** The loop of the reset, with the entry count already cleared. */
    method DrainQueue(ghost s0: MQ)
      requires View() == s0 && Core(s0) && entry == 0 && |s0.queue| <= |s0.next|
      modifies this, next
      ensures View() == DiscardAll(s0, |s0.next|)
    {
      ghost var rounds, s, target := next.Length, s0, DiscardAll(s0, |s0.next|);
      CoreHead(s);
      while head != NULL
        invariant View() == s && Core(s) && s.entry == 0 && |s.queue| <= rounds
        invariant DiscardAll(s, rounds) == target
        decreases rounds
      {
        s := DiscardRoundOf(s, rounds, target);
        rounds := rounds - 1;
      }
      DiscardRound(s, rounds);
    }

    method DiscardRoundOf(ghost s: MQ, ghost rounds: nat, ghost target: MQ) returns (ghost s': MQ)
      requires View() == s && Core(s) && s.entry == 0 && |s.queue| <= rounds && head != NULL
      requires DiscardAll(s, rounds) == target
      modifies this, next
      ensures View() == s' && Core(s') && s'.entry == 0 && rounds > 0 && |s'.queue| <= rounds - 1
      ensures DiscardAll(s', rounds - 1) == target
    {
      CoreHead(s);
      DiscardKeeps(s);
      DiscardRound(s, rounds);
      DiscardMessage();
      s' := Discard(s);
    }

    method DiscardMessage()
      requires Sound(View()) && head != NULL
      modifies this, next
      ensures View() == Discard(old(View()))
    {
      var msg := head;
      head := next[msg];
      if tail == msg {
        tail := NULL;
      }
      next[msg] := free;
      free := msg;
      frees, queue, messages := [msg] + frees, Rest(queue), Rest(messages);
    }
  }
}
