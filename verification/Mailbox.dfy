/**
 The mailbox calls as the kernel performs them, on an array used as a ring. Each
 method is one interrupt-disabled section, proved to be the step of `MailboxSpec`
 it stands for.
 */
module Mailbox {
  import opened MailboxSpec
  import opened MailboxWaiting
  import opened WaitList

  class Mailbox {
    const pool: array<Mail>
    var inOffset: nat
    var outOffset: nat
    var entry: nat
    var senders: seq<Tid>
    var receivers: seq<Tid>
    var pc: map<Tid, Pc>
    const cfg: ListConfig

    ghost function View(): (s: MB)
      reads this, pool
    {
      MB(pool.Length, pool[..], inOffset, outOffset, entry, senders, receivers, pc, cfg)
    }

    ghost predicate Valid()
      reads this, pool
    {
      Inv(View())
    }

    /** The mails held, the next one to be received first. */
    ghost function Mails(): (q: seq<Mail>)
      requires Valid()
      reads this, pool
    {
      Contents(View())
    }

    constructor (pool: array<Mail>, cfg: ListConfig)
      requires pool.Length <= ENTRY_MAX
      ensures Valid() && Start(View()) && Mails() == [] && this.pool == pool && this.cfg == cfg
    {
      this.pool, this.cfg := pool, cfg;
      inOffset, outOffset, entry := 0, 0, 0;
      senders, receivers := [], [];
      pc := map t | t in cfg.prio :: Idle;
    }

    method ResumeReceiver()
      requires Queued(View())
      modifies this`receivers, this`pc
      ensures View() == WakeReceiver(old(View()))
    {
      if receivers != [] {
        var t := receivers[0];
        assert t in receivers;
        receivers := receivers[1..];
        pc := pc[t := Woken(pc[t].op, pc[t].timed, true)];
      }
    }

    method ResumeSender()
      requires Queued(View())
      modifies this`senders, this`pc
      ensures View() == WakeSender(old(View()))
    {
      if senders != [] {
        var t := senders[0];
        assert t in senders;
        senders := senders[1..];
        pc := pc[t := Woken(pc[t].op, pc[t].timed, true)];
      }
    }

    /** The lists hold contexts only, and every context has a priority. */
    ghost predicate Known(t: Tid)
      reads this
    {
      t in cfg.prio && (forall u :: u in receivers ==> u in cfg.prio) && forall u :: u in senders ==> u in cfg.prio
    }

    method Suspend(t: Tid, op: Op, timed: bool)
      requires Known(t)
      modifies this`senders, this`receivers, this`pc
      ensures View() == Block(old(View()), t, op, timed)
    {
      pc := pc[t := Waiting(op, timed)];
      if op.Recv? {
        receivers := WaitList.Suspend(receivers, cfg.prio, t, cfg.flag);
      } else {
        senders := WaitList.Suspend(senders, cfg.prio, t, cfg.flag);
      }
    }

    /** The wait loop of rt_mb_send_wait up to its return or its call of the scheduler. */
    method SendAttempt(t: Tid, value: Mail, timed: bool, mayWait: bool) returns (r: Result)
      requires Ring(View()) && Queued(View()) && t in pc && !pc[t].Waiting?
      modifies this, pool
      ensures (View(), r) == Attempt(old(View()), t, Send(value), timed, mayWait)
    {
      if entry == pool.Length {
        if !mayWait {
          pc := pc[t := Idle];
          return Full;
        }
        Suspend(t, Send(value), timed);
        return Suspended;
      }
      pool[inOffset] := value;
      inOffset := inOffset + 1;
      if inOffset >= pool.Length {
        inOffset := 0;
      }
      if entry < ENTRY_MAX {
        entry := entry + 1;
      }
      pc := pc[t := Idle];
      ResumeReceiver();
      r := Ok;
    }

    /** The wait loop of rt_mb_recv up to its return or its call of the scheduler. */
    method RecvAttempt(t: Tid, timed: bool, mayWait: bool) returns (r: Result)
      requires Ring(View()) && Queued(View()) && t in pc && !pc[t].Waiting?
      modifies this
      ensures (View(), r) == Attempt(old(View()), t, Recv, timed, mayWait)
    {
      if entry == 0 {
        if !mayWait {
          pc := pc[t := Idle];
          return Timeout;
        }
        Suspend(t, Recv, timed);
        return Suspended;
      }
      r := Got(pool[outOffset]);
      outOffset := outOffset + 1;
      if outOffset >= pool.Length {
        outOffset := 0;
      }
      if entry > 0 {
        entry := entry - 1;
      }
      pc := pc[t := Idle];
      ResumeSender();
    }

    method Enter(t: Tid, op: Op, timeout: int) returns (r: Result)
      requires Valid() && Enabled(View(), Action.Enter(t, op, timeout))
      modifies this, pool
      ensures Valid() && (View(), r) == StepResult(old(View()), Action.Enter(t, op, timeout))
      ensures Does(old(View()), Action.Enter(t, op, timeout), View(), r)
      ensures op.Recv? && old(Mails()) != [] ==> r == Got(old(Mails())[0]) && Mails() == old(Mails())[1..]
      ensures op.Send? && |old(Mails())| < pool.Length ==> r == Ok && Mails() == old(Mails()) + [op.value]
    {
      StepMeans(View(), Action.Enter(t, op, timeout));
      StepKeeps(View(), Action.Enter(t, op, timeout));
      StepRefinesDeque(View(), Action.Enter(t, op, timeout));
      match op {
        case Send(value) => r := SendAttempt(t, value, timeout > 0, timeout != 0);
        case Recv => r := RecvAttempt(t, timeout > 0, timeout != 0);
      }
    }

    method Retry(t: Tid, expired: bool) returns (r: Result)
      requires Valid() && Enabled(View(), Action.Retry(t, expired))
      modifies this, pool
      ensures Valid() && (View(), r) == StepResult(old(View()), Action.Retry(t, expired))
      ensures Does(old(View()), Action.Retry(t, expired), View(), r)
    {
      StepMeans(View(), Action.Retry(t, expired));
      StepKeeps(View(), Action.Retry(t, expired));
      var Woken(op, timed, ok) := pc[t];
      if !ok {
        pc := pc[t := Idle];
        return Failed;
      }
      match op {
        case Send(value) => r := SendAttempt(t, value, timed, !(timed && expired));
        case Recv => r := RecvAttempt(t, timed, !(timed && expired));
      }
    }

    /** rt_mb_urgent. */
    method Urgent(value: Mail) returns (r: Result)
      requires Valid()
      modifies this, pool
      ensures Valid() && (View(), r) == StepResult(old(View()), Action.Urgent(value))
      ensures Does(old(View()), Action.Urgent(value), View(), r)
      ensures |old(Mails())| < pool.Length ==> Mails() == [value] + old(Mails())
    {
      StepMeans(View(), Action.Urgent(value));
      StepKeeps(View(), Action.Urgent(value));
      StepRefinesDeque(View(), Action.Urgent(value));
      if entry == pool.Length {
        return Full;
      }
      StoreFirst(value);
      ResumeReceiver();
      r := Ok;
    }

    method StoreFirst(value: Mail)
      requires Ring(View()) && entry < pool.Length
      modifies this`outOffset, this`entry, pool
      ensures View() == PutFirst(old(View()), value)
    {
      if outOffset > 0 {
        outOffset := outOffset - 1;
      } else {
        outOffset := pool.Length - 1;
      }
      pool[outOffset] := value;
      entry := entry + 1;
    }

    method TimerFires(t: Tid)
      requires Valid() && Enabled(View(), Action.TimerFires(t))
      modifies this`senders, this`receivers, this`pc
      ensures Valid() && View() == Step(old(View()), Action.TimerFires(t))
      ensures Does(old(View()), Action.TimerFires(t), View(), Result.Suspended)
    {
      StepMeans(View(), Action.TimerFires(t));
      StepKeeps(View(), Action.TimerFires(t));
      senders, receivers := Without(senders, t), Without(receivers, t);
      pc := pc[t := Woken(pc[t].op, pc[t].timed, false)];
    }

    /** rt_mb_control with RT_IPC_CMD_RESET. */
    method Reset()
      requires Valid()
      modifies this
      ensures Valid() && View() == Step(old(View()), Action.Reset) && Mails() == []
      ensures Does(old(View()), Action.Reset, View(), Ok)
    {
      StepMeans(View(), Action.Reset);
      StepKeeps(View(), Action.Reset);
      pc, receivers, senders := AllWoken(pc), [], [];
      entry, inOffset, outOffset := 0, 0, 0;
    }
  }
}
