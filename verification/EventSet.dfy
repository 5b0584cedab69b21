/**
 The event calls as the kernel performs them. Each method is one interrupt-disabled
 section, proved to be the step of `EventSpec` it stands for.
 */
module EventSet {
  import opened EventSpec
  import opened EventWaiting
  import opened WaitList

  class EventObject {
    const cfg: ListConfig
    var flags: Flags
    var queue: seq<Tid>
    var threads: map<Tid, Thread>

    ghost function View(): (s: Event)
      reads this
    {
      Event(flags, threads, queue)
    }

    ghost predicate Valid()
      reads this
    {
      Inv(cfg, View())
    }

    constructor (cfg: ListConfig, contexts: set<Tid>)
      requires contexts <= cfg.prio.Keys
      ensures Valid() && Start(cfg, View()) && this.cfg == cfg && threads.Keys == contexts
    {
      this.cfg := cfg;
      flags, queue := {}, [];
      threads := map t | t in contexts :: Thread({}, Option(false, false, false), Idle);
    }

    /** The pass `p` has come to place `n` of the wait list. */
    ghost predicate At(p: Scan, n: nat, ok: bool)
      reads this
    {
      n <= |queue| && Passing(p) && p == Scan(flags, threads, queue[..n], queue[n..], p.receipts, ok)
    }

    /** The search of rt_event_send through the wait list: `n` stands at the next waiter. */
    method WakeSatisfied() returns (ok: bool, ghost receipts: seq<Receipt>)
      requires Known(threads, queue) && Distinct(queue)
      modifies this`flags, this`queue, this`threads
      ensures var p := Finish(Opened(old(View()), {}));
              View() == Event(p.flags, p.threads, p.kept + p.rest) && ok == p.ok && receipts == p.receipts
    {
      ghost var p := Opened(View(), {});
      assert p.kept + p.rest == queue;
      ghost var end := Finish(p);
      ok := true;
      var n: nat := 0;
      while n < |queue| && ok
        invariant At(p, n, ok) && Finish(p) == end
        decreases |p.rest|, ok
      {
        ok, n, p := Turn(n, p);
      }
      receipts := p.receipts;
      assert queue == p.kept + p.rest;
    }

    /** One turn of that search. */
    method Turn(n: nat, ghost p: Scan) returns (ok: bool, n': nat, ghost p': Scan)
      requires At(p, n, true) && n < |queue|
      modifies this`flags, this`queue, this`threads
      ensures At(p', n', ok) && Finish(p') == Finish(p)
      ensures |p'.rest| < |p.rest| || (|p'.rest| == |p.rest| && !ok)
    {
      assert p.rest[0] in p.kept + p.rest && forall u :: u in p.rest ==> u in p.kept + p.rest;
      VisitKnown(p);
      p' := Visit(p);
      ok, n' := Look(n, p);
      Halves(p'.kept, p'.rest);
    }

    method Look(n: nat, ghost p: Scan) returns (ok: bool, n': nat)
      requires At(p, n, true) && n < |queue| && Known(p.threads, p.rest)
      modifies this`flags, this`queue, this`threads
      ensures var p' := Visit(p);
              && flags == p'.flags && threads == p'.threads && ok == p'.ok
              && queue == p'.kept + p'.rest && n' == |p'.kept|
    {
      var t := queue[n];
      assert t == p.rest[0] && t in p.rest && p.kept + p.rest == queue;
      ok, n' := true, n;
      var th := threads[t];
      if !Proper(th.eventInfo) {
        ok := false;
      } else if Met(flags, th.eventSet, th.eventInfo) {
        var got := if th.eventInfo.and_ then th.eventSet else th.eventSet * flags;
        if th.eventInfo.clear {
          flags := flags - got;
        }
        threads := threads[t := Thread(got, th.eventInfo, Woken(th.pc.asked, NoError))];
        queue := queue[..n] + queue[n + 1..];
      } else {
        n' := n + 1;
      }
    }

    method SendAll(set_: Flags) returns (r: Result, ghost receipts: seq<Receipt>)
      requires Known(threads, queue) && Distinct(queue)
      modifies this`flags, this`queue, this`threads
      ensures Outcome(View(), r, receipts) == SendOutcome(old(View()), set_)
    {
      if set_ == {} {
        return Failed, [];
      }
      ghost var s := View();
      flags := flags + set_;
      assert Opened(View(), {}) == Opened(s, set_);
      var ok;
      ok, receipts := WakeSatisfied();
      r := if ok then Done else Invalid;
    }

    /** rt_event_send. */
    method Send(set_: Flags) returns (r: Result, ghost receipts: seq<Receipt>)
      requires Valid()
      modifies this`flags, this`queue, this`threads
      ensures Outcome(View(), r, receipts) == Step(cfg, old(View()), EventSpec.Send(set_)) && Valid()
      ensures r == if set_ == {} then Failed else Done
      ensures SendDoes(old(View()), set_, Outcome(View(), r, receipts))
    {
      SendMeans(cfg, View(), set_);
      ghost var s := View();
      SendKeeps(cfg, s, set_);
      SendSucceeds(cfg, s, set_);
      r, receipts := SendAll(set_);
    }

    /** rt_event_recv up to its return or its call of the scheduler. */
    method Recv(t: Tid, set_: Flags, option: Option, timeout: int) returns (r: Result)
      requires Valid() && Enabled(View(), EventSpec.Recv(t, set_, option, timeout))
      modifies this`flags, this`queue, this`threads
      ensures var o := Step(cfg, old(View()), EventSpec.Recv(t, set_, option, timeout)); View() == o.next && r == o.result
      ensures RecvDoes(cfg, old(View()), t, set_, option, timeout, Outcome(View(), r, []))
      ensures Valid()
      ensures r.Received? ==> Delivered(r.got, set_, option)
    {
      RecvMeans(cfg, View(), t, set_, option, timeout);
      StepKeeps(cfg, View(), EventSpec.Recv(t, set_, option, timeout));
      if set_ == {} {
        return Failed;
      }
      var met := if option.and_ then flags * set_ == set_ else if option.or_ then flags * set_ != {} else false;
      MetByWords(flags, set_, option);
      if met {
        MatchedDelivered(flags, set_, option);
        r := Received(flags * set_);
        threads := threads[t := Thread(flags * set_, option, Idle)];
        if option.clear {
          flags := flags - set_;
        }
      } else if timeout == 0 {
        r := TimedOut;
      } else {
        threads := threads[t := Thread(set_, option, Asleep(set_, timeout > 0))];
        queue := WaitList.Suspend(queue, cfg.prio, t, cfg.flag);
        r := Suspended;
      }
    }

    /** The rest of rt_event_recv, once the thread runs again. */
    method Resume(t: Tid) returns (r: Result)
      requires Valid() && Enabled(View(), EventSpec.Resume(t))
      modifies this`threads
      ensures var o := Step(cfg, old(View()), EventSpec.Resume(t)); View() == o.next && r == o.result
      ensures Does(cfg, old(View()), EventSpec.Resume(t), Outcome(View(), r, []))
      ensures Valid()
      ensures r.Received? ==> Delivered(r.got, old(threads[t].pc.asked), old(threads[t].eventInfo))
    {
      StepKeeps(cfg, View(), EventSpec.Resume(t));
      var th := threads[t];
      assert Fed(th);
      threads := threads[t := th.(pc := Idle)];
      match th.pc.error {
        case NoError => r := Received(th.eventSet);
        case TimeoutError => r := TimedOut;
        case GeneralError => r := Failed;
      }
    }

    /** _thread_timeout, for a thread that waits here. */
    method TimerFires(t: Tid)
      requires Valid() && Enabled(View(), EventSpec.TimerFires(t))
      modifies this`queue, this`threads
      ensures View() == Step(cfg, old(View()), EventSpec.TimerFires(t)).next && Valid()
      ensures Does(cfg, old(View()), EventSpec.TimerFires(t), Outcome(View(), Done, []))
    {
      StepKeeps(cfg, View(), EventSpec.TimerFires(t));
      threads := threads[t := Woke(threads[t], threads[t].eventSet, TimeoutError)];
      queue := Without(queue, t);
    }

    /** _ipc_list_resume_all: the head of the list is woken with an error until the list is empty. */
    method ResumeAll()
      requires Known(threads, queue) && Distinct(queue)
      modifies this`queue, this`threads
      ensures queue == [] && threads == AllWoken(old(threads), old(queue))
    {
      ghost var end := AllWoken(threads, queue);
      while queue != []
        invariant Known(threads, queue) && Distinct(queue) && AllWoken(threads, queue) == end
        decreases |queue|
      {
        WakeHead(threads, queue);
        var t := queue[0];
        assert t in queue;
        threads := threads[t := Woke(threads[t], threads[t].eventSet, GeneralError)];
        queue := queue[1..];
      }
      assert threads == end;
    }

    /** rt_event_control with RT_IPC_CMD_RESET. */
    method Reset()
      requires Valid()
      modifies this`flags, this`queue, this`threads
      ensures View() == Step(cfg, old(View()), EventSpec.Reset).next && Valid()
      ensures Does(cfg, old(View()), EventSpec.Reset, Outcome(View(), Done, []))
    {
      StepKeeps(cfg, View(), EventSpec.Reset);
      ResumeAll();
      flags := {};
    }
  }

  lemma SendSucceeds(cfg: ListConfig, s: Event, set_: Flags)
    requires Inv(cfg, s)
    ensures SendOutcome(s, set_).result == if set_ == {} then Failed else Done
  {
    if set_ != {} { SendFinishes(cfg, s, set_); }
  }

  lemma Halves(kept: seq<Tid>, rest: seq<Tid>)
    ensures (kept + rest)[..|kept|] == kept && (kept + rest)[|kept|..] == rest
  {
  }

  /** The word tests of rt_event_recv and rt_event_send agree. */
  lemma MetByWords(flags: Flags, set_: Flags, option: Option)
    ensures Met(flags, set_, option) <==>
              if option.and_ then flags * set_ == set_ else if option.or_ then flags * set_ != {} else false
  {
    assert flags * set_ == set_ * flags;
    assert set_ <= flags <==> flags * set_ == set_;
  }

  lemma WakeHead(threads: map<Tid, Thread>, queue: seq<Tid>)
    requires Known(threads, queue) && Distinct(queue) && queue != []
    ensures var t := queue[0];
            && t in threads && threads[t].pc.Asleep?
            && var ths := threads[t := Woke(threads[t], threads[t].eventSet, GeneralError)];
               Known(ths, queue[1..]) && Distinct(queue[1..]) && AllWoken(ths, queue[1..]) == AllWoken(threads, queue)
  {
    var t := queue[0];
    assert t in queue && t !in queue[1..];
    assert forall u :: u in queue <==> u == t || u in queue[1..];
  }
}
