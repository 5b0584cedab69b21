/**
 What the event calls do, in terms of flags, waiters and timers: one send is a walk along the
 wait list that hands each waiter what is left for it; and how the wait of a receive ends.
 */
module EventWaiting {
  import opened WaitList
  import opened EventSpec

  // ----- one send, waiter by waiter -----

  datatype Walk = Walk(receipts: seq<Receipt>, left: seq<Tid>, flags: Flags)

  /** All of the flags under AND, one of them under OR. */
  predicate Suffices(flags: Flags, asked: Flags, option: Option) {
    if option.and_ then asked * flags == asked else option.or_ && asked * flags != {}
  }

  /** The walk along the wait list: a waiter that is satisfied gets those of its flags that are there, and takes
      them away if it asked for CLEAR; the others stay in the list. */
  function Walked(flags: Flags, threads: map<Tid, Thread>, queue: seq<Tid>): (w: Walk)
    requires forall t :: t in queue ==> t in threads && threads[t].pc.Asleep?
  {
    if queue == [] then Walk([], [], flags)
    else
      var t := queue[0];
      var th := threads[t];
      var got := th.eventSet * flags;
      if Suffices(flags, th.eventSet, th.eventInfo) then
        var w := Walked(if th.eventInfo.clear then flags - got else flags, threads, queue[1..]);
        w.(receipts := [Receipt(t, th.pc.asked, th.eventInfo, got)] + w.receipts)
      else
        var w := Walked(flags, threads, queue[1..]);
        w.(left := [t] + w.left)
  }

  lemma {:induction false} WalkFrame(flags: Flags, threads: map<Tid, Thread>, threads': map<Tid, Thread>, queue: seq<Tid>)
    requires forall t :: t in queue ==> t in threads && threads[t].pc.Asleep? && t in threads' && threads'[t] == threads[t]
    ensures Walked(flags, threads', queue) == Walked(flags, threads, queue)
    decreases |queue|
  {
    if queue != [] {
      var th := threads[queue[0]];
      WalkFrame(flags, threads, threads', queue[1..]);
      WalkFrame(flags - th.eventSet * flags, threads, threads', queue[1..]);
    }
  }

  lemma SufficesIsMet(flags: Flags, asked: Flags, option: Option)
    ensures Met(flags, asked, option) <==> Suffices(flags, asked, option)
    ensures Met(flags, asked, option) && option.and_ ==> asked * flags == asked
  {
    assert asked <= flags <==> asked * flags == asked;
  }

  lemma FirstAlong(p: Scan)
    requires Passing(p) && p.ok && p.rest != []
    ensures Known(p.threads, p.rest) && p.rest[0] !in p.rest[1..]
    ensures forall t :: t in p.rest ==> t in p.kept + p.rest
  {
    SkipDistinct(p.kept, p.rest);
    assert forall t :: t in p.rest ==> t in p.kept + p.rest;
    assert p.rest[0] in p.rest;
  }

  /** The pass of the specification is that walk. */
  lemma {:induction false} FinishAlong(p: Scan)
    requires Passing(p) && p.ok && AllProper(p.threads, p.rest) && Known(p.threads, p.rest)
    ensures var w, p' := Walked(p.flags, p.threads, p.rest), Finish(p);
            && p'.ok && p'.rest == [] && p'.receipts == p.receipts + w.receipts && p'.kept == p.kept + w.left && p'.flags == w.flags
    decreases |p.rest|
  {
    if p.rest == [] {
    } else {
      FirstAlong(p);
      VisitKnown(p);
      VisitAlong(p);
      FirstAlongRest(Visit(p));
      FinishAlong(Visit(p));
    }
  }

  lemma FirstAlongRest(p: Scan)
    requires Passing(p)
    ensures Known(p.threads, p.rest)
  {
    assert forall t :: t in p.rest ==> t in p.kept + p.rest;
  }

  lemma VisitAlong(p: Scan)
    requires Passing(p) && p.ok && p.rest != [] && AllProper(p.threads, p.rest) && Known(p.threads, p.rest) && p.rest[0] !in p.rest[1..]
    ensures var p' := Visit(p);
            && p'.ok && p'.rest == p.rest[1..] && AllProper(p'.threads, p'.rest) && Known(p'.threads, p'.rest)
            && var w, w' := Walked(p.flags, p.threads, p.rest), Walked(p'.flags, p'.threads, p'.rest);
               p.receipts + w.receipts == p'.receipts + w'.receipts && p.kept + w.left == p'.kept + w'.left && w.flags == w'.flags
  {
    var t := p.rest[0];
    var th := p.threads[t];
    assert t in p.rest && Proper(th.eventInfo);
    SufficesIsMet(p.flags, th.eventSet, th.eventInfo);
    assert forall u :: u in p.rest[1..] ==> u in p.rest && u != t;
    WalkFrame(Visit(p).flags, p.threads, Visit(p).threads, p.rest[1..]);
  }

  // ----- every call -----

  /** The threads after the receipts were handed out. */
  ghost predicate HandedOut(threads: map<Tid, Thread>, receipts: seq<Receipt>, threads': map<Tid, Thread>) {
    && threads'.Keys == threads.Keys
    && (forall k :: 0 <= k < |receipts| ==>
          var r := receipts[k];
          r.t in threads && threads[r.t].pc.Asleep?
          && threads'[r.t] == Thread(r.got, threads[r.t].eventInfo, Woken(threads[r.t].pc.asked, NoError)))
    && forall t :: t in threads && !Receipted(receipts, t) ==> threads'[t] == threads[t]
  }

  ghost predicate SendDoes(s: Event, set_: Flags, o: Outcome)
    requires Known(s.threads, s.queue)
  {
    if set_ == {} then o == Outcome(s, Failed, [])
    else
      var w := Walked(s.flags + set_, s.threads, s.queue);
      && o.result == Done && o.receipts == w.receipts && o.next.flags == w.flags && o.next.queue == w.left
      && HandedOut(s.threads, w.receipts, o.next.threads)
  }

  /** A receive that its flags satisfy returns them, and takes them away under CLEAR; any other waits at its place,
      its timer armed exactly for a positive timeout, or fails for a timeout of 0. */
  ghost predicate RecvDoes(cfg: ListConfig, s: Event, t: Tid, set_: Flags, option: Option, timeout: int, o: Outcome)
    requires t in s.threads
  {
    if set_ == {} then o.next == s && o.result == Failed
    else if Suffices(s.flags, set_, option) then
      && o.result == Received(set_ * s.flags) && o.next.queue == s.queue
      && o.next.flags == (if option.clear then s.flags - set_ else s.flags)
      && o.next.threads == s.threads[t := Thread(set_ * s.flags, option, Idle)]
    else if timeout == 0 then o.next == s && o.result == TimedOut
    else
      && o.result == Suspended && o.next.flags == s.flags && Joins(s.queue, o.next.queue, cfg, t)
      && o.next.threads == s.threads[t := Thread(set_, option, Asleep(set_, timeout > 0))]
  }

  ghost predicate Does(cfg: ListConfig, s: Event, a: Action, o: Outcome)
    requires WellFormed(cfg, s) && Enabled(s, a)
  {
    match a
    case Send(set_) => SendDoes(s, set_, o)
    case Recv(t, set_, option, timeout) => RecvDoes(cfg, s, t, set_, option, timeout, o)
    case Resume(t) =>
      var th := s.threads[t];
      && o.next == s.(threads := s.threads[t := Thread(th.eventSet, th.eventInfo, Idle)])
      && o.result == (if th.pc.error == NoError then Received(th.eventSet) else if th.pc.error == TimeoutError then TimedOut else Failed)
    case TimerFires(t) =>
      var th := s.threads[t];
      o.next == Event(s.flags, s.threads[t := Thread(th.eventSet, th.eventInfo, Woken(th.pc.asked, TimeoutError))], Without(s.queue, t))
    case Reset =>
      && o.next.flags == {} && o.next.queue == [] && o.next.threads.Keys == s.threads.Keys
      && forall t :: t in s.threads ==>
           var th := s.threads[t];
           o.next.threads[t] == if t in s.queue then Thread(th.eventSet, th.eventInfo, Woken(th.pc.asked, GeneralError)) else th
  }

  lemma SendMeans(cfg: ListConfig, s: Event, set_: Flags)
    requires Inv(cfg, s)
    ensures SendDoes(s, set_, SendOutcome(s, set_))
  {
    if set_ != {} {
      var p := Opened(s, set_);
      assert p.kept + p.rest == s.queue;
      FinishAlong(p);
      SendFinishes(cfg, s, set_);
      var w := Walked(s.flags + set_, s.threads, s.queue);
      assert [] + w.receipts == w.receipts && [] + w.left == w.left;
      PassHandsOut(Finish(p), s.flags + set_, s.threads, s.queue);
    }
  }

  lemma PassHandsOut(p: Scan, start: Flags, threads: map<Tid, Thread>, queue: seq<Tid>)
    requires p.rest == [] && PassInv(p, start, threads, queue) && Known(threads, queue)
    ensures HandedOut(threads, p.receipts, p.threads)
  {
    forall k | 0 <= k < |p.receipts| ensures Settled(p, threads, queue, p.receipts[k]) {}
    forall t | t in threads && !Receipted(p.receipts, t) ensures p.threads[t] == threads[t] {
      if t in queue { assert t in p.kept + p.rest; }
    }
  }

  lemma RecvMeans(cfg: ListConfig, s: Event, t: Tid, set_: Flags, option: Option, timeout: int)
    requires WellFormed(cfg, s) && t in s.threads
    ensures RecvDoes(cfg, s, t, set_, option, timeout, RecvOutcome(cfg, s, t, set_, option, timeout))
  {
    SufficesIsMet(s.flags, set_, option);
    assert set_ * s.flags == s.flags * set_;
    EnqueuedJoins(s.queue, cfg.prio, t);
  }

  lemma StepMeans(cfg: ListConfig, s: Event, a: Action)
    requires Inv(cfg, s) && Enabled(s, a)
    ensures Does(cfg, s, a, Step(cfg, s, a))
  {
    match a
    case Send(set_) => SendMeans(cfg, s, set_);
    case Recv(t, set_, option, timeout) => RecvMeans(cfg, s, t, set_, option, timeout);
    case _ =>
  }

  // ----- how a wait ends -----

  /** While a thread waits, nothing touches its request or its timer; its wait ends with the timer, with a reset,
      or with a send after which it has all it asked for under AND and something of it under OR. */
  lemma WaitEnds(cfg: ListConfig, s: Event, a: Action, t: Tid)
    requires Inv(cfg, s) && Enabled(s, a) && t in s.threads && s.threads[t].pc.Asleep?
    ensures t in Step(cfg, s, a).next.threads
    ensures var th, th' := s.threads[t], Step(cfg, s, a).next.threads[t];
            if th'.pc.Asleep? then th' == th && a != TimerFires(t) && a != Reset
            else if a == TimerFires(t) then th' == Thread(th.eventSet, th.eventInfo, Woken(th.pc.asked, TimeoutError))
            else if a == Reset then th' == Thread(th.eventSet, th.eventInfo, Woken(th.pc.asked, GeneralError))
            else a.Send? && th'.pc == Woken(th.pc.asked, NoError) && th'.eventInfo == th.eventInfo
                 && th'.eventSet <= th.pc.asked && Suffices(th'.eventSet, th.pc.asked, th.eventInfo)
  {
    StepMeans(cfg, s, a);
    if a.Send? && a.set_ != {} { SendEnds(cfg, s, a.set_, t); }
  }

  lemma SendEnds(cfg: ListConfig, s: Event, set_: Flags, t: Tid)
    requires Inv(cfg, s) && set_ != {} && t in s.threads && s.threads[t].pc.Asleep?
    ensures t in SendOutcome(s, set_).next.threads
    ensures var th, th' := s.threads[t], SendOutcome(s, set_).next.threads[t];
            if th'.pc.Asleep? then th' == th
            else th'.pc == Woken(th.pc.asked, NoError) && th'.eventInfo == th.eventInfo
                 && th'.eventSet <= th.pc.asked && Suffices(th'.eventSet, th.pc.asked, th.eventInfo)
  {
    SendMeans(cfg, s, set_);
    SendReceipts(cfg, s, set_);
    SendFinishes(cfg, s, set_);
    var p := Finish(Opened(s, set_));
    if Receipted(p.receipts, t) {
      var k :| 0 <= k < |p.receipts| && p.receipts[k].t == t;
      assert Settled(p, s.threads, s.queue, p.receipts[k]) && Honest(p.receipts[k], s.flags + set_);
      SufficesIsMet(p.receipts[k].got, p.receipts[k].asked, p.receipts[k].option);
    }
  }

  /** A run all of whose states have `t` waiting. */
  ghost predicate WaitingRun(cfg: ListConfig, s: Event, acts: seq<Action>, s': Event, t: Tid)
    decreases |acts|
  {
    && t in s.threads && s.threads[t].pc.Asleep?
    && if acts == [] then s == s'
       else WellFormed(cfg, s) && Enabled(s, acts[0]) && WaitingRun(cfg, Step(cfg, s, acts[0]).next, acts[1..], s', t)
  }

  lemma {:induction false} LongWait(cfg: ListConfig, s: Event, acts: seq<Action>, s': Event, t: Tid)
    requires Inv(cfg, s) && WaitingRun(cfg, s, acts, s', t)
    ensures Inv(cfg, s') && t in s'.threads && s'.threads[t] == s.threads[t]
    decreases |acts|
  {
    if acts != [] {
      StepKeeps(cfg, s, acts[0]);
      WaitEnds(cfg, s, acts[0], t);
      LongWait(cfg, Step(cfg, s, acts[0]).next, acts[1..], s', t);
    }
  }

  /** A receive waits exactly when it asks for flags that do not suffice and its timeout is not 0. Then, whatever
      happens meanwhile, its timer can fire exactly when the timeout is positive; the receive then returns a timeout,
      with no flag taken, and the thread is on no list. */
  lemma ReceiveTimesOut(cfg: ListConfig, s: Event, t: Tid, set_: Flags, option: Option, timeout: int, acts: seq<Action>, s2: Event)
    requires Inv(cfg, s) && Enabled(s, Recv(t, set_, option, timeout))
    requires WaitingRun(cfg, Step(cfg, s, Recv(t, set_, option, timeout)).next, acts, s2, t)
    ensures set_ != {} && timeout != 0 && !Suffices(s.flags, set_, option)
    ensures Inv(cfg, s2) && (Enabled(s2, TimerFires(t)) <==> timeout > 0)
    ensures timeout > 0 ==>
              var s3 := Step(cfg, s2, TimerFires(t)).next;
              && Inv(cfg, s3) && t !in s3.queue && s3.flags == s2.flags && Enabled(s3, Resume(t))
              && Step(cfg, s3, Resume(t)).result == TimedOut && Step(cfg, s3, Resume(t)).next.flags == s2.flags
  {
    StepKeeps(cfg, s, Recv(t, set_, option, timeout));
    RecvWaits(cfg, s, t, set_, option, timeout);
    LongWait(cfg, Step(cfg, s, Recv(t, set_, option, timeout)).next, acts, s2, t);
    if timeout > 0 { TimeoutReturns(cfg, s2, t); }
  }

  lemma RecvWaits(cfg: ListConfig, s: Event, t: Tid, set_: Flags, option: Option, timeout: int)
    requires Inv(cfg, s) && Enabled(s, Recv(t, set_, option, timeout))
    ensures var threads := Step(cfg, s, Recv(t, set_, option, timeout)).next.threads;
            && t in threads
            && (threads[t].pc.Asleep? <==> set_ != {} && timeout != 0 && !Suffices(s.flags, set_, option))
            && (threads[t].pc.Asleep? ==> threads[t].pc == Asleep(set_, timeout > 0))
  {
    RecvMeans(cfg, s, t, set_, option, timeout);
  }

  lemma TimeoutReturns(cfg: ListConfig, s: Event, t: Tid)
    requires Inv(cfg, s) && Enabled(s, TimerFires(t))
    ensures var s3 := Step(cfg, s, TimerFires(t)).next;
            && Inv(cfg, s3) && t !in s3.queue && s3.flags == s.flags && Enabled(s3, Resume(t))
            && Step(cfg, s3, Resume(t)).result == TimedOut && Step(cfg, s3, Resume(t)).next.flags == s.flags
  {
    StepKeeps(cfg, s, TimerFires(t));
    WithoutMembers(s.queue, t);
  }
}
