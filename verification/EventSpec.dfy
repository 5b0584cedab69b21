/**
 RT-Thread event sets as a state machine over the critical sections of
 rt_event_send, rt_event_recv and rt_event_control. A send wakes every waiter whose
 condition it meets in one pass over the wait list, while receivers that asked for
 CLEAR take flags away in the middle of that pass.
 */
module EventSpec {
  import opened WaitList

  /** A 32-bit event set as the set of its flag numbers: `|`, `&` and `& ~` on words are union,
      intersection and difference, and zero is the empty set. */
  type Flags = set<nat>

  /** The bits RT_EVENT_FLAG_AND, RT_EVENT_FLAG_OR and RT_EVENT_FLAG_CLEAR of the option byte. */
  datatype Option = Option(and_: bool, or_: bool, clear: bool)

  datatype Error = NoError | TimeoutError | GeneralError

  /** `asked` is the argument of the rt_event_recv call the thread is blocked in. */
  datatype Pc = Idle | Asleep(asked: Flags, timed: bool) | Woken(asked: Flags, error: Error)

  /** `eventSet` and `eventInfo` are the two fields a send looks at and overwrites. */
  datatype Thread = Thread(eventSet: Flags, eventInfo: Option, pc: Pc)

  datatype Event = Event(flags: Flags, threads: map<Tid, Thread>, queue: seq<Tid>)

  datatype Result = Done | Received(got: Flags) | Failed | Invalid | TimedOut | Suspended

  /** A satisfied request, immediate or after a wait. */
  datatype Receipt = Receipt(t: Tid, asked: Flags, option: Option, got: Flags)

  datatype Outcome = Outcome(next: Event, result: Result, receipts: seq<Receipt>)

  datatype Action =
    | Send(set_: Flags)
    | Recv(t: Tid, set_: Flags, option: Option, timeout: int)
    | Resume(t: Tid)
    | TimerFires(t: Tid)
    | Reset

  // ----- conditions -----

  /** AND wins when both bits are given. */
  predicate Met(flags: Flags, want: Flags, option: Option) {
    if option.and_ then want <= flags
    else option.or_ && want * flags != {}
  }

  predicate Proper(option: Option) {
    option.and_ || option.or_
  }

  lemma MetShrinks(flags: Flags, gone: Flags, want: Flags, option: Option)
    requires Met(flags - gone, want, option)
    ensures Met(flags, want, option)
  {
  }

  /** A condition that a smaller set no longer meets asked for one of the missing flags. */
  lemma MetLost(flags: Flags, gone: Flags, want: Flags, option: Option)
    requires Met(flags, want, option) && !Met(flags - gone, want, option)
    ensures want * gone != {}
  {
    if option.and_ {
      var x :| x in want && x !in flags - gone;
      assert x in want * gone;
    } else {
      var x :| x in want * flags;
      assert x !in want * (flags - gone);
      assert x in want * gone;
    }
  }

  // ----- the pass of rt_event_send over the wait list -----

  /** The pass has looked at `kept` and at the woken threads; `rest` is still ahead. */
  datatype Scan = Scan(flags: Flags, threads: map<Tid, Thread>, kept: seq<Tid>, rest: seq<Tid>,
                       receipts: seq<Receipt>, ok: bool)

  predicate Known(threads: map<Tid, Thread>, queue: seq<Tid>) {
    forall t :: t in queue ==> t in threads && threads[t].pc.Asleep?
  }

  function Matched(flags: Flags, th: Thread): Flags {
    if th.eventInfo.and_ then th.eventSet else th.eventSet * flags
  }

  function Woke(th: Thread, set_: Flags, error: Error): (th': Thread)
    requires th.pc.Asleep?
  {
    Thread(set_, th.eventInfo, Woken(th.pc.asked, error))
  }

  /** One turn of the loop. */
  function Visit(p: Scan): (p': Scan)
    requires p.rest != [] && p.ok && Known(p.threads, p.rest)
  {
    var t := p.rest[0];
    var th := p.threads[t];
    if !Proper(th.eventInfo) then
      p.(ok := false)
    else if Met(p.flags, th.eventSet, th.eventInfo) then
      var got := Matched(p.flags, th);
      Scan(if th.eventInfo.clear then p.flags - got else p.flags,
           p.threads[t := Woke(th, got, NoError)], p.kept, p.rest[1..],
           p.receipts + [Receipt(t, th.pc.asked, th.eventInfo, got)], true)
    else
      p.(kept := p.kept + [t], rest := p.rest[1..])
  }

  predicate Passing(p: Scan) {
    && Known(p.threads, p.kept + p.rest) && Distinct(p.kept + p.rest)
  }

  lemma VisitKnown(p: Scan)
    requires p.rest != [] && p.ok && Passing(p)
    ensures Passing(Visit(p))
  {
    var p' := Visit(p);
    if p' != p.(ok := false) && |p'.receipts| == |p.receipts| {
      assert p'.kept + p'.rest == p.kept + p.rest;
    } else if p' != p.(ok := false) {
      SkipDistinct(p.kept, p.rest);
    }
  }

  lemma SkipDistinct(kept: seq<Tid>, rest: seq<Tid>)
    requires rest != [] && Distinct(kept + rest)
    ensures Distinct(kept + rest[1..]) && rest[0] !in kept + rest[1..]
    ensures forall t :: t in kept + rest[1..] ==> t in kept + rest
  {
    var q, q' := kept + rest, kept + rest[1..];
    assert q[|kept|] == rest[0];
    forall i | 0 <= i < |q'| ensures q'[i] == q[if i < |kept| then i else i + 1] {
    }
  }

  function Finish(p: Scan): (p': Scan)
    requires Passing(p)
    ensures Passing(p') && (p'.rest == [] || !p'.ok)
    decreases |p.rest|, p.ok
  {
    if p.rest == [] || !p.ok then p
    else
      VisitKnown(p);
      assert Known(p.threads, p.rest) by {
        assert forall t :: t in p.rest ==> t in p.kept + p.rest;
      }
      Finish(Visit(p))
  }

  // ----- what the pass keeps -----

  function ClearedBy(receipts: seq<Receipt>): Flags {
    if receipts == [] then {}
    else
      var r := receipts[|receipts| - 1];
      ClearedBy(receipts[..|receipts| - 1]) + (if r.option.clear then r.got else {})
  }

  lemma {:induction false} ClearedBySomeone(receipts: seq<Receipt>, want: Flags) returns (k: nat)
    requires want * ClearedBy(receipts) != {}
    ensures k < |receipts| && receipts[k].option.clear && receipts[k].got * want != {}
  {
    var n := |receipts| - 1;
    if want * ClearedBy(receipts[..n]) != {} {
      k := ClearedBySomeone(receipts[..n], want);
    } else {
      k := n;
      OneOfTwo(want, ClearedBy(receipts[..n]), if receipts[n].option.clear then receipts[n].got else {});
    }
  }

  lemma OneOfTwo(want: Flags, a: Flags, b: Flags)
    requires want * (a + b) != {} && want * a == {}
    ensures b * want != {}
  {
  }

  /** A receipt hands over requested flags that were there, enough to meet the request. */
  predicate Honest(r: Receipt, start: Flags) {
    Met(r.got, r.asked, r.option) && r.got <= r.asked && r.got <= start
  }

  lemma MatchedHonest(start: Flags, gone: Flags, want: Flags, option: Option)
    requires Met(start - gone, want, option)
    ensures var got := if option.and_ then want else want * (start - gone);
            Met(got, want, option) && got <= want && got <= start - gone
  {
  }

  /** Flags that one receiver cleared reach nobody after it. */
  predicate Exclusive(receipts: seq<Receipt>) {
    forall i, j :: 0 <= i < j < |receipts| && receipts[i].option.clear ==> receipts[i].got * receipts[j].got == {}
  }

  predicate Spent(receipts: seq<Receipt>, flags: Flags) {
    forall k :: 0 <= k < |receipts| && receipts[k].option.clear ==> receipts[k].got * flags == {}
  }

  predicate Before(queue: seq<Tid>, n: nat, t: Tid)
    requires n <= |queue|
  {
    exists i :: 0 <= i < n && queue[i] == t
  }

  /** Somebody further ahead took away a flag that was asked for. */
  predicate Beaten(queue: seq<Tid>, j: nat, receipts: seq<Receipt>, want: Flags)
    requires j <= |queue|
  {
    exists k :: 0 <= k < |receipts| && receipts[k].option.clear && receipts[k].got * want != {}
                && Before(queue, j, receipts[k].t)
  }

  /** A thread still asleep was not satisfied by what it could see, and if the set at the start
      would have done, it was beaten to it. */
  predicate Overlooked(p: Scan, start: Flags, queue: seq<Tid>, n: nat, t: Tid)
    requires n <= |queue|
  {
    && t in p.threads && Proper(p.threads[t].eventInfo)
    && !Met(p.flags, p.threads[t].eventSet, p.threads[t].eventInfo)
    && exists j :: 0 <= j < n && queue[j] == t
         && (Met(start, p.threads[t].eventSet, p.threads[t].eventInfo) ==> Beaten(queue, j, p.receipts, p.threads[t].eventSet))
  }

  predicate Along(p: Scan, queue: seq<Tid>) {
    && |p.rest| <= |queue| && p.rest == queue[|queue| - |p.rest|..]
    && forall k :: 0 <= k < |p.receipts| ==> Before(queue, |queue| - |p.rest|, p.receipts[k].t)
  }

  predicate Tally(p: Scan, start: Flags) {
    && p.flags == start - ClearedBy(p.receipts)
    && Exclusive(p.receipts) && Spent(p.receipts, p.flags)
    && forall k :: 0 <= k < |p.receipts| ==> Honest(p.receipts[k], start)
  }

  predicate Sleeping(threads: map<Tid, Thread>, queue: seq<Tid>) {
    && (forall t :: t in queue ==> t in threads && threads[t].pc.Asleep?)
    && forall t :: t in threads && threads[t].pc.Asleep? ==> t in queue && threads[t].eventSet == threads[t].pc.asked
  }

  /** Threads change only by being woken, each by its own receipt. */
  predicate Accounted(p: Scan, threads: map<Tid, Thread>, queue: seq<Tid>) {
    && p.threads.Keys == threads.Keys
    && (forall t :: t in threads && t !in queue ==> p.threads[t] == threads[t])
    && (forall t :: t in p.kept + p.rest ==> t in queue && t in threads && p.threads[t] == threads[t])
    && (forall k :: 0 <= k < |p.receipts| ==> Settled(p, threads, queue, p.receipts[k]))
    && forall t :: t in queue ==> t in p.kept + p.rest || Receipted(p.receipts, t)
  }

  predicate Receipted(receipts: seq<Receipt>, t: Tid) {
    exists k :: 0 <= k < |receipts| && receipts[k].t == t
  }

  predicate Settled(p: Scan, threads: map<Tid, Thread>, queue: seq<Tid>, r: Receipt) {
    && r.t in queue && r.t !in p.kept + p.rest && r.t in threads && threads[r.t].pc.Asleep? && r.t in p.threads
    && p.threads[r.t] == Woke(threads[r.t], r.got, NoError)
    && r.asked == threads[r.t].pc.asked && r.option == threads[r.t].eventInfo
  }

  predicate PassInv(p: Scan, start: Flags, threads: map<Tid, Thread>, queue: seq<Tid>) {
    && p.ok && Passing(p) && Along(p, queue) && Tally(p, start) && Accounted(p, threads, queue)
    && forall t :: t in p.kept ==> Overlooked(p, start, queue, |queue| - |p.rest|, t)
  }

  predicate AllProper(threads: map<Tid, Thread>, queue: seq<Tid>) {
    forall t :: t in queue ==> t in threads && Proper(threads[t].eventInfo)
  }

  lemma PassStarts(flags: Flags, threads: map<Tid, Thread>, queue: seq<Tid>)
    requires Known(threads, queue) && Distinct(queue)
    ensures PassInv(Scan(flags, threads, [], queue, [], true), flags, threads, queue)
  {
    var p := Scan(flags, threads, [], queue, [], true);
    assert p.kept + p.rest == queue;
    KeepAll(flags);
  }

  lemma KeepAll(flags: Flags)
    ensures flags - {} == flags
  {
  }

  /** A visited thread stays asleep. */
  lemma VisitKeeps(p: Scan, start: Flags, threads: map<Tid, Thread>, queue: seq<Tid>)
    requires PassInv(p, start, threads, queue) && p.rest != [] && AllProper(threads, queue)
    requires !Met(p.flags, p.threads[p.rest[0]].eventSet, p.threads[p.rest[0]].eventInfo)
    ensures PassInv(Visit(p), start, threads, queue)
  {
    var p', t := Visit(p), p.rest[0];
    var n := |queue| - |p.rest|;
    assert queue[n] == t && t in p.kept + p.rest;
    assert p' == p.(kept := p.kept + [t], rest := p.rest[1..]);
    assert p'.kept + p'.rest == p.kept + p.rest;
    BeforeGrows(p, queue);
    KeepAccounted(p, p', threads, queue);
    KeptOverlooked(p, start, queue, t);
    forall u | u in p'.kept ensures Overlooked(p', start, queue, n + 1, u) {
      if u in p.kept {
        assert Overlooked(p, start, queue, n, u);
      }
    }
  }

  lemma KeepAccounted(p: Scan, p': Scan, threads: map<Tid, Thread>, queue: seq<Tid>)
    requires Accounted(p, threads, queue) && p'.kept + p'.rest == p.kept + p.rest
    requires p' == p.(kept := p'.kept, rest := p'.rest)
    ensures Accounted(p', threads, queue)
  {
    forall k | 0 <= k < |p'.receipts| ensures Settled(p', threads, queue, p'.receipts[k]) {
      assert Settled(p, threads, queue, p.receipts[k]);
    }
  }

  lemma BeforeGrows(p: Scan, queue: seq<Tid>)
    requires p.rest != [] && Along(p, queue)
    ensures forall k :: 0 <= k < |p.receipts| ==> Before(queue, |queue| - |p.rest| + 1, p.receipts[k].t)
    ensures Before(queue, |queue| - |p.rest| + 1, p.rest[0])
  {
    var n := |queue| - |p.rest|;
    assert queue[n] == p.rest[0];
    forall k | 0 <= k < |p.receipts| ensures Before(queue, n + 1, p.receipts[k].t) {
      assert Before(queue, n, p.receipts[k].t);
    }
  }

  lemma KeptOverlooked(p: Scan, start: Flags, queue: seq<Tid>, t: Tid)
    requires p.rest != [] && Along(p, queue) && p.flags == start - ClearedBy(p.receipts)
    requires t == p.rest[0] && t in p.threads && Proper(p.threads[t].eventInfo)
    requires !Met(p.flags, p.threads[t].eventSet, p.threads[t].eventInfo)
    ensures Overlooked(p, start, queue, |queue| - |p.rest| + 1, t)
  {
    var n := |queue| - |p.rest|;
    var want := p.threads[t].eventSet;
    assert queue[n] == t;
    if Met(start, want, p.threads[t].eventInfo) {
      MetLost(start, ClearedBy(p.receipts), want, p.threads[t].eventInfo);
      var k := ClearedBySomeone(p.receipts, want);
      assert Before(queue, n, p.receipts[k].t);
      assert Beaten(queue, n, p.receipts, want);
    }
  }

  function ReceiptOf(p: Scan): Receipt
    requires p.rest != [] && Known(p.threads, p.rest)
  {
    var th := p.threads[p.rest[0]];
    Receipt(p.rest[0], th.pc.asked, th.eventInfo, Matched(p.flags, th))
  }

  /** A visited thread is woken. */
  lemma VisitWakes(p: Scan, start: Flags, threads: map<Tid, Thread>, queue: seq<Tid>)
    requires PassInv(p, start, threads, queue) && p.rest != [] && AllProper(threads, queue) && Sleeping(threads, queue)
    requires p.rest[0] in p.threads && Met(p.flags, p.threads[p.rest[0]].eventSet, p.threads[p.rest[0]].eventInfo)
    ensures PassInv(Visit(p), start, threads, queue)
  {
    var p', t := Visit(p), p.rest[0];
    var n := |queue| - |p.rest|;
    assert t in p.kept + p.rest;
    VisitKnown(p);
    WakeAlong(p, queue);
    WakeTally(p, start);
    WakeAccounted(p, threads, queue);
    forall u | u in p'.kept ensures Overlooked(p', start, queue, n + 1, u) {
      WakeOverlooked(p, start, queue, u);
    }
  }

  lemma WakeAlong(p: Scan, queue: seq<Tid>)
    requires p.rest != [] && p.ok && Known(p.threads, p.rest) && Along(p, queue) && Proper(p.threads[p.rest[0]].eventInfo)
    requires Met(p.flags, p.threads[p.rest[0]].eventSet, p.threads[p.rest[0]].eventInfo)
    ensures Along(Visit(p), queue)
  {
    BeforeGrows(p, queue);
    var p' := Visit(p);
    assert p'.receipts == p.receipts + [ReceiptOf(p)] && p'.rest == p.rest[1..];
  }

  lemma WakeTally(p: Scan, start: Flags)
    requires p.rest != [] && p.ok && Known(p.threads, p.rest) && Tally(p, start) && Proper(p.threads[p.rest[0]].eventInfo)
    requires p.threads[p.rest[0]].eventSet == p.threads[p.rest[0]].pc.asked
    requires Met(p.flags, p.threads[p.rest[0]].eventSet, p.threads[p.rest[0]].eventInfo)
    ensures Tally(Visit(p), start)
  {
    var r := ReceiptOf(p);
    MatchedHonest(start, ClearedBy(p.receipts), r.asked, r.option);
    assert Honest(r, start) && r.got <= p.flags;
    PushReceipt(p.receipts, p.flags, start, r);
    var p' := Visit(p);
    assert p'.receipts == p.receipts + [r] && p'.flags == if r.option.clear then p.flags - r.got else p.flags;
  }

  lemma PushReceipt(receipts: seq<Receipt>, flags: Flags, start: Flags, r: Receipt)
    requires flags == start - ClearedBy(receipts) && Exclusive(receipts) && Spent(receipts, flags) && r.got <= flags
    ensures var flags', more := if r.option.clear then flags - r.got else flags, receipts + [r];
            flags' == start - ClearedBy(more) && Exclusive(more) && Spent(more, flags')
  {
    var flags', more := if r.option.clear then flags - r.got else flags, receipts + [r];
    assert more[..|receipts|] == receipts;
    TakeMore(start, ClearedBy(receipts), r.got);
    forall k | 0 <= k < |receipts| && receipts[k].option.clear
      ensures receipts[k].got * r.got == {} && receipts[k].got * flags' == {}
    {
      Apart(receipts[k].got, flags, r.got);
    }
  }

  lemma TakeMore(start: Flags, gone: Flags, got: Flags)
    ensures start - gone - got == start - (gone + got)
    ensures start - (gone + {}) == start - gone
    ensures got * (start - gone - got) == {}
  {
  }

  lemma Apart(old_: Flags, flags: Flags, got: Flags)
    requires old_ * flags == {} && got <= flags
    ensures old_ * got == {} && old_ * (flags - got) == {}
  {
  }

  lemma WakeAccounted(p: Scan, threads: map<Tid, Thread>, queue: seq<Tid>)
    requires p.rest != [] && p.ok && Passing(p) && Known(p.threads, p.rest) && Accounted(p, threads, queue)
    requires Proper(p.threads[p.rest[0]].eventInfo)
    requires Met(p.flags, p.threads[p.rest[0]].eventSet, p.threads[p.rest[0]].eventInfo)
    ensures Accounted(Visit(p), threads, queue)
  {
    var p', r := Visit(p), ReceiptOf(p);
    assert p'.receipts == p.receipts + [r];
    SkipDistinct(p.kept, p.rest);
    SkipMembers(p.kept, p.rest);
    assert Settled(p', threads, queue, r);
    forall k | 0 <= k < |p.receipts| ensures Settled(p', threads, queue, p'.receipts[k]) {
      assert p'.receipts[k] == p.receipts[k];
      assert Settled(p, threads, queue, p.receipts[k]);
    }
    forall u | u in queue ensures u in p'.kept + p'.rest || Receipted(p'.receipts, u) {
      if u !in p.kept + p.rest {
        ReceiptedGrows(p.receipts, p'.receipts, u);
      } else if u !in p'.kept + p'.rest {
        assert p'.receipts[|p.receipts|].t == u;
      }
    }
  }

  lemma SkipMembers(kept: seq<Tid>, rest: seq<Tid>)
    requires rest != []
    ensures forall u :: u in kept + rest <==> u == rest[0] || u in kept + rest[1..]
  {
    assert rest == [rest[0]] + rest[1..];
  }

  lemma ReceiptedGrows(receipts: seq<Receipt>, more: seq<Receipt>, t: Tid)
    requires Receipted(receipts, t) && receipts <= more
    ensures Receipted(more, t)
  {
    var k :| 0 <= k < |receipts| && receipts[k].t == t;
    assert more[k] == receipts[k];
  }

  lemma WakeOverlooked(p: Scan, start: Flags, queue: seq<Tid>, u: Tid)
    requires p.rest != [] && p.ok && Passing(p) && Known(p.threads, p.rest) && Along(p, queue) && u in p.kept
    requires Proper(p.threads[p.rest[0]].eventInfo)
    requires Met(p.flags, p.threads[p.rest[0]].eventSet, p.threads[p.rest[0]].eventInfo)
    requires Overlooked(p, start, queue, |queue| - |p.rest|, u)
    ensures Overlooked(Visit(p), start, queue, |queue| - |p.rest| + 1, u)
  {
    var p' := Visit(p);
    SkipDistinct(p.kept, p.rest);
    assert u in p.kept + p.rest[1..];
    var th := p.threads[u];
    assert p'.threads[u] == th;
    if Met(p'.flags, th.eventSet, th.eventInfo) {
      MetShrinks(p.flags, p'.receipts[|p.receipts|].got, th.eventSet, th.eventInfo);
    }
    var j :| 0 <= j < |queue| - |p.rest| && queue[j] == u
         && (Met(start, th.eventSet, th.eventInfo) ==> Beaten(queue, j, p.receipts, th.eventSet));
    if Met(start, th.eventSet, th.eventInfo) {
      BeatenGrows(queue, j, p.receipts, p'.receipts, th.eventSet);
    }
  }

  lemma BeatenGrows(queue: seq<Tid>, j: nat, receipts: seq<Receipt>, more: seq<Receipt>, want: Flags)
    requires j <= |queue| && Beaten(queue, j, receipts, want) && receipts <= more
    ensures Beaten(queue, j, more, want)
  {
    var k :| 0 <= k < |receipts| && receipts[k].option.clear && receipts[k].got * want != {}
             && Before(queue, j, receipts[k].t);
    assert more[k] == receipts[k];
  }

  lemma {:induction false} FinishKeeps(p: Scan, start: Flags, threads: map<Tid, Thread>, queue: seq<Tid>)
    requires PassInv(p, start, threads, queue) && AllProper(threads, queue) && Sleeping(threads, queue)
    ensures PassInv(Finish(p), start, threads, queue) && Finish(p).rest == []
    decreases |p.rest|
  {
    if p.rest != [] {
      assert p.rest[0] in p.kept + p.rest;
      if Met(p.flags, p.threads[p.rest[0]].eventSet, p.threads[p.rest[0]].eventInfo) {
        VisitWakes(p, start, threads, queue);
      } else {
        VisitKeeps(p, start, threads, queue);
      }
      FinishKeeps(Visit(p), start, threads, queue);
    }
  }

  // ----- the steps -----

  ghost predicate Enabled(s: Event, a: Action) {
    match a
    case Send(_) => true
    case Recv(t, set_, option, _) => t in s.threads && s.threads[t].pc.Idle? && (set_ == {} || Proper(option))
    case Resume(t) => t in s.threads && s.threads[t].pc.Woken?
    case TimerFires(t) => t in s.threads && s.threads[t].pc.Asleep? && s.threads[t].pc.timed
    case Reset => true
  }

  function Opened(s: Event, set_: Flags): Scan {
    Scan(s.flags + set_, s.threads, [], s.queue, [], true)
  }

  predicate WellFormed(cfg: ListConfig, s: Event) {
    && Known(s.threads, s.queue) && Distinct(s.queue) && s.threads.Keys <= cfg.prio.Keys
  }

  function SendOutcome(s: Event, set_: Flags): Outcome
    requires Known(s.threads, s.queue) && Distinct(s.queue)
  {
    if set_ == {} then Outcome(s, Failed, [])
    else
      assert [] + s.queue == s.queue;
      var p := Finish(Opened(s, set_));
      Outcome(Event(p.flags, p.threads, p.kept + p.rest), if p.ok then Done else Invalid, p.receipts)
  }

  function RecvOutcome(cfg: ListConfig, s: Event, t: Tid, set_: Flags, option: Option, timeout: int): Outcome
    requires WellFormed(cfg, s) && t in s.threads
  {
    if set_ == {} then
      Outcome(s, Failed, [])
    else if Met(s.flags, set_, option) then
      var got := s.flags * set_;
      Outcome(Event(if option.clear then s.flags - set_ else s.flags, s.threads[t := Thread(got, option, Idle)], s.queue),
              Received(got), [Receipt(t, set_, option, got)])
    else if timeout == 0 then
      Outcome(s, TimedOut, [])
    else
      Outcome(Event(s.flags, s.threads[t := Thread(set_, option, Asleep(set_, timeout > 0))],
                    Enqueued(s.queue, cfg.prio, t, cfg.flag)),
              Suspended, [])
  }

  /** The call of a woken thread returns. */
  function ResumeOutcome(s: Event, t: Tid): Outcome
    requires t in s.threads && s.threads[t].pc.Woken?
  {
    var th := s.threads[t];
    Outcome(s.(threads := s.threads[t := th.(pc := Idle)]),
            match th.pc.error
            case NoError => Received(th.eventSet)
            case TimeoutError => TimedOut
            case GeneralError => Failed,
            [])
  }

  function AllWoken(threads: map<Tid, Thread>, queue: seq<Tid>): (ths: map<Tid, Thread>)
    requires Known(threads, queue)
  {
    map t | t in threads :: if t in queue then Woke(threads[t], threads[t].eventSet, GeneralError) else threads[t]
  }

  function Step(cfg: ListConfig, s: Event, a: Action): (o: Outcome)
    requires WellFormed(cfg, s) && Enabled(s, a)
  {
    match a
    case Send(set_) => SendOutcome(s, set_)
    case Recv(t, set_, option, timeout) => RecvOutcome(cfg, s, t, set_, option, timeout)
    case Resume(t) => ResumeOutcome(s, t)
    case TimerFires(t) =>
      Outcome(s.(queue := Without(s.queue, t),
                 threads := s.threads[t := Woke(s.threads[t], s.threads[t].eventSet, TimeoutError)]), Done, [])
    case Reset => Outcome(Event({}, AllWoken(s.threads, s.queue), []), Done, [])
  }

  // ----- what every step keeps -----

  /** What a successful call may hand over. */
  predicate Delivered(got: Flags, asked: Flags, option: Option) {
    got != {} && got <= asked && Met(got, asked, option)
  }

  predicate Fed(th: Thread) {
    match th.pc
    case Idle => true
    case Asleep(asked, _) => asked != {}
    case Woken(asked, error) => error == NoError ==> Delivered(th.eventSet, asked, th.eventInfo)
  }

  /** No thread sleeps on a condition that the flags meet. */
  predicate NoneSatisfied(s: Event) {
    forall t :: t in s.queue ==> t in s.threads && !Met(s.flags, s.threads[t].eventSet, s.threads[t].eventInfo)
  }

  predicate Inv(cfg: ListConfig, s: Event) {
    && WellFormed(cfg, s) && Sleeping(s.threads, s.queue) && AllProper(s.threads, s.queue) && NoneSatisfied(s)
    && forall t :: t in s.threads ==> Fed(s.threads[t])
  }

  lemma MatchedDelivered(flags: Flags, asked: Flags, option: Option)
    requires asked != {} && Met(flags, asked, option)
    ensures Delivered(flags * asked, asked, option)
  {
    if option.and_ {
      assert flags * asked == asked;
    } else {
      assert asked * (flags * asked) == flags * asked == asked * flags;
    }
  }

  lemma SendFinishes(cfg: ListConfig, s: Event, set_: Flags)
    requires Inv(cfg, s) && set_ != {}
    ensures var p := Finish(Opened(s, set_));
            p.rest == [] && PassInv(p, s.flags + set_, s.threads, s.queue)
            && SendOutcome(s, set_) == Outcome(Event(p.flags, p.threads, p.kept), Done, p.receipts)
  {
    PassStarts(s.flags + set_, s.threads, s.queue);
    FinishKeeps(Opened(s, set_), s.flags + set_, s.threads, s.queue);
    var p := Finish(Opened(s, set_));
    assert p.kept + p.rest == p.kept;
  }

  lemma PassSplits(p: Scan, threads: map<Tid, Thread>, queue: seq<Tid>)
    requires p.rest == [] && Accounted(p, threads, queue)
    ensures forall t :: t in p.kept ==> t in queue && t in threads && t in p.threads && p.threads[t] == threads[t]
    ensures forall t :: t in queue ==> (t in p.kept <==> !Receipted(p.receipts, t))
  {
    assert p.kept + p.rest == p.kept;
    forall t | t in queue && Receipted(p.receipts, t) ensures t !in p.kept {
      var k :| 0 <= k < |p.receipts| && p.receipts[k].t == t;
      assert Settled(p, threads, queue, p.receipts[k]);
    }
  }

  /** The flags after one send: receipts are honest, a cleared flag serves one receiver only, and
      what remains is what was there and was sent, less what was cleared. */
  lemma SendReceipts(cfg: ListConfig, s: Event, set_: Flags)
    requires Inv(cfg, s) && set_ != {}
    ensures var o := SendOutcome(s, set_);
            && o.result == Done && o.next.flags == (s.flags + set_) - ClearedBy(o.receipts)
            && Exclusive(o.receipts) && Spent(o.receipts, o.next.flags)
            && forall k :: 0 <= k < |o.receipts| ==> Honest(o.receipts[k], s.flags + set_)
  {
    SendFinishes(cfg, s, set_);
  }

  /** The waiters of one send: each is either still queued or woken with a receipt; nobody
      satisfied is left behind, and a waiter left behind although the flags would have sufficed
      was beaten by one ahead of it. */
  lemma SendPass(cfg: ListConfig, s: Event, set_: Flags)
    requires Inv(cfg, s) && set_ != {}
    ensures var o := SendOutcome(s, set_);
            && (forall t :: t in s.queue ==> (t in o.next.queue <==> !Receipted(o.receipts, t)))
            && forall t :: t in o.next.queue ==> t in s.queue && StillWaits(s, o, set_, t)
  {
    SendFinishes(cfg, s, set_);
    PassLeaves(s, Finish(Opened(s, set_)), set_);
  }

  lemma PassLeaves(s: Event, p: Scan, set_: Flags)
    requires p.rest == [] && PassInv(p, s.flags + set_, s.threads, s.queue)
    ensures forall t :: t in s.queue ==> (t in p.kept <==> !Receipted(p.receipts, t))
    ensures var o := Outcome(Event(p.flags, p.threads, p.kept), Done, p.receipts);
            forall t :: t in p.kept ==> t in s.queue && StillWaits(s, o, set_, t)
  {
    PassSplits(p, s.threads, s.queue);
    var o := Outcome(Event(p.flags, p.threads, p.kept), Done, p.receipts);
    forall t | t in p.kept ensures StillWaits(s, o, set_, t) {
      OverlookedWaits(s, p, set_, t);
    }
  }

  lemma OverlookedWaits(s: Event, p: Scan, set_: Flags, t: Tid)
    requires Overlooked(p, s.flags + set_, s.queue, |s.queue|, t)
    requires t in s.threads && p.threads[t] == s.threads[t]
    ensures StillWaits(s, Outcome(Event(p.flags, p.threads, p.kept), Done, p.receipts), set_, t)
  {
    var start, th := s.flags + set_, s.threads[t];
    var j :| 0 <= j < |s.queue| && s.queue[j] == t
             && (Met(start, th.eventSet, th.eventInfo) ==> Beaten(s.queue, j, p.receipts, th.eventSet));
  }

  predicate StillWaits(s: Event, o: Outcome, set_: Flags, t: Tid) {
    && t in s.threads && t in o.next.threads && o.next.threads[t] == s.threads[t]
    && !Met(o.next.flags, s.threads[t].eventSet, s.threads[t].eventInfo)
    && exists j :: 0 <= j < |s.queue| && s.queue[j] == t
         && (Met(s.flags + set_, s.threads[t].eventSet, s.threads[t].eventInfo) ==>
               Beaten(s.queue, j, o.receipts, s.threads[t].eventSet))
  }

  lemma SendKeeps(cfg: ListConfig, s: Event, set_: Flags)
    requires Inv(cfg, s)
    ensures Inv(cfg, SendOutcome(s, set_).next)
  {
    if set_ != {} {
      SendFinishes(cfg, s, set_);
      PassKeeps(cfg, s, Finish(Opened(s, set_)), s.flags + set_);
    }
  }

  lemma PassKeeps(cfg: ListConfig, s: Event, p: Scan, start: Flags)
    requires Inv(cfg, s) && p.rest == [] && PassInv(p, start, s.threads, s.queue)
    ensures Inv(cfg, Event(p.flags, p.threads, p.kept))
  {
    SendThreads(s, p, start);
    KeptUnmet(p, start, s.queue);
    assert p.kept + p.rest == p.kept;
  }

  lemma KeptUnmet(p: Scan, start: Flags, queue: seq<Tid>)
    requires forall t :: t in p.kept ==> Overlooked(p, start, queue, |queue|, t)
    ensures AllProper(p.threads, p.kept) && NoneSatisfied(Event(p.flags, p.threads, p.kept))
  {
    forall t | t in p.kept
      ensures t in p.threads && Proper(p.threads[t].eventInfo) && !Met(p.flags, p.threads[t].eventSet, p.threads[t].eventInfo)
    {
      assert Overlooked(p, start, queue, |queue|, t);
    }
  }

  lemma SendThreads(s: Event, p: Scan, start: Flags)
    requires Known(s.threads, s.queue) && Sleeping(s.threads, s.queue) && forall t :: t in s.threads ==> Fed(s.threads[t])
    requires p.rest == [] && PassInv(p, start, s.threads, s.queue)
    ensures Sleeping(p.threads, p.kept) && forall t :: t in p.threads ==> Fed(p.threads[t])
  {
    assert p.kept + p.rest == p.kept;
    forall t | t in p.threads
      ensures Fed(p.threads[t]) && (p.threads[t].pc.Asleep? ==> t in p.kept && p.threads[t].eventSet == p.threads[t].pc.asked)
    {
      SendThread(s, p, start, t);
    }
  }

  lemma SendThread(s: Event, p: Scan, start: Flags, t: Tid)
    requires Known(s.threads, s.queue) && Sleeping(s.threads, s.queue) && forall u :: u in s.threads ==> Fed(s.threads[u])
    requires p.rest == [] && Accounted(p, s.threads, s.queue) && Tally(p, start) && t in p.threads && p.kept + p.rest == p.kept
    ensures Fed(p.threads[t]) && (p.threads[t].pc.Asleep? ==> t in p.kept && p.threads[t].eventSet == p.threads[t].pc.asked)
  {
    if t in s.queue && t !in p.kept {
      assert Receipted(p.receipts, t);
      var k :| 0 <= k < |p.receipts| && p.receipts[k].t == t;
      assert Settled(p, s.threads, s.queue, p.receipts[k]);
      assert Honest(p.receipts[k], start);
      HonestDelivered(p.receipts[k], start);
    }
  }

  lemma HonestDelivered(r: Receipt, start: Flags)
    requires Honest(r, start) && r.asked != {}
    ensures Delivered(r.got, r.asked, r.option)
  {
  }

  lemma RecvKeeps(cfg: ListConfig, s: Event, t: Tid, set_: Flags, option: Option, timeout: int)
    requires Inv(cfg, s) && Enabled(s, Recv(t, set_, option, timeout))
    ensures Inv(cfg, RecvOutcome(cfg, s, t, set_, option, timeout).next)
  {
    var s' := RecvOutcome(cfg, s, t, set_, option, timeout).next;
    assert t !in s.queue;
    if set_ != {} && Met(s.flags, set_, option) {
      forall u | u in s.queue ensures !Met(s'.flags, s'.threads[u].eventSet, s'.threads[u].eventInfo) {
        if Met(s'.flags, s.threads[u].eventSet, s.threads[u].eventInfo) && option.clear {
          MetShrinks(s.flags, set_, s.threads[u].eventSet, s.threads[u].eventInfo);
        }
      }
    } else if set_ != {} && timeout != 0 {
      EnqueuedMembers(s.queue, cfg.prio, t, cfg.flag);
    }
  }

  lemma ResetKeeps(cfg: ListConfig, s: Event)
    requires Inv(cfg, s)
    ensures Inv(cfg, Step(cfg, s, Reset).next)
  {
  }

  lemma StepKeeps(cfg: ListConfig, s: Event, a: Action)
    requires Inv(cfg, s) && Enabled(s, a)
    ensures Inv(cfg, Step(cfg, s, a).next)
  {
    match a
    case Send(set_) => SendKeeps(cfg, s, set_);
    case Recv(t, set_, option, timeout) => RecvKeeps(cfg, s, t, set_, option, timeout);
    case Resume(t) =>
    case TimerFires(t) => WithoutMembers(s.queue, t);
    case Reset => ResetKeeps(cfg, s);
  }

  // ----- flags are spent once -----

  function One(b: bool): nat {
    if b then 1 else 0
  }

  /** How many receivers took flag `f` away. */
  function Taken(receipts: seq<Receipt>, f: nat): nat {
    if receipts == [] then 0
    else
      var r := receipts[|receipts| - 1];
      Taken(receipts[..|receipts| - 1], f) + One(r.option.clear && f in r.got)
  }

  lemma {:induction false} TakenOnce(receipts: seq<Receipt>, f: nat)
    requires Exclusive(receipts)
    ensures Taken(receipts, f) == One(f in ClearedBy(receipts))
  {
    if receipts != [] {
      var n := |receipts| - 1;
      TakenOnce(receipts[..n], f);
      if f in ClearedBy(receipts[..n]) {
        NotTakenAgain(receipts, n, f);
      }
    }
  }

  lemma NotTakenAgain(receipts: seq<Receipt>, n: nat, f: nat)
    requires Exclusive(receipts) && n < |receipts| && f in ClearedBy(receipts[..n])
    ensures f !in receipts[n].got
  {
    assert f in {f} * ClearedBy(receipts[..n]);
    var k := ClearedBySomeone(receipts[..n], {f});
    assert f in receipts[k].got;
    assert receipts[k].got * receipts[n].got == {};
  }

  lemma {:induction false} TakenApart(a: seq<Receipt>, b: seq<Receipt>, f: nat)
    ensures Taken(a + b, f) == Taken(a, f) + Taken(b, f)
  {
    if b == [] {
      assert a + b == a;
    } else {
      var n := |b| - 1;
      assert (a + b)[..|a| + n] == a + b[..n];
      TakenApart(a, b[..n], f);
    }
  }

  lemma {:induction false} ClearedByHonest(receipts: seq<Receipt>, start: Flags)
    requires forall k :: 0 <= k < |receipts| ==> Honest(receipts[k], start)
    ensures ClearedBy(receipts) <= start
  {
    if receipts != [] {
      ClearedByHonest(receipts[..|receipts| - 1], start);
    }
  }

  function Sent(a: Action, f: nat): nat {
    One(a.Send? && f in a.set_)
  }

  lemma StepSpends(cfg: ListConfig, s: Event, a: Action, f: nat)
    requires Inv(cfg, s) && Enabled(s, a)
    ensures var o := Step(cfg, s, a);
            Taken(o.receipts, f) + One(f in o.next.flags) <= One(f in s.flags) + Sent(a, f)
  {
    if a.Send? && a.set_ != {} {
      SendReceipts(cfg, s, a.set_);
      var o := SendOutcome(s, a.set_);
      TakenOnce(o.receipts, f);
      ClearedByHonest(o.receipts, s.flags + a.set_);
    } else if a.Recv? {
      var o := RecvOutcome(cfg, s, a.t, a.set_, a.option, a.timeout);
      if o.receipts != [] {
        assert o.receipts[..0] == [];
      }
    }
  }

  // ----- runs -----

  ghost predicate Start(cfg: ListConfig, s: Event) {
    s.flags == {} && s.queue == [] && s.threads.Keys <= cfg.prio.Keys && forall t :: t in s.threads ==> s.threads[t].pc.Idle?
  }

  ghost predicate Run(cfg: ListConfig, s: Event, acts: seq<Action>, s': Event, receipts: seq<Receipt>)
    decreases |acts|
  {
    if acts == [] then s == s' && receipts == []
    else
      && WellFormed(cfg, s) && Enabled(s, acts[0])
      && var o := Step(cfg, s, acts[0]);
         o.receipts <= receipts && Run(cfg, o.next, acts[1..], s', receipts[|o.receipts|..])
  }

  function Sends(acts: seq<Action>, f: nat): nat {
    if acts == [] then 0 else Sent(acts[0], f) + Sends(acts[1..], f)
  }

  lemma {:induction false} RunKeeps(cfg: ListConfig, s: Event, acts: seq<Action>, s': Event, receipts: seq<Receipt>, f: nat)
    requires Inv(cfg, s) && Run(cfg, s, acts, s', receipts)
    ensures Inv(cfg, s') && Taken(receipts, f) + One(f in s'.flags) <= One(f in s.flags) + Sends(acts, f)
    decreases |acts|
  {
    if acts != [] {
      var o := Step(cfg, s, acts[0]);
      StepKeeps(cfg, s, acts[0]);
      StepSpends(cfg, s, acts[0], f);
      var rest := receipts[|o.receipts|..];
      RunKeeps(cfg, o.next, acts[1..], s', rest, f);
      assert receipts == o.receipts + rest;
      TakenApart(o.receipts, rest, f);
    }
  }

  /** Over every run: no thread sleeps on a condition that the flags meet, and the branch of
      rt_event_send for a waiter without AND or OR is never reached. */
  lemma NoSatisfiedWaiterSleeps(cfg: ListConfig, s: Event, acts: seq<Action>, s': Event, receipts: seq<Receipt>)
    requires Start(cfg, s) && Run(cfg, s, acts, s', receipts)
    ensures forall t :: t in s'.threads && s'.threads[t].pc.Asleep? ==>
              t in s'.queue && !Met(s'.flags, s'.threads[t].pc.asked, s'.threads[t].eventInfo)
    ensures WellFormed(cfg, s') && forall set_: Flags :: set_ != {} ==> SendOutcome(s', set_).result == Done
  {
    RunKeeps(cfg, s, acts, s', receipts, 0);
    forall set_: Flags | set_ != {} ensures SendOutcome(s', set_).result == Done {
      SendReceipts(cfg, s', set_);
    }
  }

  /** Over every run, each raising of a flag is taken by at most one receiver that clears. */
  lemma FlagsSpentOnce(cfg: ListConfig, s: Event, acts: seq<Action>, s': Event, receipts: seq<Receipt>, f: nat)
    requires Start(cfg, s) && Run(cfg, s, acts, s', receipts)
    ensures Taken(receipts, f) + One(f in s'.flags) <= Sends(acts, f)
  {
    RunKeeps(cfg, s, acts, s', receipts, f);
  }

  /** Over every run, a receive that succeeds, at once or after a wait, returns flags it asked
      for, enough to meet its condition: all of them under AND. */
  lemma ReceiveReturns(cfg: ListConfig, s: Event, acts: seq<Action>, s': Event, receipts: seq<Receipt>, a: Action)
    requires Start(cfg, s) && Run(cfg, s, acts, s', receipts)
    requires WellFormed(cfg, s') && Enabled(s', a) && Step(cfg, s', a).result.Received?
    ensures var got := Step(cfg, s', a).result.got;
            && (a.Recv? ==> Delivered(got, a.set_, a.option) && (a.option.and_ ==> got == a.set_))
            && (a.Resume? ==>
                  var th := s'.threads[a.t];
                  Delivered(got, th.pc.asked, th.eventInfo) && (th.eventInfo.and_ ==> got == th.pc.asked))
  {
    RunKeeps(cfg, s, acts, s', receipts, 0);
    match a
    case Recv(t, set_, option, timeout) => MatchedDelivered(s'.flags, set_, option);
    case Resume(t) => assert Fed(s'.threads[t]);
    case _ =>
  }
}
