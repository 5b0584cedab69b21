/**
 What each step of the AT engine does, in terms of its queues, its items and its timers;
 which priority is served first; and what the verdict on a command says about its course.
 */
module AtTurns {
  import opened AtSpec
  import opened WaitList

  // ----- the handlers -----

  /** The response has been searched in this poll or is known by its length. */
  ghost predicate Searches(s: Engine, m: Match, seen: Seen) {
    if s.mask.len == s.recvCnt then m == s.mask
    else
      && m.len == s.recvCnt && (m.prefix <==> s.mask.prefix || seen.prefix) && (m.error <==> s.mask.error || seen.error)
      && (m.suffix <==> s.mask.suffix || (m.prefix && seen.suffix))
  }

  /** A line goes out; the response, its match and the timer start afresh. */
  ghost predicate Transmits(s: Engine, s': Engine, id: Id)
    requires id in s.items
  {
    var attr := s.items[id].attr;
    && s' == s.(sent := s.sent + multiset{id}, recvCnt := 0, mask := s'.mask, env := Env(s.env.i, s.env.j, Recv, s.env.params, s.clock))
    && s'.mask == Match(!attr.hasPrefix, !attr.hasSuffix, false, 0)
  }

  /** The item is finished and called back with `code`. What the environment of the handler then holds
      does not matter. */
  ghost predicate Replies(s: Engine, s': Engine, id: Id, code: Code)
    requires id in s.items
  {
    s' == s.(items := s.items[id := Item(s.items[id].kind, s.items[id].attr, Finish, code)], calls := s.calls + multiset{id},
             env := s'.env, mask := s'.mask)
  }

  /** Nothing but the environment of the handler changes, to `env`. */
  ghost predicate GoesOn(s: Engine, s': Engine, env: Env) {
    s' == s.(env := env, mask := s'.mask)
  }

  /** More than `ms` have passed since the timer was set. */
  predicate Overdue(s: Engine, ms: nat) {
    s.clock > s.env.timer + ms
  }

  ghost predicate Pauses(s: Engine, s': Engine) {
    s' == if Overdue(s, 100) then s.(env := Env(s.env.i, s.env.j, Send, s.env.params, s.env.timer)) else s
  }

  /** One poll of a command. An error is retried until the retries are used up; a match ends the
      command even so; a late response is retried like an error. */
  ghost predicate CommandDoes(s: Engine, id: Id, seen: Seen, s': Engine, done: bool)
    requires id in s.items
  {
    var e, attr := s.env, s.items[id].attr;
    match e.stage
    case Send => !done && Transmits(s, s', id)
    case Recv =>
      && Searches(s, s'.mask, seen)
      && if s'.mask.error && e.i >= attr.retry then done && Replies(s, s', id, Error)
         else if s'.mask.suffix then done && Replies(s, s', id, Ok)
         else if s'.mask.error then !done && GoesOn(s, s', Env(e.i + 1, e.j, Retry, e.params, s.clock))
         else if !Overdue(s, attr.timeout) then !done && GoesOn(s, s', e)
         else if e.i >= attr.retry then done && Replies(s, s', id, Timeout)
         else !done && GoesOn(s, s', Env(e.i + 1, e.j, Send, e.params, e.timer))
    case Retry => !done && Pauses(s, s')
  }

  /** One poll of a list of lines. A line that is answered is counted as a success; one that fails
      `retry` times is passed over; silence ends the list. */
  ghost predicate LinesDo(s: Engine, id: Id, seen: Seen, s': Engine, done: bool)
    requires id in s.items && s.items[id].kind.Multiline?
  {
    var e, it := s.env, s.items[id];
    match e.stage
    case Send =>
      if e.i >= it.kind.lines then done && Replies(s, s', id, if e.params then Ok else Error)
      else !done && Transmits(s, s', id)
    case Recv =>
      if seen.suffix then !done && GoesOn(s, s', Env(e.i + 1, 0, Send, true, e.timer))
      else if seen.error && e.j + 1 >= it.attr.retry then !done && GoesOn(s, s', Env(e.i + 1, 0, Send, e.params, e.timer))
      else if seen.error then !done && GoesOn(s, s', Env(e.i, e.j + 1, Retry, e.params, s.clock))
      else if Overdue(s, 500) then done && Replies(s, s', id, Timeout)
      else !done && s' == s
    case Retry => !done && Pauses(s, s')
  }

  ghost predicate WorkDoes(s: Engine, id: Id, work: Work, s': Engine, done: bool)
    requires id in s.items
  {
    && done == work.done
    && match work.finish
       case None => s' == s
       case Some(code) => s' == s.(items := s.items[id := Item(s.items[id].kind, s.items[id].attr, Finish, code)])
  }

  lemma CommandMeans(s: Engine, id: Id, seen: Seen)
    requires id in s.items
    ensures var r := RunCommand(s, id, seen); CommandDoes(s, id, seen, r.0, r.1)
  {
  }

  lemma LinesMean(s: Engine, id: Id, seen: Seen)
    requires id in s.items && s.items[id].kind.Multiline?
    ensures var r := RunLines(s, id, seen); LinesDo(s, id, seen, r.0, r.1)
  {
  }

  // ----- every step -----

  /** The test of a poll: with nothing at the cursor the head of the high queue is taken up, or with
      that queue empty the head of the low one. */
  ghost predicate Tests(s: Engine, s': Engine) {
    if s.cursor.None? && s.hlist == [] && s.llist == [] then s' == s
    else
      && s'.cursor.Some? && s'.cursor.value in s'.items
      && (s'.phase == if s'.items[s'.cursor.value].stat in {Finish, Abort} then Ending else Serving)
      && if s.cursor.Some? then s' == s.(phase := s'.phase)
         else TakesUp(s, s', if s.hlist != [] then s.hlist[0] else s.llist[0])
  }

  ghost predicate TakesUp(s: Engine, s': Engine, id: Id) {
    && id in s.items
    && s' == s.(cursor := Some(id), phase := s'.phase, starts := s.starts + [id], recvCnt := 0,
                env := Env(0, 0, Send, s.items[id].attr.params, s.clock),
                items := s.items[id := s.items[id].(stat := if s.items[id].stat.Ready? then Run else s.items[id].stat)])
  }

  /** The handler has its turn; an item that is done and not marked otherwise is finished. */
  ghost predicate Serves(s: Engine, seen: Seen, work: Work, s': Engine) {
    && s.cursor.Some? && s.cursor.value in s.items
    && var id := s.cursor.value;
       exists h, done :: Handles(s, id, seen, work, h, done) && id in h.items && s' == Passed(h, id, done)
  }

  ghost predicate Handles(s: Engine, id: Id, seen: Seen, work: Work, h: Engine, done: bool)
    requires id in s.items
  {
    match s.items[id].kind
    case Command => CommandDoes(s, id, seen, h, done)
    case Multiline(_) => LinesDo(s, id, seen, h, done)
    case General => WorkDoes(s, id, work, h, done)
  }

  /** After the handler: an item that is done is about to be recycled, finished if nothing else marked it. */
  function Passed(h: Engine, id: Id, done: bool): Engine
    requires id in h.items
  {
    var it := h.items[id];
    h.(items := if done && it.stat.Run? then h.items[id := Item(it.kind, it.attr, Finish, it.code)] else h.items,
       phase := if done then Ending else Idle)
  }

  /** The item at the cursor, the head of its queue, leaves. */
  ghost predicate Leaves(s: Engine, s': Engine) {
    && s.cursor.Some? && s.cursor.value in s.items
    && s' == s.(cursor := None, phase := Idle, listCnt := s'.listCnt, hlist := s'.hlist, llist := s'.llist)
    && s'.listCnt == s.listCnt - 1
    && if s.items[s.cursor.value].attr.high then s.hlist == [s.cursor.value] + s'.hlist && s'.llist == s.llist
       else s.llist == [s.cursor.value] + s'.llist && s'.hlist == s.hlist
  }

  ghost predicate Aborts(s: Engine, s': Engine) {
    && s' == s.(items := s'.items) && s'.items.Keys == s.items.Keys
    && forall id :: id in s.items ==>
         s'.items[id] == if id in s.hlist || id in s.llist then Item(s.items[id].kind, s.items[id].attr, Abort, Aborted) else s.items[id]
  }

  ghost predicate Submits(s: Engine, kind: Kind, attr: Attr, s': Engine) {
    && s.pending > 0
    && s' == s.(pending := s.pending - 1, next := s.next + 1, listCnt := s.listCnt + 1,
                items := s.items[s.next := Item(kind, attr, Ready, Ok)], hlist := s'.hlist, llist := s'.llist)
    && if attr.high then s'.hlist == s.hlist + [s.next] && s'.llist == s.llist
       else s'.llist == s.llist + [s.next] && s'.hlist == s.hlist
  }

  ghost predicate Does(cfg: Config, s: Engine, a: Action, s': Engine) {
    match a
    case Create => s' == s.(pending := s.pending + if s.listCnt <= 32 then 1 else 0)
    case Submit(kind, attr) => Submits(s, kind, attr, s')
    case Receive(size) => s' == s.(recvCnt := if size == 0 || s.recvCnt + size < cfg.bufsize then s.recvCnt + size else size)
    case Elapse(ms) => s' == s.(clock := s.clock + ms)
    case PollTest => Tests(s, s')
    case PollServe(seen, work) => Serves(s, seen, work, s')
    case PollEnd => Leaves(s, s')
    case AbortAll => Aborts(s, s')
  }

  lemma ServeMeans(s: Engine, seen: Seen, work: Work)
    requires s.cursor.Some? && s.cursor.value in s.items
    ensures Serves(s, seen, work, Served(s, s.cursor.value, seen, work))
  {
    var id := s.cursor.value;
    var r := Handle(s, id, seen, work);
    HandleMeans(s, id, seen, work);
    assert Served(s, id, seen, work) == Passed(r.0, id, r.1);
  }

  lemma HandleMeans(s: Engine, id: Id, seen: Seen, work: Work)
    requires id in s.items
    ensures var r := Handle(s, id, seen, work); Handles(s, id, seen, work, r.0, r.1)
  {
    match s.items[id].kind
    case Command => CommandMeans(s, id, seen);
    case Multiline(_) => LinesMean(s, id, seen);
    case General =>
  }

  lemma EndMeans(cfg: Config, s: Engine)
    requires Inv(cfg, s) && s.phase.Ending?
    ensures Leaves(s, Step(cfg, s, PollEnd))
  {
    QueueLeaves(cfg, s);
  }

  lemma QueueLeaves(cfg: Config, s: Engine)
    requires Queues(cfg, s) && s.cursor.Some?
    ensures Leaves(s, Recycle(s, s.cursor.value))
  {
    RecycledRest(s, s.cursor.value);
    HeadLeaves(cfg, s);
    RecycleQueues(cfg, s);
  }

  lemma RecycledRest(s: Engine, id: Id)
    ensures var s' := Recycle(s, id);
            && s' == s.(cursor := None, phase := Idle, listCnt := s'.listCnt, hlist := s'.hlist, llist := s'.llist)
            && (s.listCnt > 0 ==> s'.listCnt == s.listCnt - 1)
  {
  }

  lemma HeadLeaves(cfg: Config, s: Engine)
    requires Queues(cfg, s) && s.cursor.Some?
    ensures var id := s.cursor.value; var list := if s.items[id].attr.high then s.hlist else s.llist;
            id in s.items && list == [id] + list[1..]
  {
  }

  lemma StepMeans(cfg: Config, s: Engine, a: Action)
    requires Inv(cfg, s) && Enabled(cfg, s, a)
    ensures Does(cfg, s, a, Step(cfg, s, a))
  {
    match a
    case Create =>
    case Submit(kind, attr) => SubmitMeans(cfg, s, kind, attr);
    case Receive(size) =>
    case Elapse(ms) =>
    case PollTest => TestMeans(cfg, s);
    case PollServe(seen, work) => ServeMeans(s, seen, work);
    case PollEnd => EndMeans(cfg, s);
    case AbortAll => AbortMeans(s);
  }

  lemma SubmitMeans(cfg: Config, s: Engine, kind: Kind, attr: Attr)
    requires Enabled(cfg, s, Submit(kind, attr))
    ensures Submits(s, kind, attr, Submitted(s, kind, attr))
  {
  }

  lemma TestMeans(cfg: Config, s: Engine)
    requires Inv(cfg, s) && s.phase.Idle?
    ensures Tests(s, Tested(s))
  {
  }

  lemma AbortMeans(s: Engine)
    ensures Aborts(s, AbortedAll(s))
  {
  }

  // ----- priorities -----

  /** Over every run: an item is only ever started by a poll that finds nothing at the cursor, from the
      head of its queue; and a low item only while no high one is queued. */
  lemma HighFirst(cfg: Config, s0: Engine, acts: seq<Action>, s: Engine, a: Action)
    requires Start(s0) && Executes(cfg, s0, acts, s) && Enabled(cfg, s, a)
    ensures Inv(cfg, s)
    ensures var s' := Step(cfg, s, a);
            s'.starts == s.starts ||
              (exists id :: s'.starts == s.starts + [id] && id in s.items && s.cursor.None? && a == PollTest
                 && if s.items[id].attr.high then s.hlist != [] && id == s.hlist[0]
                    else s.hlist == [] && s.llist != [] && id == s.llist[0])
  {
    RunKeeps(cfg, s0, acts, s);
    StepMeans(cfg, s, a);
    if a.PollTest? && s.cursor.None? && (s.hlist != [] || s.llist != []) {
      var id := if s.hlist != [] then s.hlist[0] else s.llist[0];
      assert id in s.items && (s.items[id].attr.high <==> s.hlist != []);
      assert Step(cfg, s, a).starts == s.starts + [id];
    } else {
      StartsStay(cfg, s, a);
    }
  }

  lemma StartsStay(cfg: Config, s: Engine, a: Action)
    requires Inv(cfg, s) && Enabled(cfg, s, a) && !(a.PollTest? && s.cursor.None? && (s.hlist != [] || s.llist != []))
    ensures Step(cfg, s, a).starts == s.starts
  {
    match a
    case PollServe(seen, work) => OnlyServed(s, seen, work);
    case _ =>
  }

  /** And a queued item is started as soon as a poll finds nothing at the cursor. */
  lemma PollStarts(cfg: Config, s: Engine)
    requires Inv(cfg, s) && s.phase.Idle? && s.cursor.None? && (s.hlist != [] || s.llist != [])
    ensures |Step(cfg, s, PollTest).starts| == |s.starts| + 1
  {
    StepMeans(cfg, s, PollTest);
  }

  // ----- verdicts -----

  /** The poll calls command `id` back. */
  ghost predicate Concludes(s: Engine, s': Engine, id: Id) {
    s.cursor == Some(id) && id in s.items && id in s'.items && s.items[id].kind.Command? && s'.calls[id] == s.calls[id] + 1
  }

  /** Over every run, when a command is called back: it has been sent, and given up, with ERROR or
      TIMEOUT, only after `retry + 1` transmissions; ERROR says that the last response held an error,
      TIMEOUT that there was no error but more than its timeout has passed since, and OK that the
      suffix was found. */
  lemma Verdict(cfg: Config, s0: Engine, acts: seq<Action>, s: Engine, seen: Seen, work: Work, id: Id)
    requires Start(s0) && Executes(cfg, s0, acts, s) && Enabled(cfg, s, PollServe(seen, work)) && Inv(cfg, s)
    requires Concludes(s, Step(cfg, s, PollServe(seen, work)), id)
    ensures var s' := Step(cfg, s, PollServe(seen, work)); var it := s'.items[id];
            && it.stat.Finish? && 1 <= s'.sent[id] <= it.attr.retry + 1
            && match it.code
               case Ok => s'.mask.suffix && (s'.mask.error ==> s'.sent[id] <= it.attr.retry)
               case Error => s'.mask.error && s'.sent[id] == it.attr.retry + 1
               case Timeout => !s'.mask.error && !s'.mask.suffix && Overdue(s, it.attr.timeout) && s'.sent[id] == it.attr.retry + 1
               case Aborted => false
  {
    assert Fair(s, id);
    CommandMeans(s, id, seen);
    CommandVerdict(s, id, seen);
  }

  lemma CommandVerdict(s: Engine, id: Id, seen: Seen)
    requires id in s.items && s.items[id].kind.Command? && Running(s.items[id], s.env, s.sent[id], s.calls[id])
    ensures var s' := RunCommand(s, id, seen).0;
            s'.calls[id] == s.calls[id] + 1 ==>
              var it := s'.items[id];
              && it.stat.Finish? && 1 <= s'.sent[id] <= it.attr.retry + 1
              && match it.code
                 case Ok => s'.mask.suffix && (s'.mask.error ==> s'.sent[id] <= it.attr.retry)
                 case Error => s'.mask.error && s'.sent[id] == it.attr.retry + 1
                 case Timeout => !s'.mask.error && !s'.mask.suffix && Overdue(s, it.attr.timeout) && s'.sent[id] == it.attr.retry + 1
                 case Aborted => false
  {
    CommandMeans(s, id, seen);
  }
}
