/**
 The AT work engine as the polling loop performs it. Each method stands for one
 function of the engine and is proved to be the part of `AtSpec.Step` that the function
 contributes. Transmissions, callbacks and starts are recorded in ghost fields.
 */
module AtChat {
  import opened AtSpec
  import opened AtTurns
  import opened WaitList

  class AtEngine {
    const cfg: Config
    var hlist: seq<Id>
    var llist: seq<Id>
    var items: map<Id, Item>
    var listCnt: nat
    var cursor: AtSpec.Option<Id>
    ghost var phase: Phase  // how far the poll in progress has come
    var env: Env
    var mask: Match
    var recvCnt: nat
    var clock: nat
    var pending: nat
    var next: Id
    ghost var sent: multiset<Id>
    ghost var calls: multiset<Id>
    ghost var starts: seq<Id>

    ghost function View(): (s: Engine)
      reads this
    {
      Engine(hlist, llist, items, listCnt, cursor, phase, env, mask, recvCnt, clock, pending, next, sent, calls, starts)
    }

    ghost predicate Valid()
      reads this
    {
      Inv(cfg, View())
    }

    /** at_obj_create. */
    constructor (cfg: Config, clock: nat)
      ensures Valid() && AtSpec.Start(View()) && this.cfg == cfg
    {
      this.cfg, this.clock := cfg, clock;
      hlist, llist, items, listCnt, cursor := [], [], map[], 0, None;
      env, mask, recvCnt := Env(0, 0, Send, false, clock), Match(false, false, false, 0), 0;
      phase, pending, next := Idle, 0, 0;
      sent, calls, starts := multiset{}, multiset{}, [];
    }

    /** create_work_item, as far as the queues are concerned: the check for room. */
    method CreateWorkItem() returns (ok: bool)
      requires Valid() && pending < cfg.producers
      modifies this`pending
      ensures View() == Step(cfg, old(View()), Create) && Valid()
      ensures Does(cfg, old(View()), Create, View())
      ensures ok == (old(listCnt) <= LIST_WORK_COUNT)
    {
      StepMeans(cfg, View(), Create);
      CreateKeeps(cfg, View());
      ok := !(listCnt > LIST_WORK_COUNT);
      if ok {
        pending := pending + 1;
      }
    }

    /** sumit_work_item. */
    method SubmitWorkItem(kind: Kind, attr: Attr) returns (id: Id)
      requires Valid() && pending > 0
      modifies this`pending, this`next, this`items, this`hlist, this`llist, this`listCnt
      ensures View() == Step(cfg, old(View()), Submit(kind, attr)) && Valid()
      ensures Does(cfg, old(View()), Submit(kind, attr), View())
      ensures id == old(next) && Listed(View(), id)
    {
      StepMeans(cfg, View(), Submit(kind, attr));
      StepKeeps(cfg, View(), Submit(kind, attr));
      id := Enqueue(kind, attr);
    }

    method Enqueue(kind: Kind, attr: Attr) returns (id: Id)
      requires pending > 0
      modifies this`pending, this`next, this`items, this`hlist, this`llist, this`listCnt
      ensures View() == Submitted(old(View()), kind, attr) && id == old(next) && Listed(View(), id)
    {
      id := next;
      items := items[id := Item(kind, attr, Ready, Ok)];
      if attr.high {
        hlist := hlist + [id];
      } else {
        llist := llist + [id];
      }
      listCnt := listCnt + 1;
      pending, next := pending - 1, next + 1;
    }

    /** resp_recv_process: an overflow clears the buffer first. */
    method Receive(size: nat)
      requires Valid() && size <= 64 < cfg.bufsize
      modifies this`recvCnt
      ensures View() == Step(cfg, old(View()), AtSpec.Receive(size)) && Valid()
      ensures Does(cfg, old(View()), AtSpec.Receive(size), View())
      ensures recvCnt < cfg.bufsize || (size == 0 && recvCnt == old(recvCnt))
    {
      StepMeans(cfg, View(), AtSpec.Receive(size));
      AsideKeeps(cfg, View(), Received(cfg, View(), size));
      if size == 0 {
        return;
      }
      if recvCnt + size >= cfg.bufsize {
        recvCnt := 0;
      }
      recvCnt := recvCnt + size;
    }

    method UpdateWorkState(id: Id, stat: WorkStat, code: Code)
      requires id in items
      modifies this`items
      ensures View() == WithItem(old(View()), id, stat, code)
    {
      items := items[id := items[id].(stat := stat, code := code)];
    }

    /** do_at_callback. */
    method Callback(id: Id, code: Code)
      requires id in items
      modifies this`items, this`calls
      ensures View() == Complete(old(View()), id, code)
    {
      UpdateWorkState(id, Finish, code);
      calls := calls + multiset{id};
    }

    /** Sending a command line: the receive buffer, the timer and the match mask start afresh. */
    method SendCommand(id: Id)
      requires id in items
      modifies this`sent, this`env, this`recvCnt, this`mask
      ensures View() == Transmit(old(View()), id)
    {
      sent := sent + multiset{id};
      env := env.(stage := Recv, timer := clock);
      recvCnt := 0;
      mask := Match(!items[id].attr.hasPrefix, !items[id].attr.hasSuffix, false, 0);
    }

    method Search(seen: Seen)
      modifies this`mask
      ensures View() == old(View()).(mask := Searched(old(View()), seen))
    {
      if mask.len != recvCnt {
        mask := mask.(len := recvCnt);
        if !mask.prefix {
          mask := mask.(prefix := seen.prefix);
        }
        if mask.prefix {
          mask := mask.(suffix := mask.suffix || seen.suffix);
        }
        mask := mask.(error := mask.error || seen.error);
      }
    }

    /** The receive stage of do_cmd_handler after its searches. */
    method Answer(id: Id) returns (done: bool)
      requires id in items
      modifies this`items, this`calls, this`env
      ensures (View(), done) == Answered(old(View()), id)
    {
      var attr := items[id].attr;
      if mask.error {
        if env.i >= attr.retry {
          Callback(id, Error);
          return true;
        }
        env := env.(i := env.i + 1, stage := Retry, timer := clock);
      }
      if mask.suffix {
        Callback(id, Ok);
        return true;
      } else if clock - env.timer > attr.timeout {
        if env.i >= attr.retry {
          Callback(id, Timeout);
          return true;
        }
        env := env.(i := env.i + 1, stage := Send);
      }
      return false;
    }

    method WaitForRetry()
      modifies this`env
      ensures View() == if TimedOut(old(View()), RETRY_WAIT) then old(View()).(env := old(env).(stage := Send)) else old(View())
    {
      if clock - env.timer > RETRY_WAIT {
        env := env.(stage := Send);
      }
    }

    /** do_cmd_handler. */
    method DoCmdHandler(id: Id, seen: Seen) returns (done: bool)
      requires id in items
      modifies this`items, this`calls, this`sent, this`env, this`recvCnt, this`mask
      ensures (View(), done) == RunCommand(old(View()), id, seen)
      ensures CommandDoes(old(View()), id, seen, View(), done)
      ensures Turn(old(View()), View(), id, done, old(env).stage.Send?)
      ensures old(items)[id].kind.Command? && Running(old(items)[id], old(env), old(sent)[id], old(calls)[id]) ==>
                HandledWell(View(), id, done)
    {
      CommandMeans(View(), id, seen);
      CommandWell(View(), id, seen);
      done := false;
      match env.stage {
        case Send => SendCommand(id);
        case Recv =>
          Search(seen);
          done := Answer(id);
        case Retry => WaitForRetry();
      }
    }

    /** send_multiline_handler. */
    method SendMultilineHandler(id: Id, seen: Seen) returns (done: bool)
      requires id in items && items[id].kind.Multiline?
      modifies this`items, this`calls, this`sent, this`env, this`recvCnt, this`mask
      ensures (View(), done) == RunLines(old(View()), id, seen)
      ensures LinesDo(old(View()), id, seen, View(), done)
      ensures Turn(old(View()), View(), id, done, old(env).stage.Send? && old(env).i < old(items)[id].kind.lines)
      ensures Running(old(items)[id], old(env), old(sent)[id], old(calls)[id]) ==> HandledWell(View(), id, done)
    {
      LinesMean(View(), id, seen);
      LinesWell(View(), id, seen);
      done := false;
      match env.stage {
        case Send =>
          if env.i >= items[id].kind.lines {
            Callback(id, if env.params then Ok else Error);
            return true;
          }
          SendCommand(id);
        case Recv =>
          if seen.suffix {
            env := env.(stage := Send, i := env.i + 1, j := 0, params := true);
          } else if seen.error {
            env := env.(j := env.j + 1);
            if env.j >= items[id].attr.retry {
              env := env.(stage := Send, j := 0, i := env.i + 1);
            } else {
              env := env.(stage := Retry, timer := clock);
            }
          } else if clock - env.timer > DEF_TIMEOUT {
            Callback(id, Timeout);
            return true;
          }
        case Retry => WaitForRetry();
      }
    }

    /** do_work_handler, for what the user's work does in this poll. */
    method DoWorkHandler(id: Id, work: Work) returns (done: bool)
      requires id in items
      modifies this`items
      ensures (View(), done) == RunWork(old(View()), id, work)
    {
      if work.finish.Some? {
        UpdateWorkState(id, Finish, work.finish.value);
      }
      done := work.done;
    }

    method HandleItem(id: Id, seen: Seen, work: Work) returns (done: bool)
      requires id in items
      modifies this`items, this`calls, this`sent, this`env, this`recvCnt, this`mask
      ensures (View(), done) == Handle(old(View()), id, seen, work)
    {
      match items[id].kind {
        case Command => done := DoCmdHandler(id, seen);
        case Multiline(_) => done := SendMultilineHandler(id, seen);
        case General => done := DoWorkHandler(id, work);
      }
    }

    /** work_item_recycle, for the item at the cursor. */
    method RecycleItem(id: Id)
      requires Valid() && phase.Ending? && cursor == Some(id)
      modifies this`listCnt, this`hlist, this`llist, this`cursor, this`phase
      ensures View() == Step(cfg, old(View()), PollEnd) && Valid()
      ensures Does(cfg, old(View()), PollEnd, View())
      ensures Gone(View(), id) && listCnt == old(listCnt) - 1
      ensures if items[id].attr.high then old(hlist) == [id] + hlist && llist == old(llist)
              else old(llist) == [id] + llist && hlist == old(hlist)
    {
      StepMeans(cfg, View(), PollEnd);
      RecycleLeaves(cfg, View());
      Unlink(id);
    }

    method Unlink(id: Id)
      modifies this`listCnt, this`hlist, this`llist, this`cursor, this`phase
      ensures View() == Recycle(old(View()), id)
    {
      if listCnt > 0 {
        listCnt := listCnt - 1;
      }
      hlist, llist := Without(hlist, id), Without(llist, id);
      cursor, phase := None, Idle;
    }

    method TakeUp()
      requires AtSpec.Known(View())
      modifies this`cursor, this`env, this`recvCnt, this`items, this`starts
      ensures View() == Begin(old(View()))
    {
      if cursor.None? {
        var id;
        if hlist != [] {
          id := hlist[0];
        } else if llist != [] {
          id := llist[0];
        } else {
          return;
        }
        cursor := Some(id);
        env := Env(0, 0, Send, items[id].attr.params, clock);
        recvCnt := 0;
        starts := starts + [id];
        if items[id].stat.Ready? {
          UpdateWorkState(id, Run, items[id].code);
        }
      }
    }

    /** The beginning of at_work_process, up to the test of the item's state. */
    method TestItem() returns (over: bool)
      requires Valid() && phase.Idle?
      modifies this`cursor, this`env, this`recvCnt, this`items, this`starts, this`phase
      ensures View() == Step(cfg, old(View()), PollTest) && Valid()
      ensures Does(cfg, old(View()), PollTest, View())
      ensures cursor.Some? ==> phase == if over then Ending else Serving
    {
      StepMeans(cfg, View(), PollTest);
      TestKeeps(cfg, View());
      TakeUp();
      over := false;
      if cursor.Some? {
        over := items[cursor.value].stat.Finish? || items[cursor.value].stat.Abort?;
        phase := if over then Ending else Serving;
      }
    }

    /** The call of the handler, and the mark on an item that is done. */
    method ServeItem(seen: Seen, work: Work) returns (done: bool)
      requires Valid() && phase.Serving?
      modifies this`items, this`calls, this`sent, this`env, this`recvCnt, this`mask, this`phase
      ensures View() == Step(cfg, old(View()), PollServe(seen, work)) && Valid()
      ensures Does(cfg, old(View()), PollServe(seen, work), View())
      ensures phase == (if done then Ending else Idle) && cursor == old(cursor)
    {
      StepMeans(cfg, View(), PollServe(seen, work));
      ServeKeeps(cfg, View(), seen, work);
      var id := cursor.value;
      done := HandleItem(id, seen, work);
      if done && items[id].stat.Run? {
        UpdateWorkState(id, Finish, items[id].code);
      }
      phase := if done then Ending else Idle;
    }

    /** at_work_process, when nobody else acts meanwhile. */
    method WorkProcess(seen: Seen, work: Work)
      requires Valid() && phase.Idle?
      modifies this
      ensures View() == Polled(old(View()), seen, work) && Valid() && phase.Idle?
      ensures exists acts :: Executes(cfg, old(View()), [PollTest] + acts, View())
    {
      PollIsRun(cfg, View(), seen, work);
      StepIsTest(cfg, View(), seen, work);
      var over := TestItem();
      if cursor.Some? {
        Proceed(over, seen, work);
      }
    }

    method Proceed(over: bool, seen: Seen, work: Work)
      requires Valid() && cursor.Some? && phase == if over then Ending else Serving
      modifies this
      ensures View() == Rest(old(View()), seen, work)
    {
      var done := over;
      ghost var s := View();
      if !over {
        done := ServeItem(seen, work);
        assert View() == Step(cfg, s, PollServe(seen, work));
        StepIsServe(cfg, s, seen, work);
      }
      Close(done);
    }

    method Close(done: bool)
      requires Valid() && cursor.Some? && phase == if done then Ending else Idle
      modifies this
      ensures View() == Closed(old(View()))
    {
      if done {
        StepIsEnd(cfg, View());
        RecycleItem(cursor.value);
      }
    }

    /** One of the two loops of at_work_abort_all. */
    method AbortList(list: seq<Id>)
      requires forall id :: id in list ==> id in items
      modifies this`items
      ensures items == AbortedIn(old(items), list)
    {
      var n := 0;
      while n < |list|
        invariant n <= |list| && items.Keys == old(items).Keys
        invariant items == AbortedIn(old(items), list[..n])
      {
        assert list[n] in list && list[..n + 1] == list[..n] + [list[n]];
        items := items[list[n] := items[list[n]].(stat := Abort, code := Aborted)];
        n := n + 1;
      }
      assert list[..n] == list;
    }

    /** at_work_abort_all. */
    method AbortEverything()
      requires Valid()
      modifies this`items
      ensures View() == Step(cfg, old(View()), AbortAll) && Valid()
      ensures Does(cfg, old(View()), AbortAll, View())
    {
      StepMeans(cfg, View(), AbortAll);
      StepKeeps(cfg, View(), AbortAll);
      AbortBoth();
    }

    method AbortBoth()
      requires AtSpec.Known(View())
      modifies this`items
      ensures View() == AbortedAll(old(View()))
    {
      AbortList(hlist);
      AbortList(llist);
      assert items == AbortedAll(old(View())).items;
    }
  }

  lemma RecycleLeaves(cfg: Config, s: Engine)
    requires Inv(cfg, s) && s.phase.Ending?
    ensures var id := s.cursor.value; var s' := Recycle(s, id);
            && Inv(cfg, s') && Gone(s', id) && s'.listCnt == s.listCnt - 1
            && if s.items[id].attr.high then s.hlist == [id] + s'.hlist && s'.llist == s.llist
               else s.llist == [id] + s'.llist && s'.hlist == s.hlist
  {
    EndKeeps(cfg, s);
    RecycleQueues(cfg, s);
  }

  lemma StepIsEnd(cfg: Config, s: Engine)
    requires Inv(cfg, s) && s.phase.Ending?
    ensures Closed(s) == Step(cfg, s, PollEnd)
  {
  }

  lemma StepIsTest(cfg: Config, s: Engine, seen: Seen, work: Work)
    requires Inv(cfg, s) && s.phase.Idle?
    ensures var s1 := Step(cfg, s, PollTest);
            && (!s1.phase.Idle? ==> s1.cursor.Some? && s1.cursor.value in s1.items)
            && Polled(s, seen, work) == Rest(s1, seen, work)
            && (s1.cursor.None? ==> Rest(s1, seen, work) == s1)
  {
    TestKeeps(cfg, s);
    if Tested(s).cursor.None? { NothingToDo(Tested(s), seen, work); }
  }

  lemma NothingToDo(s: Engine, seen: Seen, work: Work)
    requires AtHead(s) && s.cursor.None?
    ensures Rest(s, seen, work) == s
  {
  }

  lemma StepIsServe(cfg: Config, s: Engine, seen: Seen, work: Work)
    requires Inv(cfg, s) && s.phase.Serving?
    ensures var s' := Step(cfg, s, PollServe(seen, work)); s'.phase.Ending? ==> s'.cursor.Some?
    ensures Rest(s, seen, work) == Closed(Step(cfg, s, PollServe(seen, work)))
  {
    OnlyServed(s, seen, work);
    RestServes(s, seen, work);
  }

  lemma RestServes(s: Engine, seen: Seen, work: Work)
    requires s.phase.Serving? && s.cursor.Some? && s.cursor.value in s.items
    requires Served(s, s.cursor.value, seen, work).cursor.Some?
    ensures Rest(s, seen, work) == Closed(Served(s, s.cursor.value, seen, work))
  {
  }

  /** What one turn of a handler does to its item: at most one transmission, and a callback exactly
      when it is done. */
  predicate Turn(s: Engine, s': Engine, id: Id, done: bool, sends: bool)
    requires id in s.items
  {
    && Only(s, s', id) && s'.sent[id] == s.sent[id] + (if sends then 1 else 0)
    && if done then s'.items[id].stat.Finish? && s'.calls[id] == s.calls[id] + 1
       else s'.items == s.items && s'.calls == s.calls
  }

  lemma CommandWell(s: Engine, id: Id, seen: Seen)
    requires id in s.items
    ensures var r := RunCommand(s, id, seen);
            && Turn(s, r.0, id, r.1, s.env.stage.Send?)
            && (s.items[id].kind.Command? && Running(s.items[id], s.env, s.sent[id], s.calls[id]) ==> HandledWell(r.0, id, r.1))
  {
    CommandTurn(s, id, seen);
    if s.items[id].kind.Command? && Running(s.items[id], s.env, s.sent[id], s.calls[id]) { CommandStep(s, id, seen); }
  }

  lemma CommandTurn(s: Engine, id: Id, seen: Seen)
    requires id in s.items
    ensures var r := RunCommand(s, id, seen); Turn(s, r.0, id, r.1, s.env.stage.Send?)
  {
    if s.env.stage.Recv? { AnsweredTurn(s.(mask := Searched(s, seen)), id); }
  }

  lemma AnsweredTurn(s: Engine, id: Id)
    requires id in s.items
    ensures var r := Answered(s, id); Turn(s, r.0, id, r.1, false)
  {
  }

  lemma LinesWell(s: Engine, id: Id, seen: Seen)
    requires id in s.items && s.items[id].kind.Multiline?
    ensures var r := RunLines(s, id, seen);
            && Turn(s, r.0, id, r.1, s.env.stage.Send? && s.env.i < s.items[id].kind.lines)
            && (Running(s.items[id], s.env, s.sent[id], s.calls[id]) ==> HandledWell(r.0, id, r.1))
  {
    LinesTurn(s, id, seen);
    if Running(s.items[id], s.env, s.sent[id], s.calls[id]) { LinesStep(s, id, seen); }
  }

  lemma LinesTurn(s: Engine, id: Id, seen: Seen)
    requires id in s.items && s.items[id].kind.Multiline?
    ensures var r := RunLines(s, id, seen); Turn(s, r.0, id, r.1, s.env.stage.Send? && s.env.i < s.items[id].kind.lines)
  {
  }

  function AbortedIn(items: map<Id, Item>, list: seq<Id>): map<Id, Item> {
    map id | id in items :: if id in list then items[id].(stat := Abort, code := Aborted) else items[id]
  }
}
