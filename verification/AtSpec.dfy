/**
 The AT command work engine as a state machine: producers create and submit work
 items, the response line delivers bytes, the clock advances, and one polling loop
 runs the item at the cursor. A poll tests the item's state, serves the item and recycles
 it in three steps, and anyone else may act in between. What `strstr` finds in the receive
 buffer is an input of each poll; the buffer itself appears only by its length.
 */
module AtSpec {
  import opened WaitList

  const LIST_WORK_COUNT: nat := 32  // AT_LIST_WORK_COUNT
  const RETRY_WAIT: nat := 100      // ms before a command answered by an error is sent again
  const DEF_TIMEOUT: nat := 500     // AT_DEF_TIMEOUT

  type Id = nat  // items are numbered in the order of their submission

  datatype Option<T> = None | Some(value: T)

  /** `params` says whether user parameters were given; a prefix or suffix that is empty or null is none. */
  datatype Attr = Attr(high: bool, timeout: nat, retry: nat, hasPrefix: bool, hasSuffix: bool, params: bool)

  /** Single-line, formatted, custom and buffer commands share one handler. */
  datatype Kind = Command | Multiline(lines: nat) | General

  datatype WorkStat = Ready | Run | Finish | Abort
  datatype Code = Ok | Error | Timeout | Aborted

  /** An item together with the context that outlives it. */
  datatype Item = Item(kind: Kind, attr: Attr, stat: WorkStat, code: Code)

  datatype Stage = Send | Recv | Retry
  datatype Env = Env(i: nat, j: nat, stage: Stage, params: bool, timer: nat)

  /** The match mask and the length of the response it was computed from. */
  datatype Match = Match(prefix: bool, suffix: bool, error: bool, len: nat)

  /** What the searches of one poll find in the receive buffer. */
  datatype Seen = Seen(prefix: bool, suffix: bool, error: bool)

  /** What a user's polled work does in one poll. */
  datatype Work = Work(done: bool, finish: Option<Code>)

  /** Where the polling loop is: between polls, past the test of the item's state, or about to
      recycle the item. */
  datatype Phase = Idle | Serving | Ending

  datatype Config = Config(bufsize: nat, producers: nat)

  /** `sent`, `calls` and `starts` record every transmission, callback and start. */
  datatype Engine = Engine(hlist: seq<Id>, llist: seq<Id>, items: map<Id, Item>, listCnt: nat, cursor: Option<Id>,
                           phase: Phase, env: Env, mask: Match, recvCnt: nat, clock: nat, pending: nat, next: Id,
                           sent: multiset<Id>, calls: multiset<Id>, starts: seq<Id>)

  datatype Action =
    | Create
    | Submit(kind: Kind, attr: Attr)
    | Receive(size: nat)
    | Elapse(ms: nat)
    | PollTest
    | PollServe(seen: Seen, work: Work)
    | PollEnd
    | AbortAll

  /** The two states differ in what concerns item `id` and its handling only. */
  predicate Only(s: Engine, s': Engine, id: Id)
    requires id in s.items
  {
    && s'.hlist == s.hlist && s'.llist == s.llist && s'.listCnt == s.listCnt && s'.cursor == s.cursor
    && s'.clock == s.clock && s'.pending == s.pending && s'.next == s.next && s'.starts == s.starts
    && id in s'.items && s'.items == s.items[id := s'.items[id]]
    && s'.items[id].kind == s.items[id].kind && s'.items[id].attr == s.items[id].attr
    && s'.sent == s.sent[id := s'.sent[id]] && s'.calls == s.calls[id := s'.calls[id]]
  }

  // ----- the polling loop -----

  /** The cursor is the head of a queue, and the loop serves and recycles the item at the cursor. */
  predicate AtHead(s: Engine) {
    && (s.cursor.None? ==> s.phase.Idle?)
    && (s.cursor.Some? ==>
          && s.cursor.value in s.items
          && var list := if s.items[s.cursor.value].attr.high then s.hlist else s.llist;
             list != [] && list[0] == s.cursor.value)
  }

  predicate Known(s: Engine) {
    (forall id :: id in s.hlist ==> id in s.items) && forall id :: id in s.llist ==> id in s.items
  }

  function WithItem(s: Engine, id: Id, stat: WorkStat, code: Code): (s': Engine)
    requires id in s.items
  {
    s.(items := s.items[id := s.items[id].(stat := stat, code := code)])
  }

  /** The first half of at_work_process: take up the first high, else the first low item. */
  function Begin(s: Engine): (s': Engine)
    requires Known(s)
    ensures s'.cursor.Some? ==> s.cursor.Some? || s'.cursor.value in s'.items
  {
    if s.cursor.Some? || (s.hlist == [] && s.llist == []) then s
    else
      var id := if s.hlist != [] then s.hlist[0] else s.llist[0];
      var it := s.items[id];
      var s1 := s.(cursor := Some(id), env := Env(0, 0, Send, it.attr.params, s.clock), recvCnt := 0,
                   starts := s.starts + [id]);
      if it.stat.Ready? then WithItem(s1, id, Run, it.code) else s1
  }

  predicate TimedOut(s: Engine, ms: nat) {
    s.clock - s.env.timer > ms
  }

  function Transmit(s: Engine, id: Id): Engine
    requires id in s.items
  {
    var attr := s.items[id].attr;
    s.(sent := s.sent + multiset{id}, env := s.env.(stage := Recv, timer := s.clock), recvCnt := 0,
       mask := Match(!attr.hasPrefix, !attr.hasSuffix, false, 0))
  }

  /** do_at_callback: the response code is final. */
  function Complete(s: Engine, id: Id, code: Code): Engine
    requires id in s.items
  {
    WithItem(s, id, Finish, code).(calls := s.calls + multiset{id})
  }

  /** The searches of the receive stage, made only when the response has changed in length. */
  function Searched(s: Engine, seen: Seen): Match {
    if s.mask.len == s.recvCnt then s.mask
    else
      var prefix := s.mask.prefix || seen.prefix;
      Match(prefix, s.mask.suffix || (prefix && seen.suffix), s.mask.error || seen.error, s.recvCnt)
  }

  /** do_cmd_handler; the flag says that the item is done. */
  function RunCommand(s: Engine, id: Id, seen: Seen): (r: (Engine, bool))
    requires id in s.items
    ensures Only(s, r.0, id)
  {
    match s.env.stage
    case Send => (Transmit(s, id), false)
    case Recv => Answered(s.(mask := Searched(s, seen)), id)
    case Retry => (if TimedOut(s, RETRY_WAIT) then s.(env := s.env.(stage := Send)) else s, false)
  }

  function Answered(s: Engine, id: Id): (r: (Engine, bool))
    requires id in s.items
    ensures Only(s, r.0, id)
  {
    var attr := s.items[id].attr;
    if s.mask.error && s.env.i >= attr.retry then (Complete(s, id, Error), true)
    else
      var s1 := if s.mask.error then s.(env := s.env.(i := s.env.i + 1, stage := Retry, timer := s.clock)) else s;
      if s1.mask.suffix then (Complete(s1, id, Ok), true)
      else if TimedOut(s1, attr.timeout) then
        if s1.env.i >= attr.retry then (Complete(s1, id, Timeout), true)
        else (s1.(env := s1.env.(i := s1.env.i + 1, stage := Send)), false)
      else (s1, false)
  }

  /** send_multiline_handler: `i` is the line, `j` counts the errors it was answered with. */
  function RunLines(s: Engine, id: Id, seen: Seen): (r: (Engine, bool))
    requires id in s.items && s.items[id].kind.Multiline?
    ensures Only(s, r.0, id)
  {
    var it := s.items[id];
    match s.env.stage
    case Send =>
      if s.env.i >= it.kind.lines then (Complete(s, id, if s.env.params then Ok else Error), true)
      else (Transmit(s, id), false)
    case Recv =>
      if seen.suffix then
        (s.(env := s.env.(stage := Send, i := s.env.i + 1, j := 0, params := true)), false)
      else if seen.error then
        if s.env.j + 1 >= it.attr.retry then (s.(env := s.env.(stage := Send, i := s.env.i + 1, j := 0)), false)
        else (s.(env := s.env.(stage := Retry, j := s.env.j + 1, timer := s.clock)), false)
      else if TimedOut(s, DEF_TIMEOUT) then (Complete(s, id, Timeout), true)
      else (s, false)
    case Retry => (if TimedOut(s, RETRY_WAIT) then s.(env := s.env.(stage := Send)) else s, false)
  }

  function RunWork(s: Engine, id: Id, work: Work): (r: (Engine, bool))
    requires id in s.items
    ensures Only(s, r.0, id)
  {
    (if work.finish.Some? then WithItem(s, id, Finish, work.finish.value) else s, work.done)
  }

  function Handle(s: Engine, id: Id, seen: Seen, work: Work): (r: (Engine, bool))
    requires id in s.items
    ensures Only(s, r.0, id)
  {
    match s.items[id].kind
    case Command => RunCommand(s, id, seen)
    case Multiline(_) => RunLines(s, id, seen)
    case General => RunWork(s, id, work)
  }

  /** work_item_recycle: the item leaves its queue. */
  function Recycle(s: Engine, id: Id): Engine {
    s.(listCnt := if s.listCnt > 0 then s.listCnt - 1 else 0, hlist := Without(s.hlist, id),
       llist := Without(s.llist, id), cursor := None, phase := Idle)
  }

  /** The test of the item's state, made outside the lock. */
  function Tested(s: Engine): (s': Engine)
    requires Known(s) && AtHead(s)
    ensures !s'.phase.Idle? ==> s'.cursor.Some? && s'.cursor.value in s'.items
  {
    var s1 := Begin(s);
    if s1.cursor.None? then s1
    else
      var stat := s1.items[s1.cursor.value].stat;
      s1.(phase := if stat.Finish? || stat.Abort? then Ending else Serving)
  }

  /** The handler runs, without another look at the state; an item that is done is marked. */
  function Served(s: Engine, id: Id, seen: Seen, work: Work): Engine
    requires id in s.items
  {
    var r := Handle(s, id, seen, work);
    if r.1 then Marked(r.0, id).(phase := Ending) else r.0.(phase := Idle)
  }

  /** An item that is done is recycled. */
  function Closed(s: Engine): Engine
    requires s.phase.Ending? ==> s.cursor.Some?
  {
    if s.phase.Ending? then Recycle(s, s.cursor.value) else s
  }

  /** What follows the test in a poll that nobody disturbs. */
  function Rest(s: Engine, seen: Seen, work: Work): Engine
    requires !s.phase.Idle? ==> s.cursor.Some? && s.cursor.value in s.items
  {
    if s.phase.Serving? then Closed(Served(s, s.cursor.value, seen, work)) else Closed(s)
  }

  function Polled(s: Engine, seen: Seen, work: Work): Engine
    requires Known(s) && AtHead(s)
  {
    Rest(Tested(s), seen, work)
  }

  function Marked(s: Engine, id: Id): Engine
    requires id in s.items
  {
    if s.items[id].stat.Run? then WithItem(s, id, Finish, s.items[id].code) else s
  }

  // ----- the steps -----

  ghost predicate Enabled(cfg: Config, s: Engine, a: Action) {
    match a
    case Create => s.pending < cfg.producers
    case Submit(_, _) => s.pending > 0
    case Receive(size) => size <= 64 < cfg.bufsize
    case Elapse(_) => true
    case PollTest => s.phase.Idle?
    case PollServe(_, _) => s.phase.Serving?
    case PollEnd => s.phase.Ending?
    case AbortAll => true
  }

  /** create_work_item: the check of the count is not under the lock of the later increment. */
  function Created(s: Engine): Engine {
    if s.listCnt > LIST_WORK_COUNT then s else s.(pending := s.pending + 1)
  }

  function Submitted(s: Engine, kind: Kind, attr: Attr): Engine
    requires s.pending > 0
  {
    var id := s.next;
    s.(pending := s.pending - 1, next := id + 1, listCnt := s.listCnt + 1,
       items := s.items[id := Item(kind, attr, Ready, Ok)],
       hlist := if attr.high then s.hlist + [id] else s.hlist,
       llist := if attr.high then s.llist else s.llist + [id])
  }

  function Received(cfg: Config, s: Engine, size: nat): Engine {
    if size == 0 then s
    else s.(recvCnt := (if s.recvCnt + size >= cfg.bufsize then 0 else s.recvCnt) + size)
  }

  predicate Listed(s: Engine, id: Id) {
    id in s.hlist || id in s.llist
  }

  function AbortedAll(s: Engine): Engine {
    s.(items := map id | id in s.items ::
                  if Listed(s, id) then s.items[id].(stat := Abort, code := Aborted) else s.items[id])
  }

  function Step(cfg: Config, s: Engine, a: Action): Engine
    requires Known(s) && AtHead(s) && Enabled(cfg, s, a)
  {
    match a
    case Create => Created(s)
    case Submit(kind, attr) => Submitted(s, kind, attr)
    case Receive(size) => Received(cfg, s, size)
    case Elapse(ms) => s.(clock := s.clock + ms)
    case PollTest => Tested(s)
    case PollServe(seen, work) => Served(s, s.cursor.value, seen, work)
    case PollEnd => Recycle(s, s.cursor.value)
    case AbortAll => AbortedAll(s)
  }

  // ----- the queues -----

  predicate Rising(list: seq<Id>) {
    forall i, j :: 0 <= i < j < |list| ==> list[i] < list[j]
  }

  ghost predicate Members(s: Engine) {
    && (forall id :: id in s.hlist ==> id in s.items && s.items[id].attr.high)
    && (forall id :: id in s.llist ==> id in s.items && !s.items[id].attr.high)
    && forall id :: id in s.items <==> 0 <= id < s.next
  }

  ghost predicate Queues(cfg: Config, s: Engine) {
    && s.listCnt == |s.hlist| + |s.llist| && s.listCnt + s.pending <= LIST_WORK_COUNT + cfg.producers
    && Rising(s.hlist) && Rising(s.llist) && Members(s) && AtHead(s) && Known(s)
  }

  lemma RisingDistinct(list: seq<Id>)
    requires Rising(list)
    ensures Distinct(list)
  {
  }

  lemma RisingHead(list: seq<Id>, id: Id)
    requires Rising(list) && list != [] && list[0] == id
    ensures Without(list, id) == list[1..] && Rising(list[1..]) && id !in list[1..]
  {
    RisingDistinct(list);
    WithoutHead(list);
  }

  lemma {:induction false} WithoutAbsent(list: seq<Id>, id: Id)
    requires id !in list
    ensures Without(list, id) == list
  {
  }

  /** The item at the cursor leaves the head of its queue. */
  lemma RecycleQueues(cfg: Config, s: Engine)
    requires Queues(cfg, s) && s.cursor.Some?
    ensures var id := s.cursor.value; var s' := Recycle(s, id);
            && Queues(cfg, s') && !Listed(s', id)
            && s'.hlist == (if s.items[id].attr.high then s.hlist[1..] else s.hlist)
            && s'.llist == (if s.items[id].attr.high then s.llist else s.llist[1..])
            && forall o :: o != id ==> (o in s'.hlist <==> o in s.hlist) && (o in s'.llist <==> o in s.llist)
  {
    var id := s.cursor.value;
    var s' := Recycle(s, id);
    if s.items[id].attr.high {
      RisingHead(s.hlist, id);
      assert id !in s.llist;
      WithoutAbsent(s.llist, id);
    } else {
      RisingHead(s.llist, id);
      assert id !in s.hlist;
      WithoutAbsent(s.hlist, id);
    }
    WithoutMembers(s.hlist, id);
    WithoutMembers(s.llist, id);
  }

  lemma RisingAppend(list: seq<Id>, id: Id)
    requires Rising(list) && forall o :: o in list ==> o < id
    ensures Rising(list + [id]) && forall o :: o in list + [id] <==> o == id || o in list
  {
    var l := list + [id];
    forall i, j | 0 <= i < j < |l| ensures l[i] < l[j] {
      assert l[i] in list;
    }
  }

  lemma SubmitQueues(cfg: Config, s: Engine, kind: Kind, attr: Attr)
    requires Queues(cfg, s) && s.pending > 0
    ensures Queues(cfg, Submitted(s, kind, attr))
  {
    RisingAppend(if attr.high then s.hlist else s.llist, s.next);
  }

  lemma BeginQueues(cfg: Config, s: Engine)
    requires Queues(cfg, s)
    ensures Queues(cfg, Begin(s))
  {
  }

  lemma OnlyQueues(cfg: Config, s: Engine, s': Engine, id: Id)
    requires Queues(cfg, s) && s.cursor == Some(id) && Only(s, s', id)
    ensures Queues(cfg, s')
  {
  }

  // ----- the life of an item -----

  function PerLine(attr: Attr): nat {
    if attr.retry == 0 then 1 else attr.retry
  }

  /** How often an item may be transmitted. */
  function Most(it: Item): nat {
    match it.kind
    case Command => it.attr.retry + 1
    case Multiline(lines) => lines * PerLine(it.attr)
    case General => 0
  }

  function InFlight(env: Env): nat {
    if env.stage.Recv? then 1 else 0
  }

  /** How far the item at the cursor has come. */
  predicate Progress(it: Item, env: Env, sent: nat) {
    match it.kind
    case Command => env.i <= it.attr.retry && sent == env.i + InFlight(env)
    case Multiline(lines) =>
      && env.j < PerLine(it.attr) && env.i <= lines && (env.i < lines || (env.stage.Send? && env.j == 0))
      && sent <= env.i * PerLine(it.attr) + env.j + InFlight(env)
    case General => sent == 0
  }

  predicate Running(it: Item, env: Env, sent: nat, calls: nat) {
    && calls == 0 && Progress(it, env, sent) && !it.stat.Ready?
    && (it.stat.Abort? ==> it.code == Aborted) && (it.stat.Finish? ==> it.kind.General?)
  }

  /** An item that is done. A command that was not aborted made exactly one callback. */
  predicate Over(it: Item, sent: nat, calls: nat) {
    && (it.stat.Finish? || it.stat.Abort?) && sent <= Most(it)
    && calls <= (if it.kind.General? then 0 else 1)
    && (it.stat.Abort? ==> it.code == Aborted)
    && (it.stat.Finish? ==> calls == if it.kind.General? then 0 else 1)
  }

  predicate Fair(s: Engine, id: Id)
    requires id in s.items
  {
    var it := s.items[id];
    if s.cursor == Some(id) && !s.phase.Ending? then Running(it, s.env, s.sent[id], s.calls[id])
    else if s.cursor == Some(id) then Over(it, s.sent[id], s.calls[id])
    else if Listed(s, id) then
      (it.stat.Ready? || (it.stat.Abort? && it.code == Aborted)) && s.sent[id] == 0 && s.calls[id] == 0
    else Over(it, s.sent[id], s.calls[id])
  }

  ghost predicate Lives(s: Engine) {
    && (forall id :: id in s.items ==> Fair(s, id))
    && forall id :: id >= s.next ==> s.sent[id] == 0 && s.calls[id] == 0
  }

  lemma MostSent(it: Item, env: Env, sent: nat)
    requires Progress(it, env, sent)
    ensures sent <= Most(it)
  {
    if it.kind.Multiline? {
      var k, lines := PerLine(it.attr), it.kind.lines;
      if env.i < lines {
        assert (env.i + 1) * k == env.i * k + k;
        ProductGrows(env.i + 1, lines, k);
      }
    }
  }

  lemma ProductGrows(a: nat, b: nat, k: nat)
    requires a <= b
    ensures a * k <= b * k
  {
    assert (b - a) * k >= 0;
  }

  lemma CommandStep(s: Engine, id: Id, seen: Seen)
    requires id in s.items && s.items[id].kind.Command?
    requires Running(s.items[id], s.env, s.sent[id], s.calls[id])
    ensures var r := RunCommand(s, id, seen); HandledWell(r.0, id, r.1)
  {
    if s.env.stage.Recv? {
      AnsweredStep(s.(mask := Searched(s, seen)), id);
    }
  }

  lemma AnsweredStep(s: Engine, id: Id)
    requires id in s.items && s.items[id].kind.Command? && s.env.stage.Recv?
    requires Running(s.items[id], s.env, s.sent[id], s.calls[id])
    ensures var r := Answered(s, id); HandledWell(r.0, id, r.1)
  {
    CompleteOver(s, id, Error);
    CompleteOver(s, id, Timeout);
    CompleteOver(s, id, Ok);
    CompleteOver(s.(env := s.env.(i := s.env.i + 1, stage := Retry, timer := s.clock)), id, Ok);
  }

  lemma CompleteOver(s: Engine, id: Id, code: Code)
    requires id in s.items && !s.items[id].kind.General?
    requires s.calls[id] == 0 && s.sent[id] <= Most(s.items[id])
    ensures HandledWell(Complete(s, id, code), id, true)
  {
  }

  /** After one poll the item either runs on or is finished. */
  predicate HandledWell(s: Engine, id: Id, done: bool) {
    && id in s.items
    && (!done ==> Running(s.items[id], s.env, s.sent[id], s.calls[id]))
    && (done ==> Over(Marked(s, id).items[id], s.sent[id], s.calls[id]))
  }

  lemma LinesStep(s: Engine, id: Id, seen: Seen)
    requires id in s.items && s.items[id].kind.Multiline?
    requires Running(s.items[id], s.env, s.sent[id], s.calls[id])
    ensures var r := RunLines(s, id, seen); HandledWell(r.0, id, r.1)
  {
    var k := PerLine(s.items[id].attr);
    MostSent(s.items[id], s.env, s.sent[id]);
    assert (s.env.i + 1) * k == s.env.i * k + k;
    CompleteOver(s, id, Ok);
    CompleteOver(s, id, Error);
    CompleteOver(s, id, Timeout);
  }

  lemma WorkStep(s: Engine, id: Id, work: Work)
    requires id in s.items && s.items[id].kind.General?
    requires Running(s.items[id], s.env, s.sent[id], s.calls[id])
    ensures var r := RunWork(s, id, work); HandledWell(r.0, id, r.1)
  {
  }

  lemma HandleStep(s: Engine, id: Id, seen: Seen, work: Work)
    requires id in s.items && Running(s.items[id], s.env, s.sent[id], s.calls[id])
    ensures var r := Handle(s, id, seen, work); HandledWell(r.0, id, r.1)
  {
    match s.items[id].kind
    case Command => CommandStep(s, id, seen);
    case Multiline(_) => LinesStep(s, id, seen);
    case General => WorkStep(s, id, work);
  }

  lemma TestLives(cfg: Config, s: Engine)
    requires Queues(cfg, s) && Lives(s) && s.phase.Idle?
    ensures Lives(Tested(s))
  {
    forall o | o in Tested(s).items ensures Fair(Tested(s), o) {
      TestFair(cfg, s, o);
    }
  }

  lemma TestFair(cfg: Config, s: Engine, o: Id)
    requires Queues(cfg, s) && s.phase.Idle? && o in s.items && Fair(s, o)
    ensures Tested(s).items.Keys == s.items.Keys && Fair(Tested(s), o)
  {
    BeginFair(cfg, s, o);
    var s1 := Begin(s);
    if s1.cursor == Some(o) { MostSent(s1.items[o], s1.env, s1.sent[o]); }
  }

  lemma BeginFair(cfg: Config, s: Engine, o: Id)
    requires Queues(cfg, s) && s.phase.Idle? && o in s.items && Fair(s, o)
    ensures var s1 := Begin(s);
            && s1.items.Keys == s.items.Keys && s1.phase.Idle? && Fair(s1, o)
            && (s1.cursor == Some(o) ==> Running(s1.items[o], s1.env, s1.sent[o], s1.calls[o]))
  {
    if s.cursor.None? && Begin(s).cursor == Some(o) { StartFair(s, o); }
  }

  lemma StartFair(s: Engine, o: Id)
    requires Known(s) && s.cursor.None? && Begin(s).cursor == Some(o) && o in s.items && Fair(s, o)
    ensures var s1 := Begin(s); Running(s1.items[o], s1.env, s1.sent[o], s1.calls[o])
  {
  }

  /** Handling one item leaves every other as it was. */
  lemma OnlyLives(s: Engine, s': Engine, id: Id)
    requires id in s.items && Only(s, s', id) && Lives(s) && s.cursor == Some(id) && id < s.next
    ensures forall o :: o in s'.items && o != id ==> Fair(s', o)
    ensures forall o :: o >= s'.next ==> s'.sent[o] == 0 && s'.calls[o] == 0
  {
    forall o | o in s'.items && o != id ensures Fair(s', o) {
      assert Fair(s, o);
    }
  }

  lemma RecycleLives(cfg: Config, s: Engine)
    requires Queues(cfg, s) && s.cursor.Some?
    requires forall o :: o in s.items && o != s.cursor.value ==> Fair(s, o)
    requires forall o :: o >= s.next ==> s.sent[o] == 0 && s.calls[o] == 0
    requires var id := s.cursor.value; Over(s.items[id], s.sent[id], s.calls[id])
    ensures Lives(Recycle(s, s.cursor.value))
  {
    var id := s.cursor.value;
    RecycleQueues(cfg, s);
    var s' := Recycle(s, id);
    forall o | o in s'.items ensures Fair(s', o) {
      if o != id { assert Fair(s, o); }
    }
  }

  lemma ServedLives(cfg: Config, s: Engine, seen: Seen, work: Work)
    requires Queues(cfg, s) && Lives(s) && s.phase.Serving?
    ensures Queues(cfg, Served(s, s.cursor.value, seen, work)) && Lives(Served(s, s.cursor.value, seen, work))
  {
    var id, s' := s.cursor.value, Served(s, s.cursor.value, seen, work);
    assert Fair(s, id);
    HandleStep(s, id, seen, work);
    OnlyServed(s, seen, work);
    OnlyQueues(cfg, s, s', id);
    OnlyLives(s, s', id);
  }

  lemma OnlyServed(s: Engine, seen: Seen, work: Work)
    requires s.cursor.Some? && s.cursor.value in s.items
    ensures Only(s, Served(s, s.cursor.value, seen, work), s.cursor.value)
  {
    OnlyMarked(s, Handle(s, s.cursor.value, seen, work).0, s.cursor.value);
  }

  lemma OnlyMarked(s: Engine, s': Engine, id: Id)
    requires id in s.items && Only(s, s', id)
    ensures Only(s, Marked(s', id), id)
  {
  }

  lemma SubmitLives(cfg: Config, s: Engine, kind: Kind, attr: Attr)
    requires Queues(cfg, s) && Lives(s) && s.pending > 0
    ensures Lives(Submitted(s, kind, attr))
  {
    var s' := Submitted(s, kind, attr);
    forall o | o in s'.items ensures Fair(s', o) {
      if o != s.next { assert Fair(s, o); }
    }
  }

  lemma AbortLives(cfg: Config, s: Engine)
    requires Queues(cfg, s) && Lives(s)
    ensures Queues(cfg, AbortedAll(s)) && Lives(AbortedAll(s))
  {
    var s' := AbortedAll(s);
    forall o | o in s'.items ensures Fair(s', o) {
      assert Fair(s, o);
    }
  }

  // ----- the order of starts -----

  function Queue(s: Engine, high: bool): seq<Id> {
    if high then s.hlist else s.llist
  }

  /** Items of one priority were taken up in the order of their submission, and those still waiting
      come after all that were. */
  ghost predicate InOrder(s: Engine) {
    && (forall k :: 0 <= k < |s.starts| ==> s.starts[k] in s.items)
    && (forall i, j :: 0 <= i < j < |s.starts| && s.items[s.starts[i]].attr.high == s.items[s.starts[j]].attr.high ==>
          s.starts[i] < s.starts[j])
    && forall k, q :: 0 <= k < |s.starts| && q in Queue(s, s.items[s.starts[k]].attr.high) && s.cursor != Some(q) ==>
          s.starts[k] < q
  }

  lemma BeginOrder(cfg: Config, s: Engine)
    requires Queues(cfg, s) && InOrder(s)
    ensures InOrder(Begin(s))
  {
    var s' := Begin(s);
    if s'.starts != s.starts {
      var id := s'.cursor.value;
      var list := Queue(s, s.items[id].attr.high);
      assert id == list[0] && id in list;
      forall q | q in list && q != id ensures id < q {
        var i :| 0 <= i < |list| && list[i] == q;
      }
      StartOrder(s, s', id);
    }
  }

  lemma StartOrder(s: Engine, s': Engine, id: Id)
    requires Members(s) && InOrder(s) && s.cursor.None? && id in s.items && id in Queue(s, s.items[id].attr.high)
    requires forall q :: q in Queue(s, s.items[id].attr.high) && q != id ==> id < q
    requires s'.starts == s.starts + [id] && s'.cursor == Some(id) && s'.hlist == s.hlist && s'.llist == s.llist
    requires s'.items.Keys == s.items.Keys && forall o :: o in s.items ==> s'.items[o].attr == s.items[o].attr
    ensures InOrder(s')
  {
    forall i, j | 0 <= i < j < |s'.starts| && s'.items[s'.starts[i]].attr.high == s'.items[s'.starts[j]].attr.high
      ensures s'.starts[i] < s'.starts[j]
    {
      assert s'.starts[i] == s.starts[i];
    }
    forall k, q | 0 <= k < |s'.starts| && q in Queue(s', s'.items[s'.starts[k]].attr.high) && s'.cursor != Some(q)
      ensures s'.starts[k] < q
    {
      if k < |s.starts| { assert s'.starts[k] == s.starts[k]; }
    }
  }

  /** Nothing but the queues, the cursor and the priorities matters for the order. */
  lemma SameOrder(s: Engine, s': Engine)
    requires InOrder(s) && s'.starts == s.starts && (s'.cursor == s.cursor || s.cursor.None?)
    requires s'.hlist == s.hlist && s'.llist == s.llist
    requires s'.items.Keys == s.items.Keys && forall o :: o in s.items ==> s'.items[o].attr == s.items[o].attr
    ensures InOrder(s')
  {
  }

  lemma RecycleOrder(cfg: Config, s: Engine)
    requires Queues(cfg, s) && InOrder(s) && s.cursor.Some?
    ensures InOrder(Recycle(s, s.cursor.value))
  {
    RecycleQueues(cfg, s);
    var s' := Recycle(s, s.cursor.value);
    forall k, q | 0 <= k < |s'.starts| && q in Queue(s', s'.items[s'.starts[k]].attr.high) && s'.cursor != Some(q)
      ensures s'.starts[k] < q
    {
      assert q in Queue(s, s.items[s.starts[k]].attr.high);
    }
  }

  lemma ServedOrder(s: Engine, seen: Seen, work: Work)
    requires InOrder(s) && s.cursor.Some? && s.cursor.value in s.items
    ensures InOrder(Served(s, s.cursor.value, seen, work))
  {
    OnlyServed(s, seen, work);
    SameOrder(s, Served(s, s.cursor.value, seen, work));
  }

  lemma SubmitOrder(cfg: Config, s: Engine, kind: Kind, attr: Attr)
    requires Queues(cfg, s) && InOrder(s) && s.pending > 0
    ensures InOrder(Submitted(s, kind, attr))
  {
    var s' := Submitted(s, kind, attr);
    forall k, q | 0 <= k < |s'.starts| && q in Queue(s', s'.items[s'.starts[k]].attr.high) && s'.cursor != Some(q)
      ensures s'.starts[k] < q
    {
      assert s.starts[k] in s.items;
      if q != s.next { assert q in Queue(s, s.items[s.starts[k]].attr.high); }
    }
  }

  // ----- every step -----

  ghost predicate Inv(cfg: Config, s: Engine) {
    Queues(cfg, s) && Lives(s) && InOrder(s)
  }

  lemma TestKeeps(cfg: Config, s: Engine)
    requires Inv(cfg, s) && s.phase.Idle?
    ensures Inv(cfg, Tested(s))
  {
    BeginQueues(cfg, s);
    TestLives(cfg, s);
    BeginOrder(cfg, s);
    SameOrder(Begin(s), Tested(s));
  }

  lemma ServeKeeps(cfg: Config, s: Engine, seen: Seen, work: Work)
    requires Inv(cfg, s) && s.phase.Serving?
    ensures Inv(cfg, Served(s, s.cursor.value, seen, work))
  {
    ServedLives(cfg, s, seen, work);
    ServedOrder(s, seen, work);
  }

  lemma EndKeeps(cfg: Config, s: Engine)
    requires Inv(cfg, s) && s.phase.Ending?
    ensures Inv(cfg, Recycle(s, s.cursor.value))
  {
    assert Fair(s, s.cursor.value);
    RecycleQueues(cfg, s);
    RecycleLives(cfg, s);
    RecycleOrder(cfg, s);
  }

  /** Nothing that concerns items, queues or counts. */
  lemma AsideKeeps(cfg: Config, s: Engine, s': Engine)
    requires Inv(cfg, s) && s' == s.(recvCnt := s'.recvCnt, clock := s'.clock)
    ensures Inv(cfg, s')
  {
    SameOrder(s, s');
    assert forall id :: id in s.items ==> Fair(s, id) && Fair(s', id);
  }

  lemma CreateKeeps(cfg: Config, s: Engine)
    requires Inv(cfg, s) && s.pending < cfg.producers
    ensures Inv(cfg, Created(s))
  {
    SameOrder(s, Created(s));
    assert forall id :: id in s.items ==> Fair(s, id) && Fair(Created(s), id);
  }

  lemma SubmitKeeps(cfg: Config, s: Engine, kind: Kind, attr: Attr)
    requires Inv(cfg, s) && s.pending > 0
    ensures Inv(cfg, Submitted(s, kind, attr))
  {
    SubmitQueues(cfg, s, kind, attr);
    SubmitLives(cfg, s, kind, attr);
    SubmitOrder(cfg, s, kind, attr);
  }

  lemma AbortKeeps(cfg: Config, s: Engine)
    requires Inv(cfg, s)
    ensures Inv(cfg, AbortedAll(s))
  {
    AbortLives(cfg, s);
    SameOrder(s, AbortedAll(s));
  }

  lemma StepKeeps(cfg: Config, s: Engine, a: Action)
    requires Inv(cfg, s) && Enabled(cfg, s, a)
    ensures Inv(cfg, Step(cfg, s, a))
  {
    match a
    case Create => CreateKeeps(cfg, s);
    case Submit(kind, attr) => SubmitKeeps(cfg, s, kind, attr);
    case Receive(size) => AsideKeeps(cfg, s, Received(cfg, s, size));
    case Elapse(ms) => AsideKeeps(cfg, s, s.(clock := s.clock + ms));
    case PollTest => TestKeeps(cfg, s);
    case PollServe(seen, work) => ServeKeeps(cfg, s, seen, work);
    case PollEnd => EndKeeps(cfg, s);
    case AbortAll => AbortKeeps(cfg, s);
  }

  // ----- what is final -----

  /** The loop has passed the state test for this item, and its handler is about to act on it. In the
      Retry stage the handler of a command only waits. */
  predicate Exposed(s: Engine, id: Id)
    requires id in s.items
  {
    s.phase.Serving? && s.cursor == Some(id) && (s.items[id].kind.General? || !s.env.stage.Retry?)
  }

  predicate Gone(s: Engine, id: Id) {
    !Listed(s, id) && s.cursor != Some(id)
  }

  /** Aborted and beyond the reach of a handler, or recycled. */
  predicate Final(s: Engine, id: Id) {
    id in s.items && ((s.items[id].stat.Abort? && !Exposed(s, id)) || Gone(s, id))
  }

  /** The item's state, transmissions and callbacks are the same in both. */
  predicate Untouched(s: Engine, s': Engine, id: Id)
    requires id in s.items
  {
    id in s'.items && s'.items[id] == s.items[id] && s'.sent[id] == s.sent[id] && s'.calls[id] == s.calls[id]
  }

  /** No step changes such an item, transmits it or calls it back. */
  lemma FinalStays(cfg: Config, s: Engine, a: Action, id: Id)
    requires Inv(cfg, s) && Enabled(cfg, s, a) && Final(s, id)
    ensures var s' := Step(cfg, s, a); Final(s', id) && Untouched(s, s', id)
  {
    match a
    case PollTest => FinalTested(s, id);
    case PollServe(seen, work) => FinalServed(cfg, s, seen, work, id);
    case PollEnd => RecycleQueues(cfg, s);
    case AbortAll => assert Fair(s, id);
    case Submit(_, _) => assert id < s.next;
    case _ =>
  }

  lemma FinalTested(s: Engine, id: Id)
    requires Known(s) && AtHead(s) && s.phase.Idle? && Final(s, id)
    ensures Final(Tested(s), id) && Untouched(s, Tested(s), id)
  {
    assert Begin(s).items[id] == s.items[id];
  }

  lemma FinalServed(cfg: Config, s: Engine, seen: Seen, work: Work, id: Id)
    requires Inv(cfg, s) && s.phase.Serving? && Final(s, id)
    ensures var s' := Served(s, s.cursor.value, seen, work); Final(s', id) && Untouched(s, s', id)
  {
    OnlyServed(s, seen, work);
  }

  // ----- runs -----

  ghost predicate Start(s: Engine) {
    && s.hlist == s.llist == s.starts == [] && s.items == map[] && s.listCnt == s.pending == s.next == 0
    && s.cursor.None? && s.phase.Idle? && s.sent == s.calls == multiset{}
  }

  ghost predicate Executes(cfg: Config, s: Engine, acts: seq<Action>, s': Engine)
    decreases |acts|
  {
    if acts == [] then s == s'
    else Inv(cfg, s) && Enabled(cfg, s, acts[0]) && Executes(cfg, Step(cfg, s, acts[0]), acts[1..], s')
  }

  lemma {:induction false} RunKeeps(cfg: Config, s: Engine, acts: seq<Action>, s': Engine)
    requires Inv(cfg, s) && Executes(cfg, s, acts, s')
    ensures Inv(cfg, s')
    decreases |acts|
  {
    if acts != [] {
      StepKeeps(cfg, s, acts[0]);
      RunKeeps(cfg, Step(cfg, s, acts[0]), acts[1..], s');
    }
  }

  lemma Prepend(cfg: Config, s: Engine, a: Action, acts: seq<Action>, s': Engine)
    requires Inv(cfg, s) && Enabled(cfg, s, a) && Executes(cfg, Step(cfg, s, a), acts, s')
    ensures Executes(cfg, s, [a] + acts, s')
  {
    assert ([a] + acts)[1..] == acts;
  }

  /** Two runs, one after the other. */
  lemma {:induction false} Continue(cfg: Config, s: Engine, acts: seq<Action>, s': Engine, more: seq<Action>, s'': Engine)
    requires Executes(cfg, s, acts, s') && Executes(cfg, s', more, s'')
    ensures Executes(cfg, s, acts + more, s'')
    decreases |acts|
  {
    if acts == [] {
      assert acts + more == more;
    } else {
      Continue(cfg, Step(cfg, s, acts[0]), acts[1..], s', more, s'');
      Prepend(cfg, s, acts[0], acts[1..] + more, s'');
      assert [acts[0]] + (acts[1..] + more) == acts + more;
    }
  }

  lemma OneStep(cfg: Config, s: Engine, a: Action)
    requires Inv(cfg, s) && Enabled(cfg, s, a)
    ensures Executes(cfg, s, [a], Step(cfg, s, a))
  {
    assert [a][1..] == [];
  }

  /** A poll that nobody disturbs is a run of its steps. */
  lemma PollIsRun(cfg: Config, s: Engine, seen: Seen, work: Work)
    requires Inv(cfg, s) && s.phase.Idle?
    ensures exists acts :: Executes(cfg, s, [PollTest] + acts, Polled(s, seen, work))
    ensures Inv(cfg, Polled(s, seen, work)) && Polled(s, seen, work).phase.Idle?
  {
    OneStep(cfg, s, PollTest);
    StepKeeps(cfg, s, PollTest);
    var acts := AfterTest(cfg, Tested(s), seen, work);
    Continue(cfg, s, [PollTest], Tested(s), acts, Polled(s, seen, work));
  }

  lemma AfterTest(cfg: Config, s: Engine, seen: Seen, work: Work) returns (acts: seq<Action>)
    requires Inv(cfg, s)
    ensures Executes(cfg, s, acts, Rest(s, seen, work)) && Inv(cfg, Rest(s, seen, work)) && Rest(s, seen, work).phase.Idle?
  {
    if s.phase.Serving? {
      OneStep(cfg, s, PollServe(seen, work));
      StepKeeps(cfg, s, PollServe(seen, work));
      var s1 := Served(s, s.cursor.value, seen, work);
      var more := EndIfDue(cfg, s1);
      acts := [PollServe(seen, work)] + more;
      Continue(cfg, s, [PollServe(seen, work)], s1, more, Closed(s1));
    } else {
      acts := EndIfDue(cfg, s);
    }
  }

  lemma EndIfDue(cfg: Config, s: Engine) returns (acts: seq<Action>)
    requires Inv(cfg, s) && !s.phase.Serving?
    ensures Executes(cfg, s, acts, Closed(s)) && Inv(cfg, Closed(s)) && Closed(s).phase.Idle?
  {
    acts := [];
    if s.phase.Ending? {
      OneStep(cfg, s, PollEnd);
      StepKeeps(cfg, s, PollEnd);
      acts := [PollEnd];
    }
  }

  /** Over every run the count is the length of both queues and exceeds its limit by no more than
      the number of concurrent producers (one, for a single producer); the cursor is the head of a
      queue; and items of one priority are taken up in the order of their submission. */
  lemma QueuesBounded(cfg: Config, s: Engine, acts: seq<Action>, s': Engine)
    requires Start(s) && Executes(cfg, s, acts, s')
    ensures s'.listCnt == |s'.hlist| + |s'.llist| <= LIST_WORK_COUNT + cfg.producers
    ensures AtHead(s')
    ensures InOrder(s')
  {
    RunKeeps(cfg, s, acts, s');
  }

  /** Over every run, whoever aborts whenever: a single command is transmitted at most `retry + 1`
      times, a list of lines at most `retry` times a line (once, for no retries), and no item is
      called back more than once. */
  lemma CommandsBounded(cfg: Config, s: Engine, acts: seq<Action>, s': Engine, id: Id)
    requires Start(s) && Executes(cfg, s, acts, s') && id in s'.items
    ensures s'.sent[id] <= Most(s'.items[id]) && s'.calls[id] <= 1
    ensures s'.items[id].stat.Abort? ==> s'.items[id].code == Aborted
  {
    RunKeeps(cfg, s, acts, s');
    assert Fair(s', id);
    if s'.cursor == Some(id) && !s'.phase.Ending? {
      MostSent(s'.items[id], s'.env, s'.sent[id]);
    }
  }

  lemma {:induction false} FinalForever(cfg: Config, s: Engine, acts: seq<Action>, s': Engine, id: Id)
    requires Inv(cfg, s) && Executes(cfg, s, acts, s') && Final(s, id)
    ensures Final(s', id) && Untouched(s, s', id)
    decreases |acts|
  {
    if acts != [] {
      StepKeeps(cfg, s, acts[0]);
      FinalStays(cfg, s, acts[0], id);
      FinalForever(cfg, Step(cfg, s, acts[0]), acts[1..], s', id);
    }
  }

  // ----- aborting, before, during and after a poll -----

  /** An item that at_work_abort_all finds in a queue, out of reach of a handler, reports ABORT for
      ever, is not transmitted again and not called back again; unless its handler had already
      finished, it never is. */
  lemma AbortIsFinal(cfg: Config, s: Engine, acts: seq<Action>, s': Engine, id: Id)
    requires Inv(cfg, s) && Listed(s, id) && !Exposed(s, id) && Executes(cfg, AbortedAll(s), acts, s')
    ensures id in s'.items && s'.items[id].stat.Abort? && s'.items[id].code == Aborted
    ensures s'.sent[id] == s.sent[id] && s'.calls[id] == s.calls[id]
    ensures !(s.phase.Ending? && s.cursor == Some(id)) ==> s'.calls[id] == 0
  {
    StepKeeps(cfg, s, AbortAll);
    assert Final(AbortedAll(s), id) && Fair(s, id) && Fair(AbortedAll(s), id);
    FinalForever(cfg, AbortedAll(s), acts, s', id);
  }

  const ALL_SEEN := Seen(true, true, false)
  const NONE_SEEN := Seen(false, false, false)
  const USER_FINISH := Work(true, Some(Ok))

  /** A receipt after which the length differs from the one last searched. */
  function Fresh(cfg: Config, s: Engine): (size: nat)
    requires 64 < cfg.bufsize
    ensures 1 <= size <= 2 && Received(cfg, s, size).recvCnt != s.mask.len
  {
    if Received(cfg, s, 1).recvCnt != s.mask.len then 1 else 2
  }

  /** What can come between an abort and the handler that overwrites it. */
  function Meanwhile(cfg: Config, s: Engine, id: Id): Action
    requires id in s.items && 64 < cfg.bufsize
  {
    if s.items[id].kind.Command? then Receive(Fresh(cfg, s))
    else Elapse(if s.clock > s.env.timer + DEF_TIMEOUT then 0 else s.env.timer + DEF_TIMEOUT + 1 - s.clock)
  }

  function Acting(s: Engine, id: Id): Action
    requires id in s.items
  {
    PollServe(if s.items[id].kind.Command? then ALL_SEEN else NONE_SEEN, USER_FINISH)
  }

  lemma ExposedOverwritten(cfg: Config, s: Engine, id: Id)
    requires Inv(cfg, s) && id in s.items && s.items[id].stat.Abort? && Exposed(s, id) && 64 < cfg.bufsize
    ensures var s1 := Step(cfg, s, Meanwhile(cfg, s, id));
            && Enabled(cfg, s, Meanwhile(cfg, s, id)) && Inv(cfg, s1) && Enabled(cfg, s1, Acting(s, id))
            && !Untouched(s, Step(cfg, s1, Acting(s, id)), id)
  {
    StepKeeps(cfg, s, Meanwhile(cfg, s, id));
    var s1 := Step(cfg, s, Meanwhile(cfg, s, id));
    match s.items[id].kind
    case Command => CommandActs(s1, id);
    case Multiline(_) => LinesAct(s1, id);
    case General => WorkActs(s1, id);
  }

  lemma CommandActs(s: Engine, id: Id)
    requires id in s.items && s.items[id].kind.Command? && !s.env.stage.Retry? && s.recvCnt != s.mask.len
    ensures !Untouched(s, Served(s, id, ALL_SEEN, USER_FINISH), id)
  {
    if s.env.stage.Send? {
      assert Served(s, id, ALL_SEEN, USER_FINISH).sent[id] == s.sent[id] + 1;
    } else {
      assert Served(s, id, ALL_SEEN, USER_FINISH).calls[id] == s.calls[id] + 1;
    }
  }

  lemma LinesAct(s: Engine, id: Id)
    requires id in s.items && s.items[id].kind.Multiline? && !s.env.stage.Retry? && TimedOut(s, DEF_TIMEOUT)
    ensures !Untouched(s, Served(s, id, NONE_SEEN, USER_FINISH), id)
  {
    var s' := Served(s, id, NONE_SEEN, USER_FINISH);
    assert s'.sent[id] == s.sent[id] + 1 || s'.calls[id] == s.calls[id] + 1;
  }

  lemma WorkActs(s: Engine, id: Id)
    requires id in s.items && s.items[id].kind.General? && s.items[id].stat.Abort?
    ensures !Untouched(s, Served(s, id, NONE_SEEN, USER_FINISH), id)
  {
    assert Served(s, id, NONE_SEEN, USER_FINISH).items[id].stat.Finish?;
  }

  lemma OverwritingRun(cfg: Config, s: Engine, id: Id)
    requires Inv(cfg, s) && id in s.items && s.items[id].stat.Abort? && Exposed(s, id) && 64 < cfg.bufsize
    ensures exists acts, s' :: Executes(cfg, s, acts, s') && !Untouched(s, s', id)
  {
    ExposedOverwritten(cfg, s, id);
    var s1 := Step(cfg, s, Meanwhile(cfg, s, id));
    OneStep(cfg, s, Meanwhile(cfg, s, id));
    OneStep(cfg, s1, Acting(s, id));
    Continue(cfg, s, [Meanwhile(cfg, s, id)], s1, [Acting(s, id)], Step(cfg, s1, Acting(s, id)));
  }

  /** Of what at_work_abort_all finds in a queue, exactly the item whose handler is about to act may
      lose its ABORT, be transmitted or be called back afterwards. */
  lemma AbortFinalIff(cfg: Config, s: Engine, id: Id)
    requires Inv(cfg, s) && Listed(s, id) && 64 < cfg.bufsize
    ensures (forall acts, s' :: Executes(cfg, AbortedAll(s), acts, s') ==> Untouched(AbortedAll(s), s', id)) <==> !Exposed(s, id)
  {
    StepKeeps(cfg, s, AbortAll);
    var s0 := AbortedAll(s);
    if Exposed(s, id) {
      OverwritingRun(cfg, s0, id);
    } else {
      forall acts, s' | Executes(cfg, s0, acts, s') ensures Untouched(s0, s', id) {
        FinalForever(cfg, s0, acts, s', id);
      }
    }
  }

  // ----- the runs in which an abort is overtaken -----

  const PLAIN := Attr(false, DEF_TIMEOUT, 0, false, true, false)

  ghost predicate LeadsTo(cfg: Config, s: Engine, s': Engine) {
    exists acts :: Executes(cfg, s, acts, s')
  }

  lemma StepOn(cfg: Config, s: Engine, s1: Engine, a: Action)
    requires LeadsTo(cfg, s, s1) && Inv(cfg, s1) && Enabled(cfg, s1, a)
    ensures LeadsTo(cfg, s, Step(cfg, s1, a)) && Inv(cfg, Step(cfg, s1, a))
  {
    var acts :| Executes(cfg, s, acts, s1);
    OneStep(cfg, s1, a);
    StepKeeps(cfg, s1, a);
    Continue(cfg, s, acts, s1, [a], Step(cfg, s1, a));
  }

  lemma Stay(cfg: Config, s: Engine)
    ensures LeadsTo(cfg, s, s)
  {
    assert Executes(cfg, s, [], s);
  }

  lemma StartStands(cfg: Config, s: Engine)
    requires Start(s)
    ensures LeadsTo(cfg, s, s) && Inv(cfg, s)
  {
    Stay(cfg, s);
  }

  /** The command is the only item, at the cursor and past the test of its state. */
  ghost predicate Alone(s: Engine, stage: Stage) {
    && s.cursor == Some(0) && s.llist == [0] && 0 in s.items && s.items[0].kind.Command? && s.items[0].attr == PLAIN
    && s.phase.Serving? && s.env.stage == stage && s.calls[0] == 0
  }

  /** From every start: one command is submitted, taken up and tested. */
  lemma ReachTakenUp(cfg: Config, s: Engine) returns (s': Engine)
    requires Start(s) && cfg.producers > 0
    ensures LeadsTo(cfg, s, s') && Inv(cfg, s') && Alone(s', Send) && s'.sent[0] == 0 && s'.items[0].stat.Run?
  {
    StartStands(cfg, s);
    StepOn(cfg, s, s, Create);
    var s1 := Created(s);
    StepOn(cfg, s, s1, Submit(Command, PLAIN));
    s' := Submitted(s1, Command, PLAIN);
    FirstUp(s);
    StepOn(cfg, s, s', PollTest);
    s' := Tested(s');
  }

  lemma FirstUp(s: Engine)
    requires Start(s)
    ensures var s1 := Submitted(Created(s), Command, PLAIN);
            && Known(s1) && AtHead(s1) && s1.phase.Idle? && Alone(Tested(s1), Send) && Tested(s1).sent[0] == 0
            && Tested(s1).items[0].stat.Run?
  {
    assert Submitted(Created(s), Command, PLAIN).llist == [0];
  }

  /** It is transmitted, and tested once more. */
  lemma ReachAwaiting(cfg: Config, s: Engine) returns (s': Engine)
    requires Start(s) && cfg.producers > 0
    ensures LeadsTo(cfg, s, s') && Inv(cfg, s') && Alone(s', Recv) && s'.recvCnt == 0 && s'.mask == Match(true, false, false, 0)
  {
    s' := ReachTakenUp(cfg, s);
    StepOn(cfg, s, s', PollServe(NONE_SEEN, USER_FINISH));
    TestedAgain(s');
    s' := Served(s', 0, NONE_SEEN, USER_FINISH);
    StepOn(cfg, s, s', PollTest);
    s' := Tested(s');
  }

  lemma TestedAgain(s: Engine)
    requires Alone(s, Send) && Known(s) && AtHead(s) && s.items[0].stat.Run?
    ensures var s1 := Served(s, 0, NONE_SEEN, USER_FINISH);
            && Known(s1) && AtHead(s1) && s1.phase.Idle? && Alone(Tested(s1), Recv)
            && Tested(s1).recvCnt == 0 && Tested(s1).mask == Match(true, false, false, 0)
  {
  }

  /** From every start there is a run in which an aborted command is transmitted all the same. */
  lemma AbortedIsSent(cfg: Config, s: Engine)
    requires Start(s) && cfg.producers > 0
    ensures exists s1, s2 :: LeadsTo(cfg, s, s1) && Listed(s1, 0) && LeadsTo(cfg, AbortedAll(s1), s2) && s2.sent[0] > s1.sent[0]
  {
    var s1 := ReachTakenUp(cfg, s);
    StepKeeps(cfg, s1, AbortAll);
    var s2 := SentOn(cfg, AbortedAll(s1));
  }

  lemma SentOn(cfg: Config, s: Engine) returns (s': Engine)
    requires Inv(cfg, s) && Alone(s, Send)
    ensures LeadsTo(cfg, s, s') && s'.sent[0] > s.sent[0]
  {
    Stay(cfg, s);
    StepOn(cfg, s, s, PollServe(NONE_SEEN, USER_FINISH));
    SentOnce(s);
    s' := Served(s, 0, NONE_SEEN, USER_FINISH);
  }

  lemma SentOnce(s: Engine)
    requires 0 in s.items && s.items[0].kind.Command? && s.env.stage.Send?
    ensures Served(s, 0, NONE_SEEN, USER_FINISH).sent[0] == s.sent[0] + 1
  {
  }

  /** From every start there is a run in which an aborted command is called back with code OK, and
      its state says finished. */
  lemma AbortedIsCalledBack(cfg: Config, s: Engine)
    requires Start(s) && cfg.producers > 0 && 64 < cfg.bufsize
    ensures exists s1, s2 ::
              && LeadsTo(cfg, s, s1) && Listed(s1, 0) && LeadsTo(cfg, AbortedAll(s1), s2)
              && s2.calls[0] > s1.calls[0] && 0 in s2.items && s2.items[0].stat.Finish? && s2.items[0].code == Ok
  {
    var s1 := ReachAwaiting(cfg, s);
    var s2 := AfterAbort(cfg, s1);
  }

  lemma AfterAbort(cfg: Config, s: Engine) returns (s': Engine)
    requires Inv(cfg, s) && Alone(s, Recv) && s.recvCnt == 0 && s.mask == Match(true, false, false, 0) && 64 < cfg.bufsize
    ensures LeadsTo(cfg, AbortedAll(s), s') && s'.calls[0] == 1 && 0 in s'.items && s'.items[0].stat.Finish? && s'.items[0].code == Ok
  {
    StepKeeps(cfg, s, AbortAll);
    s' := AfterReceipt(cfg, AbortedAll(s));
    CalledBack(cfg, s);
  }

  lemma AfterReceipt(cfg: Config, s: Engine) returns (s': Engine)
    requires Inv(cfg, s) && s.phase.Serving? && s.cursor == Some(0) && 64 < cfg.bufsize
    ensures 0 in s.items && s' == Served(Received(cfg, s, 1), 0, ALL_SEEN, USER_FINISH) && LeadsTo(cfg, s, s')
  {
    Stay(cfg, s);
    StepOn(cfg, s, s, Receive(1));
    s' := Received(cfg, s, 1);
    StepOn(cfg, s, s', PollServe(ALL_SEEN, USER_FINISH));
    s' := Served(s', 0, ALL_SEEN, USER_FINISH);
  }

  lemma CalledBack(cfg: Config, s: Engine)
    requires Alone(s, Recv) && s.recvCnt == 0 && s.mask == Match(true, false, false, 0) && 64 < cfg.bufsize
    ensures 0 in AbortedAll(s).items
    ensures var s' := Served(Received(cfg, AbortedAll(s), 1), 0, ALL_SEEN, USER_FINISH);
            s'.calls[0] == 1 && 0 in s'.items && s'.items[0].stat.Finish? && s'.items[0].code == Ok
  {
    Answers(Received(cfg, AbortedAll(s), 1));
  }

  lemma Answers(s: Engine)
    requires 0 in s.items && s.items[0].kind.Command? && s.env.stage.Recv? && s.recvCnt == 1
    requires s.calls[0] == 0 && s.mask == Match(true, false, false, 0)
    ensures var s' := Served(s, 0, ALL_SEEN, USER_FINISH);
            s'.calls[0] == 1 && 0 in s'.items && s'.items[0].stat.Finish? && s'.items[0].code == Ok
  {
  }

  // ----- when the limit of the queues is passed -----

  /** Some item was created while those queued and those yet to be submitted came to the limit. */
  ghost predicate Crowds(cfg: Config, s: Engine, acts: seq<Action>)
    decreases |acts|
  {
    && acts != [] && Inv(cfg, s) && Enabled(cfg, s, acts[0])
    && ((acts[0].Create? && s.listCnt <= LIST_WORK_COUNT <= s.listCnt + s.pending)
        || Crowds(cfg, Step(cfg, s, acts[0]), acts[1..]))
  }

  function Submits(n: nat): (acts: seq<Action>)
    ensures |acts| == n
  {
    if n == 0 then [] else [Submit(Command, PLAIN)] + Submits(n - 1)
  }

  lemma {:induction false} SubmitMany(cfg: Config, s: Engine, n: nat) returns (s': Engine)
    requires Inv(cfg, s) && n <= s.pending
    ensures Executes(cfg, s, Submits(n), s') && Inv(cfg, s') && s'.listCnt == s.listCnt + n
    decreases n
  {
    s' := s;
    if n > 0 {
      var s1 := Submitted(s, Command, PLAIN);
      SubmitKeeps(cfg, s, Command, PLAIN);
      s' := SubmitMany(cfg, s1, n - 1);
      Prepend(cfg, s, Submit(Command, PLAIN), Submits(n - 1), s');
    }
  }

  /** Only a successful creation raises the number of items queued or created. */
  lemma CountStep(cfg: Config, s: Engine, a: Action)
    requires Inv(cfg, s) && Enabled(cfg, s, a)
    ensures var s' := Step(cfg, s, a);
            s'.listCnt + s'.pending <= s.listCnt + s.pending + if a.Create? && s.listCnt <= LIST_WORK_COUNT then 1 else 0
  {
    if a.PollServe? { OnlyServed(s, a.seen, a.work); }
  }

  lemma {:induction false} Uncrowded(cfg: Config, s: Engine, acts: seq<Action>, s': Engine)
    requires Inv(cfg, s) && Executes(cfg, s, acts, s') && !Crowds(cfg, s, acts)
    requires s.listCnt + s.pending <= LIST_WORK_COUNT
    ensures s'.listCnt <= LIST_WORK_COUNT
    decreases |acts|
  {
    if acts != [] {
      StepKeeps(cfg, s, acts[0]);
      CountStep(cfg, s, acts[0]);
      Uncrowded(cfg, Step(cfg, s, acts[0]), acts[1..], s');
    }
  }

  lemma {:induction false} SubmitsCrowdNobody(cfg: Config, s: Engine, n: nat)
    ensures !Crowds(cfg, s, Submits(n))
    decreases n
  {
    if n > 0 && Inv(cfg, s) && s.pending > 0 {
      SubmitsCrowdNobody(cfg, Submitted(s, Command, PLAIN), n - 1);
    }
  }

  lemma {:induction false} CrowdsEarly(cfg: Config, s: Engine, acts: seq<Action>, k: nat, n: nat)
    requires k <= |acts| && Crowds(cfg, s, acts[..k] + Submits(n))
    ensures Crowds(cfg, s, acts)
    decreases k
  {
    if k == 0 {
      assert acts[..0] + Submits(n) == Submits(n);
      SubmitsCrowdNobody(cfg, s, n);
    } else {
      var short := acts[..k] + Submits(n);
      assert short[0] == acts[0] && short[1..] == acts[1..][..k - 1] + Submits(n);
      if !(acts[0].Create? && s.listCnt <= LIST_WORK_COUNT <= s.listCnt + s.pending) {
        CrowdsEarly(cfg, Step(cfg, s, acts[0]), acts[1..], k - 1, n);
      }
    }
  }

  /** The run up to some point, followed by submissions alone, passes the limit. */
  ghost predicate Passes(cfg: Config, s: Engine, acts: seq<Action>, k: nat, n: nat, s': Engine) {
    k <= |acts| && Executes(cfg, s, acts[..k] + Submits(n), s') && s'.listCnt > LIST_WORK_COUNT
  }

  lemma {:induction false} CrowdingPasses(cfg: Config, s: Engine, acts: seq<Action>) returns (k: nat, n: nat, s': Engine)
    requires Inv(cfg, s) && Crowds(cfg, s, acts)
    ensures Passes(cfg, s, acts, k, n, s')
    decreases |acts|
  {
    var s1 := Step(cfg, s, acts[0]);
    StepKeeps(cfg, s, acts[0]);
    if acts[0].Create? && s.listCnt <= LIST_WORK_COUNT <= s.listCnt + s.pending {
      k, n := 1, s1.pending;
      s' := SubmitMany(cfg, s1, n);
      assert acts[..1] == [acts[0]];
      Prepend(cfg, s, acts[0], Submits(n), s');
    } else {
      k, n, s' := CrowdingPasses(cfg, s1, acts[1..]);
      Prepend(cfg, s, acts[0], acts[1..][..k] + Submits(n), s');
      assert [acts[0]] + (acts[1..][..k] + Submits(n)) == acts[..k + 1] + Submits(n);
      k := k + 1;
    }
  }

  /** The number of queued items can pass the limit, when what has been created is submitted, exactly
      if some creation succeeded while the items queued and those yet to be submitted came to it. */
  lemma LimitPassedIff(cfg: Config, s: Engine, acts: seq<Action>)
    requires Start(s)
    ensures Crowds(cfg, s, acts) <==> exists k: nat, n: nat, s' :: Passes(cfg, s, acts, k, n, s')
  {
    StartStands(cfg, s);
    if Crowds(cfg, s, acts) {
      var k, n, s' := CrowdingPasses(cfg, s, acts);
    }
    forall k: nat, n: nat, s' | Passes(cfg, s, acts, k, n, s') ensures Crowds(cfg, s, acts) {
      if !Crowds(cfg, s, acts[..k] + Submits(n)) {
        Uncrowded(cfg, s, acts[..k] + Submits(n), s');
      }
      CrowdsEarly(cfg, s, acts, k, n);
    }
  }

  lemma {:induction false} FillTo(cfg: Config, s: Engine, n: nat) returns (s': Engine)
    requires Start(s) && cfg.producers > 0 && n <= LIST_WORK_COUNT
    ensures LeadsTo(cfg, s, s') && Inv(cfg, s') && s'.listCnt == n && s'.pending == 0
  {
    if n == 0 {
      StartStands(cfg, s);
      s' := s;
    } else {
      s' := FillTo(cfg, s, n - 1);
      StepOn(cfg, s, s', Create);
      s' := Created(s');
      StepOn(cfg, s, s', Submit(Command, PLAIN));
      s' := Submitted(s', Command, PLAIN);
    }
  }

  lemma {:induction false} CreateMany(cfg: Config, s: Engine, n: nat) returns (s': Engine)
    requires Start(s) && cfg.producers > 0 && n <= cfg.producers
    ensures LeadsTo(cfg, s, s') && Inv(cfg, s') && s'.listCnt == LIST_WORK_COUNT && s'.pending == n
  {
    if n == 0 {
      s' := FillTo(cfg, s, LIST_WORK_COUNT);
    } else {
      s' := CreateMany(cfg, s, n - 1);
      StepOn(cfg, s, s', Create);
      s' := Created(s');
    }
  }

  /** The bound of `QueuesBounded` is reached: for any number of producers some run from the start
      ends with the limit exceeded by one for each. */
  lemma LimitExceeded(cfg: Config, s: Engine)
    requires Start(s) && cfg.producers > 0
    ensures exists s' :: LeadsTo(cfg, s, s') && s'.listCnt == LIST_WORK_COUNT + cfg.producers
  {
    var s1 := CreateMany(cfg, s, cfg.producers);
    var acts :| Executes(cfg, s, acts, s1);
    var s' := SubmitMany(cfg, s1, cfg.producers);
    Continue(cfg, s, acts, s1, Submits(cfg.producers), s');
  }

  // ----- a command finishes as the clock advances -----

  function Rank(stage: Stage): nat {
    match stage
    case Retry => 2
    case Send => 1
    case Recv => 0
  }

  /** Rounds that an item has left: tries of a command, or tries of the lines still to come. */
  function Rounds(it: Item, env: Env): int {
    match it.kind
    case Command => it.attr.retry - env.i
    case Multiline(lines) => (lines - env.i) * PerLine(it.attr) - env.j
    case General => 0
  }

  /** Rounds first, the stage within the round second, as one number. */
  function Left(it: Item, env: Env): int {
    3 * Rounds(it, env) + Rank(env.stage)
  }

  /** The stage is due to change by time alone. */
  predicate Late(s: Engine, it: Item) {
    match s.env.stage
    case Send => true
    case Recv => TimedOut(s, if it.kind.Command? then it.attr.timeout else DEF_TIMEOUT)
    case Retry => TimedOut(s, RETRY_WAIT)
  }

  lemma LeftPositive(it: Item, env: Env, sent: nat)
    requires Progress(it, env, sent)
    ensures Left(it, env) >= 0
  {
    if it.kind.Multiline? && env.i < it.kind.lines {
      ProductGrows(1, it.kind.lines - env.i, PerLine(it.attr));
    }
  }

  /** The next line costs a full round less what this one had used up. */
  lemma NextLine(lines: nat, i: nat, k: nat)
    requires i < lines
    ensures (lines - i) * k == (lines - (i + 1)) * k + k
  {
    var m := lines - (i + 1);
    assert (m + 1) * k == m * k + k;
  }

  lemma HandleShrinks(s: Engine, id: Id, seen: Seen, work: Work)
    requires id in s.items && !s.items[id].kind.General? && Progress(s.items[id], s.env, s.sent[id])
    ensures var r := Handle(s, id, seen, work);
            var left, left' := Left(s.items[id], s.env), Left(r.0.items[id], r.0.env);
            !r.1 ==> left' <= left && (Late(s, s.items[id]) ==> left' < left)
  {
    match s.items[id].kind
    case Command => CommandShrinks(s, id, seen);
    case Multiline(_) => LinesShrink(s, id, seen);
  }

  lemma CommandShrinks(s: Engine, id: Id, seen: Seen)
    requires id in s.items && s.items[id].kind.Command?
    ensures var r := RunCommand(s, id, seen);
            var left, left' := Left(s.items[id], s.env), Left(r.0.items[id], r.0.env);
            !r.1 ==> left' <= left && (Late(s, s.items[id]) ==> left' < left)
  {
  }

  lemma LinesShrink(s: Engine, id: Id, seen: Seen)
    requires id in s.items && s.items[id].kind.Multiline? && Progress(s.items[id], s.env, s.sent[id])
    ensures var r := RunLines(s, id, seen);
            var left, left' := Left(s.items[id], s.env), Left(r.0.items[id], r.0.env);
            !r.1 ==> left' <= left && (Late(s, s.items[id]) ==> left' < left)
  {
    if s.env.stage.Recv? {
      NextLine(s.items[id].kind.lines, s.env.i, PerLine(s.items[id].attr));
    }
  }

  /** The item is done: it only waits to be recycled, or has been. */
  predicate Ended(s: Engine, id: Id) {
    id in s.items && (Gone(s, id) || (s.cursor == Some(id) && s.phase.Ending?))
  }

  lemma EndedStays(cfg: Config, s: Engine, a: Action, id: Id)
    requires Inv(cfg, s) && Enabled(cfg, s, a) && Ended(s, id)
    ensures Ended(Step(cfg, s, a), id)
  {
    match a
    case PollServe(seen, work) => OnlyServed(s, seen, work);
    case PollEnd => RecycleQueues(cfg, s);
    case Submit(_, _) => assert id < s.next;
    case _ =>
  }

  lemma {:induction false} EndedForever(cfg: Config, s: Engine, acts: seq<Action>, s': Engine, id: Id)
    requires Inv(cfg, s) && Executes(cfg, s, acts, s') && Ended(s, id)
    ensures Ended(s', id)
    decreases |acts|
  {
    if acts != [] {
      StepKeeps(cfg, s, acts[0]);
      EndedStays(cfg, s, acts[0], id);
      EndedForever(cfg, Step(cfg, s, acts[0]), acts[1..], s', id);
    }
  }

  /** One step while item `id` is at the cursor: it ends, or what it has left does not grow, and
      shrinks whenever its handler runs late. */
  lemma StepShrinks(cfg: Config, s: Engine, a: Action, id: Id)
    requires Inv(cfg, s) && Enabled(cfg, s, a) && s.cursor == Some(id) && !s.phase.Ending? && !s.items[id].kind.General?
    ensures var s' := Step(cfg, s, a);
            || Ended(s', id)
            || (s'.cursor == Some(id) && id in s'.items && !s'.items[id].kind.General?
                && Left(s'.items[id], s'.env) <= Left(s.items[id], s.env)
                && (a.PollServe? && Late(s, s.items[id]) ==> Left(s'.items[id], s'.env) < Left(s.items[id], s.env)))
  {
    assert Fair(s, id);
    if a.PollServe? {
      HandleShrinks(s, id, a.seen, a.work);
      OnlyServed(s, a.seen, a.work);
    }
  }

  /** How many times in a run the item's handler ran with its stage overdue. */
  ghost function LatePolls(cfg: Config, s: Engine, acts: seq<Action>, id: Id): nat
    decreases |acts|
  {
    if acts == [] || !Inv(cfg, s) || !Enabled(cfg, s, acts[0]) then 0
    else
      (if acts[0].PollServe? && s.cursor == Some(id) && id in s.items && Late(s, s.items[id]) then 1 else 0)
      + LatePolls(cfg, Step(cfg, s, acts[0]), acts[1..], id)
  }

  /** Whatever else happens meanwhile, a command or a list of lines that has not ended has had no
      more overdue polls than it had stages left: it ends as the clock advances. */
  lemma {:induction false} CommandsEnd(cfg: Config, s: Engine, acts: seq<Action>, s': Engine, id: Id)
    requires Inv(cfg, s) && Executes(cfg, s, acts, s')
    requires s.cursor == Some(id) && !s.phase.Ending? && !s.items[id].kind.General? && !Ended(s', id)
    ensures id in s'.items && Left(s'.items[id], s'.env) >= 0
    ensures LatePolls(cfg, s, acts, id) <= Left(s.items[id], s.env) - Left(s'.items[id], s'.env)
    decreases |acts|
  {
    if acts == [] {
      assert Fair(s, id);
      LeftPositive(s.items[id], s.env, s.sent[id]);
    } else {
      var s1 := Step(cfg, s, acts[0]);
      StepKeeps(cfg, s, acts[0]);
      StepShrinks(cfg, s, acts[0], id);
      if Ended(s1, id) {
        EndedForever(cfg, s1, acts[1..], s', id);
      } else {
        CommandsEnd(cfg, s1, acts[1..], s', id);
      }
    }
  }
}
