/**
 Suspend lists of IPC objects (`_ipc_list_suspend`, `_ipc_list_resume`): where a
 thread is queued, and what that means for order.
 */
module WaitList {
  type Tid = nat
  type Prio = nat  // smaller is more urgent

  datatype Flag = Fifo | ByPriority

  /** How an object queues its waiters, and the priorities of the threads that can wait for it. */
  datatype ListConfig = ListConfig(flag: Flag, prio: map<Tid, Prio>)

  /** First place whose occupant is less urgent than `p`. */
  function Place(queue: seq<Tid>, prio: map<Tid, Prio>, p: Prio): (k: nat)
    requires forall t :: t in queue ==> t in prio
    ensures k <= |queue|
    ensures forall j :: 0 <= j < k ==> prio[queue[j]] <= p
    ensures k < |queue| ==> p < prio[queue[k]]
  {
    if queue == [] || p < prio[queue[0]] then 0 else 1 + Place(queue[1..], prio, p)
  }

  function Enqueued(queue: seq<Tid>, prio: map<Tid, Prio>, t: Tid, flag: Flag): (q: seq<Tid>)
    requires t in prio && forall u :: u in queue ==> u in prio
  {
    match flag
    case Fifo => queue + [t]
    case ByPriority =>
      var k := Place(queue, prio, prio[t]);
      queue[..k] + [t] + queue[k..]
  }

  /** The scan of `_ipc_list_suspend`. */
  method Suspend(queue: seq<Tid>, prio: map<Tid, Prio>, t: Tid, flag: Flag) returns (q: seq<Tid>)
    requires t in prio && forall u :: u in queue ==> u in prio
    ensures q == Enqueued(queue, prio, t, flag)
  {
    match flag {
      case Fifo =>
        q := queue + [t];
      case ByPriority =>
        var n := 0;
        while n < |queue| && !(prio[t] < prio[queue[n]])
          invariant n <= |queue|
          invariant forall j :: 0 <= j < n ==> prio[queue[j]] <= prio[t]
        {
          n := n + 1;
        }
        PlaceIs(queue, prio, prio[t], n);
        q := queue[..n] + [t] + queue[n..];
    }
  }

  lemma PlaceIs(queue: seq<Tid>, prio: map<Tid, Prio>, p: Prio, n: nat)
    requires n <= |queue| && forall t :: t in queue ==> t in prio
    requires (forall j :: 0 <= j < n ==> prio[queue[j]] <= p) && (n < |queue| ==> p < prio[queue[n]])
    ensures Place(queue, prio, p) == n
  {
  }

  predicate Distinct(queue: seq<Tid>) {
    forall i, j :: 0 <= i < j < |queue| ==> queue[i] != queue[j]
  }

  lemma EnqueuedMembers(queue: seq<Tid>, prio: map<Tid, Prio>, t: Tid, flag: Flag)
    requires t in prio && forall u :: u in queue ==> u in prio
    ensures forall u :: u in Enqueued(queue, prio, t, flag) <==> u == t || u in queue
    ensures t !in queue && Distinct(queue) ==> Distinct(Enqueued(queue, prio, t, flag))
  {
    var k := if flag == ByPriority then Place(queue, prio, prio[t]) else |queue|;
    assert Enqueued(queue, prio, t, flag) == queue[..k] + [t] + queue[k..];
    InsertedMembers(queue, k, t);
    if t !in queue && Distinct(queue) { InsertedDistinct(queue, k, t); }
  }

  lemma InsertedMembers(queue: seq<Tid>, k: nat, t: Tid)
    requires k <= |queue|
    ensures forall u :: u in queue[..k] + [t] + queue[k..] <==> u == t || u in queue
  {
    assert queue == queue[..k] + queue[k..];
  }

  lemma InsertedDistinct(queue: seq<Tid>, k: nat, t: Tid)
    requires k <= |queue| && t !in queue && Distinct(queue)
    ensures Distinct(queue[..k] + [t] + queue[k..])
  {
    var q := queue[..k] + [t] + queue[k..];
    forall i, j | 0 <= i < j < |q| ensures q[i] != q[j] {
      assert q[i] == if i < k then queue[i] else if i == k then t else queue[i - 1];
      assert q[j] == if j < k then queue[j] else if j == k then t else queue[j - 1];
    }
  }

  /** `t` stands behind everyone at least as urgent and before everyone less urgent, and the others
      keep their order. */
  ghost predicate JoinedByUrgency(queue: seq<Tid>, q: seq<Tid>, prio: map<Tid, Prio>, t: Tid) {
    exists k :: 0 <= k <= |queue| && q == queue[..k] + [t] + queue[k..] && PlacedAt(queue, prio, t, k)
  }

  ghost predicate PlacedAt(queue: seq<Tid>, prio: map<Tid, Prio>, t: Tid, k: nat) {
    && t in prio && (forall u :: u in queue ==> u in prio)
    && (forall j :: 0 <= j < k && j < |queue| ==> prio[queue[j]] <= prio[t])
    && (k < |queue| ==> prio[t] < prio[queue[k]])
  }

  lemma EnqueuedJoins(queue: seq<Tid>, prio: map<Tid, Prio>, t: Tid)
    requires t in prio && forall u :: u in queue ==> u in prio
    ensures JoinedByUrgency(queue, Enqueued(queue, prio, t, ByPriority), prio, t)
  {
    assert PlacedAt(queue, prio, t, Place(queue, prio, prio[t]));
  }

  lemma EnqueuedAlone(prio: map<Tid, Prio>, t: Tid)
    requires t in prio
    ensures Enqueued([], prio, t, ByPriority) == [t]
  {
  }

  /** Urgent first; among equally urgent threads, the one that has waited longer first. */
  ghost predicate Ordered(queue: seq<Tid>, prio: map<Tid, Prio>, since: map<Tid, nat>) {
    forall i, j :: 0 <= i < j < |queue| && queue[i] in prio && queue[j] in prio && queue[i] in since && queue[j] in since ==>
      prio[queue[i]] < prio[queue[j]] || (prio[queue[i]] == prio[queue[j]] && since[queue[i]] < since[queue[j]])
  }

  /** Queueing by priority keeps the order when the newcomer arrives last. */
  lemma EnqueuedOrdered(queue: seq<Tid>, prio: map<Tid, Prio>, since: map<Tid, nat>, t: Tid)
    requires t in prio && t in since && forall u :: u in queue ==> u in prio && u in since && since[u] < since[t]
    requires Ordered(queue, prio, since)
    ensures Ordered(Enqueued(queue, prio, t, ByPriority), prio, since)
  {
    var k := Place(queue, prio, prio[t]);
    var q := Enqueued(queue, prio, t, ByPriority);
    forall i, j | 0 <= i < j < |q|
      ensures prio[q[i]] < prio[q[j]] || (prio[q[i]] == prio[q[j]] && since[q[i]] < since[q[j]])
    {
      if i < k {
        assert q[i] == queue[i];
      } else if i > k {
        assert q[i] == queue[i - 1];
      }
      if j < k {
        assert q[j] == queue[j];
      } else if j > k {
        assert q[j] == queue[j - 1];
        assert j - 1 == k || prio[queue[k]] <= prio[queue[j - 1]];
      }
    }
  }

  /** Queueing in the list of an object; its configuration knows every thread that can wait there. */
  function Joined(queue: seq<Tid>, cfg: ListConfig, t: Tid): (q: seq<Tid>) {
    if t in cfg.prio && (forall u :: u in queue ==> u in cfg.prio) then Enqueued(queue, cfg.prio, t, cfg.flag)
    else queue + [t]
  }

  lemma JoinedMembers(queue: seq<Tid>, cfg: ListConfig, t: Tid)
    ensures forall u :: u in Joined(queue, cfg, t) <==> u == t || u in queue
    ensures t !in queue && Distinct(queue) ==> Distinct(Joined(queue, cfg, t))
  {
    if t in cfg.prio && (forall u :: u in queue ==> u in cfg.prio) { EnqueuedMembers(queue, cfg.prio, t, cfg.flag); }
  }

  /** The list of an object after `t` joined it: at the end, or by urgency. */
  ghost predicate Joins(queue: seq<Tid>, q: seq<Tid>, cfg: ListConfig, t: Tid) {
    match cfg.flag
    case Fifo => q == queue + [t]
    case ByPriority => JoinedByUrgency(queue, q, cfg.prio, t)
  }

  lemma JoinedJoins(queue: seq<Tid>, cfg: ListConfig, t: Tid)
    requires t in cfg.prio && forall u :: u in queue ==> u in cfg.prio
    ensures Joins(queue, Joined(queue, cfg, t), cfg, t)
  {
    EnqueuedJoins(queue, cfg.prio, t);
  }

  /** Nobody stands in front of a more urgent thread. */
  ghost predicate UrgentFirst(queue: seq<Tid>, prio: map<Tid, Prio>) {
    && (forall u :: u in queue ==> u in prio)
    && forall i, j :: 0 <= i < j < |queue| ==> prio[queue[i]] <= prio[queue[j]]
  }

  lemma JoinedUrgentFirst(queue: seq<Tid>, cfg: ListConfig, t: Tid)
    requires cfg.flag == ByPriority && t in cfg.prio && UrgentFirst(queue, cfg.prio)
    ensures UrgentFirst(Joined(queue, cfg, t), cfg.prio)
  {
    InsertedUrgentFirst(queue, cfg.prio, t, Place(queue, cfg.prio, cfg.prio[t]));
  }

  lemma InsertedUrgentFirst(queue: seq<Tid>, prio: map<Tid, Prio>, t: Tid, k: nat)
    requires k <= |queue| && PlacedAt(queue, prio, t, k) && UrgentFirst(queue, prio)
    ensures UrgentFirst(queue[..k] + [t] + queue[k..], prio)
  {
    var q := queue[..k] + [t] + queue[k..];
    InsertedMembers(queue, k, t);
    forall i, j | 0 <= i < j < |q| ensures prio[q[i]] <= prio[q[j]] {
      assert q[i] == if i < k then queue[i] else if i == k then t else queue[i - 1];
      assert q[j] == if j < k then queue[j] else if j == k then t else queue[j - 1];
      if j > k { LeastFrom(queue, prio, k, j - 1); }
    }
  }

  lemma LeastFrom(queue: seq<Tid>, prio: map<Tid, Prio>, k: nat, j: nat)
    requires UrgentFirst(queue, prio) && k <= j < |queue|
    ensures prio[queue[k]] <= prio[queue[j]]
  {
  }

  lemma RestUrgentFirst(queue: seq<Tid>, prio: map<Tid, Prio>)
    requires UrgentFirst(queue, prio) && queue != []
    ensures UrgentFirst(queue[1..], prio) && forall u :: u in queue[1..] ==> prio[queue[0]] <= prio[u]
  {
  }

  /** A thread leaves a list, woken or timed out. */
  function Without(queue: seq<Tid>, t: Tid): (q: seq<Tid>)
    ensures t !in queue ==> q == queue
    ensures |q| <= |queue|
  {
    if queue == [] then []
    else if queue[0] == t then Without(queue[1..], t)
    else [queue[0]] + Without(queue[1..], t)
  }

  lemma {:induction false} WithoutMembers(queue: seq<Tid>, t: Tid)
    ensures forall u :: u in Without(queue, t) <==> u in queue && u != t
    ensures Distinct(queue) ==> Distinct(Without(queue, t))
  {
    if queue != [] {
      WithoutMembers(queue[1..], t);
      assert forall u :: u in queue <==> u == queue[0] || u in queue[1..];
      if Distinct(queue) {
        assert queue[0] !in queue[1..];
        var rest := Without(queue[1..], t);
        assert Distinct(rest);
        assert Distinct([queue[0]] + rest);
      }
    }
  }

  lemma {:induction false} WithoutUrgentFirst(queue: seq<Tid>, prio: map<Tid, Prio>, t: Tid)
    requires UrgentFirst(queue, prio)
    ensures UrgentFirst(Without(queue, t), prio)
  {
    if queue != [] {
      RestUrgentFirst(queue, prio);
      WithoutUrgentFirst(queue[1..], prio, t);
      WithoutMembers(queue[1..], t);
      ConsUrgentFirst(queue[0], Without(queue[1..], t), prio);
    }
  }

  lemma ConsUrgentFirst(x: Tid, rest: seq<Tid>, prio: map<Tid, Prio>)
    requires x in prio && UrgentFirst(rest, prio) && forall u :: u in rest ==> prio[x] <= prio[u]
    ensures UrgentFirst([x] + rest, prio)
  {
  }

  lemma {:induction false} WithoutOrdered(queue: seq<Tid>, prio: map<Tid, Prio>, since: map<Tid, nat>, t: Tid)
    requires Ordered(queue, prio, since)
    ensures Ordered(Without(queue, t), prio, since)
  {
    if queue != [] {
      assert Ordered(queue[1..], prio, since);
      WithoutOrdered(queue[1..], prio, since, t);
      WithoutMembers(queue[1..], t);
      var rest := Without(queue[1..], t);
      if queue[0] != t {
        var q := [queue[0]] + rest;
        forall i, j | 0 <= i < j < |q| && q[i] in prio && q[j] in prio && q[i] in since && q[j] in since
          ensures prio[q[i]] < prio[q[j]] || (prio[q[i]] == prio[q[j]] && since[q[i]] < since[q[j]])
        {
          if i == 0 {
            assert q[j] in rest;
            var x :| 1 <= x < |queue| && queue[x] == q[j];
          } else {
            assert q[i] == rest[i - 1] && q[j] == rest[j - 1];
          }
        }
      }
    }
  }

  /** Resuming takes the head of the list. */
  lemma WithoutHead(queue: seq<Tid>)
    requires queue != [] && Distinct(queue)
    ensures Without(queue, queue[0]) == queue[1..]
  {
    assert queue[0] !in queue[1..];
  }
}
