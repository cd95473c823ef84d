/**
 The invariant of the kernel tables and its preservation by the building blocks
 of the system calls. `Base(s, x)` allows one thread x to be between queues.
 */
module KernelInv {
  import opened ThreadLists
  import opened DeltaQueue
  import opened KernelState

  /** The queue a thread belongs on; -1 for none, -2 for a semaphore that does
      not exist. */
  function Place(th: Thread, nsem: int): (j: int) {
    match th.state
    case Ready => nsem
    case Sleep => nsem + 1
    case Tmout => nsem + 1
    case Wait => if 0 <= th.sem < nsem then th.sem else -2
    case _ => -1
  }

  /** Queue membership matches thread state; x is on no queue. */
  ghost predicate PlacedIn(thr: seq<Thread>, lists: seq<seq<int>>, x: int)
    requires |lists| >= 2
  {
    && (forall j :: 0 <= j < |lists| ==> NoDup(lists[j]))
    && (forall j, t {:trigger t in lists[j]} :: 0 <= j < |lists| && t in lists[j] ==>
          0 <= t < |thr| && t != x && Place(thr[t], |lists| - 2) == j)
    && (forall t :: 0 <= t < |thr| && t != x && Place(thr[t], |lists| - 2) != -1 ==>
          Place(thr[t], |lists| - 2) != -2 && t in lists[Place(thr[t], |lists| - 2)])
  }

  ghost predicate Placed(s: State, x: int)
    requires Shape(s)
  {
    PlacedIn(s.thr, s.lists, x)
  }

  ghost predicate Sorted(s: State)
    requires Shape(s)
  {
    Descending(s.lists[RQ(s)], s.key) && NonNegative(s.lists[SQ(s)], s.key)
  }

  /** Only the current thread may be marked running, and the null thread never
      blocks. */
  predicate Running(s: State)
    requires Shape(s)
  {
    && (forall t :: 0 <= t < |s.thr| && s.thr[t].state == Curr ==> t == s.cur)
    && (s.thr[NULLTHREAD].state == Curr || s.thr[NULLTHREAD].state == Ready)
    && (forall t :: 0 <= t < |s.thr| ==> s.thr[t].prio > MINKEY)
  }

  /** A semaphore has exactly as many waiters as its count is below zero. */
  predicate CountOk(s: State, k: int)
    requires Shape(s) && 0 <= k < |s.sem|
  {
    && |s.lists[k]| == (if s.sem[k].count < 0 then -s.sem[k].count else 0)
    && (!s.sem[k].used ==> s.sem[k].count == 0)
  }

  predicate Counts(s: State)
    requires Shape(s)
  {
    forall k :: 0 <= k < |s.sem| ==> CountOk(s, k)
  }

  ghost predicate Base(s: State, x: int) {
    Shape(s) && Placed(s, x) && Sorted(s) && Running(s)
  }

  /** The kernel invariant between two steps. */
  ghost predicate Inv(s: State) {
    Base(s, -1) && Counts(s) && s.thr[s.cur].state == Curr
  }

  /** r has the same semaphores and the same semaphore queues as s. */
  ghost predicate SameSems(s: State, r: State) {
    && r.sem == s.sem && r.slog == s.slog && |r.lists| == |s.lists| == |s.sem| + 2
    && forall k :: 0 <= k < |s.sem| ==> r.lists[k] == s.lists[k]
  }

  /** r has the same messages, unfinished calls, free slots and receivers. */
  ghost predicate SameMail(s: State, r: State) {
    && |r.thr| == |s.thr| && r.mlog == s.mlog && r.calls == s.calls
    && forall t :: 0 <= t < |s.thr| ==>
         && r.thr[t].msg == s.thr[t].msg && r.thr[t].hasmsg == s.thr[t].hasmsg
         && (r.thr[t].state == Recv <==> s.thr[t].state == Recv)
         && (r.thr[t].state == Free <==> s.thr[t].state == Free)
  }

  /** r has the same sleep queue, with the same keys and sleepers. */
  ghost predicate SameSleep(s: State, r: State) {
    && |r.sem| == |s.sem| && |r.lists| == |s.lists| == |s.sem| + 2
    && |r.thr| == |s.thr| == |r.key| == |s.key|
    && r.lists[SQ(r)] == s.lists[SQ(s)]
    && forall i :: 0 <= i < |s.lists[SQ(s)]| ==>
         var t := s.lists[SQ(s)][i];
         0 <= t < |s.thr| && r.key[t] == s.key[t] && r.thr[t].state == s.thr[t].state
  }

  /** r differs from s only in which threads run, are ready, or are blocked. */
  ghost predicate Moved(s: State, r: State) {
    SameSems(s, r) && SameMail(s, r) && SameSleep(s, r)
  }

  /** Each of the three relations is transitive. */
  lemma {:induction false} Then(s: State, r: State, q: State)
    ensures SameSems(s, r) && SameSems(r, q) ==> SameSems(s, q)
    ensures SameMail(s, r) && SameMail(r, q) ==> SameMail(s, q)
    ensures SameSleep(s, r) && SameSleep(r, q) ==> SameSleep(s, q)
  {
  }

  /** Placement looks at thread states and semaphore ids only. */
  lemma {:induction false} PlacedFrame(thr: seq<Thread>, thr': seq<Thread>, lists: seq<seq<int>>, x: int)
    requires |lists| >= 2 && PlacedIn(thr, lists, x) && |thr'| == |thr|
    requires forall t :: 0 <= t < |thr| ==> thr'[t].state == thr[t].state && thr'[t].sem == thr[t].sem
    ensures PlacedIn(thr', lists, x)
  {
  }

  // ------------------------------------------------------- leaving a queue

  lemma {:induction false} LeavePlaced(thr: seq<Thread>, lists: seq<seq<int>>, t: int, j: int)
    requires |lists| >= 2 && PlacedIn(thr, lists, -1) && 0 <= j < |lists| && t in lists[j]
    ensures PlacedIn(thr, lists[j := Remove(lists[j], t)], t)
  {
    RemoveMembers(lists[j], t);
    var lists' := lists[j := Remove(lists[j], t)];
    forall k, u | 0 <= k < |lists'| && u in lists'[k]
      ensures 0 <= u < |thr| && u != t && Place(thr[u], |lists'| - 2) == k
    {
      assert u in lists[k];
    }
  }

  lemma {:induction false} TakeOff(s: State, t: int, j: int)
    requires Base(s, -1) && 0 <= j < |s.lists| && t in s.lists[j]
    ensures Base(GetItem(s, t, j), t)
  {
    LeavePlaced(s.thr, s.lists, t, j);
    RemoveDescendingAll(s, t, j);
  }

  lemma {:induction false} RemoveDescendingAll(s: State, t: int, j: int)
    requires Base(s, -1) && 0 <= j < |s.lists| && t in s.lists[j]
    ensures Sorted(GetItem(s, t, j))
  {
    hide Remove, Descending, NonNegative, PlacedIn, Running;
    if j == RQ(s) {
      RemoveDescending(s.lists[j], s.key, t);
    }
    if j == SQ(s) {
      RemoveKeysNonNegative(s.lists[j], s.key, t);
    }
  }

  lemma {:induction false} DequeueIsGetItem(s: State, j: int)
    requires Shape(s) && 0 <= j < |s.lists| && s.lists[j] != []
    ensures Dequeue(s, j) == GetItem(s, s.lists[j][0], j)
  {
    assert Remove(s.lists[j], s.lists[j][0]) == s.lists[j][1..];
  }

  /** A thread that belongs on no queue may be treated as between queues. */
  lemma {:induction false} Detached(s: State, t: int)
    requires Base(s, -1) && 0 <= t < |s.thr| && Place(s.thr[t], |s.sem|) == -1
    ensures Base(s, t)
  {
  }

  // ------------------------------------------------------ joining a queue

  lemma {:induction false} JoinPlaced(thr: seq<Thread>, lists: seq<seq<int>>, t: int, j: int, i: nat, th: Thread)
    requires |lists| >= 2 && PlacedIn(thr, lists, t) && 0 <= t < |thr| && 0 <= j < |lists| && i <= |lists[j]|
    requires Place(th, |lists| - 2) == j
    ensures PlacedIn(thr[t := th], lists[j := InsertAt(lists[j], i, t)], -1)
  {
    InsertMembers(lists[j], i, t);
    var thr', lists' := thr[t := th], lists[j := InsertAt(lists[j], i, t)];
    forall k, u | 0 <= k < |lists'| && u in lists'[k]
      ensures 0 <= u < |thr| && u != -1 && Place(thr'[u], |lists'| - 2) == k
    {
      assert u != t ==> u in lists[k];
      assert k != j ==> u in lists[k];
    }
  }

  lemma {:induction false} ReadySorted(s: State, t: int)
    requires Base(s, t) && 0 <= t < |s.thr| && s.thr[t].state != Free
    ensures Sorted(MakeReady(s, t))
  {
    assert t !in s.lists[RQ(s)] && t !in s.lists[SQ(s)];
    InsertDescending(s.lists[RQ(s)], s.key, t, s.thr[t].prio);
  }

  /** ready on a thread that has just left its queue. */
  lemma {:induction false} ReadyKeeps(s: State, t: int)
    requires Base(s, t) && 0 <= t < |s.thr| && s.thr[t].state != Free
    ensures Base(MakeReady(s, t), -1)
    ensures SameSems(s, MakeReady(s, t)) && SameSleep(s, MakeReady(s, t))
    ensures s.thr[t].state != Recv ==> SameMail(s, MakeReady(s, t))
  {
    assert t !in s.lists[SQ(s)];
    var l := s.lists[RQ(s)];
    JoinPlaced(s.thr, s.lists, t, RQ(s), InsertPos(l, s.key, s.thr[t].prio), s.thr[t].(state := Ready));
    ReadySorted(s, t);
  }

  // ------------------------------------------------------------ dispatching

  lemma {:induction false} DispatchMoves(s: State)
    requires Base(s, -1) && s.lists[RQ(s)] != []
    ensures Moved(s, Dispatch(s))
  {
    var t := s.lists[RQ(s)][0];
    assert t in s.lists[RQ(s)] && t !in s.lists[SQ(s)];
  }

  lemma {:induction false} DispatchKeeps(s: State)
    requires Base(s, -1) && s.thr[s.cur].state != Curr
    ensures s.lists[RQ(s)] != []
    ensures Base(Dispatch(s), -1) && Dispatch(s).thr[Dispatch(s).cur].state == Curr
    ensures Moved(s, Dispatch(s))
  {
    hide Moved, PlacedIn, Sorted, Running, Remove, Dequeue;
    NullIsReady(s);
    var t := s.lists[RQ(s)][0];
    DispatchMoves(s);
    DequeueIsGetItem(s, RQ(s));
    TakeOff(s, t, RQ(s));
    RunTaken(s, t);
  }

  /** With no thread running there is a ready one, the null thread at the least. */
  lemma {:induction false} NullIsReady(s: State)
    requires Base(s, -1) && s.thr[s.cur].state != Curr
    ensures s.lists[RQ(s)] != []
  {
    assert NULLTHREAD in s.lists[RQ(s)];
  }

  /** A ready thread that has left its queue becomes the running one. */
  lemma {:induction false} RunTaken(s: State, t: int)
    requires Base(s, -1) && s.thr[s.cur].state != Curr && t in s.lists[RQ(s)] && Base(GetItem(s, t, RQ(s)), t)
    ensures 0 <= t < |s.thr| && Base(SetState(GetItem(s, t, RQ(s)), t, Curr).(cur := t), -1)
  {
    hide Sorted, Remove;
    SortedFrame(GetItem(s, t, RQ(s)), SetState(GetItem(s, t, RQ(s)), t, Curr).(cur := t));
  }

  lemma {:induction false} SortedFrame(s: State, r: State)
    requires Shape(s) && Shape(r) && Sorted(s) && r.lists == s.lists && r.key == s.key && |r.sem| == |s.sem|
    ensures Sorted(r)
  {
  }

  lemma {:induction false} RedispatchKeeps(s: State)
    requires Base(s, -1)
    ensures Base(Redispatch(s), -1) && Redispatch(s).thr[Redispatch(s).cur].state == Curr
    ensures Moved(s, Redispatch(s))
  {
    var l, me := s.lists[RQ(s)], s.thr[s.cur];
    if me.state != Curr {
      DispatchKeeps(s);
    } else if !(l != [] && me.prio > s.key[l[0]]) {
      Detached(s, s.cur);
      ReadyKeeps(s, s.cur);
      DispatchKeeps(MakeReady(s, s.cur));
      Then(s, MakeReady(s, s.cur), Redispatch(s));
    }
  }

  /** resched, whatever the caller has made of its own state. */
  lemma {:induction false} ReschedKeeps(s: State)
    requires Base(s, -1)
    ensures Base(Resched(s), -1) && Resched(s).thr[Resched(s).cur].state == Curr
    ensures Moved(s, Resched(s))
  {
    hide Redispatch;
    RedispatchKeeps(s);
  }

  lemma {:induction false} CountsFrame(s: State, r: State)
    requires Shape(s) && Shape(r) && Counts(s) && SameSems(s, r)
    ensures Counts(r)
  {
    forall k | 0 <= k < |r.sem| ensures CountOk(r, k) {
      assert CountOk(s, k);
    }
  }
}
