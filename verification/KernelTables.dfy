/**
 The kernel as it is written: system calls that update the thread, semaphore and
 queue tables in place. The ghost field `st` is the value the tables stand for;
 every method is proved to have exactly the effect of its function on that value.
 */
module KernelTables {
  import Spec = KernelState
  import opened ThreadLists
  import opened QueueLinks
  import opened KernelInv
  import opened KernelSteps
  import opened KernelRuns

  const OK := 1
  const SYSERR := -1
  const TIMEOUT := -3
  const NOMSG := -4

  class Kernel {
    const nthread: nat
    const nsem: nat
    const quetab: array<Queent>
    const thrtab: array<Spec.Thread>
    const semtab: array<Spec.Semaphore>
    var nextqid: int
    var readylist: int
    var sleepq: int
    var thrcurrent: int
    var nextsem: int
    var clkticks: nat
    var clktime: nat
    ghost var st: Spec.State

    function QueueId(j: int): int { nthread + 2 * j }

    /** The tables hold exactly what st says. */
    ghost predicate Valid()
      reads this, quetab, thrtab, semtab
    {
      && Spec.Shape(st) && |st.thr| == nthread && |st.sem| == nsem
      && thrtab[..] == st.thr && semtab[..] == st.sem
      && thrcurrent == st.cur && nextsem == st.nextsem
      && quetab.Length == nthread + 2 * nsem + 4
      && readylist == QueueId(nsem) && sleepq == QueueId(nsem + 1)
      && OwnQueues(st.sem, nthread) && KeysMatch(quetab[..], st.key)
      && Chains(quetab[..], nthread, st.lists)
    }

    /** sysinit, as far as the thread, semaphore and queue tables go, with the
        sleep queue from clkinit. */
    constructor (nthread: nat, nsem: nat)
      requires nthread > 0
      ensures this.nthread == nthread && this.nsem == nsem
      ensures Valid() && st == InitState(nthread, nsem) && Inv(st) && clktime == 0 && clkticks == 0
      ensures fresh(quetab) && fresh(thrtab) && fresh(semtab)
      // the table is used up, and still the room test of the next queinit says yes
      ensures nextqid == quetab.Length && !(nextqid > quetab.Length)
    {
      hide Inv, Chains, InitState;
      this.nthread := nthread;
      this.nsem := nsem;
      quetab := new Queent[nthread + 2 * nsem + 4](_ => Queent(0, 0, 0));
      thrtab := new Spec.Thread[nthread](_ => Spec.Thread(Spec.Free, 0, 0, 0, 0, false));
      semtab := new Spec.Semaphore[nsem](_ => Spec.Semaphore(false, 0, 0));
      nextqid := nthread;
      readylist, sleepq := 0, 0;
      nextsem, clkticks, clktime := 0, 0, 0;
      thrcurrent := Spec.NULLTHREAD;
      st := InitState(nthread, nsem);
      new;
      InitInv(nthread, nsem);
      InitFields(nthread, nsem);
      InitThreads();
      InitQueues();
    }

    static lemma {:induction false} InitFields(nthread: nat, nsem: nat)
      requires nthread > 0
      ensures var s := InitState(nthread, nsem);
              && |s.thr| == nthread && |s.sem| == nsem && s.cur == Spec.NULLTHREAD && s.nextsem == 0
              && s.lists == NoThreads(nsem + 2) && OwnQueues(s.sem, nthread)
              && |s.key| == nthread && forall t :: 0 <= t < nthread ==> s.key[t] == 0
    {
    }

    method InitThreads()
      requires thrtab.Length == nthread > 0 && forall t :: 0 <= t < nthread ==> thrtab[t] == Spec.Thread(Spec.Free, 0, 0, 0, 0, false)
      modifies thrtab
      ensures thrtab[..] == InitState(nthread, nsem).thr
    {
      var i := 0;
      while i < nthread
        invariant 0 <= i <= nthread
        invariant forall t :: 0 <= t < nthread ==> thrtab[t] == Spec.Thread(Spec.Free, 0, 0, 0, 0, false)
      {
        thrtab[i] := thrtab[i].(state := Spec.Free);
        i := i + 1;
      }
      thrtab[Spec.NULLTHREAD] := thrtab[Spec.NULLTHREAD].(state := Spec.Curr);
      thrtab[Spec.NULLTHREAD] := thrtab[Spec.NULLTHREAD].(prio := 0);
    }

    /** The queues of the semaphores, the ready list and the sleep queue. */
    method InitQueues()
      requires semtab.Length == nsem && quetab.Length == nthread + 2 * nsem + 4 && nextqid == nthread > 0
      modifies semtab, quetab, this`nextqid, this`readylist, this`sleepq
      ensures semtab[..] == InitState(nthread, nsem).sem && nextqid == quetab.Length
      ensures readylist == QueueId(nsem) && sleepq == QueueId(nsem + 1)
      ensures Chains(quetab[..], nthread, NoThreads(nsem + 2))
      ensures forall t :: 0 <= t < nthread ==> quetab[t] == old(quetab[t])
    {
      hide Chains, InitState;
      InitSems();
      readylist := QueInit(nsem);
      sleepq := QueInit(nsem + 1);
    }

    method InitSems()
      requires semtab.Length == nsem && quetab.Length == nthread + 2 * nsem + 4 && nextqid == nthread > 0
      modifies semtab, quetab, this`nextqid
      ensures semtab[..] == InitState(nthread, nsem).sem && nextqid == nthread + 2 * nsem
      ensures Chains(quetab[..], nthread, NoThreads(nsem))
      ensures forall t :: 0 <= t < nthread ==> quetab[t] == old(quetab[t])
    {
      hide Chains;
      var i := 0;
      FirstChains(quetab[..], nthread);
      while i < nsem
        invariant 0 <= i <= nsem && nextqid == nthread + 2 * i
        invariant Chains(quetab[..], nthread, NoThreads(i))
        invariant forall k :: 0 <= k < i ==> semtab[k] == Spec.Semaphore(false, 0, nthread + 2 * k)
        invariant forall t :: 0 <= t < nthread ==> quetab[t] == old(quetab[t])
      {
        semtab[i] := semtab[i].(used := false);
        semtab[i] := semtab[i].(count := 0);
        var q := QueInit(i);
        semtab[i] := semtab[i].(queue := q);
        i := i + 1;
      }
    }

    /** The room test is off by a pair: with the table exactly full it still
        says yes, so the caller must not ask then. */
    method QueInit(ghost k: nat) returns (q: int)
      requires nextqid == nthread + 2 * k && Chains(quetab[..], nthread, NoThreads(k))
      requires nextqid + 2 <= quetab.Length || nextqid > quetab.Length
      modifies quetab, this`nextqid
      ensures if old(nextqid) > quetab.Length then q == SYSERR && nextqid == old(nextqid) && quetab[..] == old(quetab[..])
              else q == old(nextqid) && nextqid == q + 2 && Chains(quetab[..], nthread, NoThreads(k + 1))
      ensures forall t :: 0 <= t < nthread && t < quetab.Length ==> quetab[t] == old(quetab[t])
    {
      if nextqid > quetab.Length {
        return SYSERR;
      }
      ghost var tab := quetab[..];
      q := nextqid;
      nextqid := nextqid + 2;
      quetab[q] := quetab[q].(next := q + 1);
      quetab[q] := quetab[q].(prev := Spec.EMPTY);
      quetab[q] := quetab[q].(key := Spec.MAXKEY);
      quetab[q+1] := quetab[q+1].(next := Spec.EMPTY);
      quetab[q+1] := quetab[q+1].(prev := q);
      quetab[q+1] := quetab[q+1].(key := Spec.MINKEY);
      AddQueue(tab, quetab[..], nthread, k);
    }

    predicate BadQid(q: int) {
      q < 0 || q + 1 >= quetab.Length
    }

    predicate BadTid(t: int)
      reads thrtab
    {
      t >= thrtab.Length || t < 0 || thrtab[t].state == Spec.Free
    }

    predicate BadSem(k: int)
      reads semtab
    {
      k < 0 || k >= semtab.Length || !semtab[k].used
    }

    /** isempty: the first entry of a queue is a thread or its tail. */
    lemma {:induction false} EmptyTest(j: int)
      requires Valid() && 0 <= j < |st.lists|
      ensures var q := QueueId(j);
              && 0 <= q < q + 1 < quetab.Length
              && (quetab[q].next >= nthread <==> st.lists[j] == [])
              && (st.lists[j] != [] ==> quetab[q].next == st.lists[j][0])
    {
      var f := Chain(QueueId(j), st.lists[j]);
      assert Linked(quetab[..], f);
      assert quetab[..][f[0]].next == f[1];
    }

    // ------------------------------------------------------------ queue.c

    method Enqueue(tid: int, q: int, ghost j: int) returns (r: int)
      requires Valid()
      requires !BadQid(q) && !BadTid(tid) ==> 0 <= j < |st.lists| && q == QueueId(j) && OnNone(st.lists, tid)
      modifies quetab, this`st
      ensures Valid()
      ensures if BadQid(q) || BadTid(tid) then r == SYSERR && st == old(st)
              else r == tid && st == Spec.Enqueue(old(st), tid, j)
    {
      if BadQid(q) || BadTid(tid) {
        return SYSERR;
      }
      ghost var l := st.lists[j];
      var tail := q + 1;
      var prev := quetab[tail].prev;
      assert prev == Chain(q, l)[|l|] by { TailLink(j); }
      assert InsertAt(l, |l|, tid) == l + [tid];
      LinkBetween(tid, prev, tail, j, |l|);
      return tid;
    }

    lemma {:induction false} TailLink(j: int)
      requires Valid() && 0 <= j < |st.lists|
      ensures 0 <= QueueId(j) < QueueId(j) + 1 < quetab.Length
      ensures quetab[QueueId(j) + 1].prev == Chain(QueueId(j), st.lists[j])[|st.lists[j]|]
    {
      var f := Chain(QueueId(j), st.lists[j]);
      assert Linked(quetab[..], f);
      assert quetab[..][f[|f|-1]].prev == f[|f|-2];
    }

    /** The four link assignments common to enqueue, insert and insertd. */
    method LinkBetween(tid: int, prev: int, next: int, ghost j: int, ghost i: nat)
      requires Valid() && 0 <= j < |st.lists| && i <= |st.lists[j]|
      requires 0 <= tid < nthread && OnNone(st.lists, tid)
      requires prev == Chain(QueueId(j), st.lists[j])[i] && next == Chain(QueueId(j), st.lists[j])[i+1]
      modifies quetab, this`st
      ensures Valid() && st == Spec.SetList(old(st), j, InsertAt(old(st).lists[j], i, tid))
    {
      hide Chains, Linked, InsertAt, OnNone;
      ghost var tab := quetab[..];
      LinkChains(tab, nthread, st.lists, j, i, tid);
      ChainIn(tab, nthread, st.lists, j, i);
      ChainIn(tab, nthread, st.lists, j, i + 1);
      InsertWithin(st.lists[j], i, tid, nthread);
      quetab[tid] := quetab[tid].(next := next);
      quetab[tid] := quetab[tid].(prev := prev);
      quetab[prev] := quetab[prev].(next := tid);
      quetab[next] := quetab[next].(prev := tid);
      assert quetab[..] == Link(tab, tid, prev, next);
      st := Spec.SetList(st, j, InsertAt(st.lists[j], i, tid));
    }

    method SetKey(tid: int, key: int)
      requires Valid() && 0 <= tid < nthread
      modifies quetab, this`st
      ensures Valid() && st == old(st).(key := old(st).key[tid := key])
    {
      ghost var tab := quetab[..];
      quetab[tid] := quetab[tid].(key := key);
      RekeyChains(tab, quetab[..], nthread, st.lists);
      st := st.(key := st.key[tid := key]);
    }

    method Dequeue(q: int, ghost j: int) returns (r: int)
      requires Valid()
      requires !BadQid(q) ==> 0 <= j < |st.lists| && q == QueueId(j)
      modifies quetab, this`st
      ensures Valid()
      ensures if BadQid(q) then r == SYSERR && st == old(st)
              else if old(st).lists[j] == [] then r == Spec.EMPTY && st == old(st)
              else r == old(st).lists[j][0] && st == Spec.Dequeue(old(st), j) && OnNone(st.lists, r)
    {
      if BadQid(q) {
        return SYSERR;
      }
      EmptyTest(j);
      if quetab[q].next >= nthread {
        return Spec.EMPTY;
      }
      DequeueIsGetItem(st, j);
      r := GetFirst(q, j);
      if !BadTid(r) {
        ghost var tab := quetab[..];
        quetab[r] := quetab[r].(prev := Spec.EMPTY);
        quetab[r] := quetab[r].(next := Spec.EMPTY);
        assert quetab[..] == tab;
      }
    }

    // ---------------------------------------------------------- getitem.c

    method GetFirst(q: int, ghost j: int) returns (r: int)
      requires Valid()
      requires !BadQid(q) ==> 0 <= j < |st.lists| && q == QueueId(j)
      modifies quetab, this`st
      ensures Valid()
      ensures if BadQid(q) then r == SYSERR && st == old(st)
              else if old(st).lists[j] == [] then r == Spec.EMPTY && st == old(st)
              else r == old(st).lists[j][0] && st == Spec.GetItem(old(st), r, j)
                   && OnNone(st.lists, r) && quetab[r].next == quetab[r].prev == Spec.EMPTY
    {
      if BadQid(q) {
        return SYSERR;
      }
      EmptyTest(j);
      if quetab[q].next >= nthread {
        return Spec.EMPTY;
      }
      var head := q;
      r := GetItem(quetab[head].next, j);
    }

    lemma {:induction false} ListsDisjoint()
      requires Valid()
      ensures Disjoint(st.lists)
    {
    }

    method GetItem(tid: int, ghost j: int) returns (r: int)
      requires Valid() && 0 <= j < |st.lists| && tid in st.lists[j]
      modifies quetab, this`st
      ensures Valid() && r == tid && st == Spec.GetItem(old(st), tid, j)
      ensures OnNone(st.lists, tid) && quetab[tid].next == quetab[tid].prev == Spec.EMPTY
    {
      hide Chains, Remove;
      ghost var tab := quetab[..];
      UnlinkChains(tab, nthread, st.lists, j, tid);
      ListsDisjoint();
      RemoveDisjoint(st.lists, j, tid);
      var next := quetab[tid].next;
      var prev := quetab[tid].prev;
      quetab[prev] := quetab[prev].(next := next);
      quetab[next] := quetab[next].(prev := prev);
      quetab[tid] := quetab[tid].(next := Spec.EMPTY);
      quetab[tid] := quetab[tid].(prev := Spec.EMPTY);
      assert quetab[..] == Unlink(tab, tid);
      st := Spec.GetItem(st, tid, j);
      return tid;
    }

    // ----------------------------------------------------------- insert.c

    /** The scanning loop of insert. */
    method ScanDescending(q: int, key: int, ghost j: int) returns (next: int, ghost i: nat)
      requires Valid() && 0 <= j < |st.lists| && q == QueueId(j) && key > Spec.MINKEY
      ensures i == InsertPos(st.lists[j], st.key, key)
      ensures next == Chain(q, st.lists[j])[i+1] && 0 <= next < quetab.Length
      ensures quetab[next].prev == Chain(q, st.lists[j])[i]
    {
      ghost var l := st.lists[j];
      ghost var f := Chain(q, l);
      assert Linked(quetab[..], f);
      assert quetab[..][f[0]].next == f[1];
      next := quetab[q].next;
      i := 0;
      while quetab[next].key >= key
        invariant 0 <= i <= |l| && next == f[i+1]
        invariant forall m :: 0 <= m < i ==> st.key[l[m]] >= key
        decreases |l| - i
      {
        assert i < |l|;
        assert quetab[..][f[i+1]].next == f[i+2];
        next := quetab[next].next;
        i := i + 1;
      }
      assert quetab[..][f[i+1]].prev == f[i];
    }

    method Insert(tid: int, q: int, key: int, ghost j: int) returns (r: int)
      requires Valid()
      requires !BadQid(q) && !BadTid(tid) ==>
                 0 <= j < |st.lists| && q == QueueId(j) && OnNone(st.lists, tid) && key > Spec.MINKEY
      modifies quetab, this`st
      ensures Valid()
      ensures if BadQid(q) || BadTid(tid) then r == SYSERR && st == old(st)
              else r == OK && st == Spec.Insert(old(st), tid, j, key)
    {
      if BadQid(q) || BadTid(tid) {
        return SYSERR;
      }
      var next, i := ScanDescending(q, key, j);
      var prev := quetab[next].prev;
      LinkBetween(tid, prev, next, j, i);
      SetKey(tid, key);
      return OK;
    }

    // ---------------------------------------------------------- insertd.c

    /** The scanning loop of insertd. */
    lemma {:induction false} ListWithin(j: int)
      requires Valid() && 0 <= j < |st.lists|
      ensures Within(st.lists[j], nthread) && Linked(quetab[..], Chain(QueueId(j), st.lists[j]))
    {
    }

    method ScanDeltas(q: int, key: int, ghost j: int) returns (prev: int, next: int, k: int, ghost i: nat)
      requires Valid() && 0 <= j < |st.lists| && q == QueueId(j)
      ensures i == DeltaPos(st.lists[j], st.key, key) && k == key - Due(st.lists[j], st.key, i)
      ensures next == Chain(q, st.lists[j])[i+1] && prev == Chain(q, st.lists[j])[i]
      ensures 0 <= next < quetab.Length && 0 <= prev < quetab.Length
    {
      hide Chains, DeltaPos;
      ghost var l := st.lists[j];
      ghost var f := Chain(q, l);
      ListWithin(j);
      assert quetab[..][f[0]].next == f[1];
      k := key;
      prev := q;
      next := quetab[q].next;
      i := 0;
      while quetab[next].key <= k && next != q + 1
        invariant 0 <= i <= |l| && next == f[i+1] && prev == f[i]
        invariant k == key - Due(l, st.key, i)
        invariant forall m :: 0 < m <= i ==> Due(l, st.key, m) <= key
        decreases |l| - i
      {
        assert next == l[i];
        assert quetab[..][f[i+1]].next == f[i+2];
        k := k - quetab[next].key;
        prev := next;
        next := quetab[next].next;
        i := i + 1;
      }
      assert i < |l| ==> next == l[i] && Due(l, st.key, i + 1) == Due(l, st.key, i) + quetab[next].key;
      DeltaPosUnique(l, st.key, key, i);
    }

    method InsertD(tid: int, q: int, key: int, ghost j: int) returns (r: int)
      requires Valid()
      requires !BadQid(q) && !BadTid(tid) ==> 0 <= j < |st.lists| && q == QueueId(j) && OnNone(st.lists, tid)
      modifies quetab, this`st
      ensures Valid()
      ensures if BadQid(q) || BadTid(tid) then r == SYSERR && st == old(st)
              else r == OK && st == Spec.InsertD(old(st), tid, j, key)
    {
      hide Chains, Linked, InsertAt, DeltaPos, Due, Within;
      if BadQid(q) || BadTid(tid) {
        return SYSERR;
      }
      ListWithin(j);
      var prev, next, k, i := ScanDeltas(q, key, j);
      ghost var l := st.lists[j];
      LinkBetween(tid, prev, next, j, i);
      SetKey(tid, k);
      if next != q + 1 {
        assert next == l[i];
        SetKey(next, quetab[next].key - k);
      }
      return OK;
    }

    // -------------------------------------------------- resched.c, ready.c

    method Resched() returns (r: int)
      requires Valid() && Base(st, -1)
      modifies quetab, thrtab, this`st, this`thrcurrent
      ensures Valid() && st == Spec.Resched(old(st)) && r == OK
    {
      hide Chains, Base, Moved, KeysMatch, OwnQueues, Spec.Resched, Spec.Dispatch, SameSems, SameMail, SameSleep;
      RedispatchForms(st);
      var throld := thrcurrent;
      if thrtab[throld].state == Spec.Curr {
        var ahead := OutranksFirst();
        if ahead {
          st := st.(rescheds := st.rescheds + 1);
          return OK;
        }
        Detached(st, st.cur);
        ReadyKeeps(st, st.cur);
        SelfReady();
      }
      RunFirst();
      st := st.(rescheds := st.rescheds + 1);
      return OK;
    }

    lemma {:induction false} RedispatchForms(s: Spec.State)
      requires Base(s, -1)
      ensures var l, me, m := s.lists[Spec.RQ(s)], s.thr[s.cur], Spec.MakeReady(s, s.cur);
              && (forall r {:trigger Spec.Dispatch(r)} :: Spec.Shape(r) ==> Spec.Dispatch(r).rescheds == r.rescheds)
              && Spec.Resched(s) ==
                   if me.state != Spec.Curr then Spec.Dispatch(s).(rescheds := s.rescheds + 1)
                   else if l != [] && me.prio > s.key[l[0]] then s.(rescheds := s.rescheds + 1)
                   else Spec.Dispatch(m).(rescheds := s.rescheds + 1)
    {
      hide InsertAt, InsertPos, PlacedIn, Sorted;
    }

    method OutranksFirst() returns (b: bool)
      requires Valid()
      ensures b <==> st.lists[nsem] != [] && st.thr[st.cur].prio > st.key[st.lists[nsem][0]]
    {
      EmptyTest(nsem);
      b := quetab[readylist].next < nthread && thrtab[thrcurrent].prio > quetab[quetab[readylist].next].key;
    }

    /** resched's insertion of the running thread in the ready list. */
    method SelfReady()
      requires Valid() && Base(st, -1) && st.thr[st.cur].state == Spec.Curr
      modifies quetab, thrtab, this`st
      ensures Valid() && st == Spec.MakeReady(old(st), old(st).cur)
    {
      hide Chains, Sorted;
      assert OnNone(st.lists, st.cur);
      SetThreadState(thrcurrent, Spec.Ready);
      var _ := Insert(thrcurrent, readylist, thrtab[thrcurrent].prio, nsem);
    }

    /** resched's dispatch; the context switch is the assignment to thrcurrent. */
    method RunFirst()
      requires Valid() && Base(st, -1) && st.thr[st.cur].state != Spec.Curr
      modifies quetab, thrtab, this`st, this`thrcurrent
      ensures Valid() && st == Spec.Dispatch(old(st))
    {
      hide Chains, Base, Moved;
      DispatchKeeps(st);
      var t := Dequeue(readylist, nsem);
      SetThreadState(t, Spec.Curr);
      thrcurrent := t;
      st := st.(cur := t);
    }

    method SetThreadState(t: int, state: Spec.ThreadState)
      requires Valid() && 0 <= t < nthread
      modifies thrtab, this`st
      ensures Valid() && st == Spec.SetState(old(st), t, state)
    {
      thrtab[t] := thrtab[t].(state := state);
      st := Spec.SetState(st, t, state);
    }

    method Ready(tid: int, resch: bool) returns (r: int)
      requires Valid() && (resch ==> Base(st, tid))
      requires !BadTid(tid) ==> OnNone(st.lists, tid) && thrtab[tid].prio > Spec.MINKEY
      modifies quetab, thrtab, this`st, this`thrcurrent
      ensures Valid()
      ensures r == if old(BadTid(tid)) then SYSERR else OK
      ensures st == if resch && r == OK then Spec.Resched(Spec.MakeReady(old(st), tid)) else Spec.MakeReady(old(st), tid)
    {
      hide Chains, Base, SameSems, SameMail, SameSleep;
      if BadTid(tid) {
        return SYSERR;
      }
      if resch {
        ReadyKeeps(st, tid);
      }
      SetThreadState(tid, Spec.Ready);
      var _ := Insert(tid, readylist, thrtab[tid].prio, nsem);
      if resch {
        var _ := Resched();
      }
      return OK;
    }

    // ------------------------------------------------------------ thread calls

    method Yield() returns (r: int)
      requires Valid() && Inv(st)
      modifies quetab, thrtab, this`st, this`thrcurrent
      ensures Valid() && st == Spec.Resched(old(st)) && r == OK
    {
      r := Resched();
    }

    method Resume(tid: int) returns (r: int)
      requires Valid() && Inv(st)
      modifies quetab, thrtab, this`st, this`thrcurrent
      ensures Valid() && st == Spec.ResumeCall(old(st), tid)
      ensures r == if old(BadTid(tid) || thrtab[tid].state != Spec.Susp) then SYSERR else old(thrtab[tid].prio)
    {
      hide Chains, Sorted;
      if BadTid(tid) || thrtab[tid].state != Spec.Susp {
        return SYSERR;
      }
      Detached(st, tid);
      var prio := thrtab[tid].prio;
      var _ := Ready(tid, true);
      return prio;
    }

    /** suspend up to its answer; a thread that suspends itself gets none before
        it runs again, from SuspendReturn. */
    method Suspend(tid: int) returns (stopped: bool, r: int)
      requires Valid() && Inv(st)
      modifies quetab, thrtab, this`st, this`thrcurrent
      ensures Valid() && st == Spec.SuspendCall(old(st), tid)
      ensures stopped == old(!BadTid(tid) && tid != Spec.NULLTHREAD && thrtab[tid].state == Spec.Curr)
      ensures !stopped ==> r == if old(BadTid(tid) || tid == Spec.NULLTHREAD || thrtab[tid].state != Spec.Ready)
                                then SYSERR else old(thrtab[tid].prio)
    {
      hide Chains, Sorted;
      if BadTid(tid) || tid == Spec.NULLTHREAD {
        return false, SYSERR;
      }
      if thrtab[tid].state != Spec.Curr && thrtab[tid].state != Spec.Ready {
        return false, SYSERR;
      }
      if thrtab[tid].state == Spec.Ready {
        assert tid in st.lists[nsem];
        var _ := GetItem(tid, nsem);
        SetThreadState(tid, Spec.Susp);
        return false, thrtab[tid].prio;
      } else {
        StopSelfKeeps(st, Spec.Susp);
        SetThreadState(tid, Spec.Susp);
        var _ := Resched();
        return true, 0;
      }
    }

    /** The last lines of suspend for a thread that suspended itself, once it is
        running again: it answers the priority it has by then. */
    method SuspendReturn() returns (r: int)
      requires Valid() && Inv(st)
      ensures r == st.thr[st.cur].prio
    {
      r := thrtab[thrcurrent].prio;
    }

    /** The thread table entry that create fills in, once a slot is found. */
    method Create(tid: int, priority: int)
      requires Valid() && 0 <= tid < nthread
      modifies thrtab, this`st
      ensures Valid() && st == Spec.CreateCall(old(st), tid, priority)
    {
      thrtab[tid] := thrtab[tid].(state := Spec.Susp);
      thrtab[tid] := thrtab[tid].(prio := priority);
      thrtab[tid] := thrtab[tid].(parent := thrcurrent);
      thrtab[tid] := thrtab[tid].(hasmsg := false);
      st := Spec.CreateCall(st, tid, priority);
    }

    method ChPrio(tid: int, newprio: int) returns (r: int)
      requires Valid() && Inv(st)
      modifies thrtab, this`st
      ensures Valid() && st == Spec.ChPrioCall(old(st), tid, newprio)
      ensures r == if old(BadTid(tid)) then SYSERR else old(thrtab[tid].prio)
    {
      if BadTid(tid) {
        return SYSERR;
      }
      r := thrtab[tid].prio;
      thrtab[tid] := thrtab[tid].(prio := newprio);
      st := Spec.ChPrioCall(st, tid, newprio);
    }

    // --------------------------------------------------------- semaphore calls

    method SetCount(sem: int, e: Spec.Semaphore, ghost g: Spec.SemLog)
      requires Valid() && 0 <= sem < nsem && e.queue == semtab[sem].queue
      modifies semtab, this`st
      ensures Valid() && st == Spec.SetSem(old(st), sem, e, g)
    {
      semtab[sem] := e;
      st := Spec.SetSem(st, sem, e, g);
    }

    method Wait(sem: int) returns (r: int)
      requires Valid() && Inv(st) && (Spec.Blocks(st, Spec.EvWait(sem)) ==> st.cur != Spec.NULLTHREAD)
      modifies quetab, thrtab, semtab, this`st, this`thrcurrent
      ensures Valid() && st == Spec.WaitCall(old(st), sem)
      ensures r == if old(BadSem(sem)) then SYSERR else OK
    {
      hide Chains, Sorted;
      if BadSem(sem) {
        return SYSERR;
      }
      CountDownKeeps(st, sem);
      SetCount(sem, semtab[sem].(count := semtab[sem].count - 1), Spec.CountDown(st, sem).slog[sem]);
      if semtab[sem].count < 0 {
        BlockKeeps(st, sem);
        BlockSelf(sem);
        var _ := Resched();
      }
      return OK;
    }

    method BlockSelf(sem: int)
      requires Valid() && Base(st, -1) && st.thr[st.cur].state == Spec.Curr && 0 <= sem < nsem
      modifies quetab, thrtab, this`st
      ensures Valid() && st == Spec.Block(old(st), sem)
    {
      hide Chains, Sorted;
      assert OnNone(st.lists, st.cur);
      ghost var g := st.slog[sem];
      thrtab[thrcurrent] := thrtab[thrcurrent].(state := Spec.Wait);
      thrtab[thrcurrent] := thrtab[thrcurrent].(sem := sem);
      st := Spec.SetSem(st, sem, st.sem[sem], g.(arrived := g.arrived + [st.cur]))
      .(thr := st.thr[st.cur := st.thr[st.cur].(state := Spec.Wait, sem := sem)]);
      var _ := Enqueue(thrcurrent, semtab[sem].queue, sem);
    }

    /** ready(dequeue(queue), RESCHED_NO), as signaln and semfree use it. */
    method ReleaseFirst(sem: int)
      requires Valid() && AllRanked() && 0 <= sem < nsem
      modifies quetab, thrtab, this`st, this`thrcurrent
      ensures Valid() && st == Spec.Release(old(st), sem)
    {
      hide Chains;
      if st.lists[sem] != [] {
        ghost var t, g := st.lists[sem][0], st.slog[sem];
        st := Spec.SetSem(st, sem, st.sem[sem], g.(released := g.released + [t]));
      }
      var tid := Dequeue(semtab[sem].queue, sem);
      if tid != Spec.EMPTY {
        var _ := Ready(tid, false);
      }
    }

    method SignalStep(sem: int)
      requires Valid() && AllRanked() && !BadSem(sem)
      modifies quetab, thrtab, semtab, this`st, this`thrcurrent
      ensures Valid() && st == Spec.SignalOne(old(st), sem)
    {
      hide Chains;
      var before := semtab[sem].count;
      SetCount(sem, semtab[sem].(count := before + 1), Spec.CountUp(st, sem).slog[sem]);
      if before < 0 {
        ReleaseFirst(sem);
      }
    }

    method Signal(sem: int) returns (r: int)
      requires Valid() && Inv(st)
      modifies quetab, thrtab, semtab, this`st, this`thrcurrent
      ensures Valid() && st == Spec.SignalCall(old(st), sem)
      ensures r == if old(BadSem(sem)) then SYSERR else OK
    {
      hide Chains, PlacedIn, Sorted, SameMail, SameSleep;
      if BadSem(sem) {
        return SYSERR;
      }
      assert CountOk(st, sem);
      SignalOneKeeps(st, sem);
      var before := semtab[sem].count;
      SignalStep(sem);
      if before < 0 {
        var _ := Resched();
      }
      return OK;
    }

    method SignalN(sem: int, count: int) returns (r: int)
      requires Valid() && Inv(st)
      modifies quetab, thrtab, semtab, this`st, this`thrcurrent
      ensures Valid() && st == Spec.SignalNCall(old(st), sem, count)
      ensures r == if old(BadSem(sem)) || count <= 0 then SYSERR else OK
    {
      hide Chains, Placed, Sorted, CountOk, Spec.SignalOne, Spec.SignalMany;
      if BadSem(sem) || count <= 0 {
        return SYSERR;
      }
      var n := count;
      while n > 0
        invariant Valid() && Base(st, -1) && Counts(st) && !BadSem(sem) && 0 <= n <= count
        invariant Spec.SignalMany(st, sem, n) == Spec.SignalMany(old(st), sem, count)
      {
        SignalOneKeeps(st, sem);
        SignalManyForm(st, sem, n);
        SignalStep(sem);
        n := n - 1;
      }
      SignalManyForm(st, sem, 0);
      var _ := Resched();
      return OK;
    }

    method SemFree(sem: int) returns (r: int)
      requires Valid() && Inv(st)
      modifies quetab, thrtab, semtab, this`st, this`thrcurrent
      ensures Valid() && st == Spec.SemFreeCall(old(st), sem)
      ensures r == if old(BadSem(sem)) then SYSERR else OK
    {
      hide Chains, Base, Spec.Drain, KeysMatch;
      if BadSem(sem) {
        return SYSERR;
      }
      ReleaseAll(sem);
      SetCount(sem, semtab[sem].(count := 0), st.slog[sem]);
      SetCount(sem, semtab[sem].(used := false), st.slog[sem]);
      return OK;
    }

    /** The loop of semfree. */
    method ReleaseAll(sem: int)
      requires Valid() && Base(st, -1) && 0 <= sem < nsem
      modifies quetab, thrtab, this`st, this`thrcurrent
      ensures Valid() && st == Spec.Drain(old(st), sem)
    {
      hide Chains, Placed, Sorted, Spec.Release;
      EmptyTest(sem);
      while quetab[semtab[sem].queue].next < nthread
        invariant Valid() && Base(st, -1) && Spec.Drain(st, sem) == Spec.Drain(old(st), sem)
        invariant quetab[QueueId(sem)].next < nthread <==> st.lists[sem] != []
        decreases |st.lists[sem]|
      {
        ReleaseKeeps(st, sem);
        ReleaseFirst(sem);
        EmptyTest(sem);
      }
    }

    /** The static function semalloc. */
    method SemAlloc() returns (r: int)
      requires Valid()
      modifies semtab, this`nextsem, this`st
      ensures r == Spec.NextFree(old(st).sem, old(st).nextsem, nsem) && -1 <= r < nsem
      ensures Valid()
      ensures st == if r < 0 then old(st)
                    else old(st).(sem := old(st).sem[r := old(st).sem[r].(used := true)], nextsem := r)
    {
      hide Chains, KeysMatch, Within;
      var sem := 0;
      ghost var from := nextsem;
      while sem < nsem
        invariant 0 <= sem <= nsem && semtab[..] == old(semtab[..]) && st == old(st)
        invariant nsem > 0 ==> nextsem == if from + sem < nsem then from + sem else from + sem - nsem
        invariant nsem == 0 ==> nextsem == from
        invariant Spec.NextFree(st.sem, nextsem, nsem - sem) == Spec.NextFree(st.sem, from, nsem)
      {
        Successor(nextsem, nsem);
        nextsem := (nextsem + 1) % nsem;
        if !semtab[nextsem].used {
          semtab[nextsem] := semtab[nextsem].(used := true);
          st := st.(sem := st.sem[nextsem := st.sem[nextsem].(used := true)], nextsem := nextsem);
          return nextsem;
        }
        sem := sem + 1;
      }
      return SYSERR;
    }

    method SemCreate(count: int) returns (r: int)
      requires Valid()
      modifies semtab, this`nextsem, this`st
      ensures Valid() && st == Spec.SemCreateCall(old(st), count)
      ensures var k := Spec.NextFree(old(st).sem, old(st).nextsem, nsem);
              r == if k == -1 || count < 0 then SYSERR else k
    {
      hide Chains, KeysMatch, Within, Spec.NextFree;
      var sem := SemAlloc();
      if sem != SYSERR {
        ghost var c := if count >= 0 then count else st.sem[sem].count;
        st := st.(slog := st.slog[sem := Spec.SemLog(c, 0, 0, 0, [], [])]);
      }
      if sem != SYSERR && count >= 0 {
        semtab[sem] := semtab[sem].(count := count);
        st := st.(sem := st.sem[sem := st.sem[sem].(count := count)]);
        return sem;
      }
      return SYSERR;
    }

    // ------------------------------------------------------------- clock calls

    method Sleep(ms: nat) returns (r: int)
      requires Valid() && Inv(st) && (Spec.Blocks(st, Spec.EvSleep(ms)) ==> st.cur != Spec.NULLTHREAD)
      modifies quetab, thrtab, this`st, this`thrcurrent
      ensures Valid() && st == Spec.SleepCall(old(st), ms) && r == OK
    {
      hide Chains, Sorted;
      var ticks := ((ms * Spec.CLKTICKS_PER_SEC) % Spec.WORD) / 1000;
      if ticks > 0 {
        FallAsleep(st, ticks, Spec.Sleep);
        var e := JoinSleepers(ticks, Spec.Sleep);
        if e == SYSERR {
          return SYSERR;
        }
      }
      r := Resched();
    }

    /** insertd of the running thread and its new state, in sleep and recvtime. */
    method JoinSleepers(n: int, state: Spec.ThreadState) returns (e: int)
      requires Valid() && Inv(st)
      modifies quetab, thrtab, this`st
      ensures Valid() && e == OK
      ensures st == Spec.SetState(Spec.InsertD(old(st), old(st).cur, nsem + 1, n), old(st).cur, state)
    {
      hide Chains, Sorted;
      assert OnNone(st.lists, st.cur);
      e := InsertD(thrcurrent, sleepq, n, nsem + 1);
      SetThreadState(thrcurrent, state);
    }

    method Unsleep(tid: int) returns (r: int)
      requires Valid()
      requires !BadTid(tid) && (thrtab[tid].state == Spec.Sleep || thrtab[tid].state == Spec.Tmout) ==>
                 tid in st.lists[nsem + 1]
      modifies quetab, this`st
      ensures Valid() && st == Spec.Unsleep(old(st), tid)
      ensures r == if old(BadTid(tid) || (thrtab[tid].state != Spec.Sleep && thrtab[tid].state != Spec.Tmout))
                   then SYSERR else OK
    {
      hide Chains, Remove, UndeltaKeys, OnNone;
      if BadTid(tid) {
        return SYSERR;
      }
      if thrtab[tid].state != Spec.Sleep && thrtab[tid].state != Spec.Tmout {
        return SYSERR;
      }
      NextSleeper(tid);
      var next := quetab[tid].next;
      if next < nthread {
        SetKey(next, quetab[next].key + quetab[tid].key);
      }
      var _ := GetItem(tid, nsem + 1);
      return OK;
    }

    lemma {:induction false} NextSleeper(tid: int)
      requires Valid() && tid in st.lists[nsem + 1]
      ensures 0 <= tid < nthread
      ensures var l, next := st.lists[nsem + 1], quetab[tid].next;
              && 0 <= next && Within(l, nthread)
              && UndeltaKeys(l, st.key, tid) ==
                   if next < nthread then st.key[next := st.key[next] + st.key[tid]] else st.key
    {
      UnlinkChains(quetab[..], nthread, st.lists, nsem + 1, tid);
      ListWithin(nsem + 1);
    }

    method Wakeup()
      requires Valid() && AllRanked()
      modifies quetab, thrtab, this`st, this`thrcurrent
      ensures Valid() && st == Spec.Wakeup(old(st))
    {
      hide Chains, Spec.WakeOne;
      EmptyTest(nsem + 1);
      while quetab[sleepq].next < nthread && quetab[quetab[sleepq].next].key <= 0
        invariant Valid() && AllRanked() && Spec.Wakeup(st) == Spec.Wakeup(old(st))
        invariant quetab[sleepq].next < nthread <==> st.lists[nsem + 1] != []
        invariant st.lists[nsem + 1] != [] ==> quetab[sleepq].next == st.lists[nsem + 1][0]
        decreases |st.lists[nsem + 1]|
      {
        WakeFirst();
        EmptyTest(nsem + 1);
      }
    }

    /** Every priority is a key that insert can place. */
    predicate AllRanked()
      reads thrtab
    {
      forall t :: 0 <= t < thrtab.Length ==> thrtab[t].prio > Spec.MINKEY
    }

    /** ready(dequeue(sleepq), RESCHED_NO) */
    method WakeFirst()
      requires Valid() && AllRanked() && st.lists[nsem + 1] != []
      modifies quetab, thrtab, this`st, this`thrcurrent
      ensures Valid() && AllRanked() && st == Spec.WakeOne(old(st))
      ensures |st.lists[nsem + 1]| == |old(st).lists[nsem + 1]| - 1
    {
      hide Chains;
      var tid := Dequeue(sleepq, nsem + 1);
      var _ := Ready(tid, false);
    }

    method ClkHandler()
      requires Valid() && Inv(st)
      modifies quetab, thrtab, this`st, this`thrcurrent, this`clkticks, this`clktime
      ensures Valid() && st == Spec.ClockCall(old(st))
      ensures clkticks < Spec.CLKTICKS_PER_SEC
      ensures clktime * Spec.CLKTICKS_PER_SEC + clkticks
              == if old(clkticks) < Spec.CLKTICKS_PER_SEC
                 then old(clktime * Spec.CLKTICKS_PER_SEC + clkticks) + 1
                 else old(clktime + 1) * Spec.CLKTICKS_PER_SEC
    {
      hide Chains, PlacedIn, Sorted, SameSems, SameMail;
      clkticks := clkticks + 1;
      if clkticks >= Spec.CLKTICKS_PER_SEC {
        clktime := clktime + 1;
        clkticks := 0;
      }
      TickKeeps(st);
      AdvanceSleepers();
      var _ := Resched();
    }

    /** clkhandler's decrement of the first key and call of wakeup. */
    method AdvanceSleepers()
      requires Valid() && AllRanked()
      modifies quetab, thrtab, this`st, this`thrcurrent
      ensures Valid() && st == Spec.Tick(old(st))
    {
      hide Chains, Spec.Wakeup;
      EmptyTest(nsem + 1);
      if quetab[sleepq].next < nthread {
        var first := quetab[sleepq].next;
        SetKey(first, quetab[first].key - 1);
        if quetab[first].key <= 0 {
          Wakeup();
        }
      }
    }

    // ----------------------------------------------------------- message calls

    method Send(tid: int, msg: int) returns (r: int)
      requires Valid() && Inv(st)
      modifies quetab, thrtab, this`st, this`thrcurrent
      ensures Valid() && st == Spec.SendCall(old(st), tid, msg)
      ensures r == if old(BadTid(tid) || thrtab[tid].hasmsg) then SYSERR else OK
    {
      hide Chains, Sorted, SameSems, SameMail, SameSleep;
      if BadTid(tid) {
        return SYSERR;
      }
      if thrtab[tid].state == Spec.Free || thrtab[tid].hasmsg {
        return SYSERR;
      }
      var state := thrtab[tid].state;
      PutMessage(tid, msg);
      if state == Spec.Recv {
        Detached(st, tid);
        var _ := Ready(tid, true);
      } else if state == Spec.Tmout {
        ReadySleeper(tid);
      }
      return OK;
    }

    /** A receiver with a timeout leaves the sleepers before it becomes ready. */
    method ReadySleeper(tid: int)
      requires Valid() && Base(st, -1) && 0 <= tid < nthread && st.thr[tid].state == Spec.Tmout
      modifies quetab, thrtab, this`st, this`thrcurrent
      ensures Valid() && st == Spec.Resched(Spec.MakeReady(Spec.Unsleep(old(st), tid), tid))
    {
      hide Chains, Sorted, SameSems, SameMail, SameSleep;
      UnsleepKeeps(st, tid);
      var _ := Unsleep(tid);
      var _ := Ready(tid, true);
    }

    method PutMessage(tid: int, msg: int)
      requires Valid() && Base(st, -1) && 0 <= tid < nthread
      modifies thrtab, this`st
      ensures Valid() && st == Spec.Deposit(old(st), tid, msg) && Base(st, -1)
    {
      hide Chains, Base;
      MessagesKeep(st, Spec.Deposit(st, tid, msg), -1);
      thrtab[tid] := thrtab[tid].(msg := msg);
      thrtab[tid] := thrtab[tid].(hasmsg := true);
      st := Spec.Deposit(st, tid, msg);
    }

    method TakeMessage() returns (msg: int)
      requires Valid()
      modifies thrtab, this`st
      ensures Valid() && st == Spec.Take(old(st)) && msg == old(thrtab[thrcurrent].msg)
    {
      hide Chains;
      msg := thrtab[thrcurrent].msg;
      thrtab[thrcurrent] := thrtab[thrcurrent].(hasmsg := false);
      st := Spec.Take(st);
    }

    /** receive up to the point where it blocks, or all of it. */
    method Receive() returns (blocked: bool, msg: int)
      requires Valid() && Inv(st) && (Spec.Blocks(st, Spec.EvReceive) ==> st.cur != Spec.NULLTHREAD)
      modifies quetab, thrtab, this`st, this`thrcurrent
      ensures Valid() && st == Spec.ReceiveCall(old(st))
      ensures blocked == !old(thrtab[thrcurrent].hasmsg)
      ensures !blocked ==> msg == old(thrtab[thrcurrent].msg) && !thrtab[old(thrcurrent)].hasmsg
    {
      hide Chains, Sorted, PlacedIn;
      msg := 0;
      if !thrtab[thrcurrent].hasmsg {
        StopSelfKeeps(st, Spec.Recv);
        SetThreadState(thrcurrent, Spec.Recv);
        ghost var s1 := Spec.SetCall(st, st.cur, Spec.InReceive);
        MessagesKeep(st, s1, -1);
        st := s1;
        var _ := Resched();
        return true, msg;
      }
      msg := TakeMessage();
      return false, msg;
    }

    /** The rest of receive, once its thread runs again. */
    method ReceiveReturn() returns (msg: int)
      requires Valid() && Inv(st) && st.calls[st.cur] == Spec.InReceive
      modifies thrtab, this`st
      ensures Valid() && st == Spec.Continue(old(st))
      ensures msg == old(thrtab[thrcurrent].msg) && !thrtab[old(thrcurrent)].hasmsg
    {
      hide Chains;
      st := Spec.SetCall(st, st.cur, Spec.Idle);
      msg := TakeMessage();
    }

    method RecvTime(maxwait: int) returns (blocked: bool, msg: int)
      requires Valid() && Inv(st) && (Spec.Blocks(st, Spec.EvRecvTime(maxwait)) ==> st.cur != Spec.NULLTHREAD)
      modifies quetab, thrtab, this`st, this`thrcurrent
      ensures Valid() && st == Spec.RecvTimeCall(old(st), maxwait)
      ensures blocked == (maxwait >= 0 && !old(thrtab[thrcurrent].hasmsg))
      ensures !blocked ==> msg == if maxwait < 0 then SYSERR else old(thrtab[thrcurrent].msg)
      ensures !blocked && maxwait >= 0 ==> !thrtab[old(thrcurrent)].hasmsg
    {
      hide Chains, Inv, KeysMatch, OwnQueues, Spec.InsertD, Spec.Resched;
      if maxwait < 0 {
        return false, SYSERR;
      }
      if !thrtab[thrcurrent].hasmsg {
        var e := WaitTimed(maxwait);
        if e == SYSERR {
          return false, SYSERR;
        }
        return true, 0;
      }
      msg := TakeMessage();
      return false, msg;
    }

    /** A timed receive without a message joins the sleepers. */
    method WaitTimed(maxwait: int) returns (e: int)
      requires Valid() && Inv(st) && st.cur != Spec.NULLTHREAD && maxwait >= 0
      modifies quetab, thrtab, this`st, this`thrcurrent
      ensures Valid() && e == OK
      ensures st == Spec.Resched(Spec.SetCall(Spec.SetState(Spec.InsertD(old(st), old(st).cur, nsem + 1, maxwait),
                                                            old(st).cur, Spec.Tmout), old(st).cur, Spec.InRecvTime))
    {
      hide Chains, Base, Counts, KeysMatch, OwnQueues;
      FallAsleep(st, maxwait, Spec.Tmout);
      e := JoinSleepers(maxwait, Spec.Tmout);
      ghost var s1 := Spec.SetCall(st, st.cur, Spec.InRecvTime);
      MessagesKeep(st, s1, -1);
      st := s1;
      var _ := Resched();
    }

    method RecvTimeReturn() returns (msg: int)
      requires Valid() && Inv(st) && st.calls[st.cur] == Spec.InRecvTime
      modifies thrtab, this`st
      ensures Valid() && st == Spec.Continue(old(st))
      ensures msg == if old(thrtab[thrcurrent].hasmsg) then old(thrtab[thrcurrent].msg) else TIMEOUT
      ensures !thrtab[old(thrcurrent)].hasmsg
    {
      hide Chains;
      st := Spec.SetCall(st, st.cur, Spec.Idle);
      if thrtab[thrcurrent].hasmsg {
        msg := TakeMessage();
      } else {
        msg := TIMEOUT;
      }
    }

    method RecvClr() returns (msg: int)
      requires Valid() && Inv(st)
      modifies thrtab, this`st
      ensures Valid() && st == Spec.RecvClrCall(old(st))
      ensures msg == if old(thrtab[thrcurrent].hasmsg) then old(thrtab[thrcurrent].msg) else NOMSG
      ensures !thrtab[old(thrcurrent)].hasmsg
    {
      hide Chains;
      if thrtab[thrcurrent].hasmsg {
        msg := TakeMessage();
      } else {
        msg := NOMSG;
        thrtab[thrcurrent] := thrtab[thrcurrent].(hasmsg := false);
        assert thrtab[..] == old(thrtab[..]);
      }
    }

    // -------------------------------------------------------------------- kill

    /** kill up to its message to the parent. */
    method Kill(tid: int) returns (r: int)
      requires Valid() && Inv(st)
      modifies quetab, thrtab, this`st, this`thrcurrent
      ensures Valid() && st == Spec.KillCall(old(st), tid)
      ensures r == if old(BadTid(tid)) || tid == Spec.NULLTHREAD then SYSERR else OK
    {
      hide Chains, Base, Counts;
      if BadTid(tid) || tid == Spec.NULLTHREAD {
        return SYSERR;
      }
      ghost var s1 := Spec.SetCall(st, st.cur, Spec.InKill(tid));
      MessagesKeep(st, s1, -1);
      st := s1;
      var _ := Send(thrtab[tid].parent, tid);
      return OK;
    }

    /** The rest of kill: the switch on the state of the victim. */
    lemma {:induction false} VictimPlace(s: Spec.State, t: int)
      requires Inv(s) && 0 <= t < |s.thr|
      ensures s.thr[t].state == Spec.Curr ==> t == s.cur
      ensures s.thr[t].state == Spec.Ready ==> t in s.lists[Spec.RQ(s)]
      ensures s.thr[t].state == Spec.Wait ==> 0 <= s.thr[t].sem < |s.sem|
    {
    }

    method KillReturn(tid: int) returns (r: int)
      requires Valid() && Inv(st) && st.calls[st.cur] == Spec.InKill(tid)
      modifies quetab, thrtab, semtab, this`st, this`thrcurrent
      ensures Valid() && st == Spec.Continue(old(st)) && r == OK
    {
      hide Chains, Sorted, PlacedIn, Running, CountOk, Spec.Resched, Spec.Cancel, Spec.Unsleep, Spec.GetItem, OnNone;
      ghost var s1 := Spec.SetCall(st, st.cur, Spec.Idle);
      MessagesKeep(st, s1, -1);
      VictimPlace(st, tid);
      st := s1;
      match thrtab[tid].state {
        case Sleep =>
          SetThreadState(tid, Spec.Free);
          var _ := Unsleep(tid);
        case Curr =>
          StopSelfKeeps(st, Spec.Free);
          SetThreadState(tid, Spec.Free);
          var _ := Resched();
        case Wait =>
          CancelWait(tid);
        case Ready =>
          var _ := GetItem(tid, nsem);
          SetThreadState(tid, Spec.Free);
        case _ =>
          SetThreadState(tid, Spec.Free);
      }
      return OK;
    }

    /** The case of a waiting victim, which falls through to getitem. */
    method CancelWait(tid: int)
      requires Valid() && Base(st, -1) && 0 < tid < nthread && st.thr[tid].state == Spec.Wait
      modifies quetab, thrtab, semtab, this`st
      ensures 0 <= old(st).thr[tid].sem < nsem
      ensures Valid() && st == Spec.SetState(Spec.Cancel(old(st), tid, old(st).thr[tid].sem), tid, Spec.Free)
    {
      hide Chains, Sorted, Remove, Running;
      var sem := thrtab[tid].sem;
      assert tid in st.lists[sem];
      SetCount(sem, semtab[sem].(count := semtab[sem].count + 1), Spec.Cancel(st, tid, sem).slog[sem]);
      var _ := GetItem(tid, sem);
      SetThreadState(tid, Spec.Free);
    }
  }
}
