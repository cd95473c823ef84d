/**
 Every system call and the clock interrupt keep the kernel invariant, and so
 does every run.
 */
module KernelSteps {
  import opened ThreadLists
  import opened DeltaQueue
  import opened KernelState
  import opened KernelInv

  /** The end of every call that reschedules. */
  lemma {:induction false} ReschedInv(s: State)
    requires Base(s, -1) && Counts(s)
    ensures Inv(Resched(s)) && Moved(s, Resched(s))
  {
    ReschedKeeps(s);
    CountsFrame(s, Resched(s));
  }

  // ----------------------------------------------------- threads and states

  lemma {:induction false} ReadyOne(s: State, t: int)
    requires Inv(s) && !BadTid(s, t) && Place(s.thr[t], |s.sem|) == -1 && t != s.cur
    ensures Inv(MakeReady(s, t)) && SameSems(s, MakeReady(s, t)) && SameSleep(s, MakeReady(s, t))
    ensures s.thr[t].state != Recv ==> SameMail(s, MakeReady(s, t))
  {
    Detached(s, t);
    ReadyKeeps(s, t);
    CountsFrame(s, MakeReady(s, t));
  }

  lemma {:induction false} ResumeKeeps(s: State, t: int)
    requires Inv(s)
    ensures Inv(ResumeCall(s, t)) && Moved(s, ResumeCall(s, t))
  {
    if !BadTid(s, t) && s.thr[t].state == Susp {
      ReadyOne(s, t);
      ReschedInv(MakeReady(s, t));
      Then(s, MakeReady(s, t), ResumeCall(s, t));
    }
  }

  /** A thread that has just left its queue stops. */
  lemma {:induction false} StopKeeps(s: State, t: int, st: ThreadState)
    requires Base(s, t) && 0 < t < |s.thr| && (st == Susp || st == Free || st == Recv)
    ensures Base(SetState(s, t, st), -1)
  {
  }

  lemma {:induction false} RemoveReadyKeeps(s: State, t: int, st: ThreadState)
    requires Inv(s) && 0 < t < |s.thr| && s.thr[t].state == Ready && (st == Susp || st == Free)
    ensures Inv(SetState(GetItem(s, t, RQ(s)), t, st))
    ensures SameSems(s, SetState(GetItem(s, t, RQ(s)), t, st)) && SameSleep(s, SetState(GetItem(s, t, RQ(s)), t, st))
    ensures st == Susp ==> SameMail(s, SetState(GetItem(s, t, RQ(s)), t, st))
  {
    hide Sorted, Remove, CountOk;
    assert t !in s.lists[SQ(s)];
    TakeOff(s, t, RQ(s));
    StopKeeps(GetItem(s, t, RQ(s)), t, st);
    CountsFrame(s, SetState(GetItem(s, t, RQ(s)), t, st));
  }

  /** The running thread stops and gives up the processor. */
  lemma {:induction false} StopSelfKeeps(s: State, st: ThreadState)
    requires Inv(s) && s.cur != NULLTHREAD && (st == Susp || st == Free || st == Recv)
    ensures Base(SetState(s, s.cur, st), -1) && Counts(SetState(s, s.cur, st))
    ensures SameSems(s, SetState(s, s.cur, st)) && SameSleep(s, SetState(s, s.cur, st))
    ensures st == Susp ==> SameMail(s, SetState(s, s.cur, st))
  {
    assert s.cur !in s.lists[SQ(s)];
    Detached(s, s.cur);
    StopKeeps(s, s.cur, st);
    CountsFrame(s, SetState(s, s.cur, st));
  }

  lemma {:induction false} SuspendKeeps(s: State, t: int)
    requires Inv(s)
    ensures Inv(SuspendCall(s, t)) && Moved(s, SuspendCall(s, t))
  {
    if !BadTid(s, t) && t != NULLTHREAD {
      if s.thr[t].state == Ready {
        RemoveReadyKeeps(s, t, Susp);
      } else if s.thr[t].state == Curr {
        StopSelfKeeps(s, Susp);
        ReschedInv(SetState(s, t, Susp));
        Then(s, SetState(s, t, Susp), SuspendCall(s, t));
      }
    }
  }

  lemma {:induction false} CreateKeeps(s: State, t: int, prio: int)
    requires Inv(s) && 0 <= t < |s.thr| && s.thr[t].state == Free
    ensures Inv(CreateCall(s, t, prio)) <==> prio > MINKEY
    ensures SameSems(s, CreateCall(s, t, prio)) && SameSleep(s, CreateCall(s, t, prio))
  {
    var r := CreateCall(s, t, prio);
    assert t !in s.lists[SQ(s)];
    assert PlacedIn(r.thr, r.lists, -1) && r.thr[t].prio == prio;
    CountsFrame(s, r);
  }

  lemma {:induction false} ChPrioKeeps(s: State, t: int, prio: int)
    requires Inv(s)
    ensures Moved(s, ChPrioCall(s, t, prio))
    ensures Inv(ChPrioCall(s, t, prio)) <==> BadTid(s, t) || prio > MINKEY
  {
    var r := ChPrioCall(s, t, prio);
    PlacedFrame(s.thr, r.thr, s.lists, -1);
    CountsFrame(s, r);
  }

  // --------------------------------------------------------------- semaphores

  lemma {:induction false} OtherCounts(s: State, r: State, k: int)
    requires Shape(s) && Shape(r) && Counts(s) && 0 <= k < |s.sem| && |r.sem| == |s.sem|
    requires forall i :: 0 <= i < |s.sem| && i != k ==> r.sem[i] == s.sem[i] && r.lists[i] == s.lists[i]
    requires CountOk(r, k)
    ensures Counts(r)
  {
    forall i | 0 <= i < |r.sem| ensures CountOk(r, i) {
      if i != k { assert CountOk(s, i); }
    }
  }

  lemma {:induction false} BlockKeeps(s: State, k: int)
    requires Base(s, -1) && s.thr[s.cur].state == Curr && s.cur != NULLTHREAD && 0 <= k < |s.sem|
    ensures Base(Block(s, k), -1)
    ensures |Block(s, k).lists[k]| == |s.lists[k]| + 1 && Block(s, k).sem == s.sem
    ensures SameMail(s, Block(s, k)) && SameSleep(s, Block(s, k))
    ensures forall i :: 0 <= i < |s.sem| && i != k ==> Block(s, k).lists[i] == s.lists[i]
  {
    hide InsertAt;
    Detached(s, s.cur);
    assert s.cur !in s.lists[SQ(s)];
    BlockPlaced(s, k);
  }

  lemma {:induction false} BlockPlaced(s: State, k: int)
    requires Base(s, s.cur) && s.cur != NULLTHREAD && 0 <= k < |s.sem|
    ensures Placed(Block(s, k), -1)
  {
    hide PlacedIn, Sorted, Running;
    var l := s.lists[k];
    assert InsertAt(l, |l|, s.cur) == l + [s.cur];
    JoinPlaced(s.thr, s.lists, s.cur, k, |l|, s.thr[s.cur].(state := Wait, sem := k));
  }

  lemma {:induction false} SetSemBase(s: State, k: int, e: Semaphore, g: SemLog)
    requires Base(s, -1) && 0 <= k < |s.sem|
    ensures Base(SetSem(s, k, e, g), -1) && SameMail(s, SetSem(s, k, e, g)) && SameSleep(s, SetSem(s, k, e, g))
  {
  }

  lemma {:induction false} CountDownKeeps(s: State, k: int)
    requires Inv(s) && !BadSem(s, k)
    ensures Base(CountDown(s, k), -1) && SameMail(s, CountDown(s, k)) && SameSleep(s, CountDown(s, k))
    ensures s.sem[k].count > 0 ==> Inv(CountDown(s, k))
  {
    var r := CountDown(s, k);
    SetSemBase(s, k, r.sem[k], r.slog[k]);
    assert CountOk(s, k);
    if s.sem[k].count > 0 {
      OtherCounts(s, r, k);
    }
  }

  lemma {:induction false} WaitKeeps(s: State, k: int)
    requires Inv(s) && (Blocks(s, EvWait(k)) ==> s.cur != NULLTHREAD)
    ensures Inv(WaitCall(s, k)) && SameMail(s, WaitCall(s, k)) && SameSleep(s, WaitCall(s, k))
  {
    hide Block, Resched, PlacedIn, Sorted, Running;
    if !BadSem(s, k) {
      CountDownKeeps(s, k);
      var s1 := CountDown(s, k);
      if s1.sem[k].count < 0 {
        assert CountOk(s, k);
        BlockKeeps(s1, k);
        OtherCounts(s, Block(s1, k), k);
        ReschedInv(Block(s1, k));
        Then(s, s1, Block(s1, k));
        Then(s, Block(s1, k), WaitCall(s, k));
      }
    }
  }

  lemma {:induction false} GetItemFrames(s: State, t: int, j: int)
    requires Base(s, -1) && 0 <= j < |s.lists| && j != SQ(s)
    ensures SameMail(s, GetItem(s, t, j)) && SameSleep(s, GetItem(s, t, j))
  {
    hide Remove, Sorted;
  }

  /** The state between dequeue and ready. */
  function Dequeued(s: State, k: int): (r: State)
    requires Shape(s) && 0 <= k < |s.sem| && s.lists[k] != []
    ensures Shape(r)
  {
    var t, g := s.lists[k][0], s.slog[k];
    Dequeue(SetSem(s, k, s.sem[k], g.(released := g.released + [t])), k)
  }

  lemma {:induction false} DequeuedKeeps(s: State, k: int)
    requires Base(s, -1) && 0 <= k < |s.sem| && s.lists[k] != []
    ensures var r, t := Dequeued(s, k), s.lists[k][0];
            Base(r, t) && SameMail(s, r) && SameSleep(s, r) && r.sem == s.sem && r.thr == s.thr && r.cur == s.cur
  {
    hide PlacedIn, Sorted, Running, GetItem, SameMail, SameSleep;
    var t, g := s.lists[k][0], s.slog[k];
    var s1 := SetSem(s, k, s.sem[k], g.(released := g.released + [t]));
    SetSemBase(s, k, s.sem[k], s1.slog[k]);
    DequeueIsGetItem(s1, k);
    TakeOff(s1, t, k);
    GetItemFrames(s1, t, k);
    Then(s, s1, GetItem(s1, t, k));
  }

  lemma {:induction false} WaiterWaits(s: State, k: int)
    requires Base(s, -1) && 0 <= k < |s.sem| && s.lists[k] != []
    ensures 0 <= s.lists[k][0] < |s.thr| && s.thr[s.lists[k][0]].state == Wait
  {
    assert s.lists[k][0] in s.lists[k];
  }

  lemma {:induction false} MakeReadyOther(s: State, t: int, u: int)
    requires Shape(s) && u != t && 0 <= u < |s.thr|
    ensures MakeReady(s, t).thr[u] == s.thr[u]
  {
    hide InsertAt, InsertPos;
  }

  lemma {:induction false} ReleaseKeeps(s: State, k: int)
    requires Base(s, -1) && 0 <= k < |s.sem| && s.lists[k] != []
    ensures Base(Release(s, k), -1)
    ensures Release(s, k).lists[k] == s.lists[k][1..] && Release(s, k).sem == s.sem
    ensures SameMail(s, Release(s, k)) && SameSleep(s, Release(s, k))
    ensures s.thr[s.cur].state == Curr ==> Release(s, k).thr[s.cur].state == Curr
    ensures forall i :: 0 <= i < |s.sem| && i != k ==>
              Release(s, k).lists[i] == s.lists[i] && Release(s, k).slog[i] == s.slog[i]
  {
    hide PlacedIn, Sorted, Running, SameMail, SameSleep, MakeReady;
    var t, r := s.lists[k][0], Dequeued(s, k);
    WaiterWaits(s, k);
    DequeuedKeeps(s, k);
    ReadyKeeps(r, t);
    Then(s, r, Release(s, k));
    if s.thr[s.cur].state == Curr { MakeReadyOther(r, t, s.cur); }
  }

  lemma {:induction false} CountUpKeeps(s: State, k: int)
    requires Base(s, -1) && Counts(s) && !BadSem(s, k)
    ensures Base(CountUp(s, k), -1) && SameMail(s, CountUp(s, k)) && SameSleep(s, CountUp(s, k))
    ensures s.sem[k].count >= 0 ==> Counts(CountUp(s, k))
  {
    var r := CountUp(s, k);
    SetSemBase(s, k, r.sem[k], r.slog[k]);
    assert CountOk(s, k);
    if s.sem[k].count >= 0 {
      OtherCounts(s, r, k);
    }
  }

  /** One signal: either the oldest waiter is released or the count rises. */
  lemma {:induction false} SignalOneKeeps(s: State, k: int)
    requires Base(s, -1) && Counts(s) && !BadSem(s, k)
    ensures Base(SignalOne(s, k), -1) && Counts(SignalOne(s, k)) && !BadSem(SignalOne(s, k), k)
    ensures SameMail(s, SignalOne(s, k)) && SameSleep(s, SignalOne(s, k))
  {
    CountUpKeeps(s, k);
    var s1 := CountUp(s, k);
    if s.sem[k].count < 0 {
      assert CountOk(s, k);
      ReleaseKeeps(s1, k);
      OtherCounts(s, Release(s1, k), k);
      Then(s, s1, SignalOne(s, k));
    }
  }

  lemma {:induction false} SignalKeeps(s: State, k: int)
    requires Inv(s)
    ensures Inv(SignalCall(s, k)) && SameMail(s, SignalCall(s, k)) && SameSleep(s, SignalCall(s, k))
  {
    if !BadSem(s, k) {
      SignalOneKeeps(s, k);
      assert CountOk(s, k);
      if s.sem[k].count < 0 {
        ReschedInv(SignalOne(s, k));
        Then(s, SignalOne(s, k), SignalCall(s, k));
      }
    }
  }

  lemma {:induction false} SignalManyForm(s: State, k: int, n: nat)
    requires Shape(s) && 0 <= k < |s.sem|
    ensures SignalMany(s, k, n) == if n == 0 then s else SignalMany(SignalOne(s, k), k, n - 1)
  {
  }

  lemma {:induction false} SignalManyKeeps(s: State, k: int, n: nat)
    requires Base(s, -1) && Counts(s) && !BadSem(s, k)
    ensures Base(SignalMany(s, k, n), -1) && Counts(SignalMany(s, k, n))
    ensures SameMail(s, SignalMany(s, k, n)) && SameSleep(s, SignalMany(s, k, n))
    decreases n
  {
    hide SignalMany, SignalOne;
    SignalManyForm(s, k, n);
    if n > 0 {
      SignalOneKeeps(s, k);
      SignalManyKeeps(SignalOne(s, k), k, n - 1);
      Then(s, SignalOne(s, k), SignalMany(s, k, n));
    }
  }

  lemma {:induction false} SignalNKeeps(s: State, k: int, n: int)
    requires Inv(s)
    ensures Inv(SignalNCall(s, k, n)) && SameMail(s, SignalNCall(s, k, n)) && SameSleep(s, SignalNCall(s, k, n))
  {
    hide SignalMany, Resched, PlacedIn, Sorted, Running, CountOk;
    if !BadSem(s, k) && n > 0 {
      SignalManyKeeps(s, k, n);
      ReschedInv(SignalMany(s, k, n));
      Then(s, SignalMany(s, k, n), SignalNCall(s, k, n));
    }
  }

  lemma {:induction false} DrainKeeps(s: State, k: int)
    requires Base(s, -1) && 0 <= k < |s.sem|
    ensures Base(Drain(s, k), -1) && Drain(s, k).lists[k] == [] && Drain(s, k).sem == s.sem
    ensures SameMail(s, Drain(s, k)) && SameSleep(s, Drain(s, k))
    ensures s.thr[s.cur].state == Curr ==> Drain(s, k).thr[s.cur].state == Curr
    ensures forall i :: 0 <= i < |s.sem| && i != k ==>
              Drain(s, k).lists[i] == s.lists[i] && Drain(s, k).slog[i] == s.slog[i]
    decreases |s.lists[k]|
  {
    if s.lists[k] != [] {
      ReleaseKeeps(s, k);
      DrainKeeps(Release(s, k), k);
      Then(s, Release(s, k), Drain(s, k));
    }
  }

  lemma {:induction false} SemFreeKeeps(s: State, k: int)
    requires Inv(s)
    ensures Inv(SemFreeCall(s, k)) && SameMail(s, SemFreeCall(s, k)) && SameSleep(s, SemFreeCall(s, k))
  {
    if !BadSem(s, k) {
      DrainKeeps(s, k);
      var s1 := Drain(s, k);
      SetSemBase(s1, k, s1.sem[k].(used := false, count := 0), s1.slog[k]);
      OtherCounts(s, SemFreeCall(s, k), k);
      Then(s, s1, SemFreeCall(s, k));
    }
  }

  lemma {:induction false} SemCreateKeeps(s: State, count: int)
    requires Inv(s)
    ensures Inv(SemCreateCall(s, count)) && SameMail(s, SemCreateCall(s, count)) && SameSleep(s, SemCreateCall(s, count))
  {
    var k := NextFree(s.sem, s.nextsem, |s.sem|);
    if 0 <= k < |s.sem| {
      NextFreeIsFree(s.sem, s.nextsem, |s.sem|);
      assert CountOk(s, k);
      OtherCounts(s, SemCreateCall(s, count), k);
    }
  }

  lemma {:induction false} NextFreeIsFree(sem: seq<Semaphore>, from: int, n: nat)
    ensures var k := NextFree(sem, from, n); k != -1 ==> 0 <= k < |sem| && !sem[k].used
    decreases n
  {
    if n > 0 && sem != [] {
      NextFreeIsFree(sem, (from + 1) % |sem|, n - 1);
    }
  }

  lemma {:induction false} Successor(a: int, n: int)
    requires 0 <= a < n
    ensures (a + 1) % n == if a + 1 < n then a + 1 else 0
  {
  }

  lemma {:induction false} NextFreeMisses(sem: seq<Semaphore>, from: int, n: nat, i: nat)
    requires 0 <= from < |sem| && 0 < i <= n <= |sem| && NextFree(sem, from, n) == -1
    ensures sem[if from + i < |sem| then from + i else from + i - |sem|].used
    decreases n
  {
    var next := (from + 1) % |sem|;
    Successor(from, |sem|);
    if i > 1 {
      NextFreeMisses(sem, next, n - 1, i - 1);
    }
  }

  /** semalloc gives up exactly when every semaphore is in use. */
  lemma {:induction false} NextFreeExactly(sem: seq<Semaphore>, from: int)
    requires 0 <= from < |sem|
    ensures NextFree(sem, from, |sem|) == -1 <==> forall k :: 0 <= k < |sem| ==> sem[k].used
  {
    NextFreeIsFree(sem, from, |sem|);
    if NextFree(sem, from, |sem|) == -1 {
      forall k | 0 <= k < |sem| ensures sem[k].used {
        NextFreeMisses(sem, from, |sem|, if k > from then k - from else k - from + |sem|);
      }
    }
  }

  // -------------------------------------------------------------------- clock

  lemma {:induction false} DeltaSorted(s: State, t: int, n: int)
    requires Base(s, t) && 0 <= t < |s.thr| && n >= 0
    ensures Sorted(InsertD(s, t, SQ(s), n))
  {
    var l := s.lists[SQ(s)];
    assert t !in l && t !in s.lists[RQ(s)];
    InsertNonNegative(l, s.key, t, n);
    var i := DeltaPos(l, s.key, n);
    assert i < |l| ==> l[i] in l && l[i] !in s.lists[RQ(s)];
  }

  /** The running thread joins the sleep queue. */
  lemma {:induction false} FallAsleep(s: State, n: int, st: ThreadState)
    requires Inv(s) && s.cur != NULLTHREAD && n >= 0 && (st == Sleep || st == Tmout)
    ensures var r := SetState(InsertD(s, s.cur, SQ(s), n), s.cur, st);
            Base(r, -1) && Counts(r) && SameSems(s, r) && SameMail(s, r)
  {
    Detached(s, s.cur);
    DeltaSorted(s, s.cur, n);
    var l := s.lists[SQ(s)];
    JoinPlaced(s.thr, s.lists, s.cur, SQ(s), DeltaPos(l, s.key, n), s.thr[s.cur].(state := st));
    CountsFrame(s, SetState(InsertD(s, s.cur, SQ(s), n), s.cur, st));
  }

  lemma {:induction false} SleepKeeps(s: State, ms: nat)
    requires Inv(s) && (Blocks(s, EvSleep(ms)) ==> s.cur != NULLTHREAD)
    ensures Inv(SleepCall(s, ms)) && SameSems(s, SleepCall(s, ms)) && SameMail(s, SleepCall(s, ms))
  {
    var n := Ticks(ms);
    if n > 0 {
      FallAsleep(s, n, Sleep);
      ReschedInv(SetState(InsertD(s, s.cur, SQ(s), n), s.cur, Sleep));
      Then(s, SetState(InsertD(s, s.cur, SQ(s), n), s.cur, Sleep), SleepCall(s, ms));
    } else {
      ReschedInv(s);
    }
  }

  lemma {:induction false} WakeOneKeeps(s: State)
    requires Base(s, -1) && s.lists[SQ(s)] != []
    ensures Base(WakeOne(s), -1) && SameSems(s, WakeOne(s)) && SameMail(s, WakeOne(s))
    ensures WakeOne(s).lists[SQ(s)] == s.lists[SQ(s)][1..]
  {
    var t := s.lists[SQ(s)][0];
    DequeueIsGetItem(s, SQ(s));
    TakeOff(s, t, SQ(s));
    ReadyKeeps(GetItem(s, t, SQ(s)), t);
    Then(s, GetItem(s, t, SQ(s)), WakeOne(s));
  }

  lemma {:induction false} WakeupKeeps(s: State)
    requires Base(s, -1)
    ensures Base(Wakeup(s), -1) && SameSems(s, Wakeup(s)) && SameMail(s, Wakeup(s))
    decreases |s.lists[SQ(s)]|
  {
    var l := s.lists[SQ(s)];
    if l != [] && s.key[l[0]] <= 0 {
      WakeOneKeeps(s);
      WakeupKeeps(WakeOne(s));
      Then(s, WakeOne(s), Wakeup(s));
    }
  }

  /** The first sleeper's key no longer matters once it is woken. */
  lemma {:induction false} WakeIgnoresKey(s: State, k: int)
    requires Base(s, -1) && s.lists[SQ(s)] != []
    ensures WakeOne(s.(key := s.key[s.lists[SQ(s)][0] := k])) == WakeOne(s)
  {
    var l, t := s.lists[RQ(s)], s.lists[SQ(s)][0];
    assert t in s.lists[SQ(s)] && t !in l;
    InsertPosFrame(l, s.key, s.key[t := k], s.thr[t].prio);
    assert s.key[t := k][t := s.thr[t].prio] == s.key[t := s.thr[t].prio];
  }

  lemma {:induction false} TickForms(s: State)
    requires Base(s, -1) && s.lists[SQ(s)] != []
    ensures var l := s.lists[SQ(s)];
            Tick(s) == if s.key[l[0]] <= 1 then Wakeup(WakeOne(s)) else s.(key := s.key[l[0] := s.key[l[0]] - 1])
  {
    hide Placed, Sorted, Running, WakeOne;
    var l := s.lists[SQ(s)];
    WakeIgnoresKey(s, s.key[l[0]] - 1);
  }

  lemma {:induction false} TickKeeps(s: State)
    requires Base(s, -1)
    ensures Base(Tick(s), -1) && SameSems(s, Tick(s)) && SameMail(s, Tick(s))
  {
    var l := s.lists[SQ(s)];
    if l != [] {
      TickForms(s);
      if s.key[l[0]] <= 1 {
        WakeOneKeeps(s);
        WakeupKeeps(WakeOne(s));
        Then(s, WakeOne(s), Tick(s));
      } else {
        assert l[0] in l && l[0] !in s.lists[RQ(s)];
      }
    }
  }

  lemma {:induction false} ClockKeeps(s: State)
    requires Inv(s)
    ensures Inv(ClockCall(s)) && SameSems(s, ClockCall(s)) && SameMail(s, ClockCall(s))
  {
    TickKeeps(s);
    CountsFrame(s, Tick(s));
    ReschedInv(Tick(s));
    Then(s, Tick(s), ClockCall(s));
  }

  // ----------------------------------------------------------------- messages

  /** Message fields and unfinished calls play no part in the invariant. */
  lemma {:induction false} MessagesKeep(s: State, r: State, x: int)
    requires Base(s, x) && Shape(r)
    requires |r.thr| == |s.thr| && r.lists == s.lists && r.key == s.key && r.cur == s.cur && r.sem == s.sem
    requires forall t :: 0 <= t < |s.thr| ==>
               r.thr[t].state == s.thr[t].state && r.thr[t].sem == s.thr[t].sem && r.thr[t].prio == s.thr[t].prio
    ensures Base(r, x)
    ensures Counts(s) ==> Counts(r)
  {
    PlacedFrame(s.thr, r.thr, s.lists, x);
    if Counts(s) {
      forall k | 0 <= k < |r.sem| ensures CountOk(r, k) { assert CountOk(s, k); }
    }
  }

  lemma {:induction false} UnsleepSorted(s: State, t: int)
    requires Base(s, -1) && t in s.lists[SQ(s)]
    ensures Sorted(GetItem(s, t, SQ(s)).(key := UndeltaKeys(s.lists[SQ(s)], s.key, t)))
  {
    hide UndeltaKeys, Remove, NonNegative;
    var l, r := s.lists[SQ(s)], s.lists[RQ(s)];
    RemoveNonNegative(l, s.key, t);
    forall i | 0 <= i < |r| ensures UndeltaKeys(l, s.key, t)[r[i]] == s.key[r[i]] {
      assert r[i] in r && r[i] !in l;
      UndeltaElsewhere(l, s.key, t, r[i]);
    }
  }

  lemma {:induction false} UndeltaElsewhere(l: seq<int>, key: seq<int>, t: int, x: int)
    requires Within(l, |key|) && t in l && x !in l && 0 <= x < |key|
    ensures UndeltaKeys(l, key, t)[x] == key[x]
  {
  }

  lemma {:induction false} UnsleepKeeps(s: State, t: int)
    requires Base(s, -1) && 0 <= t < |s.thr| && (s.thr[t].state == Tmout || s.thr[t].state == Sleep)
    ensures Base(Unsleep(s, t), t)
    ensures SameSems(s, Unsleep(s, t)) && Unsleep(s, t).thr == s.thr
  {
    assert t in s.lists[SQ(s)];
    TakeOff(s, t, SQ(s));
    UnsleepSorted(s, t);
  }

  lemma {:induction false} SendKeeps(s: State, t: int, m: int)
    requires Inv(s)
    ensures Inv(SendCall(s, t, m)) && SameSems(s, SendCall(s, t, m))
  {
    if !BadTid(s, t) && !s.thr[t].hasmsg {
      var s1 := Deposit(s, t, m);
      MessagesKeep(s, s1, -1);
      if s.thr[t].state == Recv {
        ReadyOne(s1, t);
        ReschedInv(MakeReady(s1, t));
        Then(s1, MakeReady(s1, t), SendCall(s, t, m));
      } else if s.thr[t].state == Tmout {
        SendTimedKeeps(s1, t);
      }
    }
  }

  lemma {:induction false} SendTimedKeeps(s: State, t: int)
    requires Inv(s) && 0 <= t < |s.thr| && s.thr[t].state == Tmout
    ensures Inv(Resched(MakeReady(Unsleep(s, t), t))) && SameSems(s, Resched(MakeReady(Unsleep(s, t), t)))
  {
    UnsleepKeeps(s, t);
    ReadyKeeps(Unsleep(s, t), t);
    Then(s, Unsleep(s, t), MakeReady(Unsleep(s, t), t));
    CountsFrame(s, MakeReady(Unsleep(s, t), t));
    ReschedInv(MakeReady(Unsleep(s, t), t));
    Then(s, MakeReady(Unsleep(s, t), t), Resched(MakeReady(Unsleep(s, t), t)));
  }

  lemma {:induction false} TakeKeeps(s: State)
    requires Inv(s)
    ensures Inv(Take(s)) && SameSems(s, Take(s)) && SameSleep(s, Take(s))
  {
    MessagesKeep(s, Take(s), -1);
  }

  lemma {:induction false} ReceiveKeeps(s: State)
    requires Inv(s) && (Blocks(s, EvReceive) ==> s.cur != NULLTHREAD)
    ensures Inv(ReceiveCall(s)) && SameSems(s, ReceiveCall(s)) && SameSleep(s, ReceiveCall(s))
  {
    if s.thr[s.cur].hasmsg {
      TakeKeeps(s);
    } else {
      StopSelfKeeps(s, Recv);
      var s1 := SetCall(SetState(s, s.cur, Recv), s.cur, InReceive);
      MessagesKeep(SetState(s, s.cur, Recv), s1, -1);
      ReschedInv(s1);
      Then(s, s1, ReceiveCall(s));
    }
  }

  lemma {:induction false} RecvTimeKeeps(s: State, maxwait: int)
    requires Inv(s) && (Blocks(s, EvRecvTime(maxwait)) ==> s.cur != NULLTHREAD)
    ensures Inv(RecvTimeCall(s, maxwait)) && SameSems(s, RecvTimeCall(s, maxwait))
  {
    if maxwait >= 0 {
      if s.thr[s.cur].hasmsg {
        TakeKeeps(s);
      } else {
        FallAsleep(s, maxwait, Tmout);
        var s1 := SetState(InsertD(s, s.cur, SQ(s), maxwait), s.cur, Tmout);
        MessagesKeep(s1, SetCall(s1, s.cur, InRecvTime), -1);
        ReschedInv(SetCall(s1, s.cur, InRecvTime));
        Then(s, SetCall(s1, s.cur, InRecvTime), RecvTimeCall(s, maxwait));
      }
    }
  }

  // --------------------------------------------------------------------- kill

  lemma {:induction false} KillCallKeeps(s: State, t: int)
    requires Inv(s)
    ensures Inv(KillCall(s, t)) && SameSems(s, KillCall(s, t))
  {
    if !BadTid(s, t) && t != NULLTHREAD {
      var s1 := SetCall(s, s.cur, InKill(t));
      MessagesKeep(s, s1, -1);
      SendKeeps(s1, s.thr[t].parent, t);
    }
  }

  lemma {:induction false} CancelKeeps(s: State, t: int)
    requires Inv(s) && 0 < t < |s.thr| && s.thr[t].state == Wait
    ensures 0 <= s.thr[t].sem < |s.sem|
    ensures Inv(SetState(Cancel(s, t, s.thr[t].sem), t, Free))
    ensures SameSleep(s, SetState(Cancel(s, t, s.thr[t].sem), t, Free))
  {
    hide PlacedIn, Sorted, Running, Remove, SameSleep;
    var k := s.thr[t].sem;
    WaiterPlace(s, t);
    CancelSleep(s, t);
    TakeOff(s, t, k);
    StopKeeps(GetItem(s, t, k), t, Free);
    var r := SetState(Cancel(s, t, k), t, Free);
    MessagesFreeSem(SetState(GetItem(s, t, k), t, Free), r);
    assert CountOk(s, k);
    RemoveShorter(s.lists[k], t);
    OtherCounts(s, r, k);
  }

  lemma {:induction false} RemoveShorter(l: seq<int>, t: int)
    requires t in l
    ensures |Remove(l, t)| == |l| - 1
  {
  }

  lemma {:induction false} WaiterPlace(s: State, t: int)
    requires Inv(s) && 0 < t < |s.thr| && s.thr[t].state == Wait
    ensures 0 <= s.thr[t].sem < |s.sem| && t in s.lists[s.thr[t].sem] && t !in s.lists[SQ(s)]
  {
  }

  lemma {:induction false} CancelSleep(s: State, t: int)
    requires Inv(s) && 0 <= t < |s.thr| && 0 <= s.thr[t].sem < |s.sem| && t !in s.lists[SQ(s)]
    ensures SameSleep(s, SetState(Cancel(s, t, s.thr[t].sem), t, Free))
  {
    hide Sorted, Running, Remove;
  }

  /** Semaphore counts play no part in the placement of threads. */
  lemma {:induction false} MessagesFreeSem(s: State, r: State)
    requires Base(s, -1) && Shape(r) && |r.sem| == |s.sem|
    requires r.thr == s.thr && r.lists == s.lists && r.key == s.key && r.cur == s.cur
    ensures Base(r, -1)
  {
  }

  lemma {:induction false} KillFinishKeeps(s: State, t: int)
    requires Inv(s) && 0 < t < |s.thr| && s.thr[t].state != Sleep && s.thr[t].state != Tmout
    ensures Inv(KillFinish(s, t)) && SameSleep(s, KillFinish(s, t))
    ensures s.thr[t].state != Wait ==> SameSems(s, KillFinish(s, t))
  {
    match s.thr[t].state
    case Curr =>
      StopSelfKeeps(s, Free);
      ReschedInv(SetState(s, t, Free));
      Then(s, SetState(s, t, Free), KillFinish(s, t));
    case Wait => CancelKeeps(s, t);
    case Ready => RemoveReadyKeeps(s, t, Free);
    case _ => KillParkedKeeps(s, t);
  }

  lemma {:induction false} KillParkedKeeps(s: State, t: int)
    requires Inv(s) && 0 < t < |s.thr| && Place(s.thr[t], |s.sem|) == -1 && t != s.cur
    ensures Inv(SetState(s, t, Free)) && SameSems(s, SetState(s, t, Free)) && SameSleep(s, SetState(s, t, Free))
  {
    assert t !in s.lists[SQ(s)];
    Detached(s, t);
    StopKeeps(s, t, Free);
    CountsFrame(s, SetState(s, t, Free));
  }

  /** kill keeps the invariant exactly when its victim is not on the sleep
      queue: a sleeping victim is freed but stays queued. */
  lemma {:induction false} KillFinishExactly(s: State, t: int)
    requires Inv(s) && 0 < t < |s.thr|
    ensures Inv(KillFinish(s, t)) <==> s.thr[t].state != Sleep && s.thr[t].state != Tmout
  {
    if s.thr[t].state == Sleep || s.thr[t].state == Tmout {
      StrandedSleeper(s, t);
    } else {
      KillFinishKeeps(s, t);
    }
  }

  /** The slot is free for a new thread while the old entry is still linked. */
  lemma {:induction false} StrandedSleeper(s: State, t: int)
    requires Inv(s) && 0 < t < |s.thr| && (s.thr[t].state == Sleep || s.thr[t].state == Tmout)
    ensures var r := KillFinish(s, t);
            r.thr[t].state == Free && Shape(r) && r.lists == s.lists && t in r.lists[SQ(s)] && !Inv(r)
  {
    assert t in s.lists[SQ(s)];
  }

  /** The thread unsleep would act on. */
  predicate Sleeper(s: State, t: int) {
    Shape(s) && !BadTid(s, t) && (s.thr[t].state == Sleep || s.thr[t].state == Tmout)
  }

  /** unsleep from a program takes a sleeper off the queue and leaves it marked
      asleep, on no list at all: it keeps the invariant exactly when it finds no
      sleeper, and then it does nothing. */
  lemma {:induction false} UnsleepExactly(s: State, t: int)
    requires Inv(s)
    ensures Inv(Unsleep(s, t)) <==> !Sleeper(s, t)
    ensures !Sleeper(s, t) ==> Unsleep(s, t) == s
    ensures Sleeper(s, t) ==> Unsleep(s, t).thr == s.thr && NoWhere(Unsleep(s, t).lists, t)
  {
    hide PlacedIn, Sorted;
    if Sleeper(s, t) {
      SleeperOnQueue(s, t);
      RemoveMembers(s.lists[SQ(s)], t);
    }
  }

  predicate NoWhere(lists: seq<seq<int>>, t: int) {
    forall j :: 0 <= j < |lists| ==> t !in lists[j]
  }

  lemma {:induction false} SleeperOnQueue(s: State, t: int)
    requires Inv(s) && Sleeper(s, t)
    ensures t in s.lists[SQ(s)] && NoDup(s.lists[SQ(s)])
    ensures forall j :: 0 <= j < |s.lists| && j != SQ(s) ==> t !in s.lists[j]
    ensures forall r: State :: Shape(r) && r.thr == s.thr && |r.lists| == |s.lists| && t !in r.lists[SQ(s)] ==> !Inv(r)
  {
  }

  /** The calls that may block. */
  predicate Blocking(e: Event) {
    e.EvWait? || e.EvSleep? || e.EvReceive? || e.EvRecvTime?
  }

  lemma {:induction false} NullStopped(m: State)
    requires Shape(m) && m.cur == NULLTHREAD && NULLTHREAD !in m.lists[RQ(m)]
    requires m.thr[NULLTHREAD].state != Curr && m.thr[NULLTHREAD].state != Ready
    ensures !Inv(Resched(m))
  {
  }

  /** The null thread may make a blocking call exactly when the call does not
      block: else it would be neither running nor ready. */
  lemma {:induction false} NullBlocks(s: State, e: Event)
    requires Inv(s) && s.cur == NULLTHREAD && Blocking(e)
    ensures Inv(Next(s, e)) <==> !Blocks(s, e)
  {
    assert NULLTHREAD !in s.lists[RQ(s)];
    if Blocks(s, e) {
      NullGoes(s, e);
    } else {
      NullStays(s, e);
    }
  }

  lemma {:induction false} NullStays(s: State, e: Event)
    requires Inv(s) && Blocking(e) && !Blocks(s, e)
    ensures Inv(Next(s, e))
  {
    hide WaitCall, SleepCall, ReceiveCall, RecvTimeCall, Blocks, PlacedIn, Sorted, Running, CountOk;
    if e.EvWait? {
      WaitKeeps(s, e.sem);
    } else if e.EvSleep? {
      SleepKeeps(s, e.ms);
    } else if e.EvReceive? {
      ReceiveKeeps(s);
    } else {
      RecvTimeKeeps(s, e.maxwait);
    }
  }

  lemma {:induction false} NullGoes(s: State, e: Event)
    requires Shape(s) && s.cur == NULLTHREAD && Blocking(e) && Blocks(s, e) && NULLTHREAD !in s.lists[RQ(s)]
    ensures !Inv(Next(s, e))
  {
    hide WaitCall, SleepCall, ReceiveCall, RecvTimeCall, Inv;
    if e.EvWait? {
      NullWaits(s, e.sem);
    } else if e.EvSleep? {
      NullSleeps(s, e.ms);
    } else if e.EvReceive? {
      NullReceives(s);
    } else {
      NullTimes(s, e.maxwait);
    }
  }

  lemma {:induction false} NullWaits(s: State, k: int)
    requires Shape(s) && s.cur == NULLTHREAD && Blocks(s, EvWait(k)) && NULLTHREAD !in s.lists[RQ(s)]
    ensures !Inv(WaitCall(s, k))
  {
    hide Resched, Inv, Block;
    BlockLeaves(CountDown(s, k), k);
    NullStopped(Block(CountDown(s, k), k));
  }

  lemma {:induction false} NullSleeps(s: State, ms: nat)
    requires Shape(s) && s.cur == NULLTHREAD && Blocks(s, EvSleep(ms)) && NULLTHREAD !in s.lists[RQ(s)]
    ensures !Inv(SleepCall(s, ms))
  {
    hide Resched, Inv, InsertD, SetState;
    SleepLeaves(s, Ticks(ms), Sleep);
    NullStopped(SetState(InsertD(s, s.cur, SQ(s), Ticks(ms)), s.cur, Sleep));
  }

  lemma {:induction false} NullReceives(s: State)
    requires Shape(s) && s.cur == NULLTHREAD && Blocks(s, EvReceive) && NULLTHREAD !in s.lists[RQ(s)]
    ensures !Inv(ReceiveCall(s))
  {
    hide Resched, Inv;
    NullStopped(SetCall(SetState(s, s.cur, Recv), s.cur, InReceive));
  }

  lemma {:induction false} NullTimes(s: State, w: int)
    requires Shape(s) && s.cur == NULLTHREAD && Blocks(s, EvRecvTime(w)) && NULLTHREAD !in s.lists[RQ(s)]
    ensures !Inv(RecvTimeCall(s, w))
  {
    hide Resched, Inv, InsertD, SetState;
    SleepLeaves(s, w, Tmout);
    NullStopped(SetCall(SetState(InsertD(s, s.cur, SQ(s), w), s.cur, Tmout), s.cur, InRecvTime));
  }

  lemma {:induction false} BlockLeaves(s: State, k: int)
    requires Shape(s) && 0 <= k < |s.sem|
    ensures var m := Block(s, k);
            m.cur == s.cur && m.lists[RQ(m)] == s.lists[RQ(s)] && m.thr[m.cur].state == Wait
  {
  }

  lemma {:induction false} SleepLeaves(s: State, n: int, st: ThreadState)
    requires Shape(s)
    ensures var m := SetState(InsertD(s, s.cur, SQ(s), n), s.cur, st);
            m.cur == s.cur && m.lists[RQ(m)] == s.lists[RQ(s)] && m.thr[m.cur].state == st
  {
  }

  lemma {:induction false} ContinueKeeps(s: State)
    requires Inv(s) && !StrandsSleeper(s)
    ensures Inv(Continue(s)) && SameSleep(s, Continue(s))
  {
    var s1 := SetCall(s, s.cur, Idle);
    MessagesKeep(s, s1, -1);
    match s.calls[s.cur]
    case Idle =>
    case InReceive => TakeKeeps(s1);
    case InRecvTime => if s.thr[s.cur].hasmsg { TakeKeeps(s1); }
    case InKill(t) => KillFinishKeeps(s1, t);
  }

  // --------------------------------------------------------------------- runs

  predicate SemEvent(e: Event) {
    e.EvWait? || e.EvSignal? || e.EvSignalN? || e.EvSemCreate? || e.EvSemFree?
  }

  predicate ThreadEvent(e: Event) {
    || e.EvCreate? || e.EvReady? || e.EvResume? || e.EvSuspend?
    || e.EvKill? || e.EvContinue? || e.EvYield? || e.EvChPrio?
  }

  lemma {:induction false} SemStepKeeps(s: State, e: Event)
    requires Inv(s) && Enabled(s, e) && SemEvent(e)
    ensures Inv(Next(s, e))
  {
    hide WaitCall, SignalCall, SignalNCall, SemCreateCall, SemFreeCall, Blocks, PlacedIn, Sorted, Running, CountOk;
    match e
    case EvWait(k) => WaitKeeps(s, k);
    case EvSignal(k) => SignalKeeps(s, k);
    case EvSignalN(k, n) => SignalNKeeps(s, k, n);
    case EvSemCreate(c) => SemCreateKeeps(s, c);
    case EvSemFree(k) => SemFreeKeeps(s, k);
  }

  lemma {:induction false} ThreadStepKeeps(s: State, e: Event)
    requires Inv(s) && Enabled(s, e) && ThreadEvent(e)
    ensures Inv(Next(s, e))
  {
    hide CreateCall, MakeReady, ResumeCall, SuspendCall, KillCall, Continue, Resched, ChPrioCall, Blocks;
    hide PlacedIn, Sorted, Running, CountOk;
    match e
    case EvCreate(t, p) => CreateKeeps(s, t, p);
    case EvReady(t) => ReadyOne(s, t);
    case EvResume(t) => ResumeKeeps(s, t);
    case EvSuspend(t) => SuspendKeeps(s, t);
    case EvKill(t) => KillCallKeeps(s, t);
    case EvContinue => ContinueKeeps(s);
    case EvYield => ReschedInv(s);
    case EvChPrio(t, p) => ChPrioKeeps(s, t, p);
  }

  /** Every enabled step keeps the invariant. */
  lemma {:induction false} StepKeeps(s: State, e: Event)
    requires Inv(s) && Enabled(s, e)
    ensures Inv(Next(s, e))
  {
    hide SleepCall, ClockCall, SendCall, ReceiveCall, RecvTimeCall, Take, Blocks, PlacedIn, Sorted, Running, CountOk;
    if SemEvent(e) {
      SemStepKeeps(s, e);
    } else if ThreadEvent(e) {
      ThreadStepKeeps(s, e);
    } else {
      match e
      case EvSleep(ms) => SleepKeeps(s, ms);
      case EvClock => ClockKeeps(s);
      case EvSend(t, m) => SendKeeps(s, t, m);
      case EvReceive => ReceiveKeeps(s);
      case EvRecvTime(w) => RecvTimeKeeps(s, w);
      case EvRecvClr => if s.thr[s.cur].hasmsg { TakeKeeps(s); }
    }
  }
}
