/**
 Runs of the kernel on its tables: any sequence of system calls and interrupts
 from boot, carried out by the methods of Kernel, goes through the states of the
 run, so what is proved of every run is true of the tables.
 */
module TableRuns {
  import opened KernelState
  import opened ThreadLists
  import opened QueueLinks
  import opened KernelInv
  import opened KernelSteps
  import opened KernelRuns
  import opened SemaphoreLedger
  import opened Messages
  import opened MessageRuns
  import opened SleepTimes
  import opened KernelTables

  // ------------------------------------------------------- one event at a time

  method PerformThread(k: Kernel, e: Event)
    requires k.Valid() && Inv(k.st) && Enabled(k.st, e)
    requires e.EvCreate? || e.EvReady? || e.EvResume? || e.EvSuspend? || e.EvYield? || e.EvChPrio?
    modifies k, k.quetab, k.thrtab, k.semtab
    ensures k.Valid() && k.st == Next(old(k.st), e) && k.clktime == old(k.clktime) && k.clkticks == old(k.clkticks)
  {
    hide Chains, Sorted, PlacedIn, Running, CountOk, ResumeCall, SuspendCall, MakeReady, Resched, CreateCall, ChPrioCall;
    match e {
      case EvCreate(t, p) =>
        k.Create(t, p);
      case EvReady(t) =>
        Unplaced(k.st, t);
        var _ := k.Ready(t, false);
      case EvResume(t) =>
        var _ := k.Resume(t);
      case EvSuspend(t) =>
        var _, _ := k.Suspend(t);
      case EvYield =>
        var _ := k.Yield();
      case EvChPrio(t, p) =>
        var _ := k.ChPrio(t, p);
    }
  }

  lemma {:induction false} Unplaced(s: State, t: int)
    requires Inv(s) && !BadTid(s, t) && s.thr[t].state == Susp
    ensures OnNone(s.lists, t) && s.thr[t].prio > MINKEY
  {
    Detached(s, t);
  }

  method PerformSem(k: Kernel, e: Event)
    requires k.Valid() && Inv(k.st) && Enabled(k.st, e)
    requires e.EvWait? || e.EvSignal? || e.EvSignalN? || e.EvSemCreate? || e.EvSemFree?
    modifies k, k.quetab, k.thrtab, k.semtab
    ensures k.Valid() && k.st == Next(old(k.st), e) && k.clktime == old(k.clktime) && k.clkticks == old(k.clkticks)
  {
    hide Chains, Sorted, PlacedIn, Running, CountOk, WaitCall, SignalCall, SignalNCall, SemCreateCall, SemFreeCall;
    match e {
      case EvWait(j) =>
        var _ := k.Wait(j);
      case EvSignal(j) =>
        var _ := k.Signal(j);
      case EvSignalN(j, n) =>
        var _ := k.SignalN(j, n);
      case EvSemCreate(c) =>
        var _ := k.SemCreate(c);
      case EvSemFree(j) =>
        var _ := k.SemFree(j);
    }
  }

  method PerformMessage(k: Kernel, e: Event)
    requires k.Valid() && Inv(k.st) && Enabled(k.st, e)
    requires e.EvSend? || e.EvReceive? || e.EvRecvTime? || e.EvRecvClr?
    modifies k, k.quetab, k.thrtab, k.semtab
    ensures k.Valid() && k.st == Next(old(k.st), e) && k.clktime == old(k.clktime) && k.clkticks == old(k.clkticks)
  {
    hide Chains, Sorted, PlacedIn, Running, CountOk, SendCall, ReceiveCall, RecvTimeCall, RecvClrCall;
    match e {
      case EvSend(t, m) =>
        var _ := k.Send(t, m);
      case EvReceive =>
        var _, _ := k.Receive();
      case EvRecvTime(w) =>
        var _, _ := k.RecvTime(w);
      case EvRecvClr =>
        var _ := k.RecvClr();
    }
  }

  /** A call goes on where it stopped, at, when its thread runs again. */
  method PerformContinue(k: Kernel, at: Pending)
    requires k.Valid() && Inv(k.st) && at == k.st.calls[k.st.cur]
    modifies k, k.quetab, k.thrtab, k.semtab
    ensures k.Valid() && k.st == Continue(old(k.st)) && k.clktime == old(k.clktime) && k.clkticks == old(k.clkticks)
  {
    hide Chains, Sorted, PlacedIn, Running, CountOk, Take, KillFinish;
    match at {
      case Idle =>
      case InReceive =>
        var _ := k.ReceiveReturn();
      case InRecvTime =>
        var _ := k.RecvTimeReturn();
      case InKill(t) =>
        var _ := k.KillReturn(t);
    }
  }

  method Perform(k: Kernel, e: Event, at: Pending)
    requires k.Valid() && Inv(k.st) && Enabled(k.st, e) && at == k.st.calls[k.st.cur]
    requires k.clkticks < CLKTICKS_PER_SEC
    modifies k, k.quetab, k.thrtab, k.semtab
    ensures k.Valid() && Inv(k.st) && k.st == Next(old(k.st), e) && k.clkticks < CLKTICKS_PER_SEC
    ensures k.clktime * CLKTICKS_PER_SEC + k.clkticks == old(k.clktime * CLKTICKS_PER_SEC + k.clkticks) + ClockTicks(e)
  {
    hide Chains, Sorted, PlacedIn, Running, CountOk, Continue, KillCall, SleepCall, ClockCall;
    StepKeeps(k.st, e);
    if e.EvContinue? {
      PerformContinue(k, at);
    } else if e.EvKill? {
      var _ := k.Kill(e.tid);
    } else if e.EvWait? || e.EvSignal? || e.EvSignalN? || e.EvSemCreate? || e.EvSemFree? {
      PerformSem(k, e);
    } else if e.EvSend? || e.EvReceive? || e.EvRecvTime? || e.EvRecvClr? {
      PerformMessage(k, e);
    } else if e.EvSleep? {
      var _ := k.Sleep(e.ms);
    } else if e.EvClock? {
      k.ClkHandler();
    } else {
      PerformThread(k, e);
    }
  }

  // ------------------------------------------------------ what the tables show

  /** The queue q, followed both ways, is l. */
  ghost predicate IsQueue(tab: seq<Queent>, q: int, l: seq<int>) {
    Linked(tab, Chain(q, l)) && NoDup(l)
  }

  ghost predicate ReadyQueue(tab: seq<Queent>, thr: seq<Thread>, q: int) {
    exists l :: IsQueue(tab, q, l) && forall t :: 0 <= t < |thr| ==> (t in l <==> thr[t].state == Ready)
  }

  ghost predicate SleepQueue(tab: seq<Queent>, thr: seq<Thread>, q: int) {
    exists l :: IsQueue(tab, q, l)
                && forall t :: 0 <= t < |thr| ==> (t in l <==> thr[t].state == Sleep || thr[t].state == Tmout)
  }

  /** The waiters of semaphore j are linked behind its queue, and a negative
      count says how many they are. */
  ghost predicate SemQueue(tab: seq<Queent>, thr: seq<Thread>, sem: seq<Semaphore>, j: nat)
    requires j < |sem|
  {
    exists l :: IsQueue(tab, sem[j].queue, l)
                && (forall t :: 0 <= t < |thr| ==> (t in l <==> thr[t].state == Wait && thr[t].sem == j))
                && (sem[j].used ==> |l| == if sem[j].count < 0 then -sem[j].count else 0)
  }

  lemma {:induction false} QueueOf(k: Kernel, j: nat)
    requires k.Valid() && j < |k.st.lists|
    ensures IsQueue(k.quetab[..], k.QueueId(j), k.st.lists[j])
  {
    hide Linked;
  }

  lemma {:induction false} ReadyTable(k: Kernel, ss: seq<State>, es: seq<Event>)
    requires k.Valid() && FromBoot(ss, es) && k.st == ss[|es|]
    ensures ReadyQueue(k.quetab[..], k.thrtab[..], k.readylist)
  {
    hide IsQueue, Chains, Next, InitState;
    QueueOf(k, k.nsem);
    forall t | 0 <= t < k.nthread ensures t in k.st.lists[k.nsem] <==> k.thrtab[..][t].state == Ready {
      BootedQueues(ss, es, |es|, t);
    }
  }

  lemma {:induction false} SleepTable(k: Kernel, ss: seq<State>, es: seq<Event>)
    requires k.Valid() && FromBoot(ss, es) && k.st == ss[|es|]
    ensures SleepQueue(k.quetab[..], k.thrtab[..], k.sleepq)
  {
    hide IsQueue, Chains, Next, InitState;
    QueueOf(k, k.nsem + 1);
    forall t | 0 <= t < k.nthread
      ensures t in k.st.lists[k.nsem + 1] <==> k.thrtab[..][t].state == Sleep || k.thrtab[..][t].state == Tmout
    {
      BootedQueues(ss, es, |es|, t);
    }
  }

  lemma {:induction false} SemTable(k: Kernel, ss: seq<State>, es: seq<Event>, j: nat)
    requires k.Valid() && FromBoot(ss, es) && k.st == ss[|es|] && j < k.nsem
    ensures SemQueue(k.quetab[..], k.thrtab[..], k.semtab[..], j)
  {
    hide IsQueue, Chains, Next, InitState;
    QueueOf(k, j);
    BootedSemaphores(ss, es, |es|, j);
    forall t | 0 <= t < k.nthread
      ensures t in k.st.lists[j] <==> k.thrtab[..][t].state == Wait && k.thrtab[..][t].sem == j
    {
      BootedQueues(ss, es, |es|, t);
    }
  }

  lemma {:induction false} MessageTable(k: Kernel, ss: seq<State>, es: seq<Event>, t: nat)
    requires k.Valid() && FromBoot(ss, es) && k.st == ss[|es|] && t < k.nthread && k.thrtab[t].state != Free
    ensures Accepts(ss, es, |es|, t) == Answers(ss, es, |es|, t) + Slot(k.thrtab[t])
  {
    hide Chains, Next, InitState, Accepts, Answers;
    RunThreads(ss, es, |es|);
    AnsweredOnce(ss, es, |es|, t);
  }

  lemma {:induction false} RunThreads(ss: seq<State>, es: seq<Event>, i: nat)
    requires FromBoot(ss, es) && i < |ss|
    ensures |ss[i].thr| == |ss[0].thr|
  {
    LogsAreCalls(ss, es, i, 0);
  }

  /** Any run from boot, call by call on the tables: they end as the run does, a
      thread is linked on a queue exactly when its state says so, and a semaphore
      counts its waiters; each message accepted was answered once or is in the slot. */
  method Execute(nthread: nat, nsem: nat, ss: seq<State>, es: seq<Event>) returns (k: Kernel)
    requires FromBoot(ss, es) && |ss[0].thr| == nthread && |ss[0].sem| == nsem
    ensures k.Valid() && k.st == ss[|es|] && k.clktime == ClkTime(es, |es|) && k.clkticks == ClkTicks(es, |es|)
    ensures ReadyQueue(k.quetab[..], k.thrtab[..], k.readylist)
    ensures SleepQueue(k.quetab[..], k.thrtab[..], k.sleepq)
    ensures forall j: nat :: j < k.semtab.Length ==> SemQueue(k.quetab[..], k.thrtab[..], k.semtab[..], j)
    ensures forall t :: 0 <= t < k.thrtab.Length ==> (k.thrtab[t].state == Curr <==> t == k.thrcurrent)
    ensures forall t: nat :: t < k.thrtab.Length && k.thrtab[t].state != Free ==>
              Accepts(ss, es, |es|, t) == Answers(ss, es, |es|, t) + Slot(k.thrtab[t])
  {
    hide Chains, Sorted, PlacedIn, Running, CountOk, Next, InitState, ReadyQueue, SleepQueue, SemQueue, Accepts, Answers;
    k := new Kernel(nthread, nsem);
    for i := 0 to |es|
      invariant k.Valid() && Inv(k.st) && k.st == ss[i]
      invariant k.clktime * CLKTICKS_PER_SEC + k.clkticks == Clocks(es[..i]) && k.clkticks < CLKTICKS_PER_SEC
      invariant fresh(k) && fresh(k.quetab) && fresh(k.thrtab) && fresh(k.semtab)
    {
      Perform(k, es[i], ss[i].calls[ss[i].cur]);
      ClocksSnoc(es, 0, i);
      assert es[0..i+1] == es[..i+1] && es[0..i] == es[..i];
    }
    assert es[..|es|] == es;
    ReadyTable(k, ss, es);
    SleepTable(k, ss, es);
    forall j: nat | j < nsem ensures SemQueue(k.quetab[..], k.thrtab[..], k.semtab[..], j) {
      SemTable(k, ss, es, j);
    }
    forall t: nat | t < nthread && k.thrtab[t].state != Free
      ensures Accepts(ss, es, |es|, t) == Answers(ss, es, |es|, t) + Slot(k.thrtab[t])
    {
      MessageTable(k, ss, es, t);
    }
    forall t | 0 <= t < nthread ensures k.thrtab[t].state == Curr <==> t == k.thrcurrent {
      BootedQueues(ss, es, |es|, t);
    }
  }
}
