/**
 Priority and parent of a thread, as the calls of a run give them: the priority
 is that of the last create or chprio, the parent is the thread that called
 create. No other call touches either.
 */
module ThreadRecords {
  import opened ThreadLists
  import opened DeltaQueue
  import opened KernelState
  import opened KernelInv
  import opened KernelSteps
  import opened KernelRuns
  import opened Scheduling

  /** What identifies a thread to the scheduler and to kill. */
  datatype Record = Record(prio: int, parent: int)

  function RecordOf(th: Thread): (r: Record) {
    Record(th.prio, th.parent)
  }

  ghost predicate SameRecords(s: State, r: State) {
    |r.thr| == |s.thr| && forall t :: 0 <= t < |s.thr| ==> RecordOf(r.thr[t]) == RecordOf(s.thr[t])
  }

  function RecordAfter(s: State, e: Event, t: int): (r: Record)
    requires Shape(s) && 0 <= t < |s.thr|
  {
    var now := RecordOf(s.thr[t]);
    match e
    case EvCreate(u, p) => if u == t then Record(p, s.cur) else now
    case EvChPrio(u, p) => if u == t && !BadTid(s, t) then now.(prio := p) else now
    case _ => now
  }

  // ------------------------------------------------------------- building blocks

  lemma {:induction false} ReschedRecords(s: State)
    requires Shape(s)
    ensures SameRecords(s, Resched(s))
  {
    hide InsertAt, InsertPos;
  }

  lemma {:induction false} ReadyRecords(s: State, t: int)
    requires Shape(s)
    ensures SameRecords(s, MakeReady(s, t)) && SameRecords(s, Unsleep(s, t))
  {
    hide InsertAt, InsertPos, Remove, UndeltaKeys;
  }

  lemma {:induction false} SignalOneRecords(s: State, k: int)
    requires Shape(s) && 0 <= k < |s.sem|
    ensures SameRecords(s, Release(s, k)) && SameRecords(s, SignalOne(s, k))
  {
    hide InsertAt, InsertPos;
  }

  lemma {:induction false} SignalManyRecords(s: State, k: int, n: nat)
    requires Shape(s) && 0 <= k < |s.sem|
    ensures SameRecords(s, SignalMany(s, k, n))
    decreases n
  {
    hide SignalMany, SignalOne;
    SignalManyForm(s, k, n);
    if n > 0 {
      SignalOneRecords(s, k);
      SignalManyRecords(SignalOne(s, k), k, n - 1);
    }
  }

  lemma {:induction false} DrainRecords(s: State, k: int)
    requires Base(s, -1) && 0 <= k < |s.sem|
    ensures SameRecords(s, Drain(s, k))
    decreases |s.lists[k]|
  {
    hide Release, PlacedIn, Sorted, Running;
    if s.lists[k] != [] {
      ReleaseKeeps(s, k);
      SignalOneRecords(s, k);
      DrainRecords(Release(s, k), k);
    }
  }

  lemma {:induction false} WakeupRecords(s: State)
    requires Base(s, -1)
    ensures SameRecords(s, Wakeup(s))
    decreases |s.lists[SQ(s)]|
  {
    hide MakeReady, PlacedIn, Sorted, Running;
    var l := s.lists[SQ(s)];
    if l != [] && s.key[l[0]] <= 0 {
      WakeOneKeeps(s);
      ReadyRecords(Dequeue(s, SQ(s)), l[0]);
      WakeupRecords(WakeOne(s));
    }
  }

  lemma {:induction false} TickRecords(s: State)
    requires Base(s, -1)
    ensures SameRecords(s, Tick(s))
  {
    hide MakeReady, Wakeup, PlacedIn, Sorted, Running;
    var l := s.lists[SQ(s)];
    if l != [] {
      TickForms(s);
      if s.key[l[0]] <= 1 {
        WakeOneKeeps(s);
        ReadyRecords(Dequeue(s, SQ(s)), l[0]);
        WakeupRecords(WakeOne(s));
      }
    }
  }

  lemma {:induction false} SendRecords(s: State, t: int, m: int)
    requires Shape(s)
    ensures SameRecords(s, SendCall(s, t, m))
  {
    hide Resched, MakeReady, Unsleep;
    if !BadTid(s, t) && !s.thr[t].hasmsg {
      var s1 := Deposit(s, t, m);
      ReadyRecords(s1, t);
      ReadyRecords(Unsleep(s1, t), t);
      ReschedRecords(MakeReady(s1, t));
      ReschedRecords(MakeReady(Unsleep(s1, t), t));
    }
  }

  lemma {:induction false} KillFinishRecords(s: State, t: int)
    requires Shape(s) && 0 < t < |s.thr|
    ensures SameRecords(s, KillFinish(s, t))
  {
    hide Resched, Unsleep, Remove;
    ReadyRecords(SetState(s, t, Free), t);
    ReschedRecords(SetState(s, t, Free));
  }

  lemma {:induction false} StopRecords(s: State, n: int)
    requires Shape(s)
    ensures SameRecords(s, Resched(SetCall(SetState(s, s.cur, Recv), s.cur, InReceive)))
    ensures SameRecords(s, Resched(SetCall(SetState(InsertD(s, s.cur, SQ(s), n), s.cur, Tmout), s.cur, InRecvTime)))
    ensures SameRecords(s, Resched(SetState(InsertD(s, s.cur, SQ(s), n), s.cur, Sleep)))
    ensures SameRecords(s, Resched(SetState(s, s.cur, Susp)))
  {
    hide Resched, DeltaInsert, DeltaKeys;
    ReschedRecords(SetCall(SetState(s, s.cur, Recv), s.cur, InReceive));
    ReschedRecords(SetCall(SetState(InsertD(s, s.cur, SQ(s), n), s.cur, Tmout), s.cur, InRecvTime));
    ReschedRecords(SetState(InsertD(s, s.cur, SQ(s), n), s.cur, Sleep));
    ReschedRecords(SetState(s, s.cur, Susp));
  }

  // --------------------------------------------------------------- call by call

  lemma {:induction false} RecordsThen(a: State, b: State, c: State)
    requires SameRecords(a, b) && SameRecords(b, c)
    ensures SameRecords(a, c)
  {
  }

  lemma {:induction false} WaitRecords(s: State, k: int)
    requires Shape(s)
    ensures SameRecords(s, WaitCall(s, k))
  {
    hide Resched;
    if !BadSem(s, k) { ReschedRecords(Block(CountDown(s, k), k)); }
  }

  lemma {:induction false} SignalRecords(s: State, k: int, n: int)
    requires Shape(s)
    ensures SameRecords(s, SignalCall(s, k)) && SameRecords(s, SignalNCall(s, k, n))
  {
    hide Resched, SignalOne, SignalMany;
    if !BadSem(s, k) {
      SignalOneRecords(s, k);
      ReschedRecords(SignalOne(s, k));
      if n > 0 {
        SignalManyRecords(s, k, n);
        ReschedRecords(SignalMany(s, k, n));
      }
    }
  }

  lemma {:induction false} SemTableRecords(s: State, k: int, c: int)
    requires Inv(s)
    ensures SameRecords(s, SemCreateCall(s, c)) && SameRecords(s, SemFreeCall(s, k))
  {
    hide Drain, NextFree, PlacedIn, Sorted, Running, CountOk;
    if !BadSem(s, k) { DrainRecords(s, k); }
  }

  lemma {:induction false} SleepRecords(s: State, ms: nat)
    requires Shape(s)
    ensures SameRecords(s, SleepCall(s, ms))
  {
    hide Resched, InsertD, SetState, Ticks, SameRecords;
    StopRecords(s, Ticks(ms));
    ReschedRecords(s);
  }

  lemma {:induction false} ReceiveRecords(s: State, w: int)
    requires Shape(s)
    ensures SameRecords(s, ReceiveCall(s)) && SameRecords(s, RecvTimeCall(s, w)) && SameRecords(s, RecvClrCall(s))
  {
    hide Resched, InsertD, SetState, SetCall;
    StopRecords(s, w);
  }

  lemma {:induction false} ClockRecords(s: State)
    requires Inv(s)
    ensures SameRecords(s, ClockCall(s))
  {
    hide Resched, Tick, SameRecords, PlacedIn, Sorted, Running, CountOk;
    TickKeeps(s);
    TickRecords(s);
    ReschedRecords(Tick(s));
    RecordsThen(s, Tick(s), ClockCall(s));
  }

  lemma {:induction false} ResumeRecords(s: State, t: int)
    requires Shape(s)
    ensures SameRecords(s, ResumeCall(s, t))
  {
    hide Resched, MakeReady;
    ReadyRecords(s, t);
    ReschedRecords(MakeReady(s, t));
  }

  lemma {:induction false} SuspendRecords(s: State, t: int)
    requires Inv(s)
    ensures SameRecords(s, SuspendCall(s, t))
  {
    hide Resched, Remove, PlacedIn, Sorted, CountOk;
    if !BadTid(s, t) && s.thr[t].state == Curr { StopRecords(s, 0); }
  }

  lemma {:induction false} KillRecords(s: State, t: int)
    requires Shape(s)
    ensures SameRecords(s, KillCall(s, t))
  {
    hide SendCall;
    if !BadTid(s, t) && t != NULLTHREAD {
      SendRecords(SetCall(s, s.cur, InKill(t)), s.thr[t].parent, t);
    }
  }

  lemma {:induction false} ContinueRecords(s: State)
    requires Shape(s)
    ensures SameRecords(s, Continue(s))
  {
    hide KillFinish;
    if s.calls[s.cur].InKill? {
      KillFinishRecords(SetCall(s, s.cur, Idle), s.calls[s.cur].tid);
    }
  }

  lemma {:induction false} OtherRecords(s: State, e: Event)
    requires Inv(s) && Enabled(s, e) && !e.EvCreate? && !e.EvChPrio?
    ensures SameRecords(s, Next(s, e))
  {
    hide PlacedIn, Sorted, Running, CountOk, ResumeCall, SuspendCall, KillCall, Continue, WaitCall, SignalCall;
    hide SignalNCall, SemCreateCall, SemFreeCall, SleepCall, ClockCall, SendCall, ReceiveCall, RecvTimeCall;
    hide RecvClrCall, MakeReady, Resched, Blocks, SameRecords;
    match e
    case EvReady(t) => ReadyRecords(s, t);
    case EvResume(t) => ResumeRecords(s, t);
    case EvSuspend(t) => SuspendRecords(s, t);
    case EvKill(t) => KillRecords(s, t);
    case EvContinue => ContinueRecords(s);
    case EvYield => ReschedRecords(s);
    case EvWait(k) => WaitRecords(s, k);
    case EvSignal(k) => SignalRecords(s, k, 0);
    case EvSignalN(k, n) => SignalRecords(s, k, n);
    case EvSemCreate(c) => SemTableRecords(s, 0, c);
    case EvSemFree(k) => SemTableRecords(s, k, 0);
    case EvSleep(ms) => SleepRecords(s, ms);
    case EvClock => ClockRecords(s);
    case EvSend(t, m) => SendRecords(s, t, m);
    case EvReceive => ReceiveRecords(s, 0);
    case EvRecvTime(w) => ReceiveRecords(s, w);
    case EvRecvClr => ReceiveRecords(s, 0);
  }

  /** Every step leaves priority and parent of every thread as the call says. */
  lemma {:induction false} StepRecord(s: State, e: Event, t: int)
    requires Inv(s) && Enabled(s, e) && 0 <= t < |s.thr|
    ensures |Next(s, e).thr| == |s.thr| && RecordOf(Next(s, e).thr[t]) == RecordAfter(s, e, t)
  {
    hide PlacedIn, Sorted, Running, CountOk, ResumeCall, SuspendCall, KillCall, Continue, WaitCall, SignalCall;
    hide SignalNCall, SemCreateCall, SemFreeCall, SleepCall, ClockCall, SendCall, ReceiveCall, RecvTimeCall;
    hide RecvClrCall, MakeReady, Resched, Blocks;
    if !e.EvCreate? && !e.EvChPrio? {
      OtherRecords(s, e);
    }
  }

  // --------------------------------------------------------------------- runs

  /** Priority and parent before event i, from the calls: at boot all are zero. */
  function RecordAt(ss: seq<State>, es: seq<Event>, i: nat, t: int): (r: Record)
    requires i <= |es| <= |ss|
  {
    if i == 0 then Record(0, 0) else
      var now, s := RecordAt(ss, es, i - 1, t), ss[i-1];
      match es[i-1]
      case EvCreate(u, p) => if u == t then Record(p, s.cur) else now
      case EvChPrio(u, p) => if u == t && !BadTid(s, t) then now.(prio := p) else now
      case _ => now
  }

  /** In every run from boot the priority of a thread is that of the last create or
      chprio, and its parent is the thread that last created it. */
  lemma {:induction false} RecordsAreCalls(ss: seq<State>, es: seq<Event>, i: nat, t: int)
    requires FromBoot(ss, es) && i < |ss| && 0 <= t < |ss[0].thr|
    ensures Shape(ss[i]) && |ss[i].thr| == |ss[0].thr| && RecordOf(ss[i].thr[t]) == RecordAt(ss, es, i, t)
  {
    hide Next, PlacedIn, Sorted, Running, CountOk;
    InitInv(|ss[0].thr|, |ss[0].sem|);
    RunInv(ss, es, i);
    if i > 0 {
      RecordsAreCalls(ss, es, i - 1, t);
      RunInv(ss, es, i - 1);
      StepRecord(ss[i-1], es[i-1], t);
    }
  }

  lemma {:induction false} NullPriority(ss: seq<State>, es: seq<Event>, i: nat)
    requires FromBoot(ss, es) && i < |ss| && forall k :: 0 <= k < |es| ==> !es[k].EvChPrio?
    ensures RecordAt(ss, es, i, NULLTHREAD).prio == 0
  {
    hide Next, InitState;
    if i > 0 {
      NullPriority(ss, es, i - 1);
      BootedNullThread(ss, es, i - 1);
    }
  }

  predicate NoneReadyAbove(s: State, p: int)
    requires Shape(s)
  {
    forall t :: 0 <= t < |s.thr| && s.thr[t].state == Ready ==> s.thr[t].prio <= p
  }

  lemma {:induction false} TopReady(s: State)
    requires Inv(s) && Top(s)
    ensures NoneReadyAbove(s, s.thr[s.cur].prio)
  {
    forall t | 0 <= t < |s.thr| && s.thr[t].state == Ready ensures s.thr[t].prio <= s.thr[s.cur].prio {
      assert t in ReadyList(s);
    }
  }

  /** In every run from boot without chprio, the null thread comes to run only when
      no ready thread has a priority above zero. */
  lemma {:induction false} NullRunsLast(ss: seq<State>, es: seq<Event>, i: nat)
    requires FromBoot(ss, es) && i < |es| && forall k :: 0 <= k < |es| ==> !es[k].EvChPrio?
    requires ss[i+1].rescheds > ss[i].rescheds && ss[i+1].cur == NULLTHREAD
    ensures Shape(ss[i+1]) && NoneReadyAbove(ss[i+1], 0)
  {
    hide Next, InitState;
    BootedTop(ss, es, i);
    InitInv(|ss[0].thr|, |ss[0].sem|);
    RunInv(ss, es, i + 1);
    TopReady(ss[i+1]);
    NullPriority(ss, es, i + 1);
    RecordsAreCalls(ss, es, i + 1, NULLTHREAD);
  }
}
