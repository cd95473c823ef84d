/**
 Which calls reschedule, and what a resched does: it gives the processor to the
 first ready thread unless the running one outranks it, and a thread that gives
 way goes behind those of its own priority.
 */
module Reschedules {
  import opened ThreadLists
  import opened DeltaQueue
  import opened KernelState
  import opened KernelInv
  import opened KernelSteps
  import opened ThreadModes

  /** Some thread is made to wait for, or is roused by, the message of a call. */
  predicate Rouses(s: State, u: int)
    requires Shape(s)
  {
    0 <= u < |s.thr| && Roused(s, u, u)
  }

  /** The call passes through resched. */
  predicate Reschedules(s: State, e: Event)
    requires Shape(s)
  {
    match e
    case EvResume(t) => !BadTid(s, t) && s.thr[t].state == Susp
    case EvSuspend(t) => !BadTid(s, t) && t != NULLTHREAD && s.thr[t].state == Curr
    case EvKill(v) => !BadTid(s, v) && v != NULLTHREAD && Rouses(s, s.thr[v].parent)
    case EvContinue => s.calls[s.cur].InKill? && s.thr[s.calls[s.cur].tid].state == Curr
    case EvYield => true
    case EvWait(k) => Blocks(s, e)
    case EvSignal(k) => Freed(s, k, 1) != []
    case EvSignalN(k, n) => !BadSem(s, k) && n > 0
    case EvSleep(ms) => true
    case EvClock => true
    case EvSend(t, m) => Rouses(s, t)
    case EvReceive => Blocks(s, e)
    case EvRecvTime(w) => Blocks(s, e)
    case _ => false
  }

  // ------------------------------------------------------------- building blocks

  lemma {:induction false} ReadyPasses(s: State, t: int)
    requires Shape(s)
    ensures MakeReady(s, t).rescheds == s.rescheds && Unsleep(s, t).rescheds == s.rescheds
  {
    hide InsertAt, InsertPos, Remove, UndeltaKeys;
  }

  lemma {:induction false} ReschedPasses(s: State)
    requires Shape(s)
    ensures Resched(s).rescheds == s.rescheds + 1
  {
    hide Redispatch;
  }

  lemma {:induction false} SignalOnePasses(s: State, k: int)
    requires Shape(s) && 0 <= k < |s.sem|
    ensures Release(s, k).rescheds == s.rescheds && SignalOne(s, k).rescheds == s.rescheds
  {
    hide InsertAt, InsertPos;
  }

  lemma {:induction false} SignalManyPasses(s: State, k: int, n: nat)
    requires Shape(s) && 0 <= k < |s.sem|
    ensures SignalMany(s, k, n).rescheds == s.rescheds
    decreases n
  {
    hide SignalMany, SignalOne;
    SignalManyForm(s, k, n);
    if n > 0 {
      SignalOnePasses(s, k);
      SignalManyPasses(SignalOne(s, k), k, n - 1);
    }
  }

  lemma {:induction false} DrainPasses(s: State, k: int)
    requires Base(s, -1) && 0 <= k < |s.sem|
    ensures Drain(s, k).rescheds == s.rescheds
    decreases |s.lists[k]|
  {
    hide Release, PlacedIn, Sorted, Running;
    if s.lists[k] != [] {
      ReleaseKeeps(s, k);
      SignalOnePasses(s, k);
      DrainPasses(Release(s, k), k);
    }
  }

  lemma {:induction false} WakeupPasses(s: State)
    requires Base(s, -1)
    ensures Wakeup(s).rescheds == s.rescheds
    decreases |s.lists[SQ(s)]|
  {
    hide MakeReady, PlacedIn, Sorted, Running;
    var l := s.lists[SQ(s)];
    if l != [] && s.key[l[0]] <= 0 {
      WakeOneKeeps(s);
      ReadyPasses(Dequeue(s, SQ(s)), l[0]);
      WakeupPasses(WakeOne(s));
    }
  }

  lemma {:induction false} TickPasses(s: State)
    requires Base(s, -1)
    ensures Tick(s).rescheds == s.rescheds
  {
    hide MakeReady, Wakeup, PlacedIn, Sorted, Running;
    var l := s.lists[SQ(s)];
    if l != [] {
      TickForms(s);
      if s.key[l[0]] <= 1 {
        WakeOneKeeps(s);
        ReadyPasses(Dequeue(s, SQ(s)), l[0]);
        WakeupPasses(WakeOne(s));
      }
    }
  }

  // --------------------------------------------------------------- call by call

  /** r is reached with a resched or without, as b says. */
  predicate Passed(s: State, r: State, b: bool) {
    r.rescheds == s.rescheds + if b then 1 else 0
  }

  lemma {:induction false} SendPasses(s: State, t: int, m: int)
    requires Shape(s)
    ensures Passed(s, SendCall(s, t, m), Rouses(s, t))
  {
    hide Resched, MakeReady, Unsleep;
    if !BadTid(s, t) && !s.thr[t].hasmsg {
      var s1 := Deposit(s, t, m);
      ReadyPasses(s1, t);
      ReadyPasses(Unsleep(s1, t), t);
      ReschedPasses(MakeReady(s1, t));
      ReschedPasses(MakeReady(Unsleep(s1, t), t));
    }
  }

  lemma {:induction false} KillPasses(s: State, v: int)
    requires Shape(s)
    ensures Passed(s, KillCall(s, v), Reschedules(s, EvKill(v)))
  {
    hide SendCall;
    if !BadTid(s, v) && v != NULLTHREAD {
      SendPasses(SetCall(s, s.cur, InKill(v)), s.thr[v].parent, v);
    }
  }

  lemma {:induction false} KillFinishPasses(s: State, t: int)
    requires Shape(s) && 0 < t < |s.thr|
    ensures Passed(s, KillFinish(s, t), s.thr[t].state == Curr)
  {
    hide Resched, Unsleep, Remove;
    ReadyPasses(SetState(s, t, Free), t);
    ReschedPasses(SetState(s, t, Free));
  }

  lemma {:induction false} ContinuePasses(s: State)
    requires Shape(s)
    ensures Passed(s, Continue(s), Reschedules(s, EvContinue))
  {
    hide KillFinish;
    if s.calls[s.cur].InKill? {
      KillFinishPasses(SetCall(s, s.cur, Idle), s.calls[s.cur].tid);
    }
  }

  lemma {:induction false} ResumePasses(s: State, t: int)
    requires Inv(s)
    ensures Passed(s, ResumeCall(s, t), Reschedules(s, EvResume(t)))
    ensures Passed(s, SuspendCall(s, t), Reschedules(s, EvSuspend(t)))
  {
    hide Resched, MakeReady, Remove, PlacedIn, Sorted, Running, CountOk;
    ReadyPasses(s, t);
    ReschedPasses(MakeReady(s, t));
    if !BadTid(s, t) { ReschedPasses(SetState(s, t, Susp)); }
  }

  lemma {:induction false} WaitPasses(s: State, k: int)
    requires Shape(s)
    ensures Passed(s, WaitCall(s, k), Reschedules(s, EvWait(k)))
  {
    hide Resched;
    if !BadSem(s, k) { ReschedPasses(Block(CountDown(s, k), k)); }
  }

  lemma {:induction false} SignalPasses(s: State, k: int, n: int)
    requires Inv(s)
    ensures Passed(s, SignalCall(s, k), Reschedules(s, EvSignal(k)))
    ensures Passed(s, SignalNCall(s, k, n), Reschedules(s, EvSignalN(k, n)))
  {
    hide Resched, SignalOne, SignalMany, PlacedIn, Sorted, Running;
    if !BadSem(s, k) {
      assert CountOk(s, k);
      SignalOnePasses(s, k);
      ReschedPasses(SignalOne(s, k));
      if n > 0 {
        SignalManyPasses(s, k, n);
        ReschedPasses(SignalMany(s, k, n));
      }
    }
  }

  lemma {:induction false} SemTablePasses(s: State, k: int, c: int)
    requires Inv(s)
    ensures Passed(s, SemCreateCall(s, c), false) && Passed(s, SemFreeCall(s, k), false)
  {
    hide Drain, NextFree, PlacedIn, Sorted, Running, CountOk;
    if !BadSem(s, k) { DrainPasses(s, k); }
  }

  lemma {:induction false} SleepPasses(s: State, ms: nat)
    requires Inv(s)
    ensures Passed(s, SleepCall(s, ms), true) && Passed(s, ClockCall(s), true)
  {
    hide Resched, Tick, Ticks, DeltaInsert, DeltaKeys, PlacedIn, Sorted, Running, CountOk;
    TickPasses(s);
    ReschedPasses(Tick(s));
    ReschedPasses(s);
    ReschedPasses(SetState(InsertD(s, s.cur, SQ(s), Ticks(ms)), s.cur, Sleep));
  }

  lemma {:induction false} ReceivePasses(s: State, w: int)
    requires Shape(s)
    ensures Passed(s, ReceiveCall(s), Reschedules(s, EvReceive)) && Passed(s, RecvClrCall(s), false)
    ensures Passed(s, RecvTimeCall(s, w), Reschedules(s, EvRecvTime(w)))
  {
    hide Resched, DeltaInsert, DeltaKeys;
    ReschedPasses(SetCall(SetState(s, s.cur, Recv), s.cur, InReceive));
    ReschedPasses(SetCall(SetState(InsertD(s, s.cur, SQ(s), w), s.cur, Tmout), s.cur, InRecvTime));
  }

  lemma {:induction false} PlainPasses(s: State, t: int, p: int)
    requires Shape(s)
    ensures 0 <= t < |s.thr| ==> Passed(s, CreateCall(s, t, p), false)
    ensures Passed(s, ChPrioCall(s, t, p), false) && Passed(s, MakeReady(s, t), false) && Passed(s, Resched(s), true)
  {
    hide Resched, MakeReady;
    ReadyPasses(s, t);
    ReschedPasses(s);
  }

  /** Every step passes through resched exactly when the call says so, and once. */
  lemma {:induction false} StepPasses(s: State, e: Event)
    requires Inv(s) && Enabled(s, e)
    ensures Passed(s, Next(s, e), Reschedules(s, e))
  {
    hide PlacedIn, Sorted, Running, CountOk, ResumeCall, SuspendCall, KillCall, Continue, WaitCall, SignalCall;
    hide SignalNCall, SemCreateCall, SemFreeCall, SleepCall, ClockCall, SendCall, ReceiveCall, RecvTimeCall;
    hide RecvClrCall, MakeReady, Resched, Blocks, Freed, Rouses, CreateCall, ChPrioCall, Passed;
    match e
    case EvCreate(t, p) => PlainPasses(s, t, p);
    case EvReady(t) => PlainPasses(s, t, 0);
    case EvResume(t) => ResumePasses(s, t);
    case EvSuspend(t) => ResumePasses(s, t);
    case EvKill(t) => KillPasses(s, t);
    case EvContinue => ContinuePasses(s);
    case EvYield => PlainPasses(s, 0, 0);
    case EvChPrio(t, p) => PlainPasses(s, t, p);
    case EvWait(k) => WaitPasses(s, k);
    case EvSignal(k) => SignalPasses(s, k, 0);
    case EvSignalN(k, n) => SignalPasses(s, k, n);
    case EvSemCreate(c) => SemTablePasses(s, 0, c);
    case EvSemFree(k) => SemTablePasses(s, k, 0);
    case EvSleep(ms) => SleepPasses(s, ms);
    case EvClock => SleepPasses(s, 0);
    case EvSend(t, m) => SendPasses(s, t, m);
    case EvReceive => ReceivePasses(s, 0);
    case EvRecvTime(w) => ReceivePasses(s, w);
    case EvRecvClr => ReceivePasses(s, 0);
  }

  // ------------------------------------------------------- what a resched does

  /** A running thread keeps the processor exactly when it outranks every ready
      thread; else the first one runs, and it is queued behind those that it does
      not outrank. */
  lemma {:induction false} ReschedExactly(s: State)
    requires Base(s, -1) && s.thr[s.cur].state == Curr
    ensures var r, l, p := Resched(s), s.lists[RQ(s)], s.thr[s.cur].prio;
            && Shape(r)
            && (r.cur == s.cur <==> forall i :: 0 <= i < |l| ==> s.key[l[i]] < p)
            && (r.cur != s.cur ==>
                  && l != [] && r.cur == l[0] && r.thr[s.cur].state == Ready
                  && r.lists[RQ(s)] == InsertAt(l, InsertPos(l, s.key, p), s.cur)[1..])
  {
    hide InsertAt, InsertPos, PlacedIn, Sorted, Running, SameSems, SameMail, SameSleep;
    var l, p := s.lists[RQ(s)], s.thr[s.cur].prio;
    ReschedKeeps(s);
    CurNotReady(s);
    FirstOutranks(l, s.key, p);
    FirstKeeps(l, s.key, s.cur, p);
  }

  lemma {:induction false} CurNotReady(s: State)
    requires Base(s, -1) && s.thr[s.cur].state == Curr
    ensures s.cur !in s.lists[RQ(s)] && Descending(s.lists[RQ(s)], s.key)
  {
  }

  lemma {:induction false} FirstOutranks(l: seq<int>, key: seq<int>, p: int)
    requires Within(l, |key|) && Descending(l, key)
    ensures (forall i :: 0 <= i < |l| ==> key[l[i]] < p) <==> l == [] || key[l[0]] < p
  {
  }

  /** Where p does not outrank the first, it goes behind it. */
  lemma {:induction false} FirstKeeps(l: seq<int>, key: seq<int>, t: int, p: int)
    requires Within(l, |key|)
    ensures var r := InsertAt(l, InsertPos(l, key, p), t);
            |r| == |l| + 1 && r[0] == if l == [] || key[l[0]] < p then t else l[0]
  {
    InsertedAt(l, InsertPos(l, key, p), t, 0);
  }
}
