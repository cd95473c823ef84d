/**
 What every call does to every thread. A thread that is current or ready is
 live; which of the two is the scheduler's affair. `ModeAfter` says from the call
 and the state alone what mode each thread is in afterwards, and every step of
 the kernel is shown to be just that.
 */
module ThreadModes {
  import opened ThreadLists
  import opened DeltaQueue
  import opened KernelState
  import opened KernelInv
  import opened KernelSteps
  import opened SleepChanges
  import opened SleepTimes
  import C = Counters

  datatype Mode = Dead | Live | Held | Receiving | Sleeping | Timed | Waiting(sem: int)

  function ModeOf(th: Thread): (m: Mode) {
    match th.state
    case Free => Dead
    case Curr => Live
    case Ready => Live
    case Susp => Held
    case Recv => Receiving
    case Sleep => Sleeping
    case Tmout => Timed
    case Wait => Waiting(th.sem)
  }

  function Min(a: int, b: int): (m: int) {
    if a <= b then a else b
  }

  /** The threads that a signal of n releases from semaphore k. */
  function Freed(s: State, k: int, n: int): (l: seq<int>)
    requires Shape(s)
    ensures forall i :: 0 <= i < |l| ==> 0 <= k < |s.sem| && l[i] in s.lists[k]
  {
    if BadSem(s, k) || n <= 0 then [] else s.lists[k][..Min(n, |s.lists[k]|)]
  }

  /** A message is accepted for t, which waits for one. */
  predicate Roused(s: State, u: int, t: int)
    requires Shape(s) && 0 <= t < |s.thr|
  {
    u == t && !BadTid(s, t) && !s.thr[t].hasmsg && (s.thr[t].state == Recv || s.thr[t].state == Tmout)
  }

  /** The next tick leaves t, which is queued, no time. */
  predicate FallsDue(s: State, t: int)
    requires Shape(s)
  {
    Queued(s, t) && Left(s, t) <= if FrontOk(s) then 1 else 0
  }

  function ModeAfter(s: State, e: Event, t: int): (m: Mode)
    requires Shape(s) && 0 <= t < |s.thr|
  {
    var now := ModeOf(s.thr[t]);
    match e
    case EvCreate(u, p) => if u == t then Held else now
    case EvReady(u) => if u == t && now != Dead then Live else now
    case EvResume(u) => if u == t && now == Held then Live else now
    case EvSuspend(u) => if u == t && t != NULLTHREAD && now == Live then Held else now
    case EvKill(v) => if !BadTid(s, v) && v != NULLTHREAD && Roused(s, s.thr[v].parent, t) then Live else now
    case EvContinue => if s.calls[s.cur] == InKill(t) then Dead else now
    case EvYield => now
    case EvChPrio(u, p) => now
    case EvWait(k) => if t == s.cur && Blocks(s, e) then Waiting(k) else now
    case EvSignal(k) => if t in Freed(s, k, 1) then Live else now
    case EvSignalN(k, n) => if t in Freed(s, k, n) then Live else now
    case EvSemCreate(c) => now
    case EvSemFree(k) => if !BadSem(s, k) && t in s.lists[k] then Live else now
    case EvSleep(ms) => if t == s.cur && Blocks(s, e) then Sleeping else now
    case EvClock => if FallsDue(s, t) then Live else now
    case EvSend(u, m) => if Roused(s, u, t) then Live else now
    case EvReceive => if t == s.cur && Blocks(s, e) then Receiving else now
    case EvRecvTime(w) => if t == s.cur && Blocks(s, e) then Timed else now
    case EvRecvClr => now
  }

  // ------------------------------------------------------------- building blocks

  lemma {:induction false} ReschedMode(s: State, t: int)
    requires Base(s, -1) && 0 <= t < |s.thr|
    ensures |Resched(s).thr| == |s.thr| && ModeOf(Resched(s).thr[t]) == ModeOf(s.thr[t])
  {
    hide InsertAt, InsertPos, Sorted;
    var l := s.lists[RQ(s)];
    if l != [] { assert l[0] in l; }
    if s.thr[s.cur].state == Curr {
      HeadAfterInsert(l, s.key, s.cur, s.thr[s.cur].prio);
    }
  }

  lemma {:induction false} HeadAfterInsert(l: seq<int>, key: seq<int>, t: int, k: int)
    requires Within(l, |key|)
    ensures var r := InsertAt(l, InsertPos(l, key, k), t); |r| == |l| + 1 && (r[0] == t || (l != [] && r[0] == l[0]))
  {
  }

  lemma {:induction false} ReadyMode(s: State, t: int, u: int)
    requires Shape(s) && 0 <= u < |s.thr|
    ensures ModeOf(MakeReady(s, t).thr[u]) == if u == t && !BadTid(s, t) then Live else ModeOf(s.thr[u])
  {
    hide InsertAt, InsertPos;
  }

  lemma {:induction false} ReleaseMode(s: State, k: int, u: int)
    requires Base(s, -1) && 0 <= k < |s.sem| && s.lists[k] != [] && 0 <= u < |s.thr|
    ensures ModeOf(Release(s, k).thr[u]) == if u == s.lists[k][0] then Live else ModeOf(s.thr[u])
  {
    hide MakeReady, PlacedIn, Sorted, Running;
    WaiterWaits(s, k);
    ReadyMode(Dequeued(s, k), s.lists[k][0], u);
  }

  lemma {:induction false} SignalOneMode(s: State, k: int, u: int)
    requires Base(s, -1) && Counts(s) && !BadSem(s, k) && 0 <= u < |s.thr|
    ensures ModeOf(SignalOne(s, k).thr[u]) == if u in Freed(s, k, 1) then Live else ModeOf(s.thr[u])
    ensures SignalOne(s, k).lists[k] == s.lists[k][|Freed(s, k, 1)|..]
    ensures SignalOne(s, k).sem[k].count == s.sem[k].count + 1
  {
    hide Release, PlacedIn, Sorted, Running;
    assert CountOk(s, k);
    C.SignalOneIsV(s, k);
    if s.sem[k].count < 0 {
      CountUpKeeps(s, k);
      ReleaseMode(CountUp(s, k), k, u);
      assert s.lists[k][..1] == [s.lists[k][0]];
    }
  }

  lemma {:induction false} SignalManyMode(s: State, k: int, n: nat, u: int)
    requires Base(s, -1) && Counts(s) && !BadSem(s, k) && 0 <= u < |s.thr|
    ensures ModeOf(SignalMany(s, k, n).thr[u]) == if u in Freed(s, k, n) then Live else ModeOf(s.thr[u])
    ensures SignalMany(s, k, n).lists[k] == s.lists[k][Min(n, |s.lists[k]|)..]
    ensures SignalMany(s, k, n).sem[k].count == s.sem[k].count + n
    decreases n
  {
    hide SignalMany, SignalOne, PlacedIn, Sorted, Running, CountOk;
    SignalManyForm(s, k, n);
    if n > 0 {
      var l := s.lists[k];
      SignalOneKeeps(s, k);
      SignalOneMode(s, k, u);
      SignalManyMode(SignalOne(s, k), k, n - 1, u);
      FreedSplit(l, n);
    }
  }

  lemma {:induction false} FreedSplit(l: seq<int>, n: nat)
    requires n > 0
    ensures var a, b := Min(1, |l|), Min(n, |l|);
            && l[..b] == l[..a] + l[a..][..Min(n - 1, |l[a..]|)]
            && l[b..] == l[a..][Min(n - 1, |l[a..]|)..]
  {
  }

  lemma {:induction false} DrainMode(s: State, k: int, u: int)
    requires Base(s, -1) && 0 <= k < |s.sem| && 0 <= u < |s.thr|
    ensures ModeOf(Drain(s, k).thr[u]) == if u in s.lists[k] then Live else ModeOf(s.thr[u])
    decreases |s.lists[k]|
  {
    hide Release, PlacedIn, Sorted, Running;
    var l := s.lists[k];
    if l != [] {
      ReleaseKeeps(s, k);
      ReleaseMode(s, k, u);
      DrainMode(Release(s, k), k, u);
      assert l == [l[0]] + l[1..];
    }
  }

  lemma {:induction false} WakeupOther(s: State, u: int)
    requires Base(s, -1) && 0 <= u < |s.thr| && u !in s.lists[SQ(s)]
    ensures ModeOf(Wakeup(s).thr[u]) == ModeOf(s.thr[u])
    decreases |s.lists[SQ(s)]|
  {
    hide MakeReady, PlacedIn, Sorted, Running;
    var l := s.lists[SQ(s)];
    if l != [] && s.key[l[0]] <= 0 {
      WakeOneKeeps(s);
      ReadyMode(Dequeue(s, SQ(s)), l[0], u);
      WakeupOther(WakeOne(s), u);
    }
  }

  lemma {:induction false} TickOther(s: State, u: int)
    requires Base(s, -1) && 0 <= u < |s.thr| && u !in s.lists[SQ(s)]
    ensures ModeOf(Tick(s).thr[u]) == ModeOf(s.thr[u])
  {
    hide MakeReady, Wakeup, PlacedIn, Sorted, Running;
    var l := s.lists[SQ(s)];
    if l != [] {
      TickForms(s);
      if s.key[l[0]] <= 1 {
        WakeOneKeeps(s);
        ReadyMode(Dequeue(s, SQ(s)), l[0], u);
        WakeupOther(WakeOne(s), u);
      }
    }
  }

  // -------------------------------------------------------------- call by call

  lemma {:induction false} ClockMode(s: State, t: int)
    requires Inv(s) && 0 <= t < |s.thr|
    ensures |ClockCall(s).thr| == |s.thr| && ModeOf(ClockCall(s).thr[t]) == ModeAfter(s, EvClock, t)
  {
    hide Tick, Resched, Left, PlacedIn, Sorted, Running, CountOk;
    TickKeeps(s);
    ReschedMode(Tick(s), t);
    if Queued(s, t) {
      ClockLeft(s, t);
      QueuedSleeps(s, t);
    } else {
      TickOther(s, t);
    }
  }

  lemma {:induction false} QueuedSleeps(s: State, t: int)
    requires Inv(s) && Queued(s, t)
    ensures 0 <= t < |s.thr| && (s.thr[t].state == Sleep || s.thr[t].state == Tmout)
  {
  }

  lemma {:induction false} SendMode(s: State, u: int, m: int, t: int)
    requires Inv(s) && 0 <= t < |s.thr|
    ensures |SendCall(s, u, m).thr| == |s.thr|
    ensures ModeOf(SendCall(s, u, m).thr[t]) == if Roused(s, u, t) then Live else ModeOf(s.thr[t])
  {
    hide Resched, MakeReady, Unsleep, PlacedIn, Sorted, Running, CountOk;
    if !BadTid(s, u) && !s.thr[u].hasmsg {
      var s1 := Deposit(s, u, m);
      MessagesKeep(s, s1, -1);
      if s.thr[u].state == Recv {
        ReadyOne(s1, u);
        ReadyMode(s1, u, t);
        ReschedMode(MakeReady(s1, u), t);
      } else if s.thr[u].state == Tmout {
        UnsleepKeeps(s1, u);
        ReadyKeeps(Unsleep(s1, u), u);
        ReadyMode(Unsleep(s1, u), u, t);
        ReschedMode(MakeReady(Unsleep(s1, u), u), t);
      }
    }
  }

  lemma {:induction false} KillMode(s: State, v: int, t: int)
    requires Inv(s) && 0 <= t < |s.thr|
    ensures |KillCall(s, v).thr| == |s.thr| && ModeOf(KillCall(s, v).thr[t]) == ModeAfter(s, EvKill(v), t)
  {
    hide SendCall, PlacedIn, Sorted, Running, CountOk;
    if !BadTid(s, v) && v != NULLTHREAD {
      var s1 := SetCall(s, s.cur, InKill(v));
      MessagesKeep(s, s1, -1);
      SendMode(s1, s.thr[v].parent, v, t);
    }
  }

  lemma {:induction false} KillFinishMode(s: State, v: int, t: int)
    requires Inv(s) && 0 < v < |s.thr| && 0 <= t < |s.thr| && s.thr[v].state != Sleep && s.thr[v].state != Tmout
    ensures |KillFinish(s, v).thr| == |s.thr|
    ensures ModeOf(KillFinish(s, v).thr[t]) == if t == v then Dead else ModeOf(s.thr[t])
  {
    hide Resched, Remove, PlacedIn, Sorted, CountOk;
    if s.thr[v].state == Curr {
      StopSelfKeeps(s, Free);
      ReschedMode(SetState(s, v, Free), t);
    } else if s.thr[v].state == Wait {
      WaiterPlace(s, v);
    }
  }

  lemma {:induction false} ContinueMode(s: State, t: int)
    requires Inv(s) && !StrandsSleeper(s) && 0 <= t < |s.thr|
    ensures |Continue(s).thr| == |s.thr| && ModeOf(Continue(s).thr[t]) == ModeAfter(s, EvContinue, t)
  {
    hide KillFinish, PlacedIn, Sorted, Running, CountOk;
    if s.calls[s.cur].InKill? {
      var s1 := SetCall(s, s.cur, Idle);
      MessagesKeep(s, s1, -1);
      KillFinishMode(s1, s.calls[s.cur].tid, t);
    }
  }

  lemma {:induction false} ResumeMode(s: State, u: int, t: int)
    requires Inv(s) && 0 <= t < |s.thr|
    ensures |ResumeCall(s, u).thr| == |s.thr| && ModeOf(ResumeCall(s, u).thr[t]) == ModeAfter(s, EvResume(u), t)
  {
    hide MakeReady, Resched, Sorted, CountOk;
    if !BadTid(s, u) && s.thr[u].state == Susp {
      ReadyOne(s, u);
      ReadyMode(s, u, t);
      ReschedMode(MakeReady(s, u), t);
    }
  }

  lemma {:induction false} SuspendMode(s: State, u: int, t: int)
    requires Inv(s) && 0 <= t < |s.thr|
    ensures |SuspendCall(s, u).thr| == |s.thr| && ModeOf(SuspendCall(s, u).thr[t]) == ModeAfter(s, EvSuspend(u), t)
  {
    hide Resched, Remove, PlacedIn, Sorted, CountOk;
    if !BadTid(s, u) && u != NULLTHREAD && s.thr[u].state == Curr {
      StopSelfKeeps(s, Susp);
      ReschedMode(SetState(s, u, Susp), t);
    }
  }

  lemma {:induction false} WaitMode(s: State, k: int, t: int)
    requires Inv(s) && (Blocks(s, EvWait(k)) ==> s.cur != NULLTHREAD) && 0 <= t < |s.thr|
    ensures |WaitCall(s, k).thr| == |s.thr| && ModeOf(WaitCall(s, k).thr[t]) == ModeAfter(s, EvWait(k), t)
  {
    hide Resched, PlacedIn, Sorted, Running, CountOk;
    if !BadSem(s, k) && s.sem[k].count <= 0 {
      CountDownKeeps(s, k);
      BlockKeeps(CountDown(s, k), k);
      ReschedMode(Block(CountDown(s, k), k), t);
    }
  }

  lemma {:induction false} SignalMode(s: State, k: int, t: int)
    requires Inv(s) && 0 <= t < |s.thr|
    ensures |SignalCall(s, k).thr| == |s.thr| && ModeOf(SignalCall(s, k).thr[t]) == ModeAfter(s, EvSignal(k), t)
  {
    hide SignalOne, Resched, PlacedIn, Sorted, Running, CountOk;
    if !BadSem(s, k) {
      SignalOneKeeps(s, k);
      SignalOneMode(s, k, t);
      ReschedMode(SignalOne(s, k), t);
    }
  }

  lemma {:induction false} SignalNMode(s: State, k: int, n: int, t: int)
    requires Inv(s) && 0 <= t < |s.thr|
    ensures |SignalNCall(s, k, n).thr| == |s.thr|
    ensures ModeOf(SignalNCall(s, k, n).thr[t]) == ModeAfter(s, EvSignalN(k, n), t)
  {
    hide SignalMany, Resched, PlacedIn, Sorted, Running, CountOk;
    if !BadSem(s, k) && n > 0 {
      SignalManyKeeps(s, k, n);
      SignalManyMode(s, k, n, t);
      ReschedMode(SignalMany(s, k, n), t);
    }
  }

  lemma {:induction false} SemFreeMode(s: State, k: int, t: int)
    requires Inv(s) && 0 <= t < |s.thr|
    ensures ModeOf(SemFreeCall(s, k).thr[t]) == ModeAfter(s, EvSemFree(k), t)
  {
    hide Drain, PlacedIn, Sorted, Running, CountOk;
    if !BadSem(s, k) {
      DrainMode(s, k, t);
    }
  }

  lemma {:induction false} InsertDThreads(s: State, n: int)
    requires Shape(s)
    ensures InsertD(s, s.cur, SQ(s), n).thr == s.thr
  {
    hide DeltaInsert, DeltaKeys;
  }

  lemma {:induction false} SleepMode(s: State, ms: nat, t: int)
    requires Inv(s) && (Blocks(s, EvSleep(ms)) ==> s.cur != NULLTHREAD) && 0 <= t < |s.thr|
    ensures |SleepCall(s, ms).thr| == |s.thr| && ModeOf(SleepCall(s, ms).thr[t]) == ModeAfter(s, EvSleep(ms), t)
  {
    hide Resched, Ticks, InsertD, SameSleep, SameSems, SameMail, PlacedIn, Sorted, Running, CountOk;
    if Ticks(ms) > 0 {
      FallAsleep(s, Ticks(ms), Sleep);
      InsertDThreads(s, Ticks(ms));
      ReschedMode(SetState(InsertD(s, s.cur, SQ(s), Ticks(ms)), s.cur, Sleep), t);
    } else {
      ReschedMode(s, t);
    }
  }

  lemma {:induction false} ReceiveMode(s: State, t: int)
    requires Inv(s) && (Blocks(s, EvReceive) ==> s.cur != NULLTHREAD) && 0 <= t < |s.thr|
    ensures |ReceiveCall(s).thr| == |s.thr| && ModeOf(ReceiveCall(s).thr[t]) == ModeAfter(s, EvReceive, t)
  {
    hide Resched, PlacedIn, Sorted, Running, CountOk;
    if !s.thr[s.cur].hasmsg {
      var s1 := SetState(s, s.cur, Recv);
      var s2 := SetCall(s1, s.cur, InReceive);
      StopSelfKeeps(s, Recv);
      MessagesKeep(s1, s2, -1);
      ReschedMode(s2, t);
    }
  }

  lemma {:induction false} RecvTimeMode(s: State, w: int, t: int)
    requires Inv(s) && (Blocks(s, EvRecvTime(w)) ==> s.cur != NULLTHREAD) && 0 <= t < |s.thr|
    ensures |RecvTimeCall(s, w).thr| == |s.thr| && ModeOf(RecvTimeCall(s, w).thr[t]) == ModeAfter(s, EvRecvTime(w), t)
  {
    hide Resched, InsertD, SameSleep, SameSems, SameMail, PlacedIn, Sorted, Running, CountOk;
    if w >= 0 && !s.thr[s.cur].hasmsg {
      var s1 := SetState(InsertD(s, s.cur, SQ(s), w), s.cur, Tmout);
      FallAsleep(s, w, Tmout);
      InsertDThreads(s, w);
      SetCallSleep(s1, s.cur);
      ReschedMode(SetCall(s1, s.cur, InRecvTime), t);
    }
  }

  lemma {:induction false} StepModeOther(s: State, e: Event, t: int)
    requires Inv(s) && Enabled(s, e) && 0 <= t < |s.thr|
    requires e.EvCreate? || e.EvReady? || e.EvYield? || e.EvChPrio? || e.EvSemCreate? || e.EvRecvClr?
    ensures |Next(s, e).thr| == |s.thr| && ModeOf(Next(s, e).thr[t]) == ModeAfter(s, e, t)
  {
    hide MakeReady, Resched, NextFree, PlacedIn, Sorted, Running, CountOk, Blocks;
    if e.EvReady? { ReadyMode(s, e.tid, t); }
    if e.EvYield? { ReschedMode(s, t); }
  }

  /** Every step takes every thread to the mode that the call says, and to no other. */
  lemma {:induction false} StepMode(s: State, e: Event, t: int)
    requires Inv(s) && Enabled(s, e) && 0 <= t < |s.thr|
    ensures |Next(s, e).thr| == |s.thr| && ModeOf(Next(s, e).thr[t]) == ModeAfter(s, e, t)
  {
    hide PlacedIn, Sorted, Running, CountOk, ResumeCall, SuspendCall, KillCall, Continue, WaitCall, SignalCall;
    hide SignalNCall, SemFreeCall, SleepCall, ClockCall, SendCall, ReceiveCall, RecvTimeCall, Blocks;
    match e {
      case EvCreate(u, p) => StepModeOther(s, e, t);
      case EvReady(u) => StepModeOther(s, e, t);
      case EvResume(u) => ResumeMode(s, u, t);
      case EvSuspend(u) => SuspendMode(s, u, t);
      case EvKill(v) => KillMode(s, v, t);
      case EvContinue => ContinueMode(s, t);
      case EvYield => StepModeOther(s, e, t);
      case EvChPrio(u, p) => StepModeOther(s, e, t);
      case EvWait(k) => WaitMode(s, k, t);
      case EvSignal(k) => SignalMode(s, k, t);
      case EvSignalN(k, n) => SignalNMode(s, k, n, t);
      case EvSemCreate(c) => StepModeOther(s, e, t);
      case EvSemFree(k) => SemFreeMode(s, k, t);
      case EvSleep(ms) => SleepMode(s, ms, t);
      case EvClock => ClockMode(s, t);
      case EvSend(u, m) => SendMode(s, u, m, t);
      case EvReceive => ReceiveMode(s, t);
      case EvRecvTime(w) => RecvTimeMode(s, w, t);
      case EvRecvClr => StepModeOther(s, e, t);
    }
  }
}
