/**
 The life of a semaphore: its count is what it was created with plus signals
 minus waits that were not cancelled by a kill, its queue is the blocked threads
 not yet released, and threads are released in the order in which they blocked.
 */
module SemaphoreLedger {
  import opened ThreadLists
  import opened KernelState
  import opened KernelInv
  import opened KernelSteps
  import opened KernelRuns

  predicate LedgerOk(s: State, k: int)
    requires Shape(s) && 0 <= k < |s.sem|
  {
    var g := s.slog[k];
    s.sem[k].used ==>
      && s.sem[k].count == g.init + g.signals - g.waits + g.cancelled
      && g.arrived == g.released + s.lists[k]
  }

  predicate Ledgers(s: State)
    requires Shape(s)
  {
    forall k :: 0 <= k < |s.sem| ==> LedgerOk(s, k)
  }

  lemma {:induction false} LedgerFrame(s: State, r: State)
    requires Shape(s) && Shape(r) && Ledgers(s) && SameSems(s, r)
    ensures Ledgers(r)
  {
    forall k | 0 <= k < |r.sem| ensures LedgerOk(r, k) {
      assert LedgerOk(s, k);
    }
  }

  lemma {:induction false} LedgerOther(s: State, r: State, k: int)
    requires Shape(s) && Shape(r) && Ledgers(s) && 0 <= k < |s.sem| && |r.sem| == |s.sem|
    requires forall i :: 0 <= i < |s.sem| && i != k ==>
               r.sem[i] == s.sem[i] && r.lists[i] == s.lists[i] && r.slog[i] == s.slog[i]
    requires LedgerOk(r, k)
    ensures Ledgers(r)
  {
    forall i | 0 <= i < |r.sem| ensures LedgerOk(r, i) {
      if i != k { assert LedgerOk(s, i); }
    }
  }

  lemma {:induction false} WaitLedger(s: State, k: int)
    requires Inv(s) && Ledgers(s) && (Blocks(s, EvWait(k)) ==> s.cur != NULLTHREAD)
    ensures Shape(WaitCall(s, k)) && Ledgers(WaitCall(s, k))
  {
    hide Block, Resched, PlacedIn, Sorted, Running, CountOk, Ledgers;
    WaitKeeps(s, k);
    if !BadSem(s, k) {
      var s1 := CountDown(s, k);
      if s1.sem[k].count < 0 {
        BlockLedger(s, k);
        CountDownKeeps(s, k);
        BlockKeeps(s1, k);
        ReschedKeeps(Block(s1, k));
        LedgerFrame(Block(s1, k), WaitCall(s, k));
      } else {
        CountDownLedger(s, k);
      }
    }
  }

  lemma {:induction false} CountDownLedger(s: State, k: int)
    requires Inv(s) && Ledgers(s) && !BadSem(s, k) && s.sem[k].count > 0
    ensures Ledgers(CountDown(s, k))
  {
    hide PlacedIn, Sorted, Running, CountOk;
    assert LedgerOk(s, k);
    LedgerOther(s, CountDown(s, k), k);
  }

  lemma {:induction false} BlockLedger(s: State, k: int)
    requires Inv(s) && Ledgers(s) && !BadSem(s, k)
    ensures Ledgers(Block(CountDown(s, k), k))
  {
    hide PlacedIn, Sorted, Running, CountOk;
    assert LedgerOk(s, k);
    LedgerOther(s, Block(CountDown(s, k), k), k);
  }

  lemma {:induction false} SignalOneLedger(s: State, k: int)
    requires Base(s, -1) && Counts(s) && Ledgers(s) && !BadSem(s, k)
    ensures Ledgers(SignalOne(s, k))
  {
    hide Release, PlacedIn, Sorted, Running, SameMail, SameSleep;
    var s1 := CountUp(s, k);
    assert LedgerOk(s, k) && CountOk(s, k);
    if s.sem[k].count < 0 {
      CountUpKeeps(s, k);
      ReleaseKeeps(s1, k);
      ReleaseLog(s1, k);
      assert s.lists[k] == [s.lists[k][0]] + s.lists[k][1..];
    }
    LedgerOther(s, SignalOne(s, k), k);
  }

  lemma {:induction false} ReleaseLog(s: State, k: int)
    requires Shape(s) && 0 <= k < |s.sem| && s.lists[k] != []
    ensures Release(s, k).slog[k] == s.slog[k].(released := s.slog[k].released + [s.lists[k][0]])
  {
    hide InsertAt, InsertPos;
  }

  lemma {:induction false} SignalManyLedger(s: State, k: int, n: nat)
    requires Base(s, -1) && Counts(s) && Ledgers(s) && !BadSem(s, k)
    ensures Ledgers(SignalMany(s, k, n))
    decreases n
  {
    hide SignalMany, SignalOne;
    SignalManyForm(s, k, n);
    if n > 0 {
      SignalOneKeeps(s, k);
      SignalOneLedger(s, k);
      SignalManyLedger(SignalOne(s, k), k, n - 1);
    }
  }

  lemma {:induction false} SignalLedger(s: State, k: int, n: int)
    requires Inv(s) && Ledgers(s)
    ensures Shape(SignalCall(s, k)) && Ledgers(SignalCall(s, k))
    ensures Shape(SignalNCall(s, k, n)) && Ledgers(SignalNCall(s, k, n))
  {
    hide PlacedIn, Sorted, Running, CountOk, SignalOne, SignalMany, Resched;
    SignalKeeps(s, k);
    SignalNKeeps(s, k, n);
    if !BadSem(s, k) {
      SignalOneLedger(s, k);
      SignalOneKeeps(s, k);
      ReschedKeeps(SignalOne(s, k));
      LedgerFrame(SignalOne(s, k), Resched(SignalOne(s, k)));
      if n > 0 {
        SignalManyLedger(s, k, n);
        SignalManyKeeps(s, k, n);
        ReschedKeeps(SignalMany(s, k, n));
        LedgerFrame(SignalMany(s, k, n), SignalNCall(s, k, n));
      }
    }
  }

  lemma {:induction false} SemTableLedger(s: State, k: int, count: int)
    requires Inv(s) && Ledgers(s)
    ensures Ledgers(SemFreeCall(s, k))
    ensures Ledgers(SemCreateCall(s, count))
  {
    if !BadSem(s, k) {
      DrainKeeps(s, k);
      LedgerOther(s, SemFreeCall(s, k), k);
    }
    var j := NextFree(s.sem, s.nextsem, |s.sem|);
    if 0 <= j < |s.sem| {
      NextFreeIsFree(s.sem, s.nextsem, |s.sem|);
      assert CountOk(s, j);
      LedgerOther(s, SemCreateCall(s, count), j);
    }
  }

  lemma {:induction false} DropFromSecond(a: seq<int>, l: seq<int>, t: int)
    requires t in l
    ensures var p := |a| + IndexOf(l, t); (a + l)[..p] + (a + l)[p+1..] == a + Remove(l, t)
  {
  }

  lemma {:induction false} CancelLedger(s: State, t: int)
    requires Inv(s) && Ledgers(s) && 0 < t < |s.thr| && s.thr[t].state == Wait
    ensures 0 <= s.thr[t].sem < |s.sem|
    ensures Ledgers(SetState(Cancel(s, t, s.thr[t].sem), t, Free))
  {
    var k := s.thr[t].sem;
    assert t in s.lists[k];
    var l, g := s.lists[k], s.slog[k];
    assert LedgerOk(s, k);
    DropFromSecond(g.released, l, t);
    LedgerOther(s, SetState(Cancel(s, t, k), t, Free), k);
  }

  lemma {:induction false} KillWaiting(s: State, t: int)
    requires Shape(s) && 0 < t < |s.thr| && s.thr[t].state == Wait && 0 <= s.thr[t].sem < |s.sem|
    ensures KillFinish(s, t) == SetState(Cancel(s, t, s.thr[t].sem), t, Free)
  {
    hide Cancel;
  }

  lemma {:induction false} ContinueLedger(s: State)
    requires Inv(s) && Ledgers(s) && !StrandsSleeper(s)
    ensures Shape(Continue(s)) && Ledgers(Continue(s))
  {
    hide PlacedIn, Sorted, Running, CountOk, Ledgers, KillFinish, Cancel;
    ContinueKeeps(s);
    var s1 := SetCall(s, s.cur, Idle);
    LedgerFrame(s, s1);
    MessagesKeep(s, s1, -1);
    match s.calls[s.cur]
    case Idle =>
    case InReceive => LedgerFrame(s1, Take(s1));
    case InRecvTime => if s.thr[s.cur].hasmsg { LedgerFrame(s1, Take(s1)); }
    case InKill(t) =>
      if s.thr[t].state == Wait {
        CancelLedger(s1, t);
        KillWaiting(s1, t);
      } else {
        KillFinishKeeps(s1, t);
        LedgerFrame(s1, KillFinish(s1, t));
      }
  }

  /** Calls that never touch a semaphore. */
  lemma {:induction false} OtherLedger(s: State, e: Event)
    requires Inv(s) && Ledgers(s) && Enabled(s, e) && !SemEvent(e) && !e.EvContinue?
    ensures Shape(Next(s, e)) && Ledgers(Next(s, e))
  {
    hide PlacedIn, Sorted, Running, CountOk, Ledgers, SameSems, Next;
    OtherSameSems(s, e);
    LedgerFrame(s, Next(s, e));
  }

  lemma {:induction false} OtherSameSems(s: State, e: Event)
    requires Inv(s) && Enabled(s, e) && !SemEvent(e) && !e.EvContinue?
    ensures Shape(Next(s, e)) && SameSems(s, Next(s, e))
  {
    hide PlacedIn, Sorted, Running, CountOk, ResumeCall, SuspendCall, KillCall, MakeReady, CreateCall, ChPrioCall;
    hide SleepCall, ClockCall, SendCall, ReceiveCall, RecvTimeCall, Take, Resched, SameSems, SameMail, SameSleep, Blocks;
    match e {
      case EvCreate(t, p) => CreateKeeps(s, t, p);
      case EvReady(t) => ReadyOne(s, t);
      case EvResume(t) => ResumeKeeps(s, t);
      case EvSuspend(t) => SuspendKeeps(s, t);
      case EvKill(t) => KillCallKeeps(s, t);
      case EvYield => ReschedInv(s);
      case EvChPrio(t, p) => ChPrioKeeps(s, t, p);
      case EvSleep(ms) => SleepKeeps(s, ms);
      case EvClock => ClockKeeps(s);
      case EvSend(t, m) => SendKeeps(s, t, m);
      case EvReceive => ReceiveKeeps(s);
      case EvRecvTime(w) => RecvTimeKeeps(s, w);
      case EvRecvClr => RecvClrSems(s);
    }
  }

  lemma {:induction false} RecvClrSems(s: State)
    requires Inv(s)
    ensures Shape(RecvClrCall(s)) && SameSems(s, RecvClrCall(s))
  {
    if s.thr[s.cur].hasmsg { TakeKeeps(s); }
  }

  lemma {:induction false} StepLedger(s: State, e: Event)
    requires Inv(s) && Ledgers(s) && Enabled(s, e)
    ensures Shape(Next(s, e)) && Ledgers(Next(s, e))
  {
    hide WaitCall, SignalCall, SignalNCall, SemCreateCall, SemFreeCall, Continue, Ledgers, Blocks;
    hide PlacedIn, Sorted, Running, CountOk;
    if e.EvWait? {
      WaitLedger(s, e.sem);
    } else if e.EvSignal? {
      SignalLedger(s, e.sem, 0);
    } else if e.EvSignalN? {
      SignalLedger(s, e.sem, e.n);
    } else if e.EvSemCreate? {
      SemTableLedger(s, 0, e.count);
    } else if e.EvSemFree? {
      SemTableLedger(s, e.sem, 0);
    } else if e.EvContinue? {
      ContinueLedger(s);
    } else {
      OtherLedger(s, e);
    }
  }

  lemma {:induction false} RunLedger(ss: seq<State>, es: seq<Event>, i: nat)
    requires IsRun(ss, es) && i < |ss| && Inv(ss[0]) && Ledgers(ss[0])
    ensures Inv(ss[i]) && Ledgers(ss[i])
  {
    RunInv(ss, es, i);
    if i > 0 {
      RunLedger(ss, es, i - 1);
      StepLedger(ss[i-1], es[i-1]);
    }
  }

  /** In every reachable state of every run from boot: a negative count is the
      number of waiters, the count balances, and the released threads are the
      first of those that blocked, in order. */
  lemma {:induction false} BootedSemaphores(ss: seq<State>, es: seq<Event>, i: nat, k: int)
    requires FromBoot(ss, es) && i < |ss| && 0 <= k < |ss[i].sem|
    ensures Shape(ss[i])
    ensures var s := ss[i]; var g := s.slog[k];
            s.sem[k].used ==>
              && |s.lists[k]| == (if s.sem[k].count < 0 then -s.sem[k].count else 0)
              && s.sem[k].count == g.init + g.signals - (g.waits - g.cancelled)
              && g.released <= g.arrived && g.arrived[|g.released|..] == s.lists[k]
  {
    InitInv(|ss[0].thr|, |ss[0].sem|);
    assert forall j :: 0 <= j < |ss[0].sem| ==> LedgerOk(ss[0], j);
    RunLedger(ss, es, i);
    assert CountOk(ss[i], k) && LedgerOk(ss[i], k);
  }
}
