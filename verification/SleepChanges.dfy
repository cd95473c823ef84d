/**
 What each call does to the sleep queue. Every step but a clock interrupt leaves
 it alone, adds the running thread, or takes one thread out, and none of these
 moves the time at which any other sleeper is due.
 */
module SleepChanges {
  import opened ThreadLists
  import opened DeltaQueue
  import opened KernelState
  import opened KernelInv
  import opened KernelSteps

  predicate Queued(s: State, t: int) {
    Shape(s) && t in s.lists[SQ(s)]
  }

  /** Ticks until a queued thread is due. */
  function Left(s: State, t: int): (n: int)
    requires Queued(s, t)
  {
    Remaining(s.lists[SQ(s)], s.key, t)
  }

  predicate Asleep(s: State, t: int) {
    Queued(s, t) && 0 <= t < |s.thr| && s.thr[t].state == Sleep
  }

  /** The first sleeper still has time to go. */
  predicate FrontOk(s: State)
    requires Shape(s)
  {
    s.lists[SQ(s)] != [] ==> s.key[s.lists[SQ(s)][0]] > 0
  }

  datatype Change = Keep | Add(n: int, st: ThreadState) | Drop(tid: int)

  function DropOf(s: State, t: int): (c: Change)
    requires Shape(s)
  {
    if !BadTid(s, t) && !s.thr[t].hasmsg && s.thr[t].state == Tmout then Drop(t) else Keep
  }

  function ChangeOf(s: State, e: Event): (c: Change)
    requires Shape(s)
  {
    match e
    case EvSleep(ms) => if Ticks(ms) > 0 then Add(Ticks(ms), Sleep) else Keep
    case EvRecvTime(w) => if w >= 0 && !s.thr[s.cur].hasmsg then Add(w, Tmout) else Keep
    case EvSend(t, m) => DropOf(s, t)
    case EvKill(t) => if BadTid(s, t) || t == NULLTHREAD then Keep else DropOf(s, s.thr[t].parent)
    case _ => Keep
  }

  predicate ChangeOk(s: State, c: Change)
    requires Shape(s)
  {
    match c
    case Keep => true
    case Add(n, st) => s.cur != NULLTHREAD && n >= 0 && (st == Sleep || st == Tmout)
    case Drop(t) => 0 <= t < |s.thr| && s.thr[t].state == Tmout
  }

  function After(s: State, c: Change): (r: State)
    requires Shape(s) && ChangeOk(s, c)
    ensures Shape(r)
  {
    match c
    case Keep => s
    case Add(n, st) => SetState(InsertD(s, s.cur, SQ(s), n), s.cur, st)
    case Drop(t) => Unsleep(s, t)
  }

  // ------------------------------------------------- the change of each call

  lemma {:induction false} SameSleepTrans(a: State, b: State, c: State)
    requires SameSleep(a, b) && SameSleep(b, c)
    ensures SameSleep(a, c)
  {
  }

  lemma {:induction false} SleepChange(s: State, ms: nat)
    requires Inv(s) && (Blocks(s, EvSleep(ms)) ==> s.cur != NULLTHREAD)
    ensures var c := ChangeOf(s, EvSleep(ms)); ChangeOk(s, c) && SameSleep(After(s, c), SleepCall(s, ms))
  {
    hide PlacedIn, Sorted, Running, CountOk, InsertD, SetState, Resched, SameSleep;
    if Ticks(ms) > 0 {
      FallAsleep(s, Ticks(ms), Sleep);
    }
    ReschedKeeps(After(s, ChangeOf(s, EvSleep(ms))));
    MovedSleep(After(s, ChangeOf(s, EvSleep(ms))));
  }

  lemma {:induction false} MovedSleep(s: State)
    requires Base(s, -1)
    ensures SameSleep(s, Resched(s))
  {
    ReschedKeeps(s);
  }

  lemma {:induction false} RecvTimeChange(s: State, w: int)
    requires Inv(s) && (Blocks(s, EvRecvTime(w)) ==> s.cur != NULLTHREAD)
    ensures var c := ChangeOf(s, EvRecvTime(w)); ChangeOk(s, c) && SameSleep(After(s, c), RecvTimeCall(s, w))
  {
    hide PlacedIn, Sorted, Running, CountOk, InsertD, SetState, SetCall, Resched, Take, SameSleep;
    if w < 0 {
      SleepRefl(s);
    } else if s.thr[s.cur].hasmsg {
      TakeKeeps(s);
    } else {
      FallAsleep(s, w, Tmout);
      var s1 := SetState(InsertD(s, s.cur, SQ(s), w), s.cur, Tmout);
      var s2 := SetCall(s1, s.cur, InRecvTime);
      SetCallSleep(s1, s.cur);
      MovedSleep(s2);
      SameSleepTrans(s1, s2, Resched(s2));
    }
  }

  lemma {:induction false} SetCallSleep(s: State, t: int)
    requires Base(s, -1) && 0 <= t < |s.thr|
    ensures var r := SetCall(s, t, InRecvTime); Base(r, -1) && SameSleep(s, r)
  {
    MessagesKeep(s, SetCall(s, t, InRecvTime), -1);
  }

  lemma {:induction false} SendChange(s: State, t: int, m: int)
    requires Inv(s)
    ensures ChangeOk(s, DropOf(s, t)) && SameSleep(After(s, DropOf(s, t)), SendCall(s, t, m))
  {
    hide PlacedIn, Sorted, Running, CountOk, SameSleep, Resched, Unsleep, MakeReady;
    if !BadTid(s, t) && !s.thr[t].hasmsg {
      var s1 := Deposit(s, t, m);
      MessagesKeep(s, s1, -1);
      DepositSleep(s, t, m);
      if s.thr[t].state == Recv {
        ReadyOne(s1, t);
        MovedSleep(MakeReady(s1, t));
        SameSleepTrans(s, s1, MakeReady(s1, t));
        SameSleepTrans(s, MakeReady(s1, t), SendCall(s, t, m));
      } else if s.thr[t].state == Tmout {
        WokenSleep(s1, t);
        DepositUnsleep(s, t, m);
        SameSleepTrans(Unsleep(s, t), Unsleep(s1, t), SendCall(s, t, m));
      }
    } else {
      SleepRefl(s);
    }
  }

  lemma {:induction false} SleepRefl(s: State)
    requires Inv(s)
    ensures SameSleep(s, s)
  {
  }

  lemma {:induction false} DepositSleep(s: State, t: int, m: int)
    requires Inv(s) && !BadTid(s, t)
    ensures SameSleep(s, Deposit(s, t, m))
  {
  }

  lemma {:induction false} DepositUnsleep(s: State, t: int, m: int)
    requires Inv(s) && !BadTid(s, t) && s.thr[t].state == Tmout
    ensures SameSleep(Unsleep(s, t), Unsleep(Deposit(s, t, m), t))
  {
    hide Sorted, Running, CountOk, UndeltaKeys, Remove;
    SleeperOnQueue(s, t);
    RemoveMembers(s.lists[SQ(s)], t);
  }

  lemma {:induction false} WokenSleep(s: State, t: int)
    requires Inv(s) && 0 <= t < |s.thr| && s.thr[t].state == Tmout
    ensures SameSleep(Unsleep(s, t), Resched(MakeReady(Unsleep(s, t), t)))
  {
    hide PlacedIn, Sorted, Running, CountOk, SameSleep, Resched, Unsleep, MakeReady;
    UnsleepKeeps(s, t);
    var s1 := Unsleep(s, t);
    ReadyKeeps(s1, t);
    MovedSleep(MakeReady(s1, t));
    SameSleepTrans(s1, MakeReady(s1, t), Resched(MakeReady(s1, t)));
  }

  lemma {:induction false} KillChange(s: State, t: int)
    requires Inv(s)
    ensures var c := ChangeOf(s, EvKill(t)); ChangeOk(s, c) && SameSleep(After(s, c), KillCall(s, t))
  {
    hide PlacedIn, Sorted, CountOk, SendCall, SameSleep, Unsleep;
    if !BadTid(s, t) && t != NULLTHREAD {
      var s1 := SetCall(s, s.cur, InKill(t));
      var p := s.thr[t].parent;
      MessagesKeep(s, s1, -1);
      SendChange(s1, p, t);
      KillSleep(s, t);
      SameSleepTrans(After(s, DropOf(s, p)), After(s1, DropOf(s, p)), KillCall(s, t));
    } else {
      SleepRefl(s);
    }
  }

  lemma {:induction false} KillSleep(s: State, t: int)
    requires Inv(s) && !BadTid(s, t) && t != NULLTHREAD
    ensures var s1, c := SetCall(s, s.cur, InKill(t)), DropOf(s, s.thr[t].parent);
            ChangeOk(s, c) && ChangeOk(s1, c) && SameSleep(After(s, c), After(s1, c))
  {
    hide Sorted, Running, CountOk, UndeltaKeys, Remove;
    var p := s.thr[t].parent;
    if DropOf(s, p).Drop? {
      SleeperOnQueue(s, p);
      RemoveMembers(s.lists[SQ(s)], p);
    }
  }

  /** The calls that leave the sleep queue alone. */
  lemma {:induction false} OtherChange(s: State, e: Event)
    requires Inv(s) && Enabled(s, e)
    requires !e.EvSleep? && !e.EvRecvTime? && !e.EvSend? && !e.EvKill? && !e.EvClock?
    ensures SameSleep(s, Next(s, e))
  {
    hide PlacedIn, Sorted, Running, CountOk, ResumeCall, SuspendCall, KillCall, WaitCall, SignalCall, SignalNCall;
    hide SemFreeCall, SemCreateCall, SleepCall, ClockCall, SendCall, ReceiveCall, RecvTimeCall, Continue, Resched;
    hide SameSleep, SameSems, SameMail, Placed, MakeReady, CreateCall, ChPrioCall, RecvClrCall;
    match e {
      case EvCreate(t, p) => CreateKeeps(s, t, p);
      case EvReady(t) => ReadyOne(s, t);
      case EvResume(t) => ResumeKeeps(s, t);
      case EvSuspend(t) => SuspendKeeps(s, t);
      case EvYield => MovedSleep(s);
      case EvChPrio(t, p) => ChPrioKeeps(s, t, p);
      case EvContinue => ContinueKeeps(s);
      case EvWait(k) => WaitKeeps(s, k);
      case EvSignal(k) => SignalKeeps(s, k);
      case EvSignalN(k, n) => SignalNKeeps(s, k, n);
      case EvSemCreate(c) => SemCreateKeeps(s, c);
      case EvSemFree(k) => SemFreeKeeps(s, k);
      case EvReceive => ReceiveKeeps(s);
      case EvRecvClr => RecvClrSleep(s);
    }
  }

  lemma {:induction false} RecvClrSleep(s: State)
    requires Inv(s)
    ensures SameSleep(s, RecvClrCall(s))
  {
    if s.thr[s.cur].hasmsg {
      TakeKeeps(s);
    }
  }

  /** Every step but the clock interrupt changes the sleep queue as ChangeOf says. */
  lemma {:induction false} CallChange(s: State, e: Event)
    requires Inv(s) && Enabled(s, e) && !e.EvClock?
    ensures var c := ChangeOf(s, e); ChangeOk(s, c) && SameSleep(After(s, c), Next(s, e))
  {
    hide After, SameSleep, PlacedIn, Sorted, CountOk, ResumeCall, SuspendCall, KillCall, WaitCall, SignalCall;
    hide SignalNCall, SemFreeCall, SemCreateCall, SleepCall, ClockCall, SendCall, ReceiveCall, RecvTimeCall;
    hide Continue, Resched, MakeReady, CreateCall, ChPrioCall, RecvClrCall, Blocks;
    if e.EvSleep? {
      SleepChange(s, e.ms);
    } else if e.EvRecvTime? {
      RecvTimeChange(s, e.maxwait);
    } else if e.EvSend? {
      SendChange(s, e.tid, e.msg);
    } else if e.EvKill? {
      KillChange(s, e.tid);
    } else {
      OtherChange(s, e);
      KeepIsSame(s, ChangeOf(s, e));
    }
  }

  lemma {:induction false} KeepIsSame(s: State, c: Change)
    requires Shape(s) && c.Keep?
    ensures ChangeOk(s, c) && After(s, c) == s
  {
  }

  // ------------------------------------------- what a change does to sleepers

  lemma {:induction false} DueFrame(l: seq<int>, key: seq<int>, key': seq<int>, i: nat)
    requires Within(l, |key|) && |key'| == |key| && i <= |l|
    requires forall j :: 0 <= j < |l| ==> key'[l[j]] == key[l[j]]
    ensures Due(l, key', i) == Due(l, key, i)
  {
    if i > 0 { DueFrame(l, key, key', i - 1); }
  }

  lemma {:induction false} SleepFrame(s: State, r: State, t: int)
    requires Shape(s) && Shape(r) && SameSleep(s, r)
    ensures FrontOk(r) <==> FrontOk(s)
    ensures Queued(r, t) <==> Queued(s, t)
    ensures Queued(s, t) ==> Left(r, t) == Left(s, t)
    ensures Asleep(s, t) ==> Asleep(r, t)
  {
    if Queued(s, t) {
      var l := s.lists[SQ(s)];
      assert l[IndexOf(l, t)] == t;
      DueFrame(l, s.key, r.key, IndexOf(l, t) + 1);
    }
  }

  lemma {:induction false} AddWait(s: State, n: int, st: ThreadState, t: int)
    requires Shape(s) && NoDup(s.lists[SQ(s)]) && NonNegative(s.lists[SQ(s)], s.key) && s.cur !in s.lists[SQ(s)]
    requires n >= 0
    ensures var r := SetState(InsertD(s, s.cur, SQ(s), n), s.cur, st);
            && (Queued(r, t) <==> Queued(s, t) || t == s.cur)
            && (Queued(s, t) ==> Left(r, t) == Left(s, t))
            && Left(r, s.cur) == n
            && (FrontOk(s) && n > 0 ==> FrontOk(r))
  {
    hide NoDup, NonNegative;
    InsertIsMapUpdate(s.lists[SQ(s)], s.key, s.cur, n);
    InsertNonNegative(s.lists[SQ(s)], s.key, s.cur, n);
    InsertMembers(s.lists[SQ(s)], DeltaPos(s.lists[SQ(s)], s.key, n), s.cur);
  }

  lemma {:induction false} DropWait(s: State, u: int, t: int)
    requires Inv(s) && 0 <= u < |s.thr| && s.thr[u].state == Tmout
    ensures Queued(Unsleep(s, u), t) <==> Queued(s, t) && t != u
    ensures Queued(s, t) && t != u ==> Left(Unsleep(s, u), t) == Left(s, t)
    ensures FrontOk(s) ==> FrontOk(Unsleep(s, u))
  {
    hide PlacedIn, Running, CountOk;
    var l := s.lists[SQ(s)];
    SleeperOnQueue(s, u);
    RemoveIsMapDelete(l, s.key, u);
    RemoveNonNegative(l, s.key, u);
  }

  lemma {:induction false} CurNotQueued(s: State)
    requires Inv(s)
    ensures s.cur !in s.lists[SQ(s)] && NoDup(s.lists[SQ(s)]) && NonNegative(s.lists[SQ(s)], s.key)
  {
  }

  /** Nobody else's due time moves, and who joins is due after what it asked. */
  lemma {:induction false} AfterWait(s: State, c: Change, t: int)
    requires Inv(s) && ChangeOk(s, c)
    ensures Queued(After(s, c), t) <==> (Queued(s, t) && c != Drop(t)) || (c.Add? && t == s.cur)
    ensures Queued(s, t) && c != Drop(t) ==> Left(After(s, c), t) == Left(s, t)
    ensures c.Add? ==> !Queued(s, s.cur) && Left(After(s, c), s.cur) == c.n
    ensures FrontOk(s) && !(c.Add? && c.n == 0) ==> FrontOk(After(s, c))
  {
    hide InsertD, SetState, Unsleep, FrontOk, Left, PlacedIn, Sorted, Running, CountOk;
    match c
    case Keep =>
    case Add(n, st) =>
      CurNotQueued(s);
      AddWait(s, n, st, t);
    case Drop(u) => DropWait(s, u, t);
  }

  lemma {:induction false} AfterState(s: State, c: Change, t: int)
    requires Inv(s) && ChangeOk(s, c)
    ensures Asleep(s, t) ==> After(s, c).thr[t] == s.thr[t] && c != Drop(t)
    ensures c.Add? ==> After(s, c).thr[s.cur].state == c.st
  {
  }

  lemma {:induction false} AfterShape(s: State, e: Event)
    requires Inv(s) && Enabled(s, e)
    ensures Shape(Next(s, e))
  {
    hide Next;
    StepKeeps(s, e);
  }

  /** A step that is no clock interrupt, for any thread t: it stays queued, due as
      before, unless it is taken out; and it is queued afresh only by its own
      sleep or recvtime, due after the time it gave. */
  lemma {:induction false} CallWait(s: State, e: Event, t: int)
    requires Inv(s) && Enabled(s, e) && !e.EvClock?
    ensures Shape(Next(s, e))
    ensures var c := ChangeOf(s, e);
            && (Queued(Next(s, e), t) <==> (Queued(s, t) && c != Drop(t)) || (c.Add? && t == s.cur))
            && (Queued(s, t) && c != Drop(t) ==> Left(Next(s, e), t) == Left(s, t))
            && (c.Add? ==> !Queued(s, s.cur) && Queued(Next(s, e), s.cur) && Left(Next(s, e), s.cur) == c.n)
  {
    hide Next, ChangeOf, After, Queued, Left, SameSleep;
    var c := ChangeOf(s, e);
    CallChange(s, e);
    AfterShape(s, e);
    AfterWait(s, c, t);
    AfterWait(s, c, s.cur);
    SleepFrame(After(s, c), Next(s, e), t);
    SleepFrame(After(s, c), Next(s, e), s.cur);
  }

  /** For a sleeping thread: no call but the clock interrupt changes when it is
      due, or puts a zero key first unless it is a recvtime with a zero timeout. */
  lemma {:induction false} CallAsleep(s: State, e: Event, t: int)
    requires Inv(s) && Enabled(s, e) && !e.EvClock?
    ensures Shape(Next(s, e))
    ensures Asleep(s, t) ==> Asleep(Next(s, e), t) && Left(Next(s, e), t) == Left(s, t)
    ensures FrontOk(s) && e != EvRecvTime(0) ==> FrontOk(Next(s, e))
    ensures ChangeOf(s, e).Add? && ChangeOf(s, e).st == Sleep ==> Asleep(Next(s, e), s.cur)
  {
    hide Next, After, Left, SameSleep, FrontOk;
    var c := ChangeOf(s, e);
    CallChange(s, e);
    AfterShape(s, e);
    AfterWait(s, c, t);
    AfterWait(s, c, s.cur);
    AfterState(s, c, t);
    SleepFrame(After(s, c), Next(s, e), t);
    SleepFrame(After(s, c), Next(s, e), s.cur);
  }
}
