/**
 Which thread resched runs, and how long a ready thread waits. Every step is a
 change of the ready list followed by at most one call of resched; the change
 either removes one thread or only adds threads behind their equals.
 */
module Scheduling {
  import opened ThreadLists
  import opened KernelState
  import opened KernelInv
  import opened KernelSteps
  import opened KernelRuns

  function ReadyList(s: State): (l: seq<int>)
    requires Shape(s)
  {
    s.lists[RQ(s)]
  }

  /** Ready threads are queued under their present priority. */
  predicate Synced(s: State)
    requires Shape(s)
  {
    forall i :: 0 <= i < |ReadyList(s)| ==> s.key[ReadyList(s)[i]] == s.thr[ReadyList(s)[i]].prio
  }

  /** No ready thread outranks the running one. */
  predicate Top(s: State)
    requires Shape(s)
  {
    forall i :: 0 <= i < |ReadyList(s)| ==> s.thr[ReadyList(s)[i]].prio <= s.thr[s.cur].prio
  }

  predicate Before(l: seq<int>, u: int, t: int) {
    u in l && t in l && IndexOf(l, u) < IndexOf(l, t)
  }

  /** m has the ready threads of s and perhaps more; a newcomer is queued under
      its priority, and ahead only of threads with a smaller key. */
  ghost predicate Grow(s: State, m: State) {
    && Shape(s) && Shape(m) && |m.thr| == |s.thr| && m.cur == s.cur && m.rescheds == s.rescheds
    && m.thr[m.cur].prio == s.thr[s.cur].prio
    && (forall t :: t in ReadyList(s) ==> t in ReadyList(m) && m.key[t] == s.key[t] && m.thr[t].prio == s.thr[t].prio)
    && (forall t :: t in ReadyList(m) && t !in ReadyList(s) ==> m.key[t] == m.thr[t].prio)
    && (forall u, t :: Before(ReadyList(m), u, t) && t in ReadyList(s) ==>
          Before(ReadyList(s), u, t) || m.key[u] > m.key[t])
  }

  /** m is s without ready thread u. */
  ghost predicate Shrink(s: State, m: State, u: int) {
    && Shape(s) && Shape(m) && |m.thr| == |s.thr| && m.cur == s.cur && m.rescheds == s.rescheds
    && u in ReadyList(s) && ReadyList(m) == Remove(ReadyList(s), u)
    && (forall t :: 0 <= t < |s.thr| ==> m.key[t] == s.key[t] && m.thr[t].prio == s.thr[t].prio)
  }

  lemma {:induction false} SameReadyGrows(s: State, m: State)
    requires Shape(s) && Shape(m) && |m.thr| == |s.thr| && m.cur == s.cur && m.rescheds == s.rescheds
    requires ReadyList(m) == ReadyList(s) && m.thr[m.cur].prio == s.thr[s.cur].prio
    requires forall i :: 0 <= i < |ReadyList(s)| ==>
               m.key[ReadyList(s)[i]] == s.key[ReadyList(s)[i]] && m.thr[ReadyList(s)[i]].prio == s.thr[ReadyList(s)[i]].prio
    ensures Grow(s, m)
  {
  }

  lemma {:induction false} GrowTwice(s: State, m: State, r: State)
    requires Grow(s, m) && Grow(m, r)
    ensures Grow(s, r)
  {
    forall u, t | Before(ReadyList(r), u, t) && t in ReadyList(s)
      ensures Before(ReadyList(s), u, t) || r.key[u] > r.key[t]
    {
      assert t in ReadyList(m);
      assert Before(ReadyList(m), u, t) || r.key[u] > r.key[t];
    }
  }

  lemma {:induction false} InsertBefore(l: seq<int>, p: nat, x: int, u: int, t: int)
    requires p <= |l| && NoDup(l) && x !in l && t in l
    requires Before(InsertAt(l, p, x), u, t)
    ensures u == x ==> p <= IndexOf(l, t)
    ensures u != x ==> Before(l, u, t)
  {
    hide InsertAt, NoDup;
    InsertMembers(l, p, x);
    var r, i := InsertAt(l, p, x), IndexOf(l, t);
    var j := if i < p then i else i + 1;
    InsertedAt(l, p, x, j);
    IndexUnique(r, j);
    var k := IndexOf(r, u);
    InsertedAt(l, p, x, k);
    InsertedAt(l, p, x, p);
    if u != x {
      IndexUnique(l, if k < p then k else k - 1);
    } else {
      IndexUnique(r, p);
    }
  }

  lemma {:induction false} NewcomerOrder(l: seq<int>, key: seq<int>, x: int, k: int, u: int, t: int)
    requires Within(l, |key|) && NoDup(l) && Descending(l, key) && x !in l && t in l
    requires Before(InsertAt(l, InsertPos(l, key, k), x), u, t)
    ensures Before(l, u, t) || (u == x && key[t] < k)
  {
    var p, i := InsertPos(l, key, k), IndexOf(l, t);
    InsertBefore(l, p, x, u, t);
    if u == x {
      assert key[l[p]] < k && (p < i ==> key[l[p]] >= key[l[i]]);
    }
  }

  lemma {:induction false} InsertGrows(s: State, x: int)
    requires Shape(s) && 0 <= x < |s.thr| && s.thr[x].state != Free
    requires x !in ReadyList(s) && NoDup(ReadyList(s)) && Descending(ReadyList(s), s.key)
    ensures Grow(s, MakeReady(s, x))
  {
    hide InsertPos, InsertAt, Descending, NoDup;
    var l, p := ReadyList(s), InsertPos(ReadyList(s), s.key, s.thr[x].prio);
    var m := MakeReady(s, x);
    InsertMembers(l, p, x);
    forall u, t | Before(ReadyList(m), u, t) && t in l ensures Before(l, u, t) || m.key[u] > m.key[t] {
      NewcomerOrder(l, s.key, x, s.thr[x].prio, u, t);
    }
  }

  lemma {:induction false} MakeReadyGrows(s: State, x: int)
    requires Base(s, x) && 0 <= x < |s.thr| && s.thr[x].state != Free
    ensures Grow(s, MakeReady(s, x))
  {
    hide Grow, MakeReady;
    assert x !in ReadyList(s) && NoDup(ReadyList(s));
    InsertGrows(s, x);
  }

  // -------------------------------------------------- what resched chooses

  lemma {:induction false} GrowSynced(s: State, m: State)
    requires Grow(s, m) && Synced(s)
    ensures Synced(m)
  {
    forall i | 0 <= i < |ReadyList(m)| ensures m.key[ReadyList(m)[i]] == m.thr[ReadyList(m)[i]].prio {
      var t := ReadyList(m)[i];
      assert t in ReadyList(m);
      if t in ReadyList(s) {
        assert ReadyList(s)[IndexOf(ReadyList(s), t)] == t;
      }
    }
  }

  lemma {:induction false} ShrinkSynced(s: State, m: State, u: int)
    requires Shrink(s, m, u) && Synced(s)
    ensures Synced(m)
  {
  }

  lemma {:induction false} RedispatchTop(m: State)
    requires Base(m, -1) && Synced(m)
    ensures Shape(Redispatch(m)) && Synced(Redispatch(m)) && Top(Redispatch(m))
  {
    RedispatchKeeps(m);
    var l, me := ReadyList(m), m.thr[m.cur];
    if me.state != Curr {
      DispatchTop(m);
    } else if !(l != [] && me.prio > m.key[l[0]]) {
      Detached(m, m.cur);
      ReadyKeeps(m, m.cur);
      MakeReadyGrows(m, m.cur);
      GrowSynced(m, MakeReady(m, m.cur));
      DispatchTop(MakeReady(m, m.cur));
    }
  }

  lemma {:induction false} DispatchTop(m: State)
    requires Base(m, -1) && Synced(m) && m.thr[m.cur].state != Curr
    ensures Shape(Dispatch(m)) && Synced(Dispatch(m)) && Top(Dispatch(m))
  {
    DispatchKeeps(m);
    var l, r := ReadyList(m), Dispatch(m);
    assert ReadyList(r) == l[1..];
    forall i | 0 <= i < |l| - 1
      ensures r.key[l[1..][i]] == r.thr[l[1..][i]].prio && r.thr[l[1..][i]].prio <= r.thr[r.cur].prio
    {
      assert l[1..][i] == l[i+1];
      assert m.key[l[0]] >= m.key[l[i+1]];
    }
  }

  /** Without chprio the running thread outranks, or equals, every ready thread
      after every resched. */
  lemma {:induction false} ReschedTop(m: State)
    requires Base(m, -1) && Synced(m)
    ensures Shape(Resched(m)) && Synced(Resched(m)) && Top(Resched(m))
  {
    RedispatchTop(m);
    var q, r := Redispatch(m), Resched(m);
    assert ReadyList(r) == ReadyList(q) && r.key == q.key && r.thr == q.thr;
    assert forall i :: 0 <= i < |ReadyList(r)| ==> ReadyList(r)[i] == ReadyList(q)[i];
  }

  // ----------------------------------- the ready list before each resched

  /** r is m, or what resched makes of m. */
  ghost predicate Ends(m: State, b: bool, r: State)
    requires Shape(m)
  {
    r == if b then Resched(m) else m
  }

  lemma {:induction false} SendMid(s: State, t: int, v: int) returns (m: State, b: bool)
    requires Inv(s)
    ensures Base(m, -1) && Grow(s, m) && Ends(m, b, SendCall(s, t, v))
  {
    m, b := s, false;
    SameReadyGrows(s, s);
    if !BadTid(s, t) && !s.thr[t].hasmsg {
      var s1 := Deposit(s, t, v);
      MessagesKeep(s, s1, -1);
      SameReadyGrows(s, s1);
      m := s1;
      if s.thr[t].state == Recv {
        Detached(s1, t);
        MakeReadyGrows(s1, t);
        ReadyKeeps(s1, t);
        GrowTwice(s, s1, MakeReady(s1, t));
        m, b := MakeReady(s1, t), true;
      } else if s.thr[t].state == Tmout {
        m := SendTimedMid(s1, t);
        GrowTwice(s, s1, m);
        b := true;
      }
    }
  }

  lemma {:induction false} SendTimedMid(s: State, t: int) returns (m: State)
    requires Inv(s) && 0 <= t < |s.thr| && s.thr[t].state == Tmout
    ensures m == MakeReady(Unsleep(s, t), t) && Base(m, -1) && Grow(s, m)
  {
    UnsleepKeeps(s, t);
    var s1 := Unsleep(s, t);
    var l := s.lists[SQ(s)];
    var i := IndexOf(l, t);
    assert i + 1 < |l| ==> l[i+1] in l && l[i+1] !in ReadyList(s);
    SameReadyGrows(s, s1);
    MakeReadyGrows(s1, t);
    ReadyKeeps(s1, t);
    m := MakeReady(s1, t);
    GrowTwice(s, s1, m);
  }

  lemma {:induction false} KillMid(s: State, t: int) returns (m: State, b: bool)
    requires Inv(s)
    ensures Base(m, -1) && Grow(s, m) && Ends(m, b, KillCall(s, t))
  {
    m, b := s, false;
    SameReadyGrows(s, s);
    if !BadTid(s, t) && t != NULLTHREAD {
      var s1 := SetCall(s, s.cur, InKill(t));
      MessagesKeep(s, s1, -1);
      SameReadyGrows(s, s1);
      m, b := SendMid(s1, s.thr[t].parent, t);
      GrowTwice(s, s1, m);
    }
  }

  lemma {:induction false} ReleaseGrows(s: State, k: int)
    requires Base(s, -1) && 0 <= k < |s.sem| && s.lists[k] != []
    ensures Grow(s, Release(s, k))
  {
    var t, g := s.lists[k][0], s.slog[k];
    var s1 := SetSem(s, k, s.sem[k], g.(released := g.released + [t]));
    SetSemBase(s, k, s.sem[k], s1.slog[k]);
    DequeueIsGetItem(s1, k);
    TakeOff(s1, t, k);
    MakeReadyGrows(GetItem(s1, t, k), t);
    SameReadyGrows(s, GetItem(s1, t, k));
    GrowTwice(s, GetItem(s1, t, k), Release(s, k));
  }

  lemma {:induction false} SignalOneGrows(s: State, k: int)
    requires Base(s, -1) && Counts(s) && !BadSem(s, k)
    ensures Grow(s, SignalOne(s, k))
  {
    CountUpKeeps(s, k);
    var s1 := CountUp(s, k);
    SameReadyGrows(s, s1);
    if s.sem[k].count < 0 {
      assert CountOk(s, k);
      ReleaseGrows(s1, k);
      GrowTwice(s, s1, Release(s1, k));
    }
  }

  lemma {:induction false} SignalManyGrows(s: State, k: int, n: nat)
    requires Base(s, -1) && Counts(s) && !BadSem(s, k)
    ensures Grow(s, SignalMany(s, k, n))
    decreases n
  {
    hide SignalMany, SignalOne;
    SignalManyForm(s, k, n);
    if n > 0 {
      SignalOneKeeps(s, k);
      SignalOneGrows(s, k);
      SignalManyGrows(SignalOne(s, k), k, n - 1);
      GrowTwice(s, SignalOne(s, k), SignalMany(s, k, n));
    } else {
      SameReadyGrows(s, s);
    }
  }

  lemma {:induction false} DrainGrows(s: State, k: int)
    requires Base(s, -1) && 0 <= k < |s.sem|
    ensures Grow(s, Drain(s, k))
    decreases |s.lists[k]|
  {
    if s.lists[k] != [] {
      ReleaseKeeps(s, k);
      ReleaseGrows(s, k);
      DrainGrows(Release(s, k), k);
      GrowTwice(s, Release(s, k), Drain(s, k));
    } else {
      SameReadyGrows(s, s);
    }
  }

  lemma {:induction false} SemMid(s: State, e: Event) returns (m: State, b: bool)
    requires Inv(s) && Enabled(s, e) && SemEvent(e)
    ensures Base(m, -1) && Grow(s, m) && Ends(m, b, Next(s, e))
  {
    hide WaitCall, SignalCall, SignalNCall, SemCreateCall, SemFreeCall, PlacedIn, Sorted, Running, CountOk, Grow, Ends;
    match e
    case EvWait(k) => m, b := WaitMid(s, k);
    case EvSignal(k) => m, b := SignalMid(s, k);
    case EvSignalN(k, n) => m, b := SignalNMid(s, k, n);
    case EvSemCreate(c) => m, b := SemCreateMid(s, c);
    case EvSemFree(k) => m, b := SemFreeMid(s, k);
  }

  lemma {:induction false} SignalMid(s: State, k: int) returns (m: State, b: bool)
    requires Inv(s)
    ensures Base(m, -1) && Grow(s, m) && Ends(m, b, SignalCall(s, k))
  {
    hide SignalOne, PlacedIn, Sorted, Running, CountOk, Grow;
    m, b := s, false;
    SameReadyGrows(s, s);
    if !BadSem(s, k) {
      SignalOneGrows(s, k);
      SignalOneKeeps(s, k);
      m, b := SignalOne(s, k), s.sem[k].count < 0 && s.lists[k] != [];
    }
  }

  lemma {:induction false} SignalNMid(s: State, k: int, n: int) returns (m: State, b: bool)
    requires Inv(s)
    ensures Base(m, -1) && Grow(s, m) && Ends(m, b, SignalNCall(s, k, n))
  {
    hide SignalMany, PlacedIn, Sorted, Running, CountOk, Grow;
    m, b := s, false;
    SameReadyGrows(s, s);
    if !BadSem(s, k) && n > 0 {
      SignalManyGrows(s, k, n);
      SignalManyKeeps(s, k, n);
      m, b := SignalMany(s, k, n), true;
    }
  }

  lemma {:induction false} SemCreateMid(s: State, c: int) returns (m: State, b: bool)
    requires Inv(s)
    ensures Base(m, -1) && Grow(s, m) && Ends(m, b, SemCreateCall(s, c))
  {
    hide PlacedIn, Sorted, Running, CountOk;
    SemCreateKeeps(s, c);
    m, b := SemCreateCall(s, c), false;
    SameReadyGrows(s, m);
  }

  lemma {:induction false} SemFreeMid(s: State, k: int) returns (m: State, b: bool)
    requires Inv(s)
    ensures Base(m, -1) && Grow(s, m) && Ends(m, b, SemFreeCall(s, k))
  {
    hide Drain, PlacedIn, Sorted, Running, CountOk;
    SemFreeKeeps(s, k);
    m, b := SemFreeCall(s, k), false;
    if BadSem(s, k) {
      SameReadyGrows(s, s);
    } else {
      DrainGrows(s, k);
      SameReadyGrows(Drain(s, k), m);
      GrowTwice(s, Drain(s, k), m);
    }
  }

  lemma {:induction false} WaitMid(s: State, k: int) returns (m: State, b: bool)
    requires Inv(s) && (Blocks(s, EvWait(k)) ==> s.cur != NULLTHREAD)
    ensures Base(m, -1) && Grow(s, m) && Ends(m, b, WaitCall(s, k))
  {
    hide Sorted, Running, CountOk, Grow;
    m, b := s, false;
    SameReadyGrows(s, s);
    if !BadSem(s, k) {
      CountDownKeeps(s, k);
      m := CountDown(s, k);
      SameReadyGrows(s, m);
      if m.sem[k].count < 0 {
        BlockKeeps(m, k);
        SameReadyGrows(m, Block(m, k));
        GrowTwice(s, m, Block(m, k));
        m, b := Block(m, k), true;
      }
    }
  }

  lemma {:induction false} WakeupGrows(s: State)
    requires Base(s, -1)
    ensures Grow(s, Wakeup(s))
    decreases |s.lists[SQ(s)]|
  {
    var l := s.lists[SQ(s)];
    if l != [] && s.key[l[0]] <= 0 {
      WakeOneGrows(s);
      WakeOneKeeps(s);
      WakeupGrows(WakeOne(s));
      GrowTwice(s, WakeOne(s), Wakeup(s));
    } else {
      SameReadyGrows(s, s);
    }
  }

  lemma {:induction false} WakeOneGrows(s: State)
    requires Base(s, -1) && s.lists[SQ(s)] != []
    ensures Grow(s, WakeOne(s))
  {
    var t := s.lists[SQ(s)][0];
    DequeueIsGetItem(s, SQ(s));
    TakeOff(s, t, SQ(s));
    MakeReadyGrows(GetItem(s, t, SQ(s)), t);
    SameReadyGrows(s, GetItem(s, t, SQ(s)));
    GrowTwice(s, GetItem(s, t, SQ(s)), WakeOne(s));
  }

  lemma {:induction false} TickGrows(s: State)
    requires Base(s, -1)
    ensures Grow(s, Tick(s))
  {
    var l := s.lists[SQ(s)];
    if l == [] {
      SameReadyGrows(s, s);
    } else {
      TickForms(s);
      if s.key[l[0]] <= 1 {
        WakeOneGrows(s);
        WakeOneKeeps(s);
        WakeupGrows(WakeOne(s));
        GrowTwice(s, WakeOne(s), Tick(s));
      } else {
        assert l[0] in l && l[0] !in ReadyList(s);
        SameReadyGrows(s, Tick(s));
      }
    }
  }

  lemma {:induction false} FallAsleepGrows(s: State, n: int, st: ThreadState)
    requires Inv(s) && s.cur != NULLTHREAD && n >= 0 && (st == Sleep || st == Tmout)
    ensures Grow(s, SetState(InsertD(s, s.cur, SQ(s), n), s.cur, st))
  {
    var l := s.lists[SQ(s)];
    var i := DeltaPos(l, s.key, n);
    assert i < |l| ==> l[i] in l && l[i] !in ReadyList(s);
    assert s.cur !in ReadyList(s);
    SameReadyGrows(s, SetState(InsertD(s, s.cur, SQ(s), n), s.cur, st));
  }

  lemma {:induction false} SleepMid(s: State, ms: nat) returns (m: State)
    requires Inv(s) && (Blocks(s, EvSleep(ms)) ==> s.cur != NULLTHREAD)
    ensures Base(m, -1) && Grow(s, m) && Ends(m, true, SleepCall(s, ms))
  {
    m := s;
    if Ticks(ms) > 0 {
      FallAsleep(s, Ticks(ms), Sleep);
      FallAsleepGrows(s, Ticks(ms), Sleep);
      m := SetState(InsertD(s, s.cur, SQ(s), Ticks(ms)), s.cur, Sleep);
    } else {
      SameReadyGrows(s, s);
    }
  }

  lemma {:induction false} TakeMid(s: State)
    requires Inv(s)
    ensures Base(Take(s), -1) && Grow(s, Take(s))
  {
    TakeKeeps(s);
    SameReadyGrows(s, Take(s));
  }

  lemma {:induction false} ReceiveMid(s: State) returns (m: State, b: bool)
    requires Inv(s) && (Blocks(s, EvReceive) ==> s.cur != NULLTHREAD)
    ensures Base(m, -1) && Grow(s, m) && Ends(m, b, ReceiveCall(s))
  {
    if s.thr[s.cur].hasmsg {
      TakeMid(s);
      m, b := Take(s), false;
    } else {
      StopSelfKeeps(s, Recv);
      m, b := SetCall(SetState(s, s.cur, Recv), s.cur, InReceive), true;
      MessagesKeep(SetState(s, s.cur, Recv), m, -1);
      SameReadyGrows(s, m);
    }
  }

  lemma {:induction false} RecvTimeMid(s: State, maxwait: int) returns (m: State, b: bool)
    requires Inv(s) && (Blocks(s, EvRecvTime(maxwait)) ==> s.cur != NULLTHREAD)
    ensures Base(m, -1) && Grow(s, m) && Ends(m, b, RecvTimeCall(s, maxwait))
  {
    m, b := s, false;
    if maxwait < 0 {
      SameReadyGrows(s, s);
    } else if s.thr[s.cur].hasmsg {
      TakeMid(s);
      m := Take(s);
    } else {
      FallAsleep(s, maxwait, Tmout);
      FallAsleepGrows(s, maxwait, Tmout);
      var s1 := SetState(InsertD(s, s.cur, SQ(s), maxwait), s.cur, Tmout);
      m, b := SetCall(s1, s.cur, InRecvTime), true;
      MessagesKeep(s1, m, -1);
      SameReadyGrows(s1, m);
      GrowTwice(s, s1, m);
    }
  }

  lemma {:induction false} RemoveShrinks(s: State, t: int, st: ThreadState)
    requires Inv(s) && 0 < t < |s.thr| && s.thr[t].state == Ready && (st == Susp || st == Free)
    ensures var m := SetState(GetItem(s, t, RQ(s)), t, st); Base(m, -1) && Shrink(s, m, t)
  {
    RemoveReadyKeeps(s, t, st);
    assert t in ReadyList(s);
  }

  lemma {:induction false} KillQuietGrows(s: State, t: int)
    requires Inv(s) && 0 < t < |s.thr|
    requires var st := s.thr[t].state; st == Wait || st == Recv || st == Susp || st == Free
    ensures Base(KillFinish(s, t), -1) && Grow(s, KillFinish(s, t))
  {
    hide PlacedIn, Sorted, Running, Grow, SameSleep, SameSems;
    KillFinishKeeps(s, t);
    SameReadyGrows(s, KillFinish(s, t));
  }

  lemma {:induction false} KillFinishMid(s: State, t: int) returns (m: State, b: bool, u: int)
    requires Inv(s) && 0 < t < |s.thr| && s.thr[t].state != Sleep && s.thr[t].state != Tmout
    ensures Base(m, -1) && Ends(m, b, KillFinish(s, t))
    ensures if u < 0 then Grow(s, m) else Shrink(s, m, u) && !b && u == t
  {
    m, b, u := KillFinish(s, t), false, -1;
    if s.thr[t].state == Curr {
      StopSelfKeeps(s, Free);
      m, b := SetState(s, t, Free), true;
      SameReadyGrows(s, m);
    } else if s.thr[t].state == Ready {
      RemoveShrinks(s, t, Free);
      u := t;
    } else {
      KillQuietGrows(s, t);
    }
  }

  lemma {:induction false} ContinueMid(s: State) returns (m: State, b: bool, u: int)
    requires Inv(s) && !StrandsSleeper(s)
    ensures Base(m, -1) && Ends(m, b, Continue(s))
    ensures if u < 0 then Grow(s, m) else Shrink(s, m, u) && !b && s.calls[s.cur] == InKill(u)
  {
    var s1 := SetCall(s, s.cur, Idle);
    MessagesKeep(s, s1, -1);
    SameReadyGrows(s, s1);
    m, b, u := s1, false, -1;
    match s.calls[s.cur] {
      case Idle => m := s; SameReadyGrows(s, s);
      case InReceive =>
        TakeMid(s1);
        m := Take(s1);
        GrowTwice(s, s1, m);
      case InRecvTime =>
        if s.thr[s.cur].hasmsg {
          TakeMid(s1);
          m := Take(s1);
          GrowTwice(s, s1, m);
        }
      case InKill(t) =>
        m, b, u := KillFinishMid(s1, t);
        if u < 0 { GrowTwice(s, s1, m); }
    }
  }

  lemma {:induction false} CreateMid(s: State, t: int, p: int) returns (m: State)
    requires Inv(s) && 0 <= t < |s.thr| && s.thr[t].state == Free && p > MINKEY
    ensures Base(m, -1) && Grow(s, m) && m == CreateCall(s, t, p)
  {
    CreateKeeps(s, t, p);
    assert t !in ReadyList(s);
    m := CreateCall(s, t, p);
    SameReadyGrows(s, m);
  }

  lemma {:induction false} ThreadMid(s: State, e: Event) returns (m: State, b: bool, u: int)
    requires Inv(s) && Enabled(s, e) && ThreadEvent(e) && !e.EvChPrio?
    ensures Base(m, -1) && Ends(m, b, Next(s, e))
    ensures if u < 0 then Grow(s, m)
            else Shrink(s, m, u) && !b && (e == EvSuspend(u) || (e.EvContinue? && s.calls[s.cur] == InKill(u)))
  {
    hide SuspendCall, KillCall, Continue, Resched, Sorted, Running, CountOk, Grow, Shrink;
    m, b, u := s, false, -1;
    SameReadyGrows(s, s);
    match e
    case EvCreate(t, p) => m := CreateMid(s, t, p);
    case EvReady(t) => m := ReadyMid(s, t);
    case EvResume(t) => if !BadTid(s, t) && s.thr[t].state == Susp { m := ReadyMid(s, t); b := true; }
    case EvSuspend(t) => m, b, u := SuspendMid(s, t);
    case EvKill(t) => m, b := KillMid(s, t);
    case EvContinue => m, b, u := ContinueMid(s);
    case EvYield => b := true;
  }

  /** Every step, as a change of the ready list and perhaps a resched. */
  lemma {:induction false} StepMid(s: State, e: Event) returns (m: State, b: bool, u: int)
    requires Inv(s) && Enabled(s, e) && !e.EvChPrio?
    ensures Base(m, -1) && Ends(m, b, Next(s, e))
    ensures if u < 0 then Grow(s, m)
            else Shrink(s, m, u) && !b && (e == EvSuspend(u) || (e.EvContinue? && s.calls[s.cur] == InKill(u)))
  {
    m, b, u := s, false, -1;
    if SemEvent(e) {
      m, b := SemMid(s, e);
    } else if ThreadEvent(e) {
      m, b, u := ThreadMid(s, e);
    } else {
      match e
      case EvClock =>
        TickGrows(s);
        TickKeeps(s);
        m, b := Tick(s), true;
      case EvSend(t, v) => m, b := SendMid(s, t, v);
      case EvSleep(ms) => m := SleepMid(s, ms); b := true;
      case EvReceive => m, b := ReceiveMid(s);
      case EvRecvTime(w) => m, b := RecvTimeMid(s, w);
      case EvRecvClr =>
        if s.thr[s.cur].hasmsg { TakeMid(s); m := Take(s); } else { SameReadyGrows(s, s); }
    }
  }

  lemma {:induction false} ReadyMid(s: State, t: int) returns (m: State)
    requires Inv(s) && !BadTid(s, t) && s.thr[t].state == Susp
    ensures m == MakeReady(s, t) && Base(m, -1) && Grow(s, m)
  {
    Detached(s, t);
    MakeReadyGrows(s, t);
    ReadyKeeps(s, t);
    m := MakeReady(s, t);
  }

  lemma {:induction false} SuspendMid(s: State, t: int) returns (m: State, b: bool, u: int)
    requires Inv(s)
    ensures Base(m, -1) && Ends(m, b, SuspendCall(s, t))
    ensures if u < 0 then Grow(s, m) else Shrink(s, m, u) && !b && u == t
  {
    m, b, u := s, false, -1;
    SameReadyGrows(s, s);
    if !BadTid(s, t) && t != NULLTHREAD {
      if s.thr[t].state == Ready {
        RemoveShrinks(s, t, Susp);
        m, u := SetState(GetItem(s, t, RQ(s)), t, Susp), t;
      } else if s.thr[t].state == Curr {
        StopSelfKeeps(s, Susp);
        m, b := SetState(s, t, Susp), true;
        SameReadyGrows(s, m);
      }
    }
  }

  // ----------------------------------------------------------- how long it takes

  function Ahead(s: State, t: int): (n: nat)
    requires Shape(s) && t in ReadyList(s)
  {
    IndexOf(ReadyList(s), t)
  }

  /** No thread that could run has a priority above p. */
  predicate Bounded(s: State, p: int)
    requires Shape(s)
  {
    forall t :: 0 <= t < |s.thr| && (s.thr[t].state == Ready || s.thr[t].state == Curr) ==> s.thr[t].prio <= p
  }

  function Members(l: seq<int>): (r: set<int>) {
    set x | x in l
  }

  lemma {:induction false} PrefixSize(l: seq<int>, i: nat)
    requires NoDup(l) && i <= |l|
    ensures |Members(l[..i])| == i
  {
    if i > 0 {
      PrefixSize(l, i - 1);
      assert Members(l[..i]) == Members(l[..i-1]) + {l[i-1]} by {
        assert l[..i] == l[..i-1] + [l[i-1]];
      }
      assert l[i-1] !in Members(l[..i-1]) by {
        assert l[i-1] !in l[..i-1];
      }
    }
  }

  lemma {:induction false} IndexBound(l: seq<int>, l': seq<int>, t: int)
    requires NoDup(l) && NoDup(l') && t in l && t in l'
    requires forall u :: Before(l', u, t) ==> Before(l, u, t)
    ensures IndexOf(l', t) <= IndexOf(l, t)
  {
    var i, i' := IndexOf(l, t), IndexOf(l', t);
    PrefixSize(l, i);
    PrefixSize(l', i');
    forall u | u in Members(l'[..i']) ensures u in Members(l[..i]) {
      var k :| 0 <= k < i' && l'[k] == u;
      IndexUnique(l', k);
      assert Before(l', u, t);
      assert l[..i][IndexOf(l, u)] == u;
    }
    SubsetSize(Members(l'[..i']), Members(l[..i]));
  }

  lemma {:induction false} SubsetSize(a: set<int>, b: set<int>)
    requires a <= b
    ensures |a| <= |b|
  {
    assert b == a + (b - a);
  }

  /** Newcomers of no higher priority queue behind t. */
  lemma {:induction false} GrowAhead(s: State, m: State, t: int)
    requires Base(s, -1) && Base(m, -1) && Grow(s, m) && t in ReadyList(s)
    requires forall u :: u in ReadyList(m) ==> m.key[u] <= m.key[t]
    ensures t in ReadyList(m) && Ahead(m, t) <= Ahead(s, t)
  {
    assert forall u :: Before(ReadyList(m), u, t) ==> u in ReadyList(m);
    IndexBound(ReadyList(s), ReadyList(m), t);
  }

  lemma {:induction false} ShrinkAhead(s: State, m: State, u: int, t: int)
    requires Base(s, -1) && Shrink(s, m, u) && t in ReadyList(s) && t in ReadyList(m)
    ensures Ahead(m, t) <= Ahead(s, t)
  {
    var l, l' := ReadyList(s), ReadyList(m);
    RemoveMembers(l, u);
    var i := IndexOf(l, t);
    if i < IndexOf(l, u) {
      assert l'[i] == t;
      IndexUnique(l', i);
    } else {
      assert l'[i-1] == t;
      IndexUnique(l', i - 1);
    }
  }

  lemma {:induction false} DispatchAhead(m: State, t: int)
    requires Base(m, -1) && m.thr[m.cur].state != Curr && t in ReadyList(m)
    requires Dispatch(m).cur != t
    ensures Shape(Dispatch(m)) && t in ReadyList(Dispatch(m)) && Ahead(Dispatch(m), t) + 1 == Ahead(m, t)
  {
    DispatchKeeps(m);
    var l := ReadyList(m);
    var i := IndexOf(l, t);
    assert ReadyList(Dispatch(m)) == l[1..];
    TailMembers(l);
    assert l[1..][i-1] == t;
    IndexUnique(l[1..], i - 1);
  }

  lemma {:induction false} YieldBounds(m: State, t: int)
    requires Base(m, -1) && t in ReadyList(m) && m.thr[m.cur].state == Curr
    requires m.thr[m.cur].prio <= m.key[t]
    requires forall u :: u in ReadyList(m) ==> m.key[u] <= m.key[t]
    ensures m.key[ReadyList(m)[0]] >= m.key[t]
    ensures var q := MakeReady(m, m.cur);
            q.key[t] == m.key[t] && forall u :: u in ReadyList(q) ==> q.key[u] <= q.key[t]
  {
    var l := ReadyList(m);
    assert l[IndexOf(l, t)] == t;
    assert m.cur !in l;
    InsertMembers(l, InsertPos(l, m.key, m.thr[m.cur].prio), m.cur);
  }

  lemma {:induction false} YieldAhead(m: State, t: int)
    requires Base(m, -1) && t in ReadyList(m) && m.thr[m.cur].state == Curr
    requires m.thr[m.cur].prio <= m.key[t]
    requires forall u :: u in ReadyList(m) ==> m.key[u] <= m.key[t]
    ensures var q := MakeReady(m, m.cur);
            && Base(q, -1) && q.thr[q.cur].state == Ready && Redispatch(m) == Dispatch(q)
            && t in ReadyList(q) && Ahead(q, t) <= Ahead(m, t)
  {
    hide PlacedIn, Sorted, SameSems, SameMail, SameSleep, InsertAt, InsertPos, Grow;
    YieldBounds(m, t);
    Detached(m, m.cur);
    ReadyKeeps(m, m.cur);
    MakeReadyGrows(m, m.cur);
    GrowAhead(m, MakeReady(m, m.cur), t);
  }

  /** A resched that does not run t brings it one place forward. */
  lemma {:induction false} ReschedAhead(m: State, t: int)
    requires Base(m, -1) && t in ReadyList(m) && Resched(m).cur != t
    requires m.thr[m.cur].state == Curr ==> m.thr[m.cur].prio <= m.key[t]
    requires forall u :: u in ReadyList(m) ==> m.key[u] <= m.key[t]
    ensures Shape(Resched(m)) && t in ReadyList(Resched(m)) && Ahead(Resched(m), t) + 1 <= Ahead(m, t)
  {
    if m.thr[m.cur].state != Curr {
      DispatchAhead(m, t);
    } else {
      YieldAhead(m, t);
      DispatchAhead(MakeReady(m, m.cur), t);
    }
  }

  // -------------------------------------------------------------- steps and runs

  /** Every step but chprio keeps ready threads queued under their priority,
      and leaves the best thread running whenever it calls resched. */
  lemma {:induction false} StepTop(s: State, e: Event)
    requires Inv(s) && Synced(s) && Enabled(s, e) && !e.EvChPrio?
    ensures Shape(Next(s, e)) && Synced(Next(s, e))
    ensures Next(s, e).rescheds > s.rescheds ==> Top(Next(s, e))
  {
    hide Next, PlacedIn, Sorted, Running;
    var m, b, u := StepMid(s, e);
    if u < 0 { GrowSynced(s, m); } else { ShrinkSynced(s, m, u); }
    if b { ReschedTop(m); }
  }

  lemma {:induction false} RunSynced(ss: seq<State>, es: seq<Event>, i: nat)
    requires FromBoot(ss, es) && i < |ss| && forall k :: 0 <= k < |es| ==> !es[k].EvChPrio?
    ensures Inv(ss[i]) && Synced(ss[i])
  {
    InitInv(|ss[0].thr|, |ss[0].sem|);
    RunInv(ss, es, i);
    if i > 0 {
      RunSynced(ss, es, i - 1);
      StepTop(ss[i-1], es[i-1]);
    }
  }

  /** In a run from boot without chprio, no ready thread outranks the running
      thread after a step that called resched. */
  lemma {:induction false} BootedTop(ss: seq<State>, es: seq<Event>, i: nat)
    requires FromBoot(ss, es) && i < |es| && forall k :: 0 <= k < |es| ==> !es[k].EvChPrio?
    requires ss[i+1].rescheds > ss[i].rescheds
    ensures Shape(ss[i+1]) && Top(ss[i+1])
  {
    RunSynced(ss, es, i);
    StepTop(ss[i], es[i]);
  }

  lemma {:induction false} ReschedAwake(m: State, u: int)
    requires Shape(m) && 0 <= u < |m.thr| && m.thr[u].state == Ready
    ensures var r := Resched(m);
            |r.thr| == |m.thr| && r.thr[u].prio == m.thr[u].prio
            && (r.thr[u].state == Ready || r.thr[u].state == Curr)
  {
    hide InsertAt, InsertPos;
  }

  /** The threads ready before the last resched of a step are as bounded as
      those after it. */
  lemma {:induction false} MidBounded(m: State, b: bool, r: State, p: int)
    requires Base(m, -1) && Synced(m) && Ends(m, b, r) && Shape(r) && Bounded(r, p)
    ensures forall u :: u in ReadyList(m) ==> m.key[u] <= p
  {
    forall u | u in ReadyList(m) ensures m.key[u] <= p {
      assert ReadyList(m)[IndexOf(ReadyList(m), u)] == u && m.thr[u].state == Ready;
      if b {
        ReschedAwake(m, u);
      }
    }
  }

  lemma {:induction false} MidAhead(s: State, m: State, b: bool, r: State, t: int)
    requires Inv(s) && Synced(s) && t in ReadyList(s) && s.thr[s.cur].prio <= s.key[t]
    requires Base(m, -1) && Synced(m) && Grow(s, m) && Ends(m, b, r)
    requires forall u :: u in ReadyList(m) ==> m.key[u] <= m.key[t]
    ensures r.cur == t
            || (Shape(r) && t in ReadyList(r) && r.thr[t].prio == s.thr[t].prio
                && Ahead(r, t) + (r.rescheds - s.rescheds) <= Ahead(s, t))
  {
    hide PlacedIn, Sorted;
    GrowAhead(s, m, t);
    assert ReadyList(m)[IndexOf(ReadyList(m), t)] == t;
    if b && Resched(m).cur != t {
      ReschedAhead(m, t);
      ReadyIsReady(m, t);
      ReschedAwake(m, t);
    }
  }

  lemma {:induction false} ReadyIsReady(s: State, t: int)
    requires Base(s, -1) && t in ReadyList(s)
    ensures 0 <= t < |s.thr| && s.thr[t].state == Ready
  {
  }

  /** Over one step a ready thread of maximal priority either gets the
      processor or moves up one place for every resched. */
  lemma {:induction false} StepAhead(s: State, e: Event, t: int)
    requires Inv(s) && Synced(s) && Enabled(s, e) && !e.EvChPrio? && t in ReadyList(s)
    requires Shape(Next(s, e)) && Bounded(s, s.thr[t].prio) && Bounded(Next(s, e), s.thr[t].prio)
    requires e != EvSuspend(t) && !(e.EvContinue? && s.calls[s.cur] == InKill(t))
    ensures var r := Next(s, e);
            || r.cur == t
            || (t in ReadyList(r) && r.thr[t].prio == s.thr[t].prio
                && Ahead(r, t) + (r.rescheds - s.rescheds) <= Ahead(s, t))
  {
    hide Next, PlacedIn, Sorted;
    var m, b, u := StepMid(s, e);
    assert ReadyList(s)[IndexOf(ReadyList(s), t)] == t;
    if u < 0 {
      GrowSynced(s, m);
      MidBounded(m, b, Next(s, e), s.thr[t].prio);
      MidAhead(s, m, b, Next(s, e), t);
    } else {
      RemoveKeeps(s, u, t);
      ShrinkAhead(s, m, u, t);
    }
  }

  lemma {:induction false} RemoveKeeps(s: State, u: int, t: int)
    requires Base(s, -1) && u in ReadyList(s) && t in ReadyList(s) && u != t
    ensures t in Remove(ReadyList(s), u)
  {
    RemoveMembers(ReadyList(s), u);
  }

  /** No call made in es[i..j] suspends t or finishes killing it. */
  ghost predicate LeftAlone(ss: seq<State>, es: seq<Event>, i: nat, j: nat, t: int)
    requires i <= j <= |es| == |ss| - 1
  {
    forall k :: i <= k < j && Shape(ss[k]) ==>
      es[k] != EvSuspend(t) && !(es[k].EvContinue? && ss[k].calls[ss[k].cur] == InKill(t))
  }

  lemma {:induction false} MovesUp(ss: seq<State>, es: seq<Event>, i: nat, j: nat, t: int, p: int)
    requires FromBoot(ss, es) && (forall k :: 0 <= k < |es| ==> !es[k].EvChPrio?) && i <= j < |ss|
    requires Shape(ss[i]) && t in ReadyList(ss[i]) && p == ss[i].thr[t].prio && LeftAlone(ss, es, i, j, t)
    requires forall k :: i <= k <= j && Shape(ss[k]) ==> Bounded(ss[k], p)
    requires forall k :: i <= k <= j ==> ss[k].cur != t
    ensures Shape(ss[j]) && t in ReadyList(ss[j]) && ss[j].thr[t].prio == p
    ensures Ahead(ss[j], t) + (ss[j].rescheds - ss[i].rescheds) <= Ahead(ss[i], t)
    decreases j
  {
    hide Next;
    if i < j {
      MovesUp(ss, es, i, j - 1, t, p);
      RunSynced(ss, es, j - 1);
      RunSynced(ss, es, j);
      StepAhead(ss[j-1], es[j-1], t);
    }
  }

  /** In a run from boot without chprio, a ready thread with k threads ahead of
      it, that nobody suspends or kills and no runnable thread outranks, has
      had the processor by the time resched has been called k + 1 times. */
  lemma {:induction false} RunsWithin(ss: seq<State>, es: seq<Event>, i: nat, j: nat, t: int)
    requires FromBoot(ss, es) && (forall k :: 0 <= k < |es| ==> !es[k].EvChPrio?) && i <= j < |ss|
    requires Shape(ss[i]) && t in ReadyList(ss[i]) && LeftAlone(ss, es, i, j, t)
    requires forall k :: i <= k <= j && Shape(ss[k]) ==> Bounded(ss[k], ss[i].thr[t].prio)
    requires ss[j].rescheds >= ss[i].rescheds + Ahead(ss[i], t) + 1
    ensures exists k :: i <= k <= j && ss[k].cur == t
  {
    if forall k :: i <= k <= j ==> ss[k].cur != t {
      MovesUp(ss, es, i, j, t, ss[i].thr[t].prio);
    }
  }

  // --------------------------------------------------------------------- chprio

  /** The ready list is in the order of the present priorities. */
  predicate InOrder(s: State)
    requires Shape(s)
  {
    forall i, j :: 0 <= i < j < |ReadyList(s)| ==> s.thr[ReadyList(s)[i]].prio >= s.thr[ReadyList(s)[j]].prio
  }

  lemma {:induction false} ReadyPlace(s: State, t: int)
    requires Inv(s) && Synced(s) && !BadTid(s, t) && s.thr[t].state == Ready
    ensures Shape(s) && s.thr[s.cur].state == Curr && Descending(ReadyList(s), s.key)
    ensures var l := ReadyList(s);
            && t in l && t != s.cur && s.cur !in l && (forall i :: 0 <= i < |l| ==> (l[i] == t <==> i == IndexOf(l, t)))
            && (forall i, j :: 0 <= i < j < |l| ==> s.thr[l[i]].prio >= s.thr[l[j]].prio)
            && (forall i :: 0 <= i < |l| ==> s.key[l[i]] == s.thr[l[i]].prio)
  {
    var l := ReadyList(s);
    assert t in l;
    forall i, j | 0 <= i < j < |l| ensures s.thr[l[i]].prio >= s.thr[l[j]].prio {
      assert s.key[l[i]] >= s.key[l[j]];
    }
  }

  /** chprio does not requeue: the ready list stays in the order of priorities
      exactly when the new one still fits between those of the neighbours. */
  lemma {:induction false} ChPrioOrder(s: State, t: int, prio: int)
    requires Inv(s) && Synced(s) && !BadTid(s, t) && s.thr[t].state == Ready
    ensures t in ReadyList(s)
    ensures var l := ReadyList(s); var i := IndexOf(l, t);
            InOrder(ChPrioCall(s, t, prio)) <==>
              (i > 0 ==> s.thr[l[i-1]].prio >= prio) && (i + 1 < |l| ==> prio >= s.thr[l[i+1]].prio)
  {
    hide Inv, Synced;
    ReadyPlace(s, t);
    var r, l := ChPrioCall(s, t, prio), ReadyList(s);
    var i := IndexOf(l, t);
    assert ReadyList(r) == l && r.thr[l[i]].prio == prio;
    if InOrder(r) {
      assert i > 0 ==> r.thr[l[i-1]].prio >= r.thr[l[i]].prio;
      assert i + 1 < |l| ==> r.thr[l[i]].prio >= r.thr[l[i+1]].prio;
    }
  }

  lemma {:induction false} QuietResched(m: State)
    requires Shape(m) && m.thr[m.cur].state == Curr && ReadyList(m) != []
    requires m.key[ReadyList(m)[0]] < m.thr[m.cur].prio
    ensures Resched(m) == m.(rescheds := m.rescheds + 1)
  {
  }

  /** While the running thread outranks the first queue key, raising a ready
      thread above it goes unnoticed by resched. */
  lemma {:induction false} ChPrioQuiet(s: State, t: int, prio: int)
    requires Inv(s) && Synced(s) && !BadTid(s, t) && s.thr[t].state == Ready
    requires t in ReadyList(s) && s.key[ReadyList(s)[0]] < s.thr[s.cur].prio
    ensures var r := Resched(ChPrioCall(s, t, prio));
            Shape(r) && r.cur == s.cur && (Top(r) <==> prio <= s.thr[s.cur].prio)
  {
    hide Resched, Sorted;
    ReadyPlace(s, t);
    var m, l := ChPrioCall(s, t, prio), ReadyList(s);
    QuietResched(m);
    var r := m.(rescheds := m.rescheds + 1);
    assert ReadyList(r) == l;
    assert r.thr[ReadyList(r)[IndexOf(l, t)]].prio == prio;
    assert forall i :: 0 < i < |l| ==> s.thr[l[0]].prio >= s.thr[l[i]].prio;
  }

  /** Otherwise resched runs the first thread of the queue, and the caller is
      queued behind it. */
  lemma {:induction false} SwitchingResched(m: State)
    requires Shape(m) && m.thr[m.cur].state == Curr && ReadyList(m) != [] && m.cur !in ReadyList(m)
    requires m.key[ReadyList(m)[0]] >= m.thr[m.cur].prio && Descending(ReadyList(m), m.key)
    ensures var r, l := Resched(m), ReadyList(m);
            && Shape(r) && r.cur == l[0] && (forall u :: u in ReadyList(r) <==> u in l[1..] || u == m.cur)
            && (forall u :: 0 <= u < |m.thr| ==> r.thr[u].prio == m.thr[u].prio)
  {
    var l, p := ReadyList(m), m.thr[m.cur].prio;
    var i := InsertPos(l, m.key, p);
    var k := InsertAt(l, i, m.cur);
    assert k[0] == l[0] && k[1..] == InsertAt(l[1..], i - 1, m.cur);
    assert ReadyList(Resched(m)) == k[1..];
  }

  lemma {:induction false} ChPrioSwitch(s: State, t: int, prio: int)
    requires Inv(s) && Synced(s) && !BadTid(s, t) && s.thr[t].state == Ready
    requires t in ReadyList(s) && s.key[ReadyList(s)[0]] >= s.thr[s.cur].prio
    ensures var r, l := Resched(ChPrioCall(s, t, prio)), ReadyList(s);
            && Shape(r) && r.cur == l[0]
            && (Top(r) <==> if l[0] != t then prio <= s.thr[l[0]].prio
                            else prio >= s.thr[s.cur].prio && (|l| > 1 ==> prio >= s.thr[l[1]].prio))
  {
    hide Resched, Inv, Synced;
    ReadyPlace(s, t);
    var m, l := ChPrioCall(s, t, prio), ReadyList(s);
    SwitchingResched(m);
    var r := Resched(m);
    assert forall i :: 0 < i < |l| ==> l[1..][i-1] == l[i] && l[i] in l[1..];
    TopMembers(r);
    if Top(r) {
      assert s.cur in ReadyList(r);
      assert |l| > 1 ==> l[1] in ReadyList(r);
      assert l[0] != t ==> t in ReadyList(r);
    }
  }

  lemma {:induction false} TopMembers(s: State)
    requires Shape(s)
    ensures Top(s) <==> forall u :: u in ReadyList(s) ==> s.thr[u].prio <= s.thr[s.cur].prio
  {
    if Top(s) {
      forall u | u in ReadyList(s) ensures s.thr[u].prio <= s.thr[s.cur].prio {
        assert ReadyList(s)[IndexOf(ReadyList(s), u)] == u;
      }
    }
  }

  /** When the new priority of a ready thread is respected by the next resched: it
      must not pass the thread that keeps or gets the processor; and the first
      thread of the queue gets it, whatever has become of its priority. */
  lemma {:induction false} ChPrioExactly(s: State, t: int, prio: int)
    requires Inv(s) && Synced(s) && !BadTid(s, t) && s.thr[t].state == Ready
    ensures t in ReadyList(s)
    ensures var r, l := Resched(ChPrioCall(s, t, prio)), ReadyList(s);
            && Shape(r)
            && (Top(r) <==>
                  if s.thr[l[0]].prio < s.thr[s.cur].prio then prio <= s.thr[s.cur].prio
                  else if l[0] != t then prio <= s.thr[l[0]].prio
                  else prio >= s.thr[s.cur].prio && (|l| > 1 ==> prio >= s.thr[l[1]].prio))
  {
    hide Resched, Inv, Top;
    ReadyPlace(s, t);
    if s.key[ReadyList(s)[0]] < s.thr[s.cur].prio {
      ChPrioQuiet(s, t, prio);
    } else {
      ChPrioSwitch(s, t, prio);
    }
  }

  /** A change for a thread that is not ready is always respected. */
  lemma {:induction false} ChPrioElsewhere(s: State, t: int, prio: int)
    requires Inv(s) && Synced(s) && (BadTid(s, t) || s.thr[t].state != Ready) && prio > MINKEY
    ensures Shape(Resched(ChPrioCall(s, t, prio))) && Top(Resched(ChPrioCall(s, t, prio)))
  {
    hide Resched;
    ChPrioKeeps(s, t, prio);
    var m := ChPrioCall(s, t, prio);
    assert t !in ReadyList(s);
    forall i | 0 <= i < |ReadyList(m)| ensures m.key[ReadyList(m)[i]] == m.thr[ReadyList(m)[i]].prio {
      assert ReadyList(s)[i] in ReadyList(s) && s.key[ReadyList(s)[i]] == s.thr[ReadyList(s)[i]].prio;
    }
    ReschedTop(m);
  }
}
