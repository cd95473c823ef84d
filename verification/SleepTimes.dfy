/**
 When sleepers wake. A sleeper's remaining time is the sum of the keys up to it;
 only the clock interrupt changes it, and by exactly one tick unless the first
 key is zero, which only a recvtime with a zero timeout can cause.
 */
module SleepTimes {
  import opened ThreadLists
  import opened DeltaQueue
  import opened KernelState
  import opened KernelInv
  import opened KernelSteps
  import opened KernelRuns
  import opened SleepChanges

  /** t is still queued, in the state it was in. */
  predicate SleepsOn(s: State, r: State, t: int) {
    Queued(s, t) && Queued(r, t) && 0 <= t < |s.thr| && t < |r.thr| && r.thr[t].state == s.thr[t].state
  }

  predicate Awake(s: State, t: int) {
    0 <= t < |s.thr| && (s.thr[t].state == Ready || s.thr[t].state == Curr)
  }

  // ---------------------------------------------------------- clock interrupt

  lemma {:induction false} DuePop(l: seq<int>, key: seq<int>, i: nat)
    requires Within(l, |key|) && l != [] && i < |l|
    ensures Due(l[1..], key, i) == Due(l, key, i + 1) - key[l[0]]
  {
    if i > 0 { DuePop(l, key, i - 1); }
  }

  /** The head of the sleep queue wakes; everybody else is due that much less
      later, measured from the new head. */
  lemma {:induction false} WakeOneLeft(s: State, t: int)
    requires Base(s, -1) && Queued(s, t)
    ensures var r, h := WakeOne(s), s.lists[SQ(s)][0];
            if t == h then Awake(r, t) && Left(s, t) == s.key[h]
            else SleepsOn(s, r, t) && Left(r, t) == Left(s, t) - s.key[h]
  {
    var l, r := s.lists[SQ(s)], WakeOne(s);
    var h := l[0];
    WakeOneKeeps(s);
    if t == h {
      assert Due(l, s.key, 1) == s.key[h];
    } else {
      var i := IndexOf(l, t);
      assert l[1..][i-1] == t;
      DuePop(l, s.key, i);
      TailMembers(l);
      IndexUnique(l[1..], i - 1);
      DueFrame(l[1..], s.key, r.key, i);
    }
  }

  lemma {:induction false} AwakeThroughWake(s: State, t: int)
    requires Shape(s) && Awake(s, t) && s.lists[SQ(s)] != []
    ensures Awake(WakeOne(s), t)
  {
    hide InsertAt, InsertPos;
  }

  lemma {:induction false} AwakeThroughResched(s: State, t: int)
    requires Shape(s) && Awake(s, t)
    ensures Awake(Resched(s), t)
  {
    hide InsertAt, InsertPos;
  }

  lemma {:induction false} WakeupAwake(s: State, t: int)
    requires Base(s, -1) && Awake(s, t)
    ensures Awake(Wakeup(s), t)
    decreases |s.lists[SQ(s)]|
  {
    var l := s.lists[SQ(s)];
    if l != [] && s.key[l[0]] <= 0 {
      AwakeThroughWake(s, t);
      WakeOneKeeps(s);
      WakeupAwake(WakeOne(s), t);
    }
  }

  /** wakeup readies exactly the sleepers that are due. */
  lemma {:induction false} WakeupLeft(s: State, t: int)
    requires Base(s, -1) && Queued(s, t)
    ensures if Left(s, t) > 0 then SleepsOn(s, Wakeup(s), t) && Left(Wakeup(s), t) == Left(s, t) else Awake(Wakeup(s), t)
    decreases |s.lists[SQ(s)]|
  {
    hide PlacedIn, Running, InsertAt, InsertPos;
    var l := s.lists[SQ(s)];
    if s.key[l[0]] <= 0 {
      WakeOneLeft(s, t);
      WakeOneKeeps(s);
      if t == l[0] {
        WakeupAwake(WakeOne(s), t);
      } else {
        WakeupLeft(WakeOne(s), t);
      }
    } else {
      LeftAtLeastFront(s, t);
    }
  }

  lemma {:induction false} DueAtLeastFront(l: seq<int>, key: seq<int>, i: nat)
    requires Within(l, |key|) && NonNegative(l, key) && 0 < i <= |l|
    ensures Due(l, key, i) >= key[l[0]]
  {
    if i > 1 { DueAtLeastFront(l, key, i - 1); }
  }

  lemma {:induction false} LeftAtLeastFront(s: State, t: int)
    requires Base(s, -1) && Queued(s, t)
    ensures Left(s, t) >= s.key[s.lists[SQ(s)][0]]
  {
    DueAtLeastFront(s.lists[SQ(s)], s.key, IndexOf(s.lists[SQ(s)], t) + 1);
  }

  lemma {:induction false} DueMinusOne(l: seq<int>, key: seq<int>, i: nat)
    requires Within(l, |key|) && NoDup(l) && 0 < i <= |l|
    ensures Due(l, key[l[0] := key[l[0]] - 1], i) == Due(l, key, i) - 1
  {
    if i > 1 { DueMinusOne(l, key, i - 1); }
  }

  lemma {:induction false} TickLeft(s: State, t: int)
    requires Base(s, -1) && Queued(s, t)
    ensures var f := s.key[s.lists[SQ(s)][0]];
            var n := Left(s, t) - (if f > 0 then 1 else 0);
            if n > 0 then SleepsOn(s, Tick(s), t) && Left(Tick(s), t) == n else Awake(Tick(s), t)
  {
    var l := s.lists[SQ(s)];
    TickForms(s);
    LeftAtLeastFront(s, t);
    if s.key[l[0]] <= 1 {
      WakeOneLeft(s, t);
      WakeOneKeeps(s);
      if t == l[0] {
        WakeupAwake(WakeOne(s), t);
      } else {
        WakeupLeft(WakeOne(s), t);
      }
    } else {
      DueMinusOne(l, s.key, IndexOf(l, t) + 1);
    }
  }

  lemma {:induction false} WakeupFront(s: State)
    requires Base(s, -1)
    ensures FrontOk(Wakeup(s))
    decreases |s.lists[SQ(s)]|
  {
    var l := s.lists[SQ(s)];
    if l != [] && s.key[l[0]] <= 0 {
      WakeOneKeeps(s);
      WakeupFront(WakeOne(s));
    }
  }

  /** One clock interrupt: a sleeper comes one tick closer exactly when the
      first key is positive, and wakes exactly when nothing is left. */
  lemma {:induction false} ClockLeft(s: State, t: int)
    requires Inv(s) && Queued(s, t)
    ensures Shape(ClockCall(s))
    ensures var f := s.key[s.lists[SQ(s)][0]];
            var n := Left(s, t) - (if f > 0 then 1 else 0);
            if n > 0 then SleepsOn(s, ClockCall(s), t) && Left(ClockCall(s), t) == n else Awake(ClockCall(s), t)
  {
    TickLeft(s, t);
    TickKeeps(s);
    ReschedKeeps(Tick(s));
    SleepFrame(Tick(s), ClockCall(s), t);
    if Awake(Tick(s), t) {
      AwakeThroughResched(Tick(s), t);
    }
  }

  lemma {:induction false} TickFront(s: State)
    requires Base(s, -1)
    ensures FrontOk(Tick(s))
  {
    var l := s.lists[SQ(s)];
    if l != [] {
      TickForms(s);
      if s.key[l[0]] <= 1 {
        WakeOneKeeps(s);
        WakeupFront(WakeOne(s));
      }
    }
  }

  lemma {:induction false} ClockFront(s: State)
    requires Inv(s)
    ensures Shape(ClockCall(s)) && FrontOk(ClockCall(s))
  {
    hide Tick, Resched, PlacedIn, Sorted;
    TickFront(s);
    TickKeeps(s);
    ReschedKeeps(Tick(s));
    SleepFrame(Tick(s), ClockCall(s), 0);
  }

  // --------------------------------------------------------------------- runs

  function Clocks(es: seq<Event>): (n: nat) {
    if es == [] then 0 else Clocks(es[..|es|-1]) + if es[|es|-1].EvClock? then 1 else 0
  }

  lemma {:induction false} ClocksSnoc(es: seq<Event>, i: nat, j: nat)
    requires i <= j < |es|
    ensures Clocks(es[i..j+1]) == Clocks(es[i..j]) + ClockTicks(es[j])
  {
    assert es[i..j+1][..j-i] == es[i..j];
  }

  lemma {:induction false} NoClocks(es: seq<Event>, i: nat)
    requires i <= |es|
    ensures Clocks(es[i..i]) == 0
  {
  }

  function ClockTicks(e: Event): (n: nat) {
    if e.EvClock? then 1 else 0
  }

  lemma {:induction false} ClockStepLeft(s: State, t: int)
    requires Inv(s) && Asleep(s, t)
    ensures Left(s, t) > 1 ==> Asleep(ClockCall(s), t) && Left(ClockCall(s), t) >= Left(s, t) - 1
    ensures Left(s, t) > 1 && FrontOk(s) ==> Left(ClockCall(s), t) == Left(s, t) - 1
    ensures Left(s, t) == 1 && FrontOk(s) ==> Awake(ClockCall(s), t)
  {
    hide ClockCall, Left;
    ClockLeft(s, t);
  }

  lemma {:induction false} StepLeft(s: State, e: Event, t: int)
    requires Inv(s) && Enabled(s, e) && Asleep(s, t)
    ensures Left(s, t) > ClockTicks(e) ==> Asleep(Next(s, e), t) && Left(Next(s, e), t) >= Left(s, t) - ClockTicks(e)
    ensures Left(s, t) > ClockTicks(e) && FrontOk(s) ==> Left(Next(s, e), t) == Left(s, t) - ClockTicks(e)
    ensures Left(s, t) == ClockTicks(e) && FrontOk(s) && e.EvClock? ==> Awake(Next(s, e), t)
  {
    hide Asleep, Left, FrontOk, ClockCall, SleepCall, RecvTimeCall, SendCall, KillCall, Inv;
    if e.EvClock? {
      ClockStepLeft(s, t);
    } else {
      CallAsleep(s, e, t);
    }
  }

  lemma {:induction false} StepFront(s: State, e: Event)
    requires Inv(s) && Enabled(s, e) && FrontOk(s) && e != EvRecvTime(0)
    ensures Shape(Next(s, e)) && FrontOk(Next(s, e))
  {
    hide FrontOk, ClockCall, SleepCall, RecvTimeCall, SendCall, KillCall, PlacedIn, Sorted, Running, CountOk, Blocks;
    if e.EvClock? {
      ClockFront(s);
    } else {
      CallAsleep(s, e, 0);
    }
  }

  /** A sleeper with n ticks left sleeps through any run with fewer than n
      clock interrupts: it is never readied early. */
  lemma {:induction false} NeverEarly(ss: seq<State>, es: seq<Event>, i: nat, j: nat, t: int)
    requires IsRun(ss, es) && Inv(ss[0]) && i <= j < |ss| && Asleep(ss[i], t)
    requires Clocks(es[i..j]) < Left(ss[i], t)
    ensures Asleep(ss[j], t) && Left(ss[j], t) >= Left(ss[i], t) - Clocks(es[i..j])
    decreases j
  {
    hide Next, Asleep, Left, Clocks, FrontOk, PlacedIn, Sorted, Running, CountOk;
    if i == j {
      NoClocks(es, i);
    } else {
      ClocksSnoc(es, i, j - 1);
      NeverEarly(ss, es, i, j - 1, t);
      RunInv(ss, es, j - 1);
      StepLeft(ss[j-1], es[j-1], t);
    }
  }

  /** recvtime(0) without a message in hand puts a key of zero in front. */
  lemma {:induction false} ZeroTimeout(s: State)
    requires Inv(s) && (Blocks(s, EvRecvTime(0)) ==> s.cur != NULLTHREAD)
    ensures Shape(RecvTimeCall(s, 0))
    ensures FrontOk(RecvTimeCall(s, 0)) <==> s.thr[s.cur].hasmsg && FrontOk(s)
  {
    hide RecvTimeCall, FrontOk, PlacedIn, Sorted, Running, CountOk, SameSleep, SameSems, InsertD, Blocks;
    RecvTimeKeeps(s, 0);
    RecvTimeChange(s, 0);
    SleepFrame(After(s, ChangeOf(s, EvRecvTime(0))), RecvTimeCall(s, 0), 0);
    CurNotQueued(s);
    ZeroFront(s);
  }

  lemma {:induction false} ZeroFront(s: State)
    requires Shape(s) && s.cur !in s.lists[SQ(s)] && NonNegative(s.lists[SQ(s)], s.key)
    ensures !FrontOk(SetState(InsertD(s, s.cur, SQ(s), 0), s.cur, Tmout))
  {
    hide DeltaInsert, DeltaKeys;
    ZeroInFront(s.lists[SQ(s)], s.key, s.cur);
  }

  lemma {:induction false} ZeroInFront(l: seq<int>, key: seq<int>, t: int)
    requires Within(l, |key|) && NonNegative(l, key) && 0 <= t < |key| && t !in l
    ensures Within(DeltaInsert(l, key, t, 0), |key|) && DeltaInsert(l, key, t, 0) != []
    ensures DeltaKeys(l, key, t, 0)[DeltaInsert(l, key, t, 0)[0]] == 0
  {
    var i := DeltaPos(l, key, 0);
    if i > 0 {
      assert Due(l, key, 1) <= 0;
      assert key[l[0]] >= 0;
    }
  }

  /** The front key stays positive through every step but this one. */
  lemma {:induction false} FrontExactly(s: State, e: Event)
    requires Inv(s) && Enabled(s, e) && FrontOk(s)
    ensures Shape(Next(s, e))
    ensures FrontOk(Next(s, e)) <==> !(e == EvRecvTime(0) && !s.thr[s.cur].hasmsg)
  {
    hide FrontOk;
    if e == EvRecvTime(0) {
      ZeroTimeout(s);
    } else {
      StepFront(s, e);
    }
  }

  lemma {:induction false} NotInShorter(es: seq<Event>, i: nat, j: nat, e: Event)
    requires i < j <= |es| && e !in es[i..j]
    ensures e !in es[i..j-1] && es[j-1] != e
  {
    assert es[i..j] == es[i..j-1] + [es[j-1]];
  }

  lemma {:induction false} FrontStaysPositive(ss: seq<State>, es: seq<Event>, i: nat, j: nat)
    requires IsRun(ss, es) && Inv(ss[0]) && i <= j < |ss| && Shape(ss[i]) && FrontOk(ss[i])
    requires EvRecvTime(0) !in es[i..j]
    ensures Shape(ss[j]) && FrontOk(ss[j])
    decreases j
  {
    hide Next, FrontOk, Inv;
    if i < j {
      NotInShorter(es, i, j, EvRecvTime(0));
      FrontStaysPositive(ss, es, i, j - 1);
      RunInv(ss, es, j - 1);
      StepFront(ss[j-1], es[j-1]);
    }
  }

  /** A clock tick that every sleeper sees: the front key was positive. */
  predicate SeenTick(s: State, e: Event) {
    e.EvClock? && Shape(s) && FrontOk(s)
  }

  function Seen(ss: seq<State>, es: seq<Event>, i: nat, j: nat): (n: nat)
    requires i <= j <= |es| <= |ss|
    decreases j
  {
    if i == j then 0 else Seen(ss, es, i, j - 1) + if SeenTick(ss[j-1], es[j-1]) then 1 else 0
  }

  lemma {:induction false} StepSeen(s: State, e: Event, t: int)
    requires Inv(s) && Enabled(s, e) && Asleep(s, t)
    ensures var n := Left(s, t) - (if SeenTick(s, e) then 1 else 0);
            if n > 0 || !e.EvClock? then Asleep(Next(s, e), t) && Left(Next(s, e), t) == n else Awake(Next(s, e), t)
  {
    hide Left, Awake, ClockCall, SleepCall, RecvTimeCall, SendCall, KillCall, PlacedIn, Sorted, Running, CountOk;
    if e.EvClock? {
      ClockLeft(s, t);
    } else {
      CallAsleep(s, e, t);
    }
  }

  /** In every run the ticks left to a sleeper go down by those that were seen. */
  lemma {:induction false} LeftExactly(ss: seq<State>, es: seq<Event>, i: nat, j: nat, t: int)
    requires IsRun(ss, es) && Inv(ss[0]) && i <= j < |ss| && Asleep(ss[i], t)
    requires Seen(ss, es, i, j) < Left(ss[i], t)
    ensures Asleep(ss[j], t) && Left(ss[j], t) == Left(ss[i], t) - Seen(ss, es, i, j)
    decreases j
  {
    hide Next, Asleep, Left, SeenTick;
    if i < j {
      LeftExactly(ss, es, i, j - 1, t);
      RunInv(ss, es, j - 1);
      StepSeen(ss[j-1], es[j-1], t);
    }
  }

  lemma {:induction false} SleepsOrAwake(s: State, t: int)
    ensures !(Asleep(s, t) && Awake(s, t))
  {
  }

  /** A sleeper is readied by the tick that makes the ticks seen as many as it had
      left, and by no other. */
  lemma {:induction false} WakesExactly(ss: seq<State>, es: seq<Event>, i: nat, j: nat, t: int)
    requires IsRun(ss, es) && Inv(ss[0]) && i <= j < |es| && Asleep(ss[i], t) && es[j].EvClock?
    requires Seen(ss, es, i, j) < Left(ss[i], t)
    ensures Awake(ss[j+1], t) <==> Seen(ss, es, i, j + 1) == Left(ss[i], t)
    ensures Asleep(ss[j+1], t) <==> Seen(ss, es, i, j + 1) < Left(ss[i], t)
  {
    hide Next, Asleep, Left, Awake, SeenTick;
    LeftExactly(ss, es, i, j, t);
    RunInv(ss, es, j);
    StepSeen(ss[j], es[j], t);
    SleepsOrAwake(ss[j+1], t);
  }

  /** Every tick from i on and before j was seen. */
  predicate AllSeen(ss: seq<State>, es: seq<Event>, i: nat, j: nat)
    requires j <= |es| <= |ss|
  {
    forall k :: i <= k < j && es[k].EvClock? ==> SeenTick(ss[k], es[k])
  }

  lemma {:induction false} SeenIsClocks(ss: seq<State>, es: seq<Event>, i: nat, j: nat)
    requires i <= j <= |es| <= |ss|
    ensures Seen(ss, es, i, j) <= Clocks(es[i..j])
    ensures Seen(ss, es, i, j) == Clocks(es[i..j]) <==> AllSeen(ss, es, i, j)
    decreases j
  {
    hide SeenTick;
    if i < j {
      ClocksSnoc(es, i, j - 1);
      SeenIsClocks(ss, es, i, j - 1);
      TicksAreClocks(ss[j-1], es[j-1]);
    }
  }

  lemma {:induction false} TicksAreClocks(s: State, e: Event)
    ensures SeenTick(s, e) ==> e.EvClock?
  {
  }

  /** A sleeper with n ticks left is readied on the n-th tick exactly when all n
      were seen. */
  lemma {:induction false} WakesOnTime(ss: seq<State>, es: seq<Event>, i: nat, j: nat, t: int)
    requires IsRun(ss, es) && Inv(ss[0]) && i <= j < |es| && Asleep(ss[i], t) && es[j].EvClock?
    requires Clocks(es[i..j]) == Left(ss[i], t) - 1
    ensures Awake(ss[j+1], t) <==> AllSeen(ss, es, i, j + 1)
  {
    hide Next, Asleep, Left, Awake, AllSeen, Seen;
    SeenIsClocks(ss, es, i, j);
    SeenIsClocks(ss, es, i, j + 1);
    ClocksSnoc(es, i, j);
    WakesExactly(ss, es, i, j, t);
  }

  lemma {:induction false} FellAsleep(ss: seq<State>, es: seq<Event>, i: nat)
    requires IsRun(ss, es) && Inv(ss[0]) && i < |es| && es[i].EvSleep? && Ticks(es[i].ms) > 0
    ensures Asleep(ss[i+1], ss[i].cur) && Left(ss[i+1], ss[i].cur) == Ticks(es[i].ms)
  {
    hide Next, Asleep, Queued, Left;
    RunInv(ss, es, i);
    CallWait(ss[i], es[i], ss[i].cur);
    CallAsleep(ss[i], es[i], ss[i].cur);
  }

  // ------------------------------------------------- which calls hide a tick

  lemma {:induction false} FirstLeft(s: State)
    requires Inv(s) && s.lists[SQ(s)] != []
    ensures var h := s.lists[SQ(s)][0]; Queued(s, h) && Left(s, h) == s.key[h]
  {
    var l := s.lists[SQ(s)];
    IndexUnique(l, 0);
    assert Due(l, s.key, 1) == s.key[l[0]];
  }

  /** The front key is not positive exactly when some queued thread has no time left. */
  lemma {:induction false} FrontByLeft(s: State)
    requires Inv(s)
    ensures FrontOk(s) <==> forall t :: Queued(s, t) ==> Left(s, t) > 0
  {
    hide PlacedIn, Running, CountOk, Left;
    if s.lists[SQ(s)] != [] {
      FirstLeft(s);
    }
    forall t | Queued(s, t) ensures FrontOk(s) ==> Left(s, t) > 0 {
      LeftAtLeastFront(s, t);
    }
  }

  /** At m a thread called recvtime(0) with no message in hand, and it has been on
      the sleep queue ever since, without a tick. */
  ghost predicate ZeroSince(ss: seq<State>, es: seq<Event>, m: nat, k: nat)
    requires k < |ss| && |ss| == |es| + 1
  {
    && m < k && es[m] == EvRecvTime(0) && Shape(ss[m]) && !ss[m].thr[ss[m].cur].hasmsg
    && (forall p :: m <= p < k ==> !es[p].EvClock?)
    && forall p :: m < p <= k ==> Queued(ss[p], ss[m].cur)
  }

  lemma {:induction false} ZeroStep(s: State, e: Event, t: int)
    requires Inv(s) && Enabled(s, e) && !e.EvClock? && Queued(Next(s, e), t)
    ensures if Queued(s, t) then Left(Next(s, e), t) == Left(s, t)
            else Left(Next(s, e), t) == 0 <==> e == EvRecvTime(0)
    ensures !Queued(s, t) ==> t == s.cur && (e.EvSleep? || (e.EvRecvTime? && !s.thr[s.cur].hasmsg))
    ensures e == EvRecvTime(0) && !s.thr[s.cur].hasmsg ==> !Queued(s, s.cur)
  {
    hide Next, Queued, Left;
    CallWait(s, e, t);
  }

  lemma {:induction false} ClockPositive(s: State, t: int)
    requires Inv(s)
    ensures Queued(ClockCall(s), t) ==> Left(ClockCall(s), t) > 0
  {
    hide Queued, Left, FrontOk, Tick, PlacedIn, Sorted, Running, CountOk;
    ClockFront(s);
    ClockKeeps(s);
    FrontByLeft(ClockCall(s));
  }

  lemma {:induction false} ZeroStays(ss: seq<State>, es: seq<Event>, m: nat, k: nat)
    requires IsRun(ss, es) && Inv(ss[0]) && k < |ss| && ZeroSince(ss, es, m, k)
    ensures Left(ss[k], ss[m].cur) == 0
    decreases k
  {
    hide Next, Queued, Left;
    RunInv(ss, es, k - 1);
    assert ss[k] == Next(ss[k-1], es[k-1]);
    ZeroStep(ss[k-1], es[k-1], ss[m].cur);
    if m + 1 < k {
      ZeroStays(ss, es, m, k - 1);
    }
  }

  lemma {:induction false} ZeroCame(ss: seq<State>, es: seq<Event>, k: nat, t: int) returns (m: nat)
    requires FromBoot(ss, es) && k < |ss| && Queued(ss[k], t) && Left(ss[k], t) == 0
    ensures m < k && ss[m].cur == t && ZeroSince(ss, es, m, k)
    decreases k
  {
    hide Next, Left, InitState;
    InitInv(|ss[0].thr|, |ss[0].sem|);
    BootNobodyQueued(|ss[0].thr|, |ss[0].sem|, t);
    RunInv(ss, es, k - 1);
    ClockStepPositive(ss[k-1], es[k-1], t);
    ZeroStep(ss[k-1], es[k-1], t);
    m := k - 1;
    if Queued(ss[k-1], t) {
      m := ZeroCame(ss, es, k - 1, t);
    }
  }

  lemma {:induction false} ClockStepPositive(s: State, e: Event, t: int)
    requires Inv(s) && Enabled(s, e) && Queued(Next(s, e), t) && Left(Next(s, e), t) == 0
    ensures !e.EvClock?
  {
    if e.EvClock? {
      ClockPositive(s, t);
    }
  }

  lemma {:induction false} BootNobodyQueued(nthread: nat, nsem: nat, t: int)
    requires nthread > 0
    ensures !Queued(InitState(nthread, nsem), t)
  {
  }

  /** In every run from boot the front key is zero exactly while a thread that
      called recvtime(0) without a message is still queued and no tick has come. */
  lemma {:induction false} FrontInRun(ss: seq<State>, es: seq<Event>, k: nat)
    requires FromBoot(ss, es) && k < |ss|
    ensures Shape(ss[k]) && (FrontOk(ss[k]) <==> forall m :: 0 <= m < k ==> !ZeroSince(ss, es, m, k))
  {
    hide Next, FrontOk, Left, ZeroSince, InitState, PlacedIn, Sorted, Running, CountOk;
    InitInv(|ss[0].thr|, |ss[0].sem|);
    RunInv(ss, es, k);
    FrontByLeft(ss[k]);
    if !FrontOk(ss[k]) {
      var t :| Queued(ss[k], t) && Left(ss[k], t) <= 0;
      LeftNonNegative(ss[k], t);
      var m := ZeroCame(ss, es, k, t);
    } else {
      forall m | 0 <= m < k ensures !ZeroSince(ss, es, m, k) {
        if ZeroSince(ss, es, m, k) {
          ZeroIsQueued(ss, es, m, k);
          ZeroStays(ss, es, m, k);
        }
      }
    }
  }

  lemma {:induction false} ZeroIsQueued(ss: seq<State>, es: seq<Event>, m: nat, k: nat)
    requires k < |ss| && |ss| == |es| + 1 && ZeroSince(ss, es, m, k)
    ensures Queued(ss[k], ss[m].cur)
  {
  }

  lemma {:induction false} LeftNonNegative(s: State, t: int)
    requires Inv(s) && Queued(s, t)
    ensures Left(s, t) >= 0
  {
    hide Left, PlacedIn, Running, CountOk;
    LeftAtLeastFront(s, t);
    assert NonNegative(s.lists[SQ(s)], s.key);
  }

  /** No tick from i on and before j came while a recvtime(0) was queued. */
  ghost predicate NoTickHidden(ss: seq<State>, es: seq<Event>, i: nat, j: nat)
    requires j <= |es| && |ss| == |es| + 1
  {
    forall k, m :: i <= k < j && es[k].EvClock? && 0 <= m < k ==> !ZeroSince(ss, es, m, k)
  }

  lemma {:induction false} SeenByEvents(ss: seq<State>, es: seq<Event>, i: nat, j: nat)
    requires FromBoot(ss, es) && i <= j <= |es|
    ensures AllSeen(ss, es, i, j) <==> NoTickHidden(ss, es, i, j)
  {
    hide FrontOk, ZeroSince, Next, InitState;
    forall k | i <= k < j
      ensures Shape(ss[k]) && (FrontOk(ss[k]) <==> forall m :: 0 <= m < k ==> !ZeroSince(ss, es, m, k))
    {
      FrontInRun(ss, es, k);
    }
  }

  /** A thread that calls sleep for n > 0 ticks is still asleep before the n-th
      later clock tick, and is readied on that tick if and only if no thread that
      called recvtime(0) without a message was still queued at any of the n. */
  lemma {:induction false} SleepsExactly(ss: seq<State>, es: seq<Event>, i: nat, j: nat)
    requires FromBoot(ss, es) && i < j < |es|
    requires es[i].EvSleep? && Ticks(es[i].ms) > 0 && es[j].EvClock?
    ensures Clocks(es[i+1..j]) < Ticks(es[i].ms) ==> Asleep(ss[j], ss[i].cur)
    ensures Clocks(es[i+1..j]) == Ticks(es[i].ms) - 1 ==>
              (Awake(ss[j+1], ss[i].cur) <==> NoTickHidden(ss, es, i + 1, j + 1))
  {
    hide Next, Asleep, Left, Awake, NoTickHidden, AllSeen, Clocks;
    InitInv(|ss[0].thr|, |ss[0].sem|);
    FellAsleep(ss, es, i);
    if Clocks(es[i+1..j]) < Ticks(es[i].ms) {
      NeverEarly(ss, es, i + 1, j, ss[i].cur);
    }
    if Clocks(es[i+1..j]) == Ticks(es[i].ms) - 1 {
      WakesOnTime(ss, es, i + 1, j, ss[i].cur);
      SeenByEvents(ss, es, i + 1, j + 1);
    }
  }

  /** In a run from boot without a recvtime(0), a sleep of n ticks is n ticks. */
  lemma {:induction false} SleepsOnTime(ss: seq<State>, es: seq<Event>, i: nat, j: nat)
    requires FromBoot(ss, es) && i < j < |es|
    requires es[i].EvSleep? && Ticks(es[i].ms) > 0 && es[j].EvClock?
    requires Clocks(es[i+1..j]) == Ticks(es[i].ms) - 1 && EvRecvTime(0) !in es[..j]
    ensures Awake(ss[j+1], ss[i].cur)
  {
    hide Next, Asleep, Left, Awake, Clocks, FromBoot;
    assert forall m :: 0 <= m < j ==> es[m] == es[..j][m];
    SleepsExactly(ss, es, i, j);
  }

  // ------------------------------------------------------- ticks and seconds

  /** How many whole ticks fit into the time asked for, in 32 bits. */
  lemma {:induction false} TicksExactly(ms: nat)
    ensures 1000 * Ticks(ms) <= (ms * CLKTICKS_PER_SEC) % WORD < 1000 * Ticks(ms) + 1000
  {
  }

  /** Whole seconds are whole ticks, as many as the clock counts to a second. */
  lemma {:induction false} TicksOfSeconds(k: nat)
    requires 1000 * k * CLKTICKS_PER_SEC < WORD
    ensures Ticks(1000 * k) == k * CLKTICKS_PER_SEC
  {
    var x := 1000 * k * CLKTICKS_PER_SEC;
    assert x % WORD == x && x == k * CLKTICKS_PER_SEC * 1000;
  }

  lemma {:induction false} ClocksSplit(es: seq<Event>, i: nat, j: nat)
    requires i <= j <= |es|
    ensures Clocks(es[..j]) == Clocks(es[..i]) + Clocks(es[i..j])
  {
    hide Clocks;
    if i == j {
      NoClocks(es, i);
    } else {
      ClocksSplit(es, i, j - 1);
      ClocksSnoc(es, i, j - 1);
      ClocksSnoc(es, 0, j - 1);
      assert es[0..j] == es[..j] && es[0..j-1] == es[..j-1];
    }
  }

  /** clktime and clkticks before event i of a run from boot. */
  function ClkTime(es: seq<Event>, i: nat): (n: nat)
    requires i <= |es|
  {
    Clocks(es[..i]) / CLKTICKS_PER_SEC
  }

  function ClkTicks(es: seq<Event>, i: nat): (n: nat)
    requires i <= |es|
  {
    Clocks(es[..i]) % CLKTICKS_PER_SEC
  }

  /** A thread that sleeps k seconds is asleep until the tick that makes clktime k
      greater with the same clkticks, and is readied on that tick unless a
      recvtime(0) hid one of the ticks. */
  lemma {:induction false} SleepsSeconds(ss: seq<State>, es: seq<Event>, i: nat, j: nat, k: nat)
    requires FromBoot(ss, es) && i < j < |es| && es[j].EvClock?
    requires es[i] == EvSleep(1000 * k) && 0 < k && 1000 * k * CLKTICKS_PER_SEC < WORD
    requires ClkTime(es, j + 1) == ClkTime(es, i + 1) + k && ClkTicks(es, j + 1) == ClkTicks(es, i + 1)
    ensures Asleep(ss[j], ss[i].cur)
    ensures Awake(ss[j+1], ss[i].cur) <==> NoTickHidden(ss, es, i + 1, j + 1)
  {
    hide Next, Asleep, Left, Awake, NoTickHidden, Clocks, FromBoot, Ticks;
    TicksOfSeconds(k);
    ClocksSplit(es, i + 1, j + 1);
    ClocksSnoc(es, i + 1, j);
    SleepsExactly(ss, es, i, j);
  }
}
