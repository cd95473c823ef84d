/**
 What every call does to every semaphore, and the count of a semaphore as a sum
 over the calls of a run: the initial value, and what was signalled, waited for
 and given back by kill since the semaphore was created.
 */
module SemaphoreRuns {
  import opened ThreadLists
  import opened KernelState
  import opened KernelInv
  import opened KernelSteps
  import opened KernelRuns
  import opened SemaphoreLedger
  import opened ThreadModes
  import opened Counters

  /** The call is a kill that goes on, and its victim waits on semaphore k. */
  predicate KillsWaiter(s: State, k: int)
    requires Shape(s)
  {
    var c := s.calls[s.cur];
    c.InKill? && s.thr[c.tid].state == Wait && s.thr[c.tid].sem == k
  }

  /** The call is a semcreate that takes entry k. */
  predicate TakesEntry(s: State, k: int) {
    0 <= k < |s.sem| && NextFree(s.sem, s.nextsem, |s.sem|) == k
  }

  function Without(l: seq<int>, t: int): (r: seq<int>) {
    if t in l then Remove(l, t) else l
  }

  function CounterAfter(s: State, e: Event, k: int): (c: Counter)
    requires Shape(s) && 0 <= k < |s.sem|
  {
    var c := Of(s, k);
    match e
    case EvWait(j) => if j == k && !BadSem(s, k) then P(c, s.cur) else c
    case EvSignal(j) => if j == k && !BadSem(s, k) then V(c) else c
    case EvSignalN(j, n) =>
      if j == k && !BadSem(s, k) && n > 0 then Counter(c.count + n, c.queue[Min(n, |c.queue|)..]) else c
    case EvSemCreate(v) => if TakesEntry(s, k) then Counter(if v >= 0 then v else 0, []) else c
    case EvSemFree(j) => if j == k && !BadSem(s, k) then Counter(0, []) else c
    case EvContinue => if KillsWaiter(s, k) then Counter(c.count + 1, Without(c.queue, s.calls[s.cur].tid)) else c
    case _ => c
  }

  predicate UsedAfter(s: State, e: Event, k: int)
    requires Shape(s) && 0 <= k < |s.sem|
  {
    match e
    case EvSemCreate(v) => s.sem[k].used || TakesEntry(s, k)
    case EvSemFree(j) => s.sem[k].used && j != k
    case _ => s.sem[k].used
  }

  /** What happened to a semaphore since it was created. */
  datatype Tally = Tally(init: int, signals: int, waits: int, cancels: int) {
    function Count(): int { init + signals - (waits - cancels) }
  }

  function Counted(g: Tally, s: State, e: Event, k: int): (h: Tally)
    requires Shape(s) && 0 <= k < |s.sem|
  {
    match e
    case EvWait(j) => if j == k && !BadSem(s, k) then g.(waits := g.waits + 1) else g
    case EvSignal(j) => if j == k && !BadSem(s, k) then g.(signals := g.signals + 1) else g
    case EvSignalN(j, n) => if j == k && !BadSem(s, k) && n > 0 then g.(signals := g.signals + n) else g
    case EvSemCreate(v) => if TakesEntry(s, k) then Tally(if v >= 0 then v else 0, 0, 0, 0) else g
    case EvContinue => if KillsWaiter(s, k) then g.(cancels := g.cancels + 1) else g
    case _ => g
  }

  /** The numbers in the log of a semaphore. */
  function Numbers(g: SemLog): (h: Tally) {
    Tally(g.init, g.signals, g.waits, g.cancelled)
  }

  /** r has semaphore k, and its log, as the call says. */
  predicate After(s: State, e: Event, k: int, r: State)
    requires Shape(s) && 0 <= k < |s.sem|
  {
    && Shape(r) && |r.sem| == |s.sem|
    && Of(r, k) == CounterAfter(s, e, k) && (r.sem[k].used <==> UsedAfter(s, e, k))
    && Numbers(r.slog[k]) == Counted(Numbers(s.slog[k]), s, e, k)
  }

  // --------------------------------------------------------------- call by call

  lemma {:induction false} SameSemsAfter(s: State, r: State, e: Event, k: int)
    requires Shape(s) && Shape(r) && SameSems(s, r) && 0 <= k < |s.sem|
    requires !SemEvent(e) && !e.EvContinue?
    ensures After(s, e, k, r)
  {
  }

  lemma {:induction false} WaitAfter(s: State, j: int, k: int)
    requires Inv(s) && (Blocks(s, EvWait(j)) ==> s.cur != NULLTHREAD) && 0 <= k < |s.sem|
    ensures After(s, EvWait(j), k, WaitCall(s, j))
  {
    hide Resched, PlacedIn, Sorted, Running, CountOk;
    WaitKeeps(s, j);
    if !BadSem(s, j) {
      WaitIsP(s, j);
      if s.sem[j].count <= 0 {
        CountDownKeeps(s, j);
        BlockKeeps(CountDown(s, j), j);
        ReschedKeeps(Block(CountDown(s, j), j));
      }
    }
  }

  lemma {:induction false} SignalManyOthers(s: State, j: int, n: nat, k: int)
    requires Base(s, -1) && Counts(s) && !BadSem(s, j) && 0 <= k < |s.sem| && k != j
    ensures var r := SignalMany(s, j, n); r.sem[k] == s.sem[k] && r.lists[k] == s.lists[k] && r.slog[k] == s.slog[k]
    decreases n
  {
    hide SignalMany, SignalOne, PlacedIn, Sorted, Running, CountOk;
    SignalManyForm(s, j, n);
    if n > 0 {
      SignalOneOthers(s, j, k);
      SignalOneKeeps(s, j);
      SignalManyOthers(SignalOne(s, j), j, n - 1, k);
    }
  }

  lemma {:induction false} SignalOneOthers(s: State, j: int, k: int)
    requires Base(s, -1) && Counts(s) && !BadSem(s, j) && 0 <= k < |s.sem| && k != j
    ensures var r := SignalOne(s, j); r.sem[k] == s.sem[k] && r.lists[k] == s.lists[k] && r.slog[k] == s.slog[k]
  {
    hide Release, PlacedIn, Sorted, Running;
    assert CountOk(s, j);
    if s.sem[j].count < 0 {
      CountUpKeeps(s, j);
      ReleaseKeeps(CountUp(s, j), j);
    }
  }

  lemma {:induction false} SignalNumbers(s: State, j: int)
    requires Base(s, -1) && Counts(s) && !BadSem(s, j)
    ensures var g := Numbers(s.slog[j]); Numbers(SignalOne(s, j).slog[j]) == g.(signals := g.signals + 1)
  {
    hide InsertAt, InsertPos, PlacedIn, Sorted, Running;
  }

  lemma {:induction false} SignalManyNumbers(s: State, j: int, n: nat)
    requires Base(s, -1) && Counts(s) && !BadSem(s, j)
    ensures SignalMany(s, j, n).sem[j].used
    ensures var g := Numbers(s.slog[j]); Numbers(SignalMany(s, j, n).slog[j]) == g.(signals := g.signals + n)
    decreases n
  {
    hide SignalMany, SignalOne, PlacedIn, Sorted, Running, CountOk;
    SignalManyForm(s, j, n);
    if n > 0 {
      SignalOneKeeps(s, j);
      SignalNumbers(s, j);
      SignalManyNumbers(SignalOne(s, j), j, n - 1);
    }
  }

  lemma {:induction false} SignalNAfter(s: State, j: int, n: int, k: int)
    requires Inv(s) && 0 <= k < |s.sem|
    ensures After(s, EvSignalN(j, n), k, SignalNCall(s, j, n))
  {
    hide SignalMany, Resched, PlacedIn, Sorted, Running, CountOk;
    if !BadSem(s, j) && n > 0 {
      SignalManyKeeps(s, j, n);
      SignalManyMode(s, j, n, 0);
      SignalManyNumbers(s, j, n);
      if k != j { SignalManyOthers(s, j, n, k); }
      ReschedKeeps(SignalMany(s, j, n));
    }
  }

  lemma {:induction false} SignalAfter(s: State, j: int, k: int)
    requires Inv(s) && 0 <= k < |s.sem|
    ensures After(s, EvSignal(j), k, SignalCall(s, j))
  {
    hide SignalOne, Resched, PlacedIn, Sorted, Running, CountOk;
    if !BadSem(s, j) {
      SignalIsV(s, j);
      SignalOneKeeps(s, j);
      SignalNumbers(s, j);
      if k != j { SignalOneOthers(s, j, k); }
      ReschedKeeps(SignalOne(s, j));
    }
  }

  lemma {:induction false} SemCreateAfter(s: State, v: int, k: int)
    requires Inv(s) && 0 <= k < |s.sem|
    ensures After(s, EvSemCreate(v), k, SemCreateCall(s, v))
  {
    hide PlacedIn, Sorted, Running, NextFree;
    NextFreeIsFree(s.sem, s.nextsem, |s.sem|);
    assert CountOk(s, k);
  }

  lemma {:induction false} SemFreeAfter(s: State, j: int, k: int)
    requires Inv(s) && 0 <= k < |s.sem|
    ensures After(s, EvSemFree(j), k, SemFreeCall(s, j))
  {
    hide Drain, PlacedIn, Sorted, Running, CountOk;
    if !BadSem(s, j) {
      DrainKeeps(s, j);
      DrainNumbers(s, j);
    }
  }

  lemma {:induction false} DrainNumbers(s: State, j: int)
    requires Base(s, -1) && 0 <= j < |s.sem|
    ensures Numbers(Drain(s, j).slog[j]) == Numbers(s.slog[j])
    decreases |s.lists[j]|
  {
    hide MakeReady, PlacedIn, Sorted, Running;
    if s.lists[j] != [] {
      ReleaseKeeps(s, j);
      ReleaseNumbers(s, j);
      DrainNumbers(Release(s, j), j);
    }
  }

  lemma {:induction false} ReleaseNumbers(s: State, j: int)
    requires Base(s, -1) && 0 <= j < |s.sem|
    ensures Numbers(Release(s, j).slog[j]) == Numbers(s.slog[j])
  {
    hide InsertAt, InsertPos, PlacedIn, Sorted, Running;
  }

  lemma {:induction false} CancelAfter(s: State, t: int, k: int)
    requires Inv(s) && 0 < t < |s.thr| && s.thr[t].state == Wait && 0 <= k < |s.sem|
    ensures var r := KillFinish(s, t);
            && Shape(r) && |r.sem| == |s.sem| && r.sem[k].used == s.sem[k].used
            && Of(r, k) == (if s.thr[t].sem == k then Counter(s.sem[k].count + 1, Without(s.lists[k], t)) else Of(s, k))
            && Numbers(r.slog[k]) ==
                 var g := Numbers(s.slog[k]); if s.thr[t].sem == k then g.(cancels := g.cancels + 1) else g
  {
    hide Remove, PlacedIn, Sorted, Running, CountOk;
    WaiterPlace(s, t);
  }

  lemma {:induction false} ContinueAfter(s: State, k: int)
    requires Inv(s) && !StrandsSleeper(s) && 0 <= k < |s.sem|
    ensures After(s, EvContinue, k, Continue(s))
  {
    hide KillFinish, PlacedIn, Sorted, Running, CountOk;
    ContinueKeeps(s);
    if s.calls[s.cur].InKill? {
      var t, s1 := s.calls[s.cur].tid, SetCall(s, s.cur, Idle);
      MessagesKeep(s, s1, -1);
      if s.thr[t].state == Wait {
        CancelAfter(s1, t, k);
      } else {
        KillFinishKeeps(s1, t);
      }
    }
  }

  /** signaln, in full: the count rises by n; the first waiters, n of them or all,
      leave the queue and are ready or current; no other semaphore changes. */
  lemma {:induction false} SignalNExactly(s: State, k: int, n: int)
    requires Inv(s) && !BadSem(s, k) && n > 0
    ensures var r, m := SignalNCall(s, k, n), Min(n, |s.lists[k]|);
            && Shape(r) && |r.sem| == |s.sem| && |r.thr| == |s.thr|
            && r.sem[k].count == s.sem[k].count + n && r.lists[k] == s.lists[k][m..]
            && (forall i :: 0 <= i < m ==>
                  var t := s.lists[k][i]; 0 <= t < |s.thr| && (r.thr[t].state == Ready || r.thr[t].state == Curr))
            && (forall j :: 0 <= j < |s.sem| && j != k ==>
                  r.sem[j].used == s.sem[j].used && r.sem[j].count == s.sem[j].count && r.lists[j] == s.lists[j])
  {
    hide SignalNCall, PlacedIn, Sorted, Running, CountOk;
    var r, m := SignalNCall(s, k, n), Min(n, |s.lists[k]|);
    SignalNAfter(s, k, n, k);
    SignalNMode(s, k, n, 0);
    forall i | 0 <= i < m ensures 0 <= s.lists[k][i] < |s.thr| && ModeOf(r.thr[s.lists[k][i]]) == Live {
      assert s.lists[k][..m][i] == s.lists[k][i];
      SignalNMode(s, k, n, s.lists[k][i]);
    }
    forall j | 0 <= j < |s.sem| && j != k
      ensures r.sem[j].used == s.sem[j].used && r.sem[j].count == s.sem[j].count && r.lists[j] == s.lists[j]
    {
      SignalNAfter(s, k, n, j);
    }
  }

  /** Every step changes every semaphore as the call says, and no other way. */
  lemma {:induction false} StepSem(s: State, e: Event, k: int)
    requires Inv(s) && Enabled(s, e) && 0 <= k < |s.sem|
    ensures After(s, e, k, Next(s, e))
  {
    hide PlacedIn, Sorted, Running, CountOk, WaitCall, SignalCall, SignalNCall, SemCreateCall, SemFreeCall, Continue;
    hide After, Blocks;
    if e.EvWait? {
      WaitAfter(s, e.sem, k);
    } else if e.EvSignal? {
      SignalAfter(s, e.sem, k);
    } else if e.EvSignalN? {
      SignalNAfter(s, e.sem, e.n, k);
    } else if e.EvSemCreate? {
      SemCreateAfter(s, e.count, k);
    } else if e.EvSemFree? {
      SemFreeAfter(s, e.sem, k);
    } else if e.EvContinue? {
      ContinueAfter(s, k);
    } else {
      OtherSameSems(s, e);
      SameSemsAfter(s, Next(s, e), e, k);
    }
  }

  // --------------------------------------------------------------------- runs

  function TallyAt(ss: seq<State>, es: seq<Event>, i: nat, k: int): (g: Tally)
    requires i <= |es| <= |ss|
  {
    if i == 0 || !Shape(ss[i-1]) || !(0 <= k < |ss[i-1].sem|) then Tally(0, 0, 0, 0)
    else Counted(TallyAt(ss, es, i - 1, k), ss[i-1], es[i-1], k)
  }

  lemma {:induction false} LogIsTally(ss: seq<State>, es: seq<Event>, i: nat, k: int)
    requires FromBoot(ss, es) && i < |ss| && 0 <= k < |ss[0].sem|
    ensures Shape(ss[i]) && |ss[i].sem| == |ss[0].sem|
    ensures Numbers(ss[i].slog[k]) == TallyAt(ss, es, i, k)
  {
    hide Next, Counted, Inv, CounterAfter, UsedAfter;
    InitInv(|ss[0].thr|, |ss[0].sem|);
    BootNumbers(|ss[0].thr|, |ss[0].sem|);
    if i > 0 {
      LogIsTally(ss, es, i - 1, k);
      RunInv(ss, es, i - 1);
      StepSem(ss[i-1], es[i-1], k);
    }
  }

  /** In every run from boot, the count of a semaphore in use is what the calls
      since its creation add up to, and as many threads wait as it is below zero. */
  lemma {:induction false} CountIsTally(ss: seq<State>, es: seq<Event>, i: nat, k: int)
    requires FromBoot(ss, es) && i < |ss| && 0 <= k < |ss[0].sem|
    ensures Shape(ss[i]) && |ss[i].sem| == |ss[0].sem|
    ensures ss[i].sem[k].used ==>
              var n := TallyAt(ss, es, i, k).Count();
              ss[i].sem[k].count == n && |ss[i].lists[k]| == if n < 0 then -n else 0
  {
    hide Next, TallyAt, InitState;
    LogIsTally(ss, es, i, k);
    BootedSemaphores(ss, es, i, k);
  }

  lemma {:induction false} BootNumbers(nthread: nat, nsem: nat)
    requires nthread > 0
    ensures forall k :: 0 <= k < nsem ==> Numbers(InitState(nthread, nsem).slog[k]) == Tally(0, 0, 0, 0)
  {
  }
}
