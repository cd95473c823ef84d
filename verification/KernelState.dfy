/**
 The kernel tables as one value, and every system call as a function on it. A
 call runs with interrupts disabled up to its call of resched, so each function
 is one atomic step; what a thread does after resched gives it the processor
 back is a second step, `Continue`.
 */
module KernelState {
  import opened ThreadLists

  const EMPTY := -2
  const MAXKEY := 0x7FFFFFFF
  const MINKEY := -0x80000000
  const NULLTHREAD := 0
  const CLKTICKS_PER_SEC := 10
  const WORD := 0x1_0000_0000

  datatype ThreadState = Curr | Free | Ready | Recv | Sleep | Susp | Wait | Tmout

  datatype Thread = Thread(state: ThreadState, prio: int, sem: int, parent: int, msg: int, hasmsg: bool)

  datatype Semaphore = Semaphore(used: bool, count: int, queue: int)

  /** What a thread still has to do once it runs again. */
  datatype Pending = Idle | InReceive | InRecvTime | InKill(tid: int)

  /** History of one semaphore since it was created. `arrived` lists the threads
      that blocked on it and were not killed while blocked. */
  datatype SemLog = SemLog(init: int, signals: int, waits: int, cancelled: int,
                           arrived: seq<int>, released: seq<int>)

  /** Messages accepted for a thread and messages it has taken. */
  datatype MsgLog = MsgLog(sent: seq<int>, taken: seq<int>)

  /** lists[k] is the queue of semaphore k; the ready list and the sleep queue
      follow. key[t] is the key field of thread t's queue entry. `rescheds`,
      `slog` and `mlog` only record what happened. */
  datatype State = State(thr: seq<Thread>, sem: seq<Semaphore>, lists: seq<seq<int>>, key: seq<int>,
                         cur: int, nextsem: int, calls: seq<Pending>,
                         rescheds: nat, slog: seq<SemLog>, mlog: seq<MsgLog>)

  predicate Shape(s: State) {
    && |s.thr| > 0
    && |s.key| == |s.thr| && |s.calls| == |s.thr| && |s.mlog| == |s.thr|
    && |s.slog| == |s.sem| && |s.lists| == |s.sem| + 2
    && (forall j :: 0 <= j < |s.lists| ==> Within(s.lists[j], |s.thr|))
    && 0 <= s.cur < |s.thr| && (|s.sem| > 0 ==> 0 <= s.nextsem < |s.sem|)
    && (forall t :: 0 <= t < |s.calls| && s.calls[t].InKill? ==> 0 < s.calls[t].tid < |s.thr|)
  }

  /** Same tables, same running thread, same unfinished calls. */
  predicate SameShape(s: State, r: State) {
    |r.thr| == |s.thr| && |r.sem| == |s.sem| && r.cur == s.cur && r.calls == s.calls
  }

  function RQ(s: State): int { |s.sem| }

  function SQ(s: State): int { |s.sem| + 1 }

  predicate BadTid(s: State, t: int) {
    t < 0 || t >= |s.thr| || s.thr[t].state == Free
  }

  predicate BadSem(s: State, k: int) {
    k < 0 || k >= |s.sem| || !s.sem[k].used
  }

  // ------------------------------------------------------------ queue effects

  function SetState(s: State, t: int, st: ThreadState): (r: State)
    requires Shape(s) && 0 <= t < |s.thr|
    ensures Shape(r) && SameShape(s, r)
  {
    s.(thr := s.thr[t := s.thr[t].(state := st)])
  }

  function SetCall(s: State, t: int, c: Pending): (r: State)
    requires Shape(s) && 0 <= t < |s.thr| && (c.InKill? ==> 0 < c.tid < |s.thr|)
    ensures Shape(r)
  {
    s.(calls := s.calls[t := c])
  }

  function SetList(s: State, j: int, l: seq<int>): (r: State)
    requires Shape(s) && 0 <= j < |s.lists| && Within(l, |s.thr|)
    ensures Shape(r) && SameShape(s, r)
  {
    s.(lists := s.lists[j := l])
  }

  function Enqueue(s: State, t: int, j: int): (r: State)
    requires Shape(s) && 0 <= j < |s.lists| && 0 <= t < |s.thr|
    ensures Shape(r) && SameShape(s, r)
  {
    SetList(s, j, s.lists[j] + [t])
  }

  function Dequeue(s: State, j: int): (r: State)
    requires Shape(s) && 0 <= j < |s.lists| && s.lists[j] != []
    ensures Shape(r) && SameShape(s, r)
  {
    SetList(s, j, s.lists[j][1..])
  }

  function GetItem(s: State, t: int, j: int): (r: State)
    requires Shape(s) && 0 <= j < |s.lists|
    ensures Shape(r) && SameShape(s, r)
  {
    if t in s.lists[j] then SetList(s, j, Remove(s.lists[j], t)) else s
  }

  function Insert(s: State, t: int, j: int, k: int): (r: State)
    requires Shape(s) && 0 <= j < |s.lists| && 0 <= t < |s.thr|
    ensures Shape(r) && SameShape(s, r)
  {
    var i := InsertPos(s.lists[j], s.key, k);
    SetList(s, j, InsertAt(s.lists[j], i, t)).(key := s.key[t := k])
  }

  function InsertD(s: State, t: int, j: int, k: int): (r: State)
    requires Shape(s) && 0 <= j < |s.lists| && 0 <= t < |s.thr|
    ensures Shape(r) && SameShape(s, r)
  {
    SetList(s, j, DeltaInsert(s.lists[j], s.key, t, k)).(key := DeltaKeys(s.lists[j], s.key, t, k))
  }

  // --------------------------------------------------------------- scheduling

  function MakeReady(s: State, t: int): (r: State)
    requires Shape(s)
    ensures Shape(r) && SameShape(s, r)
  {
    if BadTid(s, t) then s else Insert(SetState(s, t, Ready), t, RQ(s), s.thr[t].prio)
  }

  /** Run the head of the ready list; EMPTY when there is none. */
  function Dispatch(s: State): (r: State)
    requires Shape(s)
  {
    var l := s.lists[RQ(s)];
    if l == [] then s.(cur := EMPTY) else SetState(Dequeue(s, RQ(s)), l[0], Curr).(cur := l[0])
  }

  function Redispatch(s: State): (r: State)
    requires Shape(s)
  {
    var l, me := s.lists[RQ(s)], s.thr[s.cur];
    if me.state != Curr then Dispatch(s)
    else if l != [] && me.prio > s.key[l[0]] then s
    else Dispatch(Insert(SetState(s, s.cur, Ready), s.cur, RQ(s), me.prio))
  }

  function Resched(s: State): (r: State)
    requires Shape(s)
  {
    Redispatch(s).(rescheds := s.rescheds + 1)
  }

  function ResumeCall(s: State, t: int): (r: State)
    requires Shape(s)
  {
    if BadTid(s, t) || s.thr[t].state != Susp then s else Resched(MakeReady(s, t))
  }

  function SuspendCall(s: State, t: int): (r: State)
    requires Shape(s)
  {
    if BadTid(s, t) || t == NULLTHREAD then s
    else if s.thr[t].state == Ready then SetState(GetItem(s, t, RQ(s)), t, Susp)
    else if s.thr[t].state == Curr then Resched(SetState(s, t, Susp))
    else s
  }

  /** The abstract effect of create on a free slot. */
  function CreateCall(s: State, t: int, prio: int): (r: State)
    requires Shape(s) && 0 <= t < |s.thr|
    ensures Shape(r)
  {
    s.(thr := s.thr[t := s.thr[t].(state := Susp, prio := prio, parent := s.cur, hasmsg := false)],
       calls := s.calls[t := Idle], mlog := s.mlog[t := MsgLog([], [])])
  }

  function ChPrioCall(s: State, t: int, prio: int): (r: State)
    requires Shape(s)
    ensures Shape(r)
  {
    if BadTid(s, t) then s else s.(thr := s.thr[t := s.thr[t].(prio := prio)])
  }

  // --------------------------------------------------------------- semaphores

  function SetSem(s: State, k: int, e: Semaphore, g: SemLog): (r: State)
    requires Shape(s) && 0 <= k < |s.sem|
    ensures Shape(r) && SameShape(s, r)
  {
    s.(sem := s.sem[k := e], slog := s.slog[k := g])
  }

  function CountDown(s: State, k: int): (r: State)
    requires Shape(s) && 0 <= k < |s.sem|
    ensures Shape(r) && SameShape(s, r)
  {
    SetSem(s, k, s.sem[k].(count := s.sem[k].count - 1), s.slog[k].(waits := s.slog[k].waits + 1))
  }

  function CountUp(s: State, k: int): (r: State)
    requires Shape(s) && 0 <= k < |s.sem|
    ensures Shape(r) && SameShape(s, r)
  {
    SetSem(s, k, s.sem[k].(count := s.sem[k].count + 1), s.slog[k].(signals := s.slog[k].signals + 1))
  }

  function Block(s: State, k: int): (r: State)
    requires Shape(s) && 0 <= k < |s.sem|
    ensures Shape(r) && SameShape(s, r)
  {
    var g := s.slog[k];
    var s1 := SetSem(s, k, s.sem[k], g.(arrived := g.arrived + [s.cur]));
    Enqueue(s1.(thr := s.thr[s.cur := s.thr[s.cur].(state := Wait, sem := k)]), s.cur, k)
  }

  function WaitCall(s: State, k: int): (r: State)
    requires Shape(s)
  {
    if BadSem(s, k) then s else
    var s1 := CountDown(s, k);
    if s1.sem[k].count < 0 then Resched(Block(s1, k)) else s1
  }

  /** ready(dequeue(queue of k), RESCHED_NO) */
  function Release(s: State, k: int): (r: State)
    requires Shape(s) && 0 <= k < |s.sem|
    ensures Shape(r) && SameShape(s, r)
  {
    if s.lists[k] == [] then s else
    var t, g := s.lists[k][0], s.slog[k];
    MakeReady(Dequeue(SetSem(s, k, s.sem[k], g.(released := g.released + [t])), k), t)
  }

  function SignalOne(s: State, k: int): (r: State)
    requires Shape(s) && 0 <= k < |s.sem|
    ensures Shape(r) && SameShape(s, r)
  {
    var s1 := CountUp(s, k);
    if s.sem[k].count < 0 then Release(s1, k) else s1
  }

  function SignalCall(s: State, k: int): (r: State)
    requires Shape(s)
  {
    if BadSem(s, k) then s
    else if s.sem[k].count < 0 && s.lists[k] != [] then Resched(SignalOne(s, k))
    else SignalOne(s, k)
  }

  function SignalMany(s: State, k: int, n: nat): (r: State)
    requires Shape(s) && 0 <= k < |s.sem|
    ensures Shape(r) && SameShape(s, r)
    decreases n
  {
    if n == 0 then s else SignalMany(SignalOne(s, k), k, n - 1)
  }

  function SignalNCall(s: State, k: int, n: int): (r: State)
    requires Shape(s)
  {
    if BadSem(s, k) || n <= 0 then s else Resched(SignalMany(s, k, n))
  }

  /** The scan of semalloc: up to n slots after slot `from`, cyclically. */
  function NextFree(sem: seq<Semaphore>, from: int, n: nat): (r: int)
    decreases n
  {
    if n == 0 || sem == [] then -1 else
    var i := (from + 1) % |sem|;
    if !sem[i].used then i else NextFree(sem, i, n - 1)
  }

  function SemCreateCall(s: State, count: int): (r: State)
    requires Shape(s)
    ensures Shape(r) && SameShape(s, r)
  {
    var k := NextFree(s.sem, s.nextsem, |s.sem|);
    if k < 0 || k >= |s.sem| then s else
    var c := if count >= 0 then count else s.sem[k].count;
    SetSem(s, k, s.sem[k].(used := true, count := c), SemLog(c, 0, 0, 0, [], [])).(nextsem := k)
  }

  function Drain(s: State, k: int): (r: State)
    requires Shape(s) && 0 <= k < |s.sem|
    ensures Shape(r) && SameShape(s, r)
    decreases |s.lists[k]|
  {
    if s.lists[k] == [] then s else Drain(Release(s, k), k)
  }

  function SemFreeCall(s: State, k: int): (r: State)
    requires Shape(s)
    ensures Shape(r) && SameShape(s, r)
  {
    if BadSem(s, k) then s else
    var s1 := Drain(s, k);
    SetSem(s1, k, s1.sem[k].(used := false, count := 0), s1.slog[k])
  }

  // -------------------------------------------------------------------- clock

  function Ticks(ms: nat): (r: nat) {
    ((ms * CLKTICKS_PER_SEC) % WORD) / 1000
  }

  function SleepCall(s: State, ms: nat): (r: State)
    requires Shape(s)
  {
    var n := Ticks(ms);
    Resched(if n > 0 then SetState(InsertD(s, s.cur, SQ(s), n), s.cur, Sleep) else s)
  }

  function Unsleep(s: State, t: int): (r: State)
    requires Shape(s)
    ensures Shape(r) && SameShape(s, r)
  {
    if BadTid(s, t) || (s.thr[t].state != Sleep && s.thr[t].state != Tmout) || t !in s.lists[SQ(s)] then s
    else GetItem(s, t, SQ(s)).(key := UndeltaKeys(s.lists[SQ(s)], s.key, t))
  }

  function WakeOne(s: State): (r: State)
    requires Shape(s) && s.lists[SQ(s)] != []
    ensures Shape(r) && SameShape(s, r)
  {
    MakeReady(Dequeue(s, SQ(s)), s.lists[SQ(s)][0])
  }

  function Wakeup(s: State): (r: State)
    requires Shape(s)
    ensures Shape(r) && SameShape(s, r)
    decreases |s.lists[SQ(s)]|
  {
    var l := s.lists[SQ(s)];
    if l == [] || s.key[l[0]] > 0 then s else Wakeup(WakeOne(s))
  }

  /** clkhandler up to its call of resched */
  function Tick(s: State): (r: State)
    requires Shape(s)
    ensures Shape(r) && SameShape(s, r)
  {
    var l := s.lists[SQ(s)];
    if l == [] then s else
    var s1 := s.(key := s.key[l[0] := s.key[l[0]] - 1]);
    if s1.key[l[0]] <= 0 then Wakeup(s1) else s1
  }

  function ClockCall(s: State): (r: State)
    requires Shape(s)
  {
    Resched(Tick(s))
  }

  // ----------------------------------------------------------------- messages

  function Deposit(s: State, t: int, m: int): (r: State)
    requires Shape(s) && 0 <= t < |s.thr|
    ensures Shape(r) && SameShape(s, r)
  {
    s.(thr := s.thr[t := s.thr[t].(msg := m, hasmsg := true)],
       mlog := s.mlog[t := s.mlog[t].(sent := s.mlog[t].sent + [m])])
  }

  function SendCall(s: State, t: int, m: int): (r: State)
    requires Shape(s)
  {
    if BadTid(s, t) || s.thr[t].hasmsg then s else
    var s1 := Deposit(s, t, m);
    if s.thr[t].state == Recv then Resched(MakeReady(s1, t))
    else if s.thr[t].state == Tmout then Resched(MakeReady(Unsleep(s1, t), t))
    else s1
  }

  /** The running thread takes its message slot's content and clears the flag. */
  function Take(s: State): (r: State)
    requires Shape(s)
    ensures Shape(r) && SameShape(s, r)
  {
    var t := s.cur;
    s.(thr := s.thr[t := s.thr[t].(hasmsg := false)],
       mlog := s.mlog[t := s.mlog[t].(taken := s.mlog[t].taken + [s.thr[t].msg])])
  }

  function ReceiveCall(s: State): (r: State)
    requires Shape(s)
  {
    if s.thr[s.cur].hasmsg then Take(s)
    else Resched(SetCall(SetState(s, s.cur, Recv), s.cur, InReceive))
  }

  function RecvTimeCall(s: State, maxwait: int): (r: State)
    requires Shape(s)
  {
    if maxwait < 0 then s
    else if s.thr[s.cur].hasmsg then Take(s)
    else Resched(SetCall(SetState(InsertD(s, s.cur, SQ(s), maxwait), s.cur, Tmout), s.cur, InRecvTime))
  }

  function RecvClrCall(s: State): (r: State)
    requires Shape(s)
  {
    if s.thr[s.cur].hasmsg then Take(s) else s
  }

  // --------------------------------------------------------------------- kill

  /** kill up to and including the message to the parent, where it may lose
      the processor. */
  function KillCall(s: State, t: int): (r: State)
    requires Shape(s)
  {
    if BadTid(s, t) || t == NULLTHREAD then s
    else SendCall(SetCall(s, s.cur, InKill(t)), s.thr[t].parent, t)
  }

  /** A waiter leaves the queue of its semaphore without a signal. */
  function Cancel(s: State, t: int, k: int): (r: State)
    requires Shape(s) && 0 <= k < |s.sem|
    ensures Shape(r) && SameShape(s, r)
  {
    var g := s.slog[k];
    var p := if t in s.lists[k] then |g.released| + IndexOf(s.lists[k], t) else |g.arrived|;
    var a := if p < |g.arrived| then g.arrived[..p] + g.arrived[p+1..] else g.arrived;
    GetItem(SetSem(s, k, s.sem[k].(count := s.sem[k].count + 1), g.(cancelled := g.cancelled + 1, arrived := a)), t, k)
  }

  /** The rest of kill, the switch on the state of the victim. The sleeping
      case frees the slot first, so its unsleep is refused. */
  function KillFinish(s: State, t: int): (r: State)
    requires Shape(s) && 0 < t < |s.thr|
  {
    match s.thr[t].state
    case Sleep => Unsleep(SetState(s, t, Free), t)
    case Curr => Resched(SetState(s, t, Free))
    case Wait => if 0 <= s.thr[t].sem < |s.sem| then SetState(Cancel(s, t, s.thr[t].sem), t, Free) else s
    case Ready => SetState(GetItem(s, t, RQ(s)), t, Free)
    case _ => SetState(s, t, Free)
  }

  /** The running thread goes on after the resched inside its last call. */
  function Continue(s: State): (r: State)
    requires Shape(s)
  {
    var s1 := SetCall(s, s.cur, Idle);
    match s.calls[s.cur]
    case Idle => s
    case InReceive => Take(s1)
    case InRecvTime => if s.thr[s.cur].hasmsg then Take(s1) else s1
    case InKill(t) => KillFinish(s1, t)
  }

  // --------------------------------------------------------------------- runs

  datatype Event =
    | EvCreate(tid: int, prio: int) | EvReady(tid: int) | EvResume(tid: int) | EvSuspend(tid: int)
    | EvKill(tid: int) | EvContinue | EvYield | EvChPrio(tid: int, prio: int)
    | EvWait(sem: int) | EvSignal(sem: int) | EvSignalN(sem: int, n: int)
    | EvSemCreate(count: int) | EvSemFree(sem: int)
    | EvSleep(ms: nat) | EvClock
    | EvSend(tid: int, msg: int) | EvReceive | EvRecvTime(maxwait: int) | EvRecvClr

  function Next(s: State, e: Event): (r: State)
    requires Shape(s)
  {
    match e
    case EvCreate(t, p) => if 0 <= t < |s.thr| then CreateCall(s, t, p) else s
    case EvReady(t) => MakeReady(s, t)
    case EvResume(t) => ResumeCall(s, t)
    case EvSuspend(t) => SuspendCall(s, t)
    case EvKill(t) => KillCall(s, t)
    case EvContinue => Continue(s)
    case EvYield => Resched(s)
    case EvChPrio(t, p) => ChPrioCall(s, t, p)
    case EvWait(k) => WaitCall(s, k)
    case EvSignal(k) => SignalCall(s, k)
    case EvSignalN(k, n) => SignalNCall(s, k, n)
    case EvSemCreate(c) => SemCreateCall(s, c)
    case EvSemFree(k) => SemFreeCall(s, k)
    case EvSleep(ms) => SleepCall(s, ms)
    case EvClock => ClockCall(s)
    case EvSend(t, m) => SendCall(s, t, m)
    case EvReceive => ReceiveCall(s)
    case EvRecvTime(w) => RecvTimeCall(s, w)
    case EvRecvClr => RecvClrCall(s)
  }

  /** The caller of e would have to wait. */
  predicate Blocks(s: State, e: Event)
    requires Shape(s)
  {
    || (e.EvWait? && !BadSem(s, e.sem) && s.sem[e.sem].count <= 0)
    || (e.EvSleep? && Ticks(e.ms) > 0)
    || (e.EvReceive? && !s.thr[s.cur].hasmsg)
    || (e.EvRecvTime? && e.maxwait >= 0 && !s.thr[s.cur].hasmsg)
  }

  /** The kill in progress would leave its victim on the sleep queue. */
  predicate StrandsSleeper(s: State)
    requires Shape(s)
  {
    var c := s.calls[s.cur];
    c.InKill? && (s.thr[c.tid].state == Sleep || s.thr[c.tid].state == Tmout)
  }

  /** A clock interrupt can come at any time; otherwise a thread finishes one
      call before it makes the next. */
  predicate Enabled(s: State, e: Event)
    requires Shape(s)
  {
    && (e.EvContinue? || e.EvClock? || s.calls[s.cur] == Idle)
    && (Blocks(s, e) ==> s.cur != NULLTHREAD)
    && (e.EvCreate? ==> 0 <= e.tid < |s.thr| && s.thr[e.tid].state == Free && e.prio > MINKEY)
    && (e.EvChPrio? ==> e.prio > MINKEY)
    && (e.EvReady? ==> !BadTid(s, e.tid) && s.thr[e.tid].state == Susp)
    && (e.EvContinue? ==> !StrandsSleeper(s))
  }
}
