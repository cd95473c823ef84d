/**
 One-slot messages are delivered exactly once: what a thread has taken, followed
 by what lies in its slot, is what was accepted for it, in order.
 */
module Messages {
  import opened ThreadLists
  import opened KernelState
  import opened KernelInv
  import opened KernelSteps
  import opened KernelRuns

  function Slot(th: Thread): (r: seq<int>) {
    if th.hasmsg then [th.msg] else []
  }

  /** For a live thread: nothing lost, nothing twice; and a thread inside
      receive is blocked exactly while its slot is empty. */
  predicate MailOk(s: State, t: int)
    requires Shape(s) && 0 <= t < |s.thr|
  {
    s.thr[t].state != Free ==>
      && s.mlog[t].sent == s.mlog[t].taken + Slot(s.thr[t])
      && (s.calls[t] == InReceive ==> (s.thr[t].state == Recv <==> !s.thr[t].hasmsg))
      && (s.thr[t].state == Recv ==> s.calls[t] == InReceive)
  }

  predicate Mail(s: State)
    requires Shape(s)
  {
    forall t :: 0 <= t < |s.thr| ==> MailOk(s, t)
  }

  lemma {:induction false} MailFrame(s: State, r: State)
    requires Shape(s) && Shape(r) && Mail(s) && SameMail(s, r)
    ensures Mail(r)
  {
    forall t | 0 <= t < |r.thr| ensures MailOk(r, t) {
      assert MailOk(s, t);
    }
  }

  /** Only thread x's record differs. */
  lemma {:induction false} MailOther(s: State, r: State, x: int)
    requires Shape(s) && Shape(r) && Mail(s) && |r.thr| == |s.thr| && 0 <= x < |s.thr|
    requires forall t :: 0 <= t < |s.thr| && t != x ==>
               && r.mlog[t] == s.mlog[t] && r.calls[t] == s.calls[t] && Slot(r.thr[t]) == Slot(s.thr[t])
               && r.thr[t].hasmsg == s.thr[t].hasmsg
               && (r.thr[t].state == Recv <==> s.thr[t].state == Recv)
               && (r.thr[t].state == Free <==> s.thr[t].state == Free)
    requires MailOk(r, x)
    ensures Mail(r)
  {
    forall t | 0 <= t < |r.thr| ensures MailOk(r, t) {
      assert MailOk(s, t);
    }
  }

  lemma {:induction false} TakeMail(s: State)
    requires Inv(s) && Mail(s) && s.thr[s.cur].hasmsg && s.calls[s.cur] == Idle
    ensures Mail(Take(s))
  {
    assert MailOk(s, s.cur);
    MailOther(s, Take(s), s.cur);
  }

  lemma {:induction false} DepositMail(s: State, t: int, m: int)
    requires Inv(s) && Mail(s) && !BadTid(s, t) && !s.thr[t].hasmsg
    ensures Inv(Deposit(s, t, m))
    ensures s.thr[t].state != Recv ==> Mail(Deposit(s, t, m))
    ensures s.thr[t].state == Recv ==> Mail(MakeReady(Deposit(s, t, m), t))
  {
    hide InsertAt, InsertPos, Sorted, Running;
    var s1 := Deposit(s, t, m);
    assert MailOk(s, t);
    MessagesKeep(s, s1, -1);
    if s.thr[t].state == Recv {
      MailOther(s, MakeReady(s1, t), t);
    } else {
      MailOther(s, s1, t);
    }
  }

  lemma {:induction false} SendMail(s: State, t: int, m: int)
    requires Inv(s) && Mail(s)
    ensures Shape(SendCall(s, t, m)) && Mail(SendCall(s, t, m))
  {
    if !BadTid(s, t) && !s.thr[t].hasmsg {
      DepositMail(s, t, m);
      var s1 := Deposit(s, t, m);
      if s.thr[t].state == Recv {
        ReadyOne(s1, t);
        ReschedInv(MakeReady(s1, t));
        MailFrame(MakeReady(s1, t), SendCall(s, t, m));
      } else if s.thr[t].state == Tmout {
        SendTimedMail(s1, t);
      }
    }
  }

  lemma {:induction false} SendTimedMail(s: State, t: int)
    requires Inv(s) && Mail(s) && 0 <= t < |s.thr| && s.thr[t].state == Tmout
    ensures var r := Resched(MakeReady(Unsleep(s, t), t)); Shape(r) && Mail(r)
  {
    UnsleepKeeps(s, t);
    var s2 := MakeReady(Unsleep(s, t), t);
    MailFrame(s, Unsleep(s, t));
    ReadyKeeps(Unsleep(s, t), t);
    MailFrame(Unsleep(s, t), s2);
    ReschedKeeps(s2);
    MailFrame(s2, Resched(s2));
  }

  lemma {:induction false} WaitingMail(s: State)
    requires Inv(s) && Mail(s) && !s.thr[s.cur].hasmsg
    ensures Mail(SetCall(SetState(s, s.cur, Recv), s.cur, InReceive))
  {
    hide PlacedIn, Sorted, Running, CountOk;
    assert MailOk(s, s.cur);
    MailOther(s, SetCall(SetState(s, s.cur, Recv), s.cur, InReceive), s.cur);
  }

  lemma {:induction false} ReceiveMail(s: State)
    requires Inv(s) && Mail(s) && (Blocks(s, EvReceive) ==> s.cur != NULLTHREAD) && s.calls[s.cur] == Idle
    ensures Shape(ReceiveCall(s)) && Mail(ReceiveCall(s))
  {
    hide Resched, PlacedIn, Sorted, Running, CountOk, Mail;
    ReceiveKeeps(s);
    if s.thr[s.cur].hasmsg {
      TakeMail(s);
    } else {
      var s0 := SetState(s, s.cur, Recv);
      var s1 := SetCall(s0, s.cur, InReceive);
      WaitingMail(s);
      StopSelfKeeps(s, Recv);
      MessagesKeep(s0, s1, -1);
      ReschedKeeps(s1);
      MailFrame(s1, Resched(s1));
    }
  }

  lemma {:induction false} RecvTimeMail(s: State, maxwait: int)
    requires Inv(s) && Mail(s) && (Blocks(s, EvRecvTime(maxwait)) ==> s.cur != NULLTHREAD) && s.calls[s.cur] == Idle
    ensures Shape(RecvTimeCall(s, maxwait)) && Mail(RecvTimeCall(s, maxwait))
  {
    hide InsertD, SetState, Resched, PlacedIn, Sorted, Running, CountOk, Mail;
    RecvTimeKeeps(s, maxwait);
    if maxwait >= 0 {
      if s.thr[s.cur].hasmsg {
        TakeMail(s);
      } else {
        var s1 := SetState(InsertD(s, s.cur, SQ(s), maxwait), s.cur, Tmout);
        var s2 := SetCall(s1, s.cur, InRecvTime);
        TimedMail(s, maxwait);
        FallAsleep(s, maxwait, Tmout);
        MessagesKeep(s1, s2, -1);
        ReschedKeeps(s2);
        MailFrame(s2, Resched(s2));
      }
    }
  }

  lemma {:induction false} TimedMail(s: State, w: int)
    requires Inv(s) && Mail(s) && !s.thr[s.cur].hasmsg
    ensures Mail(SetCall(SetState(InsertD(s, s.cur, SQ(s), w), s.cur, Tmout), s.cur, InRecvTime))
  {
    hide DeltaInsert, DeltaKeys, PlacedIn, Sorted, Running, CountOk;
    assert MailOk(s, s.cur);
    MailOther(s, SetCall(SetState(InsertD(s, s.cur, SQ(s), w), s.cur, Tmout), s.cur, InRecvTime), s.cur);
  }

  lemma {:induction false} KillCallMail(s: State, t: int)
    requires Inv(s) && Mail(s) && s.calls[s.cur] == Idle
    ensures Shape(KillCall(s, t)) && Mail(KillCall(s, t))
  {
    KillCallKeeps(s, t);
    if !BadTid(s, t) && t != NULLTHREAD {
      var s1 := SetCall(s, s.cur, InKill(t));
      MessagesKeep(s, s1, -1);
      assert MailOk(s, s.cur);
      MailOther(s, s1, s.cur);
      SendMail(s1, s.thr[t].parent, t);
    }
  }

  lemma {:induction false} KillFinishMail(s: State, t: int)
    requires Inv(s) && Mail(s) && 0 < t < |s.thr| && s.thr[t].state != Sleep && s.thr[t].state != Tmout
    ensures Shape(KillFinish(s, t)) && Mail(KillFinish(s, t))
  {
    hide Resched, Sorted, CountOk, Mail, Remove;
    KillFinishKeeps(s, t);
    if s.thr[t].state == Curr {
      var s1 := SetState(s, t, Free);
      FreedMail(s, s1, t);
      StopSelfKeeps(s, Free);
      ReschedKeeps(s1);
      MailFrame(s1, Resched(s1));
    } else {
      assert s.thr[t].state == Wait ==> t in s.lists[s.thr[t].sem];
      FreedMail(s, KillFinish(s, t), t);
    }
  }

  /** A free slot has no mail to account for. */
  lemma {:induction false} FreedMail(s: State, r: State, t: int)
    requires Shape(s) && Shape(r) && Mail(s) && 0 <= t < |s.thr| && r.thr == s.thr[t := s.thr[t].(state := Free)]
    requires r.mlog == s.mlog && r.calls == s.calls
    ensures Mail(r)
  {
    MailOther(s, r, t);
  }

  /** The resumed half of a call; a resumed receive always finds a message. */
  lemma {:induction false} ContinueMail(s: State)
    requires Inv(s) && Mail(s) && !StrandsSleeper(s)
    ensures Shape(Continue(s)) && Mail(Continue(s))
    ensures s.calls[s.cur] == InReceive ==> s.thr[s.cur].hasmsg
  {
    ContinueKeeps(s);
    var s1 := SetCall(s, s.cur, Idle);
    assert MailOk(s, s.cur);
    MailOther(s, s1, s.cur);
    MessagesKeep(s, s1, -1);
    match s.calls[s.cur]
    case Idle =>
    case InReceive => TakeMail(s1);
    case InRecvTime => if s.thr[s.cur].hasmsg { TakeMail(s1); }
    case InKill(t) => KillFinishMail(s1, t);
  }

  lemma {:induction false} CreateMail(s: State, t: int, prio: int)
    requires Inv(s) && Mail(s) && 0 <= t < |s.thr| && s.thr[t].state == Free && prio > MINKEY
    ensures Mail(CreateCall(s, t, prio))
  {
    MailOther(s, CreateCall(s, t, prio), t);
  }

  /** Calls that concern no messages. */
  predicate Silent(e: Event) {
    SemEvent(e) || e.EvReady? || e.EvResume? || e.EvSuspend? || e.EvYield? || e.EvChPrio? || e.EvSleep? || e.EvClock?
  }

  lemma {:induction false} OtherMail(s: State, e: Event)
    requires Inv(s) && Mail(s) && Enabled(s, e) && Silent(e)
    ensures Shape(Next(s, e)) && Mail(Next(s, e))
  {
    hide Mail, SameMail, Next, PlacedIn, Sorted, Running, CountOk;
    OtherSameMail(s, e);
    MailFrame(s, Next(s, e));
  }

  lemma {:induction false} OtherSameMail(s: State, e: Event)
    requires Inv(s) && Enabled(s, e) && Silent(e)
    ensures Shape(Next(s, e)) && SameMail(s, Next(s, e))
  {
    hide PlacedIn, Sorted, Running, CountOk, ResumeCall, SuspendCall, KillCall, WaitCall, SignalCall, SignalNCall;
    hide SemFreeCall, SemCreateCall, SleepCall, ClockCall, SendCall, ReceiveCall, RecvTimeCall, Continue, Resched;
    hide SameMail, SameSems, SameSleep, MakeReady, ChPrioCall, Blocks;
    match e {
      case EvReady(t) => ReadyOne(s, t);
      case EvResume(t) => ResumeKeeps(s, t);
      case EvSuspend(t) => SuspendKeeps(s, t);
      case EvYield => ReschedInv(s);
      case EvChPrio(t, p) => ChPrioKeeps(s, t, p);
      case EvWait(k) => WaitKeeps(s, k);
      case EvSignal(k) => SignalKeeps(s, k);
      case EvSignalN(k, n) => SignalNKeeps(s, k, n);
      case EvSemCreate(c) => SemCreateKeeps(s, c);
      case EvSemFree(k) => SemFreeKeeps(s, k);
      case EvSleep(ms) => SleepKeeps(s, ms);
      case EvClock => ClockKeeps(s);
    }
  }

  lemma {:induction false} StepMail(s: State, e: Event)
    requires Inv(s) && Mail(s) && Enabled(s, e)
    ensures Shape(Next(s, e)) && Mail(Next(s, e))
  {
    match e
    case EvCreate(t, p) => CreateMail(s, t, p);
    case EvKill(t) => KillCallMail(s, t);
    case EvContinue => ContinueMail(s);
    case EvSend(t, m) => SendMail(s, t, m);
    case EvReceive => ReceiveMail(s);
    case EvRecvTime(w) => RecvTimeMail(s, w);
    case EvRecvClr => if s.thr[s.cur].hasmsg { TakeMail(s); }
    case _ => OtherMail(s, e);
  }

  lemma {:induction false} RunMail(ss: seq<State>, es: seq<Event>, i: nat)
    requires IsRun(ss, es) && i < |ss| && Inv(ss[0]) && Mail(ss[0])
    ensures Inv(ss[i]) && Mail(ss[i])
  {
    RunInv(ss, es, i);
    if i > 0 {
      RunMail(ss, es, i - 1);
      StepMail(ss[i-1], es[i-1]);
    }
  }

  /** In every run from boot, whatever a live thread has taken is a prefix of
      what was accepted for it, at most one message is pending, and a thread
      resumed inside receive has one. */
  lemma {:induction false} BootedMessages(ss: seq<State>, es: seq<Event>, i: nat, t: int)
    requires FromBoot(ss, es) && i < |ss| && 0 <= t < |ss[i].thr|
    ensures Shape(ss[i])
    ensures var s := ss[i]; var g := s.mlog[t];
            s.thr[t].state != Free ==>
              && g.taken <= g.sent && g.sent[|g.taken|..] == Slot(s.thr[t])
              && (t == s.cur && s.calls[t] == InReceive ==> s.thr[t].hasmsg)
  {
    InitInv(|ss[0].thr|, |ss[0].sem|);
    assert forall x :: 0 <= x < |ss[0].thr| ==> MailOk(ss[0], x);
    RunMail(ss, es, i);
    assert MailOk(ss[i], t);
  }
}
