/**
 Messages in terms of the calls alone. What a thread was answered and what was
 accepted for it are read off the events of a run and the states they happen in;
 the log in the state is shown to be just that, so in every run from boot each
 accepted message is answered exactly once, in order, or still pending.
 */
module MessageRuns {
  import opened ThreadLists
  import opened KernelState
  import opened KernelInv
  import opened KernelSteps
  import opened KernelRuns
  import opened Messages

  // ------------------------------------------------------------ what a call does

  /** r is s after its current thread took the pending message. */
  predicate TookMessage(s: State, r: State)
    requires Shape(s)
  {
    var t := s.cur;
    && |r.thr| == |s.thr| == |r.mlog| == |s.mlog| && r.cur == t
    && !r.thr[t].hasmsg && r.mlog[t] == MsgLog(s.mlog[t].sent, s.mlog[t].taken + [s.thr[t].msg])
    && r.thr[t] == s.thr[t].(hasmsg := false)
    && (forall u :: 0 <= u < |s.thr| && u != t ==> r.thr[u] == s.thr[u] && r.mlog[u] == s.mlog[u])
    && r.lists == s.lists && r.key == s.key && r.sem == s.sem && r.slog == s.slog
  }

  /** With a message pending receive, recvtime and recvclr take it: the slot is
      empty afterwards, and nothing else has changed. */
  lemma {:induction false} TakesPending(s: State, w: int)
    requires Inv(s) && s.thr[s.cur].hasmsg
    ensures TookMessage(s, ReceiveCall(s)) && TookMessage(s, RecvClrCall(s))
    ensures w >= 0 ==> TookMessage(s, RecvTimeCall(s, w))
    ensures s.calls[s.cur] == InReceive || s.calls[s.cur] == InRecvTime ==> TookMessage(s, Continue(s))
  {
    hide PlacedIn, Sorted, Running, CountOk;
  }

  // -------------------------------------------------------- answered and accepted

  /** The messages that thread t is answered by event e in state s. */
  function Answered(s: State, e: Event, t: int): (l: seq<int>)
    requires Shape(s)
  {
    var receives :=
      match e
      case EvReceive => true
      case EvRecvTime(w) => w >= 0
      case EvRecvClr => true
      case EvContinue => s.calls[s.cur] == InReceive || s.calls[s.cur] == InRecvTime
      case _ => false;
    if receives && t == s.cur && s.thr[t].hasmsg then [s.thr[t].msg] else []
  }

  predicate TakesIn(s: State, u: int, t: int) {
    u == t && !BadTid(s, t) && !s.thr[t].hasmsg
  }

  /** The messages that are accepted for thread t by event e: of a send, and of a
      kill, which tells the parent of the victim. */
  function Accepted(s: State, e: Event, t: int): (l: seq<int>)
    requires Shape(s)
  {
    match e
    case EvSend(u, m) => if TakesIn(s, u, t) then [m] else []
    case EvKill(v) => if !BadTid(s, v) && v != NULLTHREAD && TakesIn(s, s.thr[v].parent, t) then [v] else []
    case _ => []
  }

  predicate Creates(e: Event, t: int) {
    e.EvCreate? && e.tid == t
  }

  /** All answers to t before event i, since t was last created. */
  function Answers(ss: seq<State>, es: seq<Event>, i: nat, t: int): (l: seq<int>)
    requires i <= |es| <= |ss|
  {
    if i == 0 || Creates(es[i-1], t) || !Shape(ss[i-1]) then []
    else Answers(ss, es, i - 1, t) + Answered(ss[i-1], es[i-1], t)
  }

  /** All messages accepted for t before event i, since t was last created. */
  function Accepts(ss: seq<State>, es: seq<Event>, i: nat, t: int): (l: seq<int>)
    requires i <= |es| <= |ss|
  {
    if i == 0 || Creates(es[i-1], t) || !Shape(ss[i-1]) then []
    else Accepts(ss, es, i - 1, t) + Accepted(ss[i-1], es[i-1], t)
  }

  // ---------------------------------------------------- the log is what happened

  lemma {:induction false} ReschedLog(s: State)
    requires Shape(s)
    ensures Resched(s).mlog == s.mlog
  {
    hide InsertAt, InsertPos;
  }

  lemma {:induction false} ReadyLog(s: State, t: int)
    requires Shape(s)
    ensures MakeReady(s, t).mlog == s.mlog && Unsleep(s, t).mlog == s.mlog
  {
    hide InsertAt, InsertPos, Remove, UndeltaKeys;
  }

  lemma {:induction false} SendLog(s: State, t: int, m: int)
    requires Shape(s)
    ensures |SendCall(s, t, m).mlog| == |s.thr|
    ensures forall u :: 0 <= u < |s.thr| ==>
              SendCall(s, t, m).mlog[u] ==
                MsgLog(s.mlog[u].sent + (if TakesIn(s, t, u) then [m] else []), s.mlog[u].taken)
  {
    hide Resched, MakeReady, Unsleep;
    if !BadTid(s, t) && !s.thr[t].hasmsg {
      var s1 := Deposit(s, t, m);
      ReadyLog(s1, t);
      ReadyLog(Unsleep(s1, t), t);
      ReschedLog(MakeReady(s1, t));
      ReschedLog(MakeReady(Unsleep(s1, t), t));
    }
  }

  lemma {:induction false} KillFinishLog(s: State, t: int)
    requires Shape(s) && 0 < t < |s.thr|
    ensures KillFinish(s, t).mlog == s.mlog
  {
    hide Resched, Unsleep, Remove;
    ReadyLog(SetState(s, t, Free), t);
    ReschedLog(SetState(s, t, Free));
  }

  lemma {:induction false} StopLog(s: State, w: int)
    requires Shape(s)
    ensures Resched(SetCall(SetState(s, s.cur, Recv), s.cur, InReceive)).mlog == s.mlog
    ensures Resched(SetCall(SetState(InsertD(s, s.cur, SQ(s), w), s.cur, Tmout), s.cur, InRecvTime)).mlog == s.mlog
  {
    hide Resched, DeltaInsert, DeltaKeys;
    ReschedLog(SetCall(SetState(s, s.cur, Recv), s.cur, InReceive));
    ReschedLog(SetCall(SetState(InsertD(s, s.cur, SQ(s), w), s.cur, Tmout), s.cur, InRecvTime));
  }

  /** A resumed receive has a message, which its caller is answered. */
  predicate ResumedHas(s: State)
    requires Shape(s)
  {
    s.calls[s.cur] == InReceive ==> s.thr[s.cur].hasmsg
  }

  lemma {:induction false} ContinueLog(s: State, t: int)
    requires Inv(s) && ResumedHas(s) && 0 <= t < |s.thr|
    ensures |Continue(s).mlog| == |s.thr|
    ensures Continue(s).mlog[t] == MsgLog(s.mlog[t].sent, s.mlog[t].taken + Answered(s, EvContinue, t))
  {
    hide KillFinish, PlacedIn, Sorted, Running, CountOk;
    if s.calls[s.cur].InKill? {
      KillFinishLog(SetCall(s, s.cur, Idle), s.calls[s.cur].tid);
    }
  }

  lemma {:induction false} ReceiveLog(s: State, t: int, w: int)
    requires Inv(s) && 0 <= t < |s.thr|
    ensures |ReceiveCall(s).mlog| == |RecvTimeCall(s, w).mlog| == |RecvClrCall(s).mlog| == |s.thr|
    ensures ReceiveCall(s).mlog[t] == MsgLog(s.mlog[t].sent, s.mlog[t].taken + Answered(s, EvReceive, t))
    ensures RecvTimeCall(s, w).mlog[t] == MsgLog(s.mlog[t].sent, s.mlog[t].taken + Answered(s, EvRecvTime(w), t))
    ensures RecvClrCall(s).mlog[t] == MsgLog(s.mlog[t].sent, s.mlog[t].taken + Answered(s, EvRecvClr, t))
  {
    hide Resched, InsertD, PlacedIn, Sorted, Running, CountOk;
    StopLog(s, w);
  }

  /** Each step adds to the log of t what t is answered and what is accepted for it. */
  lemma {:induction false} StepLog(s: State, e: Event, t: int)
    requires Inv(s) && Enabled(s, e) && (e.EvContinue? ==> ResumedHas(s)) && 0 <= t < |s.thr|
    ensures |Next(s, e).mlog| == |s.thr|
    ensures Next(s, e).mlog[t] ==
            if Creates(e, t) then MsgLog([], [])
            else MsgLog(s.mlog[t].sent + Accepted(s, e, t), s.mlog[t].taken + Answered(s, e, t))
  {
    hide PlacedIn, Sorted, Running, CountOk, KillCall, SendCall, ReceiveCall, RecvTimeCall, RecvClrCall, Continue;
    hide ResumeCall, SuspendCall, WaitCall, SignalCall, SignalNCall, SemFreeCall, SemCreateCall, SleepCall, ClockCall;
    hide Resched, MakeReady, ChPrioCall, Blocks, SameMail;
    if e.EvSend? {
      SendLog(s, e.tid, e.msg);
    } else if e.EvKill? {
      KillLog(s, e.tid, t);
    } else if e.EvReceive? || e.EvRecvClr? {
      ReceiveLog(s, t, 0);
    } else if e.EvRecvTime? {
      ReceiveLog(s, t, e.maxwait);
    } else if e.EvContinue? {
      ContinueLog(s, t);
    } else if !e.EvCreate? {
      OtherSameMail(s, e);
      SilentLog(s, Next(s, e), e, t);
    }
  }

  lemma {:induction false} SilentLog(s: State, r: State, e: Event, t: int)
    requires Shape(s) && SameMail(s, r) && 0 <= t < |s.thr| && Silent(e)
    ensures |r.mlog| == |s.thr|
    ensures r.mlog[t] == MsgLog(s.mlog[t].sent + Accepted(s, e, t), s.mlog[t].taken + Answered(s, e, t))
  {
  }

  lemma {:induction false} KillLog(s: State, v: int, t: int)
    requires Shape(s) && 0 <= t < |s.thr|
    ensures |KillCall(s, v).mlog| == |s.thr|
    ensures KillCall(s, v).mlog[t] == MsgLog(s.mlog[t].sent + Accepted(s, EvKill(v), t), s.mlog[t].taken)
  {
    hide SendCall;
    if !BadTid(s, v) && v != NULLTHREAD {
      SendLog(SetCall(s, s.cur, InKill(v)), s.thr[v].parent, v);
    }
  }

  // --------------------------------------------------------------------- runs

  lemma {:induction false} BootMail(ss: seq<State>, es: seq<Event>)
    requires FromBoot(ss, es)
    ensures Inv(ss[0]) && Mail(ss[0]) && forall t :: 0 <= t < |ss[0].thr| ==> ss[0].mlog[t] == MsgLog([], [])
  {
    InitInv(|ss[0].thr|, |ss[0].sem|);
    assert forall x :: 0 <= x < |ss[0].thr| ==> MailOk(ss[0], x);
  }

  lemma {:induction false} LogsAreCalls(ss: seq<State>, es: seq<Event>, i: nat, t: int)
    requires FromBoot(ss, es) && i < |ss| && 0 <= t < |ss[0].thr|
    ensures Shape(ss[i]) && |ss[i].thr| == |ss[0].thr|
    ensures ss[i].mlog[t] == MsgLog(Accepts(ss, es, i, t), Answers(ss, es, i, t))
  {
    hide Next, Accepted, Answered, Inv, Mail, InitState;
    BootMail(ss, es);
    BootShape(ss, es);
    if i > 0 {
      LogsAreCalls(ss, es, i - 1, t);
      RunMail(ss, es, i - 1);
      RunMail(ss, es, i);
      InvShape(ss[i]);
      HasWhenResumed(ss[i-1]);
      StepLog(ss[i-1], es[i-1], t);
    }
  }

  lemma {:induction false} BootShape(ss: seq<State>, es: seq<Event>)
    requires FromBoot(ss, es)
    ensures Shape(ss[0])
  {
  }

  lemma {:induction false} InvShape(s: State)
    requires Inv(s)
    ensures Shape(s)
  {
  }

  lemma {:induction false} HasWhenResumed(s: State)
    requires Inv(s) && Mail(s)
    ensures ResumedHas(s)
  {
    assert MailOk(s, s.cur);
  }

  /** In every run from boot, for every live thread: the messages accepted for it
      since it was created are those it was answered, in order, and then the one
      that is pending, if any. */
  lemma {:induction false} AnsweredOnce(ss: seq<State>, es: seq<Event>, i: nat, t: int)
    requires FromBoot(ss, es) && i < |ss| && 0 <= t < |ss[0].thr|
    ensures Shape(ss[i]) && |ss[i].thr| == |ss[0].thr|
    ensures ss[i].thr[t].state != Free ==> Accepts(ss, es, i, t) == Answers(ss, es, i, t) + Slot(ss[i].thr[t])
  {
    hide Next, Accepts, Answers, InitState, PlacedIn, Sorted, Running, CountOk;
    BootMail(ss, es);
    LogsAreCalls(ss, es, i, t);
    RunMail(ss, es, i);
    assert MailOk(ss[i], t);
  }
}
