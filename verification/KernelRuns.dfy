/**
 Runs of the kernel from the state that sysinit builds, and what holds in every
 state they reach.
 */
module KernelRuns {
  import opened ThreadLists
  import opened KernelState
  import opened KernelInv
  import opened KernelSteps

  /** The tables after sysinit: only the null thread exists, and it runs. */
  function InitState(nthread: nat, nsem: nat): (s: State)
    requires nthread > 0
    ensures Shape(s)
  {
    var none := Thread(Free, 0, 0, 0, 0, false);
    State(seq(nthread, _ => none)[NULLTHREAD := none.(state := Curr)],
          seq(nsem, k requires 0 <= k => Semaphore(false, 0, nthread + 2 * k)),
          seq(nsem + 2, _ => []), seq(nthread, _ => 0), NULLTHREAD, 0, seq(nthread, _ => Idle),
          0, seq(nsem, _ => SemLog(0, 0, 0, 0, [], [])), seq(nthread, _ => MsgLog([], [])))
  }

  lemma {:induction false} InitInv(nthread: nat, nsem: nat)
    requires nthread > 0
    ensures Inv(InitState(nthread, nsem))
  {
    var s := InitState(nthread, nsem);
    assert forall k :: 0 <= k < nsem ==> CountOk(s, k);
  }

  /** ss[i] is the state before event es[i], ss[i+1] the state after it. */
  ghost predicate IsRun(ss: seq<State>, es: seq<Event>) {
    && |ss| == |es| + 1
    && forall i :: 0 <= i < |es| && Shape(ss[i]) ==> Enabled(ss[i], es[i]) && ss[i+1] == Next(ss[i], es[i])
  }

  ghost predicate FromBoot(ss: seq<State>, es: seq<Event>) {
    IsRun(ss, es) && |ss[0].thr| > 0 && ss[0] == InitState(|ss[0].thr|, |ss[0].sem|)
  }

  lemma {:induction false} RunInv(ss: seq<State>, es: seq<Event>, i: nat)
    requires IsRun(ss, es) && Inv(ss[0]) && i < |ss|
    ensures Inv(ss[i])
  {
    if i > 0 {
      RunInv(ss, es, i - 1);
      StepKeeps(ss[i-1], es[i-1]);
    }
  }

  /** In every state reached from boot each thread is on exactly the queue its
      state names, no queue holds a thread twice, and one thread runs. */
  lemma {:induction false} BootedQueues(ss: seq<State>, es: seq<Event>, i: nat, t: int)
    requires FromBoot(ss, es) && i < |ss| && 0 <= t < |ss[i].thr|
    ensures Shape(ss[i])
    ensures var s := ss[i]; var st := s.thr[t].state;
            && (t in s.lists[RQ(s)] <==> st == Ready)
            && (t in s.lists[SQ(s)] <==> st == Sleep || st == Tmout)
            && (forall k :: 0 <= k < |s.sem| ==> (t in s.lists[k] <==> st == Wait && s.thr[t].sem == k))
            && (st == Curr <==> t == s.cur)
            && (forall j :: 0 <= j < |s.lists| ==> NoDup(s.lists[j]))
  {
    InitInv(|ss[0].thr|, |ss[0].sem|);
    RunInv(ss, es, i);
  }

  /** The null thread can always be dispatched, so dequeue in resched always
      finds a thread, at whatever point of whichever call resched is reached. */
  lemma {:induction false} BootedNullThread(ss: seq<State>, es: seq<Event>, i: nat)
    requires FromBoot(ss, es) && i < |ss|
    ensures Shape(ss[i])
    ensures var s := ss[i];
            && (s.thr[NULLTHREAD].state == Curr || s.thr[NULLTHREAD].state == Ready)
            && (s.cur != NULLTHREAD ==> s.lists[RQ(s)] != [])
            && 0 <= s.cur < |s.thr|
  {
    InitInv(|ss[0].thr|, |ss[0].sem|);
    RunInv(ss, es, i);
    assert ss[i].thr[NULLTHREAD].state == Ready ==> NULLTHREAD in ss[i].lists[RQ(ss[i])];
  }
}
