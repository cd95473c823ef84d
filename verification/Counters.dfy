/**
 A semaphore as its clients see it: a count and a first-in first-out queue of the
 threads that wait. The kernel's wait and signal act on it as these two steps.
 */
module Counters {
  import K = KernelState
  import KernelInv
  import KernelSteps

  datatype Counter = Counter(count: int, queue: seq<int>)

  /** The threads that wait are as many as the count is below zero. */
  predicate Balanced(c: Counter) {
    |c.queue| == if c.count < 0 then -c.count else 0
  }

  function Avail(c: Counter): (n: nat) {
    if c.count > 0 then c.count else 0
  }

  function P(c: Counter, t: int): (d: Counter) {
    Counter(c.count - 1, if c.count <= 0 then c.queue + [t] else c.queue)
  }

  function V(c: Counter): (d: Counter) {
    Counter(c.count + 1, if c.count < 0 && c.queue != [] then c.queue[1..] else c.queue)
  }

  lemma {:induction false} PKeeps(c: Counter, t: int)
    requires Balanced(c)
    ensures Balanced(P(c, t))
    ensures Avail(P(c, t)) == if c.count > 0 then Avail(c) - 1 else Avail(c)
  {
  }

  lemma {:induction false} VKeeps(c: Counter)
    requires Balanced(c)
    ensures Balanced(V(c))
    ensures Avail(V(c)) == if c.queue == [] then Avail(c) + 1 else Avail(c)
  {
  }

  /** Semaphore k of the kernel. */
  function Of(s: K.State, k: int): (c: Counter)
    requires K.Shape(s) && 0 <= k < |s.sem|
  {
    Counter(s.sem[k].count, s.lists[k])
  }

  lemma {:induction false} WaitIsP(s: K.State, k: int)
    requires KernelInv.Inv(s) && (K.Blocks(s, K.EvWait(k)) ==> s.cur != K.NULLTHREAD) && !K.BadSem(s, k)
    ensures K.Shape(K.WaitCall(s, k)) && |K.WaitCall(s, k).sem| == |s.sem|
    ensures Balanced(Of(s, k)) && Of(K.WaitCall(s, k), k) == P(Of(s, k), s.cur)
  {
    assert KernelInv.CountOk(s, k);
    KernelSteps.WaitKeeps(s, k);
    var s1 := K.CountDown(s, k);
    if s1.sem[k].count < 0 {
      KernelSteps.CountDownKeeps(s, k);
      KernelSteps.BlockKeeps(s1, k);
      KernelInv.ReschedKeeps(K.Block(s1, k));
    }
  }

  lemma {:induction false} SignalOneIsV(s: K.State, k: int)
    requires KernelInv.Base(s, -1) && KernelInv.Counts(s) && !K.BadSem(s, k)
    ensures Of(K.SignalOne(s, k), k) == V(Of(s, k))
  {
    hide K.Release;
    assert KernelInv.CountOk(s, k);
    if s.sem[k].count < 0 {
      KernelSteps.CountUpKeeps(s, k);
      KernelSteps.ReleaseKeeps(K.CountUp(s, k), k);
    }
  }

  lemma {:induction false} SignalIsV(s: K.State, k: int)
    requires KernelInv.Inv(s) && !K.BadSem(s, k)
    ensures K.Shape(K.SignalCall(s, k)) && |K.SignalCall(s, k).sem| == |s.sem|
    ensures Of(K.SignalCall(s, k), k) == V(Of(s, k))
  {
    hide K.SignalOne, K.Resched, KernelInv.Running;
    SignalOneIsV(s, k);
    KernelSteps.SignalOneKeeps(s, k);
    KernelInv.ReschedKeeps(K.SignalOne(s, k));
  }
}
