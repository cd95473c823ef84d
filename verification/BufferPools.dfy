/**
 Buffer pools: any number of threads get buffers from one pool and free them,
 interleaved in any order. Buffers are numbered from 0; the last link that
 bfpalloc writes is the number behind the last buffer.
 */
module BufferPools {
  import opened Counters
  import opened Waiters

  /** Where a thread is: outside, waiting, granted, holding a popped buffer that is
      not yet marked, about to push a buffer, or about to signal. */
  datatype At = Out | GWait | GGo | GMark | FPush | FSig

  /** link and head are the fields next; chain lists the free buffers and live the
      buffers in the hands of users. */
  datatype Pool = Pool(free: Counter, head: int, link: seq<int>, at: seq<At>, arg: seq<int>,
                       chain: seq<int>, live: set<int>)

  function Number(p: Pool, a: At): (n: nat) { multiset(p.at)[a] }

  datatype Step =
    | GetWait(t: nat) | Pop(t: nat) | Mark(t: nat)
    | FreeTest(t: nat, b: int) | Push(t: nat) | FreeSignal(t: nat)

  /** Thread t has taken buffer b out of the chain, or is about to put it back. */
  predicate Owns(p: Pool, t: nat, b: int)
    requires t < |p.at| == |p.arg|
  {
    (p.at[t] == GMark || p.at[t] == FPush) && p.arg[t] == b
  }

  /** What buffree asks of its callers: a buffer is not freed by two at once. */
  predicate NotBeingFreed(p: Pool, b: int)
    requires |p.at| == |p.arg|
  {
    forall t :: 0 <= t < |p.at| ==> !(p.at[t] == FPush && p.arg[t] == b)
  }

  predicate Enabled(p: Pool, e: Step) {
    && e.t < |p.at| == |p.arg|
    && match e
       case GetWait(t) => p.at[t] == Out
       case Pop(t) => p.at[t] == GGo
       case Mark(t) => p.at[t] == GMark
       case FreeTest(t, b) => p.at[t] == Out && 0 <= b < |p.link| && NotBeingFreed(p, b)
       case Push(t) => p.at[t] == FPush
       case FreeSignal(t) => p.at[t] == FSig
  }

  function Popped(p: Pool, t: nat): (q: Pool)
    requires t < |p.at| == |p.arg|
  {
    if !(0 <= p.head < |p.link|) then p else
      p.(head := p.link[p.head], arg := p.arg[t := p.head], at := p.at[t := GMark],
         chain := if p.chain == [] then [] else p.chain[1..])
  }

  function Marked(p: Pool, t: nat): (q: Pool)
    requires t < |p.at| == |p.arg|
  {
    var b := p.arg[t];
    if !(0 <= b < |p.link|) then p else p.(link := p.link[b := b], at := p.at[t := Out], live := p.live + {b})
  }

  /** buffree refuses a buffer that is not marked as handed out. */
  function Tested(p: Pool, t: nat, b: int): (q: Pool)
    requires t < |p.at| == |p.arg|
  {
    if !(0 <= b < |p.link|) || p.link[b] != b then p
    else p.(at := p.at[t := FPush], arg := p.arg[t := b], live := p.live - {b})
  }

  function Pushed(p: Pool, t: nat): (q: Pool)
    requires t < |p.at| == |p.arg|
  {
    var b := p.arg[t];
    if !(0 <= b < |p.link|) then p else
      p.(link := p.link[b := p.head], head := b, at := p.at[t := FSig], chain := [b] + p.chain)
  }

  function Next(p: Pool, e: Step): (q: Pool)
    requires Enabled(p, e)
  {
    match e
    case GetWait(t) => p.(free := P(p.free, t), at := p.at[t := if p.free.count > 0 then GGo else GWait])
    case Pop(t) => Popped(p, t)
    case Mark(t) => Marked(p, t)
    case FreeTest(t, b) => Tested(p, t, b)
    case Push(t) => Pushed(p, t)
    case FreeSignal(t) => p.(free := V(p.free), at := Wake(p.at[t := Out], p.free, GGo))
  }

  // ------------------------------------------------------------------ invariant

  ghost predicate Follows(link: seq<int>, f: seq<int>) {
    && (forall i :: 0 <= i < |f| - 1 ==> 0 <= f[i] < |link|)
    && (forall i, j :: 0 <= i < |f| && 0 <= j < |f| && j == i + 1 ==> link[f[i]] == f[j])
    && (forall i, j :: 0 <= i < j < |f| ==> f[i] != f[j])
  }

  /** The links run through the chain and end behind the last buffer. */
  ghost predicate Chained(link: seq<int>, head: int, chain: seq<int>) {
    var f := chain + [|link|];
    head == f[0] && Follows(link, f)
  }

  /** Every buffer is in the chain, live, or in the hands of exactly one thread. */
  ghost predicate Placed(p: Pool)
    requires |p.at| == |p.arg|
  {
    && (forall b :: b in p.live ==> 0 <= b < |p.link| && p.link[b] == b && b !in p.chain)
    && (forall t, b :: 0 <= t < |p.at| && Owns(p, t, b) ==>
          0 <= b < |p.link| && b !in p.chain && b !in p.live && (p.link[b] == b <==> p.at[t] == FPush))
    && (forall t, u, b :: 0 <= t < |p.at| && 0 <= u < |p.at| && Owns(p, t, b) && Owns(p, u, b) ==> t == u)
    && (forall b :: 0 <= b < |p.link| ==> b in p.chain || b in p.live || exists t :: 0 <= t < |p.at| && Owns(p, t, b))
  }

  ghost predicate Inv(p: Pool) {
    && |p.arg| == |p.at| && Waiting(p.free, p.at, GWait)
    && |p.chain| == Avail(p.free) + Number(p, GGo) + Number(p, FSig)
    && Chained(p.link, p.head, p.chain) && Placed(p)
  }

  lemma {:induction false} PopChained(link: seq<int>, head: int, chain: seq<int>)
    requires Chained(link, head, chain) && chain != []
    ensures 0 <= head < |link| && head !in chain[1..] && link[head] != head && Chained(link, link[head], chain[1..])
    ensures forall b :: b in chain <==> b == head || b in chain[1..]
  {
    var f, g := chain + [|link|], chain[1..] + [|link|];
    assert g == f[1..] && chain == [head] + chain[1..];
    assert f[0] == head && f[1] == link[head];
    assert forall i :: 0 <= i < |chain| - 1 ==> chain[1..][i] == f[i+1];
  }

  lemma {:induction false} PushChained(link: seq<int>, head: int, chain: seq<int>, b: int)
    requires Chained(link, head, chain) && 0 <= b < |link| && b !in chain
    ensures Chained(link[b := head], b, [b] + chain)
  {
    var f, g := chain + [|link|], [b] + chain + [|link|];
    assert g == [b] + f && forall i :: 0 < i < |g| ==> g[i] == f[i-1];
    assert forall i :: 0 <= i < |chain| ==> f[i] == chain[i] != b;
  }

  lemma {:induction false} MarkChained(link: seq<int>, head: int, chain: seq<int>, b: int)
    requires Chained(link, head, chain) && 0 <= b < |link| && b !in chain
    ensures Chained(link[b := b], head, chain)
  {
    var f := chain + [|link|];
    assert forall i :: 0 <= i < |chain| ==> f[i] == chain[i] != b;
  }

  /** Buffers in the chain are never marked as handed out. */
  lemma {:induction false} ChainNotMarked(link: seq<int>, head: int, chain: seq<int>, b: int)
    requires Chained(link, head, chain) && b in chain
    ensures 0 <= b < |link| && link[b] != b
  {
    var f := chain + [|link|];
    var i :| 0 <= i < |chain| && chain[i] == b;
    assert f[i] == b && link[f[i]] == f[i+1];
  }

  // ---------------------------------------------------------------------- steps

  predicate Holding(a: At) { a == GMark || a == FPush }

  /** Moves between places where no buffer is held. */
  lemma {:induction false} PlacedMove(p: Pool, q: Pool)
    requires |p.at| == |p.arg| == |q.at| && Placed(p)
    requires q == p.(at := q.at, free := q.free)
    requires forall t :: 0 <= t < |p.at| ==> q.at[t] == p.at[t] || (!Holding(p.at[t]) && !Holding(q.at[t]))
    ensures Placed(q)
  {
    assert forall t, b :: 0 <= t < |p.at| ==> (Owns(q, t, b) <==> Owns(p, t, b));
    forall b | 0 <= b < |p.link| ensures b in q.chain || b in q.live || exists t :: 0 <= t < |q.at| && Owns(q, t, b) {
      if b !in p.chain && b !in p.live {
        var t :| 0 <= t < |p.at| && Owns(p, t, b);
        assert Owns(q, t, b);
      }
    }
  }

  lemma {:induction false} GetWaitInv(p: Pool, t: nat)
    requires Inv(p) && Enabled(p, GetWait(t))
    ensures Inv(Next(p, GetWait(t)))
  {
    hide Chained, Waiting, Balanced, Placed;
    PWaits(p.free, p.at, t, GWait, GGo);
    PlacedMove(p, Next(p, GetWait(t)));
  }

  lemma {:induction false} FreeSignalInv(p: Pool, t: nat)
    requires Inv(p) && Enabled(p, FreeSignal(t))
    ensures Inv(Next(p, FreeSignal(t)))
  {
    hide Chained, Balanced, Placed;
    OthersWait(p.free, p.at, t, Out, GWait);
    VWaits(p.free, p.at[t := Out], GWait, GGo);
    PlacedMove(p, Next(p, FreeSignal(t)));
  }

  lemma {:induction false} PoppedPlaced(p: Pool, t: nat)
    requires |p.at| == |p.arg| && t < |p.at| && p.at[t] == GGo && Placed(p) && Chained(p.link, p.head, p.chain) && p.chain != []
    ensures Placed(Popped(p, t))
  {
    hide Chained;
    PopChained(p.link, p.head, p.chain);
    var q := Popped(p, t);
    assert forall u, b :: 0 <= u < |p.at| && u != t ==> (Owns(q, u, b) <==> Owns(p, u, b));
    assert Owns(q, t, p.head) && p.head in p.chain;
    forall b | 0 <= b < |p.link| ensures b in q.chain || b in q.live || exists u :: 0 <= u < |q.at| && Owns(q, u, b) {
      if b !in p.chain && b !in p.live {
        var u :| 0 <= u < |p.at| && Owns(p, u, b);
        assert Owns(q, u, b);
      }
    }
  }

  /** A granted thread finds a buffer: the link behind the last is never taken. */
  lemma {:induction false} PopInv(p: Pool, t: nat)
    requires Inv(p) && Enabled(p, Pop(t))
    ensures p.chain != [] && 0 <= p.head < |p.link| && Inv(Next(p, Pop(t)))
  {
    hide Chained, Waiting, Placed;
    Present(p.at, t);
    PopChained(p.link, p.head, p.chain);
    PoppedPlaced(p, t);
    OthersWait(p.free, p.at, t, GMark, GWait);
  }

  lemma {:induction false} MarkedPlaced(p: Pool, t: nat)
    requires |p.at| == |p.arg| && t < |p.at| && p.at[t] == GMark && Placed(p)
    ensures 0 <= p.arg[t] < |p.link| && p.arg[t] !in p.live && p.arg[t] !in p.chain && Placed(Marked(p, t))
  {
    var q, x := Marked(p, t), p.arg[t];
    assert Owns(p, t, x);
    assert forall u, b :: 0 <= u < |p.at| && u != t ==> (Owns(q, u, b) <==> Owns(p, u, b));
    forall b | 0 <= b < |p.link| ensures b in q.chain || b in q.live || exists u :: 0 <= u < |q.at| && Owns(q, u, b) {
      if b !in p.chain && b !in p.live && b != x {
        var u :| 0 <= u < |p.at| && Owns(p, u, b);
        assert Owns(q, u, b);
      }
    }
  }

  /** The buffer handed out is not in anybody's hands already. */
  lemma {:induction false} MarkInv(p: Pool, t: nat)
    requires Inv(p) && Enabled(p, Mark(t))
    ensures 0 <= p.arg[t] < |p.link| && p.arg[t] !in p.live && Inv(Next(p, Mark(t)))
  {
    hide Chained, Waiting, Placed;
    MarkedPlaced(p, t);
    MarkChained(p.link, p.head, p.chain, p.arg[t]);
    OthersWait(p.free, p.at, t, Out, GWait);
  }

  /** A marked buffer is live, or some thread is already freeing it. */
  lemma {:induction false} MarkedIsLive(p: Pool, b: int)
    requires Inv(p) && 0 <= b < |p.link|
    ensures p.link[b] == b <==> b in p.live || !NotBeingFreed(p, b)
  {
    if b in p.chain { ChainNotMarked(p.link, p.head, p.chain, b); }
    if b !in p.chain && b !in p.live {
      var t :| 0 <= t < |p.at| && Owns(p, t, b);
      if !NotBeingFreed(p, b) {
        var u :| 0 <= u < |p.at| && p.at[u] == FPush && p.arg[u] == b;
        assert Owns(p, u, b);
      }
    } else if !NotBeingFreed(p, b) {
      var u :| 0 <= u < |p.at| && p.at[u] == FPush && p.arg[u] == b;
      assert Owns(p, u, b);
    }
  }

  lemma {:induction false} TestedPlaced(p: Pool, t: nat, b: int)
    requires |p.at| == |p.arg| && t < |p.at| && p.at[t] == Out && Placed(p) && b in p.live
    ensures Placed(Tested(p, t, b))
  {
    var q := Tested(p, t, b);
    assert forall u, x :: 0 <= u < |p.at| && u != t ==> (Owns(q, u, x) <==> Owns(p, u, x));
    assert Owns(q, t, b);
    forall x | 0 <= x < |p.link| ensures x in q.chain || x in q.live || exists u :: 0 <= u < |q.at| && Owns(q, u, x) {
      if x !in p.chain && x !in p.live {
        var u :| 0 <= u < |p.at| && Owns(p, u, x);
        assert Owns(q, u, x);
      }
    }
  }

  /** buffree accepts exactly the live buffers. */
  lemma {:induction false} FreeTestInv(p: Pool, t: nat, b: int)
    requires Inv(p) && Enabled(p, FreeTest(t, b))
    ensures Next(p, FreeTest(t, b)) != p <==> b in p.live
    ensures Inv(Next(p, FreeTest(t, b)))
  {
    hide Chained, Waiting, Placed;
    MarkedIsLive(p, b);
    if b in p.live {
      TestedPlaced(p, t, b);
      OthersWait(p.free, p.at, t, FPush, GWait);
    }
  }

  lemma {:induction false} PushedPlaced(p: Pool, t: nat)
    requires |p.at| == |p.arg| && t < |p.at| && p.at[t] == FPush && Placed(p) && 0 <= p.head <= |p.link| && p.head != p.arg[t]
    ensures 0 <= p.arg[t] < |p.link| && p.arg[t] !in p.chain && Placed(Pushed(p, t))
  {
    var q, x := Pushed(p, t), p.arg[t];
    assert Owns(p, t, x);
    assert forall u, b :: 0 <= u < |p.at| && u != t ==> (Owns(q, u, b) <==> Owns(p, u, b));
    assert forall b :: b in q.chain <==> b == x || b in p.chain;
    forall b | 0 <= b < |p.link| ensures b in q.chain || b in q.live || exists u :: 0 <= u < |q.at| && Owns(q, u, b) {
      if b !in p.chain && b !in p.live && b != x {
        var u :| 0 <= u < |p.at| && Owns(p, u, b);
        assert Owns(q, u, b);
      }
    }
  }

  lemma {:induction false} HeadInChain(p: Pool)
    requires Chained(p.link, p.head, p.chain)
    ensures p.head == |p.link| || (0 <= p.head < |p.link| && p.head in p.chain)
  {
    if p.chain != [] { PopChained(p.link, p.head, p.chain); }
  }

  lemma {:induction false} PushInv(p: Pool, t: nat)
    requires Inv(p) && Enabled(p, Push(t))
    ensures Inv(Next(p, Push(t)))
  {
    hide Chained, Waiting;
    HeadInChain(p);
    assert Owns(p, t, p.arg[t]);
    PushedPlaced(p, t);
    PushChained(p.link, p.head, p.chain, p.arg[t]);
    OthersWait(p.free, p.at, t, FSig, GWait);
  }

  lemma {:induction false} StepInv(p: Pool, e: Step)
    requires Inv(p) && Enabled(p, e)
    ensures Inv(Next(p, e))
  {
    hide Inv, Next, NotBeingFreed;
    match e
    case GetWait(t) => GetWaitInv(p, t);
    case Pop(t) => PopInv(p, t);
    case Mark(t) => MarkInv(p, t);
    case FreeTest(t, b) => FreeTestInv(p, t, b);
    case Push(t) => PushInv(p, t);
    case FreeSignal(t) => FreeSignalInv(p, t);
  }

  /** What buffree needs of its callers is exactly what Enabled asks: if another
      thread is between the test and the push, the buffer gets two owners. */
  lemma {:induction false} FreedByTwo(p: Pool, t: nat, b: int)
    requires Inv(p) && t < |p.at| && p.at[t] == Out && 0 <= b < |p.link|
    ensures Inv(Tested(p, t, b)) <==> NotBeingFreed(p, b)
  {
    MarkedIsLive(p, b);
    if NotBeingFreed(p, b) {
      FreeTestInv(p, t, b);
      assert Next(p, FreeTest(t, b)) == Tested(p, t, b);
    } else {
      var q := Tested(p, t, b);
      var u :| 0 <= u < |p.at| && p.at[u] == FPush && p.arg[u] == b;
      assert Owns(q, u, b) && Owns(q, t, b);
    }
  }

  /** The threads vs pop one after the other. */
  function Pops(p: Pool, vs: seq<nat>): (q: Pool)
    requires |p.at| == |p.arg| && forall i :: 0 <= i < |vs| ==> vs[i] < |p.at|
    ensures |q.at| == |q.arg| == |p.at|
  {
    if vs == [] then p else Popped(Pops(p, vs[..|vs|-1]), vs[|vs|-1])
  }

  lemma {:induction false} PopsSame(p: Pool, b: int, vs: seq<nat>)
    requires |p.at| == |p.arg| && forall i :: 0 <= i < |vs| ==> vs[i] < |p.at|
    requires p.head == b && 0 <= b < |p.link| && p.link[b] == b
    ensures Pops(p, vs).head == b && Pops(p, vs).link == p.link
    ensures vs != [] ==> Pops(p, vs).arg[vs[|vs|-1]] == b
  {
    if vs != [] {
      PopsSame(p, b, vs[..|vs|-1]);
    }
  }

  /** And what comes of it: when both have pushed, the buffer is first and links
      to itself, so each pop from then on takes it, however many there are. */
  lemma {:induction false} FreedTwice(p: Pool, t: nat, u: nat, b: int, vs: seq<nat>)
    requires t < |p.at| == |p.arg| && u < |p.at| && t != u && vs != [] && forall i :: 0 <= i < |vs| ==> vs[i] < |p.at|
    requires 0 <= b < |p.link| && p.link[b] == b
    ensures var q := Pushed(Pushed(Tested(Tested(p, t, b), u, b), t), u);
            && q.head == b && q.link[b] == b && q.chain[..2] == [b, b]
            && Pops(q, vs).arg[vs[|vs|-1]] == b
  {
    var q := Pushed(Pushed(Tested(Tested(p, t, b), u, b), t), u);
    assert q.chain == [b] + ([b] + p.chain);
    PopsSame(q, b, vs);
  }

  // ----------------------------------------------------------------------- runs

  /** The pool that bfpalloc leaves, used by n threads. */
  function Alloc(nbuf: nat, n: nat): (p: Pool) {
    Pool(Counter(nbuf, []), 0, seq(nbuf, i => i + 1), seq(n, _ => Out), seq(n, _ => 0), seq(nbuf, i => i), {})
  }

  lemma {:induction false} AllocInv(nbuf: nat, n: nat)
    requires nbuf > 0
    ensures Inv(Alloc(nbuf, n))
  {
    var p := Alloc(nbuf, n);
    assert forall a :: a != Out ==> a !in p.at;
    forall b | 0 <= b < nbuf ensures b in p.chain { assert p.chain[b] == b; }
  }

  ghost predicate IsRun(ps: seq<Pool>, es: seq<Step>) {
    && |ps| == |es| + 1
    && (forall i :: 0 <= i < |es| ==> Enabled(ps[i], es[i]))
    && (forall i :: 0 <= i < |es| ==> ps[i+1] == Next(ps[i], es[i]))
  }

  lemma {:induction false} RunInv(ps: seq<Pool>, es: seq<Step>, nbuf: nat, i: nat)
    requires IsRun(ps, es) && nbuf > 0 && i < |ps| && ps[0] == Alloc(nbuf, |ps[0].at|)
    ensures Inv(ps[i]) && |ps[i].link| == nbuf
  {
    hide Inv;
    if i == 0 {
      AllocInv(nbuf, |ps[0].at|);
    } else {
      RunInv(ps, es, nbuf, i - 1);
      StepInv(ps[i-1], es[i-1]);
    }
  }

  /** In every run: a buffer handed out is not live already, a pop never takes the
      link behind the last buffer, and the chain is as long as the positive count,
      the granted threads and the frees not yet signalled together. */
  lemma {:induction false} HandsOutOnce(ps: seq<Pool>, es: seq<Step>, nbuf: nat, i: nat)
    requires IsRun(ps, es) && nbuf > 0 && i < |ps| && ps[0] == Alloc(nbuf, |ps[0].at|)
    ensures |ps[i].chain| == Avail(ps[i].free) + Number(ps[i], GGo) + Number(ps[i], FSig)
    ensures i < |es| && es[i].Pop? ==> 0 <= ps[i].head < nbuf && ps[i].head !in ps[i].live
    ensures i < |es| && es[i].Mark? ==> var b := ps[i].arg[es[i].t];
              0 <= b < nbuf && b !in ps[i].live && Next(ps[i], es[i]).live == ps[i].live + {b}
  {
    RunInv(ps, es, nbuf, i);
    if i < |es| && es[i].Pop? {
      PopInv(ps[i], es[i].t);
      HeadInChain(ps[i]);
    }
    if i < |es| && es[i].Mark? { MarkInv(ps[i], es[i].t); }
  }

  /** No wake-up is lost in any run: a thread waits only while every free buffer is spoken for. */
  lemma {:induction false} NoLostWakeup(ps: seq<Pool>, es: seq<Step>, nbuf: nat, i: nat)
    requires IsRun(ps, es) && nbuf > 0 && i < |ps| && ps[0] == Alloc(nbuf, |ps[0].at|) && GWait in ps[i].at
    ensures |ps[i].chain| == Number(ps[i], GGo) + Number(ps[i], FSig)
  {
    RunInv(ps, es, nbuf, i);
  }

  // ------------------------------------------------------------ the pool itself

  const WORD := 0x1_0000_0000

  /** roundword and the space for the accounting structure, in 32 bits. */
  function BufferSize(b: int): (n: int) {
    ((b + 3) % WORD / 4 * 4 + 8) % WORD
  }

  predicate Acceptable(bufsize: int, nbuf: int) {
    8 <= BufferSize(bufsize) <= 2048 && 1 <= nbuf <= 8192
  }

  /** The sizes accepted are those up to 2040, and three that wrap around to a
      buffer without any room. */
  lemma {:induction false} AcceptableExactly(b: int, nbuf: int)
    requires 0 <= b < WORD && 1 <= nbuf <= 8192
    ensures Acceptable(b, nbuf) <==> b <= 2040 || b >= WORD - 3
    ensures Acceptable(b, nbuf) ==> (BufferSize(b) - 8 >= b <==> b <= 2040)
  {
    var n := (b + 3) % WORD / 4 * 4;
    assert b < WORD - 3 ==> b <= n <= b + 3 < WORD;
    assert b >= WORD - 3 ==> n == 0;
  }

  class BufferPool {
    const link: array<int>
    var head: int

    ghost predicate Matches(p: Pool)
      reads this, link
    {
      link[..] == p.link && head == p.head
    }

    /** bfpalloc, once its arguments are accepted and memory was found. */
    constructor (nbuf: nat, ghost n: nat)
      ensures fresh(link) && Matches(Alloc(nbuf, n))
    {
      link := new int[nbuf];
      head := 0;
      new;
      for buffer := 0 to nbuf
        modifies link
        invariant forall i :: 0 <= i < buffer ==> link[i] == i + 1
      {
        link[buffer] := buffer + 1;
      }
    }

    /** bufget behind its wait, up to restoring interrupts. */
    method TakeFirst(ghost p: Pool, ghost t: nat) returns (b: int)
      requires Matches(p) && Inv(p) && Enabled(p, Pop(t))
      modifies this
      ensures Matches(Next(p, Pop(t))) && b == Next(p, Pop(t)).arg[t]
    {
      hide Chained, Waiting, Placed;
      PopInv(p, t);
      b := head;
      head := link[b];
    }

    method MarkTaken(b: int, ghost p: Pool, ghost t: nat)
      requires Matches(p) && Inv(p) && Enabled(p, Mark(t)) && b == p.arg[t]
      modifies link
      ensures Matches(Next(p, Mark(t)))
    {
      hide Chained, Waiting, Placed;
      MarkInv(p, t);
      link[b] := b;
    }

    /** buffree's test. */
    method IsTaken(b: int, ghost p: Pool) returns (taken: bool)
      requires Matches(p) && Inv(p) && 0 <= b < link.Length
      ensures taken <==> b in p.live || !NotBeingFreed(p, b)
    {
      MarkedIsLive(p, b);
      taken := link[b] == b;
    }

    method PutFirst(b: int, ghost p: Pool, ghost t: nat)
      requires Matches(p) && Inv(p) && Enabled(p, Push(t)) && b == p.arg[t]
      modifies this, link
      ensures Matches(Next(p, Push(t)))
    {
      hide Chained, Waiting;
      assert Owns(p, t, b);
      link[b] := head;
      head := b;
    }
  }
}
