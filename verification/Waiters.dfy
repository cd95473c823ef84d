/**
 Threads with a place in a protocol, some of them waiting on semaphores. A is the
 type of places; w stands for waiting on a semaphore, g for having been granted it.
 */
module Waiters {
  import opened Counters

  /** The queue of the semaphore holds exactly the threads that wait on it. */
  ghost predicate Waiting<A>(c: Counter, at: seq<A>, w: A) {
    && Balanced(c) && multiset(at)[w] == |c.queue|
    && (forall i :: 0 <= i < |c.queue| ==> 0 <= c.queue[i] < |at| && at[c.queue[i]] == w)
    && (forall i, j :: 0 <= i < j < |c.queue| ==> c.queue[i] != c.queue[j])
  }

  /** The thread that a signal lets go on moves from its wait to its grant. */
  function Wake<A>(at: seq<A>, c: Counter, g: A): (r: seq<A>) {
    if c.count < 0 && c.queue != [] && 0 <= c.queue[0] < |at| then at[c.queue[0] := g] else at
  }

  lemma {:induction false} Present<A>(at: seq<A>, t: nat)
    requires t < |at|
    ensures multiset(at)[at[t]] > 0
  {
    assert at[t] in multiset(at);
  }

  lemma {:induction false} OthersWait<A>(c: Counter, at: seq<A>, t: nat, a: A, w: A)
    requires Waiting(c, at, w) && t < |at| && at[t] != w && a != w
    ensures Waiting(c, at[t := a], w)
  {
  }

  lemma {:induction false} PWaits<A>(c: Counter, at: seq<A>, t: nat, w: A, g: A)
    requires Waiting(c, at, w) && t < |at| && at[t] != w && g != w
    ensures Waiting(P(c, t), at[t := if c.count > 0 then g else w], w)
    ensures Avail(P(c, t)) == if c.count > 0 then Avail(c) - 1 else Avail(c)
  {
    PKeeps(c, t);
  }

  lemma {:induction false} VWaits<A>(c: Counter, at: seq<A>, w: A, g: A)
    requires Waiting(c, at, w) && g != w
    ensures Waiting(V(c), Wake(at, c, g), w)
    ensures |Wake(at, c, g)| == |at|
    ensures Avail(V(c)) + multiset(Wake(at, c, g))[g] == Avail(c) + multiset(at)[g] + 1
    ensures forall a :: a != w && a != g ==> multiset(Wake(at, c, g))[a] == multiset(at)[a]
  {
    VKeeps(c);
  }

  lemma {:induction false} WakeOthers<A>(c: Counter, at: seq<A>, w: A, g: A, d: Counter, v: A)
    requires Waiting(c, at, w) && Waiting(d, at, v) && v != w && v != g
    ensures Waiting(d, Wake(at, c, g), v)
  {
    if c.count < 0 {
      OthersWait(d, at, c.queue[0], g, v);
    }
  }
}
