/**
 Mailboxes: any number of threads send to and receive from one mailbox, each at
 its own place in mailboxSend or mailboxReceive, interleaved in any order.
 */
module Mailboxes {
  import opened Counters
  import opened Waiters

  /** Where a thread is: outside, waiting for its semaphore, granted but not yet
      at the ring, or done with the ring but not yet at the signal. */
  datatype At = Out | SWait | SGo | SSig | RWait | RGo | RSig

  /** at[t] and arg[t] are the place of thread t and the message it sends; stored
      and received record the messages in the order of the ring operations. */
  datatype Box = Box(sender: Counter, receiver: Counter, msgs: seq<int>, start: int, count: int,
                     at: seq<At>, arg: seq<int>, stored: seq<int>, received: seq<int>)

  function Number(b: Box, a: At): (n: nat) { multiset(b.at)[a] }

  datatype Step =
    | SendWait(t: nat, m: int) | Store(t: nat) | SendSignal(t: nat)
    | RecvWait(t: nat) | Take(t: nat) | RecvSignal(t: nat)

  predicate Enabled(b: Box, e: Step) {
    && e.t < |b.at| == |b.arg|
    && match e
       case SendWait(t, m) => b.at[t] == Out
       case Store(t) => b.at[t] == SGo
       case SendSignal(t) => b.at[t] == SSig
       case RecvWait(t) => b.at[t] == Out
       case Take(t) => b.at[t] == RGo
       case RecvSignal(t) => b.at[t] == RSig
  }

  /** Writing behind the last message of the ring. */
  function RingStore(b: Box, m: int): (c: Box) {
    if |b.msgs| == 0 then b else
      b.(msgs := b.msgs[(b.start + b.count) % |b.msgs| := m], count := b.count + 1, stored := b.stored + [m])
  }

  /** Reading the first message of the ring. */
  function RingTake(b: Box): (c: Box) {
    if !(0 <= b.start < |b.msgs|) then b else
      b.(start := (b.start + 1) % |b.msgs|, count := b.count - 1, received := b.received + [b.msgs[b.start]])
  }

  function Next(b: Box, e: Step): (c: Box)
    requires Enabled(b, e)
  {
    match e
    case SendWait(t, m) =>
      b.(sender := P(b.sender, t), at := b.at[t := if b.sender.count > 0 then SGo else SWait], arg := b.arg[t := m])
    case Store(t) => RingStore(b, b.arg[t]).(at := b.at[t := SSig])
    case SendSignal(t) => b.(receiver := V(b.receiver), at := Wake(b.at[t := Out], b.receiver, RGo))
    case RecvWait(t) =>
      b.(receiver := P(b.receiver, t), at := b.at[t := if b.receiver.count > 0 then RGo else RWait])
    case Take(t) => RingTake(b).(at := b.at[t := RSig])
    case RecvSignal(t) => b.(sender := V(b.sender), at := Wake(b.at[t := Out], b.sender, SGo))
  }

  // ------------------------------------------------------------------ invariant

  /** Position i of a ring of size max that begins at start. */
  function Index(start: int, i: int, max: int): (x: int)
    requires max > 0
  {
    (start + i) % max
  }

  ghost predicate Inv(b: Box) {
    && |b.arg| == |b.at| && 0 <= b.start < |b.msgs| && 0 <= b.count
    && Waiting(b.sender, b.at, SWait) && Waiting(b.receiver, b.at, RWait)
    && |b.msgs| == Avail(b.sender) + Number(b, SGo) + b.count + Number(b, RSig)
    && b.count == Avail(b.receiver) + Number(b, RGo) + Number(b, SSig)
    && Ring(b.msgs, b.start, b.count, b.stored, b.received)
  }

  /** What was received and then what is in the ring is what was stored. */
  ghost predicate Ring(msgs: seq<int>, start: int, count: int, stored: seq<int>, received: seq<int>) {
    && |msgs| > 0 && 0 <= count && |received| + count == |stored| && received <= stored
    && forall i :: 0 <= i < count ==> 0 <= Index(start, i, |msgs|) < |msgs| && msgs[Index(start, i, |msgs|)] == stored[|received| + i]
  }

  lemma {:induction false} IndexIs(start: int, i: int, max: int)
    requires 0 <= start < max && 0 <= i <= max
    ensures Index(start, i, max) == if start + i < max then start + i else start + i - max
  {
  }

  lemma {:induction false} First(b: Box)
    requires Inv(b) && b.count > 0
    ensures b.msgs[b.start] == b.stored[|b.received|]
  {
    IndexIs(b.start, 0, |b.msgs|);
  }

  lemma {:induction false} StoreRing(b: Box, m: int)
    requires 0 <= b.start < |b.msgs| && b.count < |b.msgs| && Ring(b.msgs, b.start, b.count, b.stored, b.received)
    ensures var c := RingStore(b, m); Ring(c.msgs, c.start, c.count, c.stored, c.received) && |c.msgs| == |b.msgs|
  {
    var c, n := RingStore(b, m), |b.msgs|;
    IndexIs(b.start, b.count, n);
    assert c.msgs == b.msgs[Index(b.start, b.count, n) := m];
    forall i | 0 <= i < c.count
      ensures 0 <= Index(b.start, i, n) < n && c.msgs[Index(b.start, i, n)] == c.stored[|b.received| + i]
    {
      IndexIs(b.start, i, n);
    }
  }

  lemma {:induction false} TakeRing(b: Box)
    requires 0 <= b.start < |b.msgs| && 0 < b.count <= |b.msgs| && Ring(b.msgs, b.start, b.count, b.stored, b.received)
    ensures var c := RingTake(b); Ring(c.msgs, c.start, c.count, c.stored, c.received) && 0 <= c.start < |c.msgs| == |b.msgs|
  {
    var c, n := RingTake(b), |b.msgs|;
    IndexIs(b.start, 0, n);
    IndexIs(b.start, 1, n);
    assert c.start == Index(b.start, 1, n);
    forall i | 0 <= i < c.count
      ensures 0 <= Index(c.start, i, n) < n && c.msgs[Index(c.start, i, n)] == c.stored[|c.received| + i]
    {
      IndexIs(b.start, i + 1, n);
      IndexIs(c.start, i, n);
      assert Index(c.start, i, n) == Index(b.start, i + 1, n);
    }
  }

  lemma {:induction false} SendWaitInv(b: Box, t: nat, m: int)
    requires Inv(b) && Enabled(b, SendWait(t, m))
    ensures Inv(Next(b, SendWait(t, m)))
  {
    hide Ring, Waiting, Balanced;
    PWaits(b.sender, b.at, t, SWait, SGo);
    OthersWait(b.receiver, b.at, t, if b.sender.count > 0 then SGo else SWait, RWait);
  }

  lemma {:induction false} RecvWaitInv(b: Box, t: nat)
    requires Inv(b) && Enabled(b, RecvWait(t))
    ensures Inv(Next(b, RecvWait(t)))
  {
    hide Ring, Waiting, Balanced;
    PWaits(b.receiver, b.at, t, RWait, RGo);
    OthersWait(b.sender, b.at, t, if b.receiver.count > 0 then RGo else RWait, SWait);
  }

  /** A granted sender finds room, so nothing in the ring is overwritten. */
  lemma {:induction false} StoreInv(b: Box, t: nat)
    requires Inv(b) && Enabled(b, Store(t))
    ensures b.count < |b.msgs| && Inv(Next(b, Store(t)))
  {
    hide Waiting, Ring;
    OthersWait(b.sender, b.at, t, SSig, SWait);
    OthersWait(b.receiver, b.at, t, SSig, RWait);
    Present(b.at, t);
    StoreRing(b, b.arg[t]);
  }

  /** A granted receiver finds a message. */
  lemma {:induction false} TakeInv(b: Box, t: nat)
    requires Inv(b) && Enabled(b, Take(t))
    ensures 0 < b.count && Inv(Next(b, Take(t)))
  {
    hide Waiting, Ring;
    OthersWait(b.sender, b.at, t, RSig, SWait);
    OthersWait(b.receiver, b.at, t, RSig, RWait);
    Present(b.at, t);
    TakeRing(b);
  }

  lemma {:induction false} SendSignalInv(b: Box, t: nat)
    requires Inv(b) && Enabled(b, SendSignal(t))
    ensures Inv(Next(b, SendSignal(t)))
  {
    hide Ring, Waiting, Balanced, Wake;
    var at := b.at[t := Out];
    OthersWait(b.sender, b.at, t, Out, SWait);
    OthersWait(b.receiver, b.at, t, Out, RWait);
    VWaits(b.receiver, at, RWait, RGo);
    WakeOthers(b.receiver, at, RWait, RGo, b.sender, SWait);
  }

  lemma {:induction false} RecvSignalInv(b: Box, t: nat)
    requires Inv(b) && Enabled(b, RecvSignal(t))
    ensures Inv(Next(b, RecvSignal(t)))
  {
    hide Ring, Waiting, Balanced, Wake;
    var at := b.at[t := Out];
    OthersWait(b.sender, b.at, t, Out, SWait);
    OthersWait(b.receiver, b.at, t, Out, RWait);
    VWaits(b.sender, at, SWait, SGo);
    WakeOthers(b.sender, at, SWait, SGo, b.receiver, RWait);
  }

  lemma {:induction false} StepInv(b: Box, e: Step)
    requires Inv(b) && Enabled(b, e)
    ensures Inv(Next(b, e))
  {
    hide Inv, Next;
    match e
    case SendWait(t, m) => SendWaitInv(b, t, m);
    case Store(t) => StoreInv(b, t);
    case SendSignal(t) => SendSignalInv(b, t);
    case RecvWait(t) => RecvWaitInv(b, t);
    case Take(t) => TakeInv(b, t);
    case RecvSignal(t) => RecvSignalInv(b, t);
  }

  // ----------------------------------------------------------------------- runs

  /** mailboxAlloc for max messages, used by n threads. */
  function Alloc(max: nat, n: nat, msgs: seq<int>): (b: Box)
    requires |msgs| == max
  {
    Box(Counter(max, []), Counter(0, []), msgs, 0, 0, seq(n, _ => Out), seq(n, _ => 0), [], [])
  }

  ghost predicate IsRun(bs: seq<Box>, es: seq<Step>) {
    && |bs| == |es| + 1
    && (forall i :: 0 <= i < |es| ==> Enabled(bs[i], es[i]))
    && (forall i :: 0 <= i < |es| ==> bs[i+1] == Next(bs[i], es[i]))
  }

  lemma {:induction false} AllocInv(max: nat, n: nat, msgs: seq<int>)
    requires |msgs| == max > 0
    ensures Inv(Alloc(max, n, msgs))
  {
    var at := Alloc(max, n, msgs).at;
    assert forall a :: a != Out ==> a !in at;
  }

  lemma {:induction false} RunInv(bs: seq<Box>, es: seq<Step>, max: nat, i: nat)
    requires IsRun(bs, es) && max > 0 && i < |bs| && |bs[0].msgs| == max && bs[0] == Alloc(max, |bs[0].at|, bs[0].msgs)
    ensures Inv(bs[i]) && |bs[i].msgs| == max
  {
    hide Inv;
    if i == 0 {
      AllocInv(max, |bs[0].at|, bs[0].msgs);
    } else {
      RunInv(bs, es, max, i - 1);
      StepInv(bs[i-1], es[i-1]);
    }
  }

  /** In every run: at most max messages are held; a thread at the ring never
      overwrites a message and never reads an empty place; the messages received
      are a prefix, in order, of those stored, and the rest is in the ring. */
  lemma {:induction false} Delivers(bs: seq<Box>, es: seq<Step>, max: nat, i: nat)
    requires IsRun(bs, es) && max > 0 && i < |bs| && |bs[0].msgs| == max && bs[0] == Alloc(max, |bs[0].at|, bs[0].msgs)
    ensures 0 <= bs[i].count <= max && |bs[i].stored| == |bs[i].received| + bs[i].count
    ensures bs[i].received <= bs[i].stored
    ensures forall k :: 0 <= k < bs[i].count ==>
              0 <= Index(bs[i].start, k, max) < |bs[i].msgs| == max
              && bs[i].msgs[Index(bs[i].start, k, max)] == bs[i].stored[|bs[i].received| + k]
    ensures i < |es| && es[i].Store? ==> bs[i].count < max
    ensures i < |es| && es[i].Take? ==> bs[i].count > 0 && Next(bs[i], es[i]).received <= bs[i].stored
  {
    RunInv(bs, es, max, i);
    if i < |es| && es[i].Store? { StoreInv(bs[i], es[i].t); }
    if i < |es| && es[i].Take? { TakeInv(bs[i], es[i].t); }
  }

  // ------------------------------------------------- in terms of the calls alone

  /** The last mailboxSend of thread t before step i, -1 if there is none. */
  function LastSend(es: seq<Step>, i: nat, t: nat): (j: int)
    requires i <= |es|
    ensures -1 <= j < i && (j >= 0 ==> es[j].SendWait? && es[j].t == t)
  {
    if i == 0 then -1
    else if es[i-1].SendWait? && es[i-1].t == t then i - 1
    else LastSend(es, i - 1, t)
  }

  /** Thread t is on its way to the ring with the message of its last call: the
      call is there, it has not stored yet, and arg holds its message. */
  ghost predicate OnItsWay(b: Box, es: seq<Step>, i: nat, t: nat)
    requires i <= |es| && t < |b.at| == |b.arg|
  {
    b.at[t] == SWait || b.at[t] == SGo ==>
      var j := LastSend(es, i, t);
      && j >= 0 && b.arg[t] == es[j].m
      && forall k :: j < k < i ==> es[k] != Store(t)
  }

  lemma {:induction false} StepArg(b: Box, e: Step, t: nat)
    requires Inv(b) && Enabled(b, e) && t < |b.at|
    ensures var c := Next(b, e);
            && |c.at| == |c.arg| == |b.at|
            && (e.SendWait? && e.t == t ==> c.arg[t] == e.m)
            && (!(e.SendWait? && e.t == t) ==> c.arg[t] == b.arg[t])
            && (c.at[t] == SWait || c.at[t] == SGo ==>
                  (e.SendWait? && e.t == t) || ((b.at[t] == SWait || b.at[t] == SGo) && e != Store(t)))
  {
    hide Ring, Number, Balanced;
  }

  lemma {:induction false} RunSize(bs: seq<Box>, es: seq<Step>, i: nat)
    requires IsRun(bs, es) && i < |bs|
    ensures |bs[i].at| == |bs[0].at|
  {
    if i > 0 { RunSize(bs, es, i - 1); }
  }

  lemma {:induction false} RunOnItsWay(bs: seq<Box>, es: seq<Step>, max: nat, i: nat, t: nat)
    requires IsRun(bs, es) && max > 0 && i < |bs| && |bs[0].msgs| == max && bs[0] == Alloc(max, |bs[0].at|, bs[0].msgs)
    requires t < |bs[0].at|
    ensures |bs[i].at| == |bs[i].arg| == |bs[0].at| && OnItsWay(bs[i], es, i, t)
  {
    hide Next, Inv;
    if i > 0 {
      RunOnItsWay(bs, es, max, i - 1, t);
      RunInv(bs, es, max, i - 1);
      StepArg(bs[i-1], es[i-1], t);
    }
  }

  /** The messages that the calls up to step i have put into the mailbox. */
  function Sent(es: seq<Step>, i: nat): (l: seq<int>)
    requires i <= |es|
  {
    if i == 0 then []
    else if es[i-1].Store? && LastSend(es, i - 1, es[i-1].t) >= 0 then
      Sent(es, i - 1) + [es[LastSend(es, i - 1, es[i-1].t)].m]
    else Sent(es, i - 1)
  }

  /** How many messages the calls up to step i have taken out. */
  function Taken(es: seq<Step>, i: nat): (n: nat)
    requires i <= |es|
  {
    if i == 0 then 0 else Taken(es, i - 1) + if es[i-1].Take? then 1 else 0
  }

  lemma {:induction false} StepLogs(b: Box, e: Step)
    requires Inv(b) && Enabled(b, e)
    ensures Next(b, e).stored == if e.Store? then b.stored + [b.arg[e.t]] else b.stored
    ensures |Next(b, e).received| == |b.received| + if e.Take? then 1 else 0
  {
    hide Ring, Waiting;
  }

  /** A thread at the ring stores the message of its own last call, and no call's
      message is stored twice. */
  lemma {:induction false} StoresItsMessage(bs: seq<Box>, es: seq<Step>, max: nat, i: nat)
    requires IsRun(bs, es) && max > 0 && i < |es| && |bs[0].msgs| == max && bs[0] == Alloc(max, |bs[0].at|, bs[0].msgs)
    ensures es[i].Store? ==>
              var j := LastSend(es, i, es[i].t);
              && j >= 0 && bs[i+1].stored == bs[i].stored + [es[j].m]
              && forall k :: j < k < i ==> es[k] != Store(es[i].t)
    ensures !es[i].Store? ==> bs[i+1].stored == bs[i].stored
  {
    hide Next, Inv;
    RunInv(bs, es, max, i);
    StepLogs(bs[i], es[i]);
    assert Enabled(bs[i], es[i]);
    RunSize(bs, es, i);
    RunOnItsWay(bs, es, max, i, es[i].t);
  }

  lemma {:induction false} LogsAreCalls(bs: seq<Box>, es: seq<Step>, max: nat, i: nat)
    requires IsRun(bs, es) && max > 0 && i < |bs| && |bs[0].msgs| == max && bs[0] == Alloc(max, |bs[0].at|, bs[0].msgs)
    ensures bs[i].stored == Sent(es, i) && |bs[i].received| == Taken(es, i)
  {
    hide Next, Inv;
    if i > 0 {
      LogsAreCalls(bs, es, max, i - 1);
      RunInv(bs, es, max, i - 1);
      StepLogs(bs[i-1], es[i-1]);
      StoresItsMessage(bs, es, max, i - 1);
    }
  }

  /** In every run from allocation, in terms of the calls alone: the mailbox holds
      what was sent and not yet taken, in order, and the n-th message taken is the
      n-th one sent. */
  lemma {:induction false} AnswersInOrder(bs: seq<Box>, es: seq<Step>, max: nat, i: nat)
    requires IsRun(bs, es) && max > 0 && i < |bs| && |bs[0].msgs| == max && bs[0] == Alloc(max, |bs[0].at|, bs[0].msgs)
    ensures bs[i].count == |Sent(es, i)| - Taken(es, i) && 0 <= bs[i].count <= max == |bs[i].msgs|
    ensures forall k :: 0 <= k < bs[i].count ==>
              0 <= Index(bs[i].start, k, max) < max
              && bs[i].msgs[Index(bs[i].start, k, max)] == Sent(es, i)[Taken(es, i) + k]
    ensures i < |es| && es[i].Take? ==>
              Taken(es, i) < |Sent(es, i)| && 0 <= bs[i].start < max && bs[i].msgs[bs[i].start] == Sent(es, i)[Taken(es, i)]
  {
    hide Next, Sent, Taken;
    Delivers(bs, es, max, i);
    LogsAreCalls(bs, es, max, i);
    RunInv(bs, es, max, i);
    if i < |es| && es[i].Take? {
      First(bs[i]);
    }
  }

  /** No wake-up is lost in any run: a receiver waits only while every message in the ring is
      spoken for, a sender only while every free place is. */
  lemma {:induction false} NoLostWakeup(bs: seq<Box>, es: seq<Step>, max: nat, i: nat)
    requires IsRun(bs, es) && max > 0 && i < |bs| && |bs[0].msgs| == max && bs[0] == Alloc(max, |bs[0].at|, bs[0].msgs)
    ensures RWait in bs[i].at ==> bs[i].count == Number(bs[i], RGo) + Number(bs[i], SSig)
    ensures SWait in bs[i].at ==> max - bs[i].count == Number(bs[i], SGo) + Number(bs[i], RSig)
  {
    RunInv(bs, es, max, i);
  }

  // ------------------------------------------------------------- the ring itself

  class Mbox {
    const msgs: array<int>
    var start: int
    var count: int

    ghost predicate Matches(b: Box)
      reads this, msgs
    {
      msgs[..] == b.msgs && start == b.start && count == b.count
    }

    constructor (max: nat)
      ensures fresh(msgs) && msgs.Length == max && Matches(Alloc(max, 0, msgs[..]))
    {
      msgs := new int[max];
      start, count := 0, 0;
    }

    /** mailboxSend between its wait and its signal. */
    method PutMessage(m: int, ghost b: Box)
      requires Matches(b) && Inv(b) && count < msgs.Length
      modifies this`count, msgs
      ensures Matches(RingStore(b, m)) && count == old(count) + 1
      ensures forall x :: 0 <= x < msgs.Length ==>
                msgs[x] == if x == (start + old(count)) % msgs.Length then m else old(msgs[x])
    {
      msgs[(start + count) % msgs.Length] := m;
      count := count + 1;
    }

    /** mailboxReceive between its wait and its signal. */
    method GetMessage(ghost b: Box) returns (m: int)
      requires Matches(b) && Inv(b) && count > 0
      modifies this
      ensures Matches(RingTake(b)) && m == b.stored[|b.received|] && m == old(msgs[start])
      ensures msgs[..] == old(msgs[..]) && start == (old(start) + 1) % msgs.Length && count == old(count) - 1
    {
      hide Waiting, Ring, Number;
      First(b);
      m := msgs[start];
      start := (start + 1) % msgs.Length;
      count := count - 1;
    }
  }
}
