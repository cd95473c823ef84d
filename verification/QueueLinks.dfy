/**
 The queue table: every queue is a doubly linked chain of table indices from its
 head entry to its tail entry. `Chains` ties the links to the sequences of thread
 ids they stand for; linking and unlinking an entry is insertion and removal.
 */
module QueueLinks {
  import opened ThreadLists
  import opened KernelState

  datatype Queent = Queent(key: int, next: int, prev: int)

  /** Head, threads, tail of the queue with id q. */
  function Chain(q: int, l: seq<int>): (f: seq<int>)
    ensures |f| == |l| + 2 && f[0] == q && f[|l|+1] == q + 1
    ensures forall i :: 0 < i <= |l| ==> f[i] == l[i-1]
  {
    [q] + l + [q + 1]
  }

  ghost predicate Linked(tab: seq<Queent>, f: seq<int>) {
    && (forall i :: 0 <= i < |f| ==> 0 <= f[i] < |tab|)
    && (forall i, j :: 0 <= i && j == i + 1 && j < |f| ==> tab[f[i]].next == f[j] && tab[f[j]].prev == f[i])
  }

  /** No thread is on two queues or twice on one. */
  ghost predicate Disjoint(lists: seq<seq<int>>) {
    && (forall j :: 0 <= j < |lists| ==> NoDup(lists[j]))
    && (forall j, k, t {:trigger t in lists[j], t in lists[k]} ::
          0 <= j < |lists| && 0 <= k < |lists| && t in lists[j] && t in lists[k] ==> j == k)
  }

  ghost predicate Chains(tab: seq<Queent>, n: nat, lists: seq<seq<int>>) {
    && |tab| >= n + 2 * |lists|
    && (forall j :: 0 <= j < |lists| ==> Within(lists[j], n))
    && Disjoint(lists)
    && (forall j :: 0 <= j < |lists| ==> Linked(tab, Chain(n + 2 * j, lists[j])))
    && (forall j :: 0 <= j < |lists| ==> tab[n + 2 * j].key == MAXKEY && tab[n + 2 * j + 1].key == MINKEY)
  }

  predicate KeysMatch(tab: seq<Queent>, key: seq<int>) {
    |key| <= |tab| && forall t :: 0 <= t < |key| ==> tab[t].key == key[t]
  }

  /** Semaphore k owns the k-th head/tail pair. */
  predicate OwnQueues(sem: seq<Semaphore>, n: nat) {
    forall k :: 0 <= k < |sem| ==> sem[k].queue == n + 2 * k
  }

  /** Entry t between its new neighbours. */
  function Link(tab: seq<Queent>, t: int, prev: int, next: int): (r: seq<Queent>)
    requires 0 <= t < |tab| && 0 <= prev < |tab| && 0 <= next < |tab|
    ensures |r| == |tab| && forall x :: 0 <= x < |tab| ==> r[x].key == tab[x].key
  {
    var a := tab[t := tab[t].(next := next, prev := prev)];
    var b := a[prev := a[prev].(next := t)];
    b[next := b[next].(prev := t)]
  }

  /** Entry t taken out from between its neighbours. */
  function Unlink(tab: seq<Queent>, t: int): (r: seq<Queent>)
    requires 0 <= t < |tab| && 0 <= tab[t].next < |tab| && 0 <= tab[t].prev < |tab|
    ensures |r| == |tab| && forall x :: 0 <= x < |tab| ==> r[x].key == tab[x].key
  {
    var next, prev := tab[t].next, tab[t].prev;
    var a := tab[prev := tab[prev].(next := next)];
    var b := a[next := a[next].(prev := prev)];
    b[t := b[t].(next := EMPTY, prev := EMPTY)]
  }

  /** Some entry behind the head has a smaller key. */
  ghost predicate Smaller(tab: seq<Queent>, f: seq<int>, key: int) {
    exists i :: 0 < i < |f| && 0 <= f[i] < |tab| && tab[f[i]].key < key
  }

  /** The scan of insert meets a smaller key inside its queue exactly when the new
      key is above the least integer; otherwise it runs over the tail. */
  lemma {:induction false} ScanStops(tab: seq<Queent>, n: nat, lists: seq<seq<int>>, j: int, key: int)
    requires Chains(tab, n, lists) && 0 <= j < |lists|
    requires forall x :: 0 <= x < n ==> tab[x].key >= MINKEY
    ensures Smaller(tab, Chain(n + 2 * j, lists[j]), key) <==> key > MINKEY
  {
    var l := lists[j];
    var f := Chain(n + 2 * j, l);
    assert Linked(tab, f) && f[|l| + 1] == n + 2 * j + 1;
    assert forall i :: 0 < i <= |l| ==> f[i] == l[i-1] && 0 <= l[i-1] < n;
  }

  lemma {:induction false} ChainDistinct(n: nat, lists: seq<seq<int>>, j: int)
    requires 0 <= j < |lists| && Disjoint(lists) && Within(lists[j], n)
    ensures NoDup(Chain(n + 2 * j, lists[j]))
  {
  }

  lemma {:induction false} ChainsApart(n: nat, lists: seq<seq<int>>, j: int, k: int, x: int)
    requires 0 <= j < |lists| && 0 <= k < |lists| && j != k && Disjoint(lists)
    requires Within(lists[j], n) && Within(lists[k], n) && x in Chain(n + 2 * j, lists[j])
    ensures x !in Chain(n + 2 * k, lists[k])
  {
  }

  /** Chains whose entries keep their links stay linked. */
  lemma {:induction false} LinkedFrame(tab: seq<Queent>, tab': seq<Queent>, f: seq<int>)
    requires Linked(tab, f) && |tab'| == |tab|
    requires forall i :: 0 <= i < |f| ==> tab'[f[i]].next == tab[f[i]].next && tab'[f[i]].prev == tab[f[i]].prev
    ensures Linked(tab', f)
  {
  }

  lemma {:induction false} LinkOne(tab: seq<Queent>, f: seq<int>, i: nat, t: int)
    requires Linked(tab, f) && NoDup(f) && i + 1 < |f| && 0 <= t < |tab| && t !in f
    ensures Linked(Link(tab, t, f[i], f[i+1]), f[..i+1] + [t] + f[i+1..])
  {
    hide Link, NoDup;
    var f', tab' := f[..i+1] + [t] + f[i+1..], Link(tab, t, f[i], f[i+1]);
    assert forall k :: 0 <= k < |f'| ==> f'[k] == if k <= i then f[k] else if k == i + 1 then t else f[k-1];
    forall a, b | 0 <= a && b == a + 1 && b < |f'|
      ensures tab'[f'[a]].next == f'[b] && tab'[f'[b]].prev == f'[a]
    {
      LinkNew(tab, f, i, t);
      if b <= i {
        LinkOld(tab, f, i, t, a);
      } else if a > i + 1 {
        LinkOld(tab, f, i, t, a - 1);
      }
    }
  }

  lemma {:induction false} LinkNew(tab: seq<Queent>, f: seq<int>, i: nat, t: int)
    requires Linked(tab, f) && NoDup(f) && i + 1 < |f| && 0 <= t < |tab| && t !in f
    ensures var r := Link(tab, t, f[i], f[i+1]);
            r[f[i]].next == t && r[t].prev == f[i] && r[t].next == f[i+1] && r[f[i+1]].prev == t
  {
  }

  /** The other links of the chain stay. */
  lemma {:induction false} LinkOld(tab: seq<Queent>, f: seq<int>, i: nat, t: int, a: nat)
    requires Linked(tab, f) && NoDup(f) && i + 1 < |f| && 0 <= t < |tab| && t !in f && a + 1 < |f| && a != i
    ensures var r := Link(tab, t, f[i], f[i+1]); r[f[a]].next == f[a+1] && r[f[a+1]].prev == f[a]
  {
    var b := a + 1;
    assert tab[f[a]].next == f[b] && tab[f[b]].prev == f[a];
  }

  lemma {:induction false} UnlinkOne(tab: seq<Queent>, f: seq<int>, i: nat)
    requires Linked(tab, f) && NoDup(f) && 0 < i && i + 1 < |f|
    ensures tab[f[i]].prev == f[i-1] && tab[f[i]].next == f[i+1]
    ensures Linked(Unlink(tab, f[i]), f[..i] + f[i+1..])
  {
    var f' := f[..i] + f[i+1..];
    assert tab[f[i-1]].next == f[i] && tab[f[i]].prev == f[i-1];
    assert tab[f[i]].next == f[i+1];
    var tab' := Unlink(tab, f[i]);
    forall a, b | 0 <= a && b == a + 1 && b < |f'|
      ensures tab'[f'[a]].next == f'[b] && tab'[f'[b]].prev == f'[a]
    {
      if b < i {
        assert tab[f[a]].next == f[b] && tab[f[b]].prev == f[a];
      } else if a >= i {
        assert tab[f[a+1]].next == f[b+1] && tab[f[b+1]].prev == f[a+1];
      }
    }
  }

  ghost predicate OnNone(lists: seq<seq<int>>, t: int) {
    forall j :: 0 <= j < |lists| ==> t !in lists[j]
  }

  lemma {:induction false} InsertDisjoint(lists: seq<seq<int>>, j: int, i: nat, t: int)
    requires Disjoint(lists) && 0 <= j < |lists| && i <= |lists[j]| && OnNone(lists, t)
    ensures Disjoint(lists[j := InsertAt(lists[j], i, t)])
  {
    InsertMembers(lists[j], i, t);
    var lists' := lists[j := InsertAt(lists[j], i, t)];
    forall a, b, x | 0 <= a < |lists| && 0 <= b < |lists| && x in lists'[a] && x in lists'[b] ensures a == b {
      assert x != t ==> x in lists[a] && x in lists[b];
      assert a != j ==> x in lists[a];
      assert b != j ==> x in lists[b];
    }
  }

  lemma {:induction false} RemoveDisjoint(lists: seq<seq<int>>, j: int, t: int)
    requires Disjoint(lists) && 0 <= j < |lists| && t in lists[j]
    ensures Disjoint(lists[j := Remove(lists[j], t)])
    ensures OnNone(lists[j := Remove(lists[j], t)], t)
  {
    RemoveMembers(lists[j], t);
    var lists' := lists[j := Remove(lists[j], t)];
    forall a, b, x | 0 <= a < |lists| && 0 <= b < |lists| && x in lists'[a] && x in lists'[b] ensures a == b {
      assert x in lists[a] && x in lists[b];
    }
  }

  lemma {:induction false} LinkOthers(tab: seq<Queent>, n: nat, lists: seq<seq<int>>, j: int, i: nat, t: int, k: int)
    requires Chains(tab, n, lists) && 0 <= j < |lists| && i <= |lists[j]| && 0 <= t < n && OnNone(lists, t)
    requires 0 <= k < |lists| && k != j
    ensures var f := Chain(n + 2 * j, lists[j]);
            Linked(tab, f) && Linked(Link(tab, t, f[i], f[i+1]), Chain(n + 2 * k, lists[k]))
  {
    var f, g := Chain(n + 2 * j, lists[j]), Chain(n + 2 * k, lists[k]);
    ChainsApart(n, lists, j, k, f[i]);
    ChainsApart(n, lists, j, k, f[i+1]);
    assert t !in g;
    LinkedFrame(tab, Link(tab, t, f[i], f[i+1]), g);
  }

  lemma {:induction false} LinkSelf(tab: seq<Queent>, n: nat, lists: seq<seq<int>>, j: int, i: nat, t: int)
    requires Chains(tab, n, lists) && 0 <= j < |lists| && i <= |lists[j]| && 0 <= t < n && OnNone(lists, t)
    ensures var f := Chain(n + 2 * j, lists[j]);
            Linked(tab, f) && Linked(Link(tab, t, f[i], f[i+1]), Chain(n + 2 * j, InsertAt(lists[j], i, t)))
  {
    hide Linked, Link, NoDup, Disjoint, InsertAt, OnNone;
    var f := Chain(n + 2 * j, lists[j]);
    ChainDistinct(n, lists, j);
    ChainMisses(n, lists, j, t);
    LinkOne(tab, f, i, t);
    ChainInsert(n + 2 * j, lists[j], i, t);
  }

  lemma {:induction false} ChainIn(tab: seq<Queent>, n: nat, lists: seq<seq<int>>, j: int, i: nat)
    requires Chains(tab, n, lists) && 0 <= j < |lists| && i <= |lists[j]| + 1
    ensures 0 <= Chain(n + 2 * j, lists[j])[i] < |tab|
  {
    assert Linked(tab, Chain(n + 2 * j, lists[j]));
  }

  lemma {:induction false} ChainMisses(n: nat, lists: seq<seq<int>>, j: int, t: int)
    requires 0 <= j < |lists| && 0 <= t < n && OnNone(lists, t)
    ensures t !in Chain(n + 2 * j, lists[j])
  {
  }

  lemma {:induction false} ChainInsert(q: int, l: seq<int>, i: nat, t: int)
    requires i <= |l|
    ensures var f := Chain(q, l); Chain(q, InsertAt(l, i, t)) == f[..i+1] + [t] + f[i+1..]
  {
  }

  /** Linking thread t at position i of queue j inserts it in list j there. */
  lemma {:induction false} LinkChains(tab: seq<Queent>, n: nat, lists: seq<seq<int>>, j: int, i: nat, t: int)
    requires Chains(tab, n, lists) && 0 <= j < |lists| && i <= |lists[j]| && 0 <= t < n && OnNone(lists, t)
    ensures var f := Chain(n + 2 * j, lists[j]);
            Linked(tab, f) && Chains(Link(tab, t, f[i], f[i+1]), n, lists[j := InsertAt(lists[j], i, t)])
  {
    hide Linked, InsertAt, OnNone, Disjoint;
    LinkSelf(tab, n, lists, j, i, t);
    var f := Chain(n + 2 * j, lists[j]);
    ChainIn(tab, n, lists, j, i);
    ChainIn(tab, n, lists, j, i + 1);
    var tab', lists' := Link(tab, t, f[i], f[i+1]), lists[j := InsertAt(lists[j], i, t)];
    InsertDisjoint(lists, j, i, t);
    InsertWithin(lists[j], i, t, n);
    forall k | 0 <= k < |lists| ensures Linked(tab', Chain(n + 2 * k, lists'[k])) {
      if k != j { LinkOthers(tab, n, lists, j, i, t, k); }
    }
  }

  lemma {:induction false} UnlinkOthers(tab: seq<Queent>, n: nat, lists: seq<seq<int>>, j: int, i: nat, k: int)
    requires Chains(tab, n, lists) && 0 <= j < |lists| && i < |lists[j]| && 0 <= k < |lists| && k != j
    ensures var f := Chain(n + 2 * j, lists[j]);
            tab[f[i+1]].prev == f[i] && tab[f[i+1]].next == f[i+2]
            && Linked(tab, f) && Linked(Unlink(tab, lists[j][i]), Chain(n + 2 * k, lists[k]))
  {
    var f, g := Chain(n + 2 * j, lists[j]), Chain(n + 2 * k, lists[k]);
    assert Linked(tab, f) && tab[f[i+1]].prev == f[i] && tab[f[i+1]].next == f[i+2];
    ChainsApart(n, lists, j, k, f[i]);
    ChainsApart(n, lists, j, k, f[i+1]);
    ChainsApart(n, lists, j, k, f[i+2]);
    LinkedFrame(tab, Unlink(tab, lists[j][i]), g);
  }

  lemma {:induction false} UnlinkSelf(tab: seq<Queent>, n: nat, lists: seq<seq<int>>, j: int, i: nat)
    requires Chains(tab, n, lists) && 0 <= j < |lists| && i < |lists[j]|
    ensures var f, t := Chain(n + 2 * j, lists[j]), lists[j][i];
            && tab[t].prev == f[i] && tab[t].next == f[i+2] && 0 <= f[i] < |tab| && 0 <= f[i+2] < |tab|
            && Linked(Unlink(tab, t), Chain(n + 2 * j, lists[j][..i] + lists[j][i+1..]))
  {
    var f := Chain(n + 2 * j, lists[j]);
    ChainDistinct(n, lists, j);
    UnlinkOne(tab, f, i + 1);
    assert Chain(n + 2 * j, lists[j][..i] + lists[j][i+1..]) == f[..i+1] + f[i+2..];
  }

  lemma {:induction false} UnlinkAt(tab: seq<Queent>, n: nat, lists: seq<seq<int>>, j: int, i: nat)
    requires Chains(tab, n, lists) && 0 <= j < |lists| && i < |lists[j]|
    requires Disjoint(lists[j := lists[j][..i] + lists[j][i+1..]])
    ensures var f, t := Chain(n + 2 * j, lists[j]), lists[j][i];
            && 0 <= t < n && tab[t].prev == f[i] && tab[t].next == f[i+2] && 0 <= f[i] < |tab| && 0 <= f[i+2] < |tab|
            && Chains(Unlink(tab, t), n, lists[j := lists[j][..i] + lists[j][i+1..]])
  {
    hide Unlink, Linked, Disjoint;
    var t, lists' := lists[j][i], lists[j := lists[j][..i] + lists[j][i+1..]];
    UnlinkSelf(tab, n, lists, j, i);
    forall k | 0 <= k < |lists| ensures Linked(Unlink(tab, t), Chain(n + 2 * k, lists'[k])) {
      if k != j { UnlinkOthers(tab, n, lists, j, i, k); }
    }
  }

  /** Unlinking a queued thread removes it from its list. */
  lemma {:induction false} UnlinkChains(tab: seq<Queent>, n: nat, lists: seq<seq<int>>, j: int, t: int)
    requires Chains(tab, n, lists) && 0 <= j < |lists| && t in lists[j]
    ensures 0 <= t < n && 0 <= tab[t].next < |tab| && 0 <= tab[t].prev < |tab|
    ensures Chains(Unlink(tab, t), n, lists[j := Remove(lists[j], t)])
    ensures var f, i := Chain(n + 2 * j, lists[j]), IndexOf(lists[j], t);
            tab[t].prev == f[i] && tab[t].next == f[i+2]
  {
    RemoveDisjoint(lists, j, t);
    UnlinkAt(tab, n, lists, j, IndexOf(lists[j], t));
  }

  /** Changing keys of threads leaves the chains alone. */
  lemma {:induction false} RekeyChains(tab: seq<Queent>, tab': seq<Queent>, n: nat, lists: seq<seq<int>>)
    requires Chains(tab, n, lists) && |tab'| == |tab|
    requires forall x :: 0 <= x < |tab| ==>
               tab'[x].next == tab[x].next && tab'[x].prev == tab[x].prev && (x >= n ==> tab'[x].key == tab[x].key)
    ensures Chains(tab', n, lists)
  {
    forall k | 0 <= k < |lists| ensures Linked(tab', Chain(n + 2 * k, lists[k])) {
      LinkedFrame(tab, tab', Chain(n + 2 * k, lists[k]));
    }
  }

  /** k empty queues. */
  function NoThreads(k: nat): (lists: seq<seq<int>>)
    ensures |lists| == k && forall j :: 0 <= j < k ==> lists[j] == []
  {
    seq(k, _ => [])
  }

  /** Some table of this size holds one more queue. */
  ghost predicate RoomFor(size: nat, n: nat, k: nat) {
    exists tab :: |tab| == size && Chains(tab, n, NoThreads(k))
  }

  /** With k queues in the table queinit's test never refuses another, but there
      is room for it exactly when two entries are left. */
  lemma {:induction false} RoomTest(tab: seq<Queent>, n: nat, k: nat)
    requires Chains(tab, n, NoThreads(k))
    ensures !(n + 2 * k > |tab|)
    ensures RoomFor(|tab|, n, k + 1) <==> n + 2 * k + 2 <= |tab|
  {
    hide NoThreads, Linked;
    if n + 2 * k + 2 <= |tab| {
      var q := n + 2 * k;
      var tab' := tab[q := Queent(MAXKEY, q + 1, EMPTY)][q + 1 := Queent(MINKEY, EMPTY, q)];
      AddQueue(tab, tab', n, k);
    } else if RoomFor(|tab|, n, k + 1) {
      NoRoom(|tab|, n, k + 1);
    }
  }

  lemma {:induction false} NoRoom(size: nat, n: nat, k: nat)
    requires RoomFor(size, n, k)
    ensures size >= n + 2 * k
  {
    var tab :| |tab| == size && Chains(tab, n, NoThreads(k));
  }

  lemma {:induction false} FirstChains(tab: seq<Queent>, n: nat)
    requires |tab| >= n
    ensures Chains(tab, n, NoThreads(0))
  {
  }

  /** A fresh head/tail pair behind k empty queues. */
  lemma {:induction false} AddQueue(tab: seq<Queent>, tab': seq<Queent>, n: nat, k: nat)
    requires Chains(tab, n, NoThreads(k)) && |tab'| == |tab| >= n + 2 * k + 2
    requires forall x :: 0 <= x < n + 2 * k ==> tab'[x] == tab[x]
    requires var q := n + 2 * k; tab'[q] == Queent(MAXKEY, q + 1, EMPTY) && tab'[q+1] == Queent(MINKEY, EMPTY, q)
    ensures Chains(tab', n, NoThreads(k + 1))
  {
    var lists, lists' := NoThreads(k), NoThreads(k + 1);
    forall j | 0 <= j < k + 1 ensures Linked(tab', Chain(n + 2 * j, lists'[j])) {
      var f := Chain(n + 2 * j, []);
      if j < k {
        assert Linked(tab, Chain(n + 2 * j, lists[j]));
        LinkedFrame(tab, tab', f);
      }
    }
    forall j | 0 <= j < k + 1 ensures tab'[n + 2 * j].key == MAXKEY && tab'[n + 2 * j + 1].key == MINKEY {
      assert j < k ==> tab[n + 2 * j].key == MAXKEY;
    }
  }
}
