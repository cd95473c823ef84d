/**
 The contents of the thread queues as sequences of thread ids, and the two
 sorted insertions of the kernel as positions in such a sequence: descending
 keys for the ready list, differences of wake-up times for the sleep queue.
 */
module ThreadLists {

  ghost predicate NoDup(l: seq<int>) {
    forall i, j :: 0 <= i < j < |l| ==> l[i] != l[j]
  }

  /** Every id in the list indexes a table of n entries. */
  predicate Within(l: seq<int>, n: nat) {
    forall i :: 0 <= i < |l| ==> 0 <= l[i] < n
  }

  function IndexOf(l: seq<int>, t: int): (i: nat)
    requires t in l
    ensures i < |l| && l[i] == t && t !in l[..i]
  {
    if l[0] == t then 0 else 1 + IndexOf(l[1..], t)
  }

  lemma {:induction false} IndexUnique(l: seq<int>, i: nat)
    requires NoDup(l) && i < |l|
    ensures IndexOf(l, l[i]) == i
  {
  }

  function InsertAt(l: seq<int>, i: nat, t: int): (r: seq<int>)
    requires i <= |l|
    ensures |r| == |l| + 1
    ensures forall k :: 0 <= k < |r| ==> r[k] == if k < i then l[k] else if k == i then t else l[k-1]
  {
    l[..i] + [t] + l[i..]
  }

  function Remove(l: seq<int>, t: int): (r: seq<int>)
    requires t in l
    ensures |r| == |l| - 1
    ensures forall k :: 0 <= k < |r| ==> r[k] == if k < IndexOf(l, t) then l[k] else l[k+1]
  {
    var i := IndexOf(l, t);
    l[..i] + l[i+1..]
  }

  lemma {:induction false} RemoveMembers(l: seq<int>, t: int)
    requires t in l && NoDup(l)
    ensures forall x :: x in Remove(l, t) <==> x in l && x != t
    ensures NoDup(Remove(l, t))
  {
    var i := IndexOf(l, t);
    var r := Remove(l, t);
    forall x | x in l && x != t ensures x in r {
      var k :| 0 <= k < |l| && l[k] == x;
      assert r[if k < i then k else k - 1] == x;
    }
  }

  lemma {:induction false} InsertMembers(l: seq<int>, i: nat, t: int)
    requires i <= |l|
    ensures forall x :: x in InsertAt(l, i, t) <==> x == t || x in l
    ensures NoDup(l) && t !in l ==> NoDup(InsertAt(l, i, t))
  {
    var r := InsertAt(l, i, t);
    assert r[i] == t;
    forall x | x in l ensures x in r {
      var k :| 0 <= k < |l| && l[k] == x;
      assert r[if k < i then k else k + 1] == x;
    }
  }

  lemma {:induction false} TailMembers(l: seq<int>)
    requires l != [] && NoDup(l)
    ensures NoDup(l[1..])
    ensures forall x :: x in l[1..] <==> x in l && x != l[0]
  {
    assert l == [l[0]] + l[1..];
  }

  // ---------------------------------------------------------- descending keys

  ghost predicate Descending(l: seq<int>, key: seq<int>)
    requires Within(l, |key|)
  {
    forall i, j :: 0 <= i < j < |l| ==> key[l[i]] >= key[l[j]]
  }

  /** Where insert puts a thread: after every key that is not smaller. */
  function InsertPos(l: seq<int>, key: seq<int>, k: int): (r: nat)
    requires Within(l, |key|)
    ensures r <= |l|
    ensures forall i :: 0 <= i < r ==> key[l[i]] >= k
    ensures r < |l| ==> key[l[r]] < k
  {
    if l == [] || key[l[0]] < k then 0 else
      assert forall i :: 0 <= i < |l| - 1 ==> l[1..][i] == l[i+1];
      1 + InsertPos(l[1..], key, k)
  }

  /** The position depends only on the keys of queued threads. */
  lemma {:induction false} InsertPosFrame(l: seq<int>, key: seq<int>, key': seq<int>, k: int)
    requires Within(l, |key|) && |key'| == |key|
    requires forall i :: 0 <= i < |l| ==> key'[l[i]] == key[l[i]]
    ensures InsertPos(l, key', k) == InsertPos(l, key, k)
  {
  }

  lemma {:induction false} InsertOrder(l: seq<int>, key: seq<int>, t: int, k: int, i: nat, j: nat)
    requires Within(l, |key|) && Descending(l, key) && 0 <= t < |key| && t !in l && i < j <= |l|
    ensures var r := InsertAt(l, InsertPos(l, key, k), t);
            0 <= r[i] < |key| && 0 <= r[j] < |key| && key[t := k][r[i]] >= key[t := k][r[j]]
  {
    hide InsertAt;
    var p := InsertPos(l, key, k);
    InsertedAt(l, p, t, i);
    InsertedAt(l, p, t, j);
    if i == p {
      assert key[l[j-1]] <= key[l[p]];
    }
  }

  lemma {:induction false} InsertedAt(l: seq<int>, p: nat, t: int, i: nat)
    requires p <= |l| && i <= |l|
    ensures |InsertAt(l, p, t)| == |l| + 1
    ensures InsertAt(l, p, t)[i] == if i < p then l[i] else if i == p then t else l[i-1]
    ensures i < p ==> InsertAt(l, p, t)[i] in l
    ensures i > p ==> InsertAt(l, p, t)[i] in l
  {
  }

  lemma {:induction false} InsertWithin(l: seq<int>, p: nat, t: int, n: nat)
    requires Within(l, n) && p <= |l| && 0 <= t < n
    ensures Within(InsertAt(l, p, t), n) && |InsertAt(l, p, t)| == |l| + 1
  {
  }

  lemma {:induction false} InsertDescending(l: seq<int>, key: seq<int>, t: int, k: int)
    requires Within(l, |key|) && Descending(l, key) && 0 <= t < |key| && t !in l
    ensures Within(InsertAt(l, InsertPos(l, key, k), t), |key|)
    ensures Descending(InsertAt(l, InsertPos(l, key, k), t), key[t := k])
  {
    hide InsertAt, InsertPos;
    var r := InsertAt(l, InsertPos(l, key, k), t);
    InsertWithin(l, InsertPos(l, key, k), t, |key|);
    forall i, j | 0 <= i < j < |r| ensures key[t := k][r[i]] >= key[t := k][r[j]] {
      InsertOrder(l, key, t, k, i, j);
    }
  }

  lemma {:induction false} RemoveDescending(l: seq<int>, key: seq<int>, t: int)
    requires Within(l, |key|) && Descending(l, key) && t in l
    ensures Within(Remove(l, t), |key|)
    ensures Descending(Remove(l, t), key)
  {
  }

  lemma {:induction false} RemoveKeysNonNegative(l: seq<int>, key: seq<int>, t: int)
    requires Within(l, |key|) && NonNegative(l, key) && t in l
    ensures Within(Remove(l, t), |key|)
    ensures NonNegative(Remove(l, t), key)
  {
  }

  // ------------------------------------------------------------- delta keys

  /** Time from now until the i-th thread of a delta queue is due: the sum of
      the first i keys. */
  function Due(l: seq<int>, key: seq<int>, i: nat): (r: int)
    requires Within(l, |key|) && i <= |l|
  {
    if i == 0 then 0 else Due(l, key, i - 1) + key[l[i-1]]
  }

  ghost predicate NonNegative(l: seq<int>, key: seq<int>)
    requires Within(l, |key|)
  {
    forall i :: 0 <= i < |l| ==> key[l[i]] >= 0
  }

  /** How many threads are due no later than k ticks from now. */
  function DeltaPos(l: seq<int>, key: seq<int>, k: int, i: nat := 0): (r: nat)
    requires Within(l, |key|) && i <= |l|
    ensures i <= r <= |l|
    ensures forall m :: i < m <= r ==> Due(l, key, m) <= k
    ensures r < |l| ==> Due(l, key, r + 1) > k
    decreases |l| - i
  {
    if i == |l| || Due(l, key, i + 1) > k then i else DeltaPos(l, key, k, i + 1)
  }

  lemma {:induction false} DeltaPosUnique(l: seq<int>, key: seq<int>, k: int, i: nat)
    requires Within(l, |key|) && i <= |l|
    requires forall m :: 0 < m <= i ==> Due(l, key, m) <= k
    requires i < |l| ==> Due(l, key, i + 1) > k
    ensures DeltaPos(l, key, k) == i
  {
  }

  /** The keys after insertd: the new thread keeps what is left of k, and the
      thread behind it gives that much up. */
  function DeltaKeys(l: seq<int>, key: seq<int>, t: int, k: int): (r: seq<int>)
    requires Within(l, |key|) && 0 <= t < |key|
    ensures |r| == |key|
  {
    var i := DeltaPos(l, key, k);
    var rest := k - Due(l, key, i);
    var r := key[t := rest];
    if i < |l| then r[l[i] := key[l[i]] - rest] else r
  }

  function DeltaInsert(l: seq<int>, key: seq<int>, t: int, k: int): (r: seq<int>)
    requires Within(l, |key|)
  {
    InsertAt(l, DeltaPos(l, key, k), t)
  }

  /** The keys after unsleep: the thread behind inherits the removed key. */
  function UndeltaKeys(l: seq<int>, key: seq<int>, t: int): (r: seq<int>)
    requires Within(l, |key|) && t in l
    ensures |r| == |key|
  {
    var i := IndexOf(l, t);
    if i + 1 < |l| then key[l[i+1] := key[l[i+1]] + key[t]] else key
  }

  /** Remaining ticks of a queued thread. */
  function Remaining(l: seq<int>, key: seq<int>, t: int): (r: int)
    requires Within(l, |key|) && t in l
  {
    Due(l, key, IndexOf(l, t) + 1)
  }
}
