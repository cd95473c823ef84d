/**
 The sleep queue stores differences. These lemmas show that it stands for a map
 from threads to remaining ticks: inserting, removing and ticking change that
 map exactly as one would change the map itself.
 */
module DeltaQueue {
  import opened ThreadLists

  lemma {:induction false} DeltaKeyAt(l: seq<int>, key: seq<int>, t: int, k: int, i: nat)
    requires Within(l, |key|) && NoDup(l) && 0 <= t < |key| && t !in l && i < |l|
    ensures var p, r := DeltaPos(l, key, k), DeltaKeys(l, key, t, k);
            && r[t] == k - Due(l, key, p)
            && r[l[i]] == if i == p then key[l[i]] - r[t] else key[l[i]]
  {
    hide Due, DeltaPos;
  }

  lemma {:induction false} NewKey(l: seq<int>, key: seq<int>, t: int, k: int)
    requires Within(l, |key|) && 0 <= t < |key| && t !in l
    ensures DeltaKeys(l, key, t, k)[t] == k - Due(l, key, DeltaPos(l, key, k))
  {
    hide Due, DeltaPos;
  }

  lemma {:induction false} DueAfterInsert(l: seq<int>, key: seq<int>, t: int, k: int, i: nat)
    requires Within(l, |key|) && NoDup(l) && 0 <= t < |key| && t !in l && i <= |l|
    ensures Within(DeltaInsert(l, key, t, k), |key|) && |DeltaInsert(l, key, t, k)| == |l| + 1
    ensures i <= DeltaPos(l, key, k) ==>
              Due(DeltaInsert(l, key, t, k), DeltaKeys(l, key, t, k), i) == Due(l, key, i)
    ensures i >= DeltaPos(l, key, k) ==>
              Due(DeltaInsert(l, key, t, k), DeltaKeys(l, key, t, k), i + 1)
              == if i == DeltaPos(l, key, k) then k else Due(l, key, i)
  {
    hide InsertAt, DeltaKeys, DeltaPos, NoDup;
    var p := DeltaPos(l, key, k);
    InsertWithin(l, p, t, |key|);
    InsertedAt(l, p, t, i);
    NewKey(l, key, t, k);
    if i > 0 {
      DueAfterInsert(l, key, t, k, i - 1);
      InsertedAt(l, p, t, i - 1);
      DeltaKeyAt(l, key, t, k, i - 1);
    }
  }

  lemma {:induction false} InsertMovesNobody(l: seq<int>, key: seq<int>, t: int, k: int, x: int)
    requires Within(l, |key|) && NoDup(l) && 0 <= t < |key| && t !in l && x in l
    ensures Within(DeltaInsert(l, key, t, k), |key|)
    ensures Remaining(DeltaInsert(l, key, t, k), DeltaKeys(l, key, t, k), x) == Remaining(l, key, x)
  {
    var p, i := DeltaPos(l, key, k), IndexOf(l, x);
    var l' := DeltaInsert(l, key, t, k);
    InsertMembers(l, p, t);
    if i < p {
      assert l'[i] == x;
      IndexUnique(l', i);
      DueAfterInsert(l, key, t, k, i + 1);
    } else {
      assert l'[i+1] == x;
      IndexUnique(l', i + 1);
      DueAfterInsert(l, key, t, k, i + 1);
    }
  }

  /** insertd puts the new thread at k ticks and moves nobody else. */
  lemma {:induction false} InsertIsMapUpdate(l: seq<int>, key: seq<int>, t: int, k: int)
    requires Within(l, |key|) && NoDup(l) && 0 <= t < |key| && t !in l
    ensures Within(DeltaInsert(l, key, t, k), |key|)
    ensures NoDup(DeltaInsert(l, key, t, k))
    ensures Remaining(DeltaInsert(l, key, t, k), DeltaKeys(l, key, t, k), t) == k
    ensures forall x :: x in l ==>
              Remaining(DeltaInsert(l, key, t, k), DeltaKeys(l, key, t, k), x) == Remaining(l, key, x)
  {
    var p := DeltaPos(l, key, k);
    InsertMembers(l, p, t);
    DueAfterInsert(l, key, t, k, p);
    IndexUnique(DeltaInsert(l, key, t, k), p);
    forall x | x in l
      ensures Remaining(DeltaInsert(l, key, t, k), DeltaKeys(l, key, t, k), x) == Remaining(l, key, x)
    {
      InsertMovesNobody(l, key, t, k, x);
    }
  }

  lemma {:induction false} InsertNonNegative(l: seq<int>, key: seq<int>, t: int, k: int)
    requires Within(l, |key|) && NoDup(l) && 0 <= t < |key| && t !in l
    requires NonNegative(l, key) && k >= 0
    ensures Within(DeltaInsert(l, key, t, k), |key|)
    ensures NonNegative(DeltaInsert(l, key, t, k), DeltaKeys(l, key, t, k))
    ensures k > 0 && (l != [] ==> key[l[0]] > 0) ==>
              DeltaKeys(l, key, t, k)[DeltaInsert(l, key, t, k)[0]] > 0
  {
    var p := DeltaPos(l, key, k);
    assert p > 0 ==> Due(l, key, p) <= k;
    assert p < |l| ==> Due(l, key, p + 1) == Due(l, key, p) + key[l[p]];
  }

  lemma {:induction false} RemovedAt(l: seq<int>, t: int, i: nat)
    requires t in l && i + 1 < |l|
    ensures |Remove(l, t)| == |l| - 1
    ensures Remove(l, t)[i] == if i < IndexOf(l, t) then l[i] else l[i+1]
  {
  }

  lemma {:induction false} RemoveWithin(l: seq<int>, t: int, n: nat)
    requires Within(l, n) && t in l
    ensures Within(Remove(l, t), n) && |Remove(l, t)| == |l| - 1
  {
  }

  lemma {:induction false} UndeltaAt(l: seq<int>, key: seq<int>, t: int, i: nat)
    requires Within(l, |key|) && NoDup(l) && t in l && i < |l|
    ensures UndeltaKeys(l, key, t)[l[i]] == if i == IndexOf(l, t) + 1 then key[l[i]] + key[t] else key[l[i]]
  {
  }

  lemma {:induction false} DueBeforeRemoved(l: seq<int>, key: seq<int>, t: int, i: nat)
    requires Within(l, |key|) && NoDup(l) && t in l && i <= IndexOf(l, t)
    ensures Within(Remove(l, t), |key|)
    ensures Due(Remove(l, t), UndeltaKeys(l, key, t), i) == Due(l, key, i)
  {
    hide Remove, UndeltaKeys, NoDup;
    RemoveWithin(l, t, |key|);
    if i > 0 {
      DueBeforeRemoved(l, key, t, i - 1);
      RemovedAt(l, t, i - 1);
      UndeltaAt(l, key, t, i - 1);
    }
  }

  lemma {:induction false} DueBehindRemoved(l: seq<int>, key: seq<int>, t: int, i: nat)
    requires Within(l, |key|) && NoDup(l) && t in l && IndexOf(l, t) + 2 <= i <= |l|
    ensures Within(Remove(l, t), |key|)
    ensures Due(Remove(l, t), UndeltaKeys(l, key, t), i - 1) == Due(l, key, i)
  {
    hide Remove, UndeltaKeys, NoDup;
    var p := IndexOf(l, t);
    RemoveWithin(l, t, |key|);
    RemovedAt(l, t, i - 2);
    UndeltaAt(l, key, t, i - 1);
    if i == p + 2 {
      DueBeforeRemoved(l, key, t, p);
      assert Due(l, key, p + 1) == Due(l, key, p) + key[l[p]];
    } else {
      DueBehindRemoved(l, key, t, i - 1);
    }
  }

  lemma {:induction false} RemoveMovesNobody(l: seq<int>, key: seq<int>, t: int, x: int)
    requires Within(l, |key|) && NoDup(l) && t in l && x in l && x != t
    ensures Within(Remove(l, t), |key|) && x in Remove(l, t)
    ensures Remaining(Remove(l, t), UndeltaKeys(l, key, t), x) == Remaining(l, key, x)
  {
    hide Remove, UndeltaKeys, NoDup, Due;
    RemoveMembers(l, t);
    var p, i := IndexOf(l, t), IndexOf(l, x);
    if i < p {
      RemovedAt(l, t, i);
      IndexUnique(Remove(l, t), i);
      DueBeforeRemoved(l, key, t, i + 1);
    } else {
      RemovedAt(l, t, i - 1);
      IndexUnique(Remove(l, t), i - 1);
      DueBehindRemoved(l, key, t, i + 1);
    }
  }

  /** unsleep forgets one thread and moves nobody else. */
  lemma {:induction false} RemoveIsMapDelete(l: seq<int>, key: seq<int>, t: int)
    requires Within(l, |key|) && NoDup(l) && t in l
    ensures Within(Remove(l, t), |key|)
    ensures NoDup(Remove(l, t))
    ensures forall x :: x in Remove(l, t) <==> x in l && x != t
    ensures forall x :: x in l && x != t ==>
              Remaining(Remove(l, t), UndeltaKeys(l, key, t), x) == Remaining(l, key, x)
  {
    hide Remove, UndeltaKeys, NoDup, Remaining;
    RemoveMembers(l, t);
    RemoveWithin(l, t, |key|);
    forall x | x in l && x != t
      ensures Remaining(Remove(l, t), UndeltaKeys(l, key, t), x) == Remaining(l, key, x)
    {
      RemoveMovesNobody(l, key, t, x);
    }
  }

  lemma {:induction false} RemoveNonNegative(l: seq<int>, key: seq<int>, t: int)
    requires Within(l, |key|) && NoDup(l) && t in l && NonNegative(l, key)
    ensures Within(Remove(l, t), |key|)
    ensures NonNegative(Remove(l, t), UndeltaKeys(l, key, t))
    ensures key[l[0]] > 0 && Remove(l, t) != [] ==> UndeltaKeys(l, key, t)[Remove(l, t)[0]] > 0
  {
  }
}
