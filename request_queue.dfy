/** The rules of one resource's request queue: when a new request may be granted at
    once, which locks a steal breaks, and which waiting locks a release lets through. */
module RequestQueues {
  import opened Locks

  /** The locks of one resource name, in the order they entered the queue. */
  type Queue = seq<Lock>

  /** The immediate-grant test of AddRequest. It looks only at the BACK of the queue:
      either the queue is empty, or the back lock is a granted shared lock and the new
      request is shared. */
  predicate CanGrant(q: Queue, mode: Mode)
  {
    q == [] || (q[|q| - 1].status == Granted && q[|q| - 1].mode == Shared && mode == Shared)
  }

  /** The whole-queue reading of compatibility: nobody waits, and every holder is
      compatible with a lock of the given mode. */
  ghost predicate Compatible(q: Queue, mode: Mode)
  {
    q == [] || (mode == Shared && forall i :: 0 <= i < |q| ==> q[i].status == Granted && q[i].mode == Shared)
  }

  /** Granted locks form a prefix of the queue, and a prefix of more than one granted
      lock holds only shared locks. */
  ghost predicate Ordered(q: Queue)
  {
    forall i, j :: 0 <= i < j < |q| && q[j].status == Granted ==>
      q[i].status == Granted && q[i].mode == Shared && q[j].mode == Shared
  }

  /** The queue invariant: ordered, and a non-empty queue always has a holder at its front. */
  ghost predicate WellFormed(q: Queue)
  {
    Ordered(q) && (q != [] ==> q[0].status == Granted)
  }

  ghost predicate DistinctIds(q: Queue)
  {
    forall i, j :: 0 <= i < j < |q| ==> q[i].id != q[j].id
  }

  function IdSet(q: Queue): set<int>
  {
    set l | l in q :: l.id
  }

  /** The ids of the locks of q, in queue order. */
  function Ids(q: Queue): seq<int>
  {
    seq(|q|, i requires 0 <= i < |q| => q[i].id)
  }

  /** The locks of q with the given status, in queue order. */
  function Having(q: Queue, st: Status): Queue
  {
    if q == [] then [] else (if q[0].status == st then [q[0]] else []) + Having(q[1..], st)
  }

  /** The number of granted locks at the front of q. */
  function HeldCount(q: Queue): (k: nat)
    ensures k <= |q|
    ensures forall i :: 0 <= i < k ==> q[i].status == Granted
    ensures k < |q| ==> q[k].status == Pending
  {
    if q == [] || q[0].status == Pending then 0 else 1 + HeldCount(q[1..])
  }

  /** The number of shared locks at the front of q. */
  function SharedRun(q: Queue): (k: nat)
    ensures k <= |q|
    ensures forall i :: 0 <= i < k ==> q[i].mode == Shared
    ensures k < |q| ==> q[k].mode == Exclusive
  {
    if q == [] then 0
    else match q[0].mode
      case Shared => 1 + SharedRun(q[1..])
      case Exclusive => 0
  }

  /** q with its first k locks granted. */
  function GrantFirst(q: Queue, k: nat): Queue
    requires k <= |q|
  {
    seq(|q|, i requires 0 <= i < |q| => if i < k then q[i].(status := Granted) else q[i])
  }

  /** What EraseLock does to the queue that remains after the removal: if its front is
      not granted, grant the front exclusive lock alone, or the run of shared locks at
      the front. */
  function Regrant(q: Queue): (r: Queue)
    ensures |r| == |q|
    ensures forall i :: 0 <= i < |q| ==> r[i].(status := Pending) == q[i].(status := Pending)
    ensures forall i :: 0 <= i < |q| && q[i].status == Granted ==> r[i].status == Granted
  {
    if q == [] || q[0].status == Granted then q
    else if q[0].mode == Exclusive then GrantFirst(q, 1)
    else GrantFirst(q, SharedRun(q))
  }

  /** q without the lock with the given id. */
  function Remove(q: Queue, id: int): (r: Queue)
  {
    if q == [] then []
    else if q[0].id == id then Remove(q[1..], id)
    else [q[0]] + Remove(q[1..], id)
  }

  /** The snapshot entries of the locks of q with the given status, in queue order. */
  function Listed(q: Queue, st: Status): seq<LockInfo>
  {
    if q == [] then []
    else Listed(q[..|q| - 1], st) + (if q[|q| - 1].status == st then [Info(q[|q| - 1])] else [])
  }

  // ----- Immediate grant -----

  /** Although CanGrant looks only at the back lock, on an ordered queue it agrees with
      the whole-queue test: a request is granted at once exactly when nobody waits and
      every holder is compatible with it. A later shared request therefore never
      overtakes a waiting exclusive one. */
  lemma CanGrantIsCompatible(q: Queue, mode: Mode)
    requires Ordered(q)
    ensures CanGrant(q, mode) <==> Compatible(q, mode)
  {
    if q != [] && CanGrant(q, mode) {
      var j := |q| - 1;
      forall i | 0 <= i < |q| ensures q[i].status == Granted && q[i].mode == Shared {
        if i < j {
          assert q[i].status == Granted && q[i].mode == Shared;
        }
      }
    }
  }

  /** Appending a lock, granted exactly when CanGrant allows it, keeps the queue invariant. */
  lemma AppendKeepsWellFormed(q: Queue, l: Lock)
    requires WellFormed(q)
    requires l.status == (if CanGrant(q, l.mode) then Granted else Pending)
    ensures WellFormed(q + [l])
  {
    CanGrantIsCompatible(q, l.mode);
    var r := q + [l];
    forall i, j | 0 <= i < j < |r| && r[j].status == Granted
      ensures r[i].status == Granted && r[i].mode == Shared && r[j].mode == Shared
    {
      if j == |q| {
        assert r[i] == q[i];
      } else {
        assert r[i] == q[i] && r[j] == q[j];
      }
    }
  }

  // ----- Preemption -----

  lemma {:induction false} HavingAll(q: Queue, st: Status)
    requires forall i :: 0 <= i < |q| ==> q[i].status == st
    ensures Having(q, st) == q
    ensures forall other :: other != st ==> Having(q, other) == []
  {
    if q != [] {
      HavingAll(q[1..], st);
      assert q == [q[0]] + q[1..];
    }
  }

  /** On an ordered queue the granted locks at the front are all its granted locks, and
      what follows them is exactly its pending locks, in their original order. A steal
      breaks the first and keeps the second behind the new lock. */
  lemma {:induction false} HeldPrefixSplits(q: Queue)
    requires Ordered(q)
    ensures q[..HeldCount(q)] == Having(q, Granted)
    ensures q[HeldCount(q)..] == Having(q, Pending)
  {
    if q == [] {
    } else if q[0].status == Pending {
      forall i | 0 < i < |q| ensures q[i].status == Pending {}
      HavingAll(q, Pending);
    } else {
      var t := q[1..];
      assert Ordered(t) by {
        forall i, j | 0 <= i < j < |t| && t[j].status == Granted
          ensures t[i].status == Granted && t[i].mode == Shared && t[j].mode == Shared
        {
          assert t[i] == q[i + 1] && t[j] == q[j + 1];
        }
      }
      HeldPrefixSplits(t);
      assert q[..HeldCount(q)] == [q[0]] + t[..HeldCount(t)];
      assert q[HeldCount(q)..] == t[HeldCount(t)..];
    }
  }

  /** On an ordered queue every lock behind the granted prefix is pending. */
  lemma PendingAfterHeld(q: Queue)
    requires Ordered(q)
    ensures forall i :: 0 <= i < |q[HeldCount(q)..]| ==> q[HeldCount(q)..][i].status == Pending
  {
    var k := HeldCount(q);
    var s := q[k..];
    forall i | 0 <= i < |s| ensures s[i].status == Pending {
      assert s[i] == q[k + i];
      assert q[k].status == Pending;
    }
  }

  /** A granted lock ahead of pending locks only is a queue that satisfies the invariant. */
  lemma LoneHolderWellFormed(l: Lock, s: Queue)
    requires l.status == Granted
    requires forall i :: 0 <= i < |s| ==> s[i].status == Pending
    ensures WellFormed([l] + s)
  {
    var r := [l] + s;
    forall j | 1 <= j < |r| ensures r[j].status == Pending {
      assert r[j] == s[j - 1];
    }
  }

  /** The queue after a steal: the new exclusive lock, granted, ahead of exactly the
      previously pending locks in their original order. It satisfies the invariant. */
  lemma PreemptKeepsWellFormed(q: Queue, l: Lock)
    requires Ordered(q)
    requires l.status == Granted && l.mode == Exclusive
    ensures WellFormed([l] + q[HeldCount(q)..])
    ensures q[HeldCount(q)..] == Having(q, Pending)
    ensures q[..HeldCount(q)] == Having(q, Granted)
  {
    HeldPrefixSplits(q);
    PendingAfterHeld(q);
    LoneHolderWellFormed(l, q[HeldCount(q)..]);
  }

  // ----- Release -----

  /** Removing one lock keeps granted locks in a prefix and keeps an exclusive holder alone. */
  lemma RemoveAtKeepsOrdered(q: Queue, p: nat)
    requires Ordered(q) && p < |q|
    ensures Ordered(q[..p] + q[p + 1..])
  {
    var r := q[..p] + q[p + 1..];
    forall i, j | 0 <= i < j < |r| && r[j].status == Granted
      ensures r[i].status == Granted && r[i].mode == Shared && r[j].mode == Shared
    {
      var i' := if i < p then i else i + 1;
      var j' := if j < p then j else j + 1;
      assert r[i] == q[i'] && r[j] == q[j'];
      assert 0 <= i' < j' < |q| && q[j'].status == Granted;
    }
    assert Ordered(r);
  }

  /** Removing one lock keeps the ids distinct. */
  lemma RemoveAtKeepsDistinct(q: Queue, p: nat)
    requires DistinctIds(q) && p < |q|
    ensures DistinctIds(q[..p] + q[p + 1..])
  {
    var r := q[..p] + q[p + 1..];
    forall i, j | 0 <= i < j < |r| ensures r[i].id != r[j].id {
      var i' := if i < p then i else i + 1;
      var j' := if j < p then j else j + 1;
      assert r[i] == q[i'] && r[j] == q[j'];
    }
  }

  /** Re-granting changes statuses only: ids and names stay where they were. */
  lemma RegrantKeepsIds(q: Queue)
    ensures forall i :: 0 <= i < |q| ==> Regrant(q)[i].id == q[i].id && Regrant(q)[i].name == q[i].name
    ensures DistinctIds(q) ==> DistinctIds(Regrant(q))
    ensures IdSet(Regrant(q)) == IdSet(q)
  {
    var r := Regrant(q);
    forall i | 0 <= i < |q| ensures r[i].id == q[i].id && r[i].name == q[i].name {
      assert r[i].(status := Pending) == q[i].(status := Pending);
    }
    forall x | x in IdSet(r) ensures x in IdSet(q) {
      var l :| l in r && l.id == x;
      var t :| 0 <= t < |r| && r[t] == l;
      assert q[t] in q;
    }
    forall x | x in IdSet(q) ensures x in IdSet(r) {
      var l :| l in q && l.id == x;
      var t :| 0 <= t < |q| && q[t] == l;
      assert r[t] in r;
    }
  }

  lemma {:induction false} RemoveAbsent(q: Queue, id: int)
    requires forall i :: 0 <= i < |q| ==> q[i].id != id
    ensures Remove(q, id) == q
  {
    if q != [] {
      RemoveAbsent(q[1..], id);
      assert q == [q[0]] + q[1..];
    }
  }

  /** Remove keeps every lock with another id and drops every lock with the given one. */
  lemma {:induction false} RemoveMembers(q: Queue, id: int)
    ensures forall l :: l in Remove(q, id) <==> l in q && l.id != id
  {
    if q != [] {
      RemoveMembers(q[1..], id);
      assert q == [q[0]] + q[1..];
    }
  }

  /** The tail of a queue with distinct ids has distinct ids. */
  lemma DistinctTail(q: Queue)
    requires DistinctIds(q) && q != []
    ensures DistinctIds(q[1..])
  {
    var t := q[1..];
    forall i, j | 0 <= i < j < |t| ensures t[i].id != t[j].id {
      assert t[i] == q[i + 1] && t[j] == q[j + 1];
    }
  }

  /** With distinct ids, removing by id is removing the one position that holds the id. */
  lemma {:induction false} RemoveAt(q: Queue, p: nat)
    requires DistinctIds(q) && p < |q|
    ensures Remove(q, q[p].id) == q[..p] + q[p + 1..]
  {
    var t := q[1..];
    DistinctTail(q);
    if p == 0 {
      RemoveAbsent(t, q[0].id);
    } else {
      assert q[0].id != q[p].id;
      assert t[p - 1] == q[p];
      RemoveAt(t, p - 1);
      assert Remove(q, q[p].id) == [q[0]] + Remove(t, q[p].id);
      assert q[..p] == [q[0]] + t[..p - 1];
      assert q[p + 1..] == t[p..];
    }
  }

  /** After a release the queue may have lost its only holder; Regrant restores the
      invariant by granting the maximal compatible run at the front and nothing else:
      an exclusive front lock alone, or every shared lock before the first exclusive one.
      Granting one more lock would break the invariant. */
  lemma RegrantIsMaximal(q: Queue)
    requires Ordered(q) && q != [] && q[0].status == Pending
    ensures WellFormed(Regrant(q))
    ensures q[0].mode == Exclusive ==> HeldCount(Regrant(q)) == 1
    ensures q[0].mode == Shared ==> HeldCount(Regrant(q)) == SharedRun(q)
    ensures forall i :: HeldCount(Regrant(q)) <= i < |q| ==> Regrant(q)[i] == q[i]
    ensures var r := Regrant(q); var k := HeldCount(r);
      k < |r| ==> !Ordered(r[k := r[k].(status := Granted)])
  {
    forall i | 0 < i < |q| ensures q[i].status == Pending {}
    var r := Regrant(q);
    var n := if q[0].mode == Exclusive then 1 else SharedRun(q);
    assert r == GrantFirst(q, n);
    assert n >= 1;
    forall i | 0 <= i < n ensures r[i].status == Granted {}
    assert n < |r| ==> r[n].status == Pending;
    assert HeldCount(r) == n;
    forall i, j | 0 <= i < j < |r| && r[j].status == Granted
      ensures r[i].status == Granted && r[i].mode == Shared && r[j].mode == Shared
    {
      assert j < n;
    }
    if n < |r| {
      var r' := r[n := r[n].(status := Granted)];
      if q[0].mode == Exclusive {
        assert r'[0].mode == Exclusive && r'[n].status == Granted;
      } else {
        assert r'[n].mode == Exclusive && r'[n].status == Granted;
        assert r'[0].status == Granted;
      }
    }
  }

  /** Removing any one lock and re-granting keeps the queue invariant. */
  lemma ReleaseKeepsWellFormed(q: Queue, p: nat)
    requires WellFormed(q) && p < |q|
    ensures WellFormed(Regrant(q[..p] + q[p + 1..]))
  {
    var r := q[..p] + q[p + 1..];
    RemoveAtKeepsOrdered(q, p);
    if r != [] && r[0].status == Pending {
      RegrantIsMaximal(r);
    }
  }

  // ----- Snapshot -----

  /** A snapshot of a queue has one entry per lock: the held and the requested entries
      together are as many as the locks. */
  lemma {:induction false} ListedCount(q: Queue)
    ensures |Listed(q, Pending)| + |Listed(q, Granted)| == |q|
  {
    if q != [] {
      ListedCount(q[..|q| - 1]);
    }
  }

  /** A snapshot of a queue lists lock k among the entries of its own status (held for a
      granted lock, requested for a pending one), at the position given by the number of
      earlier locks with that status: each lock appears once, in queue order. */
  lemma {:induction false} ListedPlace(q: Queue, k: nat)
    requires k < |q|
    ensures var s := q[k].status; var r := |Listed(q[..k], s)|;
      r < |Listed(q, s)| && Listed(q, s)[r] == Info(q[k])
  {
    var n := |q| - 1;
    var t := q[..n];
    var s := q[k].status;
    assert Listed(q, s) == Listed(t, s) + (if q[n].status == s then [Info(q[n])] else []);
    if k == n {
      assert q[..k] == t;
    } else {
      ListedPlace(t, k);
      assert t[..k] == q[..k] && t[k] == q[k];
    }
  }
}
