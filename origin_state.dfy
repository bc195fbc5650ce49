/** The lock state of one origin: a request queue per resource name and an index from
    lock id to the queue that holds the lock. */
module OriginStates {
  import opened Locks
  import opened RequestQueues

  /** The state of one origin as a value: its queues by resource name, the index from lock
      id to the name of the queue holding that lock, and the ids of the locks whose handles
      were broken by a steal, oldest first. */
  datatype OriginView = OriginView(queues: map<string, Queue>, index: map<int, string>, broken: seq<int>)

  const EmptyView: OriginView := OriginView(map[], map[], [])

  /** The queue of name n is non-empty and well formed, its ids are distinct, and every
      lock in it carries the name n and is indexed under n. */
  ghost predicate Indexed(v: OriginView, n: string)
    requires n in v.queues
  {
    var q := v.queues[n];
    && q != []
    && WellFormed(q)
    && DistinctIds(q)
    && forall i :: 0 <= i < |q| ==> q[i].name == n && q[i].id in v.index && v.index[q[i].id] == n
  }

  /** The origin invariant: the queues and the id index agree in both directions, and no
      empty queue is kept. */
  ghost predicate ValidView(v: OriginView)
  {
    && (forall n :: n in v.queues ==> Indexed(v, n))
    && (forall id :: id in v.index ==> v.index[id] in v.queues && id in IdSet(v.queues[v.index[id]]))
  }

  /** The queue of a name; a name without a queue has an empty one. */
  function QueueOf(v: OriginView, name: string): Queue
  {
    if name in v.queues then v.queues[name] else []
  }

  /** What a request that does not steal tells its client. */
  function AddOutcome(q: Queue, mode: Mode, wait: WaitMode): Outcome
  {
    if CanGrant(q, mode) then Acquired else if wait == NoWait then Failed else Queued
  }

  /** The state after AddRequest: a failed request leaves no trace; any other is appended
      to its queue, granted when CanGrant allows it, and indexed. */
  function Added(v: OriginView, id: int, name: string, mode: Mode, clientId: string, wait: WaitMode): OriginView
  {
    var q := QueueOf(v, name);
    var outcome := AddOutcome(q, mode, wait);
    if outcome == Failed then v
    else
      var l := Lock(name, mode, id, clientId, if outcome == Acquired then Granted else Pending);
      v.(queues := v.queues[name := q + [l]], index := v.index[id := name])
  }

  /** The state after PreemptLock: the granted locks at the front are broken and leave the
      queue and the index; the new lock enters the queue at its front, granted, and is indexed. */
  function Preempted(v: OriginView, id: int, name: string, mode: Mode, clientId: string): OriginView
  {
    var q := QueueOf(v, name);
    var k := HeldCount(q);
    OriginView(v.queues[name := [Lock(name, mode, id, clientId, Granted)] + q[k..]],
               (v.index - IdSet(q[..k]))[id := name],
               v.broken + Ids(q[..k]))
  }

  /** The state after EraseLock: an unknown id changes nothing; a known one leaves the index
      and its queue, the queue re-grants its front, and a queue left empty is dropped. */
  function Erased(v: OriginView, id: int): OriginView
  {
    if id !in v.index then v
    else
      var name := v.index[id];
      var q := Regrant(Remove(QueueOf(v, name), id));
      v.(queues := if q == [] then v.queues - {name} else v.queues[name := q],
         index := v.index - {id})
  }

  /** order lists each resource name of keys exactly once. */
  ghost predicate Enumerates(order: seq<string>, keys: set<string>)
  {
    && (forall i, j :: 0 <= i < j < |order| ==> order[i] != order[j])
    && (forall n :: n in order <==> n in keys)
  }

  /** The locks of the queues named in order, queue after queue, each in queue order. */
  function Flatten(queues: map<string, Queue>, order: seq<string>): Queue
    requires forall n :: n in order ==> n in queues
  {
    if order == [] then []
    else Flatten(queues, order[..|order| - 1]) + queues[order[|order| - 1]]
  }

  // ----- Invariant preservation -----

  lemma IdOf(q: Queue, id: int) returns (p: nat)
    requires id in IdSet(q)
    ensures p < |q| && q[p].id == id
  {
    var l :| l in q && l.id == id;
    p :| p < |q| && q[p] == l;
  }

  /** A queue that did not change stays indexed when the index keeps its ids under its name. */
  lemma IndexedUnchanged(v: OriginView, w: OriginView, n: string)
    requires n in v.queues && Indexed(v, n)
    requires n in w.queues && w.queues[n] == v.queues[n]
    requires forall x :: x in v.index && v.index[x] == n ==> x in w.index && w.index[x] == n
    ensures Indexed(w, n)
  {
  }

  /** The queue of name with one more lock, whose id is new, at its back. */
  lemma IndexedAppend(v: OriginView, w: OriginView, name: string, l: Lock)
    requires name in v.queues ==> Indexed(v, name)
    requires l.id !in v.index && l.name == name
    requires WellFormed(QueueOf(v, name) + [l])
    requires name in w.queues && w.queues[name] == QueueOf(v, name) + [l]
    requires w.index == v.index[l.id := name]
    ensures Indexed(w, name)
  {
    var q := QueueOf(v, name);
    var r := q + [l];
    forall i | 0 <= i < |r| ensures r[i].name == name && r[i].id in w.index && w.index[r[i].id] == name {
      if i < |q| {
        assert r[i] == q[i];
      }
    }
    forall i, j | 0 <= i < j < |r| ensures r[i].id != r[j].id {
      assert r[i] == q[i];
      if j < |q| {
        assert r[j] == q[j];
      }
    }
  }

  /** AddRequest keeps the origin invariant; the index gains the new id unless the request failed. */
  lemma AddedValid(v: OriginView, id: int, name: string, mode: Mode, clientId: string, wait: WaitMode)
    requires ValidView(v) && id !in v.index
    ensures ValidView(Added(v, id, name, mode, clientId, wait))
    ensures forall x :: x in Added(v, id, name, mode, clientId, wait).index ==> x in v.index || x == id
    ensures AddOutcome(QueueOf(v, name), mode, wait) != Failed ==> id in Added(v, id, name, mode, clientId, wait).index
    ensures v.index != map[] ==> Added(v, id, name, mode, clientId, wait).index != map[]
  {
    var q := QueueOf(v, name);
    var outcome := AddOutcome(q, mode, wait);
    if outcome != Failed {
      var l := Lock(name, mode, id, clientId, if outcome == Acquired then Granted else Pending);
      var r := q + [l];
      var w := v.(queues := v.queues[name := r], index := v.index[id := name]);
      assert w == Added(v, id, name, mode, clientId, wait);
      assert name in v.queues ==> Indexed(v, name);
      AppendKeepsWellFormed(q, l);
      IndexedAppend(v, w, name, l);
      forall n | n in w.queues && n != name ensures Indexed(w, n) {
        IndexedUnchanged(v, w, n);
      }
      forall x | x in w.index ensures w.index[x] in w.queues && x in IdSet(w.queues[w.index[x]]) {
        if x == id {
          assert r[|q|] == l;
        } else if v.index[x] == name {
          var p := IdOf(q, x);
          assert r[p] == q[p];
        }
      }
    }
  }

  /** Every id of the queue of name is indexed under name. */
  lemma QueueIdsIndexed(v: OriginView, name: string)
    requires name in v.queues ==> Indexed(v, name)
    ensures forall x :: x in IdSet(QueueOf(v, name)) ==> x in v.index && v.index[x] == name
  {
    forall x | x in IdSet(QueueOf(v, name)) ensures x in v.index && v.index[x] == name {
      var p := IdOf(QueueOf(v, name), x);
    }
  }

  /** The queue of name after a steal: the new lock, whose id is new, ahead of the locks
      that follow the k broken ones. */
  lemma IndexedPreempt(v: OriginView, w: OriginView, name: string, l: Lock, k: nat)
    requires name in v.queues ==> Indexed(v, name)
    requires k <= |QueueOf(v, name)|
    requires l.id !in v.index && l.name == name
    requires WellFormed([l] + QueueOf(v, name)[k..])
    requires name in w.queues && w.queues[name] == [l] + QueueOf(v, name)[k..]
    requires w.index == (v.index - IdSet(QueueOf(v, name)[..k]))[l.id := name]
    ensures Indexed(w, name)
  {
    var q := QueueOf(v, name);
    var r := [l] + q[k..];
    forall i | 1 <= i < |r| ensures r[i].name == name && r[i].id in w.index && w.index[r[i].id] == name {
      assert r[i] == q[k + i - 1];
      forall j | 0 <= j < k ensures q[..k][j].id != r[i].id {
        assert q[..k][j] == q[j];
      }
    }
    forall i, j | 0 <= i < j < |r| ensures r[i].id != r[j].id {
      assert r[j] == q[k + j - 1];
      if 0 < i {
        assert r[i] == q[k + i - 1];
      }
    }
  }

  lemma IdsGrow(q: Queue, k: nat)
    requires k < |q|
    ensures IdSet(q[..k + 1]) == IdSet(q[..k]) + {q[k].id}
    ensures Ids(q[..k + 1]) == Ids(q[..k]) + [q[k].id]
  {
    assert q[..k + 1] == q[..k] + [q[k]];
  }

  lemma PrefixIds(q: Queue, k: nat)
    requires k <= |q|
    ensures forall x :: x in IdSet(q[..k]) <==> exists p :: 0 <= p < k && q[p].id == x
  {
    forall x | x in IdSet(q[..k]) ensures exists p :: 0 <= p < k && q[p].id == x {
      var p := IdOf(q[..k], x);
      assert q[..k][p] == q[p];
    }
    forall p | 0 <= p < k ensures q[p].id in IdSet(q[..k]) {
      assert q[..k][p] == q[p];
    }
  }

  /** A steal on name leaves the queues of the other names indexed. */
  lemma PreemptKeepsOthersIndexed(v: OriginView, w: OriginView, name: string, id: int, k: nat)
    requires ValidView(v) && id !in v.index
    requires k <= |QueueOf(v, name)|
    requires w.queues.Keys == v.queues.Keys + {name}
    requires forall n :: n in v.queues && n != name ==> w.queues[n] == v.queues[n]
    requires w.index == (v.index - IdSet(QueueOf(v, name)[..k]))[id := name]
    ensures forall n :: n in w.queues && n != name ==> Indexed(w, n)
  {
    var q := QueueOf(v, name);
    assert name in v.queues ==> Indexed(v, name);
    QueueIdsIndexed(v, name);
    PrefixIds(q, k);
    forall n | n in w.queues && n != name ensures Indexed(w, n) {
      IndexedUnchanged(v, w, n);
    }
  }

  /** After a steal on name every indexed id names a queue that holds it. */
  lemma PreemptKeepsIndexCovered(v: OriginView, w: OriginView, name: string, l: Lock, k: nat)
    requires ValidView(v)
    requires k <= |QueueOf(v, name)|
    requires w.queues == v.queues[name := [l] + QueueOf(v, name)[k..]]
    requires w.index == (v.index - IdSet(QueueOf(v, name)[..k]))[l.id := name]
    ensures forall x :: x in w.index ==> w.index[x] in w.queues && x in IdSet(w.queues[w.index[x]])
  {
    var q := QueueOf(v, name);
    var r := [l] + q[k..];
    PrefixIds(q, k);
    forall x | x in w.index ensures w.index[x] in w.queues && x in IdSet(w.queues[w.index[x]]) {
      if x == l.id {
        assert r[0] == l;
      } else if v.index[x] == name {
        var p := IdOf(q, x);
        assert r[p - k + 1] == q[p];
      }
    }
  }

  /** PreemptLock keeps the origin invariant. */
  lemma PreemptedValid(v: OriginView, id: int, name: string, mode: Mode, clientId: string)
    requires ValidView(v) && id !in v.index && mode == Exclusive
    ensures ValidView(Preempted(v, id, name, mode, clientId))
  {
    var q := QueueOf(v, name);
    var k := HeldCount(q);
    var l := Lock(name, mode, id, clientId, Granted);
    var w := OriginView(v.queues[name := [l] + q[k..]], (v.index - IdSet(q[..k]))[id := name], v.broken + Ids(q[..k]));
    assert w == Preempted(v, id, name, mode, clientId);
    assert name in v.queues ==> Indexed(v, name);
    PreemptKeepsWellFormed(q, l);
    IndexedPreempt(v, w, name, l, k);
    PreemptKeepsOthersIndexed(v, w, name, id, k);
    PreemptKeepsIndexCovered(v, w, name, l, k);
  }

  /** A steal breaks exactly the locks that were granted, in queue order, and takes their
      ids out of the index; the new lock is granted at the front, ahead of exactly the
      locks that were pending, in their order. */
  lemma PreemptedShape(v: OriginView, id: int, name: string, mode: Mode, clientId: string)
    requires ValidView(v) && mode == Exclusive
    ensures Preempted(v, id, name, mode, clientId).queues[name] ==
      [Lock(name, mode, id, clientId, Granted)] + Having(QueueOf(v, name), Pending)
    ensures Preempted(v, id, name, mode, clientId).broken == v.broken + Ids(Having(QueueOf(v, name), Granted))
    ensures forall x :: x in Preempted(v, id, name, mode, clientId).index <==>
      x == id || (x in v.index && x !in IdSet(Having(QueueOf(v, name), Granted)))
  {
    var q := QueueOf(v, name);
    assert name in v.queues ==> Indexed(v, name);
    PreemptKeepsWellFormed(q, Lock(name, mode, id, clientId, Granted));
  }

  /** Taking the lock id out of a well-formed queue with distinct ids and re-granting its
      front leaves a well-formed queue of the same name whose ids are the others. */
  lemma ErasedQueue(q: Queue, id: int, name: string)
    requires WellFormed(q) && DistinctIds(q) && id in IdSet(q)
    requires forall i :: 0 <= i < |q| ==> q[i].name == name
    ensures WellFormed(Regrant(Remove(q, id))) && DistinctIds(Regrant(Remove(q, id)))
    ensures forall i :: 0 <= i < |Regrant(Remove(q, id))| ==> Regrant(Remove(q, id))[i].name == name
    ensures forall x :: x in IdSet(Regrant(Remove(q, id))) <==> x in IdSet(q) && x != id
  {
    var p := IdOf(q, id);
    RemoveAt(q, p);
    var s := Remove(q, id);
    ReleaseKeepsWellFormed(q, p);
    RemoveAtKeepsDistinct(q, p);
    RegrantKeepsIds(s);
    forall i | 0 <= i < |s| ensures s[i].name == name {
      assert s[i] in q;
    }
    forall x | x in IdSet(q) && x != id ensures x in IdSet(s) {
      var l :| l in q && l.id == x;
    }
  }

  /** A known id is in no queue but its own. */
  lemma IdOnlyInItsQueue(v: OriginView, id: int, n: string)
    requires ValidView(v) && n in v.queues && id in IdSet(v.queues[n])
    ensures id in v.index && v.index[id] == n
  {
    QueueIdsIndexed(v, n);
  }

  /** EraseLock keeps the origin invariant and takes the id out of every queue. */
  lemma ErasedValid(v: OriginView, id: int)
    requires ValidView(v)
    ensures ValidView(Erased(v, id))
    ensures forall n :: n in Erased(v, id).queues ==> id !in IdSet(Erased(v, id).queues[n])
  {
    var w := Erased(v, id);
    if id !in v.index {
      forall n | n in v.queues ensures id !in IdSet(v.queues[n]) {
        if id in IdSet(v.queues[n]) {
          IdOnlyInItsQueue(v, id, n);
        }
      }
    } else {
      var name := v.index[id];
      var q := v.queues[name];
      assert Indexed(v, name);
      ErasedQueue(q, id, name);
      var r := Regrant(Remove(q, id));
      QueueIdsIndexed(v, name);
      forall n | n in w.queues ensures Indexed(w, n) && id !in IdSet(w.queues[n]) {
        if n == name {
          forall i | 0 <= i < |r| ensures r[i].id in w.index && w.index[r[i].id] == name {
            assert r[i] in r;
          }
        } else {
          assert Indexed(v, n);
          QueueIdsIndexed(v, n);
          if id in IdSet(v.queues[n]) {
            IdOnlyInItsQueue(v, id, n);
          }
        }
      }
      forall x | x in w.index ensures w.index[x] in w.queues && x in IdSet(w.queues[w.index[x]]) {
        if v.index[x] == name {
          assert x in IdSet(r);
        }
      }
    }
  }

  // ----- Queries -----

  /** An origin has a queue exactly when it has an indexed lock. */
  lemma NoQueueIffNoId(v: OriginView)
    requires ValidView(v)
    ensures v.index == map[] <==> v.queues == map[]
  {
    if v.queues != map[] {
      assert v.queues.Keys != {};
      var n :| n in v.queues;
      assert Indexed(v, n);
      assert v.queues[n][0].id in v.index;
    }
    if v.queues == map[] {
      forall id | id in v.index ensures v.index[id] in v.queues {}
      assert v.index == map[];
    }
  }

  /** Every lock of every enumerated queue is in the flattened list, and nothing else is. */
  lemma {:induction false} FlattenHoldsEveryLock(queues: map<string, Queue>, order: seq<string>)
    requires forall n :: n in order ==> n in queues
    ensures forall n, l :: n in order && l in queues[n] ==> l in Flatten(queues, order)
    ensures forall l :: l in Flatten(queues, order) ==> exists n :: n in order && l in queues[n]
  {
    if order != [] {
      var init := order[..|order| - 1];
      var last := order[|order| - 1];
      FlattenHoldsEveryLock(queues, init);
      forall n, l | n in order && l in queues[n] ensures l in Flatten(queues, order) {
        if n != last {
          var i :| 0 <= i < |order| && order[i] == n;
          assert init[i] == n;
        }
      }
      forall l | l in Flatten(queues, order) ensures exists n :: n in order && l in queues[n] {
        assert Flatten(queues, order) == Flatten(queues, init) + queues[last];
        if l !in queues[last] {
          assert l in Flatten(queues, init);
          var n :| n in init && l in queues[n];
          var i :| 0 <= i < |init| && init[i] == n;
          assert order[i] == n;
        }
      }
    }
  }

  /** The position of the lock with the given id in q, found by walking the queue from
      its front. */
  method Locate(q: Queue, id: int) returns (p: nat)
    requires id in IdSet(q)
    ensures p < |q| && q[p].id == id
    ensures forall j :: 0 <= j < p ==> q[j].id != id
  {
    ghost var t := IdOf(q, id);
    p := 0;
    while q[p].id != id
      invariant p <= t
      invariant forall j :: 0 <= j < p ==> q[j].id != id
      decreases t - p
    {
      p := p + 1;
    }
  }

  /** Grants the lock at the front of q when it is exclusive, or the whole run of shared
      locks at the front otherwise. */
  method GrantNext(q: Queue) returns (r: Queue)
    requires q != [] && q[0].status == Pending
    ensures r == Regrant(q)
  {
    r := q;
    if q[0].mode == Exclusive {
      r := r[0 := r[0].(status := Granted)];
      assert r == GrantFirst(q, 1);
    } else {
      var i := 0;
      while i < |r| && r[i].mode == Shared
        invariant i <= |r| == |q|
        invariant forall j :: 0 <= j < i ==> q[j].mode == Shared && r[j] == q[j].(status := Granted)
        invariant forall j :: i <= j < |r| ==> r[j] == q[j]
      {
        r := r[i := r[i].(status := Granted)];
        i := i + 1;
      }
      assert i == SharedRun(q);
      assert r == GrantFirst(q, i);
    }
  }

  /** The queue q without the lock of the given id, with the next lock or locks granted
      when its front is left ungranted. */
  method EraseFrom(q: Queue, id: int) returns (r: Queue)
    requires id in IdSet(q) && DistinctIds(q)
    ensures r == Regrant(Remove(q, id))
  {
    var p := Locate(q, id);
    RemoveAt(q, p);
    r := q[..p] + q[p + 1..];
    if r != [] && r[0].status != Granted {
      r := GrantNext(r);
    }
  }

  /** The mutable state of one origin. */
  class OriginState {
    /** The request queue of every resource name that has one. */
    var queues: map<string, Queue>
    /** For every lock id, the name of the queue that holds the lock. */
    var index: map<int, string>
    /** The ids of the locks broken by steals, oldest first. */
    var broken: seq<int>
    /** The origin this state belongs to. */
    ghost const origin: string

    ghost function View(): OriginView
      reads this
    {
      OriginView(queues, index, broken)
    }

    ghost predicate Valid()
      reads this
    {
      ValidView(View())
    }

    constructor (ghost origin: string)
      ensures Valid() && View() == EmptyView && this.origin == origin
    {
      queues, index, broken := map[], map[], [];
      this.origin := origin;
    }

    /** Breaks the granted lock at the front of the queue q: it leaves the index, its
        handle is broken, and the rest of the queue is returned. */
    method BreakFront(q: Queue) returns (rest: Queue)
      requires q != [] && q[0].status == Granted
      modifies this`index, this`broken
      ensures index == old(index) - {q[0].id}
      ensures broken == old(broken) + [q[0].id]
      ensures rest == q[1..]
    {
      index := index - {q[0].id};
      broken := broken + [q[0].id];
      rest := q[1..];
    }

    /** Breaks the granted locks at the front of the queue q, one after the other, and
        returns the locks that remain: the pending ones. */
    method BreakGranted(q: Queue) returns (rest: Queue)
      modifies this`index, this`broken
      ensures rest == q[HeldCount(q)..]
      ensures index == old(index) - IdSet(q[..HeldCount(q)])
      ensures broken == old(broken) + Ids(q[..HeldCount(q)])
    {
      rest := q;
      ghost var k := 0;
      while rest != [] && rest[0].status == Granted
        invariant k <= HeldCount(q) && rest == q[k..]
        invariant index == old(index) - IdSet(q[..k])
        invariant broken == old(broken) + Ids(q[..k])
        decreases |rest|
      {
        IdsGrow(q, k);
        rest := BreakFront(rest);
        k := k + 1;
      }
    }

    /** Steals the lock of name: breaks every granted lock at the front of its queue, then
        puts the new lock at the front, granted. */
    method PreemptLock(id: int, name: string, mode: Mode, clientId: string)
      requires Valid() && id !in index && mode == Exclusive
      modifies this
      ensures Valid()
      ensures View() == Preempted(old(View()), id, name, mode, clientId)
    {
      ghost var v := View();
      var q := if name in queues then queues[name] else [];
      var rest := BreakGranted(q);
      var l := Lock(name, mode, id, clientId, Granted);
      queues := queues[name := [l] + rest];
      index := index[id := name];
      PreemptedValid(v, id, name, mode, clientId);
    }

    /** Queues a request that does not steal. It is granted at once when CanGrant allows;
        otherwise a NoWait request fails and leaves no trace, and any other waits at the back. */
    method AddRequest(id: int, name: string, mode: Mode, clientId: string, wait: WaitMode) returns (outcome: Outcome)
      requires Valid() && id !in index && wait != Preempt
      modifies this
      ensures Valid()
      ensures outcome == Acquired <==> CanGrant(old(QueueOf(View(), name)), mode)
      ensures outcome == Failed <==> !CanGrant(old(QueueOf(View(), name)), mode) && wait == NoWait
      ensures outcome == Failed ==> View() == old(View())
      ensures outcome == AddOutcome(old(QueueOf(View(), name)), mode, wait)
      ensures View() == Added(old(View()), id, name, mode, clientId, wait)
    {
      AddedValid(View(), id, name, mode, clientId, wait);
      var q := if name in queues then queues[name] else [];
      var canGrant := CanGrant(q, mode);
      if !canGrant && wait == NoWait {
        return Failed;
      }
      queues := queues[name := q + [Lock(name, mode, id, clientId, if canGrant then Granted else Pending)]];
      index := index[id := name];
      outcome := if canGrant then Acquired else Queued;
    }

    /** Removes the lock with the given id, if it is still known, and grants the next lock
        or locks when the front of its queue is left ungranted; a queue left empty is dropped. */
    method EraseLock(id: int)
      requires Valid()
      modifies this
      ensures Valid()
      ensures View() == Erased(old(View()), id)
    {
      ErasedValid(View(), id);
      if id !in index {
        return;
      }
      var name := index[id];
      index := index - {id};
      var q := if name in queues then queues[name] else [];
      q := EraseFrom(q, id);
      if q == [] {
        queues := queues - {name};
      } else {
        queues := queues[name := q];
      }
    }

    /** True when the origin holds no lock at all: its index, and so its set of queues, is empty. */
    predicate IsEmpty()
      reads this
      requires Valid()
      ensures IsEmpty() <==> queues == map[]
    {
      NoQueueIffNoId(View());
      index == map[]
    }

    /** Lists every lock of the origin, granted ones as held and pending ones as requested,
        queue by queue in some order of the resource names, each queue in its own order.
        Nothing changes. */
    method Snapshot() returns (requests: seq<LockInfo>, held: seq<LockInfo>, ghost order: seq<string>)
      ensures Enumerates(order, queues.Keys)
      ensures requests == Listed(Flatten(queues, order), Pending)
      ensures held == Listed(Flatten(queues, order), Granted)
    {
      requests, held, order := [], [], [];
      var names := queues.Keys;
      while names != {}
        invariant names <= queues.Keys
        invariant forall i, j :: 0 <= i < j < |order| ==> order[i] != order[j]
        invariant forall n :: n in order <==> n in queues && n !in names
        invariant requests == Listed(Flatten(queues, order), Pending)
        invariant held == Listed(Flatten(queues, order), Granted)
        decreases names
      {
        var name :| name in names;
        var q := queues[name];
        ghost var before := Flatten(queues, order);
        ghost var prior := order;
        names := names - {name};
        order := order + [name];
        assert order[..|order| - 1] == prior;
        forall i, j | 0 <= i < j < |order| ensures order[i] != order[j] {
          assert order[i] == prior[i] && prior[i] in prior;
          if j < |prior| {
            assert order[j] == prior[j];
          }
        }
        if q != [] {
          assert before + q[..0] == before;
          for i := 0 to |q|
            invariant requests == Listed(before + q[..i], Pending)
            invariant held == Listed(before + q[..i], Granted)
          {
            assert (before + q[..i + 1])[..|before + q[..i + 1]| - 1] == before + q[..i];
            if q[i].status == Granted {
              held := held + [Info(q[i])];
            } else {
              requests := requests + [Info(q[i])];
            }
          }
          assert q[..|q|] == q;
        } else {
          assert before + q == before;
        }
      }
    }
  }
}
