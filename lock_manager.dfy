/** The broker: one origin state per origin, a lock id counter, and the entry points a
    client reaches (request, release, query). */
module LockManagers {
  import opened Locks
  import opened RequestQueues
  import opened OriginStates

  /** An origin state worth keeping: valid, holding at least one lock, and every lock id in
      it issued by a counter now at next. */
  ghost predicate OriginOk(s: OriginView, next: int)
  {
    && ValidView(s)
    && s.index != map[]
    && forall id :: id in s.index ==> PreemptiveLockId < id <= next
  }

  /** The broker invariant: the counter never went below the preemptive id, and every
      origin kept is worth keeping. */
  ghost predicate ManagerValid(w: map<string, OriginView>, next: int)
  {
    && next >= PreemptiveLockId
    && forall o :: o in w ==> OriginOk(w[o], next)
  }

  /** Replacing or dropping one origin keeps the invariant when the new state is worth keeping. */
  lemma UpdateKeepsValid(w: map<string, OriginView>, next: int, next': int, origin: string, t: OriginView)
    requires ManagerValid(w, next) && next <= next' && OriginOk(t, next')
    ensures ManagerValid(w[origin := t], next')
    ensures ManagerValid(w - {origin}, next')
  {
  }

  /** What a RequestLock call leads to: the client's outcome, the origin states, the counter. */
  datatype Step = Step(outcome: Outcome, origins: map<string, OriginView>, next: int)

  /** What an origin state s does with a well-formed request under the fresh id: a steal
      always acquires; any other request is added. */
  function Handled(s: OriginView, id: int, name: string, mode: Mode, clientId: string, wait: WaitMode): (Outcome, OriginView)
  {
    if wait == Preempt then (Acquired, Preempted(s, id, name, mode, clientId))
    else (AddOutcome(QueueOf(s, name), mode, wait), Added(s, id, name, mode, clientId, wait))
  }

  /** The state of origin; an origin without one has the empty state. */
  function Current(w: map<string, OriginView>, origin: string): OriginView
  {
    if origin in w then w[origin] else EmptyView
  }

  /** RequestLock as a value: a malformed request is refused before anything changes;
      otherwise the origin state is created if needed, a fresh id is drawn, and the request
      steals or is added. */
  function Requested(w: map<string, OriginView>, next: int, origin: string, clientId: string,
                     name: string, mode: Mode, wait: WaitMode): Step
  {
    if wait == Preempt && mode != Exclusive then Step(BadMessage(InvalidOptionCombination), w, next)
    else if |name| > 0 && name[0] == '-' then Step(BadMessage(ReservedName), w, next)
    else
      var s := Current(w, origin);
      var h := Handled(s, next + 1, name, mode, clientId, wait);
      Step(h.0, w[origin := h.1], next + 1)
  }

  /** ReleaseLock as a value: an unknown origin changes nothing; otherwise the lock is
      erased from it, and the origin is dropped once its index is empty. */
  function Released(w: map<string, OriginView>, origin: string, id: int): map<string, OriginView>
  {
    if origin !in w then w
    else
      var s := Erased(w[origin], id);
      if s.index == map[] then w - {origin} else w[origin := s]
  }

  // ----- Requests -----

  /** The two malformed requests are refused with their reasons, in this order, and leave
      everything as it was; any other request draws the next id. */
  lemma RequestValidation(w: map<string, OriginView>, next: int, origin: string, clientId: string,
                          name: string, mode: Mode, wait: WaitMode)
    ensures Requested(w, next, origin, clientId, name, mode, wait).outcome == BadMessage(InvalidOptionCombination)
      <==> wait == Preempt && mode != Exclusive
    ensures Requested(w, next, origin, clientId, name, mode, wait).outcome == BadMessage(ReservedName)
      <==> !(wait == Preempt && mode != Exclusive) && |name| > 0 && name[0] == '-'
    ensures Requested(w, next, origin, clientId, name, mode, wait).outcome.BadMessage?
      ==> Requested(w, next, origin, clientId, name, mode, wait) == Step(Requested(w, next, origin, clientId, name, mode, wait).outcome, w, next)
    ensures !Requested(w, next, origin, clientId, name, mode, wait).outcome.BadMessage?
      ==> Requested(w, next, origin, clientId, name, mode, wait).next == next + 1
  {
    var st := Requested(w, next, origin, clientId, name, mode, wait);
    if !(wait == Preempt && mode != Exclusive) && !(|name| > 0 && name[0] == '-') {
      var s := Current(w, origin);
      assert AddOutcome(QueueOf(s, name), mode, wait) != BadMessage(InvalidOptionCombination);
    }
  }

  /** A request that fails because it may not wait leaves every origin as it was; only
      the counter has moved. A request for a new origin never fails. */
  lemma NoWaitFailureLeavesNoTrace(w: map<string, OriginView>, next: int, origin: string, clientId: string,
                                   name: string, mode: Mode, wait: WaitMode)
    requires Requested(w, next, origin, clientId, name, mode, wait).outcome == Failed
    ensures wait == NoWait && origin in w
    ensures Requested(w, next, origin, clientId, name, mode, wait).origins == w
    ensures Requested(w, next, origin, clientId, name, mode, wait).next == next + 1
  {
    var s := Current(w, origin);
    assert AddOutcome(QueueOf(s, name), mode, wait) == Failed;
    assert w[origin := s] == w;
  }

  /** A steal under a fresh id leaves the origin state worth keeping. */
  lemma PreemptedOk(s: OriginView, next: int, name: string, mode: Mode, clientId: string)
    requires mode == Exclusive && next >= PreemptiveLockId
    requires s == EmptyView || OriginOk(s, next)
    ensures OriginOk(Preempted(s, next + 1, name, mode, clientId), next + 1)
  {
    var t := Preempted(s, next + 1, name, mode, clientId);
    PreemptedValid(s, next + 1, name, mode, clientId);
    PreemptedShape(s, next + 1, name, mode, clientId);
    assert next + 1 in t.index;
  }

  /** An ordinary request under a fresh id leaves the origin state worth keeping; a new
      origin's first request is never refused. */
  lemma AddedOk(s: OriginView, isNew: bool, next: int, name: string, mode: Mode, clientId: string, wait: WaitMode)
    requires if isNew then s == EmptyView else OriginOk(s, next)
    requires next >= PreemptiveLockId
    ensures OriginOk(Added(s, next + 1, name, mode, clientId, wait), next + 1)
  {
    AddedValid(s, next + 1, name, mode, clientId, wait);
    if isNew {
      assert CanGrant(QueueOf(s, name), mode);
    }
  }

  /** A well-formed request under a fresh id leaves the origin state worth keeping: a
      failed request leaves it as it was, which rules out a new origin. */
  lemma HandledOk(s: OriginView, isNew: bool, next: int, name: string, mode: Mode, clientId: string, wait: WaitMode)
    requires !(wait == Preempt && mode != Exclusive)
    requires if isNew then s == EmptyView else OriginOk(s, next)
    requires next >= PreemptiveLockId
    ensures OriginOk(Handled(s, next + 1, name, mode, clientId, wait).1, next + 1)
  {
    if wait == Preempt {
      PreemptedOk(s, next, name, mode, clientId);
    } else {
      AddedOk(s, isNew, next, name, mode, clientId, wait);
    }
  }

  /** A request keeps the broker invariant. */
  lemma RequestedValid(w: map<string, OriginView>, next: int, origin: string, clientId: string,
                       name: string, mode: Mode, wait: WaitMode)
    requires ManagerValid(w, next)
    ensures ManagerValid(Requested(w, next, origin, clientId, name, mode, wait).origins,
                         Requested(w, next, origin, clientId, name, mode, wait).next)
  {
    if !(wait == Preempt && mode != Exclusive) && !(|name| > 0 && name[0] == '-') {
      var s := Current(w, origin);
      HandledOk(s, origin !in w, next, name, mode, clientId, wait);
      UpdateKeepsValid(w, next, next + 1, origin, Handled(s, next + 1, name, mode, clientId, wait).1);
    }
  }

  /** The step of a well-formed request, from the origin state's own outcome and new state. */
  lemma RequestedIs(w: map<string, OriginView>, next: int, origin: string, clientId: string,
                    name: string, mode: Mode, wait: WaitMode, outcome: Outcome, t: OriginView)
    requires !(wait == Preempt && mode != Exclusive) && !(|name| > 0 && name[0] == '-')
    requires (outcome, t) == Handled(Current(w, origin), next + 1, name, mode, clientId, wait)
    ensures Requested(w, next, origin, clientId, name, mode, wait) == Step(outcome, w[origin := t], next + 1)
  {
  }

  /** Storing what the origin state s of origin made of a request under the next id keeps
      the broker invariant. */
  lemma HandledKeepsValid(w: map<string, OriginView>, next: int, origin: string, s: OriginView, id: int,
                          name: string, mode: Mode, clientId: string, wait: WaitMode, outcome: Outcome, t: OriginView)
    requires ManagerValid(w, next) && !(wait == Preempt && mode != Exclusive)
    requires s == Current(w, origin)
    requires id == next + 1
    requires (outcome, t) == Handled(s, id, name, mode, clientId, wait)
    ensures ManagerValid(w[origin := t], id)
  {
    HandledOk(s, origin !in w, next, name, mode, clientId, wait);
    UpdateKeepsValid(w, next, id, origin, t);
  }

  // ----- Releases -----

  /** A release keeps the broker invariant; the origin is kept exactly when its index is
      not empty after the erase, and every other origin keeps its state. */
  lemma ReleasedValid(w: map<string, OriginView>, next: int, origin: string, id: int)
    requires ManagerValid(w, next)
    ensures ManagerValid(Released(w, origin, id), next)
    ensures origin in Released(w, origin, id) <==> origin in w && Erased(w[origin], id).index != map[]
    ensures forall o :: o != origin ==> (o in Released(w, origin, id) <==> o in w)
    ensures forall o :: o != origin && o in w ==> Released(w, origin, id)[o] == w[o]
  {
    if origin in w {
      ErasedValid(w[origin], id);
    }
  }

  /** Releasing an id the origin does not know, or for an origin without state, changes nothing. */
  lemma StaleReleaseIsNoOp(w: map<string, OriginView>, next: int, origin: string, id: int)
    requires ManagerValid(w, next)
    requires origin !in w || id !in w[origin].index
    ensures Released(w, origin, id) == w
  {
    if origin in w {
      assert Erased(w[origin], id) == w[origin];
      assert w[origin := w[origin]] == w;
    }
  }

  /** Releasing the same lock twice is the same as releasing it once. */
  lemma ReleaseIdempotent(w: map<string, OriginView>, next: int, origin: string, id: int)
    requires ManagerValid(w, next)
    ensures Released(Released(w, origin, id), origin, id) == Released(w, origin, id)
  {
    var w' := Released(w, origin, id);
    ReleasedValid(w, next, origin, id);
    if origin in w' {
      assert id !in w'[origin].index;
    }
    StaleReleaseIsNoOp(w', next, origin, id);
  }

  /** The broker. */
  class LockManager {
    /** The state of every origin that holds or waits for a lock. */
    var origins: map<string, OriginState>
    /** The last lock id issued. */
    var nextLockId: int
    /** The state of every origin, as values. */
    ghost var views: map<string, OriginView>

    /** Each origin has a state object of its own, whose value views records, and the
        broker invariant holds of those values. */
    ghost predicate Valid()
      reads this, origins.Values
    {
      && origins.Keys == views.Keys
      && (forall o :: o in origins ==> origins[o].origin == o && origins[o].View() == views[o])
      && ManagerValid(views, nextLockId)
    }

    constructor ()
      ensures Valid() && views == map[] && nextLockId == 0
    {
      origins, nextLockId, views := map[], 0, map[];
    }

    /** Issues the next lock id: one more than the last, and above the preemptive id. */
    method NextLockId() returns (id: int)
      requires nextLockId >= PreemptiveLockId
      modifies this`nextLockId
      ensures id == nextLockId == old(nextLockId) + 1
      ensures id > PreemptiveLockId
    {
      nextLockId := nextLockId + 1;
      id := nextLockId;
    }

    /** The state object of origin; an origin without one gets a new, empty one. */
    method StateOf(origin: string) returns (state: OriginState)
      requires Valid()
      ensures state.Valid() && state.origin == origin
      ensures state.View() == Current(views, origin)
      ensures origin in origins ==> state == origins[origin]
      ensures origin !in origins ==> fresh(state)
    {
      if origin in origins {
        state := origins[origin];
      } else {
        state := new OriginState(origin);
      }
    }

    /** Stores state, whose value is t, as the state of origin. */
    method Install(origin: string, state: OriginState, ghost t: OriginView)
      requires origins.Keys == views.Keys
      requires forall o :: o in origins && o != origin ==> o in views && origins[o].origin == o && origins[o].View() == views[o]
      requires state.origin == origin && state.View() == t
      requires ManagerValid(views[origin := t], nextLockId)
      modifies this`origins, this`views
      ensures Valid()
      ensures origins == old(origins)[origin := state] && views == old(views)[origin := t]
    {
      origins, views := origins[origin := state], views[origin := t];
    }

    /** Forgets the state of origin. */
    method Drop(origin: string)
      requires origins.Keys == views.Keys
      requires forall o :: o in origins && o != origin ==> o in views && origins[o].origin == o && origins[o].View() == views[o]
      requires ManagerValid(views - {origin}, nextLockId)
      modifies this`origins, this`views
      ensures Valid()
      ensures origins == old(origins) - {origin} && views == old(views) - {origin}
    {
      origins, views := origins - {origin}, views - {origin};
    }

    /** Hands a well-formed request to state, the state of origin: a steal, or an ordinary
        request. The state objects of the other origins are untouched. */
    method Dispatch(origin: string, state: OriginState, id: int, name: string, mode: Mode, clientId: string, wait: WaitMode)
      returns (outcome: Outcome)
      requires state.Valid() && state.origin == origin && id !in state.index
      requires !(wait == Preempt && mode != Exclusive)
      requires forall o :: o in origins && o != origin ==> o in views && origins[o].origin == o && origins[o].View() == views[o]
      modifies state
      ensures (outcome, state.View()) == Handled(old(state.View()), id, name, mode, clientId, wait)
      ensures forall o :: o in origins && o != origin ==> o in views && origins[o].origin == o && origins[o].View() == views[o]
    {
      if wait == Preempt {
        state.PreemptLock(id, name, mode, clientId);
        outcome := Acquired;
      } else {
        outcome := state.AddRequest(id, name, mode, clientId, wait);
      }
      forall o | o in origins && o != origin ensures o in views && origins[o].origin == o && origins[o].View() == views[o] {
        assert origins[o].origin == o;
      }
    }

    /** Admits a request that is not malformed: the state of origin, created if needed,
        steals or adds the lock under the next id. */
    method Admit(origin: string, clientId: string, name: string, mode: Mode, wait: WaitMode)
      returns (outcome: Outcome, ghost t: OriginView, ghost state: OriginState)
      requires Valid() && !(wait == Preempt && mode != Exclusive)
      modifies this, origins.Values
      ensures Valid()
      ensures (outcome, t) == Handled(Current(old(views), origin),
                                      old(nextLockId) + 1, name, mode, clientId, wait)
      ensures views == old(views)[origin := t] && nextLockId == old(nextLockId) + 1
      ensures origins == old(origins)[origin := state]
      ensures origin in old(origins) ==> state == old(origins)[origin]
      ensures origin !in old(origins) ==> fresh(state)
    {
      ghost var w, next := views, nextLockId;
      var st := StateOf(origin);
      state := st;
      var id := NextLockId();
      ghost var s := st.View();
      assert s == Current(w, origin);
      outcome := Dispatch(origin, st, id, name, mode, clientId, wait);
      t := st.View();
      HandledKeepsValid(w, next, origin, s, id, name, mode, clientId, wait, outcome, t);
      Install(origin, st, t);
    }

    /** Handles a lock request of a client of origin: refuses the two malformed requests,
        then steals or adds the lock in the origin's state under a fresh id. */
    method RequestLock(origin: string, clientId: string, name: string, mode: Mode, wait: WaitMode)
      returns (outcome: Outcome)
      requires Valid()
      modifies this, origins.Values
      ensures Valid()
      ensures Step(outcome, views, nextLockId)
        == Requested(old(views), old(nextLockId), origin, clientId, name, mode, wait)
      ensures forall o :: o in origins ==> (o in old(origins) && origins[o] == old(origins)[o]) || fresh(origins[o])
    {
      ghost var w, next := views, nextLockId;
      if wait == Preempt && mode != Exclusive {
        return BadMessage(InvalidOptionCombination);
      }
      if |name| > 0 && name[0] == '-' {
        return BadMessage(ReservedName);
      }
      ghost var t, state;
      outcome, t, state := Admit(origin, clientId, name, mode, wait);
      RequestedIs(w, next, origin, clientId, name, mode, wait, outcome, t);
    }

    /** Releases the lock id of origin; an origin left without locks is dropped. */
    method ReleaseLock(origin: string, id: int)
      requires Valid()
      modifies this, origins.Values
      ensures Valid()
      ensures views == Released(old(views), origin, id)
      ensures nextLockId == old(nextLockId)
      ensures forall o :: o in origins ==> o in old(origins) && origins[o] == old(origins)[o]
    {
      ghost var w := views;
      ReleasedValid(w, nextLockId, origin, id);
      if origin !in origins {
        return;
      }
      var state := origins[origin];
      state.EraseLock(id);
      ghost var t := state.View();
      forall o | o in origins && o != origin ensures origins[o].origin == o && origins[o].View() == w[o] {
        assert origins[o].origin == o;
      }
      if state.IsEmpty() {
        Drop(origin);
      } else {
        Install(origin, state, t);
      }
    }

    /** The snapshot of origin: nothing for an origin without state; otherwise the pending
        and granted locks of its queues, queue by queue. Nothing changes. */
    method QueryState(origin: string) returns (requests: seq<LockInfo>, held: seq<LockInfo>, ghost order: seq<string>)
      requires Valid()
      ensures origin !in views ==> requests == [] && held == []
      ensures origin in views ==> Enumerates(order, views[origin].queues.Keys)
      ensures origin in views ==> requests == Listed(Flatten(views[origin].queues, order), Pending)
      ensures origin in views ==> held == Listed(Flatten(views[origin].queues, order), Granted)
    {
      if origin !in origins {
        return [], [], [];
      }
      var state := origins[origin];
      requests, held, order := state.Snapshot();
    }
  }
}
