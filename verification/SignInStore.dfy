/** The store object: its map of sessions and its flags, and the sections of its
    methods that hold the mutex. */
module SignInStore {
  import opened Options
  import opened SignIn

  /** The entry was handed to a disposal, whole. */
  ghost predicate Handed(l: Life, entry: Entry, runner: Runner) {
    exists n :: n in l.disposals && l.disposals[n] == Disposal(entry, runner, 0)
  }

  function WholeOf(sessions: map<Id, Entry>, native: map<Id, Life>, id: Id): (l: Life)
    requires id in native
  {
    native[id].(entry := if id in sessions then Some(sessions[id]) else None)
  }

  function Lives(sessions: map<Id, Entry>, native: map<Id, Life>): (r: map<Id, Life>)
    ensures r.Keys == native.Keys
  {
    map id | id in native :: WholeOf(sessions, native, id)
  }

  /** The sessions `ids` were moved into the hands of the shutdown call `call`. */
  ghost predicate Taken(sessions: map<Id, Entry>, native: map<Id, Life>, ids: set<Id>, call: nat, number: nat,
                        sessions': map<Id, Entry>, native': map<Id, Life>)
    requires ids <= sessions.Keys
  {
    && sessions' == sessions - ids && native'.Keys == native.Keys
    && forall id :: id in native ==>
         native'[id] == if id !in ids then native[id] else
           native[id].(disposals := native[id].disposals[number := Disposal(sessions[id], Closer(call), 0)],
                       ended := true)
  }

  lemma OneLess(all: set<Id>, rest: set<Id>, one: Id)
    requires one in rest && rest <= all
    ensures all - (rest - {one}) == all - rest + {one}
  {}

  lemma NoneTaken(sessions: map<Id, Entry>, native: map<Id, Life>, call: nat, number: nat)
    ensures Taken(sessions, native, {}, call, number, sessions, native)
  {
    assert sessions - {} == sessions;
  }

  lemma TakenOneMore(was: map<Id, Entry>, before: map<Id, Life>, ids: set<Id>, call: nat, number: nat,
                     sessions: map<Id, Entry>, native: map<Id, Life>, id: Id)
    requires ids <= was.Keys && id in was && id !in ids && id in before
    requires Taken(was, before, ids, call, number, sessions, native)
    ensures id in sessions && sessions[id] == was[id] && id in native && native[id] == before[id]
    ensures var l := before[id];
            Taken(was, before, ids + {id}, call, number, sessions - {id},
                  native[id := l.(disposals := l.disposals[number := Disposal(was[id], Closer(call), 0)], ended := true)])
  {
  }

  /** A disposal that fails outside shutdown. */
  lemma FailedRemoval(s: Store, l: Life, n: nat)
    requires Disposable(s, l, n) && (l.disposals[n].entry.flow || l.flow.Some?) && !s.shutdown
    ensures Act(s, l, Remove(n, false)) == Dispose(s, l, n, false) != l
    ensures var gone := l.(disposals := l.disposals - {n});
            Dispose(s, l, n, false) == if l.entry.Some? then gone else
              gone.(entry := Some(l.disposals[n].entry.(worker := None, flow := true, cleanupPending := true,
                                                        finalUse := false, expiresAt := s.now + RETRY_INTERVAL)))
  {
    assert n !in Dispose(s, l, n, false).disposals;
  }

  lemma TakenLives(s: Store, sessions: map<Id, Entry>, native: map<Id, Life>, ids: set<Id>, call: nat, leased: bool,
                   sessions': map<Id, Entry>, native': map<Id, Life>)
    requires ids == set id | id in sessions && (leased || !sessions[id].finalUse)
    requires forall id :: id in native ==> native[id].entry == None
    requires Taken(sessions, native, ids, call, s.next, sessions', native') && s.lives == Lives(sessions, native)
    ensures Lives(sessions', native') == map id | id in s.lives :: TakeOut(s, s.lives[id], call, leased)
  {
    forall id | id in native
      ensures WholeOf(sessions', native', id) == TakeOut(s, WholeOf(sessions, native, id), call, leased)
    {
      if id in ids { assert id !in sessions'; }
    }
  }

  function StaleOnes(sessions: map<Id, Entry>, native: map<Id, Life>): (r: set<Id>)
    ensures forall id :: id in r <==> id in sessions && id in native && Stale(WholeOf(sessions, native, id))
  {
    set id | id in sessions && id in native && Stale(WholeOf(sessions, native, id))
  }

  /** The sessions `ids` were handed to disposals and all others left alone. */
  ghost predicate Evicted(was: map<Id, Entry>, before: map<Id, Life>, ids: set<Id>,
                          sessions: map<Id, Entry>, native: map<Id, Life>)
  {
    && sessions == was - ids && native.Keys == before.Keys
    && (forall id :: id in before && id !in ids ==> native[id] == before[id])
    && (forall id :: id in before && id in ids && id in was ==> Handed(native[id], was[id], Cleanup))
  }

  lemma NoneEvicted(sessions: map<Id, Entry>, native: map<Id, Life>)
    ensures Evicted(sessions, native, {}, sessions, native)
  {
    assert sessions - {} == sessions;
  }

  lemma EvictedOneMore(was: map<Id, Entry>, before: map<Id, Life>, ids: set<Id>,
                       sessions: map<Id, Entry>, native: map<Id, Life>, one: Id,
                       sessions': map<Id, Entry>, native': map<Id, Life>)
    requires Evicted(was, before, ids, sessions, native) && one in sessions && one in native
    requires sessions' == sessions - {one} && native'.Keys == native.Keys
    requires forall i :: i in native && i != one ==> native'[i] == native[i]
    requires Handed(native'[one], sessions[one], Cleanup)
    ensures Evicted(was, before, ids + {one}, sessions', native')
  {
  }

  lemma StillThere(was: map<Id, Entry>, before: map<Id, Life>, ids: set<Id>,
                   sessions: map<Id, Entry>, native: map<Id, Life>, one: Id)
    requires Evicted(was, before, ids, sessions, native) && one in was && one !in ids
    ensures one in sessions
  {
  }

  lemma LaunchedAlone(was: map<Id, Entry>, before: map<Id, Life>, sessions: map<Id, Entry>, native: map<Id, Life>,
                      id: Id, entry: Entry, l: Life)
    requires sessions.Keys <= native.Keys && was.Keys <= before.Keys && id !in native
    requires Evicted(was, before, StaleOnes(was, before), sessions, native)
    requires l.handedOut == {}
    ensures StaleOnes(sessions[id := entry], native[id := l]) == {}
    ensures sessions[id := entry] - {id} == sessions && native[id := l] - {id} == native
  {
    var after := sessions[id := entry];
    forall i | i in after ensures !Stale(WholeOf(after, native[id := l], i)) {
      if i != id { assert i !in StaleOnes(was, before) && WholeOf(sessions, native, i) == WholeOf(was, before, i); }
    }
  }

  /** A section that touches one session changes one life. */
  lemma LivesPut(sessions: map<Id, Entry>, native: map<Id, Life>, id: Id, sessions': map<Id, Entry>, native': map<Id, Life>)
    requires id in native && native'.Keys == native.Keys
    requires sessions' - {id} == sessions - {id} && native' - {id} == native - {id}
    ensures Lives(sessions', native') == Lives(sessions, native)[id := WholeOf(sessions', native', id)]
  {
    forall i | i in native && i != id ensures WholeOf(sessions', native', i) == WholeOf(sessions, native, i) {
      assert i in native' - {id} && (native' - {id})[i] == native'[i] && (native - {id})[i] == native[i];
      assert i in sessions' <==> i in sessions' - {id};
      assert i in sessions <==> i in sessions - {id};
      if i in sessions { assert (sessions' - {id})[i] == sessions'[i] && (sessions - {id})[i] == sessions[i]; }
    }
  }

  /** The step of the model that such a section is. */
  lemma ActsOn(s: Store, a: Action, id: Id, sessions: map<Id, Entry>, native: map<Id, Life>,
               sessions': map<Id, Entry>, native': map<Id, Life>)
    requires s.lives == Lives(sessions, native) && id in native && native'.Keys == native.Keys
    requires sessions' - {id} == sessions - {id} && native' - {id} == native - {id}
    requires WholeOf(sessions', native', id) == Act(s, WholeOf(sessions, native, id), a) != WholeOf(sessions, native, id)
    ensures Step(s, On(id, a)) == s.(lives := Lives(sessions', native'), next := s.next + 1)
  {
    LivesPut(sessions, native, id, sessions', native');
    hide Act;
  }

  lemma Refuses(s: Store, id: Id, a: Action, sessions: map<Id, Entry>, native: map<Id, Life>)
    requires s.lives == Lives(sessions, native)
    ensures id !in native || Act(s, WholeOf(sessions, native, id), a) == WholeOf(sessions, native, id) ==>
      Step(s, On(id, a)) == s
  {
    hide Act;
  }

  lemma AnswerDoes(s: Store, l: Life)
    ensures !Answerable(s, l) ==> Act(s, l, Reply) == l
    ensures Answerable(s, l) ==>
      var e := l.entry.value;
      var g := e.generation + 1;
      Act(s, l, Reply) == l.(entry := Some(e.(expiresAt := s.now + LIFETIME, generation := g, worker := Some(g))),
                             running := l.running + {g}) != l
  {}

  lemma LeaseDoes(s: Store, l: Life, provider: nat)
    ensures !Leasable(s, l, provider) ==> Act(s, l, BeginFinalUse(provider)) == l
    ensures Leasable(s, l, provider) ==>
      Act(s, l, BeginFinalUse(provider))
      == l.(entry := Some(l.entry.value.(finalUse := true, expiresAt := s.now + LIFETIME)), leases := l.leases + {s.next})
      != l
  {}

  lemma FinishDoes(s: Store, l: Life, lease: nat)
    requires lease in l.leases && !LeaseLost(l)
    ensures Act(s, l, EndFinalUse(lease, true))
         == l.(leases := l.leases - {lease},
               entry := Some(l.entry.value.(finalUse := false, expiresAt := s.now + LIFETIME)))
         != l
  {}

  class AuthStore {
    var now: nat
    var shutdown: bool
    var sessions: map<Id, Entry>
    /** What each sign-in owns outside the map: workers, relays, flow, leases and
        running disposals. */
    var native: map<Id, Life>
    var closers: map<nat, Phase>
    var next: nat

    ghost predicate Valid()
      reads this
    {
      && sessions.Keys <= native.Keys
      && forall id :: id in native ==> native[id].entry == None && id < next
    }

    function Whole(id: Id): (l: Life)
      requires id in native
      reads this
    {
      WholeOf(sessions, native, id)
    }

    function View(): (s: Store)
      reads this
    {
      Store(now, shutdown, Lives(sessions, native), closers, next)
    }

    constructor ()
      ensures Valid() && View() == EMPTY
    {
      now, shutdown, sessions, native, closers, next := 0, false, map[], map[], map[], 0;
    }

    /** Writes a session's new entry, and what it owns, in one section. */
    method Enter(id: Id, ghost a: Action, entry: Entry, life: Life)
      requires Valid() && id in native && life.entry == None
      requires Act(View(), Whole(id), a) == life.(entry := Some(entry)) != Whole(id)
      modifies this
      ensures Valid() && View() == Step(old(View()), On(id, a)) && next == old(next) + 1
      ensures sessions == old(sessions)[id := entry] && native == old(native)[id := life] && now == old(now)
    {
      hide Lives, Step, Act;
      sessions := sessions[id := entry];
      native := native[id := life];
      next := next + 1;
      assert WholeOf(sessions, native, id) == life.(entry := Some(entry));
      ActsOn(old(View()), a, id, old(sessions), old(native), sessions, native);
    }

    /** Takes the session out of the map; its disposal then runs outside the lock. */
    method DiscardLocked(id: Id, runner: Runner)
      requires Valid() && id in sessions
      modifies this
      ensures Valid() && closers == old(closers) && now == old(now) && shutdown == old(shutdown)
      ensures sessions == old(sessions) - {id} && native.Keys == old(native.Keys) && next == old(next) + 1
      ensures Handed(native[id], old(sessions)[id], runner)
      ensures forall i :: i in native && i != id ==> native[i] == old(native)[i]
      ensures View() == old(View().(lives := View().lives[id := Discard(View(), Whole(id), runner)], next := next + 1))
    {
      var entry := sessions[id];
      sessions := sessions - {id};
      native := native[id := native[id].(disposals := native[id].disposals[next := Disposal(entry, runner, 0)],
                                         ended := true)];
      assert next in native[id].disposals && native[id].disposals[next] == Disposal(entry, runner, 0);
      next := next + 1;
      LivesPut(old(sessions), old(native), id, sessions, native);
    }

    /** Deleting a session, or giving it up after its request failed. */
    method Close(id: Id) returns (refused: bool)
      requires Valid()
      modifies this
      ensures Valid() && View() == Step(old(View()), On(id, Delete))
      ensures refused == (id in old(sessions) && old(sessions)[id].finalUse)
      ensures if id in old(sessions) && !refused
              then sessions == old(sessions) - {id} && Handed(native[id], old(sessions)[id], Cleanup)
              else sessions == old(sessions) && native == old(native)
    {
      if id !in sessions { return false; }
      if sessions[id].finalUse { return true; }
      DiscardLocked(id, Cleanup);
      return false;
    }

    /** A session whose time is over is discarded unless it is leased; every id is
        looked at again under the lock before it is. */
    method PurgeExpired()
      requires Valid()
      modifies this
      ensures Valid() && sessions.Keys <= old(sessions.Keys) && now == old(now)
      ensures forall id :: id in sessions ==> sessions[id] == old(sessions)[id]
      ensures forall id :: id in old(sessions) ==>
        (id in sessions <==> old(sessions)[id].finalUse || now < old(sessions)[id].expiresAt)
      ensures forall id :: id in old(sessions) && id !in sessions ==>
        id in native && Handed(native[id], old(sessions)[id], Cleanup)
    {
      hide View, Whole, Discard, Handed;
      var ids := set id | id in sessions && !sessions[id].finalUse && sessions[id].expiresAt <= now;
      ghost var all := ids;
      while ids != {}
        invariant Valid() && now == old(now) && native.Keys == old(native.Keys) && sessions.Keys <= old(sessions.Keys)
        invariant ids <= sessions.Keys && ids <= all
        invariant forall id :: id in sessions ==> sessions[id] == old(sessions)[id]
        invariant forall id :: id in old(sessions) ==> (id in sessions <==> id !in all || id in ids)
        invariant forall id :: id in all - ids ==>
          id in native && Handed(native[id], old(sessions)[id], Cleanup)
        decreases |ids|
      {
        var id :| id in ids;
        var entry := sessions[id];
        ids := ids - {id};
        if !entry.finalUse && entry.expiresAt <= now {
          DiscardLocked(id, Cleanup);
        }
      }
    }

    /** An answer is a use: it restarts the session's time and launches the next
        native transition, unless one runs, a lease is out or a removal failed. */
    method ContinueFlow(id: Id) returns (started: bool)
      requires Valid()
      modifies this
      ensures Valid() && View() == Step(old(View()), On(id, Reply))
      ensures started == (id in old(native) && Answerable(old(View()), old(Whole(id))))
    {
      Refuses(View(), id, Reply, sessions, native);
      hide Lives, Step, Act;
      if id in native { AnswerDoes(View(), Whole(id)); }
      if shutdown || id !in sessions { return false; }
      var entry := sessions[id];
      if entry.cleanupPending || entry.finalUse || entry.expiresAt <= now { return false; }
      if entry.worker.Some? || !entry.flow { return false; }
      var generation := entry.generation + 1;
      Enter(id, Reply, entry.(expiresAt := now + LIFETIME, generation := generation, worker := Some(generation)),
            native[id].(running := native[id].running + {generation}));
      return true;
    }

    /** The second section of a claim, after the relay was closed in between: the
        entry is looked up again, and the session gets its flow back. */
    method TakeFlow(id: Id, generation: nat) returns (taken: bool)
      requires Valid()
      requires id in sessions && sessions[id].worker == Some(generation) && sessions[id].generation == generation ==>
        var l := Whole(id);
        && generation !in l.running && !Failed(l, generation)
        && (l.entry.value.relay.Some? ==> l.entry.value.relay.value !in l.open)
      modifies this
      ensures Valid() && View() == Step(old(View()), On(id, TakeOutcome(generation)))
      ensures taken == (id in old(native) && Claimable(old(View()), old(Whole(id)), generation))
    {
      Refuses(View(), id, TakeOutcome(generation), sessions, native);
      hide Lives, Step;
      if id !in sessions || shutdown { return false; }
      var current := sessions[id];
      if current.worker != Some(generation) || current.generation != generation || current.expiresAt <= now {
        return false;
      }
      sessions := sessions[id := current.(flow := true, worker := None, relay := None, expiresAt := now + LIFETIME)];
      next := next + 1;
      ActsOn(old(View()), TakeOutcome(generation), id, old(sessions), old(native), sessions, native);
      return true;
    }

    /** The exclusive lease of a create or connect transaction. */
    method BeginFinalUse(id: Id, provider: nat) returns (lease: Option<nat>)
      requires Valid()
      modifies this
      ensures Valid() && View() == Step(old(View()), On(id, SignIn.BeginFinalUse(provider)))
      ensures lease.Some? <==> id in old(native) && Leasable(old(View()), old(Whole(id)), provider)
      ensures lease.Some? ==> lease.value == old(next)
    {
      Refuses(View(), id, SignIn.BeginFinalUse(provider), sessions, native);
      hide Lives, Step, Act;
      if id in native { LeaseDoes(View(), Whole(id), provider); }
      if shutdown || id !in sessions { return None; }
      var entry := sessions[id];
      if entry.worker.Some? || !entry.flow || entry.provider != provider || entry.expiresAt <= now { return None; }
      if entry.cleanupPending || entry.finalUse { return None; }
      Enter(id, SignIn.BeginFinalUse(provider), entry.(finalUse := true, expiresAt := now + LIFETIME),
            native[id].(leases := native[id].leases + {next}));
      return Some(next - 1);
    }

    method Retain(id: Id, lease: nat)
      requires Valid() && id in native && lease in native[id].leases && !LeaseLost(Whole(id))
      modifies this
      ensures Valid() && View() == Step(old(View()), On(id, EndFinalUse(lease, true)))
      ensures sessions == old(sessions)[id := old(sessions)[id].(finalUse := false, expiresAt := now + LIFETIME)]
      ensures now == old(now)
    {
      hide Lives, Step, Act;
      FinishDoes(View(), Whole(id), lease);
      Enter(id, EndFinalUse(lease, true), sessions[id].(finalUse := false, expiresAt := now + LIFETIME),
            native[id].(leases := native[id].leases - {lease}));
    }

    method Consume(id: Id, lease: nat)
      requires Valid() && id in native && lease in native[id].leases && !LeaseLost(Whole(id))
      modifies this
      ensures Valid() && View() == Step(old(View()), On(id, EndFinalUse(lease, false)))
      ensures sessions == old(sessions) - {id} && Handed(native[id], old(sessions)[id], Finishing)
    {
      hide Lives, Step;
      var l := native[id];
      native := native[id := l.(leases := l.leases - {lease}, ended := true,
                                disposals := l.disposals[next := Disposal(sessions[id], Finishing, 0)])];
      assert next in native[id].disposals;
      sessions := sessions - {id};
      next := next + 1;
      ActsOn(old(View()), EndFinalUse(lease, false), id, old(sessions), old(native), sessions, native);
    }

    /** The lease ends: a retained session may be used again, a consumed one leaves
        the map before its folders are removed. */
    method FinishFinalUse(id: Id, lease: nat, retained: bool) returns (lost: bool)
      requires Valid() && id in native && lease in native[id].leases
      modifies this
      ensures Valid() && lost == LeaseLost(old(Whole(id)))
      ensures !lost ==> View() == Step(old(View()), On(id, EndFinalUse(lease, retained)))
      ensures !lost && retained ==>
        sessions == old(sessions)[id := old(sessions)[id].(finalUse := false, expiresAt := now + LIFETIME)]
      ensures !lost && !retained ==>
        sessions == old(sessions) - {id} && Handed(native[id], old(sessions)[id], Finishing)
    {
      if id !in sessions || !sessions[id].finalUse { return true; }
      if retained { Retain(id, lease); } else { Consume(id, lease); }
      return false;
    }

    /** A disposal could not remove the folders: the entry comes back as its own
        retry owner, unless the store is shutting down. */
    method KeepForRetry(id: Id, n: nat) returns (kept: bool)
      requires Valid() && id in native && Disposable(View(), Whole(id), n)
      requires !(!native[id].disposals[n].entry.flow && native[id].flow.None?)
      modifies this
      ensures Valid() && kept == !old(shutdown)
      ensures if kept then View() == Step(old(View()), On(id, Remove(n, false))) else View() == old(View())
    {
      hide Lives, Step;
      if shutdown { return false; }
      ghost var was, whole := View(), Whole(id);
      FailedRemoval(was, whole, n);
      hide Dispose, Act, Disposable;
      var entry := native[id].disposals[n].entry;
      native := native[id := native[id].(disposals := native[id].disposals - {n})];
      if id !in sessions {
        sessions := sessions[id := entry.(worker := None, flow := true, cleanupPending := true, finalUse := false,
                                          expiresAt := now + RETRY_INTERVAL)];
      }
      next := next + 1;
      ActsOn(old(View()), SignIn.Remove(n, false), id, old(sessions), old(native), sessions, native);
      return true;
    }

    method TakeOne(id: Id, call: nat)
      requires Valid() && id in sessions
      modifies this`sessions, this`native
      ensures Valid() && sessions == old(sessions) - {id}
      ensures var l := old(native)[id];
        native == old(native)[id := l.(disposals := l.disposals[next := Disposal(old(sessions)[id], Closer(call), 0)],
                                       ended := true)]
    {
      var l := native[id];
      native := native[id := l.(disposals := l.disposals[next := Disposal(sessions[id], Closer(call), 0)], ended := true)];
      sessions := sessions - {id};
    }

    /** Moves the given sessions out of the map, into a shutdown call's own hands. */
    method TakeSessions(ids: set<Id>, call: nat)
      requires Valid() && ids <= sessions.Keys
      modifies this
      ensures Valid() && Taken(old(sessions), old(native), ids, call, next, sessions, native)
      ensures now == old(now) && next == old(next) && shutdown == old(shutdown) && closers == old(closers)
    {
      hide View, Lives, WholeOf, Taken;
      assert Taken(sessions, native, {}, call, next, sessions, native) by { NoneTaken(sessions, native, call, next); }
      var rest := ids;
      assert ids - rest == {};
      while rest != {}
        invariant rest <= ids && Valid() && Taken(old(sessions), old(native), ids - rest, call, next, sessions, native)
        invariant now == old(now) && next == old(next) && shutdown == old(shutdown) && closers == old(closers)
        decreases |rest|
      {
        var id :| id in rest;
        TakenOneMore(old(sessions), old(native), ids - rest, call, next, sessions, native, id);
        TakeOne(id, call);
        OneLess(ids, rest, id);
        rest := rest - {id};
      }
      assert ids - rest == ids;
    }

    /** The first section of a shutdown call: no new sign-in is admitted, and every
        session without a lease is taken into the call's own hands. */
    method BeginCloseAll() returns (call: nat)
      requires Valid()
      modifies this
      ensures Valid() && View() == CloseAll(old(View())) && call == old(next)
    {
      call := next;
      var ids := set id | id in sessions && !sessions[id].finalUse;
      TakeSessions(ids, call);
      TakenLives(old(View()), old(sessions), old(native), ids, call, false, sessions, native);
      hide Lives, TakeOut, Taken, WholeOf;
      shutdown, closers, next := true, closers[call := Stopping], next + 1;
    }

    /** The second section, once no lease is out and no finished lease is still
        being disposed of: what came back to the map meanwhile is taken as well. */
    method DrainCloseAll(call: nat)
      requires Valid() && call in closers && closers[call] == Stopping
      requires forall id :: id in native ==> FinalUseDone(Whole(id))
      modifies this
      ensures Valid() && View() == Drain(old(View()), call) && sessions == map[]
    {
      var ids := sessions.Keys;
      TakeSessions(ids, call);
      TakenLives(old(View()), old(sessions), old(native), ids, call, true, sessions, native);
      assert sessions == map[];
      assert forall id :: id in old(View()).lives ==> FinalUseDone(old(View()).lives[id]);
      hide Lives, TakeOut, Taken, WholeOf, FinalUseDone;
      closers, next := closers[call := Draining], next + 1;
    }

    /** Ends the sign-ins still waiting at the browser step, which hold the one
        callback port. */
    method EvictStale()
      requires Valid()
      modifies this
      ensures Valid() && Evicted(old(sessions), old(native), StaleOnes(old(sessions), old(native)), sessions, native)
      ensures now == old(now) && shutdown == old(shutdown) && closers == old(closers) && next >= old(next)
    {
      hide View, Handed, Discard, Lives, WholeOf, Evicted;
      var stale := StaleOnes(sessions, native);
      ghost var all := stale;
      assert all - stale == {};
      NoneEvicted(sessions, native);
      while stale != {}
        invariant Valid() && stale <= all && next >= old(next)
        invariant now == old(now) && shutdown == old(shutdown) && closers == old(closers)
        invariant Evicted(old(sessions), old(native), all - stale, sessions, native)
        decreases |stale|
      {
        var one :| one in stale;
        ghost var before, was := native, sessions;
        assert one in sessions by { StillThere(old(sessions), old(native), all - stale, sessions, native, one); }
        DiscardLocked(one, Cleanup);
        EvictedOneMore(old(sessions), old(native), all - stale, was, before, one, sessions, native);
        OneLess(all, stale, one);
        stale := stale - {one};
      }
      assert all - stale == all;
    }

    /** A new sign-in, after which no other one waits at the browser step. */
    method StartFlow(provider: nat) returns (id: Option<Id>)
      requires Valid()
      modifies this
      ensures Valid() && (old(shutdown) ==> id == None && View() == old(View()))
      ensures !old(shutdown) ==> id == Some(next - 1) && id.value !in old(native)
      ensures id.Some? ==>
        && id.value in native && WholeOf(sessions, native, id.value) == Launched(View(), provider)
        && StaleOnes(sessions, native) == {}
        && Evicted(old(sessions), old(native), StaleOnes(old(sessions), old(native)),
                   sessions - {id.value}, native - {id.value})
    {
      hide Lives, Evicted, Handed, StaleOnes, Stale;
      if shutdown { return None; }
      EvictStale();
      id := Some(next);
      LaunchedAlone(old(sessions), old(native), sessions, native, next,
                    Entry(provider, now + LIFETIME, 1, Some(1), false, None, false, false),
                    Life(None, {1}, {}, {}, {}, None, {}, map[], false));
      sessions := sessions[next := Entry(provider, now + LIFETIME, 1, Some(1), false, None, false, false)];
      native := native[next := Life(None, {1}, {}, {}, {}, None, {}, map[], false)];
      next := next + 1;
    }
  }
}
