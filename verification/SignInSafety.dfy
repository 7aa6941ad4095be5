/** Ownership in every interleaving of the sign-in store. */
module SignInSafety {
  import opened Options
  import opened SignIn

  // ----- The invariant of one sign-in ---------------------------------------

  /** At most one of the store and its one disposal has the session. */
  ghost predicate OneOwner(l: Life) {
    && (forall n, m :: n in l.disposals && m in l.disposals ==> n == m)
    && (l.entry.Some? ==> l.disposals == map[])
  }

  /** The entry as its one owner has it. */
  ghost predicate Holds(l: Life, e: Entry) {
    l.entry == Some(e) || exists n :: n in l.disposals && l.disposals[n].entry == e
  }

  /** An open flow has an owner; a worker that still runs is with the session that
      launched it; an open relay is with a session that still has a worker. */
  ghost predicate Owned(l: Life) {
    && (l.flow == Some(Open) ==> l.entry.Some? || l.disposals != map[])
    && (forall g :: g in l.running ==> exists e :: Holds(l, e) && e.worker == Some(g))
    && (forall r :: r in l.open ==> exists e :: Holds(l, e) && e.relay == Some(r) && e.worker.Some?)
  }

  ghost predicate EntryOk(l: Life, e: Entry) {
    && e.generation >= 1
    && (e.worker.Some? ==> e.worker.value == e.generation)
    && (e.relay.Some? ==> e.worker.Some? && (e.generation !in l.handedOut ==> e.relay.value !in l.open))
    && (e.finalUse ==> e.worker == None && !e.cleanupPending)
    && (e.cleanupPending ==> e.worker == None)
    && (e.worker == None ==> e.flow)
    && (e.flow ==> l.flow == Some(Open))
    && (!e.flow ==> e.generation == 1 && (l.flow.Some? ==> l.flow == Some(Open) && 1 !in l.running))
    && (forall g :: g in l.running || g in l.handedOut ==> g <= e.generation)
  }

  ghost predicate DisposalOk(s: Store, l: Life, d: Disposal) {
    && EntryOk(l, d.entry) && l.ended && d.failures < 3
    && (d.failures > 0 ==> s.shutdown) && (d.entry.finalUse ==> d.runner == Finishing)
    && match d.runner
       case Closer(k) => k in s.closers && s.closers[k] != Returned
       case _ => true
  }

  ghost predicate LifeOk(s: Store, l: Life) {
    && OneOwner(l) && Owned(l)
    && (l.entry.Some? ==> EntryOk(l, l.entry.value) && (l.entry.value.cleanupPending <==> l.ended))
    && (forall n :: n in l.disposals ==> n < s.next && DisposalOk(s, l, l.disposals[n]))
    && (forall r :: r in l.open ==> r < s.next)
    // At most one lease, and the session is leased exactly while it is out.
    && (forall n, m :: n in l.leases && m in l.leases ==> n == m)
    && (l.leases != {} <==> l.entry.Some? && l.entry.value.finalUse)
    && (forall n :: n in l.leases ==> n < s.next)
  }

  /** What a shutdown call has already made sure of. */
  ghost predicate ClosedDown(s: Store, l: Life) {
    forall k :: k in s.closers && s.closers[k] != Stopping ==>
      && l.entry == None && FinalUseDone(l)
      && (s.closers[k] == Returned ==> CleanedUp(l, k))
  }

  ghost predicate Inv(s: Store) {
    && (forall id :: id in s.lives ==> id < s.next && LifeOk(s, s.lives[id]) && ClosedDown(s, s.lives[id]))
    && (forall k :: k in s.closers ==> k < s.next)
    && (s.closers != map[] ==> s.shutdown)
  }

  // ----- Every step keeps it ------------------------------------------------

  lemma Holders(l: Life)
    requires OneOwner(l)
    ensures l.entry.Some? ==> forall e :: Holds(l, e) <==> l.entry == Some(e)
    ensures forall n :: n in l.disposals ==> forall e :: Holds(l, e) <==> l.disposals[n].entry == e
  {
  }

  /** Whatever the session held goes with it to its one disposal. */
  lemma DiscardOk(s: Store, l: Life, runner: Runner)
    requires LifeOk(s, l) && l.entry.Some?
    requires l.entry.value.finalUse ==> runner == Finishing
    requires match runner { case Closer(k) => k in s.closers && s.closers[k] != Returned case _ => true }
    ensures LifeOk(s.(next := s.next + 1), Discard(s, l.(leases := {}), runner))
  {
    var l' := Discard(s, l.(leases := {}), runner);
    assert s.next in l'.disposals;
    Holders(l);
    Holders(l');
    assert forall e :: Holds(l, e) ==> Holds(l', e);
  }

  lemma KeptEntry(s: Store, l: Life, l': Life, e: Entry, e': Entry)
    requires LifeOk(s, l) && l.entry == Some(e)
    requires l' == l.(entry := Some(e'), running := l'.running, handedOut := l'.handedOut, open := l'.open, leases := l'.leases)
    requires EntryOk(l', e') && e'.cleanupPending == e.cleanupPending
    requires forall g :: g in l'.running ==> e'.worker == Some(g)
    requires forall r :: r in l'.open ==> r < s.next + 1 && e'.relay == Some(r) && e'.worker.Some?
    requires (forall n, m :: n in l'.leases && m in l'.leases ==> n == m) && (l'.leases != {} <==> e'.finalUse)
    requires forall n :: n in l'.leases ==> n < s.next + 1
    ensures LifeOk(s.(next := s.next + 1), l')
  {
    Holders(l');
  }

  function Ticked(s: Store): Store { s.(next := s.next + 1) }

  /** Time, shutdown and other calls' progress leave a sign-in alone. */
  lemma LaterOk(s: Store, s': Store, l: Life)
    requires LifeOk(s, l) && s.next <= s'.next && (s.shutdown ==> s'.shutdown)
    requires forall k :: k in s.closers && s.closers[k] != Returned ==>
               (k in s'.closers && s'.closers[k] != Returned)
               || forall n :: n in l.disposals ==> l.disposals[n].runner != Closer(k)
    ensures LifeOk(s', l)
  {
    forall n | n in l.disposals ensures DisposalOk(s', l, l.disposals[n]) {
      assert DisposalOk(s, l, l.disposals[n]);
    }
  }

  lemma StillOk(s: Store, l: Life)
    requires LifeOk(s, l)
    ensures LifeOk(Ticked(s), l)
  {
    LaterOk(s, Ticked(s), l);
  }

  lemma CleanupOk(s: Store, l: Life)
    requires LifeOk(s, l) && l.entry.Some? && !l.entry.value.finalUse
    ensures LifeOk(Ticked(s), Discard(s, l, Cleanup))
  {
    DiscardOk(s, l, Cleanup);
    assert l.(leases := {}) == l;
  }

  lemma EndOk(s: Store, l: Life, g: nat, created: bool, failed: bool)
    requires LifeOk(s, l)
    ensures LifeOk(s, WorkerEnds(l, g, created, failed))
  {
    var l' := WorkerEnds(l, g, created, failed);
    assert forall e :: Holds(l, e) <==> Holds(l', e);
    if g in l.running {
      var e :| Holds(l, e) && e.worker == Some(g);
      Holders(l);
      assert EntryOk(l', e);
    }
  }

  lemma LinkOk(s: Store, l: Life, g: nat, callback: Callback)
    requires LifeOk(s, l)
    ensures LifeOk(Ticked(s), HandOff(s, l, g, callback))
  {
    var l' := HandOff(s, l, g, callback);
    if l' == l {
      StillOk(s, l);
    } else {
      Holders(l);
      KeptEntry(s, l, l', l.entry.value, l'.entry.value);
    }
  }

  lemma EndRelayOk(s: Store, l: Life, g: nat)
    requires LifeOk(s, l)
    ensures LifeOk(Ticked(s), CloseRelay(l, g))
  {
    var l' := CloseRelay(l, g);
    if l' == l {
      StillOk(s, l);
    } else {
      Holders(l);
      KeptEntry(s, l, l', l.entry.value, l'.entry.value);
    }
  }

  lemma ClaimOk(s: Store, l: Life, g: nat)
    requires LifeOk(s, l)
    ensures LifeOk(Ticked(s), Claim(s, l, g))
  {
    var l' := Claim(s, l, g);
    if Claimable(s, l, g) {
      Holders(l);
      assert l.open == {} && l.running == {};
      KeptEntry(s, l, l', l.entry.value, l'.entry.value);
    } else {
      StillOk(s, l);
    }
  }

  lemma AnswerOk(s: Store, l: Life)
    requires LifeOk(s, l)
    ensures LifeOk(Ticked(s), Answer(s, l))
  {
    var l' := Answer(s, l);
    if Answerable(s, l) {
      Holders(l);
      assert l.running == {};
      KeptEntry(s, l, l', l.entry.value, l'.entry.value);
    } else {
      StillOk(s, l);
    }
  }

  lemma TakeLeaseOk(s: Store, l: Life, provider: nat)
    requires LifeOk(s, l)
    ensures LifeOk(Ticked(s), TakeLease(s, l, provider))
  {
    var l' := TakeLease(s, l, provider);
    if Leasable(s, l, provider) {
      Holders(l);
      KeptEntry(s, l, l', l.entry.value, l'.entry.value);
    } else {
      StillOk(s, l);
    }
  }

  lemma FinishOk(s: Store, l: Life, lease: nat, retained: bool)
    requires LifeOk(s, l)
    ensures LifeOk(Ticked(s), Finish(s, l, lease, retained))
  {
    if lease in l.leases {
      assert l.leases - {lease} == {};
      if retained {
        var l' := Finish(s, l, lease, true);
        Holders(l);
        KeptEntry(s, l, l', l.entry.value, l'.entry.value);
      } else {
        DiscardOk(s, l, Finishing);
      }
    } else {
      StillOk(s, l);
    }
  }

  lemma StopOk(s: Store, l: Life, n: nat)
    requires LifeOk(s, l)
    ensures LifeOk(s, StopDisposal(l, n))
  {
    var l' := StopDisposal(l, n);
    if l' != l {
      Holders(l);
      Holders(l');
      assert n in l'.disposals;
      assert EntryOk(l', l'.disposals[n].entry);
    }
  }

  lemma RemoveOk(s: Store, l: Life, n: nat, removed: bool)
    requires LifeOk(s, l)
    ensures LifeOk(s, Dispose(s, l, n, removed))
  {
    var l' := Dispose(s, l, n, removed);
    if Disposable(s, l, n) {
      Holders(l);
      assert l.open == {} && l.running == {};
      if n in l'.disposals {
        assert EntryOk(l', l'.disposals[n].entry);
      } else {
        assert l'.disposals == map[];
        assert l'.entry.Some? ==> EntryOk(l', l'.entry.value);
      }
    }
  }

  lemma ActOk(s: Store, l: Life, a: Action)
    requires LifeOk(s, l)
    ensures LifeOk(Ticked(s), Act(s, l, a))
  {
    hide LifeOk, EntryOk;
    StillOk(s, l);
    match a
    case EvictStale => if Act(s, l, a) != l { NotLeased(s, l); CleanupOk(s, l); }
    case End(g, created, failed) => EndOk(s, l, g, created, failed); StillOk(s, WorkerEnds(l, g, created, failed));
    case Link(g, callback) => LinkOk(s, l, g, callback);
    case EndRelay(g) => EndRelayOk(s, l, g);
    case GiveUp(g, requestGone) => if Act(s, l, a) != l { NotLeased(s, l); CleanupOk(s, l); }
    case TakeOutcome(g) => ClaimOk(s, l, g);
    case Reply => AnswerOk(s, l);
    case Delete => if Act(s, l, a) != l { CleanupOk(s, l); }
    case Expire => if Act(s, l, a) != l { CleanupOk(s, l); }
    case BeginFinalUse(provider) => TakeLeaseOk(s, l, provider);
    case EndFinalUse(lease, retained) => FinishOk(s, l, lease, retained);
    case Stop(n) => StopOk(s, l, n); StillOk(s, StopDisposal(l, n));
    case Remove(n, removed) => RemoveOk(s, l, n, removed); StillOk(s, Dispose(s, l, n, removed));
  }

  /** A session with a worker is not leased: eviction and a failed claim cannot
      take a leased session. */
  lemma NotLeased(s: Store, l: Life)
    requires LifeOk(s, l) && l.entry.Some? && l.entry.value.worker.Some?
    ensures !l.entry.value.finalUse
  {
  }

  lemma ActClosedDown(s: Store, l: Life, a: Action)
    requires LifeOk(s, l) && ClosedDown(s, l) && (s.closers != map[] ==> s.shutdown)
    ensures ClosedDown(Ticked(s), Act(s, l, a))
  {
    var l' := Act(s, l, a);
    forall k | k in s.closers && s.closers[k] != Stopping
      ensures l'.entry == None && l'.leases == {}
      ensures forall n :: n in l'.disposals ==> n in l.disposals && l'.disposals[n].runner == l.disposals[n].runner
    {
      match a
      case Remove(n, removed) =>
      case _ =>
    }
  }

  lemma TakeOutOk(s: Store, l: Life, call: nat, leased: bool)
    requires LifeOk(s, l) && call in s.closers && s.closers[call] != Returned
    requires leased ==> FinalUseDone(l)
    ensures LifeOk(Ticked(s), TakeOut(s, l, call, leased))
    ensures leased ==> TakeOut(s, l, call, leased).entry == None && FinalUseDone(TakeOut(s, l, call, leased))
  {
    if TakeOut(s, l, call, leased) == l {
      StillOk(s, l);
    } else {
      DiscardOk(s, l, Closer(call));
      assert l.(leases := {}) == l;
    }
  }

  /** What one call's pass does to one sign-in, whichever calls have drained before. */
  lemma PassKeeps(s: Store, s1: Store, l: Life, call: nat, leased: bool)
    requires LifeOk(s, l) && ClosedDown(s, l) && (call in s.closers ==> s.closers[call] == Stopping)
    requires s1.next == s.next && (s.shutdown ==> s1.shutdown)
    requires s1.closers == s.closers[call := if leased then Draining else Stopping] && (leased ==> FinalUseDone(l))
    ensures LifeOk(Ticked(s1), TakeOut(s1, l, call, leased)) && ClosedDown(Ticked(s1), TakeOut(s1, l, call, leased))
  {
    LaterOk(s, s1, l);
    TakeOutOk(s1, l, call, leased);
    hide LifeOk, FinalUseDone, CleanedUp;
    if k :| k in s.closers && s.closers[k] != Stopping {
      assert l.entry == None && TakeOut(s1, l, call, leased) == l;
    }
  }

  lemma SameButLives(s: Store, s': Store, l: Life)
    requires LifeOk(s, l) && ClosedDown(s, l)
    requires s'.next == s.next && s'.shutdown == s.shutdown && s'.closers == s.closers
    ensures LifeOk(s', l) && ClosedDown(s', l)
  {
    LaterOk(s, s', l);
  }

  lemma CloseAllKeeps(s: Store)
    requires Inv(s)
    ensures Inv(CloseAll(s))
  {
    var s' := CloseAll(s);
    var s1 := s.(shutdown := true, closers := s.closers[s.next := Stopping]);
    forall id | id in s.lives ensures LifeOk(s', s'.lives[id]) && ClosedDown(s', s'.lives[id]) {
      hide LifeOk, ClosedDown, TakeOut;
      PassKeeps(s, s1, s.lives[id], s.next, false);
      SameButLives(Ticked(s1), s', s'.lives[id]);
    }
  }

  lemma DrainKeeps(s: Store, call: nat)
    requires Inv(s)
    ensures Inv(Drain(s, call))
  {
    var s' := Drain(s, call);
    if s' != s {
      var s1 := s.(closers := s.closers[call := Draining]);
      forall id | id in s.lives ensures LifeOk(s', s'.lives[id]) && ClosedDown(s', s'.lives[id]) {
        hide LifeOk, ClosedDown, TakeOut, FinalUseDone;
        PassKeeps(s, s1, s.lives[id], call, true);
        SameButLives(Ticked(s1), s', s'.lives[id]);
      }
    }
  }

  lemma ReportedOk(s: Store, l: Life)
    requires LifeOk(s, l)
    ensures LifeOk(s, Report(l))
  {
    if Report(l) != l {
      Holders(l);
      assert l.entry == None && l.disposals == map[];
    }
  }

  lemma ReturnKeeps(s: Store, call: nat)
    requires Inv(s)
    ensures Inv(Return(s, call))
  {
    var s' := Return(s, call);
    if s' != s {
      forall id | id in s.lives ensures LifeOk(s', s'.lives[id]) && ClosedDown(s', s'.lives[id]) {
        ReportedOk(s, s.lives[id]);
        LaterOk(s, s', Report(s.lives[id]));
      }
    }
  }

  lemma StepKeeps(s: Store, e: Event)
    requires Inv(s)
    ensures Inv(Step(s, e))
  {
    hide LifeOk, Act;
    match e
    case Wait(time) => forall id | id in s.lives { LaterOk(s, Step(s, e), s.lives[id]); }
    case Start(provider) =>
      LaunchedOk(s, provider);
      forall id | id in s.lives { LaterOk(s, Step(s, e), s.lives[id]); }
    case On(id, action) =>
      if id in s.lives && Step(s, e) != s {
        ActOk(s, s.lives[id], action);
        ActClosedDown(s, s.lives[id], action);
        LaterOk(Ticked(s), Step(s, e), Step(s, e).lives[id]);
        forall i | i in s.lives { LaterOk(s, Step(s, e), s.lives[i]); }
      }
    case Shutdown => CloseAllKeeps(s);
    case ShutdownDrains(call) => DrainKeeps(s, call);
    case ShutdownReturns(call) => ReturnKeeps(s, call);
  }

  lemma LaunchedOk(s: Store, provider: nat)
    ensures LifeOk(Step(s, Start(provider)), Launched(s, provider))
  {
    Holders(Launched(s, provider));
  }

  lemma {:induction false} RunKeeps(events: seq<Event>)
    ensures Inv(Run(events))
  {
    if events != [] {
      RunKeeps(events[..|events| - 1]);
      StepKeeps(Run(events[..|events| - 1]), events[|events| - 1]);
    }
  }
}
