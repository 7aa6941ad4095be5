/** The promises of the sign-in store, for every run. */
module SignInPromises {
  import opened Options
  import opened SignIn
  import opened SignInSafety

  // ----- One owner ----------------------------------------------------------

  ghost predicate OwnedBy(l: Life, e: Entry) {
    || (l.entry == Some(e) && l.disposals == map[])
    || (l.entry == None && exists n :: n in l.disposals && l.disposals.Keys == {n} && l.disposals[n].entry == e)
  }

  /** In every reachable state an open flow, a running worker and an open relay
      have exactly one owner: the store's entry or one disposal. A sign-in never
      runs two native transitions, and an open relay's owner still has a worker. */
  lemma ExactlyOneOwner(events: seq<Event>, id: Id)
    requires id in Run(events).lives
    requires var l := Run(events).lives[id]; l.flow == Some(Open) || l.running != {} || l.open != {}
    ensures var l := Run(events).lives[id];
            exists e :: && OwnedBy(l, e)
                        && (forall g :: g in l.running ==> e.worker == Some(g))
                        && (forall r :: r in l.open ==> e.relay == Some(r) && e.worker.Some?)
  {
    RunKeeps(events);
    var l := Run(events).lives[id];
    assert LifeOk(Run(events), l);
    Holders(l);
    if l.entry.Some? {
      assert OwnedBy(l, l.entry.value);
    } else {
      var n :| n in l.disposals;
      assert l.disposals.Keys == {n};
      assert OwnedBy(l, l.disposals[n].entry);
    }
  }

  // ----- Final-use leases ---------------------------------------------------

  /** While a lease is out, no expiry, close, eviction, claim or shutdown takes
      the session: it stays in the store with its flow open. */
  lemma LeaseProtects(s: Store, e: Event, id: Id, lease: nat)
    requires Inv(s) && id in s.lives && lease in s.lives[id].leases
    requires !(e.On? && e.id == id && e.action.EndFinalUse? && e.action.lease == lease)
    ensures var l := Step(s, e).lives[id];
            && l.leases == {lease} && l.entry == s.lives[id].entry && !LeaseLost(l)
            && l.flow == Some(Open) && l.ended == s.lives[id].ended
  {
    var l := s.lives[id];
    assert LifeOk(s, l);
    assert l.leases == {lease} && l.disposals == map[] && l.running == {} by { Holders(l); }
    match e
    case ShutdownDrains(call) => assert !FinalUseDone(l);
    case _ =>
  }

  lemma LeaseIsUnique(events: seq<Event>, id: Id, a: nat, b: nat)
    requires id in Run(events).lives && a in Run(events).lives[id].leases && b in Run(events).lives[id].leases
    ensures a == b && !LeaseLost(Run(events).lives[id])
    ensures forall provider :: !Leasable(Run(events), Run(events).lives[id], provider)
  {
    RunKeeps(events);
    assert LifeOk(Run(events), Run(events).lives[id]);
  }

  // ----- No resurrection ----------------------------------------------------

  /** No request is served for the sign-in any more. */
  ghost predicate Refused(s: Store, l: Life) {
    && !Usable(l) && !Answerable(s, l) && l.leases == {}
    && (forall provider :: !PathGiven(l, provider) && !Publishes(l, provider) && !Leasable(s, l, provider))
    && (forall g :: !Attached(s, l, g) && !Claimable(s, l, g))
  }

  lemma EndedIsRefused(s: Store, l: Life)
    requires LifeOk(s, l) && l.ended
    ensures Refused(s, l)
  {
    Holders(l);
  }

  lemma StaysEnded(s: Store, e: Event, id: Id)
    requires id in s.lives && s.lives[id].ended && id < s.next
    ensures id in Step(s, e).lives && Step(s, e).lives[id].ended
  {
  }

  /** Once a session was discarded, or its lease consumed, no later step of any
      run serves it again, even when its folders could not be removed and it is
      back in the store as its own retry owner. */
  lemma {:induction false} NoResurrection(events: seq<Event>, more: seq<Event>, id: Id)
    requires id in Run(events).lives && Run(events).lives[id].ended
    ensures id in Run(events + more).lives && Run(events + more).lives[id].ended
    ensures Refused(Run(events + more), Run(events + more).lives[id])
  {
    if more == [] {
      assert events + more == events;
    } else {
      var last := |more| - 1;
      NoResurrection(events, more[..last], id);
      RunKeeps(events + more[..last]);
      assert (events + more)[..|events + more| - 1] == events + more[..last];
      StaysEnded(Run(events + more[..last]), more[last], id);
    }
    RunKeeps(events + more);
    EndedIsRefused(Run(events + more), Run(events + more).lives[id]);
  }

  lemma LeavingBy(s: Store, l: Life, a: Action)
    requires l.entry.Some? && Act(s, l, a).entry.None?
    ensures Act(s, l, a).ended && s.next in Act(s, l, a).disposals
  {
  }

  /** What gives a session up for good: the lease consumed, an abandoned or failed
      outcome, a close, an expiry, an eviction and shutdown. Nothing else removes
      an entry from the store. */
  lemma LeavingIsForGood(s: Store, e: Event, id: Id)
    requires Inv(s) && id in s.lives && s.lives[id].entry.Some? && Step(s, e).lives[id].entry.None?
    ensures Step(s, e).lives[id].ended
    ensures exists n :: n in Step(s, e).lives[id].disposals
  {
    var l' := Step(s, e).lives[id];
    if e.On? {
      hide LifeOk, Inv;
      LeavingBy(s, s.lives[id], e.action);
    }
    assert s.next in l'.disposals;
  }

  // ----- Branches that are never taken --------------------------------------

  /** A disposal that failed never finds the session in the store again, and a
      finishing lease never finds its ownership lost. */
  lemma NeverLostOrThere(events: seq<Event>, id: Id, n: nat)
    requires id in Run(events).lives
    ensures var l := Run(events).lives[id];
            && (n in l.leases ==> !LeaseLost(l))
            && (n in l.disposals ==> l.entry == None && l.disposals.Keys == {n})
  {
    RunKeeps(events);
    assert LifeOk(Run(events), Run(events).lives[id]);
  }

  // ----- Shutdown -----------------------------------------------------------

  /** A failure that was recorded waits for a call that has still to report it. */
  ghost predicate Unreported(s: Store) {
    && (s.shutdown ==> s.closers != map[])
    && forall id :: id in s.lives && s.lives[id].flow == Some(Recorded) ==>
         exists k :: k in s.closers && s.closers[k] != Returned
  }

  /** A call that returns reports everything recorded; no other step ends a call. */
  lemma CallsStay(s: Store, e: Event)
    ensures forall k :: k in s.closers ==> k in Step(s, e).closers || k == s.next
    ensures forall k, id :: k in s.closers && s.closers[k] != Returned
                            && id in Step(s, e).lives && Step(s, e).lives[id].flow == Some(Recorded) ==>
              k in Step(s, e).closers && Step(s, e).closers[k] != Returned
  {
  }

  lemma UnreportedStep(s: Store, e: Event)
    requires Inv(s) && Unreported(s)
    ensures Unreported(Step(s, e))
  {
    var s' := Step(s, e);
    assert s'.shutdown ==> s'.closers != map[] by { if e.Shutdown? { assert s.next in s'.closers; } }
    CallsStay(s, e);
    hide Inv, Step, Act;
    forall id | id in s'.lives && s'.lives[id].flow == Some(Recorded)
      ensures exists k :: k in s'.closers && s'.closers[k] != Returned
    {
      if id in s.lives && s.lives[id].flow == Some(Recorded) {
        var k :| k in s.closers && s.closers[k] != Returned;
        assert k in s'.closers && s'.closers[k] != Returned;
      } else {
        RecordedNow(s, e, id);
      }
    }
  }

  lemma RecordedBy(s: Store, l: Life, a: Action)
    requires l.flow != Some(Recorded) && Act(s, l, a).flow == Some(Recorded)
    ensures s.shutdown && a.Remove? && Disposable(s, l, a.n)
  {
  }

  lemma RecordedNow(s: Store, e: Event, id: Id)
    requires Inv(s) && Unreported(s)
    requires id in Step(s, e).lives && Step(s, e).lives[id].flow == Some(Recorded)
    requires id in s.lives ==> s.lives[id].flow != Some(Recorded)
    ensures exists k :: k in Step(s, e).closers && Step(s, e).closers[k] != Returned
  {
    hide Act, LifeOk;
    assert e.On? && e.id == id;
    var l := s.lives[id];
    RecordedBy(s, l, e.action);
    var d := l.disposals[e.action.n];
    if d.runner.Closer? {
      assert s.closers[d.runner.call] == Draining;
    } else {
      var k :| k in s.closers;
      assert ClosedDown(s, l);
      assert s.closers[k] != Returned;
    }
  }

  lemma {:induction false} RunUnreported(events: seq<Event>)
    ensures Unreported(Run(events))
  {
    if events != [] {
      RunUnreported(events[..|events| - 1]);
      RunKeeps(events[..|events| - 1]);
      UnreportedStep(Run(events[..|events| - 1]), events[|events| - 1]);
    }
  }

  /** Nothing of the sign-in is left behind without a report. */
  ghost predicate Settled(l: Life) {
    && l.entry == None && l.disposals == map[] && l.leases == {} && l.running == {} && l.open == {}
    && l.flow != Some(Open) && l.flow != Some(Recorded)
  }

  /** When a shutdown call has returned, the store is empty for good, and all that
      is unsettled is in the hands of another call that has not returned. */
  lemma ReturnedCall(events: seq<Event>, call: nat, id: Id)
    requires var s := Run(events); call in s.closers && s.closers[call] == Returned && id in s.lives
    ensures var s := Run(events);
            var l := s.lives[id];
            && l.entry == None && l.leases == {}
            && (forall n :: n in l.disposals ==>
                  l.disposals[n].runner.Closer? && l.disposals[n].runner.call != call
                  && l.disposals[n].runner.call in s.closers && s.closers[l.disposals[n].runner.call] != Returned)
            && (l.disposals == map[] ==> l.flow != Some(Open) && l.running == {} && l.open == {})
  {
    RunKeeps(events);
    var s := Run(events);
    assert LifeOk(s, s.lives[id]) && ClosedDown(s, s.lives[id]);
  }

  /** When every shutdown call has returned, every flow was closed or its failure
      reported, no worker runs and no relay listens. */
  lemma ShutdownSettlesEverything(events: seq<Event>)
    requires var s := Run(events); s.closers != map[] && forall k :: k in s.closers ==> s.closers[k] == Returned
    ensures forall id :: id in Run(events).lives ==> Settled(Run(events).lives[id])
  {
    var s := Run(events);
    RunUnreported(events);
    var call :| call in s.closers;
    forall id | id in s.lives ensures Settled(s.lives[id]) {
      ReturnedCall(events, call, id);
    }
  }

  /** A call that finds every session already in another call's hands returns at
      once, and touches none of them. */
  lemma SecondCallReturns(s: Store, id: Id)
    requires forall i :: i in s.lives ==>
      && s.lives[i].entry == None && s.lives[i].leases == {} && s.lives[i].flow != Some(Recorded)
      && forall n :: n in s.lives[i].disposals ==>
           s.lives[i].disposals[n].runner.Closer? && s.lives[i].disposals[n].runner.call != s.next
    requires id in s.lives
    ensures var s' := Step(Step(Step(s, Shutdown), ShutdownDrains(s.next)), ShutdownReturns(s.next));
            s.next in s'.closers && s'.closers[s.next] == Returned && id in s'.lives && s'.lives[id] == s.lives[id]
  {
    var s1 := Step(s, Shutdown);
    assert s1.lives == s.lives;
    var s2 := Step(s1, ShutdownDrains(s.next));
    assert s2.lives == s.lives;
  }

  /** So one call alone is not enough when two overlap: the second returns while
      the first still holds the session's open flow. */
  lemma OverlappingCalls()
    ensures var s := Run([Start(0), On(0, End(1, true, false)), Shutdown, Shutdown, ShutdownDrains(3), ShutdownReturns(3)]);
            && 3 in s.closers && s.closers[3] == Returned && 0 in s.lives && s.lives[0].flow == Some(Open)
  {
    var open := [Start(0), On(0, End(1, true, false))];
    RunsOn([], Start(0));
    RunsOn([Start(0)], On(0, End(1, true, false)));
    RunsOn(open, Shutdown);
    assert [] + [Start(0)] == [Start(0)] && [Start(0)] + [On(0, End(1, true, false))] == open;
    var s := Run(open + [Shutdown]);
    assert s.lives[0].entry == None && s.next == 3 && s.lives.Keys == {0} && s.lives[0].flow == Some(Open);
    hide Step, Run;
    RunsOn(open + [Shutdown], Shutdown);
    RunsOn(open + [Shutdown] + [Shutdown], ShutdownDrains(3));
    RunsOn(open + [Shutdown] + [Shutdown] + [ShutdownDrains(3)], ShutdownReturns(3));
    assert [Start(0), On(0, End(1, true, false)), Shutdown, Shutdown, ShutdownDrains(3), ShutdownReturns(3)]
        == open + [Shutdown] + [Shutdown] + [ShutdownDrains(3)] + [ShutdownReturns(3)];
    SecondCallReturns(s, 0);
  }

  lemma RunsOn(events: seq<Event>, e: Event)
    ensures Run(events + [e]) == Step(Run(events), e)
  {
    assert (events + [e])[..|events|] == events;
  }
}
