/** What each section makes of a sign-in: exactly when a session ends and into whose
    hands it goes, what a request that is served gives, and how every flow ends. */
module SignInOutcomes {
  import opened Options
  import opened SignIn
  import opened SignInSafety
  import opened SignInPromises

  // ----- Ending -------------------------------------------------------------

  /** The session left the store for good, whole, into the hands of one disposal. */
  ghost predicate HandedOver(l: Life, l': Life, n: nat, runner: Runner) {
    && l.entry.Some? && l'.entry == None && l'.ended && l'.leases == {}
    && l'.disposals == map[n := Disposal(l.entry.value, runner, 0)]
    && l'.flow == l.flow && l'.running == l.running && l'.open == l.open && l'.failed == l.failed
  }

  /** A live session that no lease protects. */
  predicate Endable(l: Life) { l.entry.Some? && !l.entry.value.finalUse }

  /** Whose disposal a section starts, if it ends the session. */
  function EndedBy(s: Store, l: Life, a: Action): Option<Runner> {
    match a
    case Delete => if Endable(l) then Some(Cleanup) else None
    case Expire => if Endable(l) && Expired(s, l.entry.value) then Some(Cleanup) else None
    case EvictStale => if !s.shutdown && Stale(l) then Some(Cleanup) else None
    case GiveUp(g, requestGone) =>
      if Attached(s, l, g) && g !in l.running && (requestGone || Failed(l, g)) then Some(Cleanup) else None
    case EndFinalUse(lease, retained) => if lease in l.leases && !retained then Some(Finishing) else None
    case _ => None
  }

  /** A session ends exactly when its section says so, and otherwise stays. */
  lemma EndsExactlyWhen(s: Store, l: Life, a: Action)
    requires LifeOk(s, l)
    ensures EndedBy(s, l, a).Some? ==> HandedOver(l, Act(s, l, a), s.next, EndedBy(s, l, a).value)
    ensures EndedBy(s, l, a).None? && l.entry.Some? ==> Act(s, l, a).entry.Some? && Act(s, l, a).ended == l.ended
  {
    if EndedBy(s, l, a).Some? {
      assert l.disposals == map[];
      assert Act(s, l, a).disposals == map[s.next := Disposal(l.entry.value, EndedBy(s, l, a).value, 0)];
    }
  }

  /** A shutdown call takes exactly the sessions without a lease, and once no lease is
      out the rest. */
  lemma ShutdownTakes(s: Store, id: Id)
    requires Inv(s) && id in s.lives && s.lives[id].entry.Some?
    ensures var l' := Step(s, Shutdown).lives[id];
      if Endable(s.lives[id]) then HandedOver(s.lives[id], l', s.next, Closer(s.next)) else l' == s.lives[id]
    ensures forall call :: call in s.closers && s.closers[call] == Stopping
                           && (forall i :: i in s.lives ==> FinalUseDone(s.lives[i])) ==>
      HandedOver(s.lives[id], Step(s, ShutdownDrains(call)).lives[id], s.next, Closer(call))
  {
    assert s.lives[id].disposals == map[];
  }

  /** A consumed lease ends the session for good: no continuation serves it again. */
  lemma ConsumedIsGone(events: seq<Event>, id: Id, lease: nat, more: seq<Event>)
    requires id in Run(events).lives && lease in Run(events).lives[id].leases
    ensures var s := Run(events + [On(id, EndFinalUse(lease, false))]);
      id in s.lives && HandedOver(Run(events).lives[id], s.lives[id], Run(events).next, Finishing)
    ensures var s := Run(events + [On(id, EndFinalUse(lease, false))] + more);
      id in s.lives && s.lives[id].ended && Refused(s, s.lives[id])
  {
    RunKeeps(events);
    var e := On(id, EndFinalUse(lease, false));
    RunsOn(events, e);
    EndsExactlyWhen(Run(events), Run(events).lives[id], e.action);
    NoResurrection(events + [e], more, id);
  }

  // ----- Being served -------------------------------------------------------

  /** Nothing about the session changed but its time. */
  ghost predicate SameButTime(e: Entry, e': Entry) { e' == e.(expiresAt := e'.expiresAt) }

  /** A lease lets its provider publish, restarts the session's time and changes nothing
      else; when it is retained, the session is as before and may be leased again. */
  lemma LeaseAndRetain(s: Store, id: Id, provider: nat)
    requires Inv(s) && id in s.lives && Leasable(s, s.lives[id], provider)
    ensures var e := s.lives[id].entry.value;
      var s1 := Step(s, On(id, BeginFinalUse(provider)));
      var s2 := Step(s1, On(id, EndFinalUse(s.next, true)));
      && s1.lives[id] == s.lives[id].(leases := {s.next}, entry := Some(e.(finalUse := true, expiresAt := s.now + LIFETIME)))
      && Publishes(s1.lives[id], provider) && PathGiven(s1.lives[id], provider)
      && s2.lives[id] == s.lives[id].(entry := Some(e.(expiresAt := s.now + LIFETIME))) && Leasable(s2, s2.lives[id], provider)
  {
    var l := s.lives[id];
    assert LifeOk(s, l);
    assert l.leases == {};
    var l1 := Act(s, l, BeginFinalUse(provider));
    assert l1.leases == {s.next} && l1 != l;
    var s1 := Step(s, On(id, BeginFinalUse(provider)));
    assert s1.lives[id] == l1;
    assert l1.leases - {s.next} == {};
    assert Act(s1, l1, EndFinalUse(s.next, true)) != l1;
  }

  /** A finished transition is claimed once its relay is closed: the session is usable
      again, with its time restarted. */
  lemma OutcomeIsTaken(s: Store, l: Life, g: nat)
    requires LifeOk(s, l) && Attached(s, l, g) && g !in l.running && !Failed(l, g)
    ensures var l' := Act(s, Act(s, l, EndRelay(g)), TakeOutcome(g));
      var e := l.entry.value;
      && Usable(l') && l'.entry.value == e.(worker := None, flow := true, relay := None, expiresAt := s.now + LIFETIME)
      && l'.open == {} && l'.flow == l.flow && l'.disposals == l.disposals && l'.ended == l.ended
  {
    Holders(l);
  }

  /** No transition is newer than the session's own, and none runs that has failed. */
  ghost predicate Generations(l: Life) {
    && l.running !! l.failed
    && (l.entry.Some? ==> forall g :: g in l.running || g in l.failed ==> g <= l.entry.value.generation)
    && (forall n, g :: n in l.disposals && (g in l.running || g in l.failed) ==> g <= l.disposals[n].entry.generation)
  }

  lemma ActGenerations(s: Store, l: Life, a: Action)
    requires LifeOk(s, l) && Generations(l)
    ensures Generations(Act(s, l, a))
  {
    Holders(l);
  }

  lemma StepGenerations(s: Store, e: Event, id: Id)
    requires Inv(s) && forall i :: i in s.lives ==> Generations(s.lives[i])
    requires id in Step(s, e).lives
    ensures Generations(Step(s, e).lives[id])
  {
    if e.On? && e.id == id && id in s.lives { ActGenerations(s, s.lives[id], e.action); }
    hide Act;
  }

  lemma {:induction false} RunGenerations(events: seq<Event>)
    ensures forall id :: id in Run(events).lives ==> Generations(Run(events).lives[id])
  {
    if events != [] {
      var before := Run(events[..|events| - 1]);
      RunGenerations(events[..|events| - 1]);
      RunKeeps(events[..|events| - 1]);
      forall id | id in Run(events).lives
        ensures Generations(Run(events).lives[id])
      {
        StepGenerations(before, events[|events| - 1], id);
      }
    }
  }

  /** A running transition ends once, and fails when it says so or when there is no flow;
      then its claim gives the whole session up, and otherwise makes it usable. */
  lemma TransitionEnds(s: Store, l: Life, g: nat, created: bool, failed: bool)
    requires LifeOk(s, l) && Generations(l) && Attached(s, l, g) && g in l.running
    ensures var l1 := Act(s, l, End(g, created, failed));
      && l1 == l.(running := l.running - {g}, failed := l1.failed, flow := if g == 1 && created then Some(Open) else l.flow)
      && (Failed(l1, g) <==> failed || (l.flow == None && !(g == 1 && created)))
      && Act(s, l1, End(g, created, failed)) == l1
      && (Failed(l1, g) ==>
            && Act(s, l1, TakeOutcome(g)) == l1
            && HandedOver(l1, Act(s, l1, GiveUp(g, false)), s.next, Cleanup))
      && (!Failed(l1, g) ==>
            && Act(s, l1, GiveUp(g, false)) == l1
            && Usable(Act(s, Act(s, l1, EndRelay(g)), TakeOutcome(g))))
  {
    var l1 := Act(s, l, End(g, created, failed));
    assert LifeOk(s, l1) by { EndOk(s, l, g, created, failed); }
    EndsExactlyWhen(s, l1, GiveUp(g, false));
    if !Failed(l1, g) { OutcomeIsTaken(s, l1, g); }
  }

  /** An answer is taken exactly when the session may be answered: it restarts the time
      and launches one more transition, whose outcome makes the session usable again. */
  lemma AnswerIsTaken(s: Store, l: Life)
    requires LifeOk(s, l) && Generations(l)
    ensures !Answerable(s, l) ==> Act(s, l, Reply) == l
    ensures Answerable(s, l) ==>
      var g := l.entry.value.generation + 1;
      var l1 := Act(s, l, Reply);
      && Attached(s, l1, g) && l1.running == {g} && g !in l1.handedOut && !Usable(l1)
      && l1 == l.(running := {g}, entry := Some(l.entry.value.(worker := Some(g), generation := g,
                                                               expiresAt := s.now + LIFETIME)))
      && Usable(Act(s, Act(s, l1, End(g, false, false)), TakeOutcome(g)))
  {
    Holders(l);
    if Answerable(s, l) {
      assert l.running == {};
    }
  }

  /** A new sign-in runs its first transition and can be neither answered nor leased
      before that is done; then, when a flow was created, it can. */
  lemma StartIsServed(s: Store, provider: nat)
    requires !s.shutdown && s.next !in s.lives
    ensures var id := s.next;
      var s1 := Step(s, Start(provider));
      var l := s1.lives[id];
      && Attached(s1, l, 1) && l.running == {1} && !Usable(l) && l.flow == None && l.entry.value.provider == provider
      && l.entry.value.expiresAt == s.now + LIFETIME && !l.ended && l.handedOut == {}
      && (forall other :: other in s.lives ==> s1.lives[other] == s.lives[other])
      && Leasable(s1, Act(s1, Act(s1, l, End(1, true, false)), TakeOutcome(1)), provider)
  {
  }

  /** The link is handed out once per transition, with a relay in a container unless
      the request went away. */
  lemma LinkOnce(s: Store, l: Life, g: nat, callback: Callback)
    requires LifeOk(s, l) && Attached(s, l, g)
    ensures var l' := Act(s, l, Link(g, callback));
      && (g in l.handedOut ==> l' == l)
      && (g !in l.handedOut ==>
            && (g in l'.handedOut <==> callback == Loopback || callback == Relayed(false))
            && (callback == Relayed(false) ==> l'.open == l.open + {s.next})
            && (callback != Relayed(false) ==> l'.open == l.open)
            && l'.entry.value == l.entry.value.(relay := if callback == Loopback then None else Some(s.next)))
  {
  }

  // ----- How a flow ends ----------------------------------------------------

  /** What a section may have done to the flow. */
  predicate FlowBy(s: Store, l: Life, a: Action, flow: Option<Flow>) {
    match flow
    case None => false
    case Some(Open) => a.End? && a.g == 1 && a.created && 1 in l.running
    case Some(Closed) => a.Remove? && a.removed
    case Some(Recorded) =>
      a.Remove? && !a.removed && s.shutdown && a.n in l.disposals && l.disposals[a.n].failures == 2
    case Some(Reported) => false
  }

  lemma SectionChangesFlow(s: Store, l: Life, a: Action)
    requires LifeOk(s, l) && Act(s, l, a).flow != l.flow
    ensures FlowBy(s, l, a, Act(s, l, a).flow)
    ensures l.flow == if a.End? then None else Some(Open)
  {
    Holders(l);
    if a.Remove? {
      assert DisposalOk(s, l, l.disposals[a.n]);
    }
  }

  /** A flow is created by its first transition, closed by a removal that succeeds,
      recorded by the third that fails during shutdown, and reported by a call that
      returns; nothing else changes it. */
  lemma FlowChanges(s: Store, e: Event, id: Id)
    requires Inv(s) && id in s.lives && id in Step(s, e).lives && Step(s, e).lives[id].flow != s.lives[id].flow
    ensures var flow := Step(s, e).lives[id].flow;
      if e.On? then
        && e.id == id && FlowBy(s, s.lives[id], e.action, flow)
        && s.lives[id].flow == if e.action.End? then None else Some(Open)
      else e.ShutdownReturns? && s.lives[id].flow == Some(Recorded) && flow == Some(Reported)
  {
    assert LifeOk(s, s.lives[id]);
    hide LifeOk, Act, FlowBy;
    if e.On? { SectionChangesFlow(s, s.lives[id], e.action); }
  }

  /** A disposal whose relay and worker are gone: what a removal comes to. Outside
      shutdown a failure brings the session back as its own retry owner, which is not
      served; during shutdown it is tried three times in all. */
  lemma RemovalComesTo(s: Store, l: Life, n: nat, removed: bool)
    requires LifeOk(s, l) && Disposable(s, l, n)
    ensures var l' := Act(s, l, Remove(n, removed));
      var d := l.disposals[n];
      if !d.entry.flow && l.flow.None? then l' == l.(disposals := map[])
      else if removed then l' == l.(disposals := map[], flow := Some(Closed))
      else if !s.shutdown then
        && l'.disposals == map[] && l'.flow == l.flow && l'.ended && l'.entry.Some? && Refused(s, l')
        && l'.entry.value.cleanupPending && l'.entry.value.expiresAt == s.now + RETRY_INTERVAL
        && l'.entry.value.provider == d.entry.provider && l'.entry.value.generation == d.entry.generation
      else if d.failures < 2 then
        l'.disposals.Keys == {n} && l'.disposals[n].failures == d.failures + 1 && l'.disposals[n].runner == d.runner
        && l'.flow == l.flow && l'.entry == None
      else l' == l.(disposals := map[], flow := Some(Recorded))
  {
    Holders(l);
    assert l.disposals.Keys == {n} && l.disposals - {n} == map[];
    RemoveOk(s, l, n, removed);
    if !removed && !s.shutdown && (l.disposals[n].entry.flow || l.flow.Some?) {
      EndedIsRefused(s, Act(s, l, Remove(n, removed)));
    }
  }

  /** A disposal closes the relay it holds, and no other is open. */
  lemma StopClosesRelays(s: Store, l: Life, n: nat)
    requires LifeOk(s, l) && n in l.disposals
    ensures var l1 := Act(s, l, Stop(n));
      && LifeOk(s, l1) && l1.open == {} && l1.running == l.running && n in l1.disposals
      && l1.disposals[n] == l.disposals[n].(entry := l.disposals[n].entry.(relay := None))
      && (forall g :: g in l.running ==> l.disposals[n].entry.worker == Some(g))
  {
    Holders(l);
    StopOk(s, l, n);
    var l1 := Act(s, l, Stop(n));
    Holders(l1);
  }

  lemma WorkerIsGone(s: Store, l: Life, n: nat, created: bool, failed: bool)
    requires LifeOk(s, l) && n in l.disposals && l.disposals[n].entry.relay == None && l.open == {}
    requires !l.disposals[n].runner.Closer?
    ensures var w := l.disposals[n].entry.worker;
      var l' := if w.Some? then Act(s, l, End(w.value, created, failed)) else l;
      && LifeOk(s, l') && Disposable(s, l', n) && l'.running == {} && l'.open == {}
  {
    Holders(l);
    var w := l.disposals[n].entry.worker;
    if w.Some? { EndOk(s, l, w.value, created, failed); }
    assert forall g :: g in l.running ==> w == Some(g);
  }

  /** Every disposal of a request can be carried through: its relay is closed, its worker
      ends, and a removal that succeeds leaves nothing. */
  lemma DisposalFinishes(s: Store, l: Life, n: nat, created: bool, failed: bool)
    requires LifeOk(s, l) && n in l.disposals && !l.disposals[n].runner.Closer?
    ensures var w := l.disposals[n].entry.worker;
      var l1 := Act(s, l, Stop(n));
      var l2 := if w.Some? then Act(s, l1, End(w.value, created, failed)) else l1;
      && l1.open == {} && Disposable(s, l2, n) && Settled(Act(s, l2, Remove(n, true)))
  {
    var w := l.disposals[n].entry.worker;
    var l1 := Act(s, l, Stop(n));
    StopClosesRelays(s, l, n);
    WorkerIsGone(s, l1, n, created, failed);
    var l2 := if w.Some? then Act(s, l1, End(w.value, created, failed)) else l1;
    RemovalComesTo(s, l2, n, true);
    OnlyDisposed(s, l2, n);
  }

  /** What a disposal has no longer belongs to the store. */
  lemma OnlyDisposed(s: Store, l: Life, n: nat)
    requires LifeOk(s, l) && n in l.disposals
    ensures l.entry == None && l.leases == {} && l.flow != Some(Recorded)
    ensures (!l.disposals[n].entry.flow && l.flow == None) || l.flow == Some(Open)
  {
    assert DisposalOk(s, l, l.disposals[n]);
  }

  /** A call returns exactly when its own disposals and all ordinary ones are done; it
      then reports every recorded failure and changes nothing else. */
  lemma CallReturns(s: Store, call: nat)
    requires call in s.closers
    ensures var s' := Step(s, ShutdownReturns(call));
      var done := s.closers[call] == Draining && forall id :: id in s.lives ==> CleanedUp(s.lives[id], call);
      if !done then s' == s else
        && s' == s.(closers := s.closers[call := Returned], lives := s'.lives) && s'.lives.Keys == s.lives.Keys
        && forall id :: id in s.lives ==>
             s'.lives[id] == s.lives[id].(flow := if s.lives[id].flow == Some(Recorded) then Some(Reported) else s.lives[id].flow)
  {
  }
}
