/** Cloud sign-in sessions: the mutex-protected store, its native workers, its
    callback relays and the disposals that run outside the lock. Every section
    of the source that holds the mutex is one step; steps interleave freely. */
module SignIn {
  import opened Options

  type Id = nat

  const LIFETIME: nat := 15
  const RETRY_INTERVAL: nat := 1

  /** A store entry. `worker` is the generation of the transition attached to it. */
  datatype Entry = Entry(
    provider: nat, expiresAt: nat, generation: nat, worker: Option<nat>, flow: bool,
    relay: Option<nat>, finalUse: bool, cleanupPending: bool)

  /** A native flow owns private folders until it is closed, or until its failed
      removal is recorded and then reported by shutdown. */
  datatype Flow = Open | Closed | Recorded | Reported

  /** Who runs a disposal, and so whose wait group it is counted in. */
  datatype Runner = Cleanup | Finishing | Closer(call: nat)
  datatype Disposal = Disposal(entry: Entry, runner: Runner, failures: nat)

  /** Everything there is of one sign-in: its entry while the store has it, the
      generations still running, failed or handed out, its open relays, its
      native flow, the leases out, the disposals running, and whether the store
      has ever given it up. */
  datatype Life = Life(
    entry: Option<Entry>, running: set<nat>, failed: set<nat>, handedOut: set<nat>, open: set<nat>,
    flow: Option<Flow>, leases: set<nat>, disposals: map<nat, Disposal>, ended: bool)

  datatype Phase = Stopping | Draining | Returned

  /** `next` numbers sign-ins, relays, leases, disposals and shutdown calls. */
  datatype Store = Store(now: nat, shutdown: bool, lives: map<Id, Life>, closers: map<nat, Phase>, next: nat)

  const EMPTY := Store(0, false, map[], map[], 0)

  // ----- Locked sections, as they act on one sign-in ------------------------

  predicate Expired(s: Store, e: Entry) { e.expiresAt <= s.now }

  function Discard(s: Store, l: Life, runner: Runner): Life
    requires l.entry.Some?
  {
    l.(entry := None, disposals := l.disposals[s.next := Disposal(l.entry.value, runner, 0)], ended := true)
  }

  /** A new sign-in and its first worker. */
  function Launched(s: Store, provider: nat): Life {
    Life(Some(Entry(provider, s.now + LIFETIME, 1, Some(1), false, None, false, false)),
         {1}, {}, {}, {}, None, {}, map[], false)
  }

  /** A session still waiting at the browser step holds the one callback port. */
  predicate Stale(l: Life) {
    && l.entry.Some? && l.entry.value.worker.Some?
    && l.entry.value.worker.value in l.running && l.entry.value.worker.value in l.handedOut
  }

  function Evict(s: Store, l: Life): Life {
    if s.shutdown || !Stale(l) then l else Discard(s, l, Cleanup)
  }

  /** The native transition ends; the first one may have created the flow. */
  function WorkerEnds(l: Life, g: nat, created: bool, failed: bool): Life {
    if g !in l.running then l
    else
      l.(running := l.running - {g}, failed := if failed then l.failed + {g} else l.failed,
         flow := if g == 1 && created then Some(Open) else l.flow)
  }

  /** The entry is live and its worker is still the one of generation `g`. */
  predicate Attached(s: Store, l: Life, g: nat) {
    && !s.shutdown && l.entry.Some? && l.entry.value.worker == Some(g) && l.entry.value.generation == g
    && !Expired(s, l.entry.value)
  }

  /** How the provider calls back: the loopback port, or a relay in a container. */
  datatype Callback = Loopback | Relayed(requestGone: bool)

  /** The sign-in link is handed out once; a container first opens a relay, and
      closes it again when the request went away meanwhile. */
  function HandOff(s: Store, l: Life, g: nat, callback: Callback): Life {
    if !Attached(s, l, g) || g in l.handedOut then l
    else
      var e := l.entry.value;
      match callback
      case Loopback => l.(handedOut := l.handedOut + {g}, entry := Some(e.(relay := None)))
      case Relayed(requestGone) =>
        if requestGone then l.(entry := Some(e.(relay := Some(s.next))))
        else l.(handedOut := l.handedOut + {g}, entry := Some(e.(relay := Some(s.next))), open := l.open + {s.next})
  }

  /** Callback admission follows the worker's life, and a claimant closes the
      relay before it takes the outcome. */
  function CloseRelay(l: Life, g: nat): Life {
    if l.entry.None? || l.entry.value.worker != Some(g) || g in l.running || l.entry.value.relay.None? then l
    else l.(open := l.open - {l.entry.value.relay.value})
  }

  predicate Failed(l: Life, g: nat) { g in l.failed || l.flow.None? }

  /** The outcome of a finished worker is a failure, or its request went away. */
  function Abandon(s: Store, l: Life, g: nat, requestGone: bool): Life {
    if Attached(s, l, g) && g !in l.running && (requestGone || Failed(l, g)) then Discard(s, l, Cleanup) else l
  }

  predicate Claimable(s: Store, l: Life, g: nat) {
    && Attached(s, l, g) && g !in l.running && !Failed(l, g)
    && (l.entry.value.relay.Some? ==> l.entry.value.relay.value !in l.open)
  }

  function Claim(s: Store, l: Life, g: nat): Life {
    if !Claimable(s, l, g) then l
    else
      l.(entry := Some(l.entry.value.(flow := true, worker := None, relay := None, expiresAt := s.now + LIFETIME)))
  }

  /** A completed step of a live session, which a request may still use. */
  predicate Usable(l: Life) {
    && l.entry.Some? && l.entry.value.worker == None && l.entry.value.flow
    && !l.entry.value.cleanupPending && !l.entry.value.finalUse
  }

  predicate Answerable(s: Store, l: Life) { !s.shutdown && Usable(l) && !Expired(s, l.entry.value) }

  function Answer(s: Store, l: Life): Life {
    if !Answerable(s, l) then l
    else
      var g := l.entry.value.generation + 1;
      l.(entry := Some(l.entry.value.(expiresAt := s.now + LIFETIME, generation := g, worker := Some(g))),
         running := l.running + {g})
  }

  function Close(s: Store, l: Life): Life {
    if l.entry.None? || l.entry.value.finalUse then l else Discard(s, l, Cleanup)
  }

  function Purge(s: Store, l: Life): Life {
    if l.entry.None? || l.entry.value.finalUse || !Expired(s, l.entry.value) then l else Discard(s, l, Cleanup)
  }

  /** The staged configuration is named only while no removal is pending. */
  predicate PathGiven(l: Life, provider: nat) {
    && l.entry.Some? && l.entry.value.worker == None && l.entry.value.flow
    && l.entry.value.provider == provider && !l.entry.value.cleanupPending
  }

  /** Publication needs the final-use lease. */
  predicate Publishes(l: Life, provider: nat) {
    && l.entry.Some? && l.entry.value.worker == None && l.entry.value.flow
    && l.entry.value.provider == provider && l.entry.value.finalUse
  }

  predicate Leasable(s: Store, l: Life, provider: nat) {
    !s.shutdown && Usable(l) && l.entry.value.provider == provider && !Expired(s, l.entry.value)
  }

  function TakeLease(s: Store, l: Life, provider: nat): Life {
    if !Leasable(s, l, provider) then l
    else
      l.(entry := Some(l.entry.value.(finalUse := true, expiresAt := s.now + LIFETIME)), leases := l.leases + {s.next})
  }

  predicate LeaseLost(l: Life) { l.entry.None? || !l.entry.value.finalUse }

  /** A lease ends once: retained for another try, or consumed. */
  function Finish(s: Store, l: Life, lease: nat, retained: bool): Life {
    if lease !in l.leases then l
    else
      var done := l.(leases := l.leases - {lease});
      if LeaseLost(l) then done
      else if retained then done.(entry := Some(l.entry.value.(finalUse := false, expiresAt := s.now + LIFETIME)))
      else Discard(s, done, Finishing)
  }

  // ----- Disposals, outside the lock ----------------------------------------

  /** A disposal first closes the relay and cancels the worker. */
  function StopDisposal(l: Life, n: nat): Life {
    if n !in l.disposals || l.disposals[n].entry.relay.None? then l
    else
      var d := l.disposals[n];
      l.(open := l.open - {d.entry.relay.value}, disposals := l.disposals[n := d.(entry := d.entry.(relay := None))])
  }

  predicate Disposable(s: Store, l: Life, n: nat) {
    && n in l.disposals && l.disposals[n].entry.relay == None
    && (l.disposals[n].entry.worker.Some? ==> l.disposals[n].entry.worker.value !in l.running)
    && match l.disposals[n].runner
       case Closer(k) => k in s.closers && s.closers[k] == Draining
       case _ => true
  }

  /** The worker is gone and the flow's folders are removed, or that fails: the
      session comes back as its own retry owner, and during shutdown the removal
      is tried three times before the failure is recorded. */
  function Dispose(s: Store, l: Life, n: nat, removed: bool): Life {
    if !Disposable(s, l, n) then l
    else
      var d := l.disposals[n];
      var gone := l.(disposals := l.disposals - {n});
      if !d.entry.flow && l.flow.None? then gone
      else if removed then gone.(flow := Some(Closed))
      else if !s.shutdown then
        if l.entry.Some? then gone
        else gone.(entry := Some(d.entry.(worker := None, flow := true, cleanupPending := true, finalUse := false,
                                          expiresAt := s.now + RETRY_INTERVAL)))
      else if d.failures < 2 then
        l.(disposals := l.disposals[n := d.(entry := d.entry.(worker := None, flow := true), failures := d.failures + 1)])
      else gone.(flow := Some(Recorded))
  }

  // ----- Shutdown -----------------------------------------------------------

  /** A shutdown call moves an entry out of the store into its own hands. */
  function TakeOut(s: Store, l: Life, call: nat, leased: bool): Life {
    if l.entry.Some? && (leased || !l.entry.value.finalUse) then Discard(s, l, Closer(call)) else l
  }

  predicate FinalUseDone(l: Life) {
    l.leases == {} && forall n :: n in l.disposals ==> l.disposals[n].runner != Finishing
  }

  predicate CleanedUp(l: Life, call: nat) {
    forall n :: n in l.disposals ==> l.disposals[n].runner != Cleanup && l.disposals[n].runner != Closer(call)
  }

  function Report(l: Life): Life { if l.flow == Some(Recorded) then l.(flow := Some(Reported)) else l }

  function CloseAll(s: Store): Store {
    var call := s.next;
    s.(shutdown := true, closers := s.closers[call := Stopping], next := s.next + 1,
       lives := map id | id in s.lives :: TakeOut(s, s.lives[id], call, false))
  }

  function Drain(s: Store, call: nat): Store {
    if call !in s.closers || s.closers[call] != Stopping || !(forall id :: id in s.lives ==> FinalUseDone(s.lives[id])) then s
    else
      s.(closers := s.closers[call := Draining], next := s.next + 1,
         lives := map id | id in s.lives :: TakeOut(s, s.lives[id], call, true))
  }

  /** The call returns and reports every failure recorded so far. */
  function Return(s: Store, call: nat): Store {
    if call !in s.closers || s.closers[call] != Draining || !(forall id :: id in s.lives ==> CleanedUp(s.lives[id], call))
    then s
    else s.(closers := s.closers[call := Returned], lives := map id | id in s.lives :: Report(s.lives[id]))
  }

  // ----- Runs ---------------------------------------------------------------

  datatype Action =
    | EvictStale
    | End(g: nat, created: bool, failed: bool)
    | Link(g: nat, callback: Callback)
    | EndRelay(g: nat)
    | GiveUp(g: nat, requestGone: bool)
    | TakeOutcome(g: nat)
    | Reply
    | Delete
    | Expire
    | BeginFinalUse(provider: nat)
    | EndFinalUse(lease: nat, retained: bool)
    | Stop(n: nat)
    | Remove(n: nat, removed: bool)

  datatype Event =
    | Wait(time: nat)
    | Start(provider: nat)
    | On(id: Id, action: Action)
    | Shutdown
    | ShutdownDrains(call: nat)
    | ShutdownReturns(call: nat)

  function Act(s: Store, l: Life, a: Action): Life {
    match a
    case EvictStale => Evict(s, l)
    case End(g, created, failed) => WorkerEnds(l, g, created, failed)
    case Link(g, callback) => HandOff(s, l, g, callback)
    case EndRelay(g) => CloseRelay(l, g)
    case GiveUp(g, requestGone) => Abandon(s, l, g, requestGone)
    case TakeOutcome(g) => Claim(s, l, g)
    case Reply => Answer(s, l)
    case Delete => Close(s, l)
    case Expire => Purge(s, l)
    case BeginFinalUse(provider) => TakeLease(s, l, provider)
    case EndFinalUse(lease, retained) => Finish(s, l, lease, retained)
    case Stop(n) => StopDisposal(l, n)
    case Remove(n, removed) => Dispose(s, l, n, removed)
  }

  function Step(s: Store, e: Event): Store {
    match e
    case Wait(time) => s.(now := s.now + time)
    case Start(provider) =>
      if s.shutdown then s else s.(lives := s.lives[s.next := Launched(s, provider)], next := s.next + 1)
    case On(id, action) =>
      if id !in s.lives || Act(s, s.lives[id], action) == s.lives[id] then s
      else s.(lives := s.lives[id := Act(s, s.lives[id], action)], next := s.next + 1)
    case Shutdown => CloseAll(s)
    case ShutdownDrains(call) => Drain(s, call)
    case ShutdownReturns(call) => Return(s, call)
  }

  function Run(events: seq<Event>): Store {
    if events == [] then EMPTY else Step(Run(events[..|events| - 1]), events[|events| - 1])
  }
}
