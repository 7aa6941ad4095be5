/** Tracked background work: who waits for whom, over idle waits, definition gates
    and vault locks taken in vault ID order. */
module VaultWork {
  import opened Options

  type Vault = nat
  type Job = nat

  /** A settings save that publishes no root counts as its vault's work without taking
      the vault's lock. A job deletion counts against every vault its job targets, and
      takes the locks of the Kopia ones, in ID order. */
  datatype Kind =
    | Work(vault: Option<Vault>, job: Option<Job>, locks: bool)
    | JobDeletion(job_: Job, targets: set<Vault>, kopia: seq<Vault>)
    | Removal(vault_: Vault)

  /** `Locking(k)` holds the first k locks it needs and waits for the next. */
  datatype Phase = Recorded | AtGate | Idle | Locking(held: nat) | Running | Finished

  datatype Gate = Open | Accepted | Closed
  datatype Worker = Worker(kind: Kind, phase: Phase, cancel: Gate)

  /** `removed` are the vaults whose rows were deleted. */
  datatype System = System(workers: seq<Worker>, removed: set<Vault>)

  function Needs(kind: Kind): (r: seq<Vault>) {
    match kind
    case Work(vault, _, locks) => if vault.Some? && locks then [vault.value] else []
    case JobDeletion(_, _, kopia) => kopia
    case Removal(vault) => [vault]
  }

  predicate Active(w: Worker) { w.phase != Finished }

  predicate Holds(w: Worker, v: Vault) {
    match w.phase
    case Locking(held) => held <= |Needs(w.kind)| && v in Needs(w.kind)[..held]
    case Running => v in Needs(w.kind)
    case _ => false
  }

  predicate DeletesJob(w: Worker, job: Job) { w.kind.JobDeletion? && w.kind.job_ == job }

  predicate HasGate(w: Worker) { w.kind.JobDeletion? && (w.phase == Idle || w.phase.Locking? || w.phase == Running) }

  /** Other queued or running work of a job, as its deletion counts it. */
  predicate WorkOfJob(w: Worker, job: Job) { Active(w) && w.kind.Work? && w.kind.job == Some(job) }

  /** Other queued or running work of a vault, as its removal counts it. */
  predicate WorkOfVault(w: Worker, v: Vault) {
    Active(w) && match w.kind
      case Work(vault, _, _) => vault == Some(v)
      case JobDeletion(_, targets, _) => v in targets
      case Removal(_) => false
  }

  // ----- Waiting ------------------------------------------------------------

  predicate WaitsFor(a: Worker, b: Worker) {
    match a.phase
    case AtGate => a.kind.JobDeletion? && DeletesJob(b, a.kind.job_) && HasGate(b)
    case Idle =>
      (match a.kind
       case JobDeletion(job, _, _) => WorkOfJob(b, job)
       case Removal(v) => WorkOfVault(b, v)
       case Work(_, _, _) => false)
    case Locking(held) => held < |Needs(a.kind)| && Holds(b, Needs(a.kind)[held])
    case _ => false
  }

  predicate Blocked(s: System, i: nat)
    requires i < |s.workers|
  {
    exists j :: 0 <= j < |s.workers| && j != i && WaitsFor(s.workers[i], s.workers[j])
  }

  // ----- Steps --------------------------------------------------------------

  datatype Event = Queue(kind: Kind) | Advance(i: nat) | Cancel(i: nat) | Stop(i: nat)

  predicate RemovalPending(s: System, v: Vault) {
    exists i :: 0 <= i < |s.workers| && Active(s.workers[i]) && s.workers[i].kind == Removal(v)
  }

  /** A pending deletion of the job refuses new admissions as soon as it waits for
      the job's gate. */
  predicate GateBusy(s: System, job: Job) {
    exists i :: 0 <= i < |s.workers| && DeletesJob(s.workers[i], job)
                && (s.workers[i].phase == AtGate || HasGate(s.workers[i]))
  }

  predicate DeletionPending(s: System, job: Job) {
    exists i :: 0 <= i < |s.workers| && Active(s.workers[i]) && DeletesJob(s.workers[i], job)
  }

  /** A job deletion's record names no vault, so a pending removal does not hold
      it back. */
  predicate Admitted(s: System, kind: Kind) {
    match kind
    case Work(vault, job, _) =>
      (vault.Some? ==> !RemovalPending(s, vault.value)) && (job.Some? ==> !GateBusy(s, job.value))
    case JobDeletion(job, _, _) => !DeletionPending(s, job)
    case Removal(v) => !RemovalPending(s, v)
  }

  ghost predicate Sorted(vaults: seq<Vault>) {
    forall i, j :: 0 <= i < j < |vaults| ==> vaults[i] < vaults[j]
  }

  ghost predicate KindOk(kind: Kind) {
    kind.JobDeletion? ==> Sorted(kind.kopia) && forall v :: v in kind.kopia ==> v in kind.targets
  }

  function First(kind: Kind): Phase {
    match kind
    case Work(_, _, _) => Locking(0)
    case JobDeletion(_, _, _) => Recorded
    case Removal(_) => Idle
  }

  function Put(s: System, i: nat, w: Worker): System
    requires i < |s.workers|
  {
    s.(workers := s.workers[i := w])
  }

  /** The next step of a worker that nothing blocks. */
  function Moved(s: System, i: nat): System
    requires i < |s.workers|
  {
    var w := s.workers[i];
    match w.phase
    case Recorded => Put(s, i, w.(phase := AtGate))
    case AtGate => Put(s, i, w.(phase := Idle))
    case Idle => Put(s, i, w.(phase := Locking(0)))
    case Locking(held) =>
      if held < |Needs(w.kind)| then Put(s, i, w.(phase := Locking(held + 1)))
      else if w.cancel == Open then Put(s, i, w.(phase := Running, cancel := Closed))
      else Put(s, i, w.(phase := Finished))
    case Running =>
      if w.kind.Removal? && !(exists j :: 0 <= j < |s.workers| && WorkOfVault(s.workers[j], w.kind.vault_))
      then Put(s, i, w.(phase := Finished)).(removed := s.removed + {w.kind.vault_})
      else Put(s, i, w.(phase := Finished))
    case Finished => s
  }

  function Step(s: System, e: Event): System {
    match e
    case Queue(kind) =>
      if Admitted(s, kind) then s.(workers := s.workers + [Worker(kind, First(kind), Open)]) else s
    case Advance(i) => if i < |s.workers| && !Blocked(s, i) then Moved(s, i) else s
    case Cancel(i) =>
      if i < |s.workers| && s.workers[i].cancel == Open && Active(s.workers[i])
      then Put(s, i, s.workers[i].(cancel := Accepted)) else s
    case Stop(i) =>
      if i < |s.workers| && s.workers[i].cancel == Accepted && (s.workers[i].phase == Idle || s.workers[i].phase.Locking?)
      then Put(s, i, s.workers[i].(phase := Finished)) else s
  }

  function Run(events: seq<Event>): System {
    if events == [] then System([], {}) else Step(Run(events[..|events| - 1]), events[|events| - 1])
  }

  // ----- The order of waiting -----------------------------------------------

  /** A bound above every vault ID in use. */
  function Bound(s: System): (n: nat)
    ensures forall w :: w in s.workers ==> forall v :: v in Needs(w.kind) ==> v < n
  {
    BoundOf(s.workers)
  }

  function BoundOf(ws: seq<Worker>): (n: nat)
    ensures forall w :: w in ws ==> forall v :: v in Needs(w.kind) ==> v < n
  {
    if ws == [] then 0
    else
      var rest := BoundOf(ws[1..]);
      var own := Above(Needs(ws[0].kind));
      if own > rest then own else rest
  }

  function Above(vs: seq<Vault>): (n: nat)
    ensures forall v :: v in vs ==> v < n
  {
    if vs == [] then 0
    else
      var rest := Above(vs[1..]);
      assert forall v :: v in vs ==> v == vs[0] || v in vs[1..];
      if vs[0] + 1 > rest then vs[0] + 1 else rest
  }

  /** Removals that wait for idleness come above job deletions, those above every
      lock waiter, and a lock waiter above whoever waits for a later vault. */
  function Rank(n: nat, w: Worker): (r: int) {
    match w.phase
    case Recorded => n + 3
    case AtGate => n + 3
    case Idle => if w.kind.Removal? then n + 4 else n + 2
    case Locking(held) => if held < |Needs(w.kind)| then 1 + n - Needs(w.kind)[held] else 0
    case Running => 0
    case Finished => 0
  }

  ghost predicate WorkerOk(w: Worker) {
    && KindOk(w.kind)
    && (w.phase.Locking? ==> w.phase.held <= |Needs(w.kind)|)
    && (w.phase in {Recorded, AtGate} ==> w.kind.JobDeletion?)
    && (w.phase == Idle ==> !w.kind.Work?)
    && (w.phase == Running ==> w.cancel == Closed)
    && (w.cancel == Closed ==> w.phase in {Running, Finished})
  }

  lemma WaitingDescends(n: nat, a: Worker, b: Worker)
    requires WorkerOk(a) && WorkerOk(b) && WaitsFor(a, b)
    requires forall v :: v in Needs(a.kind) || v in Needs(b.kind) ==> v < n
    ensures 0 <= Rank(n, b) < Rank(n, a)
  {
    var na, nb := Needs(a.kind), Needs(b.kind);
    if b.phase.Locking? && b.phase.held < |nb| {
      assert nb[b.phase.held] in nb;
      if a.phase.Locking? {
        var v := na[a.phase.held];
        var k :| 0 <= k < b.phase.held && nb[..b.phase.held][k] == v;
        assert nb == b.kind.kopia && nb[k] < nb[b.phase.held];
      }
    }
    if a.phase.Locking? { assert na[a.phase.held] in na; }
  }

  // ----- What every run keeps -----------------------------------------------

  predicate PastIdle(w: Worker) { w.phase.Locking? || w.phase == Running }

  /** Two workers never hold one lock; one deletion per job and one removal per
      vault is active; a deletion past its idle wait is alone with its job, and a
      removal with its vault, but for job deletions. */
  ghost predicate Compatible(a: Worker, b: Worker) {
    && (forall v :: Holds(a, v) ==> !Holds(b, v))
    && (a.kind.JobDeletion? && DeletesJob(b, a.kind.job_) ==> !Active(a) || !Active(b))
    && (a.kind.Removal? && b.kind == a.kind ==> !Active(a) || !Active(b))
    && (a.kind.JobDeletion? && PastIdle(a) ==> !WorkOfJob(b, a.kind.job_))
    && (a.kind.Removal? && PastIdle(a) && b.kind.Work? ==> !WorkOfVault(b, a.kind.vault_))
  }

  ghost predicate Inv(s: System) {
    && (forall w :: w in s.workers ==> WorkerOk(w))
    && (forall i, j :: 0 <= i < |s.workers| && 0 <= j < |s.workers| && i != j ==>
          Compatible(s.workers[i], s.workers[j]))
  }

  // ----- No deadlock --------------------------------------------------------

  /** A chain of workers, each waiting for the next. */
  ghost predicate Chain(s: System, p: seq<nat>) {
    && |p| > 0 && (forall k :: 0 <= k < |p| ==> p[k] < |s.workers|)
    && forall k :: 0 <= k < |p| - 1 ==> WaitsFor(s.workers[p[k]], s.workers[p[k + 1]])
  }

  lemma StepDescends(s: System, i: nat, j: nat)
    requires Inv(s) && i < |s.workers| && j < |s.workers| && WaitsFor(s.workers[i], s.workers[j])
    ensures 0 <= Rank(Bound(s), s.workers[j]) < Rank(Bound(s), s.workers[i])
  {
    assert s.workers[i] in s.workers && s.workers[j] in s.workers;
    WaitingDescends(Bound(s), s.workers[i], s.workers[j]);
  }

  lemma {:induction false} ChainDescends(s: System, p: seq<nat>, k: nat)
    requires Inv(s) && Chain(s, p) && 0 < k < |p|
    ensures Rank(Bound(s), s.workers[p[k]]) < Rank(Bound(s), s.workers[p[0]])
    decreases k
  {
    StepDescends(s, p[k - 1], p[k]);
    if k > 1 { ChainDescends(s, p, k - 1); }
  }

  /** From any waiting worker, following the waits leads to one that can go on. */
  lemma {:induction false} SomeoneCanGoOn(s: System, i: nat, fuel: nat) returns (j: nat)
    requires Inv(s) && i < |s.workers| && Active(s.workers[i])
    requires Rank(Bound(s), s.workers[i]) <= fuel
    ensures j < |s.workers| && Active(s.workers[j]) && !Blocked(s, j)
    decreases fuel
  {
    if Blocked(s, i) {
      var k :| 0 <= k < |s.workers| && k != i && WaitsFor(s.workers[i], s.workers[k]);
      StepDescends(s, i, k);
      WaitedForIsActive(s.workers[i], s.workers[k]);
      j := SomeoneCanGoOn(s, k, fuel - 1);
    } else {
      j := i;
    }
  }

  lemma WaitedForIsActive(a: Worker, b: Worker)
    requires WaitsFor(a, b)
    ensures Active(b)
  {
  }

  // ----- Every step keeps it ------------------------------------------------

  lemma PutKeeps(s: System, i: nat, w: Worker, removed: set<Vault>)
    requires Inv(s) && i < |s.workers| && WorkerOk(w)
    requires forall j :: 0 <= j < |s.workers| && j != i ==> Compatible(w, s.workers[j]) && Compatible(s.workers[j], w)
    ensures Inv(Put(s, i, w).(removed := removed))
  {
  }

  /** A worker that gives something up, or only asks, stays compatible. */
  lemma LessIsCompatible(a: Worker, b: Worker, w: Worker)
    requires Compatible(a, b) && Compatible(b, a) && w.kind == a.kind
    requires Active(w) ==> Active(a) && (PastIdle(w) ==> PastIdle(a))
    requires forall v :: Holds(w, v) ==> Holds(a, v)
    ensures Compatible(w, b) && Compatible(b, w)
  {
  }

  lemma MoveIsCompatible(s: System, i: nat, j: nat, w: Worker)
    requires Inv(s) && i < |s.workers| && j < |s.workers| && i != j && !WaitsFor(s.workers[i], s.workers[j])
    requires var a := s.workers[i];
             || (a.phase == Idle && w == a.(phase := Locking(0)))
             || (a.phase.Locking? && a.phase.held < |Needs(a.kind)| && w == a.(phase := Locking(a.phase.held + 1)))
    ensures Compatible(w, s.workers[j]) && Compatible(s.workers[j], w)
  {
    var a, b := s.workers[i], s.workers[j];
    assert a in s.workers && b in s.workers && WorkerOk(a) && WorkerOk(b);
    assert Compatible(a, b) && Compatible(b, a);
    if a.phase.Locking? {
      var n := a.phase.held;
      assert Needs(a.kind)[..n + 1] == Needs(a.kind)[..n] + [Needs(a.kind)[n]];
      forall v | Holds(w, v) ensures !Holds(b, v) {
        if v != Needs(a.kind)[n] { assert Holds(a, v); }
      }
    }
  }

  lemma MovedKeeps(s: System, i: nat)
    requires Inv(s) && i < |s.workers| && !Blocked(s, i)
    ensures Inv(Moved(s, i))
  {
    var a := s.workers[i];
    var s' := Moved(s, i);
    var w := s'.workers[i];
    assert a in s.workers && WorkerOk(a);
    forall j | 0 <= j < |s.workers| && j != i
      ensures Compatible(w, s.workers[j]) && Compatible(s.workers[j], w)
    {
      assert !WaitsFor(a, s.workers[j]);
      if a.phase == Idle || (a.phase.Locking? && a.phase.held < |Needs(a.kind)|) {
        MoveIsCompatible(s, i, j, w);
      } else {
        if a.phase.Locking? { assert Needs(a.kind)[..a.phase.held] == Needs(a.kind); }
        LessIsCompatible(a, s.workers[j], w);
      }
    }
    PutKeeps(s, i, w, s'.removed);
  }

  lemma QueueKeeps(s: System, kind: Kind)
    requires Inv(s) && KindOk(kind)
    ensures Inv(Step(s, Queue(kind)))
  {
    var w := Worker(kind, First(kind), Open);
    if Admitted(s, kind) {
      forall j | 0 <= j < |s.workers| ensures Compatible(w, s.workers[j]) && Compatible(s.workers[j], w) {
        var b := s.workers[j];
        assert b in s.workers && WorkerOk(b);
      }
    }
  }

  lemma StepKeeps(s: System, e: Event)
    requires Inv(s) && (e.Queue? ==> KindOk(e.kind))
    ensures Inv(Step(s, e))
  {
    assert e.Cancel? || e.Stop? ==> e.i < |s.workers| ==> s.workers[e.i] in s.workers;
    match e
    case Queue(kind) => QueueKeeps(s, kind);
    case Advance(i) => if i < |s.workers| && !Blocked(s, i) { MovedKeeps(s, i); }
    case Cancel(i) => if Step(s, e) != s { GateKeeps(s, i, Step(s, e).workers[i]); }
    case Stop(i) => if Step(s, e) != s { GateKeeps(s, i, Step(s, e).workers[i]); }
  }

  lemma GateKeeps(s: System, i: nat, w: Worker)
    requires Inv(s) && i < |s.workers| && w.kind == s.workers[i].kind
    requires w.phase == s.workers[i].phase || w.phase == Finished
    requires WorkerOk(w)
    ensures Inv(Put(s, i, w))
  {
    forall j | 0 <= j < |s.workers| && j != i
      ensures Compatible(w, s.workers[j]) && Compatible(s.workers[j], w)
    {
      LessIsCompatible(s.workers[i], s.workers[j], w);
    }
    PutKeeps(s, i, w, s.removed);
  }

  /** Job deletions are queued with their Kopia vaults in ID order. */
  ghost predicate Sane(events: seq<Event>) {
    forall k :: 0 <= k < |events| && events[k].Queue? ==> KindOk(events[k].kind)
  }

  lemma {:induction false} RunKeeps(events: seq<Event>)
    requires Sane(events)
    ensures Inv(Run(events))
  {
    if events != [] {
      RunKeeps(events[..|events| - 1]);
      StepKeeps(Run(events[..|events| - 1]), events[|events| - 1]);
    }
  }

  // ----- Promises -----------------------------------------------------------

  /** In every reachable state no chain of waits closes, and while anything is
      unfinished some worker can go on. */
  lemma NoDeadlock(events: seq<Event>)
    requires Sane(events)
    ensures forall p :: Chain(Run(events), p) && |p| > 1 ==> p[0] != p[|p| - 1]
    ensures forall i :: 0 <= i < |Run(events).workers| && Active(Run(events).workers[i]) ==>
      exists j :: 0 <= j < |Run(events).workers| && Active(Run(events).workers[j]) && !Blocked(Run(events), j)
  {
    RunKeeps(events);
    var s := Run(events);
    forall p | Chain(s, p) && |p| > 1 ensures p[0] != p[|p| - 1] {
      ChainDescends(s, p, |p| - 1);
    }
    forall i | 0 <= i < |s.workers| && Active(s.workers[i])
      ensures exists j :: 0 <= j < |s.workers| && Active(s.workers[j]) && !Blocked(s, j)
    {
      var rank := Rank(Bound(s), s.workers[i]);
      var j := SomeoneCanGoOn(s, i, if rank < 0 then 0 else rank);
    }
  }

  /** A cancel that was accepted and work that started exclude each other. */
  lemma {:induction false} AcceptedNeverStarts(events: seq<Event>, e: Event, i: nat)
    requires Sane(events) && (e.Queue? ==> KindOk(e.kind))
    requires i < |Run(events).workers| && Run(events).workers[i].cancel == Accepted
    ensures Run(events).workers[i].phase != Running
    ensures Step(Run(events), e).workers[i].cancel == Accepted && Step(Run(events), e).workers[i].phase != Running
  {
    RunKeeps(events);
    var s := Run(events);
    assert s.workers[i] in s.workers;
  }

  /** A vault's row is deleted only while its removal holds the vault's lock and
      no other work of the vault, job deletions included, is active. */
  lemma {:induction false} RemovedAlone(events: seq<Event>, e: Event, v: Vault)
    requires Sane(events) && v !in Run(events).removed && v in Step(Run(events), e).removed
    ensures e.Advance? && e.i < |Run(events).workers| && Run(events).workers[e.i].kind == Removal(v)
    ensures Holds(Run(events).workers[e.i], v)
    ensures forall j :: 0 <= j < |Run(events).workers| ==> !WorkOfVault(Run(events).workers[j], v)
    ensures forall j :: 0 <= j < |Run(events).workers| && j != e.i ==> !Holds(Run(events).workers[j], v)
  {
    RunKeeps(events);
    var s := Run(events);
    var w := s.workers[e.i];
    assert Holds(w, v);
    forall j | 0 <= j < |s.workers| && j != e.i ensures !Holds(s.workers[j], v) {
      assert Compatible(w, s.workers[j]);
    }
  }

  /** Once a removal stopped waiting for idleness, no backup, check, restore or
      settings save of its vault is or becomes active. */
  lemma {:induction false} RemovalStaysAlone(events: seq<Event>, i: nat, j: nat)
    requires Sane(events) && i < |Run(events).workers| && j < |Run(events).workers|
    requires var w := Run(events).workers[i]; w.kind.Removal? && PastIdle(w)
    requires Run(events).workers[j].kind.Work?
    ensures !WorkOfVault(Run(events).workers[j], Run(events).workers[i].kind.vault_)
  {
    RunKeeps(events);
    assert i != j ==> Compatible(Run(events).workers[i], Run(events).workers[j]);
  }

  /** Once a job deletion stopped waiting for idleness, no other work of its job is
      or becomes active. */
  lemma {:induction false} DeletionStaysAlone(events: seq<Event>, i: nat, j: nat)
    requires Sane(events) && i < |Run(events).workers| && j < |Run(events).workers|
    requires var w := Run(events).workers[i]; w.kind.JobDeletion? && PastIdle(w)
    ensures !WorkOfJob(Run(events).workers[j], Run(events).workers[i].kind.job_)
  {
    RunKeeps(events);
    assert i != j ==> Compatible(Run(events).workers[i], Run(events).workers[j]);
  }

  // ----- Why the locks are taken in vault ID order --------------------------

  /** Two deletions of different jobs that name the same two vaults in opposite orders. */
  function Crossed(a: Vault, b: Vault, p: Phase, q: Phase): System {
    System([Worker(JobDeletion(0, {a, b}, [a, b]), p, Open), Worker(JobDeletion(1, {a, b}, [b, a]), q, Open)], {})
  }

  lemma RunStep(events: seq<Event>, e: Event)
    ensures Run(events + [e]) == Step(Run(events), e)
  {
    assert (events + [e])[..|events + [e]| - 1] == events;
  }

  /** The first deletion comes as far as its first lock, and then the second does. */
  lemma CrossedMoves(a: Vault, b: Vault)
    requires a != b
    ensures Step(Crossed(a, b, Recorded, Recorded), Advance(0)) == Crossed(a, b, AtGate, Recorded)
    ensures Step(Crossed(a, b, AtGate, Recorded), Advance(0)) == Crossed(a, b, Idle, Recorded)
    ensures Step(Crossed(a, b, Idle, Recorded), Advance(0)) == Crossed(a, b, Locking(0), Recorded)
    ensures Step(Crossed(a, b, Locking(0), Recorded), Advance(0)) == Crossed(a, b, Locking(1), Recorded)
    ensures Step(Crossed(a, b, Locking(1), Recorded), Advance(1)) == Crossed(a, b, Locking(1), AtGate)
    ensures Step(Crossed(a, b, Locking(1), AtGate), Advance(1)) == Crossed(a, b, Locking(1), Idle)
    ensures Step(Crossed(a, b, Locking(1), Idle), Advance(1)) == Crossed(a, b, Locking(1), Locking(0))
    ensures Step(Crossed(a, b, Locking(1), Locking(0)), Advance(1)) == Crossed(a, b, Locking(1), Locking(1))
  {
    assert [a, b][..1] == [a];
  }

  lemma CrossedQueue(a: Vault, b: Vault) returns (events: seq<Event>)
    ensures Run(events) == Crossed(a, b, Recorded, Recorded)
  {
    var first, second := Queue(JobDeletion(0, {a, b}, [a, b])), Queue(JobDeletion(1, {a, b}, [b, a]));
    events := [first] + [second];
    RunStep([], first);
    assert [] + [first] == [first];
    RunStep([first], second);
  }

  /** For any two vaults: if deletions took their locks in opposite orders, some run
      would end with both waiting, each for the lock the other one holds, and no
      worker able to go on. */
  lemma OppositeOrdersWait(a: Vault, b: Vault) returns (events: seq<Event>)
    requires a != b
    ensures Run(events) == Crossed(a, b, Locking(1), Locking(1))
    ensures forall i :: 0 <= i < |Run(events).workers| ==> Active(Run(events).workers[i]) && Blocked(Run(events), i)
    ensures forall i :: Step(Run(events), Advance(i)) == Run(events)
  {
    events := CrossedQueue(a, b);
    CrossedMoves(a, b);
    assert forall i :: 0 <= i < 2 ==> Blocked(Crossed(a, b, Locking(1), Locking(1)), i) by {
      assert [a, b][..1] == [a] && [b, a][..1] == [b];
      assert WaitsFor(Crossed(a, b, Locking(1), Locking(1)).workers[0], Crossed(a, b, Locking(1), Locking(1)).workers[1]);
      assert WaitsFor(Crossed(a, b, Locking(1), Locking(1)).workers[1], Crossed(a, b, Locking(1), Locking(1)).workers[0]);
    }
    assert forall i :: Step(Crossed(a, b, Locking(1), Locking(1)), Advance(i)) == Crossed(a, b, Locking(1), Locking(1));
    hide Step, Run, Blocked, WaitsFor;
    for n := 0 to 4
      invariant Run(events) == Crossed(a, b, [Recorded, AtGate, Idle, Locking(0), Locking(1)][n], Recorded)
    {
      RunStep(events, Advance(0));
      events := events + [Advance(0)];
    }
    for n := 0 to 4
      invariant Run(events) == Crossed(a, b, Locking(1), [Recorded, AtGate, Idle, Locking(0), Locking(1)][n])
    {
      RunStep(events, Advance(1));
      events := events + [Advance(1)];
    }
  }
}
