/** What tracked work comes to: whoever has its locks starts unless it was cancelled,
    work that ended was either run or cancelled, and everything can come to its end. */
module VaultWorkOutcomes {
  import opened Options
  import opened VaultWork

  // ----- One event ----------------------------------------------------------

  /** The steps a worker has before it. */
  function Left(w: Worker): (n: nat)
    ensures n == 0 <==> w.phase == Finished
  {
    var needs := |Needs(w.kind)|;
    match w.phase
    case Recorded => needs + 5
    case AtGate => needs + 4
    case Idle => needs + 3
    case Locking(held) => (if held < needs then needs - held else 0) + 2
    case Running => 1
    case Finished => 0
  }

  predicate HasLocks(w: Worker) { w.phase == Locking(|Needs(w.kind)|) }

  /** Nobody but worker `i` is touched. */
  ghost predicate OnlyWorker(s: System, s': System, i: nat) {
    && |s'.workers| == |s.workers| && i < |s.workers| && s'.workers[i].kind == s.workers[i].kind
    && forall j :: 0 <= j < |s.workers| && j != i ==> s'.workers[j] == s.workers[j]
  }

  /** A blocked worker stays where it is; any other goes one step. With all its locks it
      runs, with its gate closed, if and only if nobody cancelled it; else it ends. A
      running removal deletes its vault's row if and only if no other work of the vault
      is active; nothing else deletes one. */
  lemma AdvanceGoesOn(s: System, i: nat)
    requires Inv(s) && i < |s.workers|
    ensures var w, s' := s.workers[i], Step(s, Advance(i));
      if Blocked(s, i) || !Active(w) then s' == s else
        && OnlyWorker(s, s', i)
        && (s'.workers[i].phase == Running <==> HasLocks(w) && w.cancel == Open)
        && (s'.workers[i].phase == Finished <==> w.phase == Running || (HasLocks(w) && w.cancel == Accepted))
        && s'.workers[i].cancel == (if HasLocks(w) && w.cancel == Open then Closed else w.cancel)
        && ((HasLocks(w) && w.cancel == Accepted) || Left(s'.workers[i]) == Left(w) - 1)
        && s'.removed == s.removed
             + (if w.kind.Removal? && w.phase == Running
                   && (forall j :: 0 <= j < |s.workers| ==> !WorkOfVault(s.workers[j], w.kind.vault_))
                then {w.kind.vault_} else {})
  {
    assert s.workers[i] in s.workers && WorkerOk(s.workers[i]);
  }

  /** Ordinary work is refused while its vault's removal or its job's deletion is pending,
      a deletion or a removal while there is one already. */
  ghost predicate Refused(s: System, kind: Kind) {
    match kind
    case Work(vault, job, _) =>
      exists w :: w in s.workers && Active(w)
                  && ((w.kind.Removal? && vault == Some(w.kind.vault_))
                      || (w.kind.JobDeletion? && job == Some(w.kind.job_) && w.phase != Recorded))
    case JobDeletion(job, _, _) => exists w :: w in s.workers && Active(w) && w.kind.JobDeletion? && w.kind.job_ == job
    case Removal(_) => exists w :: w in s.workers && Active(w) && w.kind == kind
  }

  /** What is not refused waits at the end of the queue with an open gate. */
  lemma QueueAdmits(s: System, kind: Kind)
    ensures var s' := Step(s, Queue(kind));
      if Refused(s, kind)
      then s' == s
      else s' == s.(workers := s.workers + [Worker(kind, First(kind), Open)])
  {
    forall w | w in s.workers && Active(w)
      ensures w.kind.Removal? ==> RemovalPending(s, w.kind.vault_)
      ensures w.kind.JobDeletion? ==> DeletionPending(s, w.kind.job_) && (w.phase != Recorded ==> GateBusy(s, w.kind.job_))
    {
      var i :| 0 <= i < |s.workers| && s.workers[i] == w;
      if w.kind.JobDeletion? { assert DeletesJob(s.workers[i], w.kind.job_); }
    }
  }

  /** A cancel is accepted exactly while the gate is open; accepted, it ends whoever
      waits for idleness or a lock. */
  lemma CancelAndStop(s: System, i: nat)
    ensures var s' := Step(s, Cancel(i));
      if i < |s.workers| && Active(s.workers[i]) && s.workers[i].cancel == Open
      then OnlyWorker(s, s', i) && s'.workers[i] == s.workers[i].(cancel := Accepted) && s'.removed == s.removed
      else s' == s
    ensures var s' := Step(s, Stop(i));
      if i < |s.workers| && s.workers[i].cancel == Accepted && (s.workers[i].phase == Idle || s.workers[i].phase.Locking?)
      then OnlyWorker(s, s', i) && s'.workers[i] == s.workers[i].(phase := Finished) && s'.removed == s.removed
      else s' == s
  {}

  // ----- Every run ----------------------------------------------------------

  /** Work that ended has its gate closed or its cancel accepted. */
  ghost predicate Ended(s: System) {
    forall w :: w in s.workers && w.phase == Finished ==> w.cancel != Open
  }

  lemma {:induction false} NeverEndsOpen(events: seq<Event>)
    requires Sane(events)
    ensures Ended(Run(events))
  {
    if events != [] {
      var last := |events| - 1;
      NeverEndsOpen(events[..last]);
      RunKeeps(events[..last]);
      EndedStep(Run(events[..last]), events[last]);
    }
  }

  lemma EndedStep(s: System, e: Event)
    requires Inv(s) && Ended(s)
    ensures Ended(Step(s, e))
  {
    var s' := Step(s, e);
    match e
    case Advance(i) =>
      if i < |s.workers| {
        AdvanceGoesOn(s, i);
        assert s.workers[i] in s.workers && WorkerOk(s.workers[i]);
      }
      hide Step;
      forall w | w in s'.workers && w.phase == Finished
        ensures w.cancel != Open
      {
        var j :| 0 <= j < |s'.workers| && s'.workers[j] == w;
        if s' != s && j != i { assert s.workers[j] in s.workers; }
      }
    case _ =>
  }

  ghost predicate RunsAt(events: seq<Event>, i: nat, k: nat)
    requires k <= |events|
  {
    i < |Run(events[..k]).workers| && Run(events[..k]).workers[i].phase == Running
  }

  lemma RunsBefore(events: seq<Event>, last: nat, i: nat, k: nat)
    requires k <= last < |events|
    ensures RunsAt(events[..last], i, k) == RunsAt(events, i, k)
  {
    assert events[..last][..k] == events[..k];
  }

  lemma StepGate(s: System, e: Event, i: nat)
    requires Inv(s) && i < |s.workers|
    ensures i < |Step(s, e).workers|
    ensures var w, w' := s.workers[i], Step(s, e).workers[i];
      (w'.cancel == Closed <==> w.cancel == Closed || w'.phase == Running)
  {
    assert s.workers[i] in s.workers && WorkerOk(s.workers[i]);
    match e
    case Advance(j) => if j < |s.workers| { AdvanceGoesOn(s, j); }
    case _ =>
  }

  /** No worker is ever forgotten. */
  lemma {:induction false} Grows(events: seq<Event>, k: nat)
    requires k <= |events|
    ensures |Run(events[..k]).workers| <= |Run(events).workers|
    decreases |events| - k
  {
    if k == |events| {
      assert events[..k] == events;
    } else {
      assert events[..k + 1][..k] == events[..k];
      Grows(events, k + 1);
    }
  }

  ghost predicate Ran(events: seq<Event>, i: nat) {
    exists k :: 0 <= k <= |events| && RunsAt(events, i, k)
  }

  lemma RanStep(events: seq<Event>, i: nat)
    requires events != [] && i < |Run(events).workers|
    ensures Ran(events, i) <==> Ran(events[..|events| - 1], i) || Run(events).workers[i].phase == Running
  {
    var last := |events| - 1;
    assert events[..|events|] == events;
    assert RunsAt(events, i, |events|) == (Run(events).workers[i].phase == Running);
    hide Run, RunsAt;
    if Ran(events, i) && !RunsAt(events, i, |events|) {
      var k :| 0 <= k <= |events| && RunsAt(events, i, k);
      RunsBefore(events, last, i, k);
      assert RunsAt(events[..last], i, k);
    }
    if Ran(events[..last], i) {
      var k :| 0 <= k <= |events[..last]| && RunsAt(events[..last], i, k);
      RunsBefore(events, last, i, k);
    }
  }

  lemma NotYetRan(events: seq<Event>, i: nat)
    requires i >= |Run(events).workers|
    ensures !Ran(events, i)
  {
    forall k | 0 <= k <= |events| ensures !RunsAt(events, i, k) { Grows(events, k); }
  }

  /** In every run a worker's gate is closed exactly if it ever ran. */
  lemma {:induction false} ClosedExactlyIfRan(events: seq<Event>, i: nat)
    requires Sane(events) && i < |Run(events).workers|
    ensures Run(events).workers[i].cancel == Closed <==> Ran(events, i)
  {
    if events == [] {
    } else {
      var last := |events| - 1;
      var before := Run(events[..last]);
      RunKeeps(events[..last]);
      RanStep(events, i);
      assert Run(events) == Step(before, events[last]);
      if i < |before.workers| {
        ClosedExactlyIfRan(events[..last], i);
        hide Run, Ran, Inv;
        StepGate(before, events[last], i);
      } else {
        NotYetRan(events[..last], i);
      }
    }
  }

  /** So work that ended was either run or cancelled before it ran, and never both. */
  lemma EndedByRunOrCancel(events: seq<Event>, i: nat)
    requires Sane(events) && i < |Run(events).workers| && Run(events).workers[i].phase == Finished
    ensures Run(events).workers[i].cancel == if Ran(events, i) then Closed else Accepted
  {
    NeverEndsOpen(events);
    assert Run(events).workers[i] in Run(events).workers;
    ClosedExactlyIfRan(events, i);
  }

  /** What the running work of a vault is done on, unless it needs no lock. */
  predicate Uses(w: Worker, v: Vault) {
    match w.kind
    case Work(vault, _, locks) => vault == Some(v) && locks
    case JobDeletion(_, _, kopia) => v in kopia
    case Removal(vault) => vault == v
  }

  /** In every run no two workers run on the same vault. */
  lemma RunningShareNoVault(events: seq<Event>, i: nat, j: nat, v: Vault)
    requires Sane(events) && i < |Run(events).workers| && j < |Run(events).workers|
    requires Run(events).workers[i].phase == Run(events).workers[j].phase == Running
    requires Uses(Run(events).workers[i], v) && Uses(Run(events).workers[j], v)
    ensures i == j
  {
    RunKeeps(events);
    var s := Run(events);
    assert Holds(s.workers[i], v) && Holds(s.workers[j], v);
  }

  // ----- Everything can come to its end -------------------------------------

  function LeftOver(ws: seq<Worker>): nat {
    if ws == [] then 0 else Left(ws[0]) + LeftOver(ws[1..])
  }

  lemma {:induction false} LeftOverSplit(a: seq<Worker>, b: seq<Worker>)
    ensures LeftOver(a + b) == LeftOver(a) + LeftOver(b)
  {
    if a == [] {
      assert a + b == b;
    } else {
      assert (a + b)[1..] == a[1..] + b;
      LeftOverSplit(a[1..], b);
    }
  }

  lemma LeftOverFalls(ws: seq<Worker>, ws': seq<Worker>, i: nat)
    requires |ws'| == |ws| && i < |ws| && Left(ws'[i]) < Left(ws[i])
    requires forall j :: 0 <= j < |ws| && j != i ==> ws'[j] == ws[j]
    ensures LeftOver(ws') < LeftOver(ws)
  {
    assert ws == ws[..i] + ([ws[i]] + ws[i + 1..]) && ws' == ws[..i] + ([ws'[i]] + ws[i + 1..]);
    LeftOverSplit(ws[..i], [ws[i]] + ws[i + 1..]);
    LeftOverSplit(ws[..i], [ws'[i]] + ws[i + 1..]);
  }

  ghost predicate Advances(events: seq<Event>) { forall k :: 0 <= k < |events| ==> events[k].Advance? }

  lemma RanLasts(events: seq<Event>, more: seq<Event>, i: nat)
    requires Ran(events, i)
    ensures Ran(events + more, i)
  {
    var k :| 0 <= k <= |events| && RunsAt(events, i, k);
    assert (events + more)[..k] == events[..k];
    assert RunsAt(events + more, i, k);
  }

  /** Everything has come to its end, and whoever nobody had cancelled was run. */
  ghost predicate AllEnded(events: seq<Event>, all: seq<Event>) {
    && |Run(all).workers| == |Run(events).workers|
    && forall i :: 0 <= i < |Run(events).workers| ==>
         && Run(all).workers[i].phase == Finished
         && (Run(events).workers[i].cancel == Open ==> Ran(all, i))
  }

  lemma AllEndedNow(events: seq<Event>)
    requires Sane(events) && !Unfinished(events)
    ensures AllEnded(events, events)
  {
    NeverEndsOpen(events);
    var s := Run(events);
    forall i | 0 <= i < |s.workers| ensures s.workers[i].cancel != Open { assert s.workers[i] in s.workers; }
  }

  lemma AdvanceFirst(j: nat, rest: seq<Event>)
    requires Advances(rest)
    ensures Advances([Advance(j)] + rest)
  {
    var all := [Advance(j)] + rest;
    forall k | 0 <= k < |all| ensures all[k].Advance? { if k > 0 { assert all[k] == rest[k - 1]; } }
  }

  /** One step of somebody who can go on. */
  ghost predicate WentOn(events: seq<Event>, next: seq<Event>, j: nat) {
    && j < |Run(events).workers| && OnlyWorker(Run(events), Run(next), j)
    && LeftOver(Run(next).workers) < LeftOver(Run(events).workers)
    && (Run(next).workers[j].cancel != Open ==> Run(events).workers[j].cancel != Open || Ran(next, j))
  }

  lemma GoesOn(events: seq<Event>, j: nat)
    requires Inv(Run(events)) && j < |Run(events).workers| && Active(Run(events).workers[j]) && !Blocked(Run(events), j)
    ensures WentOn(events, events + [Advance(j)], j)
  {
    var next := events + [Advance(j)];
    RunStep(events, Advance(j));
    AdvanceGoesOn(Run(events), j);
    assert next[..|next|] == next;
    hide Step, Run, Blocked, Inv;
    assert RunsAt(next, j, |next|) <==> Run(next).workers[j].phase == Running;
    LeftOverFalls(Run(events).workers, Run(next).workers, j);
  }

  lemma GoneOn(events: seq<Event>, next: seq<Event>, j: nat, more: seq<Event>)
    requires WentOn(events, next, j) && AllEnded(next, next + more)
    ensures AllEnded(events, next + more)
  {
    hide Run, LeftOver;
    forall i | 0 <= i < |Run(events).workers| && Run(events).workers[i].cancel == Open
      ensures Ran(next + more, i)
    {
      if Run(next).workers[i].cancel != Open {
        assert i == j;
        hide Ran, AllEnded, OnlyWorker;
        RanLasts(next, more, i);
      }
    }
  }

  ghost predicate Unfinished(events: seq<Event>) {
    exists i :: 0 <= i < |Run(events).workers| && Active(Run(events).workers[i])
  }

  lemma SomeoneGoesOn(events: seq<Event>) returns (j: nat)
    requires Sane(events) && Unfinished(events)
    ensures Sane(events + [Advance(j)]) && WentOn(events, events + [Advance(j)], j)
    ensures LeftOver(Run(events + [Advance(j)]).workers) < LeftOver(Run(events).workers)
  {
    RunKeeps(events);
    NoDeadlock(events);
    var i :| 0 <= i < |Run(events).workers| && Active(Run(events).workers[i]);
    j :| 0 <= j < |Run(events).workers| && Active(Run(events).workers[j]) && !Blocked(Run(events), j);
    GoesOn(events, j);
  }

  lemma {:induction false} EndsWithin(events: seq<Event>, n: nat) returns (more: seq<Event>)
    requires Sane(events) && LeftOver(Run(events).workers) <= n
    ensures Advances(more) && AllEnded(events, events + more)
    decreases n
  {
    hide Sane, Run, LeftOver, AllEnded, WentOn, Unfinished, Advances;
    if Unfinished(events) {
      var j := SomeoneGoesOn(events);
      var next := events + [Advance(j)];
      var rest := EndsWithin(next, n - 1);
      more := [Advance(j)] + rest;
      AdvanceFirst(j, rest);
      assert next + rest == events + more;
      GoneOn(events, next, j, rest);
    } else {
      more := [];
      assert events + more == events;
      NoAdvances();
      AllEndedNow(events);
    }
  }

  lemma NoAdvances()
    ensures Advances([])
  {}

  /** From every reachable state, going on alone brings everything to its end: whoever
      nobody has cancelled is run. */
  lemma EverythingEnds(events: seq<Event>) returns (more: seq<Event>)
    requires Sane(events)
    ensures Advances(more) && AllEnded(events, events + more)
  {
    more := EndsWithin(events, LeftOver(Run(events).workers));
  }
}
