/** What one uninterrupted takeover request achieves, from every saved state. */
module TakeoverResume {
  import opened Options
  import opened Takeover
  import opened TakeoverSafety

  /** The longest request takes ten steps after its first read. */
  const STEPS: nat := 10

  function Settle(w: World, c: Profile, n: nat): (r: World)
    requires c in w.computers
    ensures c in r.computers
    decreases n
  {
    if n == 0 then w else Settle(Advance(w, c), c, n - 1)
  }

  /** A whole request: nothing fails and no other computer acts meanwhile. */
  function Uninterrupted(w: World, c: Profile, reviewedOwner: Profile): (r: World)
    requires c in w.computers
    ensures c in r.computers
  {
    Settle(Begin(w, c, reviewedOwner), c, STEPS)
  }

  // ----- An uninterrupted request is a run ----------------------------------

  function Nexts(c: Profile, n: nat): seq<Event> {
    if n == 0 then [] else Nexts(c, n - 1) + [Next(c)]
  }

  lemma {:induction false} SettleFromTheEnd(w: World, c: Profile, n: nat)
    requires c in w.computers
    ensures Settle(w, c, n + 1) == Advance(Settle(w, c, n), c)
    decreases n
  {
    hide Advance;
    if n == 0 {
      assert Settle(w, c, 1) == Settle(Advance(w, c), c, 0);
    } else {
      SettleFromTheEnd(Advance(w, c), c, n - 1);
    }
  }

  lemma {:induction false} SettleIsRun(w: World, c: Profile, reviewedOwner: Profile, n: nat)
    requires c in w.computers
    ensures Run(w, [Post(c, reviewedOwner)] + Nexts(c, n)) == Settle(Begin(w, c, reviewedOwner), c, n)
  {
    hide Advance, Begin;
    var events := [Post(c, reviewedOwner)] + Nexts(c, n);
    if n == 0 {
      assert events[..0] == [];
      assert Run(w, events[..0]) == w;
    } else {
      assert events[..|events| - 1] == [Post(c, reviewedOwner)] + Nexts(c, n - 1);
      SettleIsRun(w, c, reviewedOwner, n - 1);
      SettleFromTheEnd(Begin(w, c, reviewedOwner), c, n - 1);
    }
  }

  // ----- From every step of the request to its end --------------------------

  /** The request ended with the takeover completed and the root naming `c`. */
  ghost predicate Done(w: World, c: Profile, op: Operation, v: World, publications: nat) {
    && c in v.computers && v.computers[c].request == Idle && v.computers[c].record == None
    && v.root.owner == c && v.root.transfer == None && !v.root.fenced && v.root.care == w.root.care
    && |v.log| == |w.log| + publications && v.root.revision == w.root.revision + publications
    && (publications > 0 ==> v.log[|v.log| - 1] == Publication(c, Some(op), v.root))
  }

  lemma {:induction false} IdleStays(w: World, c: Profile, n: nat)
    requires c in w.computers && w.computers[c].request == Idle
    ensures Settle(w, c, n) == w
    decreases n
  {
    if n > 0 { IdleStays(Advance(w, c), c, n - 1); }
  }

  ghost predicate At(w: World, c: Profile, r: Record, request: Request) {
    && c in w.computers && w.computers[c].record == Some(r) && r.to == c && r.from != c
    && w.computers[c].request == request
  }

  lemma FromComplete(w: World, c: Profile, r: Record, n: nat)
    requires At(w, c, r, Complete) && r.state == RecordPublished && n >= 1
    ensures Settle(w, c, n) == WithRecord(w, c, None, Idle)
  {
    IdleStays(Advance(w, c), c, n - 1);
  }

  lemma FromNamed(w: World, c: Profile, r: Record, n: nat)
    requires At(w, c, r, AdvanceToPublished) && r.state == RecordNative && n >= 2
    ensures Settle(w, c, n) == WithRecord(w, c, None, Idle)
  {
    var next := r.(state := RecordPublished);
    var w1 := WithRecord(w, c, Some(next), Complete);
    assert Advance(w, c) == w1;
    hide Advance;
    FromComplete(w1, c, next, n - 1);
  }

  lemma FromPublished(w: World, c: Profile, r: Record, n: nat)
    requires At(w, c, r, AdvanceToPublished) && r.state != RecordPublished
    requires n >= 3 || (r.state == RecordNative && n >= 2)
    ensures Settle(w, c, n) == WithRecord(w, c, None, Idle)
  {
    if r.state == RecordReviewed {
      var next := r.(state := RecordNative);
      var w1 := WithRecord(w, c, Some(next), AdvanceToPublished);
      assert Advance(w, c) == w1;
      hide Advance;
      FromNamed(w1, c, next, n - 1);
    } else {
      FromNamed(w, c, r, n);
    }
  }

  lemma FromFinal(w: World, c: Profile, r: Record, seen: Root, aligned: bool, n: nat)
    requires At(w, c, r, PublishFinal(seen, aligned)) && r.state == RecordNative && n >= 3
    requires w.root == seen && OwnMarker(seen, r)
    ensures Done(w, c, r.op, Settle(w, c, n), 1)
  {
    FromPublished(Advance(w, c), c, r, n - 1);
  }

  lemma FromReread(w: World, c: Profile, r: Record, aligned: bool, n: nat)
    requires At(w, c, r, Reread(aligned)) && r.state == RecordNative && n >= 5
    requires OwnMarker(w.root, r) && w.root.transfer.value.phase == NativeApplied
    ensures Done(w, c, r.op, Settle(w, c, n), 1)
  {
    var w1 := Advance(w, c);
    if w.kopia && !aligned {
      FromFinal(Advance(w1, c), c, r, w.root, true, n - 2);
    } else {
      FromFinal(w1, c, r, w.root, aligned, n - 1);
    }
  }

  lemma FromNative(w: World, c: Profile, r: Record, aligned: bool, n: nat)
    requires At(w, c, r, AdvanceToNative(aligned)) && r.state == RecordReviewed && n >= 6
    requires OwnMarker(w.root, r) && w.root.transfer.value.phase == NativeApplied
    ensures Done(w, c, r.op, Settle(w, c, n), 1)
  {
    FromReread(Advance(w, c), c, r.(state := RecordNative), aligned, n - 1);
  }

  lemma FromPhase(w: World, c: Profile, r: Record, aligned: bool, n: nat)
    requires At(w, c, r, PublishPhase(w.root, aligned)) && r.state == RecordReviewed && n >= 7
    requires OwnMarker(w.root, r) && w.root.transfer.value.phase == Reviewed
    ensures Done(w, c, r.op, Settle(w, c, n), 2)
  {
    FromNative(Advance(w, c), c, r, aligned, n - 1);
  }

  lemma FromOwnMarker(w: World, c: Profile, r: Record, n: nat)
    requires OwnMarker(w.root, r) && At(w, c, r, AfterMarker(w.kopia, w.root)) && r.state == RecordReviewed && n >= 8
    ensures Done(w, c, r.op, Settle(w, c, n), if w.root.transfer.value.phase == Reviewed then 2 else 1)
  {
    if w.root.transfer.value.phase == NativeApplied {
      FromNative(w, c, r, false, n);
    } else if w.kopia {
      FromPhase(Advance(w, c), c, r, true, n - 1);
    } else {
      FromPhase(w, c, r, false, n);
    }
  }

  lemma FromMarker(w: World, c: Profile, r: Record, n: nat)
    requires At(w, c, r, PublishMarker(w.root)) && r.state == RecordReviewed && n >= 9
    requires Stable(w.root) && w.root.owner == r.from
    ensures Done(w, c, r.op, Settle(w, c, n), 3)
  {
    FromOwnMarker(Advance(w, c), c, r, n - 1);
  }

  // ----- The whole request --------------------------------------------------

  /** This computer holds the saved record of an unfinished takeover. */
  ghost predicate Holds(w: World, c: Profile, r: Record) {
    && c in w.computers && w.computers[c].attached && w.computers[c].request == Idle
    && w.computers[c].record == Some(r) && r.to == c && r.from != c
  }

  lemma OwnerAlready(w: World, c: Profile, r: Record)
    requires Holds(w, c, r) && ValidRoot(w.root, Some(r)) && w.root.owner == c
    ensures Done(w, c, r.op, Uninterrupted(w, c, c), 0)
  {
    var w1 := Begin(w, c, c);
    if w.kopia {
      var w2 := Advance(w1, c);
      assert Uninterrupted(w, c, c) == Settle(w2, c, STEPS - 1);
      if r.state == RecordPublished { FromComplete(w2, c, r, STEPS - 1); } else { FromPublished(w2, c, r, STEPS - 1); }
    } else if r.state == RecordPublished {
      FromComplete(w1, c, r, STEPS);
    } else {
      FromPublished(w1, c, r, STEPS);
    }
  }

  function Publications(root: Root, r: Record): nat {
    if root.owner == r.to then 0
    else if root.transfer.None? then 3
    else if root.transfer.value.phase == Reviewed then 2 else 1
  }

  /** The status offers Finish takeover exactly when an uninterrupted request
      with a current review finishes it: at most three publications, and the root
      then names this profile. */
  lemma OfferedMeansFinishes(w: World, c: Profile, r: Record)
    requires Holds(w, c, r) && ValidRoot(w.root, Some(r)) && Resumable(c, w.root, r)
    ensures Done(w, c, r.op, Uninterrupted(w, c, w.root.owner), Publications(w.root, r))
  {
    if w.root.owner == c {
      OwnerAlready(w, c, r);
    } else {
      var w2 := Advance(Begin(w, c, w.root.owner), c);
      assert Uninterrupted(w, c, w.root.owner) == Settle(w2, c, STEPS - 1);
      if w.root.transfer.None? {
        FromMarker(w2, c, r, STEPS - 1);
      } else if r.state == RecordReviewed {
        FromOwnMarker(w2, c, r, STEPS - 1);
      } else {
        FromReread(w2, c, r, false, STEPS - 1);
      }
    }
  }

  /** The one request that is accepted without being offered. */
  predicate FalseFinish(root: Root, r: Record) {
    Stable(root) && r.state == RecordPublished && root.owner == r.from
  }

  lemma FalseFinishCompletes(w: World, c: Profile, r: Record)
    requires Holds(w, c, r) && FalseFinish(w.root, r)
    ensures Uninterrupted(w, c, w.root.owner) == WithRecord(w, c, None, Idle)
  {
    var w2 := Go(w, c, Complete);
    assert Begin(w, c, w.root.owner) == Go(w, c, Decided(w.root));
    assert Advance(Go(w, c, Decided(w.root)), c) == w2;
    hide Advance, Begin, FalseFinish;
    FromComplete(w2, c, r, STEPS - 1);
  }

  lemma Refused(w: World, c: Profile, r: Record)
    requires Holds(w, c, r) && !(ValidRoot(w.root, Some(r)) && Resumable(c, w.root, r)) && !FalseFinish(w.root, r)
    ensures Uninterrupted(w, c, w.root.owner) == w
  {
    var w1 := Begin(w, c, w.root.owner);
    if w1.computers[c].request == Idle {
      hide Advance;
      IdleStays(w1, c, STEPS);
    } else {
      assert w1 == Go(w, c, Decided(w.root));
      var w2 := Advance(w1, c);
      assert Go(w, c, Idle) == w;
      if w2.computers[c].request == Idle {
        assert w2 == Go(w, c, Idle);
        hide Advance, Begin, ValidRoot, Resumable;
        IdleStays(w, c, STEPS - 1);
      } else {
        assert w2 == Go(w, c, Reread(false));
        assert Advance(w2, c) == Go(w, c, Idle);
        hide Advance, Begin, ValidRoot, Resumable;
        IdleStays(w, c, STEPS - 2);
      }
    }
  }

  /** What is not offered is refused and changes nothing at all, except that a
      record left at root_published whose root went back to the former owner is
      completed although the root does not name this profile. */
  lemma NotOffered(w: World, c: Profile, r: Record)
    requires Holds(w, c, r) && !(ValidRoot(w.root, Some(r)) && Resumable(c, w.root, r))
    ensures Uninterrupted(w, c, w.root.owner) ==
            if FalseFinish(w.root, r) then WithRecord(w, c, None, Idle) else w
  {
    hide Uninterrupted, ValidRoot, Resumable, WithRecord;
    if FalseFinish(w.root, r) { FalseFinishCompletes(w, c, r); } else { Refused(w, c, r); }
  }

  /** The two sides together: an accepted request is truthful exactly when the
      status offered it. */
  lemma FinishesExactlyWhenOffered(w: World, c: Profile, r: Record)
    requires Holds(w, c, r)
    ensures var v := Uninterrupted(w, c, w.root.owner);
            var offered := ValidRoot(w.root, Some(r)) && Resumable(c, w.root, r);
            && (offered <==> v.computers[c].record == None && v.root.owner == c)
            && (v.computers[c].record == None <==> offered || FalseFinish(w.root, r))
            && |v.log| <= |w.log| + 3 && v.computers[c].request == Idle
  {
    if ValidRoot(w.root, Some(r)) && Resumable(c, w.root, r) {
      OfferedMeansFinishes(w, c, r);
    } else {
      NotOffered(w, c, r);
    }
  }

  /** A first takeover of a settled vault: three publications. */
  lemma FirstRequestFinishes(w: World, c: Profile)
    requires c in w.computers && w.computers[c].attached && w.computers[c].request == Idle
    requires w.computers[c].record == None && Stable(w.root) && w.root.owner != c
    ensures Done(w, c, |w.issued|, Uninterrupted(w, c, w.root.owner), 3)
  {
    var r := Record(|w.issued|, w.root.owner, c, RecordReviewed);
    var w2 := Advance(Begin(w, c, w.root.owner), c);
    FromMarker(w2, c, r, STEPS - 1);
    assert Done(w, c, r.op, Settle(w2, c, STEPS - 1), 3);
  }

  /** A review of an owner who has since changed is refused before anything, however
      far the request would have gone. */
  lemma StaleReviewIsRefused(w: World, c: Profile, reviewedOwner: Profile, n: nat)
    requires c in w.computers && w.computers[c].request == Idle
    requires w.root.owner != c && w.root.owner != reviewedOwner
    ensures Run(w, [Post(c, reviewedOwner)] + Nexts(c, n)) == w
  {
    SettleIsRun(w, c, reviewedOwner, n);
    IdleStays(w, c, n);
  }

  // ----- The false finish is reachable --------------------------------------

  lemma {:induction false} RunAppends(w: World, a: seq<Event>, b: seq<Event>)
    ensures Run(w, a + b) == Run(Run(w, a), b)
    decreases |b|
  {
    hide Step;
    if b == [] {
      assert a + b == a;
    } else {
      var last := |b| - 1;
      assert (a + b)[..|a + b| - 1] == a + b[..last];
      RunAppends(w, a, b[..last]);
    }
  }

  /** Two computers share a vault; the second one is taking it over. */
  function Scene(log: seq<Publication>, record: Option<Record>, request: Request): (r: World)
    requires log != []
    ensures r.computers.Keys == {0, 1}
  {
    World(false, log[|log| - 1].root, 0,
          map[0 := Computer(true, None, None, Idle), 1 := Computer(true, record, None, request)], [1], log)
  }

  const FIRST := Root(1, 0, None, false, 0)
  const MARKED := Root(2, 0, Some(Transfer(0, 0, 1, Reviewed)), false, 0)
  const APPLIED := Root(3, 0, Some(Transfer(0, 0, 1, NativeApplied)), false, 0)
  const TAKEN := Root(4, 1, None, false, 0)

  function Saved(state: RecordState): Option<Record> { Some(Record(0, 0, 1, state)) }

  function Log(n: nat): (r: seq<Publication>)
    ensures r != []
  {
    [Publication(0, None, FIRST)]
    + (if n > 0 then [Publication(1, Some(0), MARKED)] else [])
    + (if n > 1 then [Publication(1, Some(0), APPLIED)] else [])
    + (if n > 2 then [Publication(1, Some(0), TAKEN)] else [])
  }

  function Shared(): World { Scene(Log(0), None, Idle).(issued := []) }

  lemma Starting()
    ensures Advance(Begin(Shared(), 1, 0), 1) == Scene(Log(0), Saved(RecordReviewed), PublishMarker(FIRST))
  {
  }

  lemma TakingOver()
    ensures Advance(Scene(Log(0), Saved(RecordReviewed), PublishMarker(FIRST)), 1)
         == Scene(Log(1), Saved(RecordReviewed), PublishPhase(MARKED, false))
    ensures Advance(Scene(Log(1), Saved(RecordReviewed), PublishPhase(MARKED, false)), 1)
         == Scene(Log(2), Saved(RecordReviewed), AdvanceToNative(false))
  {
  }

  lemma NamingTheOwner()
    ensures Advance(Scene(Log(2), Saved(RecordReviewed), AdvanceToNative(false)), 1)
         == Scene(Log(2), Saved(RecordNative), Reread(false))
    ensures Advance(Scene(Log(2), Saved(RecordNative), Reread(false)), 1)
         == Scene(Log(2), Saved(RecordNative), PublishFinal(APPLIED, false))
  {
  }

  lemma NamedTheOwner()
    ensures Advance(Scene(Log(2), Saved(RecordNative), PublishFinal(APPLIED, false)), 1)
         == Scene(Log(3), Saved(RecordNative), AdvanceToPublished)
    ensures Advance(Scene(Log(3), Saved(RecordNative), AdvanceToPublished), 1)
         == Scene(Log(3), Saved(RecordPublished), Complete)
  {
  }

  lemma {:induction false} OthersUntouched(w: World, c: Profile, d: Profile, n: nat)
    requires c in w.computers && d in w.computers && c != d
    ensures d in Settle(w, c, n).computers && Settle(w, c, n).computers[d] == w.computers[d]
    decreases n
  {
    if n > 0 {
      hide PublishThen, Resume;
      assert Advance(w, c).computers[d] == w.computers[d] by { AdvanceLeaves(w, c, d); }
      OthersUntouched(Advance(w, c), c, d, n - 1);
    }
  }

  lemma AdvanceLeaves(w: World, c: Profile, d: Profile)
    requires c in w.computers && d in w.computers && c != d
    ensures Advance(w, c).computers[d] == w.computers[d]
  {
    hide AdvanceTakeover, AdvanceConnection;
    if w.computers[c].record.Some? { TakeoverLeaves(w, c, d); }
    ConnectionLeaves(w, c, d);
  }

  lemma ConnectionLeaves(w: World, c: Profile, d: Profile)
    requires c in w.computers && d in w.computers && c != d
    ensures AdvanceConnection(w, c).computers[d] == w.computers[d]
  {
    hide PublishThen;
  }

  /** The second computer stops after its root was published but before its
      record was completed. */
  function Interrupted(): seq<Event> { [Post(1, 0)] + Nexts(1, 7) + [Die(1)] }

  lemma InterruptedBeforeCompleting()
    ensures Run(Shared(), Interrupted()) == Scene(Log(3), Saved(RecordPublished), Idle)
  {
    hide Advance, Begin, Scene, Log;
    var w0 := Begin(Shared(), 1, 0);
    Starting();
    TakingOver();
    NamingTheOwner();
    NamedTheOwner();
    var w1 := Scene(Log(0), Saved(RecordReviewed), PublishMarker(FIRST));
    var w3 := Scene(Log(2), Saved(RecordReviewed), AdvanceToNative(false));
    var w6 := Scene(Log(3), Saved(RecordNative), AdvanceToPublished);
    assert Settle(w0, 1, 7) == Settle(w1, 1, 6) == Settle(w3, 1, 4);
    assert Settle(w3, 1, 4) == Settle(w6, 1, 1) == Scene(Log(3), Saved(RecordPublished), Complete);
    SettleIsRun(Shared(), 1, 0, 7);
    var before := [Post(1, 0)] + Nexts(1, 7);
    RunAppends(Shared(), before, [Die(1)]);
    Dies(Run(Shared(), before));
  }

  lemma Dies(w: World)
    requires w == Scene(Log(3), Saved(RecordPublished), Complete)
    ensures Run(w, [Die(1)]) == Scene(Log(3), Saved(RecordPublished), Idle)
  {
    assert [Die(1)][..0] == [];
    assert Run(w, [Die(1)][..0]) == w;
  }

  lemma TakesBack(w: World)
    requires w == Scene(Log(3), Saved(RecordPublished), Idle)
    ensures var v := Uninterrupted(w, 0, 1);
            && Holds(v, 1, Record(0, 0, 1, RecordPublished)) && FalseFinish(v.root, Record(0, 0, 1, RecordPublished))
            && v.root.owner == 0 && !Resumable(1, v.root, Record(0, 0, 1, RecordPublished))
  {
    hide Advance, Settle, AdvanceTakeover;
    FirstRequestFinishes(w, 0);
    OthersUntouched(Begin(w, 0, 1), 0, 1, STEPS);
  }

  /** After the first computer took the vault back, the second one's request is
      accepted and completed, and the root names the first. */
  lemma FalseFinishHappens()
    ensures var w := Run(Shared(), Interrupted() + ([Post(0, 1)] + Nexts(0, STEPS)));
            && Initial(Shared()) && Holds(w, 1, Record(0, 0, 1, RecordPublished))
            && !Resumable(1, w.root, Record(0, 0, 1, RecordPublished))
            && Uninterrupted(w, 1, 0).computers[1].record == None
            && Uninterrupted(w, 1, 0).root.owner == 0
  {
    var w1 := Scene(Log(3), Saved(RecordPublished), Idle);
    InterruptedBeforeCompleting();
    SettledAtFirst();
    hide Scene, Log, Run, Settle, Begin, Advance, Initial, Shared, Interrupted, Nexts, Uninterrupted;
    RunAppends(Shared(), Interrupted(), [Post(0, 1)] + Nexts(0, STEPS));
    TakenBackRun(w1);
    TakesBack(w1);
    hide Holds, Resumable, FalseFinish, ValidRoot;
    NotOffered(Uninterrupted(w1, 0, 1), 1, Record(0, 0, 1, RecordPublished));
  }

  lemma TakenBackRun(w: World)
    requires 0 in w.computers
    ensures Run(w, [Post(0, 1)] + Nexts(0, STEPS)) == Uninterrupted(w, 0, 1)
  {
    hide Advance, Begin, Run, Settle;
    SettleIsRun(w, 0, 1, STEPS);
  }

  lemma SettledAtFirst()
    ensures Initial(Shared())
  {
  }
}
