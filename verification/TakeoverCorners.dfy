/** When an unfinished takeover can still be finished: always, unless the computer
    whose marker is on the root removed the vault. */
module TakeoverCorners {
  import opened Options
  import opened Takeover
  import opened TakeoverSafety
  import opened TakeoverPromises
  import opened TakeoverResume

  lemma RunOne(w: World, e: Event)
    ensures Run(w, [e]) == Step(w, e)
  {
    assert [e][..0] == [];
    assert Run(w, [e][..0]) == w;
  }

  // ----- Which step strands a root ------------------------------------------

  /** The event removes the vault on the computer whose marker is on the root. */
  predicate RemovesUnfinished(w: World, e: Event) {
    && e.Remove? && e.c in w.computers && w.computers[e.c].attached && w.computers[e.c].request == Idle
    && w.root.transfer.Some? && w.root.transfer.value.to == e.c
  }

  /** A connection whose marker is on the root has published exactly that. */
  lemma OwnTransition(w: World, c: Profile, i: Intent)
    requires Inv(w) && c in w.computers && w.computers[c].intent == Some(i)
    requires w.root.transfer.Some? && w.root.transfer.value.op == i.op
    ensures w.root == i.Transition() && i.takes && i.state == Started
    ensures w.root.transfer.value.to == c && !w.root.fenced && !w.computers[c].attached
  {
    assert ComputerOk(w, c, w.computers[c]);
    var last := |w.log| - 1;
    assert last > 0 && Follows(w.log[last - 1].root, w.log[last]);
    assert w.log[last].op == Some(i.op);
  }

  ghost predicate Remembers(m: Computer, op: Operation) {
    (m.record.Some? && m.record.value.op == op) || (m.intent.Some? && m.intent.value.op == op)
  }

  /** A request gives up the record or the intent of an unfinished marker in no step. */
  lemma StaysRemembered(w: World, c: Profile)
    requires Inv(w) && c in w.computers && w.root.transfer.Some? && w.root.transfer.value.to == c
    requires Remembers(w.computers[c], w.root.transfer.value.op)
    ensures Remembers(Advance(w, c).computers[c], w.root.transfer.value.op)
  {
    var m, op := w.computers[c], w.root.transfer.value.op;
    assert ComputerOk(w, c, m) && RootOk(w);
    if m.record.Some? {
      assert m.intent == None && m.record.value.op == op;
      assert m.record.value.state != RecordPublished;
      hide Inv, ComputerOk, RootOk, PublishThen, AdvanceConnection;
      RecordStays(w, c);
    } else {
      OwnTransition(w, c, m.intent.value);
      hide Inv;
      assert m.request != ConnectAttach;
      IntentStays(w, c);
    }
  }

  lemma RecordStays(w: World, c: Profile)
    requires c in w.computers && w.computers[c].record.Some? && w.computers[c].record.value.state != RecordPublished
    requires w.computers[c].intent == None
    ensures var m := Advance(w, c).computers[c];
      m.record.Some? && m.record.value.op == w.computers[c].record.value.op
  {
    TakeoverKeepsRecord(w, c);
    hide PublishThen, Resume, AdvanceTakeover;
  }

  lemma TakeoverKeepsRecord(w: World, c: Profile)
    requires c in w.computers && w.computers[c].record.Some? && w.computers[c].record.value.state != RecordPublished
    ensures var m := AdvanceTakeover(w, c).computers[c];
      m.record.Some? && m.record.value.op == w.computers[c].record.value.op
  {
    hide PublishThen, ValidRoot, MutationAdmitted, AfterMarker, Marked, Applied, Owned, Stable;
    var next := AdvanceTakeover(w, c).computers[c];
    match w.computers[c].request
    case PublishMarker(_) =>
    case PublishPhase(_, _) =>
    case PublishFinal(_, _) =>
    case AdvanceToNative(_) =>
    case AdvanceToPublished =>
    case Complete =>
    case _ => assert next.record == w.computers[c].record;
  }

  lemma IntentStays(w: World, c: Profile)
    requires c in w.computers && w.computers[c].record == None && w.computers[c].intent.Some?
    requires w.computers[c].request != ConnectAttach
    ensures var m := Advance(w, c).computers[c];
      m.intent.Some? && m.intent.value.op == w.computers[c].intent.value.op
  {
    hide PublishThen, Resume, AdvanceTakeover;
  }

  /** A marker a request publishes is its own, and remembered. */
  lemma PublishedMarkerIsOwn(w: World, c: Profile)
    requires Inv(w) && c in w.computers && Advance(w, c).root != w.root
    ensures var v := Advance(w, c);
      v.root.transfer.Some? ==> v.root.transfer.value.to == c && Remembers(v.computers[c], v.root.transfer.value.op)
  {
    assert ComputerOk(w, c, w.computers[c]);
    var m := w.computers[c];
    AdvanceMovesRoot(w, c);
    hide Inv;
    match m.request
    case PublishMarker(seen) => MarkerStays(w, c, seen);
    case PublishPhase(seen, aligned) => MarkerStays(w, c, seen);
    case _ =>
  }

  lemma MarkerStays(w: World, c: Profile, seen: Root)
    requires c in w.computers && w.computers[c].record.Some? && w.computers[c].record.value.to == c
    requires w.computers[c].request == PublishMarker(seen)
             || exists aligned :: w.computers[c].request == PublishPhase(seen, aligned) && OwnMarker(seen, w.computers[c].record.value)
    requires Advance(w, c).root != w.root
    ensures var v := Advance(w, c);
      v.root.transfer.Some? ==> v.root.transfer.value.to == c && Remembers(v.computers[c], v.root.transfer.value.op)
  {
  }

  lemma AdvanceStrandsNothing(w: World, c: Profile)
    requires Inv(w) && !Stranded(w) && c in w.computers
    ensures !Stranded(Advance(w, c))
  {
    var v := Advance(w, c);
    if v.root.transfer.Some? {
      if v.root != w.root {
        PublishedMarkerIsOwn(w, c);
      } else if v.root.transfer.value.to == c {
        StaysRemembered(w, c);
      } else {
        hide Inv, Advance;
        AdvanceLeaves(w, c, v.root.transfer.value.to);
      }
    }
  }

  /** Removing the vault is the only thing that strands a root, and it does so
      exactly while that computer's own marker is on the root. */
  lemma OnlyRemovalStrands(w: World, e: Event)
    requires Inv(w) && !Stranded(w)
    ensures Stranded(Step(w, e)) <==> RemovesUnfinished(w, e)
  {
    if RemovesUnfinished(w, e) {
      RemovalStrands(w, e.c);
    } else if e.c in w.computers {
      hide Advance, Begin, Connect, Reserve;
      match e
      case Next(c) => AdvanceStrandsNothing(w, c);
      case Lose(c) => AdvanceStrandsNothing(w, c);
      case Cancel(c) => CancelForgetsNoMarker(w, c);
      case Retry(c) => ConnectStrandsNothing(w, c);
      case Post(c, o) => BeginStrandsNothing(w, c, o);
      case Review(c, takes, care) => ReserveStrandsNothing(w, c, takes, care);
      case _ =>
    }
  }

  lemma CancelForgetsNoMarker(w: World, c: Profile)
    requires Inv(w) && !Stranded(w) && c in w.computers
    ensures !Stranded(Step(w, Cancel(c)))
  {
    var m := w.computers[c];
    if w.root.transfer.Some? && m.intent.Some? && m.intent.value.op == w.root.transfer.value.op {
      OwnTransition(w, c, m.intent.value);
    }
  }

  lemma BeginStrandsNothing(w: World, c: Profile, o: Profile)
    requires !Stranded(w) && c in w.computers
    ensures !Stranded(Begin(w, c, o))
  {}

  lemma ReserveStrandsNothing(w: World, c: Profile, takes: bool, care: nat)
    requires !Stranded(w) && c in w.computers
    ensures !Stranded(Reserve(w, c, takes, care))
  {}

  lemma ConnectStrandsNothing(w: World, c: Profile)
    requires Inv(w) && !Stranded(w) && c in w.computers
    ensures !Stranded(Connect(w, c))
  {
    assert ComputerOk(w, c, w.computers[c]);
    hide Inv;
  }

  // ----- A root that is not stranded can be finished ------------------------

  /** Whatever its own computer was doing, it can stop and ask again. */
  lemma FinishedFromRecord(w: World, c: Profile, r: Record)
    requires Inv(w) && c in w.computers && w.computers[c].record == Some(r)
    requires w.root.transfer.Some? && w.root.transfer.value.to == c && w.root.transfer.value.op == r.op
    ensures var v := Run(w, [Die(c)] + ([Post(c, w.root.owner)] + Nexts(c, STEPS)));
      v.root.transfer == None && v.root.owner == c
  {
    var w1 := Step(w, Die(c));
    RunOne(w, Die(c));
    RunAppends(w, [Die(c)], [Post(c, w.root.owner)] + Nexts(c, STEPS));
    assert ComputerOk(w, c, w.computers[c]);
    hide Inv, Begin, Advance, Settle, Run;
    OfferedMeansFinishes(w1, c, r);
    SettleIsRun(w1, c, w1.root.owner, STEPS);
  }

  lemma RetryGoesOn(w: World, c: Profile, i: Intent)
    requires c in w.computers && w.computers[c] == Computer(false, None, Some(i), Idle)
    requires i.takes && i.state == Started && i.to == c && w.root == i.Transition() && !w.root.fenced
    ensures Step(w, Retry(c)) == Go(w, c, ConnectEnsure(false))
  {
    assert Set(w, c, w.computers[c].(intent := Some(i))) == w;
  }

  lemma TransitionFinishes(w: World, c: Profile, i: Intent)
    requires c in w.computers && w.computers[c] == Computer(false, None, Some(i), ConnectEnsure(false))
    requires i.takes && i.state == Started && i.to == c && w.root == i.Transition() && !w.root.fenced
    ensures var v := Advance(Advance(w, c), c); v.root == i.Final()
  {
    var w1 := Advance(w, c);
    assert w1.root == w.root && w1.computers[c] == Computer(false, None, Some(i), ConnectFinal);
  }

  lemma FinishedFromIntent(w: World, c: Profile, i: Intent)
    requires Inv(w) && c in w.computers && w.computers[c].intent == Some(i)
    requires w.root.transfer.Some? && w.root.transfer.value.op == i.op
    ensures var v := Run(w, [Die(c)] + ([Retry(c)] + ([Next(c)] + [Next(c)])));
      v.root.transfer == None && v.root.owner == c
  {
    OwnTransition(w, c, i);
    assert ComputerOk(w, c, w.computers[c]);
    hide Inv, Run;
    var w1 := Step(w, Die(c));
    assert w1 == Go(w, c, Idle);
    RetryGoesOn(w1, c, i);
    var w2 := Go(w1, c, ConnectEnsure(false));
    hide Advance, Connect;
    TransitionFinishes(w2, c, i);
    RunOne(w, Die(c));
    RunOne(w1, Retry(c));
    RunOne(w2, Next(c));
    RunOne(Advance(w2, c), Next(c));
    RunAppends(w, [Die(c)], [Retry(c)] + ([Next(c)] + [Next(c)]));
    RunAppends(w1, [Retry(c)], [Next(c)] + [Next(c)]);
    RunAppends(w2, [Next(c)], [Next(c)]);
  }

  ghost predicate Clears(w: World, events: seq<Event>, to: Profile) {
    Run(w, events).root.transfer == None && Run(w, events).root.owner == to
  }

  /** A marker whose computer remembers it can be cleared by that computer alone. */
  lemma RememberedFinishes(w: World) returns (events: seq<Event>)
    requires Inv(w) && w.root.transfer.Some? && !Stranded(w)
    ensures Clears(w, events, w.root.transfer.value.to)
    ensures forall e :: e in events ==> e.c == w.root.transfer.value.to
  {
    var t := w.root.transfer.value;
    var m := w.computers[t.to];
    hide Inv, Run;
    if m.record.Some? && m.record.value.op == t.op {
      FinishedFromRecord(w, t.to, m.record.value);
      events := [Die(t.to)] + ([Post(t.to, w.root.owner)] + Nexts(t.to, STEPS));
      NextsAreOwn(t.to, STEPS);
    } else {
      FinishedFromIntent(w, t.to, m.intent.value);
      OwnTransition(w, t.to, m.intent.value);
      events := [Die(t.to)] + ([Retry(t.to)] + ([Next(t.to)] + [Next(t.to)]));
    }
  }

  lemma {:induction false} NextsAreOwn(c: Profile, n: nat)
    ensures forall e :: e in Nexts(c, n) ==> e.c == c
  {
    if n > 0 { NextsAreOwn(c, n - 1); }
  }

  /** Nothing any computer does, ever, moves a stranded root. */
  lemma {:induction false} StrandedInEveryRun(w: World, events: seq<Event>)
    requires Inv(w) && Stranded(w)
    ensures Run(w, events).root == w.root && Stranded(Run(w, events)) && Inv(Run(w, events))
    decreases |events|
  {
    if events != [] {
      var before := events[..|events| - 1];
      StrandedInEveryRun(w, before);
      assert Run(w, events) == Step(Run(w, before), events[|events| - 1]);
      hide Inv, Stranded, Step, Run;
      StrandedForever(Run(w, before), events[|events| - 1]);
      StepKeeps(Run(w, before), events[|events| - 1]);
    }
  }

  /** An unfinished takeover can still be finished exactly unless it is stranded. */
  lemma FinishableUnlessStranded(w: World)
    requires Inv(w) && w.root.transfer.Some?
    ensures !Stranded(w) <==> exists events :: Clears(w, events, w.root.transfer.value.to)
  {
    hide Inv, Run;
    if Stranded(w) {
      forall events
        ensures !Clears(w, events, w.root.transfer.value.to)
      {
        StrandedInEveryRun(w, events);
      }
    } else {
      var events := RememberedFinishes(w);
    }
  }

  /** Event `k` of a run removes a vault whose takeover is unfinished. */
  ghost predicate RemovedAt(w: World, events: seq<Event>, k: nat)
    requires k < |events|
  {
    RemovesUnfinished(Run(w, events[..k]), events[k])
  }

  lemma RemovedBefore(w: World, events: seq<Event>, last: nat, k: nat)
    requires k < last < |events|
    ensures RemovedAt(w, events[..last], k) == RemovedAt(w, events, k)
  {
    assert events[..last][..k] == events[..k];
  }

  /** Over every run: a root is stranded exactly when some computer removed the vault
      while its own marker was on the root. */
  lemma {:induction false} StrandedExactlyByRemoval(w: World, events: seq<Event>)
    requires Initial(w)
    ensures Stranded(Run(w, events)) <==> exists k :: 0 <= k < |events| && RemovedAt(w, events, k)
    decreases |events|
  {
    if events == [] {
    } else {
      var last := |events| - 1;
      var before := Run(w, events[..last]);
      assert Run(w, events) == Step(before, events[last]);
      assert RemovedAt(w, events, last) == RemovesUnfinished(before, events[last]);
      RunKeeps(w, events[..last]);
      StrandedExactlyByRemoval(w, events[..last]);
      hide Inv, Initial, Stranded, Step, RemovesUnfinished, Run, RemovedAt;
      forall k | 0 <= k < last
        ensures RemovedAt(w, events[..last], k) == RemovedAt(w, events, k)
      {
        RemovedBefore(w, events, last, k);
      }
      if Stranded(before) {
        StrandedForever(before, events[last]);
      } else {
        OnlyRemovalStrands(before, events[last]);
      }
    }
  }

  // ----- A stranded root is reached -----------------------------------------

  /** The second computer begins to take the vault over, stops after its marker was
      published, and removes the vault. */
  function RemovedMidway(): seq<Event> { ([Post(1, 0)] + Nexts(1, 2)) + ([Die(1)] + [Remove(1)]) }

  lemma MarkedMidway()
    ensures Settle(Begin(Shared(), 1, 0), 1, 2) == Scene(Log(1), Saved(RecordReviewed), PublishPhase(MARKED, false))
  {
    Starting();
    TakingOver();
    hide Advance, Begin, Scene, Log;
    assert Settle(Scene(Log(0), Saved(RecordReviewed), PublishMarker(FIRST)), 1, 1)
        == Scene(Log(1), Saved(RecordReviewed), PublishPhase(MARKED, false));
  }

  lemma RemovedFromThere(w: World)
    requires w == Scene(Log(1), Saved(RecordReviewed), PublishPhase(MARKED, false))
    ensures var v := Step(Step(w, Die(1)), Remove(1)); Stranded(v) && v.root == MARKED
  {}

  lemma StrandingHappens()
    ensures Initial(Shared()) && Stranded(Run(Shared(), RemovedMidway()))
    ensures Run(Shared(), RemovedMidway()).root == MARKED
  {
    SettledAtFirst();
    MarkedMidway();
    var w2 := Scene(Log(1), Saved(RecordReviewed), PublishPhase(MARKED, false));
    RemovedFromThere(w2);
    hide Advance, Begin, Scene, Log, Run, Settle, Stranded, Initial, Shared, Step, Nexts;
    SettleIsRun(Shared(), 1, 0, 2);
    RunAppends(Shared(), [Post(1, 0)] + Nexts(1, 2), [Die(1)] + [Remove(1)]);
    RunAppends(w2, [Die(1)], [Remove(1)]);
    RunOne(w2, Die(1));
    RunOne(Step(w2, Die(1)), Remove(1));
  }
}
