/** What each event of the ownership protocol comes to: what it may change on the root,
    and that what is admitted does take effect. */
module TakeoverOutcomes {
  import opened Options
  import opened Takeover
  import opened TakeoverSafety
  import opened TakeoverPromises
  import opened TakeoverResume
  import opened TakeoverCorners

  // ----- What changes on the root -------------------------------------------

  /** What an event that moves the root makes of it: each changes one thing. */
  ghost predicate Changed(w: World, e: Event, next: Root)
    requires e.c in w.computers
  {
    var m, r := w.computers[e.c], w.root.(revision := w.root.revision + 1);
    match e
    case Fence(c) => w.root.owner == c && next == r.(fenced := true)
    case Unfence(c) => w.root.owner == c && next == r.(fenced := false)
    case Retry(c) =>
      m.intent.Some? && m.intent.value.takes && w.root.owner != c
      && next == r.(transfer := Some(Transfer(m.intent.value.op, w.root.owner, c, Reviewed)))
    case Next(c) => RequestChanged(w, c, m, next)
    case Lose(c) => RequestChanged(w, c, m, next)
    case _ => false
  }

  ghost predicate RequestChanged(w: World, c: Profile, m: Computer, next: Root) {
    var r := w.root.(revision := w.root.revision + 1);
    match m.request
    case PublishMarker(_) =>
      m.record.Some? && Stable(w.root) && w.root.owner != c
      && next == r.(transfer := Some(Transfer(m.record.value.op, w.root.owner, c, Reviewed)))
    case PublishPhase(_, _) =>
      w.root.transfer.Some? && w.root.transfer.value.to == c && w.root.transfer.value.phase == Reviewed
      && next == r.(transfer := Some(w.root.transfer.value.(phase := NativeApplied)))
    case PublishFinal(_, _) =>
      w.root.transfer.Some? && w.root.transfer.value.to == c && next == r.(owner := c, transfer := None)
    case CareSave(_, care) => Stable(w.root) && w.root.owner == c && next == r.(care := care)
    case ConnectFinal =>
      m.intent.Some? && (m.intent.value.takes <==> w.root.transfer.Some?)
      && next == r.(owner := c, transfer := None, care := m.intent.value.care)
    case _ => false
  }

  lemma RequestChanges(w: World, c: Profile)
    requires Inv(w) && c in w.computers && Advance(w, c).root != w.root
    ensures !w.root.fenced && RequestChanged(w, c, w.computers[c], Advance(w, c).root)
  {
    var m := w.computers[c];
    assert ComputerOk(w, c, m);
    AdvanceMovesRoot(w, c);
    hide Inv;
    if m.request.ConnectFinal? {
      hide PublishThen;
      assert IntentOk(w, c, m.intent.value);
    }
  }

  /** Every event that moves the root changes one thing on it, and only lifting the
      fence moves a fenced one. */
  lemma EachChangesOneThing(w: World, e: Event)
    requires Inv(w) && Step(w, e).root != w.root
    ensures e.c in w.computers && Changed(w, e, Step(w, e).root) && (w.root.fenced <==> e.Unfence?)
  {
    hide Advance, Begin, Reserve, RequestChanged;
    match e
    case Next(c) => RequestChanges(w, c);
    case Lose(c) => RequestChanges(w, c);
    case Retry(c) => RetryChanges(w, c);
    case Post(c, o) => BeginKeepsRoot(w, c, o);
    case Review(c, takes, care) => ReserveKeepsRoot(w, c, takes, care);
    case _ =>
  }

  lemma BeginKeepsRoot(w: World, c: Profile, o: Profile)
    requires c in w.computers
    ensures Begin(w, c, o).root == w.root
  {}

  lemma ReserveKeepsRoot(w: World, c: Profile, takes: bool, care: nat)
    requires c in w.computers
    ensures Reserve(w, c, takes, care).root == w.root
  {}

  lemma RetryChanges(w: World, c: Profile)
    requires Inv(w) && c in w.computers && Connect(w, c).root != w.root
    ensures !w.root.fenced && Changed(w, Retry(c), Connect(w, c).root)
  {
    assert ComputerOk(w, c, w.computers[c]);
    hide Inv;
    assert IntentOk(w, c, w.computers[c].intent.value);
  }

  // ----- The whole history --------------------------------------------------

  /** A step that moves the root adds it to the history, under its computer's name. */
  ghost predicate Logged(w: World, w': World, c: Profile) {
    if w'.root == w.root then w'.log == w.log
    else |w'.log| == |w.log| + 1 && w'.log[..|w.log|] == w.log
         && w'.log[|w.log|].root == w'.root && w'.log[|w.log|].publisher == c
  }

  lemma PublishLogs(w: World, c: Profile, op: Option<Operation>, expected: Root, root: Root, next: Request)
    requires c in w.computers
    ensures Logged(w, PublishThen(w, c, op, expected, root, next), c)
  {}

  lemma AdvanceLogs(w: World, c: Profile)
    requires c in w.computers
    ensures Logged(w, Advance(w, c), c)
  {
    var m := w.computers[c];
    if m.record.Some? { TakeoverLogs(w, c); }
    ConnectionLogs(w, c);
    assert Logged(w, Go(w, c, Idle), c);
    hide AdvanceTakeover, AdvanceConnection, Resume, PublishThen;
    match m.request
    case Idle =>
    case CareSave(seen, care) =>
      PublishLogs(w, c, None, seen, seen.(revision := seen.revision + 1, care := care), Idle);
      hide Logged, Go;
    case Decided(seen) => assert Advance(w, c).log == w.log && Advance(w, c).root == w.root;
    case _ => hide Logged, Go;
  }

  lemma TakeoverLogs(w: World, c: Profile)
    requires c in w.computers && w.computers[c].record.Some?
    ensures Logged(w, AdvanceTakeover(w, c), c)
  {
    hide ValidRoot, MutationAdmitted, AfterMarker, Applied, Owned, PublishThen, Stable;
    var r := w.computers[c].record.value;
    match w.computers[c].request
    case PublishMarker(seen) =>
      PublishLogs(w, c, Some(r.op), seen, Marked(seen, r), AfterMarker(w.kopia, Marked(seen, r)));
    case PublishPhase(seen, aligned) =>
      if seen.transfer.Some? { PublishLogs(w, c, Some(r.op), seen, Applied(seen), AdvanceToNative(aligned)); }
    case PublishFinal(seen, _) => PublishLogs(w, c, Some(r.op), seen, Owned(seen, c), AdvanceToPublished);
    case _ =>
      var v := AdvanceTakeover(w, c);
      assert v.root == w.root && v.log == w.log;
  }

  lemma ConnectionLogs(w: World, c: Profile)
    requires c in w.computers
    ensures Logged(w, AdvanceConnection(w, c), c)
  {}

  lemma ConnectLogs(w: World, c: Profile)
    requires c in w.computers
    ensures Logged(w, Connect(w, c), c)
  {}

  lemma BeginLogs(w: World, c: Profile, o: Profile)
    requires c in w.computers
    ensures Logged(w, Begin(w, c, o), c)
  {}

  lemma ReserveLogs(w: World, c: Profile, takes: bool, care: nat)
    requires c in w.computers
    ensures Logged(w, Reserve(w, c, takes, care), c)
  {}

  lemma StepLogs(w: World, e: Event)
    ensures Logged(w, Step(w, e), e.c)
  {
    if e.c in w.computers {
      AdvanceLogs(w, e.c);
      ConnectLogs(w, e.c);
      hide Advance, Begin, Connect, Reserve;
      match e
      case Post(c, o) => BeginLogs(w, c, o);
      case Review(c, takes, care) => ReserveLogs(w, c, takes, care);
      case _ =>
    }
  }

  /** Event `j` made publication `k`, out of the root before it. */
  ghost predicate MadeBy(w: World, events: seq<Event>, j: nat, log: seq<Publication>, k: nat)
    requires j < |events| && 0 < k < |log|
  {
    var before := Run(w, events[..j]);
    && |before.log| == k && before.root == log[k - 1].root && events[j].c == log[k].publisher
    && events[j].c in before.computers && Changed(before, events[j], log[k].root)
    && (before.root.fenced <==> events[j].Unfence?)
  }

  lemma MadeBefore(w: World, events: seq<Event>, last: nat, j: nat, log: seq<Publication>, log': seq<Publication>, k: nat)
    requires j < last < |events| && 0 < k < |log| <= |log'| && log'[..|log|] == log
    requires MadeBy(w, events[..last], j, log, k)
    ensures MadeBy(w, events, j, log', k)
  {
    assert events[..last][..j] == events[..j];
    assert log'[k] == log'[..|log|][k] && log'[k - 1] == log'[..|log|][k - 1];
  }

  /** Every root ever published is the one change of one event of the run. */
  lemma {:induction false} EachPublicationIsOneChange(w: World, events: seq<Event>, k: nat) returns (j: nat)
    requires Initial(w) && 0 < k < |Run(w, events).log|
    ensures j < |events| && MadeBy(w, events, j, Run(w, events).log, k)
    decreases |events|
  {
    assert events != [];
    var last := |events| - 1;
    var before := Run(w, events[..last]);
    assert Run(w, events) == Step(before, events[last]);
    RunKeeps(w, events[..last]);
    assert LogOk(before);
    StepLogs(before, events[last]);
    hide Run, Step, Initial, MadeBy;
    if k < |before.log| {
      j := EachPublicationIsOneChange(w, events[..last], k);
      MadeBefore(w, events, last, j, before.log, Run(w, events).log, k);
    } else {
      j := last;
      EachChangesOneThing(before, events[last]);
      hide Inv, Changed;
      MadeNow(w, events, before, Run(w, events), k);
    }
  }

  lemma MadeNow(w: World, events: seq<Event>, before: World, now: World, k: nat)
    requires events != [] && before == Run(w, events[..|events| - 1]) && 0 < k == |before.log| < |now.log|
    requires before.log[k - 1].root == before.root && Logged(before, now, events[|events| - 1].c)
    requires events[|events| - 1].c in before.computers && Changed(before, events[|events| - 1], now.root)
    requires before.root.fenced <==> events[|events| - 1].Unfence?
    ensures MadeBy(w, events, |events| - 1, now.log, k)
  {
    hide Changed, Run;
    assert now.log[k - 1] == now.log[..k][k - 1];
  }

  // ----- The vault's care ---------------------------------------------------

  ghost predicate AsksFor(e: Event, c: Profile, care: nat) {
    e == SaveCare(c, care) || (e.Review? && e.c == c && e.care == care)
  }

  ghost predicate Asked(events: seq<Event>, c: Profile, care: nat) {
    exists e :: e in events && AsksFor(e, c, care)
  }

  /** What a computer is about to save as the vault's care was asked for there. */
  ghost predicate CareAsked(m: Computer, events: seq<Event>, c: Profile) {
    && (m.request.CareSave? ==> Asked(events, c, m.request.care))
    && (m.intent.Some? ==> Asked(events, c, m.intent.value.care))
  }

  /** A request brings no other care into a computer's state. */
  ghost predicate SameCare(m: Computer, m': Computer) {
    && (m'.request.CareSave? ==> m.request.CareSave? && m'.request.care == m.request.care)
    && (m'.intent.Some? ==> m.intent.Some? && m'.intent.value.care == m.intent.value.care)
  }

  lemma AdvanceKeepsAsking(w: World, c: Profile)
    requires c in w.computers
    ensures SameCare(w.computers[c], Advance(w, c).computers[c])
  {
    var m := w.computers[c];
    if m.record.Some? && !m.request.CareSave? { TakeoverAsksNothing(w, c); }
    ConnectionAsksNothing(w, c);
    hide AdvanceTakeover, AdvanceConnection, ValidRoot;
  }

  lemma PublishGoesOn(w: World, c: Profile, op: Option<Operation>, expected: Root, root: Root, next: Request)
    requires c in w.computers
    ensures PublishThen(w, c, op, expected, root, next).computers[c].request in {next, Idle}
  {}

  lemma TakeoverAsksNothing(w: World, c: Profile)
    requires c in w.computers && w.computers[c].record.Some? && !w.computers[c].request.CareSave?
    ensures !AdvanceTakeover(w, c).computers[c].request.CareSave?
  {
    hide ValidRoot, MutationAdmitted, Applied, Owned, Stable, PublishThen;
    var r := w.computers[c].record.value;
    match w.computers[c].request
    case PublishMarker(seen) =>
      PublishGoesOn(w, c, Some(r.op), seen, Marked(seen, r), AfterMarker(w.kopia, Marked(seen, r)));
    case PublishPhase(seen, aligned) =>
      if seen.transfer.Some? { PublishGoesOn(w, c, Some(r.op), seen, Applied(seen), AdvanceToNative(aligned)); }
    case PublishFinal(seen, _) => PublishGoesOn(w, c, Some(r.op), seen, Owned(seen, c), AdvanceToPublished);
    case AdvanceToPublished =>
    case _ =>
  }

  lemma ConnectionAsksNothing(w: World, c: Profile)
    requires c in w.computers
    ensures SameCare(w.computers[c], AdvanceConnection(w, c).computers[c])
  {}

  lemma StepKeepsAsking(w: World, events: seq<Event>, e: Event, c: Profile)
    requires c in w.computers && CareAsked(w.computers[c], events, c)
    ensures c in Step(w, e).computers && CareAsked(Step(w, e).computers[c], events + [e], c)
  {
    assert forall care :: Asked(events, c, care) ==> Asked(events + [e], c, care) by {
      forall care | Asked(events, c, care)
        ensures Asked(events + [e], c, care)
      {
        var asking :| asking in events && AsksFor(asking, c, care);
        assert asking in events + [e];
      }
    }
    assert e in events + [e];
    hide Asked;
    if e.c == c {
      AdvanceKeepsAsking(w, c);
      hide Advance;
      match e
      case SaveCare(_, care) => AskedNow(events, e, c, care);
      case Review(_, _, care) => AskedNow(events, e, c, care);
      case _ =>
    } else if e.c in w.computers {
      StepLeaves(w, e, c);
    }
  }

  lemma AskedNow(events: seq<Event>, e: Event, c: Profile, care: nat)
    requires AsksFor(e, c, care)
    ensures Asked(events + [e], c, care)
  {
    assert e in events + [e];
  }

  lemma StepLeaves(w: World, e: Event, c: Profile)
    requires c in w.computers && e.c in w.computers && e.c != c
    ensures Step(w, e).computers[c] == w.computers[c]
  {
    AdvanceLeaves(w, e.c, c);
    hide Advance;
  }

  lemma {:induction false} AskedInEveryRun(w: World, events: seq<Event>, c: Profile)
    requires Initial(w) && c in w.computers
    ensures c in Run(w, events).computers && CareAsked(Run(w, events).computers[c], events, c)
    decreases |events|
  {
    if events != [] {
      var before := events[..|events| - 1];
      AskedInEveryRun(w, before, c);
      StepKeepsAsking(Run(w, before), before, events[|events| - 1], c);
      assert before + [events[|events| - 1]] == events;
    }
  }

  lemma {:induction false} SameComputers(w: World, events: seq<Event>)
    ensures Run(w, events).computers.Keys == w.computers.Keys
    decreases |events|
  {
    if events != [] { SameComputers(w, events[..|events| - 1]); }
  }

  /** No takeover, marker or fence ever changes the vault's care: every publication keeps
      it, or sets the care that its own computer asked for, by saving it or by connecting
      with it. */
  lemma CareIsKeptOrAsked(w: World, events: seq<Event>, k: nat)
    requires Initial(w) && 0 < k < |Run(w, events).log|
    ensures var log := Run(w, events).log;
      log[k].root.care == log[k - 1].root.care || Asked(events, log[k].publisher, log[k].root.care)
  {
    var log := Run(w, events).log;
    var j := EachPublicationIsOneChange(w, events, k);
    if log[k].root.care != log[k - 1].root.care {
      var c := events[j].c;
      SameComputers(w, events[..j]);
      AskedInEveryRun(w, events[..j], c);
      var asking :| asking in events[..j] && AsksFor(asking, c, log[k].root.care);
      assert asking in events;
    }
  }

  // ----- What is admitted takes effect --------------------------------------

  /** The owner's care save: two steps, one publication, and only the care changes. */
  lemma CareSaveTakesEffect(w: World, c: Profile, care: nat)
    requires Inv(w) && c in w.computers && w.computers[c].request == Idle && w.computers[c].attached
    ensures var v := Step(Step(w, SaveCare(c, care)), Next(c));
      && v.root == (if Stable(w.root) && w.root.owner == c && care != w.root.care
                    then w.root.(revision := w.root.revision + 1, care := care) else w.root)
      && v.computers[c] == w.computers[c]
  {
    assert ComputerOk(w, c, w.computers[c]);
  }

  /** A fence is put up only over a settled root of this owner, who has no takeover
      running; only its lifting moves the root then, which is as before. */
  lemma FenceAndLift(w: World, c: Profile)
    requires Inv(w) && c in w.computers && w.computers[c].request == Idle
    ensures var v := Step(w, Fence(c));
      && v.computers == w.computers
      && (v.root != w.root <==>
            w.computers[c].attached && w.computers[c].record == None && Stable(w.root) && w.root.owner == c)
      && (v.root != w.root ==>
            && v.root == w.root.(revision := w.root.revision + 1, fenced := true)
            && (forall e :: Step(v, e).root != v.root ==> e.Unfence?)
            && Step(v, Unfence(c)).root == w.root.(revision := w.root.revision + 2))
  {
    var v := Step(w, Fence(c));
    StepKeeps(w, Fence(c));
    hide Inv;
    if v.root != w.root {
      forall e | Step(v, e).root != v.root
        ensures e.Unfence?
      {
        hide Step;
        EachChangesOneThing(v, e);
      }
    }
  }

  /** A review that is admitted saves exactly what it saw; a connection that takes over
      is one of a vault that somebody else owns. */
  lemma ReviewSaves(w: World, c: Profile, takes: bool, care: nat)
    requires c in w.computers
    ensures var m := w.computers[c];
      var m' := Step(w, Review(c, takes, care)).computers[c];
      if m.request == Idle && !m.attached && m.intent == None && Stable(w.root)
         && (if takes then w.root.owner != c else w.root.owner == c && care != w.root.care)
      then m' == m.(intent := Some(Intent(|w.issued|, c, w.root, takes, care, Prepared)))
      else Step(w, Review(c, takes, care)) == w
  {}

  /** A vault that is removed here is forgotten with its record; a prepared review is
      cancelled; the owner re-aligns Kopia; nothing else happens. */
  lemma LocalEvents(w: World, c: Profile)
    requires c in w.computers
    ensures var m := w.computers[c];
      && Step(w, Remove(c)) == (if m.request == Idle && m.attached
                                then Set(w, c, m.(attached := false, record := None)) else w)
      && Step(w, Cancel(c)) == (if m.request == Idle && m.intent.Some? && m.intent.value.state == Prepared
                                then Set(w, c, m.(intent := None)) else w)
      && Step(w, Maintain(c)).(nativeOwner := w.nativeOwner) == w
      && (Step(w, Maintain(c)).nativeOwner == c <==>
            w.nativeOwner == c || (m.request == Idle && m.attached && Stable(w.root) && w.root.owner == c))
  {}

  // ----- Kopia's owner ------------------------------------------------------

  /** Only its own requests and its maintenance make a computer Kopia's owner, and only
      while the root names it, as its owner or in its marker. */
  lemma AlignsItself(w: World, e: Event)
    requires Inv(w) && Step(w, e).nativeOwner != w.nativeOwner
    ensures e.c in w.computers && Step(w, e).nativeOwner == e.c && (e.Maintain? || e.Next? || e.Lose?)
    ensures w.root.owner == e.c || (w.root.transfer.Some? && w.root.transfer.value.to == e.c)
  {
    if e.Next? || e.Lose? { RequestAligns(w, e.c); }
    if e.c in w.computers {
      if e.Post? || e.Review? || e.Retry? { BeginAligns(w, e); }
      hide Inv, Advance, Begin, Reserve, Connect;
    }
  }

  lemma BeginAligns(w: World, e: Event)
    requires e.c in w.computers && (e.Post? || e.Review? || e.Retry?)
    ensures Step(w, e).nativeOwner == w.nativeOwner
  {}

  lemma RequestAligns(w: World, c: Profile)
    requires Inv(w) && c in w.computers && Advance(w, c).nativeOwner != w.nativeOwner
    ensures Advance(w, c).nativeOwner == c
    ensures w.root.owner == c || (w.root.transfer.Some? && w.root.transfer.value.to == c)
  {
    var m := w.computers[c];
    assert ComputerOk(w, c, m);
    if m.request.CareSave? {
      hide Inv, ComputerOk;
      PublishAligns(w, c, None, m.request.seen, m.request.seen.(revision := m.request.seen.revision + 1, care := m.request.care), Idle);
    } else {
      hide Inv, AdvanceTakeover, AdvanceConnection;
      if m.record.Some? { TakeoverAligns(w, c, m.record.value); }
      if m.intent.Some? { ConnectionAligns(w, c, m.intent.value); }
      assert m.intent.None? ==> AdvanceConnection(w, c) == Go(w, c, Idle) by { NoConnection(w, c); }
    }
  }

  lemma NoConnection(w: World, c: Profile)
    requires c in w.computers
    ensures w.computers[c].intent.None? ==> AdvanceConnection(w, c) == Go(w, c, Idle)
  {}

  lemma PublishAligns(w: World, c: Profile, op: Option<Operation>, expected: Root, root: Root, next: Request)
    requires c in w.computers
    ensures var v := PublishThen(w, c, op, expected, root, next);
      v.nativeOwner == w.nativeOwner && v.kopia == w.kopia && v.computers[c].request in {next, Idle}
  {}

  lemma TakeoverAligns(w: World, c: Profile, r: Record)
    requires c in w.computers && w.computers[c].record == Some(r) && r.to == c
    ensures var v := AdvanceTakeover(w, c);
      v.nativeOwner != w.nativeOwner ==>
        v.nativeOwner == c && (w.root.owner == c || (w.root.transfer.Some? && w.root.transfer.value.to == c))
  {
    hide Applied, Owned, PublishThen;
    match w.computers[c].request
    case PublishMarker(seen) =>
      PublishAligns(w, c, Some(r.op), seen, Marked(seen, r), AfterMarker(w.kopia, Marked(seen, r)));
      hide ValidRoot, MutationAdmitted;
    case PublishPhase(seen, aligned) =>
      hide ValidRoot, MutationAdmitted, Marked;
      if seen.transfer.Some? { PublishAligns(w, c, Some(r.op), seen, Applied(seen), AdvanceToNative(aligned)); }
    case PublishFinal(seen, _) =>
      hide ValidRoot, MutationAdmitted, Marked;
      PublishAligns(w, c, Some(r.op), seen, Owned(seen, c), AdvanceToPublished);
    case _ => hide Marked;
  }

  lemma ConnectionAligns(w: World, c: Profile, i: Intent)
    requires c in w.computers && w.computers[c].intent == Some(i) && i.to == c
    requires w.computers[c].request.ConnectEnsure? ==> i.takes
    ensures var v := AdvanceConnection(w, c);
      v.nativeOwner != w.nativeOwner ==>
        v.nativeOwner == c && (w.root.owner == c || (w.root.transfer.Some? && w.root.transfer.value.to == c))
  {
    hide PublishThen;
    if w.computers[c].request.ConnectFinal? {
      PublishAligns(w, c, Some(i.op), if i.takes then i.Transition() else i.reviewed, i.Final(), ConnectMark);
    }
  }

  lemma ConnectionOnKopiaOnly(w: World, c: Profile)
    requires c in w.computers && !w.kopia && !Aligning(w.computers[c].request)
    ensures var v := AdvanceConnection(w, c);
      !Aligning(v.computers[c].request) && v.nativeOwner == w.nativeOwner && !v.kopia
  {}

  predicate Aligning(q: Request) { q.EnsureReviewed? || q.EnsureFinal? || q.AlignCompleted? }

  /** Nobody is about to align the owner of anything but Kopia. */
  ghost predicate OnKopiaOnly(w: World) {
    w.kopia || forall c :: c in w.computers ==> !Aligning(w.computers[c].request)
  }

  lemma TakeoverOnKopiaOnly(w: World, c: Profile)
    requires c in w.computers && w.computers[c].record.Some? && !w.kopia && !Aligning(w.computers[c].request)
    ensures var v := AdvanceTakeover(w, c);
      !Aligning(v.computers[c].request) && v.nativeOwner == w.nativeOwner && !v.kopia
  {
    hide ValidRoot, MutationAdmitted, Applied, Owned, Stable, PublishThen;
    var r := w.computers[c].record.value;
    match w.computers[c].request
    case PublishMarker(seen) =>
      PublishAligns(w, c, Some(r.op), seen, Marked(seen, r), AfterMarker(w.kopia, Marked(seen, r)));
    case PublishPhase(seen, aligned) =>
      if seen.transfer.Some? { PublishAligns(w, c, Some(r.op), seen, Applied(seen), AdvanceToNative(aligned)); }
    case PublishFinal(seen, _) => PublishAligns(w, c, Some(r.op), seen, Owned(seen, c), AdvanceToPublished);
    case _ =>
  }

  lemma AdvanceOnKopiaOnly(w: World, c: Profile)
    requires c in w.computers && OnKopiaOnly(w) && !w.kopia
    ensures !Aligning(Advance(w, c).computers[c].request) && Advance(w, c).nativeOwner == w.nativeOwner
    ensures !Advance(w, c).kopia
  {
    assert !Aligning(w.computers[c].request);
    hide OnKopiaOnly, AdvanceTakeover, AdvanceConnection, PublishThen, Resume;
    ConnectionOnKopiaOnly(w, c);
    if w.computers[c].record.Some? { TakeoverOnKopiaOnly(w, c); }
    match w.computers[c].request
    case Decided(seen) => DecidedOnKopiaOnly(w, c, seen); hide Advance;
    case CareSave(seen, care) => PublishAligns(w, c, None, seen, seen.(revision := seen.revision + 1, care := care), Idle);
    case _ =>
  }

  lemma DecidedOnKopiaOnly(w: World, c: Profile, seen: Root)
    requires c in w.computers && !w.kopia && w.computers[c].request == Decided(seen)
    ensures !Aligning(Advance(w, c).computers[c].request) && Advance(w, c).nativeOwner == w.nativeOwner
    ensures !Advance(w, c).kopia
  {
    hide Resume, AdvanceTakeover, AdvanceConnection, PublishThen;
    var m := w.computers[c];
    var begun := if m.record.Some? then m.record.value else Record(|w.issued|, seen.owner, c, RecordReviewed);
    ResumesOnKopiaOnly(seen, begun);
  }

  lemma ResumesOnKopiaOnly(seen: Root, r: Record)
    ensures !Aligning(Resume(false, seen, r))
  {}

  lemma StepOnKopiaOnly(w: World, e: Event)
    requires OnKopiaOnly(w) && !w.kopia
    ensures OnKopiaOnly(Step(w, e)) && !Step(w, e).kopia && (Step(w, e).nativeOwner == w.nativeOwner || e.Maintain?)
  {
    if e.c in w.computers {
      AdvanceOnKopiaOnly(w, e.c);
      hide ValidRoot, Stable;
      if e.Next? || e.Lose? { hide Advance; }
      forall c | c in Step(w, e).computers
        ensures !Aligning(Step(w, e).computers[c].request)
      {
        if c != e.c { StepLeaves(w, e, c); }
      }
    }
  }

  /** In every run of a vault that is not Kopia's, no request touches a native owner. */
  lemma {:induction false} NoKopiaNoAlignment(w: World, events: seq<Event>)
    requires Initial(w) && !w.kopia && forall k :: 0 <= k < |events| ==> !events[k].Maintain?
    ensures OnKopiaOnly(Run(w, events)) && !Run(w, events).kopia && Run(w, events).nativeOwner == w.nativeOwner
    decreases |events|
  {
    if events != [] {
      NoKopiaNoAlignment(w, events[..|events| - 1]);
      StepOnKopiaOnly(Run(w, events[..|events| - 1]), events[|events| - 1]);
    }
  }

  // ----- What a connection has saved ----------------------------------------

  ghost predicate Elsewhere(events: seq<Event>, c: Profile) {
    forall k :: 0 <= k < |events| ==> events[k].c != c
  }

  lemma {:induction false} OthersLeave(w: World, events: seq<Event>, c: Profile)
    requires c in w.computers && Elsewhere(events, c)
    ensures c in Run(w, events).computers && Run(w, events).computers[c] == w.computers[c]
    decreases |events|
  {
    if events != [] {
      var last := |events| - 1;
      OthersLeave(w, events[..last], c);
      if events[last].c in Run(w, events[..last]).computers { StepLeaves(Run(w, events[..last]), events[last], c); }
    }
  }

  /** Once the final root is published, the intent says that only the attachment is
      pending, and it still does if the request dies there. A connection that does not
      take over is then attached by its next retry, whatever others do to the root. */
  lemma PendingIsSaved(w: World, c: Profile, others: seq<Event>)
    requires Inv(w) && c in w.computers && w.computers[c].request == ConnectMark && Elsewhere(others, c)
    ensures var m, v := w.computers[c], Run(Step(w, Lose(c)), others);
      && c in v.computers && m.intent.Some?
      && v.computers[c] == m.(request := Idle, intent := Some(m.intent.value.(state := AttachmentPending)))
      && (!m.intent.value.takes ==>
            Step(Step(v, Retry(c)), Next(c)) == Set(v, c, m.(intent := None, attached := true, request := Idle)))
  {
    assert ComputerOk(w, c, w.computers[c]);
    OthersLeave(Step(w, Lose(c)), others, c);
    hide Inv, Run;
    var m, v := w.computers[c], Run(Step(w, Lose(c)), others);
    assert Step(w, Lose(c)).computers[c] == m.(request := Idle, intent := Some(m.intent.value.(state := AttachmentPending)));
    if !m.intent.value.takes { PendingAttaches(v, c); }
  }

  lemma PendingAttaches(v: World, c: Profile)
    requires c in v.computers && v.computers[c].request == Idle && !v.computers[c].attached && v.computers[c].intent.Some?
    requires v.computers[c].intent.value.state == AttachmentPending && !v.computers[c].intent.value.takes
    ensures Step(Step(v, Retry(c)), Next(c)) == Set(v, c, v.computers[c].(intent := None, attached := true, request := Idle))
  {
    var w1 := Step(v, Retry(c));
    assert w1.computers == v.computers[c := v.computers[c].(request := ConnectAttach)];
    assert w1 == v.(computers := w1.computers);
  }

  // ----- A connection that nothing interrupts -------------------------------

  /** The connection attached its vault, over the final root. */
  ghost predicate Connected(w: World, c: Profile, i: Intent, v: World) {
    && c in w.computers && c in v.computers && v.computers[c] == w.computers[c].(intent := None, attached := true, request := Idle)
    && v.root == i.Final() && (w.kopia && i.takes ==> v.nativeOwner == c)
  }

  ghost predicate Connecting(w: World, c: Profile, i: Intent, request: Request) {
    && c in w.computers && w.computers[c].request == request && w.computers[c].intent == Some(i) && i.to == c
    && !w.computers[c].attached && Stable(i.reviewed) && (i.takes <==> i.reviewed.owner != c) && i.state != Prepared
  }

  lemma FromConnectEnd(w: World, c: Profile, i: Intent)
    requires Connecting(w, c, i, ConnectMark) && w.root == i.Final() && (w.kopia && i.takes ==> w.nativeOwner == c)
    ensures Connected(w, c, i, Advance(Advance(w, c), c))
  {
    var w1 := Advance(w, c);
    assert w1.computers[c].request == ConnectAttach && w1.root == w.root;
  }

  lemma FromConnectFinal(w: World, c: Profile, i: Intent)
    requires Connecting(w, c, i, ConnectFinal) && w.root == (if i.takes then i.Transition() else i.reviewed)
    requires w.kopia && i.takes ==> w.nativeOwner == c
    ensures Connected(w, c, i, Advance(Advance(Advance(w, c), c), c))
  {
    var w1 := Advance(w, c);
    assert w1.root == i.Final() && w1.computers[c] == w.computers[c].(request := ConnectMark);
    hide Advance;
    FromConnectEnd(w1, c, i);
  }

  lemma FromConnectEnsure(w: World, c: Profile, i: Intent)
    requires Connecting(w, c, i, ConnectEnsure(false)) && w.root == i.Transition() && i.takes && i.state == Started
    ensures Connected(w, c, i, Settle(w, c, 4))
  {
    var w1 := Advance(w, c);
    assert Connecting(w1, c, i, ConnectFinal) && w1.root == w.root;
    hide Advance, Connecting;
    FromConnectFinal(w1, c, i);
    Unrolled(w1, c);
  }

  lemma Unrolled(w: World, c: Profile)
    requires c in w.computers
    ensures Settle(w, c, 3) == Advance(Advance(Advance(w, c), c), c)
  {
    hide Advance;
    assert Settle(w, c, 3) == Settle(Advance(w, c), c, 2);
    assert Settle(Advance(w, c), c, 2) == Settle(Advance(Advance(w, c), c), c, 1);
    assert Settle(Advance(Advance(w, c), c), c, 1) == Settle(Advance(Advance(Advance(w, c), c), c), c, 0);
  }

  lemma FromFinished(w: World, c: Profile, i: Intent)
    requires Connecting(w, c, i, ConnectEnsure(true)) && w.root == i.Final() && i.takes
    ensures Connected(w, c, i, Settle(w, c, 4))
  {
    var w1 := Advance(w, c);
    assert Connecting(w1, c, i, ConnectMark) && w1.root == w.root;
    hide Advance, Connecting;
    FromConnectEnd(w1, c, i);
    Unrolled(w1, c);
    var v := Advance(Advance(w1, c), c);
    hide Connected;
    AdvanceIdle(v, c);
  }

  lemma AdvanceIdle(w: World, c: Profile)
    requires c in w.computers && w.computers[c].request == Idle
    ensures Advance(w, c) == w
  {}

  /** The current root is one of the connection's own, and it was not overtaken. */
  predicate OwnRoot(root: Root, i: Intent) {
    root == i.reviewed || root == i.Final() || (i.takes && root == i.Transition())
  }

  lemma NotYetFinal(w: World, c: Profile, i: Intent)
    requires Inv(w) && c in w.computers && w.computers[c].intent == Some(i) && i.state == AttachmentPending
    ensures w.root != i.reviewed && (i.takes ==> w.root != i.Transition())
  {
    assert ComputerOk(w, c, w.computers[c]);
    var k :| 0 <= k < |w.log| && w.log[k].root == i.Final();
    assert w.log[k].root.revision <= w.log[|w.log| - 1].root.revision;
  }

  /** The saved intent of an idle computer, on a root of its own. */
  ghost predicate Retries(w: World, c: Profile, i: Intent) {
    && c in w.computers && w.computers[c] == Computer(false, None, Some(i), Idle) && i.to == c && Stable(i.reviewed)
    && (i.takes <==> i.reviewed.owner != c) && OwnRoot(w.root, i)
    && (i.state == AttachmentPending ==> w.root == i.Final())
  }

  lemma TakingRetry(w: World, c: Profile, i: Intent)
    requires Retries(w, c, i) && i.takes
    ensures var i' := if i.state == Prepared then i.(state := Started) else i;
      if w.root == i.Final() then Connect(w, c).root == i'.Final() && Connecting(Connect(w, c), c, i', ConnectEnsure(true))
      else Connect(w, c).root == i'.Transition() && Connecting(Connect(w, c), c, i', ConnectEnsure(false)) && i'.state == Started
    ensures Connect(w, c).kopia == w.kopia
  {
    ConnectionRootsDiffer(i);
  }

  lemma TakingFinishes(w: World, c: Profile, i: Intent)
    requires Retries(w, c, i) && i.takes
    ensures Connected(w, c, i, Settle(Connect(w, c), c, 4))
  {
    TakingRetry(w, c, i);
    var i' := if i.state == Prepared then i.(state := Started) else i;
    assert i'.Final() == i.Final();
    var w1 := Connect(w, c);
    hide Connect, Settle, Retries;
    if w.root == i.Final() { FromFinished(w1, c, i'); } else { FromConnectEnsure(w1, c, i'); }
  }

  lemma PlainFinishes(w: World, c: Profile, i: Intent)
    requires Retries(w, c, i) && !i.takes
    ensures Connected(w, c, i, Settle(Connect(w, c), c, 4))
  {
    var i' := if i.state == Prepared then i.(state := Started) else i;
    var w1 := Connect(w, c);
    assert i'.Final() == i.Final() && w1.root == w.root;
    if i.state == AttachmentPending {
      var v := Advance(w1, c);
      hide Advance, Connect;
      IdleStays(v, c, 3);
    } else {
      assert Connecting(w1, c, i', ConnectFinal);
      hide Connect, Settle, Retries;
      PlainConnection(w1, c, i');
    }
  }

  /** A retry that nothing interrupts, from any root of its own: the vault is attached
      over the connection's final root, and Kopia's owner is this computer if it takes
      over. */
  lemma ConnectionFinishes(w: World, c: Profile, i: Intent)
    requires Inv(w) && c in w.computers && w.computers[c].request == Idle && w.computers[c].intent == Some(i)
    requires OwnRoot(w.root, i)
    ensures Connected(w, c, i, Settle(Step(w, Retry(c)), c, 4))
  {
    hide *;
    ReadyToRetry(w, c, i);
    RetryConnects(w, c);
    if i.takes { TakingFinishes(w, c, i); } else { PlainFinishes(w, c, i); }
  }

  lemma RetryConnects(w: World, c: Profile)
    requires c in w.computers
    ensures Step(w, Retry(c)) == Connect(w, c)
  {
    hide Connect;
  }

  lemma ReadyToRetry(w: World, c: Profile, i: Intent)
    requires Inv(w) && c in w.computers && w.computers[c].request == Idle && w.computers[c].intent == Some(i)
    requires OwnRoot(w.root, i)
    ensures Retries(w, c, i)
  {
    assert ComputerOk(w, c, w.computers[c]) && IntentOk(w, c, i);
    if i.state == AttachmentPending { NotYetFinal(w, c, i); }
    hide Inv;
  }

  lemma PlainConnection(w: World, c: Profile, i: Intent)
    requires Connecting(w, c, i, ConnectFinal) && !i.takes && OwnRoot(w.root, i)
    ensures Connected(w, c, i, Settle(w, c, 4))
  {
    var w1 := Advance(w, c);
    assert Connecting(w1, c, i, ConnectMark) && w1.root == i.Final();
    hide Advance, Connecting;
    FromConnectEnd(w1, c, i);
    Unrolled(w1, c);
    var v := Advance(Advance(w1, c), c);
    hide Connected;
    AdvanceIdle(v, c);
  }

  /** A review and one uninterrupted connection of it: the vault is attached, the root
      names this computer and has the reviewed care. */
  lemma ReviewedConnectionFinishes(w: World, c: Profile, takes: bool, care: nat)
    requires Inv(w) && c in w.computers && Step(w, Review(c, takes, care)) != w
    ensures var v := Settle(Step(Step(w, Review(c, takes, care)), Retry(c)), c, 4);
      && c in v.computers && v.computers[c].attached && v.computers[c].intent == None
      && v.root.owner == c && v.root.care == care && v.root.transfer == None
  {
    ReviewSaves(w, c, takes, care);
    StepKeeps(w, Review(c, takes, care));
    var w1 := Step(w, Review(c, takes, care));
    assert w1.root == w.root by { ReserveKeepsRoot(w, c, takes, care); }
    var i := w1.computers[c].intent.value;
    hide Inv, Step, Settle;
    ConnectionFinishes(w1, c, i);
  }
}
