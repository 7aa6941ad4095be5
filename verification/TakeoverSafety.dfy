/** What every run of the ownership protocol keeps, whatever the interleaving of
    computers, interrupted requests and retries. */
module TakeoverSafety {
  import opened Options
  import opened Takeover

  // ----- The history of the protected root ----------------------------------

  /** The only ways the root may be followed by another one. */
  ghost predicate Follows(prev: Root, next: Publication) {
    && next.root.revision == prev.revision + 1
    && match prev.transfer {
         case Some(t) =>
           // While a marker is there only its own takeover publishes: it either
           // records the native owner or finishes and hands the vault over.
           && next.publisher == t.to && next.op == Some(t.op) && !next.root.fenced
           && ((t.phase == Reviewed && next.root.owner == prev.owner
                && next.root.transfer == Some(t.(phase := NativeApplied)))
               || (next.root.owner == t.to && next.root.transfer == None))
         case None =>
           && next.root.owner == prev.owner
           && (prev.fenced ==> next.publisher == prev.owner && next.root.transfer == None)
           && match next.root.transfer {
                case None => next.publisher == prev.owner
                case Some(t) =>
                  && t.from == prev.owner && t.to == next.publisher && t.phase == Reviewed
                  && next.op == Some(t.op) && next.publisher != prev.owner && !next.root.fenced
              }
       }
  }

  ghost predicate IssuedTo(issued: seq<Profile>, op: Operation, c: Profile) {
    op < |issued| && issued[op] == c
  }

  /** The takeover `op` has published a root that names `c` as its owner. */
  ghost predicate Finished(log: seq<Publication>, op: Operation, c: Profile) {
    exists k :: 0 <= k < |log| && FinishedAt(log, op, c, k)
  }

  ghost predicate FinishedAt(log: seq<Publication>, op: Operation, c: Profile, k: nat)
    requires k < |log|
  {
    log[k].publisher == c && log[k].op == Some(op) && log[k].root.owner == c && log[k].root.transfer == None
  }

  ghost predicate Published(log: seq<Publication>, root: Root) {
    exists k :: 0 <= k < |log| && log[k].root == root
  }

  ghost predicate LogOk(w: World) {
    && |w.log| > 0 && w.log[|w.log| - 1].root == w.root
    && w.log[0].op == None && w.log[0].root.transfer == None
    && (forall k :: 0 <= k < |w.log| ==> w.log[k].root.revision == w.log[0].root.revision + k)
    && (forall k :: 0 < k < |w.log| ==> Follows(w.log[k - 1].root, w.log[k]))
    && (forall k :: 0 <= k < |w.log| ==>
          w.log[k].op.Some? ==> IssuedTo(w.issued, w.log[k].op.value, w.log[k].publisher))
  }

  ghost predicate RootOk(w: World) {
    w.root.transfer.Some? ==>
      var t := w.root.transfer.value;
      && !w.root.fenced && t.from == w.root.owner && t.from != t.to
      && IssuedTo(w.issued, t.op, t.to)
      && !Finished(w.log, t.op, t.to)
  }

  /** Kopia's native owner never runs ahead of, or behind, the root. */
  ghost predicate NativeOk(w: World) {
    w.kopia ==>
      match w.root.transfer
      case None => w.nativeOwner == w.root.owner
      case Some(t) => w.nativeOwner == t.to || (t.phase == Reviewed && w.nativeOwner == t.from)
  }

  // ----- What one computer has saved ----------------------------------------

  ghost predicate OwnMarker(root: Root, r: Record) {
    && !root.fenced && root.owner == r.from
    && root.transfer.Some?
    && root.transfer.value.op == r.op && root.transfer.value.from == r.from && root.transfer.value.to == r.to
  }

  ghost predicate RecordOk(w: World, c: Profile, r: Record) {
    && IssuedTo(w.issued, r.op, c) && r.to == c && r.from != c
    && (w.root.transfer.Some? && w.root.transfer.value.op == r.op ==> ValidRoot(w.root, Some(r)))
    && (w.root.owner == c ==> Finished(w.log, r.op, c))
    && match r.state {
         case RecordReviewed => !Finished(w.log, r.op, c)
         case RecordNative =>
           Finished(w.log, r.op, c)
           || (OwnMarker(w.root, r) && w.root.transfer.value.phase == NativeApplied)
         case RecordPublished => Finished(w.log, r.op, c)
       }
  }

  /** Every root the connection published: the reviewed root is followed by its
      transition, the transition by its final root, and there is no other. */
  ghost predicate ConnectionStep(log: seq<Publication>, i: Intent, k: nat)
    requires k < |log|
  {
    k > 0 &&
    if i.takes then
      || (log[k - 1].root == i.reviewed && log[k].root == i.Transition())
      || (log[k - 1].root == i.Transition() && log[k].root == i.Final())
    else log[k - 1].root == i.reviewed && log[k].root == i.Final()
  }

  ghost predicate IntentOk(w: World, c: Profile, i: Intent) {
    && IssuedTo(w.issued, i.op, c) && i.to == c && Stable(i.reviewed)
    && (i.takes <==> i.reviewed.owner != c)
    && Published(w.log, i.reviewed)
    && (forall k :: 0 <= k < |w.log| && w.log[k].op == Some(i.op) ==>
          i.state != Prepared && ConnectionStep(w.log, i, k))
    && (w.root.transfer.Some? && w.root.transfer.value.op == i.op ==> w.root == i.Transition())
    && (i.state == AttachmentPending ==> Published(w.log, i.Final()))
  }

  // ----- Where its request stands -------------------------------------------

  ghost predicate TakeoverRequestOk(w: World, c: Profile, r: Record, request: Request) {
    match request
    case PublishMarker(seen) =>
      r.state == RecordReviewed && Stable(seen) && seen.owner == r.from
    case EnsureReviewed(seen) =>
      r.state == RecordReviewed && w.root == seen && OwnMarker(seen, r) && seen.transfer.value.phase == Reviewed
    case PublishPhase(seen, _) =>
      && r.state == RecordReviewed && w.root == seen && OwnMarker(seen, r) && seen.transfer.value.phase == Reviewed
      && (w.kopia ==> w.nativeOwner == c)
    case AdvanceToNative(_) =>
      r.state == RecordReviewed && OwnMarker(w.root, r) && w.root.transfer.value.phase == NativeApplied
    case Reread(_) => r.state == RecordNative
    case EnsureFinal(seen) =>
      r.state == RecordNative && w.root == seen && OwnMarker(seen, r) && seen.transfer.value.phase == NativeApplied
    case PublishFinal(seen, aligned) =>
      && r.state == RecordNative && w.root == seen && OwnMarker(seen, r)
      && seen.transfer.value.phase == NativeApplied && (w.kopia ==> aligned)
    case AlignCompleted(_) => Finished(w.log, r.op, c)
    case AdvanceToPublished => Finished(w.log, r.op, c)
    case Complete => Finished(w.log, r.op, c)
    case _ => true
  }

  ghost predicate RequestOk(w: World, c: Profile, m: Computer) {
    match m.request
    case Idle => true
    case Decided(seen) =>
      && m.attached && ValidRoot(seen, m.record) && seen.owner != c
      && (m.record == None ==> w.root.owner != c)
      && (seen.transfer.Some? ==> w.root == seen)
    case CareSave(seen, _) => Stable(seen) && seen.owner == c
    case ConnectEnsure(finished) =>
      && m.intent.Some? && m.intent.value.takes && m.intent.value.state != Prepared
      && (finished ==> Published(w.log, m.intent.value.Final()))
    case ConnectFinal =>
      && m.intent.Some? && m.intent.value.state != Prepared
      && (w.kopia && w.root == m.intent.value.Transition() ==> w.nativeOwner == c)
    case ConnectMark =>
      m.intent.Some? && m.intent.value.state != Prepared && Published(w.log, m.intent.value.Final())
    case ConnectAttach =>
      m.intent.Some? && m.intent.value.state != Prepared && Published(w.log, m.intent.value.Final())
    case _ => m.record.Some? && TakeoverRequestOk(w, c, m.record.value, m.request)
  }

  ghost predicate ComputerOk(w: World, c: Profile, m: Computer) {
    && (m.record.Some? ==> m.attached && RecordOk(w, c, m.record.value))
    && (m.intent.Some? ==> !m.attached && IntentOk(w, c, m.intent.value))
    && RequestOk(w, c, m)
  }

  ghost predicate Inv(w: World) {
    && LogOk(w) && RootOk(w) && NativeOk(w)
    && forall c :: c in w.computers ==> ComputerOk(w, c, w.computers[c])
  }

  /** A vault with its first owner, before any takeover or connection. */
  ghost predicate Initial(w: World) {
    && Stable(w.root) && w.log == [Publication(w.root.owner, None, w.root)] && w.issued == []
    && (w.kopia ==> w.nativeOwner == w.root.owner)
    && forall c :: c in w.computers ==>
         w.computers[c].record == None && w.computers[c].intent == None && w.computers[c].request == Idle
  }

  // ----- One step by one computer -------------------------------------------

  ghost predicate PublishedOnce(w: World, w': World, a: Profile) {
    && |w'.log| == |w.log| + 1 && w'.log[..|w.log|] == w.log
    && var p := w'.log[|w.log|];
       && p.publisher == a && p.root == w'.root && Follows(w.root, p)
       && (p.op.Some? ==> IssuedTo(w'.issued, p.op.value, a))
       && (w'.root.transfer.Some? ==> !Finished(w'.log, w'.root.transfer.value.op, a))
       && (w.kopia && w.root.transfer.Some? ==> w.nativeOwner == a)
       && w'.nativeOwner == w.nativeOwner
  }

  ghost predicate Realigned(w: World, w': World, a: Profile) {
    && w'.log == w.log && w'.root == w.root
    && (w'.nativeOwner == w.nativeOwner
        || (w'.nativeOwner == a
            && match w.root.transfer { case None => w.root.owner == a case Some(t) => t.to == a }))
  }

  /** Everything a step of `a` may change, as the other computers see it. */
  ghost predicate Change(w: World, w': World, a: Profile) {
    && w'.kopia == w.kopia && w'.computers.Keys == w.computers.Keys
    && (forall c :: c in w.computers && c != a ==> w'.computers[c] == w.computers[c])
    && |w.issued| <= |w'.issued| && w'.issued[..|w.issued|] == w.issued
    && (forall i :: |w.issued| <= i < |w'.issued| ==> w'.issued[i] == a)
    && (Realigned(w, w', a) || PublishedOnce(w, w', a))
  }

  lemma LogGrows(w: World, w': World, a: Profile)
    requires LogOk(w) && Change(w, w', a)
    ensures LogOk(w')
    ensures |w.log| <= |w'.log| && w'.log[..|w.log|] == w.log
    ensures forall op, c :: Finished(w.log, op, c) ==> Finished(w'.log, op, c)
    ensures forall op, c :: Finished(w'.log, op, c) && c != a ==> Finished(w.log, op, c)
    ensures forall root :: Published(w.log, root) ==> Published(w'.log, root)
    ensures forall op, c :: IssuedTo(w.issued, op, c) ==> IssuedTo(w'.issued, op, c)
    ensures Published(w'.log, w'.root)
  {
    assert forall k :: 0 <= k < |w.log| ==> w'.log[k] == w'.log[..|w.log|][k] == w.log[k];
    assert forall i :: 0 <= i < |w.issued| ==> w'.issued[i] == w'.issued[..|w.issued|][i] == w.issued[i];
    forall op, c | Finished(w.log, op, c) ensures Finished(w'.log, op, c) {
      var k :| 0 <= k < |w.log| && FinishedAt(w.log, op, c, k);
      assert FinishedAt(w'.log, op, c, k);
    }
    forall op, c | Finished(w'.log, op, c) && c != a ensures Finished(w.log, op, c) {
      var k :| 0 <= k < |w'.log| && FinishedAt(w'.log, op, c, k);
      assert FinishedAt(w.log, op, c, k);
    }
    forall root | Published(w.log, root) ensures Published(w'.log, root) {
      var k :| 0 <= k < |w.log| && w.log[k].root == root;
      assert w'.log[k].root == root;
    }
    assert w'.log[|w'.log| - 1].root == w'.root;
  }

  /** No step of another computer disturbs what this one relies on. */
  lemma Undisturbed(w: World, w': World, a: Profile, c: Profile, m: Computer)
    requires LogOk(w) && RootOk(w) && NativeOk(w) && Change(w, w', a) && c != a
    requires ComputerOk(w, c, m)
    ensures ComputerOk(w', c, m)
  {
    LogGrows(w, w', a);
    if m.intent.Some? {
      var i := m.intent.value;
      forall k | 0 <= k < |w'.log| && w'.log[k].op == Some(i.op)
        ensures i.state != Prepared && ConnectionStep(w'.log, i, k)
      {
        assert IssuedTo(w'.issued, i.op, c);
        assert w'.log[k] == w'.log[..|w.log|][k] == w.log[k];
        assert ConnectionStep(w.log, i, k);
        assert w'.log[k - 1] == w'.log[..|w.log|][k - 1];
      }
    }
  }

  lemma Preserved(w: World, w': World, a: Profile)
    requires Inv(w) && Change(w, w', a) && a in w.computers
    requires ComputerOk(w', a, w'.computers[a])
    ensures Inv(w')
  {
    LogGrows(w, w', a);
    forall c | c in w'.computers ensures ComputerOk(w', c, w'.computers[c]) {
      if c != a { Undisturbed(w, w', a, c, w.computers[c]); }
    }
  }

  // ----- Every step keeps the invariant -------------------------------------

  lemma InvParts(w: World, c: Profile)
    requires Inv(w) && c in w.computers
    ensures ComputerOk(w, c, w.computers[c]) && NativeOk(w) && RootOk(w) && LogOk(w)
  {
  }

  lemma TakeoverLeaves(w: World, c: Profile, d: Profile)
    requires c in w.computers && d in w.computers && c != d && w.computers[c].record.Some?
    ensures AdvanceTakeover(w, c).computers[d] == w.computers[d]
  {
    hide PublishThen;
  }

  /** A step that publishes nothing and moves no owner. */
  lemma Local(w: World, c: Profile, m: Computer)
    requires Inv(w) && c in w.computers && ComputerOk(w, c, m)
    ensures Inv(Set(w, c, m))
  {
    Preserved(w, Set(w, c, m), c);
  }

  lemma NotFinishedYet(w: World, op: Operation, c: Profile)
    requires LogOk(w) && op >= |w.issued|
    ensures !Finished(w.log, op, c)
  {
  }

  lemma BeginKeeps(w: World, c: Profile, reviewedOwner: Profile)
    requires Inv(w) && c in w.computers
    ensures Inv(Begin(w, c, reviewedOwner))
  {
    var w' := Begin(w, c, reviewedOwner);
    if w' != w { Local(w, c, w'.computers[c]); }
  }

  lemma BegunKeeps(w: World, c: Profile)
    requires Inv(w) && c in w.computers && w.computers[c].request.Decided? && w.computers[c].record == None
    ensures Inv(Advance(w, c))
  {
    var w' := Advance(w, c);
    var m := w'.computers[c];
    var seen := w.computers[c].request.seen;
    var r := Record(|w.issued|, seen.owner, c, RecordReviewed);
    assert w' == WithRecord(w.(issued := w.issued + [c]), c, Some(r), PublishMarker(seen));
    NotFinishedYet(w, r.op, c);
    assert Realigned(w, w', c);
    LogGrows(w, w', c);
    assert RecordOk(w', c, r) by {
      assert w.root.transfer.Some? ==> IssuedTo(w.issued, w.root.transfer.value.op, w.root.transfer.value.to);
    }
    Preserved(w, w', c);
  }

  lemma DecidedKeeps(w: World, c: Profile)
    requires Inv(w) && c in w.computers && w.computers[c].request.Decided?
    ensures Inv(Advance(w, c))
  {
    hide Inv, Finished;
    InvParts(w, c);
    if w.computers[c].record == None {
      BegunKeeps(w, c);
    } else {
      var m := Advance(w, c).computers[c];
      assert Advance(w, c) == Set(w, c, m);
      assert ComputerOk(w, c, m);
      Local(w, c, m);
    }
  }

  /** A publication by `c` leaves the invariant when its own request is where
      the publication puts it. */
  lemma PublishKeeps(w: World, c: Profile, op: Option<Operation>, expected: Root, root: Root, next: Request)
    requires Inv(w) && c in w.computers
    requires var p := Publication(c, op, root);
             w.root == expected && !w.root.fenced && w.root != root ==>
               && Follows(w.root, p)
               && (op.Some? ==> IssuedTo(w.issued, op.value, c))
               && (root.transfer.Some? ==> !Finished(w.log, root.transfer.value.op, c))
               && (w.kopia && w.root.transfer.Some? ==> w.nativeOwner == c)
    requires var w' := PublishThen(w, c, op, expected, root, next);
             Change(w, w', c) ==> ComputerOk(w', c, w'.computers[c])
    ensures Inv(PublishThen(w, c, op, expected, root, next))
  {
    var w' := PublishThen(w, c, op, expected, root, next);
    if w'.log == w.log {
      assert Realigned(w, w', c);
    } else {
      var p := Publication(c, op, root);
      assert w'.log == w.log + [p];
      if root.transfer.Some? {
        var t := root.transfer.value;
        if Finished(w'.log, t.op, c) {
          var k :| 0 <= k < |w'.log| && FinishedAt(w'.log, t.op, c, k);
          assert k < |w.log| && FinishedAt(w.log, t.op, c, k);
        }
      }
      assert PublishedOnce(w, w', c);
    }
    Preserved(w, w', c);
  }

  lemma MarkerKeeps(w: World, c: Profile)
    requires Inv(w) && c in w.computers && w.computers[c].request.PublishMarker?
    ensures Inv(Advance(w, c))
  {
    var seen := w.computers[c].request.seen;
    var r := w.computers[c].record.value;
    var next := AfterMarker(w.kopia, Marked(seen, r));
    var w' := PublishThen(w, c, Some(r.op), seen, Marked(seen, r), next);
    if Change(w, w', c) { LogGrows(w, w', c); }
    PublishKeeps(w, c, Some(r.op), seen, Marked(seen, r), next);
  }

  lemma PhaseKeeps(w: World, c: Profile)
    requires Inv(w) && c in w.computers && w.computers[c].request.PublishPhase?
    ensures Inv(Advance(w, c))
  {
    var seen, aligned := w.computers[c].request.seen, w.computers[c].request.aligned;
    var r := w.computers[c].record.value;
    var w' := PublishThen(w, c, Some(r.op), seen, Applied(seen), AdvanceToNative(aligned));
    if Change(w, w', c) { LogGrows(w, w', c); }
    PublishKeeps(w, c, Some(r.op), seen, Applied(seen), AdvanceToNative(aligned));
  }

  lemma FinalKeeps(w: World, c: Profile)
    requires Inv(w) && c in w.computers && w.computers[c].request.PublishFinal?
    ensures Inv(Advance(w, c))
  {
    var seen := w.computers[c].request.seen;
    var r := w.computers[c].record.value;
    var w' := PublishThen(w, c, Some(r.op), seen, Owned(seen, c), AdvanceToPublished);
    assert Advance(w, c) == w';
    hide Advance, AdvanceTakeover;
    if Change(w, w', c) {
      LogGrows(w, w', c);
      if |w'.log| > |w.log| { assert FinishedAt(w'.log, r.op, c, |w.log|); }
    }
    PublishKeeps(w, c, Some(r.op), seen, Owned(seen, c), AdvanceToPublished);
  }

  /** Ensuring the native owner: only for the root's owner, or for the holder of
      its marker. */
  lemma AlignKeeps(w: World, c: Profile, next: Request)
    requires Inv(w) && c in w.computers
    requires match w.root.transfer { case None => w.root.owner == c case Some(t) => t.to == c }
    requires RequestOk(w.(nativeOwner := c), c, w.computers[c].(request := next))
    ensures Inv(Go(w.(nativeOwner := c), c, next))
  {
    var w' := Go(w.(nativeOwner := c), c, next);
    assert Realigned(w, w', c);
    LogGrows(w, w', c);
    Preserved(w, w', c);
  }

  lemma EnsureKeeps(w: World, c: Profile)
    requires Inv(w) && c in w.computers
    requires var q := w.computers[c].request; q.EnsureReviewed? || q.EnsureFinal? || q.AlignCompleted?
    ensures Inv(Advance(w, c))
  {
    var w' := Advance(w, c);
    var next := w'.computers[c].request;
    if w'.nativeOwner == w.nativeOwner {
      assert w' == Go(w, c, next);
      Local(w, c, w'.computers[c]);
    } else {
      assert w' == Go(w.(nativeOwner := c), c, next);
      AlignKeeps(w, c, next);
    }
  }

  lemma RereadKeeps(w: World, c: Profile)
    requires Inv(w) && c in w.computers && w.computers[c].request.Reread?
    ensures Inv(Advance(w, c))
  {
    var next := Advance(w, c).computers[c].request;
    assert Advance(w, c) == Go(w, c, next);
    assert ComputerOk(w, c, w.computers[c]);
    Local(w, c, w.computers[c].(request := next));
  }

  lemma SavedKeeps(w: World, c: Profile)
    requires Inv(w) && c in w.computers
    requires var q := w.computers[c].request; q.AdvanceToNative? || q.AdvanceToPublished? || q.Complete?
    ensures Inv(Advance(w, c))
  {
    var m := w.computers[c];
    assert ComputerOk(w, c, m);
    var next := Advance(w, c).computers[c];
    assert next == m.(record := next.record, request := next.request);
    assert RecordOk(w, c, m.record.value);
    assert ComputerOk(w, c, next);
    Local(w, c, next);
  }

  /** A publication that belongs to no connection leaves the saved state alone. */
  lemma OwnPublication(w: World, w': World, c: Profile)
    requires Inv(w) && c in w.computers && Change(w, w', c)
    requires w'.log != w.log ==> w.root.transfer == None && w'.root.transfer == None && w'.log[|w.log|].op == None
    requires w'.nativeOwner == w.nativeOwner
    ensures w.computers[c].record.Some? ==> RecordOk(w', c, w.computers[c].record.value)
    ensures w.computers[c].intent.Some? ==> IntentOk(w', c, w.computers[c].intent.value)
  {
    LogGrows(w, w', c);
    var m := w.computers[c];
    if m.record.Some? && Finished(w'.log, m.record.value.op, c) {
      var k :| 0 <= k < |w'.log| && FinishedAt(w'.log, m.record.value.op, c, k);
      assert k < |w.log| ==> FinishedAt(w.log, m.record.value.op, c, k);
    }
    if m.intent.Some? {
      var i := m.intent.value;
      forall k | 0 <= k < |w'.log| && w'.log[k].op == Some(i.op)
        ensures i.state != Prepared && ConnectionStep(w'.log, i, k)
      {
        assert w'.log[k] == w'.log[..|w.log|][k] == w.log[k];
        assert ConnectionStep(w.log, i, k);
        assert w'.log[k - 1] == w'.log[..|w.log|][k - 1];
      }
    }
  }

  lemma CareOk(w: World, w': World, c: Profile, root: Root)
    requires Inv(w) && c in w.computers && w.computers[c].request.CareSave?
    requires w.root == w.computers[c].request.seen || w.root == root ==> Stable(root)
    requires w' == PublishThen(w, c, None, w.computers[c].request.seen, root, Idle)
    requires Change(w, w', c)
    ensures ComputerOk(w', c, w'.computers[c])
  {
    OwnPublication(w, w', c);
  }

  lemma CareKeeps(w: World, c: Profile)
    requires Inv(w) && c in w.computers && w.computers[c].request.CareSave?
    ensures Inv(Advance(w, c))
  {
    hide Inv, Finished;
    InvParts(w, c);
    var seen, care := w.computers[c].request.seen, w.computers[c].request.care;
    var root := seen.(revision := seen.revision + 1, care := care);
    var w' := PublishThen(w, c, None, seen, root, Idle);
    assert Advance(w, c) == w';
    assert w.root == seen ==> Stable(w.root) && w.root.owner == c && Follows(w.root, Publication(c, None, root));
    assert root.transfer == None && Stable(root);
    hide Advance, PublishThen, Change, ComputerOk, Follows;
    if Change(w, w', c) { CareOk(w, w', c, root); }
    PublishKeeps(w, c, None, seen, root, Idle);
  }

  /** The connection's own publication is the next one of its sequence. */
  lemma ConnectionPublication(w: World, w': World, c: Profile, i: Intent, root: Root)
    requires Inv(w) && c in w.computers && Change(w, w', c) && w'.root == root
    requires w.computers[c].intent == Some(i) || (i.state == Started && w.computers[c].intent == Some(i.(state := Prepared)))
    requires i.state != Prepared
    requires w'.log != w.log ==> w'.log[|w.log|].op == Some(i.op)
    requires w'.log != w.log ==>
      if i.takes then (w.root == i.reviewed && root == i.Transition()) || (w.root == i.Transition() && root == i.Final())
      else w.root == i.reviewed && root == i.Final()
    ensures IntentOk(w', c, i)
  {
    LogGrows(w, w', c);
    forall k | 0 <= k < |w'.log| && w'.log[k].op == Some(i.op)
      ensures ConnectionStep(w'.log, i, k)
    {
      if k < |w.log| {
        assert w'.log[k] == w'.log[..|w.log|][k] == w.log[k];
        assert ConnectionStep(w.log, i, k);
        assert w'.log[k - 1] == w'.log[..|w.log|][k - 1] == w.log[k - 1];
      } else {
        assert w'.log[k - 1] == w'.log[..|w.log|][k - 1] == w.log[k - 1];
      }
    }
  }

  lemma FinalRootOk(w: World, w': World, c: Profile)
    requires Inv(w) && c in w.computers && w.computers[c].request.ConnectFinal?
    requires var i := w.computers[c].intent.value;
             w' == PublishThen(w, c, Some(i.op), if i.takes then i.Transition() else i.reviewed, i.Final(), ConnectMark)
    requires Change(w, w', c)
    ensures ComputerOk(w', c, w'.computers[c])
  {
    var i := w.computers[c].intent.value;
    LogGrows(w, w', c);
    ConnectionPublication(w, w', c, i, w'.root);
  }

  lemma ConnectFinalKeeps(w: World, c: Profile)
    requires Inv(w) && c in w.computers && w.computers[c].request.ConnectFinal?
    ensures Inv(Advance(w, c))
  {
    hide Inv, Finished;
    InvParts(w, c);
    var i := w.computers[c].intent.value;
    var expected := if i.takes then i.Transition() else i.reviewed;
    var w' := PublishThen(w, c, Some(i.op), expected, i.Final(), ConnectMark);
    if Change(w, w', c) { FinalRootOk(w, w', c); }
    PublishKeeps(w, c, Some(i.op), expected, i.Final(), ConnectMark);
    assert Advance(w, c) == w';
  }

  lemma ConnectEnsureKeeps(w: World, c: Profile)
    requires Inv(w) && c in w.computers && w.computers[c].request.ConnectEnsure?
    ensures Inv(Advance(w, c))
  {
    var i := w.computers[c].intent.value;
    var w' := Advance(w, c);
    var next := w'.computers[c].request;
    if w'.nativeOwner == w.nativeOwner {
      assert w' == Go(w, c, next);
      Local(w, c, w'.computers[c]);
    } else {
      assert w' == Go(w.(nativeOwner := c), c, next);
      AlignKeeps(w, c, next);
    }
  }

  lemma ConnectEndKeeps(w: World, c: Profile)
    requires Inv(w) && c in w.computers
    requires w.computers[c].request.ConnectMark? || w.computers[c].request.ConnectAttach?
    ensures Inv(Advance(w, c))
  {
    Local(w, c, Advance(w, c).computers[c]);
  }

  lemma AdvanceKeeps(w: World, c: Profile)
    requires Inv(w) && c in w.computers
    ensures Inv(Advance(w, c))
  {
    match w.computers[c].request
    case Idle =>
    case Decided(_) => DecidedKeeps(w, c);
    case PublishMarker(_) => MarkerKeeps(w, c);
    case EnsureReviewed(_) => EnsureKeeps(w, c);
    case PublishPhase(_, _) => PhaseKeeps(w, c);
    case AdvanceToNative(_) => SavedKeeps(w, c);
    case Reread(_) => RereadKeeps(w, c);
    case EnsureFinal(_) => EnsureKeeps(w, c);
    case PublishFinal(_, _) => FinalKeeps(w, c);
    case AdvanceToPublished => SavedKeeps(w, c);
    case Complete => SavedKeeps(w, c);
    case AlignCompleted(_) => EnsureKeeps(w, c);
    case CareSave(_, _) => CareKeeps(w, c);
    case ConnectEnsure(_) => ConnectEnsureKeeps(w, c);
    case ConnectFinal => ConnectFinalKeeps(w, c);
    case ConnectMark => ConnectEndKeeps(w, c);
    case ConnectAttach => ConnectEndKeeps(w, c);
  }

  lemma ReserveKeeps(w: World, c: Profile, takes: bool, care: nat)
    requires Inv(w) && c in w.computers
    ensures Inv(Reserve(w, c, takes, care))
  {
    var w' := Reserve(w, c, takes, care);
    if w' != w {
      assert Realigned(w, w', c);
      LogGrows(w, w', c);
      assert w'.computers[c].intent.value.op == |w.issued|;
      Preserved(w, w', c);
    }
  }

  lemma StartKeeps(w: World, c: Profile, i: Intent)
    requires Inv(w) && c in w.computers && w.computers[c].request == Idle && w.computers[c].intent == Some(i)
    ensures var started := if i.state == Prepared then i.(state := Started) else i;
            Inv(Set(w, c, w.computers[c].(intent := Some(started))))
  {
    var started := if i.state == Prepared then i.(state := Started) else i;
    assert IntentOk(w, c, started);
    Local(w, c, w.computers[c].(intent := Some(started)));
  }

  /** Where a retry that publishes nothing goes on. */
  predicate ResumesAt(root: Root, i: Intent, next: Request) {
    match next
    case Idle => true
    case ConnectEnsure(finished) => i.takes && (finished ==> root == i.Final())
    case ConnectFinal => !i.takes
    case ConnectAttach => i.state == AttachmentPending
    case _ => false
  }

  /** Where a retry's request goes that publishes no transition. */
  function ConnectsTo(root: Root, i: Intent): Request {
    if !i.takes then if i.state == AttachmentPending then ConnectAttach else ConnectFinal
    else if root == i.Final() then ConnectEnsure(true)
    else if root == i.Transition() then ConnectEnsure(false)
    else Idle
  }

  lemma ConnectGoesOn(w: World, c: Profile, i: Intent, started: Intent)
    requires c in w.computers && started == if i.state == Prepared then i.(state := Started) else i
    requires w.computers[c].request == Idle && !w.computers[c].attached && w.computers[c].intent == Some(i)
    requires !(i.takes && w.root == i.reviewed)
    ensures Connect(w, c) == Go(Set(w, c, w.computers[c].(intent := Some(started))), c, ConnectsTo(w.root, started))
  {
    hide PublishThen;
    assert started.Final() == i.Final() && started.Transition() == i.Transition();
    var w1 := Set(w, c, w.computers[c].(intent := Some(started)));
    assert Go(w1, c, Idle).computers == w1.computers;
  }

  /** A retry either publishes the transition over the reviewed root, or only
      moves its request on. */
  lemma ConnectDoes(w: World, c: Profile, i: Intent)
    requires c in w.computers
    requires w.computers[c].request == Idle && !w.computers[c].attached && w.computers[c].intent == Some(i)
    ensures var started := if i.state == Prepared then i.(state := Started) else i;
            var w1 := Set(w, c, w.computers[c].(intent := Some(started)));
            if i.takes && w.root == i.reviewed then
              Connect(w, c) == PublishThen(w1, c, Some(i.op), i.reviewed, i.Transition(), ConnectEnsure(false))
            else
              exists next :: ResumesAt(w.root, started, next) && Connect(w, c) == Go(w1, c, next)
  {
    var started := if i.state == Prepared then i.(state := Started) else i;
    if !(i.takes && w.root == i.reviewed) {
      var next := ConnectsTo(w.root, started);
      assert ResumesAt(w.root, started, next);
      ConnectGoesOn(w, c, i, started);
      hide Connect, PublishThen, ResumesAt, ConnectsTo;
    }
  }

  lemma ConnectKeeps(w: World, c: Profile)
    requires Inv(w) && c in w.computers
    ensures Inv(Connect(w, c))
  {
    hide Inv, PublishThen;
    var me := w.computers[c];
    if me.request != Idle || me.attached || me.intent.None? { return; }
    hide Connect;
    var i := me.intent.value;
    var started := if i.state == Prepared then i.(state := Started) else i;
    var w1 := Set(w, c, me.(intent := Some(started)));
    StartKeeps(w, c, i);
    ConnectDoes(w, c, i);
    if i.takes && w.root == i.reviewed {
      TransitionKeeps(w1, c);
    } else {
      var next :| ResumesAt(w.root, started, next) && Connect(w, c) == Go(w1, c, next);
      ResumeKeeps(w1, c, next);
    }
  }

  lemma ResumeKeeps(w: World, c: Profile, next: Request)
    requires Inv(w) && c in w.computers && w.computers[c].intent.Some?
    requires var i := w.computers[c].intent.value; i.state != Prepared && ResumesAt(w.root, i, next)
    ensures Inv(Go(w, c, next))
  {
    var m := w.computers[c].(request := next);
    assert w.log[|w.log| - 1].root == w.root;
    assert ComputerOk(w, c, m);
    Local(w, c, m);
  }

  /** The transition is published over the reviewed root only, so this takeover
      cannot have finished before. */
  lemma TransitionKeeps(w: World, c: Profile)
    requires Inv(w) && c in w.computers && w.computers[c].request == Idle
    requires w.computers[c].intent.Some? && w.computers[c].intent.value.takes
    requires w.computers[c].intent.value.state != Prepared
    requires w.root == w.computers[c].intent.value.reviewed
    ensures var i := w.computers[c].intent.value;
            Inv(PublishThen(w, c, Some(i.op), i.reviewed, i.Transition(), ConnectEnsure(false)))
  {
    var i := w.computers[c].intent.value;
    forall k | 0 <= k < |w.log| ensures !FinishedAt(w.log, i.op, c, k) {
      assert w.log[k].root.revision == w.log[0].root.revision + k;
      assert w.log[|w.log| - 1].root.revision == w.log[0].root.revision + |w.log| - 1;
      assert w.log[k].op == Some(i.op) ==> ConnectionStep(w.log, i, k);
    }
    var w' := PublishThen(w, c, Some(i.op), i.reviewed, i.Transition(), ConnectEnsure(false));
    if Change(w, w', c) {
      LogGrows(w, w', c);
      ConnectionPublication(w, w', c, i, w'.root);
    }
    PublishKeeps(w, c, Some(i.op), i.reviewed, i.Transition(), ConnectEnsure(false));
  }

  lemma FenceKeeps(w: World, c: Profile)
    requires Inv(w) && c in w.computers && w.computers[c].request == Idle
    requires w.computers[c].record == None && Stable(w.root) && w.root.owner == c
    ensures var root := w.root.(revision := w.root.revision + 1, fenced := true);
            Inv(Publish(w, c, None, w.root, root).0)
  {
    var root := w.root.(revision := w.root.revision + 1, fenced := true);
    var w' := PublishThen(w, c, None, w.root, root, Idle);
    assert w'.computers == w.computers;
    if Change(w, w', c) { OwnPublication(w, w', c); }
    PublishKeeps(w, c, None, w.root, root, Idle);
    assert w' == Publish(w, c, None, w.root, root).0;
  }

  lemma UnfenceKeeps(w: World, c: Profile)
    requires Inv(w) && c in w.computers && w.computers[c].request == Idle
    requires w.root.fenced && w.root.owner == c
    ensures Inv(Step(w, Unfence(c)))
  {
    var w' := Step(w, Unfence(c));
    assert w'.log == w.log + [Publication(c, None, w'.root)];
    assert PublishedOnce(w, w', c);
    OwnPublication(w, w', c);
    Preserved(w, w', c);
  }

  lemma MaintainKeeps(w: World, c: Profile)
    requires Inv(w) && c in w.computers && Stable(w.root) && w.root.owner == c
    requires w.computers[c].request == Idle
    ensures Inv(w.(nativeOwner := c))
  {
    assert Go(w, c, Idle).computers == w.computers;
    AlignKeeps(w, c, Idle);
  }

  /** A request that dies, a cancelled connection, a removed vault and a care
      save being admitted leave the protected root and Kopia alone. */
  lemma QuietKeeps(w: World, c: Profile, m: Computer)
    requires Inv(w) && c in w.computers
    requires var was := w.computers[c];
             || m == was.(request := Idle)
             || (was.request == Idle && m == was.(intent := None))
             || (was.request == Idle && m == was.(attached := false, record := None))
             || (Stable(w.root) && w.root.owner == c && m.request.CareSave?
                 && m == was.(request := CareSave(w.root, m.request.care)))
    ensures Inv(Set(w, c, m))
  {
    assert ComputerOk(w, c, w.computers[c]);
    assert ComputerOk(w, c, m);
    Local(w, c, m);
  }

  lemma StepKeeps(w: World, e: Event)
    requires Inv(w)
    ensures Inv(Step(w, e))
  {
    hide Inv, Advance, Begin, Reserve, Connect, Publish;
    if e.c in w.computers && Step(w, e) != w {
      var m := w.computers[e.c];
      match e
      case Post(c, reviewedOwner) => BeginKeeps(w, c, reviewedOwner);
      case Next(c) => AdvanceKeeps(w, c);
      case Lose(c) =>
        AdvanceKeeps(w, c);
        var w1 := Advance(w, c);
        QuietKeeps(w1, c, w1.computers[c].(request := Idle));
      case Die(c) => QuietKeeps(w, c, m.(request := Idle));
      case SaveCare(c, care) => QuietKeeps(w, c, m.(request := CareSave(w.root, care)));
      case Review(c, takes, care) => ReserveKeeps(w, c, takes, care);
      case Retry(c) => ConnectKeeps(w, c);
      case Cancel(c) => QuietKeeps(w, c, m.(intent := None));
      case Maintain(c) => MaintainKeeps(w, c);
      case Fence(c) => FenceKeeps(w, c);
      case Unfence(c) => UnfenceKeeps(w, c);
      case Remove(c) => QuietKeeps(w, c, m.(attached := false, record := None));
    }
  }

  lemma {:induction false} RunKeeps(w: World, events: seq<Event>)
    requires Initial(w)
    ensures Inv(Run(w, events))
  {
    if events == [] {
    } else {
      RunKeeps(w, events[..|events| - 1]);
      StepKeeps(Run(w, events[..|events| - 1]), events[|events| - 1]);
    }
  }
}
