/** The promises of the ownership protocol, for every run. */
module TakeoverPromises {
  import opened Options
  import opened Takeover
  import opened TakeoverSafety

  /** From the publication that installs a marker until the one that clears it,
      only the marker's own takeover publishes, and it publishes at most twice.
      Every publication raises the revision by one, and the owner changes only to
      the one the marker names. */
  ghost predicate Exclusive(w: World, k: nat)
    requires 0 < k < |w.log|
  {
    var prev, next := w.log[k - 1].root, w.log[k];
    && next.root.revision == prev.revision + 1
    && (next.root.owner != prev.owner ==> prev.transfer.Some? && prev.transfer.value.to == next.root.owner)
    && (prev.transfer.Some? ==>
          var t := prev.transfer.value;
          && next.publisher == t.to && next.op == Some(t.op) && IssuedTo(w.issued, t.op, t.to)
          && (next.root.transfer.Some? ==>
                && t.phase == Reviewed && next.root.transfer == Some(t.(phase := NativeApplied))
                && (k + 1 < |w.log| ==>
                      w.log[k + 1].root.transfer == None && w.log[k + 1].root.owner == t.to)))
  }

  lemma LogIsExclusive(w: World, k: nat)
    requires LogOk(w) && 0 < k < |w.log|
    ensures Exclusive(w, k)
  {
    assert Follows(w.log[k - 1].root, w.log[k]);
    if k + 1 < |w.log| { assert Follows(w.log[k].root, w.log[k + 1]); }
  }

  lemma MarkerExcludesOthers(w: World, events: seq<Event>)
    requires Initial(w)
    ensures forall k :: 0 < k < |Run(w, events).log| ==> Exclusive(Run(w, events), k)
  {
    RunKeeps(w, events);
    forall k | 0 < k < |Run(w, events).log| ensures Exclusive(Run(w, events), k) {
      hide Exclusive;
      LogIsExclusive(Run(w, events), k);
    }
  }

  /** Which step of a request can move the root, and from which root. */
  lemma AdvanceMovesRoot(w: World, c: Profile)
    requires c in w.computers && Advance(w, c).root != w.root
    ensures var m := w.computers[c];
            var root := Advance(w, c).root;
            && !w.root.fenced
            && match m.request {
                 case PublishMarker(seen) =>
                   m.record.Some? && w.root == seen && root == Marked(seen, m.record.value)
                 case PublishPhase(seen, _) => m.record.Some? && w.root == seen && root.owner == seen.owner
                 case PublishFinal(seen, _) => m.record.Some? && w.root == seen && root == Owned(seen, c)
                 case CareSave(seen, _) => w.root == seen && root.owner == seen.owner
                 case ConnectFinal =>
                   && m.intent.Some? && root == m.intent.value.Final()
                   && w.root == if m.intent.value.takes then m.intent.value.Transition() else m.intent.value.reviewed
                 case _ => false
               }
    ensures Advance(w, c).nativeOwner == w.nativeOwner
  {
  }

  /** The root names a new owner only through the final publication of a request
      that ensured the native owner itself. */
  lemma NewOwnerIsEnsuredFirst(w: World, e: Event)
    requires Inv(w)
    ensures Step(w, e).root.owner != w.root.owner ==>
      && e.c in w.computers && (e.Next? || e.Lose?) && Step(w, e).root.owner == e.c
      && (w.kopia ==> w.nativeOwner == e.c && Step(w, e).nativeOwner == e.c)
      && var q := w.computers[e.c].request;
         q.ConnectFinal? || (q.PublishFinal? && q.seen == w.root && (w.kopia ==> q.aligned))
  {
    hide Advance, Inv;
    if Step(w, e).root.owner != w.root.owner {
      InvParts(w, e.c);
      assert e.Next? || e.Lose?;
      AdvanceMovesRoot(w, e.c);
    }
  }

  lemma AdvanceDropsRecord(w: World, c: Profile)
    requires c in w.computers && w.computers[c].record.Some? && Advance(w, c).computers[c].record == None
    ensures w.computers[c].request == Complete && w.computers[c].record.value.state == RecordPublished
  {
  }

  /** A takeover is recorded as completed only when a root naming its profile as
      owner was published for it. */
  lemma CompletedMeansPublished(w: World, e: Event, r: Record)
    requires Inv(w) && e.c in w.computers && w.computers[e.c].record == Some(r) && !e.Remove?
    ensures Step(w, e).computers[e.c].record == None ==> r.state == RecordPublished && Finished(w.log, r.op, e.c)
  {
    hide Advance, Inv;
    if Step(w, e).computers[e.c].record == None {
      InvParts(w, e.c);
      assert e.Next? || e.Lose?;
      AdvanceDropsRecord(w, e.c);
    }
  }

  /** The saved record and the root always form an admitted pair. */
  lemma RecordMatchesRoot(w: World, events: seq<Event>, c: Profile)
    requires Initial(w) && c in Run(w, events).computers && Run(w, events).computers[c].record.Some?
    ensures var v := Run(w, events);
            var r := v.computers[c].record.value;
            && r.to == c && r.from != c
            && (v.root.transfer.Some? && v.root.transfer.value.op == r.op ==>
                  ValidRoot(v.root, Some(r)) && r.state != RecordPublished && v.root.owner == r.from)
            && (v.root.owner == c ==> Finished(v.log, r.op, c))
            && (r.state == RecordReviewed ==> v.root.owner != c && !Finished(v.log, r.op, c))
            && (r.state == RecordNative && !Finished(v.log, r.op, c) ==>
                  OwnMarker(v.root, r) && v.root.transfer.value.phase == NativeApplied)
            && (r.state == RecordPublished ==> Finished(v.log, r.op, c))
  {
    RunKeeps(w, events);
    assert ComputerOk(Run(w, events), c, Run(w, events).computers[c]);
  }

  /** Once a takeover has named its owner, the root goes on naming it for as long
      as no other takeover puts its marker there. */
  lemma {:induction false} OwnerStays(w: World, op: Operation, c: Profile, k: nat, last: nat)
    requires LogOk(w) && k <= last < |w.log| && FinishedAt(w.log, op, c, k)
    requires forall j :: k < j <= last ==> w.log[j].root.transfer == None
    ensures w.log[last].root.owner == c
  {
    if k < last {
      OwnerStays(w, op, c, k, last - 1);
      assert Follows(w.log[last - 1].root, w.log[last]);
    }
  }

  // ----- Owner-taking connections -------------------------------------------

  lemma ConnectionRootsDiffer(i: Intent)
    ensures i.reviewed != i.Final() && i.reviewed != i.Transition()
    ensures i.takes ==> i.Transition() != i.Final()
  {
    assert i.Transition().revision == i.reviewed.revision + 1;
  }

  /** A retry goes on exactly from the reviewed root, its own transition or its
      own final root, and refuses every other root. */
  lemma RetryRecognisesItsRoots(w: World, c: Profile)
    requires Inv(w) && c in w.computers
    requires var m := w.computers[c]; m.request == Idle && m.intent.Some? && m.intent.value.takes
    ensures var i := w.computers[c].intent.value;
            var w' := Step(w, Retry(c));
            && (w'.computers[c].request != Idle <==> w.root in {i.reviewed, i.Transition(), i.Final()})
            && (w.root == i.reviewed ==> w'.root == i.Transition() && w'.computers[c].request == ConnectEnsure(false))
            && (w.root == i.Transition() ==> w'.root == w.root && w'.computers[c].request == ConnectEnsure(false))
            && (w.root == i.Final() ==> w'.root == w.root && w'.computers[c].request == ConnectEnsure(true))
            && (w'.root != w.root ==> w.root == i.reviewed && w'.root == i.Transition())
            && w'.computers[c].intent.Some? && w'.computers[c].intent.value.state != Prepared
  {
    assert ComputerOk(w, c, w.computers[c]);
    ConnectionRootsDiffer(w.computers[c].intent.value);
  }

  /** A connection publishes each of its roots at most once, in order, and no
      other; while it is only prepared it has published nothing. */
  lemma ConnectionSequence(w: World, events: seq<Event>, c: Profile, j: nat, k: nat)
    requires Initial(w) && c in Run(w, events).computers && Run(w, events).computers[c].intent.Some?
    requires var v := Run(w, events);
             j <= k < |v.log| && v.log[j].op == v.log[k].op == Some(v.computers[c].intent.value.op)
    ensures var v := Run(w, events);
            var i := v.computers[c].intent.value;
            && i.state != Prepared && v.log[j].publisher == c && j > 0
            && (j < k ==> i.takes && k == j + 1 && v.log[j].root == i.Transition() && v.log[k].root == i.Final())
            && (j == k && i.takes && v.log[j].root != i.Transition() ==>
                  v.log[j].root == i.Final() && v.log[j - 1].root == i.Transition())
            && (!i.takes ==> v.log[j].root == i.Final() && v.log[j - 1].root == i.reviewed)
  {
    RunKeeps(w, events);
    var v := Run(w, events);
    assert ComputerOk(v, c, v.computers[c]);
    var i := v.computers[c].intent.value;
    ConnectionRootsDiffer(i);
    assert ConnectionStep(v.log, i, j) && ConnectionStep(v.log, i, k);
    assert v.log[j].root.revision == v.log[0].root.revision + j;
    assert v.log[k].root.revision == v.log[0].root.revision + k;
  }

  /** Cancelling a prepared connection strands nothing: it published no root and
      its marker is not on the current one. */
  lemma CancelStrandsNothing(w: World, c: Profile)
    requires Inv(w) && c in w.computers && w.computers[c].intent.Some?
    requires Step(w, Cancel(c)).computers[c].intent == None
    ensures var op := w.computers[c].intent.value.op;
            && (forall k :: 0 <= k < |w.log| ==> w.log[k].op != Some(op))
            && (w.root.transfer.Some? ==> w.root.transfer.value.op != op)
            && Step(w, Cancel(c)).root == w.root
  {
    assert ComputerOk(w, c, w.computers[c]);
    if w.root.transfer.Some? {
      var last := |w.log| - 1;
      if last > 0 { assert Follows(w.log[last - 1].root, w.log[last]); }
    }
  }

  /** A connection attaches the vault only after its final root was published. */
  lemma AttachedAfterFinal(w: World, e: Event)
    requires Inv(w) && e.c in w.computers
    requires !w.computers[e.c].attached && Step(w, e).computers[e.c].attached
    ensures w.computers[e.c].intent.Some?
    ensures Published(w.log, w.computers[e.c].intent.value.Final())
  {
    assert ComputerOk(w, e.c, w.computers[e.c]);
    assert w.computers[e.c].request == ConnectAttach;
  }

  // ----- A known corner: removing the vault in the middle -------------------

  ghost predicate Forgotten(w: World, d: Profile, op: Operation)
    requires d in w.computers
  {
    var m := w.computers[d];
    && (m.record.Some? ==> m.record.value.op != op)
    && (m.intent.Some? ==> m.intent.value.op != op)
  }

  /** The computer whose marker is on the root has forgotten it. */
  ghost predicate Stranded(w: World) {
    && w.root.transfer.Some?
    && var t := w.root.transfer.value;
       t.to in w.computers ==> Forgotten(w, t.to, t.op)
  }

  /** Removing the vault is admitted while its takeover is unfinished. */
  lemma RemovalStrands(w: World, c: Profile)
    requires Inv(w) && c in w.computers && w.computers[c].request == Idle
    requires w.root.transfer.Some? && w.root.transfer.value.to == c && w.computers[c].attached
    ensures Stranded(Step(w, Remove(c)))
  {
    assert ComputerOk(w, c, w.computers[c]);
  }

  lemma StrandedRootStays(w: World, c: Profile)
    requires Inv(w) && Stranded(w) && c in w.computers
    ensures Advance(w, c).root == w.root
  {
    hide Advance, Inv;
    InvParts(w, c);
    if Advance(w, c).root != w.root { AdvanceMovesRoot(w, c); }
  }

  lemma TakeoverForgets(w: World, c: Profile, d: Profile, op: Operation)
    requires c in w.computers && d in w.computers && w.computers[c].record.Some? && Forgotten(w, d, op)
    ensures Forgotten(AdvanceTakeover(w, c), d, op)
  {
    if d != c { TakeoverLeaves(w, c, d); }
    hide AdvanceTakeover;
  }

  lemma ConnectionForgets(w: World, c: Profile, d: Profile, op: Operation)
    requires c in w.computers && d in w.computers && Forgotten(w, d, op)
    ensures Forgotten(AdvanceConnection(w, c), d, op)
  {
    hide PublishThen;
  }

  /** A computer that has forgotten an operation never saves it again. */
  lemma StaysForgotten(w: World, c: Profile, d: Profile, op: Operation)
    requires c in w.computers && d in w.computers && op < |w.issued| && Forgotten(w, d, op)
    ensures Forgotten(Advance(w, c), d, op)
  {
    hide AdvanceTakeover, AdvanceConnection, PublishThen, Resume;
    if w.computers[c].record.Some? { TakeoverForgets(w, c, d, op); }
    ConnectionForgets(w, c, d, op);
  }

  lemma AdvanceKeepsStranded(w: World, c: Profile)
    requires Inv(w) && Stranded(w) && c in w.computers
    ensures Advance(w, c).root == w.root && Stranded(Advance(w, c))
  {
    hide Advance, Inv;
    InvParts(w, c);
    StrandedRootStays(w, c);
    var t := w.root.transfer.value;
    if t.to in w.computers { StaysForgotten(w, c, t.to, t.op); }
  }

  /** From then on no computer can publish a root of this vault again. */
  lemma StrandedForever(w: World, e: Event)
    requires Inv(w) && Stranded(w)
    ensures Step(w, e).root == w.root && Stranded(Step(w, e))
  {
    hide Advance, Inv;
    if e.c in w.computers {
      InvParts(w, e.c);
      AdvanceKeepsStranded(w, e.c);
    }
  }
}
