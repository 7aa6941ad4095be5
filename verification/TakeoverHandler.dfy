/** The takeover request as the handler runs it: on the saved record, the root
    and Kopia, one call after the other. Any of its calls may be its last one. */
module TakeoverHandler {
  import opened Options
  import opened Takeover
  import opened TakeoverSafety
  import opened TakeoverResume

  /** The request has gone: what it saved and published stays. */
  function Stopped(w: World, c: Profile): (r: World)
    requires c in w.computers
    ensures c in r.computers
  {
    Go(w, c, Idle)
  }

  /** With `left` more calls that succeed, a request standing at `request` ends in
      the world `target`. */
  ghost predicate Stands(w: World, c: Profile, request: Request, left: nat, target: World) {
    && c in w.computers && w.computers[c].request == Idle
    && target == Stopped(Settle(Go(w, c, request), c, left), c)
  }

  lemma Moves(w: World, c: Profile, request: Request, left: nat, target: World, w': World, request': Request)
    requires Stands(w, c, request, left, target) && left > 0
    requires c in w'.computers && w'.computers[c].request == Idle
    requires Advance(Go(w, c, request), c) == Go(w', c, request')
    ensures Stands(w', c, request', left - 1, target)
  {
    hide Advance;
  }

  lemma Ends(w: World, c: Profile, request: Request, left: nat, target: World, w': World)
    requires Stands(w, c, request, left, target)
    requires c in w'.computers && w'.computers[c].request == Idle
    requires if left == 0 || request == Idle then w' == w
             else Advance(Go(w, c, request), c) == Go(w', c, Idle)
    ensures w' == target
  {
    hide Advance;
    assert Go(Go(w, c, request), c, Idle).computers == w.computers;
    assert Go(w', c, Idle).computers == w'.computers;
    if left > 0 {
      if request == Idle { IdleStays(Go(w, c, request), c, left); }
      else { IdleStays(Go(w', c, Idle), c, left - 1); }
    }
  }

  lemma PublishFrom(w: World, c: Profile, request: Request, op: Option<Operation>, expected: Root, root: Root, next: Request)
    requires c in w.computers
    ensures var (published, ok) := Publish(w, c, op, expected, root);
            PublishThen(Go(w, c, request), c, op, expected, root, next) == Go(published, c, if ok then next else Idle)
  {
    var (published, ok) := Publish(w, c, op, expected, root);
    assert Go(w, c, request).computers[c := w.computers[c].(request := if ok then next else Idle)]
        == w.computers[c := w.computers[c].(request := if ok then next else Idle)];
  }

  /** A publication that goes through moves the request on, a refused one ends it. */
  lemma PublishMoves(w: World, c: Profile, request: Request, left: nat, target: World,
                     op: Option<Operation>, expected: Root, root: Root, next: Request)
    requires Stands(w, c, request, left, target) && left > 0
    requires Advance(Go(w, c, request), c) == PublishThen(Go(w, c, request), c, op, expected, root, next)
    ensures var (published, ok) := Publish(w, c, op, expected, root);
            if !ok then published == target else Stands(published, c, next, left - 1, target)
  {
    hide Advance, PublishThen;
    PublishFrom(w, c, request, op, expected, root, next);
    var (published, ok) := Publish(w, c, op, expected, root);
    assert published.computers == w.computers;
    hide Publish;
    if ok { Moves(w, c, request, left, target, published, next); }
    else if request != Idle { Ends(w, c, request, left, target, published); }
    else { Moves(w, c, request, left, target, published, Idle); Ends(published, c, Idle, left - 1, target, published); }
  }

  // ----- One step at a time -------------------------------------------------

  lemma SavesState(w: World, c: Profile, left: nat, target: World, r: Record)
    requires Stands(w, c, AdvanceToPublished, left, target) && w.computers[c].record == Some(r)
    requires r.state != RecordPublished
    ensures if left == 0 then w == target
            else if r.state == RecordReviewed then
              Stands(WithRecord(w, c, Some(r.(state := RecordNative)), Idle), c, AdvanceToPublished, left - 1, target)
            else
              Stands(WithRecord(w, c, Some(r.(state := RecordPublished)), Idle), c, Request.Complete, left - 1, target)
  {
    if left == 0 {
      Ends(w, c, AdvanceToPublished, 0, target, w);
    } else if r.state == RecordReviewed {
      Moves(w, c, AdvanceToPublished, left, target, WithRecord(w, c, Some(r.(state := RecordNative)), Idle),
            AdvanceToPublished);
    } else {
      Moves(w, c, AdvanceToPublished, left, target, WithRecord(w, c, Some(r.(state := RecordPublished)), Idle),
            Request.Complete);
    }
  }

  lemma Completes(w: World, c: Profile, left: nat, target: World, r: Record)
    requires Stands(w, c, Request.Complete, left, target) && w.computers[c].record == Some(r)
    requires r.state == RecordPublished
    ensures target == if left == 0 then w else WithRecord(w, c, None, Idle)
  {
    Ends(w, c, Request.Complete, left, target, if left == 0 then w else WithRecord(w, c, None, Idle));
  }

  lemma Ensures(w: World, c: Profile, seen: Root, left: nat, target: World, r: Record)
    requires w.computers.Keys >= {c} && w.computers[c].record == Some(r)
    requires Stands(w, c, EnsureFinal(seen), left, target)
    ensures if left == 0 || !MutationAdmitted(w.root, r) then w == target
            else Stands(w.(nativeOwner := c), c, PublishFinal(seen, true), left - 1, target)
  {
    if left == 0 || !MutationAdmitted(w.root, r) { Ends(w, c, EnsureFinal(seen), left, target, w); }
    else { Moves(w, c, EnsureFinal(seen), left, target, w.(nativeOwner := c), PublishFinal(seen, true)); }
  }

  lemma Names(w: World, c: Profile, seen: Root, aligned: bool, left: nat, target: World, r: Record)
    requires w.computers.Keys >= {c} && w.computers[c].record == Some(r)
    requires Stands(w, c, PublishFinal(seen, aligned), left, target)
    ensures var (published, ok) := Publish(w, c, Some(r.op), seen, Owned(seen, c));
            if left == 0 then w == target
            else if !ok then published == target
            else Stands(published, c, AdvanceToPublished, left - 1, target)
  {
    if left == 0 { Ends(w, c, PublishFinal(seen, aligned), 0, target, w); }
    else {
      PublishMoves(w, c, PublishFinal(seen, aligned), left, target, Some(r.op), seen, Owned(seen, c), AdvanceToPublished);
    }
  }

  lemma RereadGoes(w: World, c: Profile, aligned: bool, r: Record)
    requires w.computers.Keys >= {c} && w.computers[c].record == Some(r) && w.computers[c].request == Idle
    ensures Advance(Go(w, c, Reread(aligned)), c) == Go(w, c,
              if !ValidRoot(w.root, Some(r)) then Idle
              else if w.root.owner == c && w.root.transfer.None? then AdvanceToPublished
              else if w.root.transfer.None? || w.root.owner != r.from then Idle
              else if w.kopia && !aligned then EnsureFinal(w.root)
              else PublishFinal(w.root, aligned))
  {
    hide ValidRoot, AdvanceConnection, PublishThen;
  }

  lemma Rereads(w: World, c: Profile, aligned: bool, left: nat, target: World, r: Record)
    requires w.computers.Keys >= {c} && w.computers[c].record == Some(r)
    requires Stands(w, c, Reread(aligned), left, target)
    ensures if left == 0 || !ValidRoot(w.root, Some(r)) then w == target
            else if w.root.owner == c && w.root.transfer.None? then Stands(w, c, AdvanceToPublished, left - 1, target)
            else if w.root.transfer.None? || w.root.owner != r.from then w == target
            else Stands(w, c, if w.kopia && !aligned then EnsureFinal(w.root) else PublishFinal(w.root, aligned),
                        left - 1, target)
  {
    RereadGoes(w, c, aligned, r);
    hide Advance, Go, ValidRoot;
    if left == 0 || !ValidRoot(w.root, Some(r)) {
      Ends(w, c, Reread(aligned), left, target, w);
    } else if w.root.owner == c && w.root.transfer.None? {
      Moves(w, c, Reread(aligned), left, target, w, AdvanceToPublished);
    } else if w.root.transfer.None? || w.root.owner != r.from {
      Ends(w, c, Reread(aligned), left, target, w);
    } else {
      Moves(w, c, Reread(aligned), left, target, w,
            if w.kopia && !aligned then EnsureFinal(w.root) else PublishFinal(w.root, aligned));
    }
  }

  lemma EnsuresReviewed(w: World, c: Profile, seen: Root, left: nat, target: World, r: Record)
    requires w.computers.Keys >= {c} && w.computers[c].record == Some(r)
    requires Stands(w, c, EnsureReviewed(seen), left, target)
    ensures if left == 0 || !MutationAdmitted(w.root, r) then w == target
            else Stands(w.(nativeOwner := c), c, PublishPhase(seen, true), left - 1, target)
  {
    if left == 0 || !MutationAdmitted(w.root, r) { Ends(w, c, EnsureReviewed(seen), left, target, w); }
    else { Moves(w, c, EnsureReviewed(seen), left, target, w.(nativeOwner := c), PublishPhase(seen, true)); }
  }

  lemma RecordsPhase(w: World, c: Profile, seen: Root, aligned: bool, left: nat, target: World, r: Record)
    requires w.computers.Keys >= {c} && w.computers[c].record == Some(r) && seen.transfer.Some?
    requires Stands(w, c, PublishPhase(seen, aligned), left, target)
    ensures var (published, ok) := Publish(w, c, Some(r.op), seen, Applied(seen));
            if left == 0 then w == target
            else if !ok then published == target
            else Stands(published, c, AdvanceToNative(aligned), left - 1, target)
  {
    if left == 0 { Ends(w, c, PublishPhase(seen, aligned), 0, target, w); }
    else {
      PublishMoves(w, c, PublishPhase(seen, aligned), left, target, Some(r.op), seen, Applied(seen),
                   AdvanceToNative(aligned));
    }
  }

  lemma SavesNative(w: World, c: Profile, aligned: bool, left: nat, target: World, r: Record)
    requires Stands(w, c, AdvanceToNative(aligned), left, target) && w.computers[c].record == Some(r)
    requires r.state == RecordReviewed
    ensures if left == 0 then w == target
            else Stands(WithRecord(w, c, Some(r.(state := RecordNative)), Idle), c, Reread(aligned), left - 1, target)
  {
    if left == 0 { Ends(w, c, AdvanceToNative(aligned), 0, target, w); }
    else {
      Moves(w, c, AdvanceToNative(aligned), left, target, WithRecord(w, c, Some(r.(state := RecordNative)), Idle),
            Reread(aligned));
    }
  }

  lemma Marks(w: World, c: Profile, seen: Root, left: nat, target: World, r: Record)
    requires w.computers.Keys >= {c} && w.computers[c].record == Some(r)
    requires Stands(w, c, PublishMarker(seen), left, target)
    ensures var (published, ok) := Publish(w, c, Some(r.op), seen, Marked(seen, r));
            if left == 0 then w == target
            else if !ok then published == target
            else Stands(published, c, AfterMarker(w.kopia, Marked(seen, r)), left - 1, target)
  {
    if left == 0 { Ends(w, c, PublishMarker(seen), 0, target, w); }
    else {
      PublishMoves(w, c, PublishMarker(seen), left, target, Some(r.op), seen, Marked(seen, r),
                   AfterMarker(w.kopia, Marked(seen, r)));
    }
  }

  lemma Realigns(w: World, c: Profile, left: nat, target: World, r: Record)
    requires w.computers.Keys >= {c} && w.computers[c].record == Some(r)
    requires Stands(w, c, AlignCompleted(w.root.care), left, target)
    ensures if left == 0 || !Stable(w.root) || w.root.owner != c then w == target
            else Stands(w.(nativeOwner := c), c,
                        if r.state == RecordPublished then Request.Complete else AdvanceToPublished, left - 1, target)
  {
    var q := AlignCompleted(w.root.care);
    if left == 0 || !Stable(w.root) || w.root.owner != c { Ends(w, c, q, left, target, w); }
    else {
      Moves(w, c, q, left, target, w.(nativeOwner := c),
            if r.state == RecordPublished then Request.Complete else AdvanceToPublished);
    }
  }

  /** The record the request goes on with: the saved one, or a new one. */
  function Taken(w: World, c: Profile, owner: Profile): (r: Record)
    requires c in w.computers
  {
    if w.computers[c].record.Some? then w.computers[c].record.value
    else Record(|w.issued|, owner, c, RecordReviewed)
  }

  function Recorded(w: World, c: Profile, owner: Profile): (r: World)
    requires c in w.computers
  {
    if w.computers[c].record.Some? then w
    else WithRecord(w.(issued := w.issued + [c]), c, Some(Taken(w, c, owner)), Idle)
  }

  lemma DecidedGoes(w: World, c: Profile, seen: Root)
    requires c in w.computers && w.computers[c].request == Idle
    ensures var r := Taken(w, c, seen.owner);
      Advance(Go(w, c, Decided(seen)), c)
      == if r.from != seen.owner || r.to != c then Go(w, c, Idle)
         else Go(Recorded(w, c, seen.owner), c, Resume(w.kopia, seen, r))
  {
    hide Resume, AdvanceTakeover, AdvanceConnection, PublishThen;
    var r := Taken(w, c, seen.owner);
    if w.computers[c].record.None? {
      assert Advance(Go(w, c, Decided(seen)), c).computers
          == Go(Recorded(w, c, seen.owner), c, Resume(w.kopia, seen, r)).computers;
    }
  }

  lemma Decides(w: World, c: Profile, seen: Root, left: nat, target: World)
    requires c in w.computers && Stands(w, c, Decided(seen), left, target)
    ensures var r := Taken(w, c, seen.owner);
            if left == 0 || r.from != seen.owner || r.to != c then w == target
            else Stands(Recorded(w, c, seen.owner), c, Resume(w.kopia, seen, r), left - 1, target)
  {
    DecidedGoes(w, c, seen);
    hide Advance, Resume;
    var r := Taken(w, c, seen.owner);
    if left == 0 || r.from != seen.owner || r.to != c { Ends(w, c, Decided(seen), left, target, w); }
    else { Moves(w, c, Decided(seen), left, target, Recorded(w, c, seen.owner), Resume(w.kopia, seen, r)); }
  }

  lemma StopsHere(w: World, c: Profile, n: nat)
    requires c in w.computers && w.computers[c].request == Idle
    ensures Stopped(Settle(w, c, n), c) == w
  {
    IdleStays(w, c, n);
    assert Go(w, c, Idle).computers == w.computers;
  }

  lemma Starts(w: World, c: Profile, reviewedOwner: Profile, left: nat, target: World)
    requires c in w.computers && w.computers[c].request == Idle
    requires target == Stopped(Settle(Begin(w, c, reviewedOwner), c, left), c)
    ensures var me := w.computers[c];
            if !me.attached || !ValidRoot(w.root, me.record) then w == target
            else if w.root.owner == c then
              if me.record.None? || me.record.value.to != c then w == target
              else Stands(w, c, if w.kopia then AlignCompleted(w.root.care)
                                else if me.record.value.state == RecordPublished then Request.Complete
                                else AdvanceToPublished, left, target)
            else if w.root.owner != reviewedOwner then w == target
            else Stands(w, c, Decided(w.root), left, target)
  {
    hide Advance, Settle, ValidRoot;
    if Begin(w, c, reviewedOwner) == w { StopsHere(w, c, left); }
  }

  /** A takeover request, not a care save or a connection. */
  predicate OfTakeover(request: Request) {
    match request
    case CareSave(_, _) => false
    case ConnectEnsure(_) => false
    case ConnectFinal => false
    case ConnectMark => false
    case ConnectAttach => false
    case _ => true
  }

  lemma PublishKeepsCare(w: World, c: Profile, op: Option<Operation>, expected: Root, root: Root, next: Request)
    requires c in w.computers && root.care == expected.care && OfTakeover(next)
    ensures var v := PublishThen(w, c, op, expected, root, next);
      v.root.care == w.root.care && OfTakeover(v.computers[c].request)
  {}

  lemma TakeoverKeepsCare(w: World, c: Profile)
    requires c in w.computers && w.computers[c].record.Some? && OfTakeover(w.computers[c].request)
    ensures var v := AdvanceTakeover(w, c); v.root.care == w.root.care && OfTakeover(v.computers[c].request)
  {
    hide ValidRoot, MutationAdmitted, PublishThen, Stable;
    var r := w.computers[c].record.value;
    match w.computers[c].request
    case PublishMarker(seen) =>
      PublishKeepsCare(w, c, Some(r.op), seen, Marked(seen, r), AfterMarker(w.kopia, Marked(seen, r)));
    case PublishPhase(seen, aligned) =>
      if seen.transfer.Some? { PublishKeepsCare(w, c, Some(r.op), seen, Applied(seen), AdvanceToNative(aligned)); }
    case PublishFinal(seen, _) => PublishKeepsCare(w, c, Some(r.op), seen, Owned(seen, c), AdvanceToPublished);
    case AdvanceToPublished =>
    case _ =>
  }

  lemma AdvanceKeepsCare(w: World, c: Profile)
    requires c in w.computers && OfTakeover(w.computers[c].request)
    ensures var v := Advance(w, c); v.root.care == w.root.care && OfTakeover(v.computers[c].request)
  {
    if w.computers[c].record.Some? { TakeoverKeepsCare(w, c); }
    hide AdvanceTakeover, AdvanceConnection;
  }

  /** However far a takeover request comes, the vault's care stays. */
  lemma {:induction false} SettleKeepsCare(w: World, c: Profile, n: nat)
    requires c in w.computers && OfTakeover(w.computers[c].request)
    ensures Settle(w, c, n).root.care == w.root.care
    decreases n
  {
    if n > 0 {
      hide Advance, OfTakeover;
      AdvanceKeepsCare(w, c);
      SettleKeepsCare(Advance(w, c), c, n - 1);
    }
  }

  class Vault {
    var world: World

    constructor (w: World)
      ensures world == w
    {
      world := w;
    }

    /** A publication of the root; whether it took effect. */
    method PublishRoot(c: Profile, op: Operation, expected: Root, root: Root) returns (ok: bool)
      modifies this
      ensures (world, ok) == Publish(old(world), c, Some(op), expected, root)
      ensures world.computers == old(world.computers) && world.kopia == old(world.kopia)
      ensures world.root == old(world.root) || (ok && world.root == root && old(world.root) == expected)
    {
      if world.root.fenced { return false; }
      if world.root == root { return true; }
      if world.root != expected { return false; }
      world := world.(root := root, log := world.log + [Publication(c, Some(op), root)]);
      return true;
    }

    method SaveRecord(c: Profile, record: Option<Record>)
      requires c in world.computers && world.computers[c].request == Idle
      modifies this
      ensures world == WithRecord(old(world), c, record, Idle)
    {
      world := world.(computers := world.computers[c := world.computers[c].(record := record)]);
    }

    /** The record's last states, once the root names this profile. */
    method Complete(c: Profile, left: nat, ghost target: World)
      requires c in world.computers && world.computers[c].request == Idle && world.computers[c].record.Some?
      requires Stands(world, c, if world.computers[c].record.value.state == RecordPublished then Request.Complete
                                else AdvanceToPublished, left, target)
      modifies this
      ensures world == target && world.root == old(world.root)
    {
      hide Stands;
      var calls, record := left, world.computers[c].record.value;
      if record.state == RecordReviewed {
        SavesState(world, c, calls, target, record);
        if calls == 0 { return; }
        record := record.(state := RecordNative);
        SaveRecord(c, Some(record));
        calls := calls - 1;
      }
      if record.state == RecordNative {
        SavesState(world, c, calls, target, record);
        if calls == 0 { return; }
        record := record.(state := RecordPublished);
        SaveRecord(c, Some(record));
        calls := calls - 1;
      }
      Completes(world, c, calls, target, record);
      if calls == 0 { return; }
      SaveRecord(c, None);
    }

    /** The native owner is ensured once in this request, then the root names it. */
    method NameOwner(c: Profile, aligned: bool, left: nat, ghost target: World)
      requires c in world.computers && world.computers[c].request == Idle && world.computers[c].record.Some?
      requires world.computers[c].record.value.state == RecordNative
      requires Stands(world, c, if world.kopia && !aligned then EnsureFinal(world.root)
                                else PublishFinal(world.root, aligned), left, target)
      modifies this
      ensures world == target && world.root.care == old(world.root.care)
    {
      hide Stands, Publish, MutationAdmitted;
      var calls, record, ensured := left, world.computers[c].record.value, aligned;
      var seen := world.root;
      if world.kopia && !aligned {
        Ensures(world, c, seen, calls, target, record);
        if calls == 0 || !MutationAdmitted(world.root, record) { return; }
        world := world.(nativeOwner := c);
        ensured := true;
        calls := calls - 1;
      }
      Names(world, c, seen, ensured, calls, target, record);
      if calls == 0 { return; }
      var ok := PublishRoot(c, record.op, seen, seen.(revision := seen.revision + 1, owner := c, transfer := None));
      if ok {
        Complete(c, calls - 1, target);
      }
    }

    /** From the saved native phase: the root is read again and handed over. */
    method HandOver(c: Profile, aligned: bool, left: nat, ghost target: World)
      requires c in world.computers && world.computers[c].request == Idle && world.computers[c].record.Some?
      requires world.computers[c].record.value.state == RecordNative
      requires Stands(world, c, Reread(aligned), left, target)
      modifies this
      ensures world == target
    {
      hide Stands, ValidRoot;
      var record, root := world.computers[c].record.value, world.root;
      Rereads(world, c, aligned, left, target, record);
      if left == 0 || !ValidRoot(root, Some(record)) { return; }
      if root.owner == c && root.transfer.None? {
        Complete(c, left - 1, target);
      } else if root.transfer.Some? && root.owner == record.from {
        NameOwner(c, aligned, left - 1, target);
      }
    }

    /** With the marker on the root: Kopia's owner first, then the root's phase,
        then the saved one. */
    method ApplyNative(c: Profile, seen: Root, left: nat, ghost target: World)
      requires c in world.computers && world.computers[c].request == Idle && world.computers[c].record.Some?
      requires world.computers[c].record.value.state == RecordReviewed && seen.transfer.Some?
      requires Stands(world, c, AfterMarker(world.kopia, seen), left, target)
      modifies this
      ensures world == target
    {
      hide Stands, Publish, MutationAdmitted;
      var calls, record, aligned := left, world.computers[c].record.value, false;
      if seen.transfer.value.phase == Reviewed {
        if world.kopia {
          EnsuresReviewed(world, c, seen, calls, target, record);
          if calls == 0 || !MutationAdmitted(world.root, record) { return; }
          world := world.(nativeOwner := c);
          aligned := true;
          calls := calls - 1;
        }
        RecordsPhase(world, c, seen, aligned, calls, target, record);
        if calls == 0 { return; }
        var next := seen.(revision := seen.revision + 1, transfer := Some(seen.transfer.value.(phase := NativeApplied)));
        var ok := PublishRoot(c, record.op, seen, next);
        if !ok { return; }
        calls := calls - 1;
      }
      SavesNative(world, c, aligned, calls, target, record);
      if calls == 0 { return; }
      SaveRecord(c, Some(record.(state := RecordNative)));
      HandOver(c, aligned, calls - 1, target);
    }

    method TakeOver(c: Profile, seen: Root, left: nat, ghost target: World)
      requires c in world.computers && world.computers[c].request == Idle && world.computers[c].record.Some?
      requires Stands(world, c, Resume(world.kopia, seen, world.computers[c].record.value), left, target)
      modifies this
      ensures world == target
    {
      hide Stands, Publish;
      var record := world.computers[c].record.value;
      match record.state {
        case RecordReviewed =>
          if seen.transfer.Some? {
            ApplyNative(c, seen, left, target);
          } else {
            Marks(world, c, seen, left, target, record);
            if left == 0 { return; }
            var marked := Marked(seen, record);
            var ok := PublishRoot(c, record.op, seen, marked);
            if ok { ApplyNative(c, marked, left - 1, target); }
          }
        case RecordNative => HandOver(c, false, left, target);
        case RecordPublished => Complete(c, left, target);
      }
    }

    /** The root already names this profile: Kopia is aligned, the record completed. */
    method FinishOwned(c: Profile, left: nat, ghost target: World)
      requires c in world.computers && world.computers[c].request == Idle && world.computers[c].record.Some?
      requires world.root.owner == c
      requires Stands(world, c, if world.kopia then AlignCompleted(world.root.care)
                                else if world.computers[c].record.value.state == RecordPublished then Request.Complete
                                else AdvanceToPublished, left, target)
      modifies this
      ensures world == target
    {
      hide Stands;
      var calls := left;
      if world.kopia {
        Realigns(world, c, calls, target, world.computers[c].record.value);
        if calls == 0 || !Stable(world.root) { return; }
        world := world.(nativeOwner := c);
        calls := calls - 1;
      }
      Complete(c, calls, target);
    }

    /** The reviewed owner is still the owner: the saved record, or a new one, goes on. */
    method Decide(c: Profile, left: nat, ghost target: World)
      requires c in world.computers && world.computers[c].request == Idle
      requires Stands(world, c, Decided(world.root), left, target)
      modifies this
      ensures world == target
    {
      hide Stands, Resume;
      var record, root := world.computers[c].record, world.root;
      Decides(world, c, root, left, target);
      if left == 0 { return; }
      if record.None? {
        record := Some(Record(|world.issued|, root.owner, c, RecordReviewed));
        world := world.(issued := world.issued + [c]);
        SaveRecord(c, record);
      }
      if record.value.from == root.owner && record.value.to == c {
        TakeOver(c, root, left - 1, target);
      }
    }

    /** The whole request; its first `calls` calls succeed and it dies at the next. */
    method Post(c: Profile, reviewedOwner: Profile, calls: nat)
      requires c in world.computers && world.computers[c].request == Idle
      modifies this
      ensures world == Stopped(Settle(Begin(old(world), c, reviewedOwner), c, calls), c)
      ensures world.root.care == old(world.root.care)
    {
      SettleKeepsCare(Begin(world, c, reviewedOwner), c, calls);
      ghost var target := Stopped(Settle(Begin(world, c, reviewedOwner), c, calls), c);
      hide Stands, ValidRoot, Settle, Begin;
      var me, root := world.computers[c], world.root;
      Starts(world, c, reviewedOwner, calls, target);
      if !me.attached || !ValidRoot(root, me.record) { return; }
      if root.owner == c {
        if me.record.None? || me.record.value.to != c { return; }
        FinishOwned(c, calls, target);
      } else if root.owner == reviewedOwner {
        Decide(c, calls, target);
      }
    }
  }
}
