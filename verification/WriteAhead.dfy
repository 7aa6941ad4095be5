/** Work that may stop anywhere: the durable state is written before the first
    effect outside the database, so a state that still says prepared means that
    nothing has happened. */
module WriteAhead {
  import opened Options

  // ----- Finishing an existing-vault connection -----------------------------

  datatype State = Prepared | PublicationStarted | AttachmentPending

  /** Which of the two or three roots of the connection is current. */
  datatype RootStage = Reviewed | Transition | Final

  datatype Effect = ProfileEffect | TransitionEffect | ClientEffect | OwnerEffect | FinalEffect | RcloneEffect

  /** Kopia's maintenance owner is made this computer, by whoever takes the vault or its
      owner's profile over and by an import; any other connection only verifies it. */
  datatype Native = NoKopia | Verifies | Aligns

  /** What the saved review calls for; an import creates the root. */
  datatype Plan = Plan(publishProfile: bool, takesOwner: bool, creates: bool, native: Native, publishRoot: bool,
                       signIn: bool)

  datatype Outside = Outside(profile: bool, root: RootStage, client: bool, owner: bool, rclone: bool)

  const UNTOUCHED := Outside(false, Reviewed, false, false, false)

  predicate Consistent(plan: Plan) {
    && (plan.takesOwner ==> plan.publishRoot && !plan.creates && plan.native != Verifies)
    && (plan.creates ==> plan.publishRoot && plan.publishProfile && plan.native != Verifies)
  }

  /** What the review calls for on Kopia has happened. */
  predicate Configured(plan: Plan, outside: Outside) {
    (plan.native != NoKopia ==> outside.client) && (plan.native == Aligns ==> outside.owner)
  }

  /** Everything the review calls for has happened. */
  predicate Complete(plan: Plan, outside: Outside) {
    && (plan.publishProfile ==> outside.profile) && Configured(plan, outside)
    && (plan.publishRoot ==> outside.root == Final) && (plan.signIn ==> outside.rclone)
  }

  /** Nothing happened that the review does not call for. */
  predicate WithinPlan(plan: Plan, outside: Outside) {
    && (outside.profile ==> plan.publishProfile) && (outside.rclone ==> plan.signIn)
    && (outside.client ==> plan.native != NoKopia) && (outside.owner ==> plan.native == Aligns && outside.client)
    && (outside.root == Transition ==> plan.takesOwner) && (outside.root == Final ==> plan.publishRoot)
    // The final root comes after the profile, and after Kopia named its owner.
    && (outside.root != Reviewed && plan.publishProfile ==> outside.profile)
    && (outside.root == Final ==> Configured(plan, outside))
  }

  /** The calls of the longest attempt. */
  const CALLS: nat := 8

  /** What other computers do before one attempt, and how far it comes. */
  datatype Round = Round(profile: bool, root: bool, owner: bool, calls: nat, session: bool)

  predicate Quiet(rounds: seq<Round>) {
    forall n :: 0 <= n < |rounds| ==> !rounds[n].profile && !rounds[n].root && !rounds[n].owner
  }

  class Connection {
    const plan: Plan
    var state: State
    var outside: Outside
    var attached: bool
    var cancelled: bool
    /** Another computer has published over the profile, or over the root, that this
        connection reviewed or published; Kopia's owner is not the one its review names.
        `outside` is what this connection did. */
    var profileMoved: bool
    var rootMoved: bool
    var ownerMoved: bool
    /** Every effect outside the database, with the durable state it found. */
    ghost var journal: seq<(Effect, State)>

    ghost predicate Valid()
      reads this
    {
      && Consistent(plan) && WithinPlan(plan, outside)
      && (state == Prepared ==> outside == UNTOUCHED && journal == [])
      && (state == AttachmentPending ==> Complete(plan, outside))
      && (attached ==> Complete(plan, outside) && state != PublicationStarted)
      && (forall e :: e in journal ==> e.1 != Prepared)
      && !(attached && cancelled) && (cancelled ==> outside == UNTOUCHED && journal == [])
      // While its marker is on the root, no other computer publishes one.
      && (outside.root == Transition ==> !rootMoved)
    }

    constructor (plan: Plan)
      requires Consistent(plan)
      ensures Valid() && state == Prepared && !attached && !cancelled && this.plan == plan
      ensures !profileMoved && !rootMoved && !ownerMoved
    {
      this.plan, profileMoved, rootMoved, ownerMoved := plan, false, false, false;
      state, outside, attached, cancelled, journal := Prepared, UNTOUCHED, false, false, [];
    }

    /** The calls of an attempt before its last two: the profile and the marker; Kopia's
        client and owner; the final root, unless it was published; the configuration. */
    function AnnounceCalls(): nat
      reads this
    {
      (if plan.publishProfile && !outside.profile then 1 else 0) + (if plan.takesOwner then 1 else 0)
    }

    /** The final root still has to be published. */
    predicate NeedsRoot(resumed: bool)
      reads this
    {
      plan.publishRoot && !(plan.takesOwner && outside.root == Final) && !(resumed && state == AttachmentPending)
    }

    function PublishCalls(resumed: bool): nat
      reads this
    {
      (if plan.native == NoKopia then 0 else 2) + (if NeedsRoot(resumed) then 1 else 0)
    }

    function OutsideCalls(session: bool, resumed: bool): nat
      reads this
    {
      AnnounceCalls() + PublishCalls(resumed) + (if plan.signIn && session then 1 else 0)
    }

    /** What another computer does between two attempts. A profile takeover of the vault
        owner's profile changes Kopia's owner without moving the root. */
    method Others(profile: bool, root: bool, owner: bool)
      requires Valid()
      modifies this`profileMoved, this`rootMoved, this`ownerMoved
      ensures Valid() && profileMoved == (old(profileMoved) || profile)
      ensures rootMoved == (old(rootMoved) || (root && outside.root != Transition))
      ensures ownerMoved == (old(ownerMoved) || (owner && outside.root != Transition))
    {
      profileMoved := profileMoved || profile;
      rootMoved := rootMoved || (root && outside.root != Transition);
      ownerMoved := ownerMoved || (owner && outside.root != Transition);
    }

    /** Another computer's root stands in the way: always when the vault or its owner's
        profile is taken over on Kopia, or the vault is taken over or imported at all; of
        a sign-in vault's retry; and of the final root, unless that was published. Another
        owner on Kopia stands in the way where it is only verified. */
    predicate Overtaken(resumed: bool)
      reads this
    {
      || (rootMoved && (plan.takesOwner || plan.creates || plan.native == Aligns || (resumed && plan.signIn)
                        || (plan.publishRoot && !(resumed && state == AttachmentPending))))
      || (ownerMoved && plan.native == Verifies)
    }

    /** Only a prepared review can be cancelled, and it leaves nothing behind. */
    method Cancel() returns (ok: bool)
      requires Valid() && !attached && !cancelled
      modifies this`cancelled
      ensures Valid() && ok == (state == Prepared) && cancelled == ok
      ensures ok ==> outside == UNTOUCHED && journal == []
    {
      ok := state == Prepared;
      cancelled := ok;
    }

    method Started()
      requires Valid() && !cancelled && !attached
      modifies this`state
      ensures Valid() && state == if old(state) == Prepared then PublicationStarted else old(state)
    {
      if state == Prepared { state := PublicationStarted; }
    }

    method Do(effect: Effect, after: Outside)
      requires Valid() && state != Prepared && !attached && !cancelled
      requires WithinPlan(plan, after) && (state == AttachmentPending ==> Complete(plan, after))
      requires after.root == Transition ==> !rootMoved
      modifies this`outside, this`journal
      ensures Valid() && outside == after && journal == old(journal) + [(effect, state)]
    {
      outside, journal := after, journal + [(effect, state)];
    }

    /** The profile, then the ownership marker unless one of this connection's own
        roots is current already. `left` is what remains of the calls that succeed. */
    method Announce(calls: nat) returns (left: Option<nat>)
      requires Valid() && !attached && !cancelled
      modifies this`state, this`outside, this`journal
      ensures Valid() && old(journal) <= journal && outside.rclone == old(outside.rclone)
      ensures state == AttachmentPending <==> old(state) == AttachmentPending
      ensures left.Some? ==> !profileMoved && (plan.takesOwner ==> !rootMoved)
      ensures left.Some? ==> (plan.publishProfile ==> outside.profile) && (plan.takesOwner ==> outside.root != Reviewed)
      ensures left.Some? && plan.takesOwner ==> state != Prepared
      ensures profileMoved ==> outside == old(outside) && journal == old(journal)
      ensures !profileMoved && (plan.takesOwner ==> !rootMoved) ==>
        left == if calls >= old(AnnounceCalls()) then Some(calls - old(AnnounceCalls())) else None
      ensures left.Some? ==> old(PublishCalls(true)) == PublishCalls(true) && old(PublishCalls(false)) == PublishCalls(false)
      ensures left.Some? ==> (state == Prepared <==> old(state) == Prepared && old(AnnounceCalls()) == 0)
      ensures (left.Some? ==> left.value <= calls) && (old(outside).profile ==> outside.profile)
      ensures calls >= 1 && !profileMoved && plan.publishProfile ==> outside.profile
    {
      var n := calls;
      if profileMoved {
        Started();
        return None;
      }
      if plan.publishProfile && !outside.profile {
        Started();
        if n == 0 { return None; }
        n := n - 1;
        Do(ProfileEffect, outside.(profile := true));
      }
      if plan.takesOwner {
        Started();
        if n == 0 || rootMoved { return None; }
        n := n - 1;
        if outside.root == Reviewed { Do(TransitionEffect, outside.(root := Transition)); }
      }
      return Some(n);
    }

    /** This computer's client on Kopia, and its owner: only verified, or set under an
        admission that reads the root once more, except for an import, which has none yet. */
    method Configure(calls: nat) returns (left: Option<nat>)
      requires Valid() && !attached && !cancelled && plan.native != NoKopia
      modifies this`state, this`outside, this`journal, this`ownerMoved
      ensures Valid() && old(journal) <= journal
      ensures state == if old(state) == Prepared then PublicationStarted else old(state)
      ensures outside == old(outside).(client := outside.client, owner := outside.owner)
      ensures left.Some? ==> Configured(plan, outside) && !ownerMoved
      ensures ownerMoved ==> old(ownerMoved)
      ensures left == if calls >= 2 && (plan.native == Aligns && !plan.creates ==> !rootMoved)
                         && (plan.native == Verifies ==> !old(ownerMoved)) then Some(calls - 2) else None
    {
      Started();
      if calls == 0 { return None; }
      Do(ClientEffect, outside.(client := true));
      if calls == 1 { return None; }
      if plan.native == Verifies { return if ownerMoved then None else Some(calls - 2); }
      if rootMoved && !plan.creates { return None; }
      Do(OwnerEffect, outside.(owner := true));
      ownerMoved := false;
      return Some(calls - 2);
    }

    /** Kopia's owner, and only then the final root. */
    method PublishFinal(calls: nat, resumed: bool) returns (left: Option<nat>)
      requires Valid() && !attached && !cancelled && (plan.takesOwner ==> !rootMoved)
      requires (plan.publishProfile ==> outside.profile) && (plan.takesOwner ==> outside.root != Reviewed)
      requires resumed && plan.creates ==> !rootMoved
      modifies this`state, this`outside, this`journal, this`ownerMoved
      ensures Valid() && old(journal) <= journal && outside.rclone == old(outside.rclone)
      ensures outside.profile == old(outside).profile
      ensures ownerMoved ==> old(ownerMoved)
      ensures left.Some? ==> Complete(plan, outside.(rclone := true)) && (plan.native != NoKopia ==> !ownerMoved)
      ensures var overtaken := old(ownerMoved && plan.native == Verifies)
                || (rootMoved && (plan.creates || plan.native == Aligns
                                  || (plan.publishRoot && !(resumed && old(state) == AttachmentPending))));
        && (left.Some? ==> !overtaken)
        && (!overtaken ==>
              left == if calls >= old(PublishCalls(resumed)) then Some(calls - old(PublishCalls(resumed))) else None)
      ensures state == AttachmentPending <==> old(state) == AttachmentPending
      ensures left.Some? ==> (state == Prepared <==> old(state) == Prepared && old(PublishCalls(resumed)) == 0)
    {
      left := Some(calls);
      if plan.native != NoKopia {
        left := Configure(calls);
        if left.None? { return; }
      }
      if !NeedsRoot(resumed) { return; }
      left := PublishRoot(left.value);
    }

    method PublishRoot(calls: nat) returns (left: Option<nat>)
      requires Valid() && !attached && !cancelled && plan.publishRoot && Configured(plan, outside)
      requires (plan.publishProfile ==> outside.profile) && (plan.takesOwner ==> outside.root != Reviewed)
      modifies this`state, this`outside, this`journal
      ensures Valid() && old(journal) <= journal && (rootMoved ==> outside == old(outside))
      ensures outside.root == old(outside).root ==> journal == old(journal)
      ensures left == if calls >= 1 && !rootMoved then Some(calls - 1) else None
      ensures state == if old(state) == Prepared then PublicationStarted else old(state)
      ensures outside == old(outside).(root := outside.root) && (left.Some? ==> outside.root == Final)
    {
      Started();
      if calls == 0 || rootMoved { return None; }
      if outside.root != Final { Do(FinalEffect, outside.(root := Final)); }
      return Some(calls - 1);
    }

    /** The sign-in's configuration, then the local attachment. Once anything was
        published or configured, the intent says that only the attachment is pending
        before it is tried; the database attaches from no other state but prepared. */
    method Attach(calls: nat, session: bool)
      requires Valid() && !attached && !cancelled && Complete(plan, outside.(rclone := true))
      requires Usable(session)
      modifies this`state, this`outside, this`journal, this`attached
      ensures Valid() && old(journal) <= journal && (attached ==> Complete(plan, outside))
      ensures outside.profile == old(outside).profile
      ensures var first := if plan.signIn && session then 1 else 0;
        if old(state) == Prepared && first == 0 then state == Prepared && (attached <==> calls >= 1)
        else && (calls > first ==> state == AttachmentPending) && (attached <==> calls >= first + 2)
             && (calls <= first ==> state == if old(state) == Prepared then PublicationStarted else old(state))
    {
      var n := calls;
      if plan.signIn && session {
        Started();
        if n == 0 { return; }
        n := n - 1;
        Do(RcloneEffect, outside.(rclone := true));
      }
      if state != Prepared {
        if n == 0 { return; }
        n := n - 1;
        state := AttachmentPending;
      }
      if n == 0 { return; }
      attached := true;
    }

    /** A request for a sign-in vault brings a session, or finds the configuration that
        an earlier one activated (code/backend/api/repository_recovery.go:1471-1481). */
    predicate Usable(session: bool)
      reads this
    {
      plan.signIn ==> session || outside.rclone
    }

    /** Everything but the configuration and the attachment. */
    method Publish(calls: nat, resumed: bool) returns (left: Option<nat>)
      requires Valid() && !attached && !cancelled && (!resumed ==> state == Prepared)
      requires resumed && (plan.signIn || plan.creates) ==> !rootMoved
      modifies this`state, this`outside, this`journal, this`ownerMoved
      ensures Valid() && old(journal) <= journal && outside.rclone == old(outside.rclone)
      ensures (old(outside).profile ==> outside.profile)
              && (calls >= 1 && !profileMoved && plan.publishProfile ==> outside.profile)
      ensures profileMoved ==> outside == old(outside) && journal == old(journal)
      ensures ownerMoved ==> old(ownerMoved)
      ensures left.Some? ==> Complete(plan, outside.(rclone := true)) && (plan.native != NoKopia ==> !ownerMoved)
      ensures var before := old(AnnounceCalls() + PublishCalls(resumed));
        && left == (if profileMoved || old(Overtaken(resumed)) || calls < before then None else Some(calls - before))
        && (state == AttachmentPending <==> old(state) == AttachmentPending)
        && (left.Some? ==> (state == Prepared <==> old(state) == Prepared && before == 0))
    {
      ghost var published := PublishCalls(resumed);
      left := Announce(calls);
      if left.None? { return; }
      assert published == PublishCalls(resumed);
      left := PublishFinal(left.value, resumed);
    }

    /** One attempt, of which the first `calls` calls succeed. From every state an
        earlier one stopped in, an attempt that nothing stops attaches the vault, unless
        another computer took the profile over, or its root or its ownership on Kopia
        stands in the way. A retry of an import is refused because whoever moved its root
        has a profile there. */
    method Attempt(calls: nat, session: bool, resumed: bool)
      requires Valid() && !attached && !cancelled && (!resumed ==> state == Prepared)
      modifies this`state, this`outside, this`journal, this`attached, this`ownerMoved
      ensures Valid() && old(journal) <= journal
      ensures state == Prepared ==> outside == UNTOUCHED
      ensures attached ==> Complete(plan, outside) && !profileMoved && !old(Overtaken(resumed))
      ensures (ownerMoved ==> old(ownerMoved)) && (attached && plan.native != NoKopia ==> !ownerMoved)
      ensures old(outside).profile ==> outside.profile
      // After the last call outside, the next saves that only the attachment is pending,
      // and the one after it attaches; with nothing to do outside the first one does.
      ensures var free := old(Usable(session)) && !profileMoved && !old(Overtaken(resumed));
        var before := old(OutsideCalls(session, resumed));
        var straight := old(state) == Prepared && before == 0;
        && (attached <==> free && calls >= before + if straight then 1 else 2)
        && (free && !straight && calls > before ==> state == AttachmentPending)
        && (state == AttachmentPending ==> old(state) == AttachmentPending || (free && calls > before))
      // The profile is the first thing an attempt publishes.
      ensures calls >= 1 && old(Usable(session)) && !profileMoved && !rootMoved && plan.publishProfile ==> outside.profile
      ensures calls >= CALLS ==> (attached <==> old(Usable(session)) && !profileMoved && !old(Overtaken(resumed)))
      ensures profileMoved || !old(Usable(session)) ==> outside == old(outside) && journal == old(journal)
    {
      if !Usable(session) { return; }
      if resumed && (plan.signIn || plan.creates) && rootMoved { return; }
      var left := Publish(calls, resumed);
      if left.None? { return; }
      Attach(left.value, session);
    }

    /** Any number of attempts, with other computers acting before each: what was
        reviewed is complete once the vault is attached, the profile is this computer's
        and Kopia's owner the reviewed one; and nothing happened outside while the review
        still says prepared. */
    method Attempts(rounds: seq<Round>)
      requires Valid() && !attached && !cancelled && state == Prepared
      modifies this
      ensures Valid() && (attached ==> Complete(plan, outside) && !profileMoved)
      ensures state == Prepared ==> outside == UNTOUCHED && journal == []
      ensures attached && (plan.takesOwner || plan.creates || plan.native == Aligns) ==> !rootMoved
      ensures attached && plan.native != NoKopia ==> !ownerMoved
      // While no other computer interferes, one attempt that nothing stops is enough.
      ensures (&& !old(profileMoved || rootMoved || ownerMoved) && Quiet(rounds)
               && exists n :: 0 <= n < |rounds| && rounds[n].calls >= CALLS && rounds[n].session) ==> attached
    {
      for n := 0 to |rounds|
        invariant Valid() && !attached && !cancelled
        invariant !old(profileMoved || rootMoved || ownerMoved) && Quiet(rounds) ==>
          !profileMoved && !rootMoved && !ownerMoved
        invariant !old(profileMoved || rootMoved || ownerMoved) && Quiet(rounds) ==>
          forall m :: 0 <= m < n ==> !(rounds[m].calls >= CALLS && rounds[m].session)
      {
        Others(rounds[n].profile, rounds[n].root, rounds[n].owner);
        Attempt(rounds[n].calls, rounds[n].session, n > 0 || state != Prepared);
        if attached { return; }
      }
    }

    /** Why that state matters: an attempt that stops right before the attachment can be
        retried although another computer has moved the root since. */
    static method PendingIsKept() returns (c: Connection)
      ensures c.Valid() && c.attached && c.rootMoved && c.plan.publishRoot
    {
      c := new Connection(Plan(false, false, false, NoKopia, true, false));
      c.Attempt(2, true, false);
      assert c.state == AttachmentPending && !c.attached;
      c.Others(false, true, false);
      c.Attempt(CALLS, true, true);
    }

    /** A retry that is refused, however much of it succeeds: the profile of the vault's
        owner is taken over on Kopia, the first attempt stops after that profile was
        published, and another computer moves the root before the next one. */
    static method RefusedRetry(calls: nat) returns (c: Connection)
      ensures c.Valid() && !c.attached && c.outside.profile && c.rootMoved && !c.profileMoved
    {
      c := new Connection(Plan(true, false, false, Aligns, false, false));
      c.Attempt(1, false, false);
      c.Others(false, true, false);
      c.Attempt(calls, false, true);
    }
  }

  // ----- Native creation ----------------------------------------------------

  datatype Phase = CreationPrepared | NativeStarted | NativeReady | Attached | Forgotten | Cancelled

  datatype Move = Try(calls: nat, created: Option<nat>, stillRunning: bool) | Drop(stillRunning: bool)

  class Creation {
    var phase: Phase
    var fingerprint: Option<nat>
    /** How often the native create command was launched for this intent, and
        what is at its destination. */
    ghost var launches: nat
    var destination: Option<nat>

    ghost predicate Valid()
      reads this
    {
      && launches <= 1
      && (phase == CreationPrepared || phase == Cancelled ==> launches == 0)
      && (phase == NativeReady || phase == Attached ==> fingerprint.Some?)
    }

    constructor (destination: Option<nat>)
      ensures Valid() && phase == CreationPrepared && launches == 0
    {
      phase, fingerprint, launches, this.destination := CreationPrepared, None, 0, destination;
    }

    /** The vault is attached, or the intent is gone. */
    ghost predicate Over()
      reads this
    {
      phase in {Attached, Forgotten, Cancelled}
    }

    /** One attempt: the destination must be empty before the one launch; what the
        launch leaves there, if anything, is `created`; a retry only validates; and
        without an intent there is nothing to do. */
    method Attempt(calls: nat, created: Option<nat>, stillRunning: bool)
      requires Valid()
      modifies this
      ensures Valid() && launches >= old(launches)
      ensures launches > old(launches) ==> old(phase) == CreationPrepared && old(destination) == None
      ensures phase == CreationPrepared ==> launches == 0 && destination == old(destination)
      ensures phase == Attached && !old(Over()) ==> destination.Some? && fingerprint == destination
      ensures old(fingerprint).Some? ==> fingerprint == old(fingerprint)
      ensures old(phase) == NativeReady && old(destination) != old(fingerprint) ==> phase == NativeReady
      ensures old(phase) != CreationPrepared ==> destination == old(destination)
      ensures old(destination).Some? ==> destination == old(destination) && launches == old(launches)
      ensures old(Over()) ==> phase == old(phase) && fingerprint == old(fingerprint)
      ensures launches == old(launches) ==> destination == old(destination)
      ensures old(phase) != CreationPrepared ==> phase != CreationPrepared
      // Validated only once the native command is proved not to run, and against the
      // first fingerprint; and launched exactly when nothing was there.
      ensures !old(Over()) ==>
        var n := if old(phase) == CreationPrepared then calls - 2 else calls;
        var checked := n >= 1 && (old(phase) == CreationPrepared ==> old(destination) == None)
                       && !stillRunning && destination.Some? && old(fingerprint) in {None, destination};
        && (phase == Attached <==> checked && n >= 2)
        && (phase == NativeReady <==> if checked then n == 1 else old(phase) == NativeReady)
        && fingerprint == (if checked then destination else old(fingerprint))
        && (launches > old(launches) <==> old(phase) == CreationPrepared && old(destination) == None && calls >= 2)
        && (launches > old(launches) ==> destination == created)
        && (phase == CreationPrepared <==> old(phase) == CreationPrepared && (calls == 0 || old(destination).Some?))
      ensures (old(phase) == CreationPrepared && old(destination) == None && old(fingerprint) == None && created.Some?
               && !stillRunning && calls >= 4) ==> phase == Attached
      ensures (old(phase) in {NativeStarted, NativeReady} && destination.Some? && !stillRunning && calls >= 2
               && (old(fingerprint) == None || old(fingerprint) == destination)) ==> phase == Attached
    {
      if phase in {Attached, Forgotten, Cancelled} { return; }
      var left := calls;
      if phase == CreationPrepared {
        if left == 0 || destination.Some? { return; }
        phase := NativeStarted;
        left := left - 1;
        if left == 0 { return; }
        launches := launches + 1;
        destination := created;
        left := left - 1;
      }
      if left == 0 || stillRunning || destination.None? { return; }
      if fingerprint.Some? && fingerprint != destination { return; }
      phase, fingerprint := NativeReady, destination;
      left := left - 1;
      if left == 0 { return; }
      phase := Attached;
    }

    /** A prepared creation is cancelled and a started one forgotten, once its native
        command is proved not to run any more. */
    method GiveUp(stillRunning: bool) returns (ok: bool)
      requires Valid()
      modifies this`phase
      ensures Valid()
      ensures ok == (old(phase) == CreationPrepared || (old(phase) in {NativeStarted, NativeReady} && !stillRunning))
      ensures phase == if old(phase) == CreationPrepared then Cancelled else if ok then Forgotten else old(phase)
      ensures ok ==> Over()
    {
      ok := phase == CreationPrepared || (phase in {NativeStarted, NativeReady} && !stillRunning);
      if phase == CreationPrepared { phase := Cancelled; } else if ok { phase := Forgotten; }
    }

    /** Any requests about one intent: what is at the destination is touched at most
        once, by the one launch, and only if nothing was there before it. */
    method Requests(moves: seq<Move>)
      requires Valid()
      modifies this
      ensures Valid() && launches >= old(launches)
      ensures launches == old(launches) ==> destination == old(destination)
      ensures launches > old(launches) ==> old(phase) == CreationPrepared && old(destination) == None
      ensures old(Over()) ==> phase == old(phase) && fingerprint == old(fingerprint)
      ensures old(fingerprint).Some? ==> fingerprint == old(fingerprint)
    {
      for i := 0 to |moves|
        invariant Valid() && launches >= old(launches)
        invariant launches == old(launches) ==> destination == old(destination)
        invariant launches > old(launches) ==> old(phase) == CreationPrepared && old(destination) == None
        invariant old(phase) != CreationPrepared ==> phase != CreationPrepared
        invariant old(Over()) ==> phase == old(phase) && fingerprint == old(fingerprint)
        invariant old(fingerprint).Some? ==> fingerprint == old(fingerprint)
      {
        match moves[i]
        case Try(calls, created, stillRunning) => Attempt(calls, created, stillRunning);
        case Drop(stillRunning) => var _ := GiveUp(stillRunning);
      }
    }

    /** A creation that was given up stays so: no later request launches anything, a
        cancelled one never did, and what a launch left at the destination stays. */
    method GiveUpForGood(stillRunning: bool, moves: seq<Move>) returns (ok: bool)
      requires Valid()
      modifies this
      ensures Valid()
      ensures ok ==> launches == old(launches) && destination == old(destination) && phase in {Cancelled, Forgotten}
      ensures ok && old(phase) == CreationPrepared ==> launches == 0 && phase == Cancelled
      ensures !ok ==> old(Over()) || (stillRunning && old(phase) in {NativeStarted, NativeReady})
    {
      ok := GiveUp(stillRunning);
      Requests(moves);
    }
  }
}
