/** Vault ownership as a protocol between computers: the takeover request, the
    owner-taking connection, the care save and the password fence, all
    publishing one protected root by compare-and-replace. Every request can stop
    between any two of its steps and is retried from its saved record. */
module Takeover {
  import opened Options

  type Profile = nat
  type Operation = nat

  datatype Phase = Reviewed | NativeApplied

  /** The marker a takeover leaves on the root while it is unfinished. */
  datatype Transfer = Transfer(op: Operation, from: Profile, to: Profile, phase: Phase)

  datatype Root = Root(revision: nat, owner: Profile, transfer: Option<Transfer>, fenced: bool, care: nat)

  /** A saved takeover record. A completed record is no longer active, so it is absent. */
  datatype RecordState = RecordReviewed | RecordNative | RecordPublished
  datatype Record = Record(op: Operation, from: Profile, to: Profile, state: RecordState)

  /** A saved connection of a vault that is not attached here yet. */
  datatype IntentState = Prepared | Started | AttachmentPending
  datatype Intent = Intent(op: Operation, to: Profile, reviewed: Root, takes: bool, care: nat, state: IntentState) {
    function Transition(): Root {
      reviewed.(revision := reviewed.revision + 1,
                transfer := Some(Transfer(op, reviewed.owner, to, Reviewed)))
    }

    function Final(): Root {
      if takes then reviewed.(revision := reviewed.revision + 2, owner := to, transfer := None, care := care)
      else reviewed.(revision := reviewed.revision + 1, care := care)
    }
  }

  /** Where the one request that holds this computer's vault lock stands. */
  datatype Request =
    | Idle
    | Decided(seen: Root)
    | PublishMarker(seen: Root)
    | EnsureReviewed(seen: Root)
    | PublishPhase(seen: Root, aligned: bool)
    | AdvanceToNative(aligned: bool)
    | Reread(aligned: bool)
    | EnsureFinal(seen: Root)
    | PublishFinal(seen: Root, aligned: bool)
    | AdvanceToPublished
    | Complete
    | AlignCompleted(care: nat)
    | CareSave(seen: Root, care: nat)
    | ConnectEnsure(finished: bool)
    | ConnectFinal
    | ConnectMark
    | ConnectAttach

  datatype Computer = Computer(attached: bool, record: Option<Record>, intent: Option<Intent>, request: Request)

  datatype Publication = Publication(publisher: Profile, op: Option<Operation>, root: Root)

  /** `log` holds every root ever published, oldest first; `issued[op]` is the
      computer that drew the operation identity `op`. */
  datatype World = World(
    kopia: bool, root: Root, nativeOwner: Profile,
    computers: map<Profile, Computer>, issued: seq<Profile>, log: seq<Publication>)

  // ----- Decisions of the source --------------------------------------------

  /** Whether a fresh root can be acted on, given this computer's saved record. */
  predicate ValidRoot(root: Root, allowed: Option<Record>) {
    && !root.fenced
    && (root.transfer.Some? ==>
          var t := root.transfer.value;
          && allowed.Some? && t.op == allowed.value.op
          && t.from == allowed.value.from && t.to == allowed.value.to
          && root.owner == allowed.value.from
          && match allowed.value.state {
               case RecordReviewed => true
               case RecordNative => t.phase == NativeApplied
               case RecordPublished => false
             })
  }

  /** Whether the status offers Finish takeover for the saved record. */
  predicate Resumable(self: Profile, root: Root, record: Record) {
    if record.to != self then false
    else if root.transfer.Some? then root.transfer.value.op == record.op
    else if root.owner == record.to then true
    else root.owner == record.from && record.state == RecordReviewed
  }

  predicate Stable(root: Root) { root.transfer.None? && !root.fenced }

  /** Before the native owner is changed for a takeover, the marker is read once
      more and must carry the record's own phase. */
  predicate MutationAdmitted(root: Root, record: Record) {
    && ValidRoot(root, Some(record))
    && root.owner == record.from
    && root.transfer.Some?
    && (record.state == RecordReviewed ==> root.transfer.value.phase == Reviewed)
  }

  // ----- Effects ------------------------------------------------------------

  function Set(w: World, c: Profile, computer: Computer): (r: World)
    ensures r.computers.Keys == w.computers.Keys + {c}
    ensures forall d :: d in w.computers && d != c ==> r.computers[d] == w.computers[d]
  {
    w.(computers := w.computers[c := computer])
  }

  function Go(w: World, c: Profile, request: Request): World
    requires c in w.computers
  {
    Set(w, c, w.computers[c].(request := request))
  }

  /** The store's compare-and-replace of the canonical root. */
  function Publish(w: World, publisher: Profile, op: Option<Operation>, expected: Root, root: Root): (r: (World, bool)) {
    if w.root.fenced then (w, false)
    else if w.root == root then (w, true)
    else if w.root != expected then (w, false)
    else (w.(root := root, log := w.log + [Publication(publisher, op, root)]), true)
  }

  function PublishThen(w: World, c: Profile, op: Option<Operation>, expected: Root, root: Root, next: Request): (r: World)
    requires c in w.computers
    ensures r.computers.Keys == w.computers.Keys
    ensures forall d :: d in w.computers && d != c ==> r.computers[d] == w.computers[d]
    ensures r.computers[c].(request := Idle) == w.computers[c].(request := Idle)
  {
    var (published, ok) := Publish(w, c, op, expected, root);
    Go(published, c, if ok then next else Idle)
  }

  function Marked(seen: Root, r: Record): Root {
    seen.(revision := seen.revision + 1, transfer := Some(Transfer(r.op, r.from, r.to, Reviewed)))
  }

  function Applied(seen: Root): Root
    requires seen.transfer.Some?
  {
    seen.(revision := seen.revision + 1, transfer := Some(seen.transfer.value.(phase := NativeApplied)))
  }

  function Owned(seen: Root, c: Profile): Root {
    seen.(revision := seen.revision + 1, owner := c, transfer := None)
  }

  function AfterMarker(kopia: bool, seen: Root): Request
    requires seen.transfer.Some?
  {
    if seen.transfer.value.phase == NativeApplied then AdvanceToNative(false)
    else if kopia then EnsureReviewed(seen)
    else PublishPhase(seen, false)
  }

  function Resume(kopia: bool, seen: Root, r: Record): Request {
    match r.state
    case RecordReviewed => if seen.transfer.None? then PublishMarker(seen) else AfterMarker(kopia, seen)
    case RecordNative => Reread(false)
    case RecordPublished => Complete
  }

  // ----- Steps --------------------------------------------------------------

  /** The request reads the root, checks it and the review, and branches. */
  function Begin(w: World, c: Profile, reviewedOwner: Profile): (r: World)
    requires c in w.computers
    ensures r.computers.Keys == w.computers.Keys
  {
    var me := w.computers[c];
    if me.request != Idle || !me.attached || !ValidRoot(w.root, me.record) then w
    else if w.root.owner == c then
      if me.record.None? || me.record.value.to != c then w
      else if w.kopia then Go(w, c, AlignCompleted(w.root.care))
      else Go(w, c, if me.record.value.state == RecordPublished then Complete else AdvanceToPublished)
    else if w.root.owner != reviewedOwner then w
    else Go(w, c, Decided(w.root))
  }

  function WithRecord(w: World, c: Profile, record: Option<Record>, request: Request): World
    requires c in w.computers
  {
    Set(w, c, w.computers[c].(record := record, request := request))
  }

  /** The next step of the running request, when no external call fails. */
  function Advance(w: World, c: Profile): (r: World)
    requires c in w.computers
    ensures r.computers.Keys == w.computers.Keys
  {
    var me := w.computers[c];
    match me.request
    case Idle => w
    case ConnectEnsure(_) => AdvanceConnection(w, c)
    case ConnectFinal => AdvanceConnection(w, c)
    case ConnectMark => AdvanceConnection(w, c)
    case ConnectAttach => AdvanceConnection(w, c)
    case Decided(seen) =>
      if me.record.None? then
        var begun := Record(|w.issued|, seen.owner, c, RecordReviewed);
        WithRecord(w.(issued := w.issued + [c]), c, Some(begun), Resume(w.kopia, seen, begun))
      else if me.record.value.from != seen.owner || me.record.value.to != c then Go(w, c, Idle)
      else Go(w, c, Resume(w.kopia, seen, me.record.value))
    case CareSave(seen, care) =>
      PublishThen(w, c, None, seen, seen.(revision := seen.revision + 1, care := care), Idle)
    case _ => if me.record.None? then Go(w, c, Idle) else AdvanceTakeover(w, c)
  }

  function AdvanceTakeover(w: World, c: Profile): (r: World)
    requires c in w.computers && w.computers[c].record.Some?
    ensures r.computers.Keys == w.computers.Keys
    ensures r.computers[c].intent == w.computers[c].intent
    ensures r.computers[c].record.Some? ==> r.computers[c].record.value.op == w.computers[c].record.value.op
  {
    var r := w.computers[c].record.value;
    match w.computers[c].request
    case PublishMarker(seen) =>
      PublishThen(w, c, Some(r.op), seen, Marked(seen, r), AfterMarker(w.kopia, Marked(seen, r)))
    case EnsureReviewed(seen) =>
      if !MutationAdmitted(w.root, r) then Go(w, c, Idle)
      else Go(w.(nativeOwner := c), c, PublishPhase(seen, true))
    case PublishPhase(seen, aligned) =>
      if seen.transfer.None? then Go(w, c, Idle)
      else PublishThen(w, c, Some(r.op), seen, Applied(seen), AdvanceToNative(aligned))
    case AdvanceToNative(aligned) =>
      if r.state != RecordReviewed then Go(w, c, Idle)
      else WithRecord(w, c, Some(r.(state := RecordNative)), Reread(aligned))
    case Reread(aligned) =>
      if !ValidRoot(w.root, Some(r)) then Go(w, c, Idle)
      else if w.root.owner == c && w.root.transfer.None? then Go(w, c, AdvanceToPublished)
      else if w.root.transfer.None? || w.root.owner != r.from then Go(w, c, Idle)
      else if w.kopia && !aligned then Go(w, c, EnsureFinal(w.root))
      else Go(w, c, PublishFinal(w.root, aligned))
    case EnsureFinal(seen) =>
      if !MutationAdmitted(w.root, r) then Go(w, c, Idle)
      else Go(w.(nativeOwner := c), c, PublishFinal(seen, true))
    case PublishFinal(seen, _) =>
      PublishThen(w, c, Some(r.op), seen, Owned(seen, c), AdvanceToPublished)
    case AlignCompleted(care) =>
      if !Stable(w.root) || w.root.owner != c || w.root.care != care then Go(w, c, Idle)
      else Go(w.(nativeOwner := c), c, if r.state == RecordPublished then Complete else AdvanceToPublished)
    case AdvanceToPublished =>
      (match r.state
       case RecordReviewed => WithRecord(w, c, Some(r.(state := RecordNative)), AdvanceToPublished)
       case RecordNative => WithRecord(w, c, Some(r.(state := RecordPublished)), Complete)
       case RecordPublished => Go(w, c, Idle))
    case Complete =>
      if r.state == RecordPublished then WithRecord(w, c, None, Idle) else Go(w, c, Idle)
    case _ => w
  }

  function AdvanceConnection(w: World, c: Profile): (r: World)
    requires c in w.computers
    ensures r.computers.Keys == w.computers.Keys
  {
    var me := w.computers[c];
    if me.intent.None? then Go(w, c, Idle)
    else
      var i := me.intent.value;
      match me.request
      case ConnectEnsure(finished) =>
        var next := if finished then ConnectMark
                    else if i.state == AttachmentPending then ConnectMark
                    else ConnectFinal;
        if !w.kopia then Go(w, c, next)
        else if w.root != (if finished then i.Final() else i.Transition()) then Go(w, c, Idle)
        else Go(w.(nativeOwner := c), c, next)
      case ConnectFinal =>
        PublishThen(w, c, Some(i.op), if i.takes then i.Transition() else i.reviewed, i.Final(), ConnectMark)
      case ConnectMark =>
        Set(w, c, me.(intent := Some(i.(state := AttachmentPending)), request := ConnectAttach))
      case ConnectAttach =>
        Set(w, c, me.(intent := None, attached := true, request := Idle))
      case _ => w
  }

  /** A connection reviews the current root and saves its intent. */
  function Reserve(w: World, c: Profile, takes: bool, care: nat): World
    requires c in w.computers
  {
    var me := w.computers[c];
    if me.request != Idle || me.attached || me.intent.Some? || !Stable(w.root) then w
    else if takes == (w.root.owner == c) then w
    else if !takes && care == w.root.care then w
    else
      var i := Intent(|w.issued|, c, w.root, takes, care, Prepared);
      Set(w.(issued := w.issued + [c]), c, me.(intent := Some(i)))
  }

  /** A first Connect or a retry: the started state is saved before anything is
      published, and the current root decides where the transition stands. */
  function Connect(w: World, c: Profile): World
    requires c in w.computers
  {
    var me := w.computers[c];
    if me.request != Idle || me.attached || me.intent.None? then w
    else
      var i := me.intent.value;
      var started := if i.state == Prepared then i.(state := Started) else i;
      var w1 := Set(w, c, me.(intent := Some(started)));
      if !i.takes then Go(w1, c, if i.state == AttachmentPending then ConnectAttach else ConnectFinal)
      else if w.root == i.Final() then Go(w1, c, ConnectEnsure(true))
      else if w.root == i.Transition() then Go(w1, c, ConnectEnsure(false))
      else if w.root != i.reviewed then w1
      else PublishThen(w1, c, Some(i.op), i.reviewed, i.Transition(), ConnectEnsure(false))
  }

  datatype Event =
    | Post(c: Profile, reviewedOwner: Profile)
    | Next(c: Profile)          // the running request does its next step
    | Lose(c: Profile)          // the step takes effect, but the request dies
    | Die(c: Profile)           // the request dies before the step
    | SaveCare(c: Profile, care: nat)
    | Review(c: Profile, takes: bool, care: nat)
    | Retry(c: Profile)
    | Cancel(c: Profile)        // only a prepared connection can be cancelled
    | Maintain(c: Profile)      // the owner re-aligns its native ownership
    | Fence(c: Profile)
    | Unfence(c: Profile)
    | Remove(c: Profile)        // the vault is removed here; its record goes too

  function Step(w: World, e: Event): World {
    if e.c !in w.computers then w
    else
      var me := w.computers[e.c];
      match e
      case Post(c, reviewedOwner) => Begin(w, c, reviewedOwner)
      case Next(c) => Advance(w, c)
      case Lose(c) => Go(Advance(w, c), c, Idle)
      case Die(c) => Go(w, c, Idle)
      case SaveCare(c, care) =>
        if me.request == Idle && me.attached && ValidRoot(w.root, None) && w.root.owner == c && care != w.root.care
        then Go(w, c, CareSave(w.root, care)) else w
      case Review(c, takes, care) => Reserve(w, c, takes, care)
      case Retry(c) => Connect(w, c)
      case Cancel(c) =>
        if me.request == Idle && me.intent.Some? && me.intent.value.state == Prepared
        then Set(w, c, me.(intent := None)) else w
      case Maintain(c) =>
        if me.request == Idle && me.attached && Stable(w.root) && w.root.owner == c then w.(nativeOwner := c) else w
      case Fence(c) =>
        if me.request == Idle && me.attached && me.record.None? && Stable(w.root) && w.root.owner == c
        then Publish(w, c, None, w.root, w.root.(revision := w.root.revision + 1, fenced := true)).0 else w
      case Unfence(c) =>
        if me.request == Idle && w.root.fenced && w.root.owner == c
        then var root := w.root.(revision := w.root.revision + 1, fenced := false);
             w.(root := root, log := w.log + [Publication(c, None, root)])
        else w
      case Remove(c) =>
        if me.request == Idle && me.attached then Set(w, c, me.(attached := false, record := None)) else w
  }

  function Run(w: World, events: seq<Event>): World {
    if events == [] then w else Step(Run(w, events[..|events| - 1]), events[|events| - 1])
  }
}
