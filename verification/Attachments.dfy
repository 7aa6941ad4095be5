/** Which profile of an existing vault a connection attaches to this computer,
    and what a saved connection may still find when it is retried. */
module Attachments {
  import opened Options

  type Uuid = nat
  type Client = nat

  const MAXIMUM_PROFILES: nat := 256

  datatype Profile = Profile(uuid: Uuid, client: Client, generation: nat, revision: nat, mode: nat)

  datatype Refusal =
    | SeveralLocal | ProfileGone | NotForImport | AttachedElsewhere | MustReconnect | NotSole | WrongAutomaticAction
    | JoinSelects | NothingSelected | Full | NotLocal | AlreadyLocal | NoAction | Unexpected

  datatype Result<+T> = Ok(value: T) | Err(refusal: Refusal)

  function Locals(profiles: seq<Profile>, client: Client): (r: seq<Profile>)
    ensures |r| <= |profiles|
  {
    if profiles == [] then []
    else if profiles[0].client == client then [profiles[0]] + Locals(profiles[1..], client)
    else Locals(profiles[1..], client)
  }

  lemma {:induction false} LocalsAre(profiles: seq<Profile>, client: Client, p: Profile)
    ensures p in Locals(profiles, client) <==> p in profiles && p.client == client
  {
    if profiles != [] { LocalsAre(profiles[1..], client, p); }
  }

  lemma {:induction false} LocalsAppend(profiles: seq<Profile>, client: Client, p: Profile)
    ensures Locals(profiles + [p], client) == Locals(profiles, client) + (if p.client == client then [p] else [])
  {
    if profiles == [] {
      assert profiles + [p] == [p];
    } else {
      assert (profiles + [p])[1..] == profiles[1..] + [p];
      LocalsAppend(profiles[1..], client, p);
    }
  }

  ghost predicate Distinct(profiles: seq<Profile>) {
    forall i, j :: 0 <= i < j < |profiles| ==> profiles[i].uuid != profiles[j].uuid
  }

  // ----- The scan -----------------------------------------------------------

  /** What the scan selects: this computer's own profile, else the requested one,
      else the only one there is. */
  ghost predicate Selects(profiles: seq<Profile>, client: Client, requested: Option<Uuid>, r: Result<Option<Profile>>) {
    var locals := Locals(profiles, client);
    if |locals| > 1 then r == Err(SeveralLocal)
    else if |locals| == 1 then r == Ok(Some(locals[0]))
    else
      match requested
      case None => r == Ok(if |profiles| == 1 then Some(profiles[0]) else None)
      case Some(uuid) =>
        if exists p :: p in profiles && p.uuid == uuid
        then r.Ok? && r.value.Some? && r.value.value in profiles && r.value.value.uuid == uuid
        else r == Err(ProfileGone)
  }

  method Scan(profiles: seq<Profile>, client: Client, requested: Option<Uuid>) returns (r: Result<Option<Profile>>)
    ensures Selects(profiles, client, requested, r)
  {
    var selected: Option<Profile> := None;
    var localCount, n := 0, 0;
    while n < |profiles|
      invariant 0 <= n <= |profiles| && localCount == |Locals(profiles[..n], client)| <= 1
      invariant localCount == 1 ==> selected == Some(Locals(profiles[..n], client)[0])
      invariant localCount == 0 && requested == None ==> selected == if n == 1 then Some(profiles[0]) else None
      invariant localCount == 0 && requested.Some? && selected.Some? ==>
        selected.value in profiles[..n] && selected.value.uuid == requested.value
      invariant localCount == 0 && requested.Some? && selected.None? ==>
        forall p :: p in profiles[..n] ==> p.uuid != requested.value
    {
      var profile := profiles[n];
      LocalsAppend(profiles[..n], client, profile);
      assert profiles[..n + 1] == profiles[..n] + [profile];
      n := n + 1;
      if profile.client == client {
        localCount := localCount + 1;
        if localCount > 1 {
          MoreLocals(profiles, client, n);
          return Err(SeveralLocal);
        }
        selected := Some(profile);
      } else if localCount == 0 {
        if requested == Some(profile.uuid) || (requested == None && n == 1) {
          selected := Some(profile);
        } else if requested == None {
          selected := None;
        }
      }
    }
    assert profiles[..n] == profiles;
    if requested.Some? && selected.None? { return Err(ProfileGone); }
    return Ok(selected);
  }

  lemma {:induction false} MoreLocals(profiles: seq<Profile>, client: Client, n: nat)
    requires n <= |profiles|
    ensures |Locals(profiles[..n], client)| <= |Locals(profiles, client)|
    decreases |profiles| - n
  {
    if n == |profiles| {
      assert profiles[..n] == profiles;
    } else {
      assert profiles[..n + 1] == profiles[..n] + [profiles[n]];
      LocalsAppend(profiles[..n], client, profiles[n]);
      MoreLocals(profiles, client, n + 1);
    }
  }

  // ----- The listing order does not matter ----------------------------------

  lemma {:induction false} LocalsCounted(a: seq<Profile>, client: Client, p: Profile)
    ensures multiset(Locals(a, client))[p] == if p.client == client then multiset(a)[p] else 0
  {
    if a != [] {
      assert a == [a[0]] + a[1..];
      LocalsCounted(a[1..], client, p);
    }
  }

  lemma SameLocals(a: seq<Profile>, b: seq<Profile>, client: Client)
    requires multiset(a) == multiset(b)
    ensures multiset(Locals(a, client)) == multiset(Locals(b, client))
  {
    forall p: Profile ensures multiset(Locals(a, client))[p] == multiset(Locals(b, client))[p] {
      LocalsCounted(a, client, p);
      LocalsCounted(b, client, p);
    }
  }

  lemma UuidIdentifies(a: seq<Profile>, p: Profile, q: Profile)
    requires Distinct(a) && p in a && q in a && p.uuid == q.uuid
    ensures p == q
  {
    var i :| 0 <= i < |a| && a[i] == p;
    var j :| 0 <= j < |a| && a[j] == q;
    assert !(i < j) && !(j < i);
  }

  lemma Singletons(a: seq<Profile>, b: seq<Profile>)
    requires multiset(a) == multiset(b)
    ensures |a| == |b| && (|a| == 1 ==> a[0] == b[0])
    ensures forall p :: p in a <==> p in b
  {
    assert |a| == |multiset(a)| && |b| == |multiset(b)|;
    assert forall p :: p in a <==> p in multiset(a);
    assert forall p :: p in b <==> p in multiset(b);
    if |a| == 1 { assert a[0] in b; }
  }

  /** Two listings of the same profiles select the same one, or are refused for
      the same reason. */
  lemma ScanOrderDoesNotMatter(a: seq<Profile>, b: seq<Profile>, client: Client, requested: Option<Uuid>,
                               ra: Result<Option<Profile>>, rb: Result<Option<Profile>>)
    requires Distinct(a) && multiset(a) == multiset(b)
    requires Selects(a, client, requested, ra) && Selects(b, client, requested, rb)
    ensures ra == rb
  {
    SameLocals(a, b, client);
    Singletons(a, b);
    Singletons(Locals(a, client), Locals(b, client));
    if requested.Some? && Locals(a, client) == [] && ra.Ok? && rb.Ok? {
      UuidIdentifies(a, ra.value.value, rb.value.value);
    }
  }

  // ----- The transition -----------------------------------------------------

  datatype Action = Unset | Join | Reconnect | Takeover

  /** `drawn` is the new identity a joined profile draws. */
  datatype Connection = Connection(
    imported: bool, sole: bool, action: Action, requested: Option<Uuid>, keepsOwner: bool,
    client: Client, mode: nat, drawn: Uuid)

  datatype Transition = Transition(
    profile: Profile, publish: bool, createOnly: bool, expected: Option<Profile>, takenFrom: Option<Client>)

  /** `selected` is the profile the scan selected among `profiles`; a review that
      asks to join keeps none. */
  function Prepare(profiles: seq<Profile>, selected: Option<Profile>, q: Connection): (r: Result<Transition>) {
    if q.imported then
      if q.requested.Some? || (q.action != Unset && q.action != Join) || !q.keepsOwner then Err(NotForImport)
      else Ok(Transition(Profile(q.drawn, q.client, 1, 1, q.mode), true, true, None, None))
    else
      var locals := Locals(profiles, q.client);
      if |locals| > 1 then Err(SeveralLocal)
      else if q.action == Join && q.requested.Some? then Err(JoinSelects)
      else if (q.action == Reconnect || q.action == Takeover) && q.requested.None? then Err(NothingSelected)
      else if |locals| == 1 && (selected.None? || selected.value.uuid != locals[0].uuid) then Err(AttachedElsewhere)
      else if |locals| == 1 && q.action != Unset && q.action != Reconnect then Err(MustReconnect)
      else
        var action := if |locals| == 1 then Reconnect else q.action;
        if q.sole then
          if |profiles| != 1 || selected.None? then Err(NotSole)
          else
            var derived := if selected.value.client == q.client then Reconnect else Takeover;
            if q.action != Unset && q.action != derived then Err(WrongAutomaticAction)
            else Carry(profiles, selected, q, derived)
        else if action == Join && q.requested.Some? then Err(JoinSelects)
        else if action != Join && q.requested.None? then Err(NothingSelected)
        else Carry(profiles, selected, q, action)
  }

  function Carry(profiles: seq<Profile>, selected: Option<Profile>, q: Connection, action: Action): Result<Transition> {
    match action
    case Unset => Err(NoAction)
    case Join =>
      if |profiles| >= MAXIMUM_PROFILES then Err(Full)
      else Ok(Transition(Profile(q.drawn, q.client, 1, 1, q.mode), true, true, None, None))
    case Reconnect =>
      if selected.None? || selected.value.client != q.client then Err(NotLocal)
      else if selected.value.mode == q.mode then Ok(Transition(selected.value, false, false, None, None))
      else
        var profile := selected.value;
        Ok(Transition(profile.(revision := profile.revision + 1, mode := q.mode), true, false, selected, None))
    case Takeover =>
      if selected.None? || selected.value.client == q.client then Err(AlreadyLocal)
      else
        var profile := selected.value;
        Ok(Transition(profile.(revision := profile.revision + 1, client := q.client,
                               generation := profile.generation + 1, mode := q.mode),
                      true, false, selected, Some(profile.client)))
  }

  /** The vault's profiles after the transition: the listing itself when it publishes
      nothing. */
  function Applied(profiles: seq<Profile>, t: Transition): (r: seq<Profile>)
    ensures !t.publish ==> r == profiles
    ensures t.publish && t.createOnly ==> r == profiles + [t.profile]
    ensures t.publish && !t.createOnly ==> |r| == |profiles|
    ensures t.publish && !t.createOnly ==> forall k :: 0 <= k < |r| ==>
      r[k] == if profiles[k].uuid == t.profile.uuid then t.profile else profiles[k]
  {
    if !t.publish then profiles
    else if t.createOnly then profiles + [t.profile]
    else seq(|profiles|, k requires 0 <= k < |profiles| =>
           if profiles[k].uuid == t.profile.uuid then t.profile else profiles[k])
  }

  /** At most the one profile `uuid` is attached to this computer. */
  ghost predicate OnlyAttachment(profiles: seq<Profile>, client: Client, uuid: Uuid) {
    && (forall p :: p in profiles && p.client == client ==> p.uuid == uuid)
    && exists p :: p in profiles && p.client == client && p.uuid == uuid
  }

  lemma NoLocals(profiles: seq<Profile>, client: Client)
    ensures Locals(profiles, client) == [] ==> forall p :: p in profiles ==> p.client != client
    ensures |Locals(profiles, client)| == 1 ==>
      forall p :: p in profiles && p.client == client ==> p == Locals(profiles, client)[0]
    ensures Locals(profiles, client) != [] ==>
      Locals(profiles, client)[0] in profiles && Locals(profiles, client)[0].client == client
  {
    forall p | p in profiles ensures p in Locals(profiles, client) <==> p.client == client {
      LocalsAre(profiles, client, p);
    }
    if Locals(profiles, client) != [] { LocalsAre(profiles, client, Locals(profiles, client)[0]); }
  }

  /** What an accepted transition is: a new profile of this computer when none is
      attached to it, or the selected one, when no other is. */
  lemma Accepted(profiles: seq<Profile>, selected: Option<Profile>, q: Connection)
    requires |profiles| <= MAXIMUM_PROFILES && (q.imported ==> profiles == [])
    requires Prepare(profiles, selected, q).Ok?
    ensures var t := Prepare(profiles, selected, q).value;
      && t.profile.client == q.client && t.profile.mode == q.mode
      && |Locals(profiles, q.client)| <= 1 && (t.takenFrom.Some? ==> !t.createOnly)
      && (t.createOnly ==> t.publish) && (t.publish || selected == Some(t.profile))
      && (q.imported ==> t.createOnly) && (!q.imported && q.sole ==> |profiles| == 1 && !t.createOnly)
      && (t.createOnly ==> t.profile.uuid == q.drawn && Locals(profiles, q.client) == [] && |profiles| < MAXIMUM_PROFILES)
      && (!t.createOnly ==>
            && selected.Some? && t.profile.uuid == selected.value.uuid
            && (selected.value.client == q.client || t.takenFrom == Some(selected.value.client))
            && (Locals(profiles, q.client) != [] ==> Locals(profiles, q.client)[0].uuid == t.profile.uuid))
  {
  }

  /** Every accepted transition, applied to the profiles it was reviewed on,
      leaves exactly one profile attached to this computer, at most 256 profiles
      and their identities distinct. */
  lemma OneAttachment(profiles: seq<Profile>, selected: Option<Profile>, q: Connection)
    requires Distinct(profiles) && |profiles| <= MAXIMUM_PROFILES
    requires q.imported ==> profiles == []
    requires forall p :: p in profiles ==> p.uuid != q.drawn
    requires selected.Some? ==> Selects(profiles, q.client, q.requested, Ok(selected))
    requires Prepare(profiles, selected, q).Ok?
    ensures var t := Prepare(profiles, selected, q).value;
            && Distinct(Applied(profiles, t)) && |Applied(profiles, t)| <= MAXIMUM_PROFILES
            && OnlyAttachment(Applied(profiles, t), q.client, t.profile.uuid)
            && t.profile.client == q.client && t.profile.mode == q.mode
  {
    NoLocals(profiles, q.client);
    Accepted(profiles, selected, q);
    assert selected.Some? ==> selected.value in profiles;
    hide Prepare, Locals, Selects;
    var t := Prepare(profiles, selected, q).value;
    if t.createOnly {
      assert t.profile in Applied(profiles, t);
    } else {
      var i := AppliedInPlace(profiles, selected.value, t);
      OnlyReplaced(profiles, q.client, i, t.profile);
    }
  }

  /** A transition of a listed profile takes its place in the listing. */
  lemma AppliedInPlace(profiles: seq<Profile>, selected: Profile, t: Transition) returns (i: nat)
    requires Distinct(profiles) && selected in profiles && !t.createOnly && t.profile.uuid == selected.uuid
    requires t.publish || t.profile == selected
    ensures i < |profiles| && profiles[i] == selected && Applied(profiles, t) == profiles[i := t.profile]
  {
    i :| 0 <= i < |profiles| && profiles[i] == selected;
  }

  lemma OnlyReplaced(profiles: seq<Profile>, client: Client, i: nat, profile: Profile)
    requires Distinct(profiles) && i < |profiles| && profile.uuid == profiles[i].uuid && profile.client == client
    requires forall p :: p in profiles && p.client == client ==> p.uuid == profile.uuid
    ensures Distinct(profiles[i := profile]) && OnlyAttachment(profiles[i := profile], client, profile.uuid)
  {
    assert profiles[i := profile][i] == profile;
  }

  /** A takeover raises the attachment generation and the revision by exactly one,
      keeps the profile's identity, and is published over the reviewed profile. */
  lemma TakeoverRaisesByOne(profiles: seq<Profile>, selected: Option<Profile>, q: Connection)
    requires Prepare(profiles, selected, q).Ok? && Prepare(profiles, selected, q).value.takenFrom.Some?
    ensures var t := Prepare(profiles, selected, q).value;
            && selected.Some? && t.expected == selected && t.publish && !t.createOnly
            && t.profile.uuid == selected.value.uuid && t.profile.generation == selected.value.generation + 1
            && t.profile.revision == selected.value.revision + 1
            && t.takenFrom == Some(selected.value.client) && selected.value.client != q.client
            && t.profile == selected.value.(client := q.client, mode := q.mode, generation := t.profile.generation,
                                            revision := t.profile.revision)
  {
  }

  lemma TakesOverIntoNone(profiles: seq<Profile>, selected: Option<Profile>, q: Connection)
    requires Distinct(profiles) && |profiles| <= MAXIMUM_PROFILES && (q.imported ==> profiles == [])
    requires selected.Some? ==> selected.value in profiles
    requires Prepare(profiles, selected, q).Ok? && Prepare(profiles, selected, q).value.takenFrom.Some?
    ensures Locals(profiles, q.client) == []
  {
    hide Prepare, Locals;
    TakeoverRaisesByOne(profiles, selected, q);
    Accepted(profiles, selected, q);
    NoLocals(profiles, q.client);
    var locals := Locals(profiles, q.client);
    assert locals != [] ==> locals[0] in profiles && locals[0].uuid == selected.value.uuid;
    assert locals == [] by {
      forall p | p in profiles && p.uuid == selected.value.uuid ensures p == selected.value {
        UuidIdentifies(profiles, selected.value, p);
      }
    }
  }

  /** Profile `i` was moved to `client`, one generation and one revision later, and
      nothing else was. */
  ghost predicate MovedTo(before: seq<Profile>, i: nat, client: Client, mode: nat, after: seq<Profile>)
    requires i < |before|
  {
    after == before[i := before[i].(client := client, mode := mode, generation := before[i].generation + 1,
                                    revision := before[i].revision + 1)]
  }

  /** A profile takeover moves one profile and nothing else: the selected one leaves
      its former computer for this one, which had none, one generation and one
      revision later; every other profile stays, in its place. */
  lemma TakeoverMovesOneProfile(profiles: seq<Profile>, selected: Option<Profile>, q: Connection, t: Transition)
    requires Distinct(profiles) && |profiles| <= MAXIMUM_PROFILES && (q.imported ==> profiles == [])
    requires selected.Some? ==> selected.value in profiles
    requires Prepare(profiles, selected, q) == Ok(t) && t.takenFrom.Some?
    ensures Locals(profiles, q.client) == [] && Locals(Applied(profiles, t), q.client) == [t.profile]
    ensures exists i :: 0 <= i < |profiles| && profiles[i].client == t.takenFrom.value
                        && MovedTo(profiles, i, q.client, q.mode, Applied(profiles, t))
  {
    hide Prepare, Locals, Applied;
    TakeoverRaisesByOne(profiles, selected, q);
    TakesOverIntoNone(profiles, selected, q);
    var i := AppliedInPlace(profiles, selected.value, t);
    assert MovedTo(profiles, i, q.client, q.mode, Applied(profiles, t));
    hide MovedTo, Distinct;
    OneMoved(profiles, q.client, i, t.profile);
  }

  lemma {:induction false} OneMoved(profiles: seq<Profile>, client: Client, i: nat, moved: Profile)
    requires i < |profiles| && Locals(profiles, client) == [] && moved.client == client
    ensures Locals(profiles[i := moved], client) == [moved]
    decreases |profiles|
  {
    var after := profiles[i := moved];
    if i == 0 {
      assert after[1..] == profiles[1..];
    } else {
      assert after[1..] == profiles[1..][i - 1 := moved];
      OneMoved(profiles[1..], client, i - 1, moved);
    }
  }

  // ----- When it is accepted, and what it publishes -------------------------

  /** A native import: a new profile in a vault without any. */
  predicate Imports(q: Connection) { q.imported && q.requested.None? && q.action in {Unset, Join} && q.keepsOwner }

  /** A new profile beside those of other computers. */
  predicate Joins(profiles: seq<Profile>, q: Connection) {
    && !q.imported && !q.sole && Locals(profiles, q.client) == [] && q.action == Join && q.requested.None?
    && |profiles| < MAXIMUM_PROFILES
  }

  /** A profile may be named by the vault being its only one. */
  predicate Chosen(profiles: seq<Profile>, q: Connection, action: Action) {
    if q.sole then |profiles| == 1 && (q.action == Unset || (q.action == action && q.requested.Some?))
    else q.requested.Some? && (q.action == action || (q.action == Unset && action == Reconnect))
  }

  predicate Reconnects(profiles: seq<Profile>, selected: Option<Profile>, q: Connection) {
    !q.imported && selected.Some? && Locals(profiles, q.client) == [selected.value] && Chosen(profiles, q, Reconnect)
  }

  predicate TakesOver(profiles: seq<Profile>, selected: Option<Profile>, q: Connection) {
    !q.imported && selected.Some? && Locals(profiles, q.client) == [] && Chosen(profiles, q, Takeover)
  }

  lemma SelectedLocal(profiles: seq<Profile>, selected: Option<Profile>, client: Client)
    requires Distinct(profiles) && (selected.Some? ==> selected.value in profiles)
    ensures selected.Some? && selected.value.client == client ==> selected.value in Locals(profiles, client)
    ensures |Locals(profiles, client)| == 1 ==>
      var local := Locals(profiles, client)[0];
      && local.client == client && (selected.Some? && selected.value.uuid == local.uuid <==> selected == Some(local))
    ensures |Locals(profiles, client)| <= |profiles|
  {
    var locals := Locals(profiles, client);
    if selected.Some? { LocalsAre(profiles, client, selected.value); }
    if |locals| == 1 {
      LocalsAre(profiles, client, locals[0]);
      if selected.Some? && selected.value.uuid == locals[0].uuid { UuidIdentifies(profiles, selected.value, locals[0]); }
    }
  }

  /** A connection is accepted exactly as one of these four. */
  lemma AcceptedExactly(profiles: seq<Profile>, selected: Option<Profile>, q: Connection)
    requires Distinct(profiles) && (selected.Some? ==> selected.value in profiles)
    ensures Prepare(profiles, selected, q).Ok? <==>
      Imports(q) || Joins(profiles, q) || Reconnects(profiles, selected, q) || TakesOver(profiles, selected, q)
  {
    SelectedLocal(profiles, selected, q.client);
    hide Locals, Distinct;
  }

  /** What an accepted connection publishes: a new profile, the selected one a revision
      later, over exactly the reviewed one, or nothing when nothing changes. */
  lemma PublishesExactlyChanges(profiles: seq<Profile>, selected: Option<Profile>, q: Connection, t: Transition)
    requires Distinct(profiles) && (selected.Some? ==> selected.value in profiles)
    requires Prepare(profiles, selected, q) == Ok(t)
    ensures t.publish <==> Applied(profiles, t) != profiles
    ensures Imports(q) || Joins(profiles, q) ==>
      t == Transition(Profile(q.drawn, q.client, 1, 1, q.mode), true, true, None, None)
    ensures Reconnects(profiles, selected, q) ==>
      var was := selected.value;
      && t.takenFrom == None && !t.createOnly && (t.publish <==> was.mode != q.mode)
      && t.profile == (if t.publish then was.(revision := was.revision + 1, mode := q.mode) else was)
      && t.expected == (if t.publish then selected else None)
    ensures TakesOver(profiles, selected, q) ==>
      var was := selected.value;
      t == Transition(was.(revision := was.revision + 1, client := q.client, generation := was.generation + 1, mode := q.mode),
                      true, false, selected, Some(was.client))
  {
    AcceptedExactly(profiles, selected, q);
    SelectedLocal(profiles, selected, q.client);
    hide Locals;
    if t.publish && !t.createOnly {
      assert t.profile != selected.value && t.profile.uuid == selected.value.uuid;
      hide Prepare;
      var i := AppliedInPlace(profiles, selected.value, t);
      assert Applied(profiles, t)[i] != profiles[i];
    }
  }

  // ----- Retrying a saved connection ----------------------------------------

  /** What a saved connection keeps of its transition. */
  datatype Saved = Saved(imported: bool, sole: bool, uuid: Uuid, client: Client, creates: bool, takenFrom: Option<Client>)

  method CheckPending(profiles: seq<Profile>, s: Saved) returns (refusal: Option<Refusal>)
    ensures refusal == None <==> Admitted(profiles, s)
  {
    if s.imported {
      if |profiles| == 0 { return None; }
      if |profiles| == 1 && profiles[0].uuid == s.uuid && profiles[0].client == s.client { return None; }
      return Some(Unexpected);
    }
    if s.sole && s.creates && |profiles| == 0 { return None; }
    if s.sole && |profiles| != 1 { return Some(NotSole); }
    var locals: seq<Profile>, selected, n := [], None, 0;
    while n < |profiles|
      invariant 0 <= n <= |profiles| && locals == Locals(profiles[..n], s.client)
      invariant selected == Named(profiles[..n], s.uuid)
    {
      var choice := profiles[n];
      LocalsAppend(profiles[..n], s.client, choice);
      assert profiles[..n + 1] == profiles[..n] + [choice];
      if choice.client == s.client { locals := locals + [choice]; }
      if choice.uuid == s.uuid { selected := Some(choice); }
      n := n + 1;
    }
    assert profiles[..n] == profiles;
    if |locals| > 1 { return Some(SeveralLocal); }
    if |locals| == 1 && locals[0].uuid != s.uuid { return Some(AttachedElsewhere); }
    if selected.None? {
      if s.creates && !s.sole {
        if |profiles| >= MAXIMUM_PROFILES { return Some(Full); }
        return None;
      }
      return Some(ProfileGone);
    }
    if selected.value.client == s.client { return None; }
    if s.takenFrom == Some(selected.value.client) { return None; }
    return Some(Unexpected);
  }

  /** The last listed profile with that identity. */
  function Named(profiles: seq<Profile>, uuid: Uuid): (r: Option<Profile>)
    ensures r.Some? ==> r.value in profiles && r.value.uuid == uuid
    ensures r.None? ==> forall p :: p in profiles ==> p.uuid != uuid
  {
    if profiles == [] then None
    else if profiles[|profiles| - 1].uuid == uuid then Some(profiles[|profiles| - 1])
    else Named(profiles[..|profiles| - 1], uuid)
  }

  ghost predicate Admitted(profiles: seq<Profile>, s: Saved) {
    if s.imported then
      profiles == [] || (|profiles| == 1 && profiles[0].uuid == s.uuid && profiles[0].client == s.client)
    else if s.sole && s.creates && profiles == [] then true
    else
      var locals := Locals(profiles, s.client);
      && (s.sole ==> |profiles| == 1)
      && |locals| <= 1 && (|locals| == 1 ==> locals[0].uuid == s.uuid)
      && match Named(profiles, s.uuid)
         case None => s.creates && !s.sole && |profiles| < MAXIMUM_PROFILES
         case Some(p) => p.client == s.client || s.takenFrom == Some(p.client)
  }

  /** An admitted retry finds no other profile attached to this computer. */
  lemma AdmittedHasNoOther(profiles: seq<Profile>, s: Saved)
    requires Admitted(profiles, s)
    ensures forall p :: p in profiles && p.client == s.client ==> p.uuid == s.uuid
  {
    NoLocals(profiles, s.client);
  }

  function SavedOf(q: Connection, t: Transition): Saved {
    Saved(q.imported, q.sole, t.profile.uuid, q.client, t.createOnly, t.takenFrom)
  }

  /** With no other computer in between, a retry is admitted both before and after
      its own profile was published. */
  lemma OwnRetryIsAdmitted(profiles: seq<Profile>, selected: Option<Profile>, q: Connection)
    requires Distinct(profiles) && |profiles| <= MAXIMUM_PROFILES
    requires q.imported ==> profiles == []
    requires forall p :: p in profiles ==> p.uuid != q.drawn
    requires selected.Some? ==> Selects(profiles, q.client, q.requested, Ok(selected))
    requires Prepare(profiles, selected, q).Ok?
    ensures var t := Prepare(profiles, selected, q).value;
            Admitted(profiles, SavedOf(q, t)) && Admitted(Applied(profiles, t), SavedOf(q, t))
  {
    var t := Prepare(profiles, selected, q).value;
    var after := Applied(profiles, t);
    OneAttachment(profiles, selected, q);
    Accepted(profiles, selected, q);
    NoLocals(profiles, q.client);
    if !t.createOnly {
      assert selected.value in profiles;
      UuidIdentifies(profiles, selected.value, Named(profiles, selected.value.uuid).value);
    }
    AtMostOne(after, q.client, t.profile.uuid);
    hide Prepare, Selects, Locals, Named, Distinct, OnlyAttachment;
  }

  /** Distinct identities: only one profile can be the attached one. */
  lemma AtMostOne(profiles: seq<Profile>, client: Client, uuid: Uuid)
    requires Distinct(profiles) && OnlyAttachment(profiles, client, uuid)
    ensures |Locals(profiles, client)| == 1 && Locals(profiles, client)[0].uuid == uuid
    ensures Named(profiles, uuid).Some? && Named(profiles, uuid).value.client == client
  {
    NoLocals(profiles, client);
    var p :| p in profiles && p.client == client && p.uuid == uuid;
    UuidIdentifies(profiles, p, Named(profiles, uuid).value);
    var locals := Locals(profiles, client);
    LocalsAre(profiles, client, p);
    if |locals| > 1 {
      LocalsAre(profiles, client, locals[0]);
      LocalsAre(profiles, client, locals[1]);
      UuidIdentifies(profiles, p, locals[0]);
      UuidIdentifies(profiles, p, locals[1]);
      LocalsCounted(profiles, client, p);
      assert locals == [locals[0]] + [locals[1]] + locals[2..];
      assert multiset(locals)[p] >= 2;
      CountedOnce(profiles, p);
    }
  }

  lemma {:induction false} CountedOnce(profiles: seq<Profile>, p: Profile)
    requires Distinct(profiles)
    ensures multiset(profiles)[p] <= 1
  {
    if profiles != [] {
      assert profiles == [profiles[0]] + profiles[1..];
      CountedOnce(profiles[1..], p);
      assert forall k :: 0 <= k < |profiles[1..]| ==> profiles[1..][k] == profiles[k + 1];
      assert profiles[0] == p ==> p !in profiles[1..];
    }
  }
}
