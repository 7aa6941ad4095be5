/** Publication of a protected record in the vault's sidecar store: a pending
    upload, a preserved previous generation, and the copy into place. */
module Publication {
  import opened Options

  /** The bytes of a record, and whether they carry a password-change fence. */
  datatype Data = Data(bytes: nat, fenced: bool)
  datatype Object = Readable(data: Data) | Unreadable

  /** Publication identities. A takeover draws a fresh one for every publish, a
      connection keeps its intent's and derives one more for its final root. */
  datatype Id = Fresh(number: nat) | OfIntent(op: nat) | FinalOf(op: nat)

  datatype Outcome = Published | AlreadyThere | Fenced | Appeared | Changed | Conflict | Failed

  /** Which commands fail. A readback that fails finds its copy done all the same. */
  datatype Faults = Faults(upload: bool, pendingRead: bool, preserve: bool, previousRead: bool, copy: bool,
                           canonicalRead: bool, cleanup: bool)
  const NO_FAULTS := Faults(false, false, false, false, false, false, false)

  /** What other computers publish meanwhile: during the upload, between the check
      that follows it and the preserving copy, between that and the last check,
      between the last check and the copy into place, and before its readback. */
  datatype Rivals = Rivals(upload: Option<Data>, checked: Option<Data>, preserved: Option<Data>, raced: Option<Data>,
                           copied: Option<Data>)
  {
    /** A record was published early enough for the last check to see it. */
    predicate Seen(d: Data) { upload == Some(d) || checked == Some(d) || preserved == Some(d) }

    predicate By(d: Data) { Seen(d) || raced == Some(d) || copied == Some(d) }

    /** The last of those. */
    function Last(): Option<Data> {
      if preserved.Some? then preserved else if checked.Some? then checked else upload
    }

    /** Those published that early are the reviewed record again, if there was one: each
        of them when it could be read in its place, else the last. */
    predicate Agree(basis: Option<Data>, inPlace: bool) {
      && (basis.Some? ==> Last() in {None, basis})
      && (inPlace ==> upload in {None, basis} && checked in {None, basis} && preserved in {None, basis})
    }

    predicate Left(o: Option<Object>) { Valid(o) && By(o.value.data) }

    predicate Among(all: Rivals) {
      && upload in {None, all.upload} && checked in {None, all.checked} && preserved in {None, all.preserved}
      && raced in {None, all.raced} && copied in {None, all.copied}
    }

    /** The records published, and those two, are all different. */
    ghost predicate Differ(old_: Data, plain: Data) {
      && !By(old_) && !By(plain) && old_ != plain
      && (upload.Some? ==> upload !in {checked, preserved, raced, copied})
      && (checked.Some? ==> checked !in {preserved, raced, copied})
      && (preserved.Some? ==> preserved !in {raced, copied}) && (raced.Some? ==> raced != copied)
    }

    /** At most one of the last publications before the copy, from the given instant on. */
    predicate OneSinceUpload() { (upload.None? && OneSinceCheck()) || (checked.None? && preserved.None? && raced.None?) }

    predicate OneSinceCheck() { (checked.None? && OneSincePreserving()) || (preserved.None? && raced.None?) }

    predicate OneSincePreserving() { preserved.None? || raced.None? }

    /** The record that was in place is kept: after the copy while no other computer
        publishes; before it while at most one does, and none of them just before it is
        preserved again. */
    predicate OldStays(kept: bool, copies: bool) {
      if copies then copied.None?
      else if kept then checked.None? && OneSincePreserving()
      else OneSinceUpload()
    }
  }
  const NO_RIVALS := Rivals(None, None, None, None, None)

  datatype Request = Request(plain: Data, id: Id, createOnly: bool, expected: Option<Data>)
  /** The record in place and the one preserved before it. */
  datatype Pair = Pair(canonical: Option<Object>, previous: Option<Object>)

  datatype Objects = Objects(canonical: Option<Object>, previous: Option<Object>, pending: map<Id, Data>) {
    function Both(): Pair { Pair(canonical, previous) }
  }

  predicate Valid(o: Option<Object>) { o.Some? && o.value.Readable? }

  predicate Shows(o: Option<Object>, data: Data) { o == Some(Readable(data)) }

  /** The generation a publication builds on. */
  function Basis(canonical: Option<Object>, previous: Option<Object>): Option<Data> {
    if Valid(canonical) then Some(canonical.value.data)
    else if Valid(previous) then Some(previous.value.data)
    else None
  }

  /** What the checks before the upload admit. */
  predicate Publishable(canonical: Option<Object>, previous: Option<Object>, q: Request) {
    var basis := Basis(canonical, previous);
    && !Shows(canonical, q.plain) && (basis.Some? ==> !basis.value.fenced)
    && (q.createOnly ==> canonical == None && basis == None) && (q.expected.Some? ==> basis == q.expected)
  }

  /** Another computer publishes a record: it preserves the one in place. */
  function Interfered(s: Pair, rival: Option<Data>): Pair {
    if rival.None? then s
    else s.(canonical := Some(Readable(rival.value)),
            previous := if Valid(s.canonical) then s.canonical else s.previous)
  }

  /** The records before the copy into place, once `rivals` published and, if
      `kept`, the one in place was preserved between two of them. */
  function Meanwhile(s: Pair, rivals: Rivals, kept: bool): Pair {
    var checked := Interfered(Interfered(s, rivals.upload), rivals.checked);
    var preserved := if kept then checked.(previous := checked.canonical) else checked;
    Interfered(Interfered(preserved, rivals.preserved), rivals.raced)
  }

  /** The records at the end. */
  function Records(s: Pair, plain: Data, rivals: Rivals, kept: bool, copied: bool): Pair {
    var before := Meanwhile(s, rivals, kept);
    if copied then Interfered(before.(canonical := Some(Readable(plain))), rivals.copied) else before
  }

  /** What happens to the records themselves: `rivals` are those that published before
      the end, `kept` tells whether this publication preserved the one in place, and
      `copied` whether its copy into place was done. */
  ghost predicate Moved(s: Pair, s': Pair, plain: Data, rivals: Rivals, kept: bool, copied: bool) {
    var basis := Basis(s.canonical, s.previous);
    && s' == Records(s, plain, rivals, kept, copied)
    && (kept ==> Valid(s.canonical) && rivals.upload in {None, basis})
    // A record another computer published meanwhile is replaced only when it is the
    // reviewed one, when nothing was there to review, or after the last check.
    && (if copied then kept == Valid(s.canonical) && rivals.Agree(basis, kept) else rivals.copied == None)
    && (copied ==> Shows(s'.canonical, if rivals.copied.Some? then rivals.copied.value else plain))
    && (!copied ==> s'.canonical == s.canonical || rivals.Left(s'.canonical))
    && (s'.previous == s.previous || s'.previous == s.canonical || (copied && Shows(s'.previous, plain))
        || rivals.Left(s'.previous))
  }

  predicate Stays(s: Pair, d: Data) { Shows(s.canonical, d) || Shows(s.previous, d) }

  /** When the record that was in place is lost: exactly when `OldStays` fails, as far as
      nobody published the same bytes again. */
  lemma OldRecord(s: Pair, s': Pair, plain: Data, rivals: Rivals, kept: bool, copied: bool, d: Data)
    requires Moved(s, s', plain, rivals, kept, copied) && Shows(s.canonical, d)
    ensures rivals.OldStays(kept, copied) ==> Stays(s', d)
    ensures rivals.Differ(d, plain) ==> (Stays(s', d) <==> rivals.OldStays(kept, copied))
  {
  }

  /** When another computer's record is lost, if the reviewed one could be read in its
      place: one that the last check could see, only after two more by others; one that
      raced with the copy, exactly if the copy was done. */
  lemma OthersRecords(s: Pair, s': Pair, plain: Data, rivals: Rivals, kept: bool, copied: bool, d: Data)
    requires Moved(s, s', plain, rivals, kept, copied) && Shows(s.canonical, d) && rivals.Differ(d, plain)
    ensures rivals.upload.Some? ==>
      !kept && !copied && (Stays(s', rivals.upload.value) <==> rivals.OneSinceCheck())
    ensures rivals.checked.Some? ==> !copied && (Stays(s', rivals.checked.value) <==> rivals.OneSincePreserving())
    ensures rivals.preserved.Some? ==> !copied && Stays(s', rivals.preserved.value)
    ensures rivals.raced.Some? ==> (Stays(s', rivals.raced.value) <==> !copied)
    ensures rivals.copied.Some? ==> copied && Stays(s', rivals.copied.value)
  {
  }

  lemma MovedBeforeCopy(s: Pair, plain: Data, rivals: Rivals, kept: bool)
    requires rivals.copied == None && (kept ==> Valid(s.canonical) && rivals.upload in {None, Basis(s.canonical, s.previous)})
    ensures Moved(s, Meanwhile(s, rivals, kept), plain, rivals, kept, false)
  {}

  lemma MovedByCopy(s: Pair, plain: Data, rivals: Rivals)
    requires rivals.Agree(Basis(s.canonical, s.previous), Valid(s.canonical))
    ensures var before := Meanwhile(s, rivals, Valid(s.canonical));
      Moved(s, Interfered(before.(canonical := Some(Readable(plain))), rivals.copied), plain, rivals, Valid(s.canonical), true)
  {}

  /** What the last check tells about the other computers. */
  lemma LastCheck(s: Pair, rivals: Rivals)
    requires rivals.raced == None
    requires var now := Meanwhile(s, rivals, Valid(s.canonical));
      Basis(s.canonical, s.previous) in {None, Basis(now.canonical, now.previous)}
    requires Valid(s.canonical) ==>
      rivals.upload in {None, Basis(s.canonical, s.previous)} && rivals.checked in {None, Basis(s.canonical, s.previous)}
    ensures rivals.Agree(Basis(s.canonical, s.previous), Valid(s.canonical))
  {}

  /** What one publication may do, whatever fails and whatever other computers
      publish meanwhile. */
  ghost predicate Allowed(s: Objects, s': Objects, q: Request, rivals: Rivals, outcome: Outcome, kept: bool, copied: bool) {
    var basis := Basis(s.canonical, s.previous);
    // Only this publication's own pending name is touched, and only with its bytes.
    && (forall i :: i != q.id ==> (i in s'.pending <==> i in s.pending) && (i in s.pending ==> s'.pending[i] == s.pending[i]))
    && (q.id in s'.pending ==> s'.pending[q.id] == q.plain || (q.id in s.pending && s'.pending[q.id] == s.pending[q.id]))
    && (outcome != Published && outcome != AlreadyThere && q.id in s.pending ==>
          q.id in s'.pending && s'.pending[q.id] == s.pending[q.id])
    // The record is copied into place only over exactly the reviewed one.
    && Moved(s.Both(), s'.Both(), q.plain, rivals, kept, copied)
    && (copied ==>
          && (q.createOnly ==> basis == None) && (q.expected.Some? ==> basis == q.expected)
          && (basis.Some? ==> !basis.value.fenced) && (q.id in s.pending ==> s.pending[q.id] == q.plain))
    // Success means that it is there; an error may still be reported after the copy,
    // which is not undone.
    && (outcome == Published ==> copied && Shows(s'.canonical, q.plain))
    && (copied ==> outcome in {Published, Failed})
    && (outcome == AlreadyThere ==>
          Shows(s.canonical, q.plain) && s'.canonical == s.canonical && s'.previous == s.previous)
    && (Shows(s.canonical, q.plain) && !q.plain.fenced ==> outcome == AlreadyThere)
    // A conflict is reported only for different bytes under the same name.
    && (outcome == Conflict ==> q.id in s.pending && s.pending[q.id] != q.plain)
    && (outcome == Fenced ==> basis.Some? && basis.value.fenced)
  }

  /** An attempt that ends before the records are touched. */
  lemma AllowedRefusal(s: Objects, s': Objects, q: Request, outcome: Outcome)
    requires s'.Both() == s.Both() && outcome != Published && Moved(s.Both(), s.Both(), q.plain, NO_RIVALS, false, false)
    requires || s'.pending == s.pending || (outcome == AlreadyThere && s'.pending == s.pending - {q.id})
             || (q.id !in s.pending && s'.pending == s.pending[q.id := q.plain])
    requires outcome == AlreadyThere ==> Shows(s.canonical, q.plain)
    requires Shows(s.canonical, q.plain) && !q.plain.fenced ==> outcome == AlreadyThere
    requires outcome == Conflict ==> q.id in s.pending && s.pending[q.id] != q.plain
    requires outcome == Fenced ==> Basis(s.canonical, s.previous).Some? && Basis(s.canonical, s.previous).value.fenced
    ensures Allowed(s, s', q, NO_RIVALS, outcome, false, false)
  {
    hide Moved, Basis;
  }

  /** An attempt that was reviewed and uploaded. */
  lemma AllowedEnd(s: Objects, s': Objects, q: Request, rivals: Rivals, outcome: Outcome, kept: bool, copied: bool)
    requires Moved(s.Both(), s'.Both(), q.plain, rivals, kept, copied)
    requires outcome in {Published, Changed, Failed} && (copied ==> outcome in {Published, Failed})
    requires outcome == Published ==> copied && Shows(s'.canonical, q.plain)
    requires q.id in s.pending ==> s.pending[q.id] == q.plain
    requires s'.pending == s.pending[q.id := q.plain]
             || (outcome == Published && s'.pending == s.pending[q.id := q.plain] - {q.id})
    requires !Shows(s.canonical, q.plain)
    requires var basis := Basis(s.canonical, s.previous);
      && (q.createOnly ==> basis == None) && (q.expected.Some? ==> basis == q.expected)
      && (basis.Some? ==> !basis.value.fenced)
    ensures Allowed(s, s', q, rivals, outcome, kept, copied)
  {
    hide Moved, Basis;
  }

  class SidecarStore {
    var canonical: Option<Object>
    var previous: Option<Object>
    var pending: map<Id, Data>

    function View(): (s: Objects)
      reads this
    {
      Objects(canonical, previous, pending)
    }

    function Both(): Pair
      reads this
    {
      Pair(canonical, previous)
    }

    constructor ()
      ensures View() == Objects(None, None, map[])
    {
      canonical, previous, pending := None, None, map[];
    }

    /** The current record, or its fallback when it cannot be read, is the expected one. */
    predicate ExpectedCurrent(expected: Option<Data>)
      reads this
    {
      expected == None || Basis(canonical, previous) == expected
    }

    method Cleanup(id: Id, fails: bool)
      modifies this`pending
      ensures pending == if fails then old(pending) else old(pending) - {id}
    {
      if !fails { pending := pending - {id}; }
    }

    /** The checks before anything is uploaded: the record they build on, or why
        they refuse. */
    method Review(q: Request) returns (refusal: Option<Outcome>, expected: Option<Data>)
      ensures refusal == None <==> Publishable(canonical, previous, q)
      ensures var basis := Basis(canonical, previous);
        match refusal
        case None =>
          && !Shows(canonical, q.plain) && expected == (if q.createOnly then q.expected else basis)
          && (basis.Some? ==> !basis.value.fenced)
          && (q.createOnly ==> basis == None && canonical == None)
          && (q.expected.Some? ==> basis == q.expected)
        case Some(outcome) =>
          && (outcome == AlreadyThere <==> Shows(canonical, q.plain) && !q.plain.fenced)
          && (outcome == Fenced ==> basis.Some? && basis.value.fenced)
          && (basis.Some? && basis.value.fenced ==> outcome in {Fenced, Appeared})
          && (outcome == Appeared ==> q.createOnly && (canonical.Some? || basis.Some?))
          && (outcome == Changed ==> q.expected.Some? && basis != q.expected)
          && outcome in {AlreadyThere, Fenced, Appeared, Changed}
    {
      expected := q.expected;
      if canonical.Some? {
        if canonical.value.Readable? {
          if canonical.value.data.fenced { return Some(Fenced), expected; }
          if canonical.value.data == q.plain { return Some(AlreadyThere), expected; }
        }
        if q.createOnly { return Some(Appeared), expected; }
      }
      var previousValid := Valid(previous);
      var currentValid := Valid(canonical);
      if !currentValid && previousValid && previous.value.data.fenced { return Some(Fenced), expected; }
      if q.createOnly && canonical.None? && previousValid { return Some(Appeared), expected; }
      if expected == None && !q.createOnly { expected := Basis(canonical, previous); }
      if !ExpectedCurrent(expected) { return Some(Changed), expected; }
      return None, expected;
    }

    method Interfere(rival: Option<Data>)
      modifies this`canonical, this`previous
      ensures Both() == Interfered(old(Both()), rival)
    {
      if rival.Some? {
        if Valid(canonical) { previous := canonical; }
        canonical := Some(Readable(rival.value));
      }
    }

    /** The preserving copy: the reviewed record is looked up again before it, and the
        preserved one is read back. */
    method Preserve(expected: Option<Data>, currentValid: bool, rivals: Rivals, faults: Faults)
      returns (refusal: Option<Outcome>, ghost met: Rivals, ghost kept: bool)
      requires (currentValid <==> Valid(canonical)) && expected == Basis(canonical, previous)
      modifies this`canonical, this`previous
      ensures Both() == Meanwhile(old(Both()), met, kept) && (kept ==> currentValid && met.upload in {None, expected})
      ensures met == NO_RIVALS.(upload := rivals.upload, checked := met.checked) && met.checked in {None, rivals.checked}
      ensures refusal in {None, Some(Changed), Some(Failed)}
      ensures refusal == None && currentValid ==> !faults.preserve && !faults.previousRead
      ensures kept ==> !faults.preserve
      ensures refusal == None ==> met.checked == rivals.checked && kept == currentValid && (currentValid ==> met.upload in {None, expected} && met.checked in {None, expected})
      ensures rivals == NO_RIVALS && !faults.preserve && !faults.previousRead ==> refusal == None
    {
      kept, met := false, NO_RIVALS.(upload := rivals.upload);
      Interfere(rivals.upload);
      if currentValid && !ExpectedCurrent(expected) { return Some(Changed), met, kept; }
      Interfere(rivals.checked);
      met := met.(checked := rivals.checked);
      if currentValid {
        if faults.preserve { return Some(Failed), met, kept; }
        previous, kept := canonical, true;
        if faults.previousRead || !Shows(previous, expected.value) { return Some(Failed), met, kept; }
      }
      return None, met, kept;
    }

    /** The copies into place, each after the reviewed record was looked up again. */
    method Replace(q: Request, expected: Option<Data>, currentValid: bool, rivals: Rivals, faults: Faults)
      returns (outcome: Outcome, ghost kept: bool, ghost copied: bool, ghost met: Rivals)
      requires q.id in pending && pending[q.id] == q.plain
      requires currentValid <==> Valid(canonical)
      requires expected == Basis(canonical, previous)
      modifies this`canonical, this`previous
      ensures outcome in {Published, Changed, Failed} && (copied ==> outcome in {Published, Failed})
      ensures outcome == Published ==> copied && Shows(canonical, q.plain)
      ensures Moved(old(Both()), Both(), q.plain, met, kept, copied) && met.Among(rivals)
      ensures rivals == NO_RIVALS && !faults.preserve && !faults.previousRead && !faults.copy && !faults.canonicalRead
              ==> outcome == Published
      ensures rivals == NO_RIVALS && !faults.preserve && !faults.previousRead && !faults.copy ==> copied
      ensures faults.canonicalRead ==> outcome != Published
      ensures (copied ==> !faults.copy && (kept ==> !faults.previousRead)) && (kept ==> !faults.preserve)
    {
      hide Moved;
      ghost var s := Both();
      var refusal;
      refusal, met, kept := Preserve(expected, currentValid, rivals, faults);
      copied := false;
      MovedBeforeCopy(s, q.plain, met, kept);
      if refusal.Some? { return refusal.value, kept, copied, met; }
      Interfere(rivals.preserved);
      met := met.(preserved := rivals.preserved);
      MovedBeforeCopy(s, q.plain, met, kept);
      if !ExpectedCurrent(expected) { return Changed, kept, copied, met; }
      LastCheck(s, met);
      Interfere(rivals.raced);
      met := met.(raced := rivals.raced);
      MovedBeforeCopy(s, q.plain, met, kept);
      if faults.copy { return Failed, kept, copied, met; }
      canonical := Some(Readable(pending[q.id]));
      Interfere(rivals.copied);
      copied, met := true, rivals;
      assert rivals.Agree(expected, currentValid);
      MovedByCopy(s, q.plain, met);
      if faults.canonicalRead || !Shows(canonical, q.plain) { return Failed, kept, copied, met; }
      return Published, kept, copied, met;
    }

    /** The pending object, an earlier attempt's or a new one, read back. */
    method Upload(q: Request, faults: Faults) returns (refusal: Option<Outcome>)
      modifies this`pending
      ensures refusal in {None, Some(Conflict), Some(Failed)}
      ensures refusal == Some(Conflict) <==> q.id in old(pending) && old(pending)[q.id] != q.plain
      ensures refusal == None ==> pending == old(pending)[q.id := q.plain] && !faults.pendingRead
      ensures faults.upload && q.id !in old(pending) ==> refusal == Some(Failed) && pending == old(pending)
      ensures refusal != None ==> pending == old(pending) || (q.id !in old(pending) && pending == old(pending)[q.id := q.plain])
      ensures refusal == Some(Failed) ==> faults.pendingRead || (q.id !in old(pending) && faults.upload)
    {
      if q.id in pending {
        if pending[q.id] != q.plain { return Some(Conflict); }
        assert pending == pending[q.id := q.plain];
      } else {
        if faults.upload { return Some(Failed); }
        pending := pending[q.id := q.plain];
      }
      return if faults.pendingRead then Some(Failed) else None;
    }

    method Publish(q: Request, rivals: Rivals, faults: Faults)
      returns (outcome: Outcome, ghost kept: bool, ghost copied: bool, ghost met: Rivals)
      modifies this
      ensures Allowed(old(View()), View(), q, met, outcome, kept, copied)
      ensures met.Among(rivals)
      ensures (outcome == Published || outcome == AlreadyThere) && !faults.cleanup ==> q.id !in pending
      ensures rivals == NO_RIVALS && faults == NO_FAULTS
              && old(Basis(canonical, previous)) == q.expected && q.expected.Some? && !q.createOnly
              && !q.expected.value.fenced && (q.id in old(pending) ==> old(pending)[q.id] == q.plain)
              ==> (outcome == Published || outcome == AlreadyThere) && Shows(canonical, q.plain)
      // A command that failed was not carried out, nor anything after it.
      ensures (copied ==> !faults.copy && !faults.pendingRead && (kept ==> !faults.previousRead))
              && (kept ==> !faults.preserve && !faults.pendingRead)
              && (faults.upload && q.id !in old(pending) ==> !kept && !copied && q.id !in pending)
      // When nothing fails and nobody else publishes, it is published exactly if it is
      // admitted, whether a record was there to review or not.
      ensures rivals == NO_RIVALS && faults == NO_FAULTS ==>
        (outcome == Published <==>
           old(Publishable(canonical, previous, q)) && (q.id in old(pending) ==> old(pending)[q.id] == q.plain))
      // Only the readback failed: the record is in place, and the error is reported.
      ensures rivals == NO_RIVALS && faults == NO_FAULTS.(canonicalRead := true) && !old(Shows(canonical, q.plain))
              && old(Basis(canonical, previous)) == q.expected && q.expected.Some? && !q.createOnly
              && !q.expected.value.fenced && (q.id in old(pending) ==> old(pending)[q.id] == q.plain)
              ==> outcome == Failed && copied && Shows(canonical, q.plain)
    {
      kept, copied, met := false, false, NO_RIVALS;
      var currentValid := canonical.Some? && canonical.value.Readable?;
      ghost var was := View();
      var refusal, expected := Review(q);
      assert was == View();
      MovedBeforeCopy(Both(), q.plain, NO_RIVALS, false);
      hide Moved, Allowed;
      if refusal.Some? {
        if refusal.value == AlreadyThere { Cleanup(q.id, faults.cleanup); }
        AllowedRefusal(was, View(), q, refusal.value);
        return refusal.value, kept, copied, met;
      }
      refusal := Upload(q, faults);
      if refusal.Some? {
        AllowedRefusal(was, View(), q, refusal.value);
        return refusal.value, kept, copied, met;
      }
      outcome, kept, copied, met := Replace(q, expected, currentValid, rivals, faults);
      if outcome == Published { Cleanup(q.id, faults.cleanup); }
      AllowedEnd(was, View(), q, met, outcome, kept, copied);
    }
  }

  // ----- Retries ------------------------------------------------------------

  /** One attempt, with whatever failed and whoever published meanwhile. */
  datatype Attempt = Attempt(request: Request, rivals: Rivals, outcome: Outcome, kept: bool, copied: bool)

  /** The store's objects before and after every attempt, starting without pending
      objects. */
  ghost predicate History(states: seq<Objects>, attempts: seq<Attempt>) {
    && |states| == |attempts| + 1 && states[0].pending == map[]
    && forall k :: 0 <= k < |attempts| ==>
         Allowed(states[k], states[k + 1], attempts[k].request, attempts[k].rivals, attempts[k].outcome, attempts[k].kept, attempts[k].copied)
  }

  ghost predicate SameIdSameBytes(attempts: seq<Attempt>) {
    forall j, k :: 0 <= j < |attempts| && 0 <= k < |attempts|
                   && attempts[j].request.id == attempts[k].request.id ==>
      attempts[j].request.plain == attempts[k].request.plain
  }

  /** Every pending object left behind was some earlier attempt's. */
  lemma {:induction false} PendingComesFromAttempts(states: seq<Objects>, attempts: seq<Attempt>, k: nat, id: Id)
    requires History(states, attempts) && k <= |attempts| && id in states[k].pending
    ensures exists j :: 0 <= j < k && attempts[j].request.id == id && attempts[j].request.plain == states[k].pending[id]
    decreases k
  {
    if k > 0 {
      var a := attempts[k - 1];
      assert Allowed(states[k - 1], states[k], a.request, a.rivals, a.outcome, a.kept, a.copied);
      if id == a.request.id && states[k].pending[id] == a.request.plain {
      } else {
        PendingComesFromAttempts(states, attempts, k - 1, id);
      }
    }
  }

  /** When equal identities always mean equal bytes, no attempt is ever refused
      because of what an earlier one left behind. */
  lemma NoConflict(states: seq<Objects>, attempts: seq<Attempt>, k: nat)
    requires History(states, attempts) && SameIdSameBytes(attempts) && k < |attempts|
    ensures attempts[k].outcome != Conflict
  {
    var a := attempts[k];
    assert Allowed(states[k], states[k + 1], a.request, a.rivals, a.outcome, a.kept, a.copied);
    if a.request.id in states[k].pending {
      PendingComesFromAttempts(states, attempts, k, a.request.id);
    }
  }

  /** In every attempt: exactly when the record that was in place is lost, and when
      another computer's is, as far as nobody publishes the same bytes again. The last
      check protects whatever it can see; only the accepted race can lose a record to the
      copy. */
  lemma LostExactly(states: seq<Objects>, attempts: seq<Attempt>, k: nat, d: Data)
    requires History(states, attempts) && k < |attempts| && Shows(states[k].canonical, d)
    ensures var a := attempts[k];
      var now := states[k + 1].Both();
      && (a.rivals.OldStays(a.kept, a.copied) ==> Stays(now, d))
      && (a.rivals.Differ(d, a.request.plain) ==>
            && (Stays(now, d) <==> a.rivals.OldStays(a.kept, a.copied))
            && (a.rivals.upload.Some? ==> !a.copied && (Stays(now, a.rivals.upload.value) <==> a.rivals.OneSinceCheck()))
            && (a.rivals.checked.Some? ==>
                  !a.copied && (Stays(now, a.rivals.checked.value) <==> a.rivals.OneSincePreserving()))
            && (a.rivals.preserved.Some? ==> !a.copied && Stays(now, a.rivals.preserved.value))
            && (a.rivals.raced.Some? ==> (Stays(now, a.rivals.raced.value) <==> !a.copied)))
  {
    var a := attempts[k];
    assert Allowed(states[k], states[k + 1], a.request, a.rivals, a.outcome, a.kept, a.copied);
    hide Moved, History, Stays, Rivals.OldStays, Rivals.Differ;
    OldRecord(states[k].Both(), states[k + 1].Both(), a.request.plain, a.rivals, a.kept, a.copied, d);
    if a.rivals.Differ(d, a.request.plain) {
      OthersRecords(states[k].Both(), states[k + 1].Both(), a.request.plain, a.rivals, a.kept, a.copied, d);
    }
  }

  /** A record whose copy was done is found in place by the next attempt with the same
      bytes, whatever the first one reported, unless another computer published since. */
  lemma CopiedIsFound(states: seq<Objects>, attempts: seq<Attempt>, k: nat)
    requires History(states, attempts) && k + 1 < |attempts|
    requires attempts[k].copied && attempts[k + 1].request.plain == attempts[k].request.plain
    ensures attempts[k].outcome in {Published, Failed}
    ensures attempts[k].rivals.copied == None && !attempts[k].request.plain.fenced ==>
      attempts[k + 1].outcome == AlreadyThere && Shows(states[k + 2].canonical, attempts[k].request.plain)
  {
    var a, b := attempts[k], attempts[k + 1];
    assert Allowed(states[k], states[k + 1], a.request, a.rivals, a.outcome, a.kept, a.copied);
    assert Allowed(states[k + 1], states[k + 2], b.request, b.rivals, b.outcome, b.kept, b.copied);
  }

  /** The identities the source chooses: every takeover publish draws a fresh one;
      a connection's transition and final root, whose bytes its intent fixes, go
      under two different ones. */
  ghost predicate AsChosen(attempts: seq<Attempt>, transition: map<nat, Data>, final: map<nat, Data>) {
    && (forall j, k :: 0 <= j < k < |attempts| && attempts[j].request.id.Fresh? ==>
          attempts[j].request.id != attempts[k].request.id)
    && (forall k :: 0 <= k < |attempts| ==>
          match attempts[k].request.id
          case Fresh(_) => true
          case OfIntent(op) => op in transition && attempts[k].request.plain == transition[op]
          case FinalOf(op) => op in final && attempts[k].request.plain == final[op])
  }

  lemma RetriesAreNeverBlocked(states: seq<Objects>, attempts: seq<Attempt>,
                               transition: map<nat, Data>, final: map<nat, Data>)
    requires History(states, attempts) && AsChosen(attempts, transition, final)
    ensures forall k :: 0 <= k < |attempts| ==> attempts[k].outcome != Conflict
  {
    forall j, k | 0 <= j < |attempts| && 0 <= k < |attempts| && attempts[j].request.id == attempts[k].request.id
      ensures attempts[j].request.plain == attempts[k].request.plain
    {
      if attempts[j].request.id.Fresh? { assert j == k; }
    }
    forall k | 0 <= k < |attempts| ensures attempts[k].outcome != Conflict {
      NoConflict(states, attempts, k);
    }
  }

  /** Why the two roots may not share one identity: after the transition's cleanup
      failed, the final root is refused under that name, on every retry. */
  lemma {:induction false} SharedIdentityBlocks(states: seq<Objects>, attempts: seq<Attempt>, id: Id, left: Data)
    requires |states| == |attempts| + 1 && id in states[0].pending && states[0].pending[id] == left
    requires forall k :: 0 <= k < |attempts| ==>
      && Allowed(states[k], states[k + 1], attempts[k].request, attempts[k].rivals, attempts[k].outcome, attempts[k].kept, attempts[k].copied)
      && attempts[k].request.id == id && attempts[k].request.plain != left && attempts[k].outcome != AlreadyThere
    ensures forall k :: 0 <= k < |attempts| ==> attempts[k].outcome != Published
    decreases |attempts|
  {
    if attempts != [] {
      var a := attempts[0];
      assert Allowed(states[0], states[1], a.request, a.rivals, a.outcome, a.kept, a.copied);
      SharedIdentityBlocks(states[1..], attempts[1..], id, left);
      assert forall k :: 1 <= k < |attempts| ==> attempts[k] == attempts[1..][k - 1];
    }
  }
}
