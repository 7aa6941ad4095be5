/** Staged shutdown, and the vault locks that startup Restic recovery reserves. */
module Shutdown {
  // ----- The stages ---------------------------------------------------------

  datatype Hook = Http | RcloneAuth | Updater | Producer(number: nat) | Notifications | Database

  /** What happens, in order: a hook starts, a hook has returned, the deadline was
      looked at and had not passed, or it was found to have passed. */
  datatype Event = Started(hook: Hook) | Returned(hook: Hook) | InTime | Late

  function Stage(h: Hook): nat {
    match h
    case Http => 0
    case RcloneAuth => 1
    case Updater => 2
    case Producer(_) => 3
    case Notifications => 4
    case Database => 5
  }

  predicate Shared(h: Hook) { h == Notifications || h == Database }

  /** What may follow: each hook once, only after every hook of an earlier stage has
      returned; a shared resource only right after the deadline was found not to have
      passed; nothing once it has, and it is looked at right after HTTP and the updater. */
  ghost predicate May(hooks: set<Hook>, before: seq<Event>, e: Event) {
    && Late !in before
    && (before != [] && before[|before| - 1] in {Returned(Http), Returned(Updater)} ==> e == InTime || e == Late)
    && match e
       case Started(h) =>
         && h in hooks && Started(h) !in before
         && (forall g :: g in hooks && Stage(g) < Stage(h) ==> Returned(g) in before)
         && (Shared(h) ==> before != [] && before[|before| - 1] == InTime)
       case Returned(h) => Started(h) in before && Returned(h) !in before
       case _ => true
  }

  ghost predicate Ordered(hooks: set<Hook>, log: seq<Event>) {
    forall k :: 0 <= k < |log| ==> May(hooks, log[..k], log[k])
  }

  lemma LogExtends(hooks: set<Hook>, log: seq<Event>, e: Event)
    requires Ordered(hooks, log) && May(hooks, log, e)
    ensures Ordered(hooks, log + [e])
  {
    hide May;
    var after := log + [e];
    forall k | 0 <= k < |after|
      ensures May(hooks, after[..k], after[k])
    {
      assert after[..k] == log[..k];
    }
  }

  lemma EarlierAreDone(hooks: set<Hook>, log: seq<Event>, i: nat, h: Hook)
    requires Ordered(hooks, log) && i < |log| && log[i].Started? && h in hooks && Stage(h) < Stage(log[i].hook)
    ensures Started(h) in log[..i] && Returned(h) in log[..i]
  {
    assert May(hooks, log[..i], log[i]);
    var k :| 0 <= k < i && log[..i][k] == Returned(h);
    assert May(hooks, log[..k], log[k]);
    var l :| 0 <= l < k && log[..k][l] == Started(h);
    assert log[..i][l] == Started(h);
  }

  lemma OnlyHooks(hooks: set<Hook>, log: seq<Event>, j: nat)
    requires Ordered(hooks, log) && j < |log| && (log[j].Started? || log[j].Returned?)
    ensures log[j].hook in hooks
  {
    assert May(hooks, log[..j], log[j]);
    if log[j].Returned? {
      var l :| 0 <= l < j && log[..j][l] == Started(log[j].hook);
      assert May(hooks, log[..l], log[l]);
    }
  }

  /** Whatever is late: once the database stops, no other hook does anything any more. */
  lemma DatabaseIsLast(hooks: set<Hook>, log: seq<Event>, i: nat, j: nat)
    requires Ordered(hooks, log) && i < j < |log| && log[i] == Started(Database)
    ensures (log[j].Started? || log[j].Returned?) ==> log[j].hook == Database
  {
    assert May(hooks, log[..j], log[j]);
    if log[j].Started? || log[j].Returned? {
      var h := log[j].hook;
      OnlyHooks(hooks, log, j);
      assert log[..i] <= log[..j];
      if h != Database { EarlierAreDone(hooks, log, i, h); }
    }
  }

  /** The deadline was looked at where it had to be. */
  ghost predicate Checked(log: seq<Event>) {
    Late !in log && (log != [] ==> log[|log| - 1] !in {Returned(Http), Returned(Updater)})
  }

  /** All of the stages before `n` have stopped, and nothing of the others has begun. */
  ghost predicate Through(hooks: set<Hook>, log: seq<Event>, n: nat) {
    && (forall h :: h in hooks && Stage(h) < n ==> Returned(h) in log)
    && (forall h :: Started(h) in log || Returned(h) in log ==> Stage(h) < n)
  }

  lemma CheckedIsOpen(log: seq<Event>)
    requires Checked(log)
    ensures Late !in log
  {}

  lemma Nothing(hooks: set<Hook>)
    ensures Through(hooks, [], 0) && Checked([])
  {}

  lemma StageIsEmpty(hooks: set<Hook>, log: seq<Event>, n: nat)
    requires Through(hooks, log, n) && forall h :: h in hooks ==> Stage(h) != n
    ensures Through(hooks, log, n + 1)
  {}

  lemma CallFollows(hooks: set<Hook>, log: seq<Event>, h: Hook)
    requires h in hooks && !h.Producer? && Through(hooks, log, Stage(h)) && Checked(log)
    requires Shared(h) ==> log != [] && log[|log| - 1] == InTime
    ensures May(hooks, log, Started(h)) && Returned(h) !in log && Late !in log
    ensures Through(hooks, log + [Started(h), Returned(h)], Stage(h) + 1) && Late !in log + [Started(h), Returned(h)]
    ensures h !in {Http, Updater} ==> Checked(log + [Started(h), Returned(h)])
  {
    forall g | g in hooks && Stage(g) < Stage(h) + 1
      ensures Returned(g) in log + [Started(h), Returned(h)]
    {
      if g != h { assert Returned(g) in log; }
    }
  }

  lemma LookedInTime(hooks: set<Hook>, log: seq<Event>, n: nat)
    requires Late !in log && Through(hooks, log, n)
    ensures Checked(log + [InTime]) && Through(hooks, log + [InTime], n)
  {}

  /** The producers in `begun` have started, those in `ended` have returned. */
  ghost predicate Joining(hooks: set<Hook>, log: seq<Event>, begun: set<Hook>, ended: set<Hook>) {
    && Checked(log) && (forall h :: h in hooks && Stage(h) < 3 ==> Returned(h) in log)
    && (forall h :: Started(h) in log && Stage(h) >= 3 <==> h in begun)
    && (forall h :: Returned(h) in log && Stage(h) >= 3 <==> h in ended)
  }

  /** All but the `pending` producers have started; then all but those have returned. */
  ghost predicate Starting(hooks: set<Hook>, log: seq<Event>, pending: set<Hook>) {
    pending <= Producers(hooks) && Joining(hooks, log, Producers(hooks) - pending, {})
  }

  ghost predicate Ending(hooks: set<Hook>, log: seq<Event>, pending: set<Hook>) {
    pending <= Producers(hooks) && Joining(hooks, log, Producers(hooks), Producers(hooks) - pending)
  }

  lemma JoinBegins(hooks: set<Hook>, log: seq<Event>)
    requires Checked(log) && Through(hooks, log, 3)
    ensures Starting(hooks, log, Producers(hooks))
  {
    assert Producers(hooks) - Producers(hooks) == {};
  }

  lemma ProducerStarts(hooks: set<Hook>, log: seq<Event>, pending: set<Hook>, p: Hook)
    requires Starting(hooks, log, pending) && p in pending
    ensures May(hooks, log, Started(p)) && Starting(hooks, log + [Started(p)], pending - {p})
  {}

  lemma AllStarted(hooks: set<Hook>, log: seq<Event>)
    requires Starting(hooks, log, {})
    ensures Ending(hooks, log, Producers(hooks))
  {
    var producers := Producers(hooks);
    assert producers - {} == producers && producers - producers == {};
  }

  lemma ProducerEnds(hooks: set<Hook>, log: seq<Event>, pending: set<Hook>, p: Hook)
    requires Ending(hooks, log, pending) && p in pending
    ensures May(hooks, log, Returned(p)) && Ending(hooks, log + [Returned(p)], pending - {p})
  {}

  lemma JoinIsLate(hooks: set<Hook>, log: seq<Event>, pending: set<Hook>)
    requires Ending(hooks, log, pending)
    ensures May(hooks, log, Late)
  {}

  lemma AllJoined(hooks: set<Hook>, log: seq<Event>)
    requires Ending(hooks, log, {})
    ensures Checked(log) && Through(hooks, log, 4)
  {}

  function One(b: bool): nat { if b then 1 else 0 }

  /** How often the deadline is asked about when nothing is late: after HTTP and the
      updater, for each producer, and before and for each shared resource. */
  function Questions(hooks: set<Hook>): nat {
    One(Http in hooks) + One(Updater in hooks) + |Producers(hooks)|
    + 2 + One(Notifications in hooks) + One(Database in hooks)
  }

  function Producers(hooks: set<Hook>): set<Hook> { set h | h in hooks && h.Producer? }

  class Sequence {
    const hooks: set<Hook>
    /** Whether the deadline has passed when it is asked about for the k-th time: any
        answers at all. */
    const late: nat -> bool
    var asked: nat
    ghost var log: seq<Event>

    ghost predicate Valid()
      reads this
    {
      Ordered(hooks, log)
    }

    ghost predicate Done(h: Hook)
      reads this
    {
      Returned(h) in log
    }

    ghost predicate InTimeFor(first: nat, questions: nat) {
      forall k: nat :: first <= k < first + questions ==> !late(k)
    }

    constructor (hooks: set<Hook>, late: nat -> bool)
      ensures Valid() && log == [] && asked == 0 && this.hooks == hooks && this.late == late
    {
      this.hooks, this.late, asked := hooks, late, 0;
      log := [];
    }

    method Expired() returns (passed: bool)
      modifies this`asked
      ensures asked == old(asked) + 1 && passed == late(old(asked))
    {
      passed := late(asked);
      asked := asked + 1;
    }

    ghost method Record(e: Event)
      requires Valid() && May(hooks, log, e)
      modifies this`log
      ensures Valid() && log == old(log) + [e]
    {
      LogExtends(hooks, log, e);
      log := log + [e];
    }

    /** The deadline is looked at. */
    method InTimeStill() returns (inTime: bool)
      requires Valid() && Late !in log
      modifies this`log, this`asked
      ensures Valid() && log == old(log) + [if inTime then InTime else Late]
      ensures asked == old(asked) + 1 && inTime == !late(old(asked))
    {
      var passed := Expired();
      inTime := !passed;
      Record(if inTime then InTime else Late);
    }

    /** A hook that is called and waited for on this path. */
    method Call(h: Hook)
      requires Valid() && h in {Http, RcloneAuth, Updater} && May(hooks, log, Started(h)) && !Done(h)
      modifies this`log
      ensures Valid() && log == old(log) + [Started(h), Returned(h)]
    {
      Record(Started(h));
      Record(Returned(h));
      assert log == old(log) + [Started(h), Returned(h)];
    }

    /** A hook that runs beside: either it returns, or the deadline passes first. */
    method Await(h: Hook) returns (finished: bool)
      requires Valid() && Shared(h) && May(hooks, log, Started(h)) && !Done(h)
      modifies this`log, this`asked
      ensures Valid() && log == old(log) + [Started(h), if finished then Returned(h) else Late]
      ensures asked == old(asked) + 1 && finished == !late(old(asked))
    {
      Record(Started(h));
      var passed := Expired();
      finished := !passed;
      Record(if finished then Returned(h) else Late);
      assert log == old(log) + [Started(h), if finished then Returned(h) else Late];
    }

    /** The producers stop together; waiting for them ends when the deadline passes. */
    method JoinProducers(producers: set<Hook>) returns (finished: bool)
      requires Valid() && Checked(log) && Through(hooks, log, 3) && producers == Producers(hooks)
      modifies this`log, this`asked
      ensures Valid() && if finished then Checked(log) && Through(hooks, log, 4) else Late in log
      ensures finished <==> InTimeFor(old(asked), |producers|)
      ensures finished ==> asked == old(asked) + |producers|
    {
      hide Ordered, Checked, Through, May, Starting, Ending;
      JoinBegins(hooks, log);
      var pending := producers;
      while pending != {}
        invariant Valid() && Starting(hooks, log, pending) && asked == old(asked)
        decreases |pending|
      {
        var p :| p in pending;
        ProducerStarts(hooks, log, pending, p);
        Record(Started(p));
        pending := pending - {p};
      }
      AllStarted(hooks, log);
      pending := producers;
      while pending != {}
        invariant Valid() && Ending(hooks, log, pending)
        invariant asked + |pending| == old(asked) + |producers| && InTimeFor(old(asked), asked - old(asked))
        decreases |pending|
      {
        var deadline := Expired();
        if deadline {
          JoinIsLate(hooks, log, pending);
          Record(Late);
          return false;
        }
        var p :| p in pending;
        ProducerEnds(hooks, log, pending, p);
        Record(Returned(p));
        pending := pending - {p};
      }
      AllJoined(hooks, log);
      return true;
    }

    /** Admission closes and the requests drain; a passed deadline ends it there. */
    method StopRequests() returns (inTime: bool)
      requires Valid() && log == []
      modifies this`log, this`asked
      ensures Valid() && if inTime then Checked(log) && Through(hooks, log, 3) else Late in log
      ensures inTime <==> InTimeFor(old(asked), One(Http in hooks) + One(Updater in hooks))
      ensures inTime ==> asked == old(asked) + One(Http in hooks) + One(Updater in hooks)
    {
      hide Ordered, Checked, Through, May;
      inTime := true;
      Nothing(hooks);
      if Http in hooks {
        CallFollows(hooks, log, Http);
        Call(Http);
        LookedInTime(hooks, log, 1);
        inTime := InTimeStill();
        if !inTime { return; }
      } else {
        StageIsEmpty(hooks, log, 0);
      }
      if RcloneAuth in hooks {
        CallFollows(hooks, log, RcloneAuth);
        Call(RcloneAuth);
      } else {
        StageIsEmpty(hooks, log, 1);
      }
      if Updater in hooks {
        CallFollows(hooks, log, Updater);
        Call(Updater);
        LookedInTime(hooks, log, 3);
        inTime := InTimeStill();
      } else {
        StageIsEmpty(hooks, log, 2);
      }
    }

    /** The shared resources, each only after the deadline was looked at again. */
    method StopResources() returns (inTime: bool)
      requires Valid() && Checked(log) && Through(hooks, log, 4)
      modifies this`log, this`asked
      ensures Valid() && if inTime then Checked(log) && Through(hooks, log, 6) else Late in log
      ensures inTime <==> InTimeFor(old(asked), 2 + One(Notifications in hooks) + One(Database in hooks))
    {
      hide Ordered, Checked, Through, May;
      CheckedIsOpen(log);
      LookedInTime(hooks, log, 4);
      inTime := InTimeStill();
      if !inTime { return; }
      if Notifications in hooks {
        CallFollows(hooks, log, Notifications);
        inTime := Await(Notifications);
        if !inTime { return; }
      } else {
        StageIsEmpty(hooks, log, 4);
      }
      CheckedIsOpen(log);
      LookedInTime(hooks, log, 5);
      inTime := InTimeStill();
      if !inTime { return; }
      if Database in hooks {
        CallFollows(hooks, log, Database);
        inTime := Await(Database);
      } else {
        StageIsEmpty(hooks, log, 5);
      }
    }

    /** For every choice of what returns in time and what does not: everything that is
        there has stopped, in order, exactly if the deadline was never found passed. */
    method ShutdownInOrder() returns (complete: bool)
      requires Valid() && log == [] && asked == 0
      modifies this`log, this`asked
      ensures Valid() && (complete <==> Late !in log)
      ensures complete ==> forall h :: h in hooks ==> Done(h)
      ensures complete <==> InTimeFor(0, Questions(hooks))
    {
      hide Ordered, May;
      complete := StopRequests();
      if !complete { return; }
      var producers := Producers(hooks);
      complete := JoinProducers(producers);
      if !complete { return; }
      complete := StopResources();
    }
  }

  // ----- Startup Restic recovery --------------------------------------------

  class Reservation {
    /** Whether slot k still has its unlock to call, and how often it was called. */
    const held: array<bool>
    const released: array<nat>

    ghost predicate Valid()
      reads this, held, released
    {
      && held.Length == released.Length
      && forall k :: 0 <= k < held.Length ==> released[k] <= 1 && (held[k] ==> released[k] == 0)
    }

    constructor (n: nat)
      ensures Valid() && held.Length == n && fresh(held) && fresh(released)
      ensures forall k :: 0 <= k < n ==> !held[k] && released[k] == 0
    {
      held := new bool[n](_ => false);
      released := new nat[n](_ => 0);
    }

    /** Calls every unlock that is left; after it none is. */
    method ReleaseAll()
      requires Valid()
      modifies held, released
      ensures Valid()
      ensures forall k :: 0 <= k < held.Length ==> !held[k]
      ensures forall k :: 0 <= k < held.Length ==> released[k] == if old(held[k]) then 1 else old(released[k])
    {
      for k := 0 to held.Length
        invariant forall j :: 0 <= j < k ==> !held[j] && released[j] == if old(held[j]) then 1 else old(released[j])
        invariant forall j :: k <= j < held.Length ==> held[j] == old(held[j]) && released[j] == old(released[j])
      {
        if held[k] {
          held[k] := false;
          released[k] := released[k] + 1;
        }
      }
    }

    /** Reserves the vaults' locks; a contended one fails startup, and what was
        reserved before it is released again. */
    method Reserve(contended: nat -> bool) returns (ok: bool, reserved: nat)
      requires Valid() && forall k :: 0 <= k < held.Length ==> !held[k] && released[k] == 0
      modifies held, released
      ensures Valid() && reserved <= held.Length
      ensures ok ==> reserved == held.Length && forall k :: 0 <= k < held.Length ==> held[k]
      ensures !ok ==> reserved < held.Length && contended(reserved)
      ensures forall k :: 0 <= k < reserved ==> !contended(k)
      ensures !ok ==> forall k :: 0 <= k < held.Length ==> !held[k] && released[k] == if k < reserved then 1 else 0
    {
      reserved := 0;
      while reserved < held.Length
        invariant 0 <= reserved <= held.Length
        invariant forall k :: 0 <= k < held.Length ==> held[k] == (k < reserved) && released[k] == 0
        invariant forall k :: 0 <= k < reserved ==> !contended(k)
      {
        if contended(reserved) {
          ReleaseAll();
          return false, reserved;
        }
        held[reserved] := true;
        reserved := reserved + 1;
      }
      return true, reserved;
    }

    /** The background worker: cancelled before publication, cancelled between two
        vaults, failing at one, or done; every reserved lock is released exactly
        once, in order for the vaults it got to. */
    method Recover(published: bool, cancelled: nat -> bool, fails: nat -> bool) returns (recovered: nat)
      requires Valid() && forall k :: 0 <= k < held.Length ==> held[k]
      modifies held, released
      ensures Valid() && recovered <= held.Length
      ensures forall k :: 0 <= k < held.Length ==> released[k] == 1 && !held[k]
      ensures !published ==> recovered == 0
      ensures published ==> recovered == held.Length || cancelled(recovered) || (recovered > 0 && fails(recovered - 1))
      ensures forall k :: 0 <= k < recovered ==> !cancelled(k) && (fails(k) ==> k == recovered - 1)
    {
      recovered := 0;
      if published {
        while recovered < held.Length
          invariant 0 <= recovered <= held.Length && Valid()
          invariant forall k :: 0 <= k < held.Length ==> held[k] == (recovered <= k) && released[k] == if k < recovered then 1 else 0
          invariant forall k :: 0 <= k < recovered ==> !cancelled(k) && !fails(k)
        {
          if cancelled(recovered) { break; }
          released[recovered] := released[recovered] + 1;
          held[recovered] := false;
          recovered := recovered + 1;
          if fails(recovered - 1) { break; }
        }
      }
      ReleaseAll();
    }
  }
}
