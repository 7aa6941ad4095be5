/** Local engine artifacts around a vault change: the old copy is staged aside
    before the change is saved, and a crash at any point is resolved at startup. */
module Artifacts {
  import opened Options

  type Content = nat
  type Digest = nat
  type Token = nat

  /** One staged copy and its manifest. */
  datatype Stage = Stage(deletes: bool, oldOptions: Digest, marked: bool, copy: Option<Content>)

  /** Which of the file operations fail. */
  datatype Faults = Faults(mark: bool, removal: bool, rename: bool, drop: bool)
  const NO_FAULTS := Faults(false, false, false, false)

  /** How a stage is classified at startup: was its change saved? */
  predicate LooksSaved(stage: Stage, row: Option<Digest>) {
    stage.marked || row == None || (!stage.deletes && row != Some(stage.oldOptions))
  }

  /** Moving the old copy back is refused: both places, or neither, have artifacts;
      or the move itself fails. */
  predicate RestoreBlocked(original: Option<Content>, stage: Stage, faults: Faults) {
    original.Some? == stage.copy.Some? || (original.None? && faults.rename)
  }

  /** A stage whose copy a start moves back when nothing is there. */
  predicate ComesBack(stage: Stage, row: Option<Digest>, faults: Faults) {
    !LooksSaved(stage, row) && stage.copy.Some? && !faults.rename
  }

  /** What one start makes of a stage: the artifacts in place, and what is left of it. */
  function Resolve(original: Option<Content>, stage: Stage, row: Option<Digest>, faults: Faults)
    : (Option<Content>, Option<Stage>)
  {
    if LooksSaved(stage, row) then
      (original, if !faults.removal && !faults.drop then None else
         Some(stage.(marked := stage.marked || !faults.mark, copy := if faults.removal then stage.copy else None)))
    else if RestoreBlocked(original, stage, faults) then (original, Some(stage))
    else (if original.None? then stage.copy else original,
          if faults.drop then Some(stage.(copy := None)) else None)
  }

  function Put(stages: map<Token, Stage>, t: Token, left: Option<Stage>): map<Token, Stage> {
    if left.Some? then stages[t := left.value] else stages - {t}
  }

  ghost predicate OnlyUnsaved(stages: map<Token, Stage>, row: Option<Digest>, t: Token)
    requires t in stages
  {
    !LooksSaved(stages[t], row) && forall u :: u in stages && !LooksSaved(stages[u], row) ==> u == t
  }

  /** Whether some stage of `done` was moved back. */
  ghost predicate SomeBack(row: Option<Digest>, faults: Token -> Faults, before: map<Token, Stage>, done: set<Token>) {
    exists t :: t in before && t in done && ComesBack(before[t], row, faults(t))
  }

  /** What a start has made of one stage. */
  ghost predicate Settled(row: Option<Digest>, faults: Faults, was: Option<Content>, before: map<Token, Stage>, t: Token,
                          now: Option<Content>, after: map<Token, Stage>)
    requires t in before
  {
    // A saved change never waits for the database again once it is marked.
    && (LooksSaved(before[t], row) ==>
          && (t in after <==> faults.removal || faults.drop)
          && (t in after ==> after[t].marked == (before[t].marked || !faults.mark)))
    // Nothing is lost: an unresolved stage still has its copy, or it is back.
    && (!LooksSaved(before[t], row) && t in after ==>
          after[t].copy == before[t].copy || (now.Some? && now == before[t].copy))
    // The only unsaved change is resolved unless its move is refused.
    && (OnlyUnsaved(before, row, t) ==>
          && (t in after <==> faults.drop || RestoreBlocked(was, before[t], faults))
          && (t in after ==>
                after[t].copy == if RestoreBlocked(was, before[t], faults) then before[t].copy else None))
    && (t in after ==> after[t].deletes == before[t].deletes && after[t].oldOptions == before[t].oldOptions)
  }

  /** What a start has made of the stages `done` it has looked at. */
  ghost predicate Pass(row: Option<Digest>, faults: Token -> Faults, was: Option<Content>, before: map<Token, Stage>,
                       done: set<Token>, now: Option<Content>, after: map<Token, Stage>)
  {
    && after.Keys <= before.Keys
    && (forall t :: t in before && t !in done ==> t in after && after[t] == before[t])
    && (forall t :: t in before && t in done ==> Settled(row, faults(t), was, before, t, now, after))
    && (was.Some? ==> now == was)
    // Something is there exactly when some old copy came back.
    && (was.None? ==> (now.Some? <==> SomeBack(row, faults, before, done)))
    && (now != was ==>
          exists t :: t in before && t in done && ComesBack(before[t], row, faults(t)) && now == before[t].copy)
  }

  lemma PassStep(row: Option<Digest>, faults: Token -> Faults, was: Option<Content>, before: map<Token, Stage>,
                 done: set<Token>, now: Option<Content>, after: map<Token, Stage>, t: Token)
    requires Pass(row, faults, was, before, done, now, after) && t in before && t !in done
    ensures var (now', left) := Resolve(now, before[t], row, faults(t));
      Pass(row, faults, was, before, done + {t}, now', Put(after, t, left))
  {
    var (now', left) := Resolve(now, before[t], row, faults(t));
    var after', done' := Put(after, t, left), done + {t};
    assert OnlyUnsaved(before, row, t) ==> now == was;
    forall u | u in before && u in done'
      ensures Settled(row, faults(u), was, before, u, now', after')
    {
      if u == t {
        hide OnlyUnsaved, SomeBack;
      } else {
        assert Settled(row, faults(u), was, before, u, now, after);
        hide OnlyUnsaved, SomeBack, RestoreBlocked;
      }
    }
    Back(row, faults, was, before, done, now, after, t);
  }

  /** The part of it that says what is there now. */
  lemma Back(row: Option<Digest>, faults: Token -> Faults, was: Option<Content>, before: map<Token, Stage>,
             done: set<Token>, now: Option<Content>, after: map<Token, Stage>, t: Token)
    requires Pass(row, faults, was, before, done, now, after) && t in before && t !in done
    ensures var now' := Resolve(now, before[t], row, faults(t)).0;
      && (was.None? ==> (now'.Some? <==> SomeBack(row, faults, before, done + {t})))
      && (now' != was ==>
            exists u :: u in before && u in done + {t} && ComesBack(before[u], row, faults(u)) && now' == before[u].copy)
  {
    hide Settled;
    var now' := Resolve(now, before[t], row, faults(t)).0;
    if ComesBack(before[t], row, faults(t)) {
      assert t in done + {t};
    }
    if SomeBack(row, faults, before, done) {
      var u :| u in before && u in done && ComesBack(before[u], row, faults(u));
      assert u in done + {t};
    }
    if now != was {
      var u :| u in before && u in done && ComesBack(before[u], row, faults(u)) && now == before[u].copy;
      assert u in done + {t};
    }
  }

  lemma PutOver(stages: map<Token, Stage>, t: Token, stage: Stage)
    requires t !in stages
    ensures stages[t := stage] == stages + map[t := stage] && stages[t := stage] - {t} == stages + map[] == stages
  {}

  lemma PutTwice(stages: map<Token, Stage>, t: Token, stage: Stage, other: Stage)
    ensures stages[t := stage][t := other] == stages[t := other]
  {}

  lemma PassBegins(row: Option<Digest>, faults: Token -> Faults, was: Option<Content>, before: map<Token, Stage>)
    ensures Pass(row, faults, was, before, {}, was, before)
  {}

  lemma PassNotYet(row: Option<Digest>, faults: Token -> Faults, was: Option<Content>, before: map<Token, Stage>,
                   done: set<Token>, now: Option<Content>, after: map<Token, Stage>, t: Token)
    requires Pass(row, faults, was, before, done, now, after) && t in before && t !in done
    ensures t in after && after[t] == before[t] && after.Keys <= before.Keys
  {}

  lemma LookedAt(all: set<Token>, left: set<Token>, t: Token)
    requires t in left && left <= all
    ensures all - (left - {t}) == all - left + {t}
  {}

  /** A start that finds at most one stage. */
  lemma PassOverOne(row: Option<Digest>, faults: Faults, was: Option<Content>, before: map<Token, Stage>, t: Token,
                    now: Option<Content>, after: map<Token, Stage>)
    requires Pass(row, _ => faults, was, before, before.Keys, now, after) && before.Keys <= {t}
    ensures after.Keys <= before.Keys && (t !in before ==> now == was && after == map[])
    ensures t in before ==>
      && now == (if was.None? && ComesBack(before[t], row, faults) then before[t].copy else was)
      && (t in after <==> if LooksSaved(before[t], row) then faults.removal || faults.drop
                          else faults.drop || RestoreBlocked(was, before[t], faults))
      && (t in after && !LooksSaved(before[t], row) ==>
            after[t].copy == before[t].copy || (now.Some? && now == before[t].copy))
  {
    if t in before {
      assert Settled(row, faults, was, before, t, now, after);
      assert !LooksSaved(before[t], row) ==> OnlyUnsaved(before, row, t);
      if ComesBack(before[t], row, faults) {
        assert SomeBack(row, _ => faults, before, before.Keys);
      }
    }
  }

  /** Every saved change still looks saved, and the artifacts of an unsaved one are
      in one place. Only a stage whose mark and removal both failed can stop looking
      so, when its vault or its options come back. */
  ghost predicate Tidy(row: Option<Digest>, original: Option<Content>, stages: map<Token, Stage>, saved: set<Token>) {
    && (forall t :: t in stages && t in saved ==> LooksSaved(stages[t], row))
    && (forall t :: t in stages && t !in saved ==> original.None? || stages[t].copy.None?)
  }

  /** What recovery owes while a change is unsaved: the old artifacts, in place or in
      its stage. */
  ghost predicate Owes(original: Option<Content>, stages: map<Token, Stage>, saved: set<Token>, was: Option<Content>) {
    if original.None? && exists t :: t in stages && t !in saved
    then exists t :: t in stages && t !in saved && stages[t].copy == was
    else original == was
  }

  /** A start that fails or crashes keeps owing the same. */
  lemma PassKeepsDebt(row: Option<Digest>, faults: Faults, was: Option<Content>, before: map<Token, Stage>,
                      saved: set<Token>, now: Option<Content>, after: map<Token, Stage>, saved': set<Token>,
                      debt: Option<Content>)
    requires Pass(row, _ => faults, was, before, before.Keys, now, after)
    requires Tidy(row, was, before, saved) && Owes(was, before, saved, debt)
    requires forall t :: t in before && t !in saved ==>
      !LooksSaved(before[t], row) && (was.None? ==> before[t].copy.Some?)
    requires forall t, u :: t in before && u in before && t !in saved && u !in saved ==> t == u
    requires forall t :: t in after ==> (t in saved' <==> t in saved)
    ensures Tidy(row, now, after, saved') && Owes(now, after, saved', debt)
  {
    forall t | t in after && t !in saved'
      ensures now.None? || after[t].copy.None?
    {
      assert OnlyUnsaved(before, row, t) && Settled(row, faults, was, before, t, now, after);
    }
  }

  /** A start that finds every saved change looking saved, and at most one unsaved. */
  lemma PassCleans(row: Option<Digest>, faults: Token -> Faults, was: Option<Content>, before: map<Token, Stage>,
                   saved: set<Token>, now: Option<Content>, after: map<Token, Stage>)
    requires Pass(row, faults, was, before, before.Keys, now, after) && forall t :: faults(t) == NO_FAULTS
    requires forall t :: t in before && t in saved ==> LooksSaved(before[t], row)
    requires forall t :: t in before && t !in saved ==> was.Some? != before[t].copy.Some?
    requires forall t, u :: t in before && u in before && t !in saved && u !in saved ==> t == u
    ensures after == map[]
  {
    forall t | t in before
      ensures t !in after
    {
      assert Settled(row, faults(t), was, before, t, now, after);
      if !LooksSaved(before[t], row) {
        assert OnlyUnsaved(before, row, t);
      }
    }
  }

  datatype Outcome = Removed | ProfileStep | Refused | RestoreFailed | StageFailed
  /** How staging fails: before its manifest was written, so that nothing is left; when
      the manifest was written or the artifacts could not be moved, which may leave it;
      or after the move, and then the move is undone, which may fail in turn. */
  datatype Staging = Staged | NoManifest | NotMoved(manifestLeft: bool) | NotSynced(undo: Faults)

  predicate StagingFails(original: Option<Content>, staging: Staging) {
    staging.NoManifest? || (original.Some? && !staging.Staged?)
  }

  /** What a failed staging leaves behind. */
  function LeftByStaging(original: Option<Content>, t: Token, options: Digest, staging: Staging)
    : (Option<Content>, map<Token, Stage>)
  {
    var stage := Stage(true, options, false, original);
    match staging
    case NotMoved(true) => (original, map[t := stage.(copy := None)])
    case NotSynced(undo) =>
      if undo.rename then (None, map[t := stage])
      else (original, if undo.drop then map[t := stage.(copy := None)] else map[])
    case _ => (original, map[])
  }

  /** Moving what was staged back fails. */
  predicate MoveBackFails(original: Option<Content>, faults: Faults) {
    original.Some? && (faults.rename || faults.drop)
  }

  datatype Sync = Synced | SyncPending | SyncFailed
  datatype Deletion = Deleted | DeletedDirty | DeletePending | DeleteRefused

  /** A change of the vault that its profile must follow came between: before its
      publication, or before the deletion of the row, and then nothing else failed. */
  predicate Overtaken(original: Option<Content>, published: Sync, staging: Staging, deletion: Deletion, faults: Faults) {
    || published == SyncPending
    || (published == Synced && deletion == DeletePending
        && !StagingFails(original, staging) && !MoveBackFails(original, faults))
  }

  /** What a change leaves behind when it dies after `calls` steps, or is refused,
      or ends: the artifacts in place, and its stage. */
  function Left(original: Option<Content>, t: Token, deletes: bool, options: Digest, refused: bool, calls: nat,
                faults: Faults): (Option<Content>, map<Token, Stage>)
  {
    if original.None? || calls == 0 then (original, map[])
    else
      var stage := Stage(deletes, options, false, original);
      if calls == 1 then (original, map[t := stage.(copy := None)])
      else if calls == 2 then (None, map[t := stage])
      else if refused then
        if faults.rename then (None, map[t := stage])
        else (original, if faults.drop then map[t := stage.(copy := None)] else map[])
      else if calls == 3 then (None, map[t := stage])
      else if !faults.removal && !faults.drop then (None, map[])
      else (None, map[t := stage.(marked := !faults.mark, copy := if faults.removal then original else None)])
  }

  /** The start after a change that was saved. */
  lemma SavedThenStart(was: Option<Content>, t: Token, row: Digest, change: Option<Digest>, calls: nat, faults: Faults,
                       recovery: Faults, now: Option<Content>, after: map<Token, Stage>)
    requires calls >= 3
    requires var (here, before) := Left(was, t, change == None, row, false, calls, faults);
      Pass(change, _ => recovery, here, before, before.Keys, now, after)
    ensures var before := Left(was, t, change == None, row, false, calls, faults).1;
      var comesBack := change == Some(row) && was.Some? && (calls == 3 || (faults.mark && faults.removal));
      && after.Keys <= before.Keys && now == (if comesBack && !recovery.rename then was else None)
      && (was.None? || (change != Some(row) && !recovery.removal && !recovery.drop) ==> after == map[])
      && ((exists u :: u in after && !LooksSaved(before[u], change)) <==>
            change == Some(row) && was.Some?
            && (if comesBack then recovery.rename || recovery.drop else faults.mark && faults.drop))
  {
    hide Pass;
    var (here, before) := Left(was, t, change == None, row, false, calls, faults);
    assert before.Keys <= {t};
    PassOverOne(change, recovery, here, before, t, now, after);
    assert after.Keys <= {t};
    assert t in after ==> t in before;
  }

  /** The start after a change that was refused, or died before it was saved. */
  lemma UnsavedThenStart(was: Option<Content>, t: Token, row: Digest, deletes: bool, refused: bool, calls: nat,
                         faults: Faults, recovery: Faults, now: Option<Content>, after: map<Token, Stage>)
    requires calls < 3 || refused
    requires var (here, before) := Left(was, t, deletes, row, refused, calls, faults);
      Pass(Some(row), _ => recovery, here, before, before.Keys, now, after)
    ensures var before := Left(was, t, deletes, row, refused, calls, faults).1;
      var stuck := was.Some? && calls > 0 && (calls >= 3 ==> faults.rename || faults.drop)
                   && (recovery.drop || (recovery.rename && now.None?));
      && after.Keys <= before.Keys && (after == map[] <==> !stuck)
      && (now == was || (stuck && recovery.rename && t in after && after[t].copy == was))
      && ((exists u :: u in after && !LooksSaved(before[u], Some(row))) <==> stuck)
      && (recovery == NO_FAULTS ==> now == was)
  {
    hide Pass;
    var (here, before) := Left(was, t, deletes, row, refused, calls, faults);
    assert before.Keys <= {t};
    PassOverOne(Some(row), recovery, here, before, t, now, after);
    assert after.Keys <= {t};
    assert t in after ==> t in before;
  }

  class Vault {
    var original: Option<Content>
    var row: Option<Digest>
    var stages: map<Token, Stage>
    var next: Token
    /** The stages whose change has reached the database. */
    ghost var saved: set<Token>

    ghost predicate Valid()
      reads this
    {
      && (forall t :: t in saved ==> t < next)
      && (forall t :: t in stages ==> t < next && (stages[t].marked ==> t in saved))
      // An unsaved change: the row is the old one, and the artifacts are not lost.
      && (forall t :: t in stages && t !in saved ==>
            row == Some(stages[t].oldOptions) && (original.None? ==> stages[t].copy.Some?))
      && (forall t, u :: t in stages && u in stages && t !in saved && u !in saved ==> t == u)
    }

    constructor (original: Option<Content>, row: Option<Digest>)
      ensures Valid() && this.original == original && this.row == row && stages == map[] && saved == {}
    {
      this.original, this.row, stages, next, saved := original, row, map[], 0, {};
    }

    /** The manifest is written first, then the artifacts are moved aside; nothing
        is staged when there are none. `calls` is how many of these succeed before
        the process dies. */
    method StageArtifacts(deletes: bool, calls: nat) returns (token: Option<Token>)
      requires Valid() && saved >= stages.Keys && row.Some?
      modifies this
      ensures Valid() && row == old(row) && saved == old(saved) && next >= old(next)
      ensures old(original).None? || calls == 0 ==> token == None && original == old(original) && stages == old(stages)
      ensures old(original).Some? && calls > 0 ==>
        && old(next) !in old(stages)
        && stages == old(stages)[old(next) := Stage(deletes, row.value, false, if calls == 1 then None else old(original))]
        && original == (if calls == 1 then old(original) else None)
        && token == if calls == 1 then None else Some(old(next))
    {
      if original.None? || calls == 0 { return None; }
      stages := stages[next := Stage(deletes, row.value, false, None)];
      token := Some(next);
      next := next + 1;
      if calls == 1 { return None; }
      stages := stages[token.value := stages[token.value].(copy := original)];
      original := None;
    }

    /** Moves the old copy back, but never over artifacts that are there. */
    method Restore(t: Token, faults: Faults) returns (ok: bool)
      requires Valid() && t in stages
      modifies this`original, this`stages, this`saved
      ensures Valid() && row == old(row)
      ensures forall u :: u in old(stages) && u != t ==> u in stages && stages[u] == old(stages)[u]
      ensures forall u :: u in stages ==> u in old(stages)
      ensures forall u :: u != t || t in stages ==> (u in saved <==> u in old(saved))
      ensures saved <= old(saved) && (ok <==> t !in stages) && (ok ==> original.Some?)
      ensures var blocked := RestoreBlocked(old(original), old(stages)[t], faults);
        && ok == (!blocked && !faults.drop)
        && original == (if !blocked && old(original).None? then old(stages)[t].copy else old(original))
        && stages == if blocked then old(stages) else if faults.drop then old(stages)[t := old(stages)[t].(copy := None)]
                     else old(stages) - {t}
    {
      var stage := stages[t];
      if original.Some? && stage.copy.Some? { return false; }
      if original.None? && stage.copy.None? { return false; }
      if original.None? {
        if faults.rename { return false; }
        original := stage.copy;
        stages := stages[t := stage.(copy := None)];
      }
      if faults.drop { return false; }
      stages := stages - {t};
      saved := saved - {t};
      return true;
    }

    /** Discards the old copy of a saved change: the manifest is marked first, so
        that the next start no longer asks the database. */
    method Finalize(t: Token, faults: Faults) returns (ok: bool)
      requires Valid() && t in stages && t in saved
      modifies this`stages, this`saved
      ensures Valid()
      ensures forall u :: u in old(stages) && u != t ==> u in stages && stages[u] == old(stages)[u]
      ensures forall u :: u in stages ==> u in old(stages)
      ensures forall u :: u != t || t in stages ==> (u in saved <==> u in old(saved))
      ensures ok == (!faults.removal && !faults.drop)
      // The copy goes unless its removal fails; the manifest is marked unless that
      // fails, so it stays unmarked only when both do or when only its own removal did.
      ensures stages == if ok then old(stages) - {t} else
        old(stages)[t := old(stages)[t].(marked := old(stages)[t].marked || !faults.mark,
                                         copy := if faults.removal then old(stages)[t].copy else None)]
    {
      if !stages[t].marked && !faults.mark {
        stages := stages[t := stages[t].(marked := true)];
      }
      if faults.removal { return false; }
      stages := stages[t := stages[t].(copy := None)];
      if faults.drop { return false; }
      stages := stages - {t};
      saved := saved - {t};
      return true;
    }

    /** One stage at startup. A stage that looks saved is only ever discarded; one
        that does not is moved back, or that fails. */
    method ReconcileStage(t: Token, faults: Faults) returns (committed: bool, ok: bool)
      requires Valid() && t in stages
      modifies this`original, this`stages, this`saved
      ensures Valid() && row == old(row) && committed == LooksSaved(old(stages)[t], row)
      ensures forall u :: u in old(stages) && u != t ==> u in stages && stages[u] == old(stages)[u]
      ensures forall u :: u in stages ==> u in old(stages)
      ensures forall u :: u != t || t in stages ==> (u in saved <==> u in old(saved))
      ensures ok <==> t !in stages
      ensures var (now, left) := Resolve(old(original), old(stages)[t], row, faults);
        original == now && stages == Put(old(stages), t, left)
      // A marked manifest never brings an old copy back, whatever the database
      // says by now; and artifacts that are there are never overwritten.
      ensures old(stages)[t].marked || old(original).Some? ==> original == old(original)
      // An old copy comes back exactly when nothing is there, the change looks
      // unsaved and the move does not fail.
      ensures original == if old(original).None? && ComesBack(old(stages)[t], row, faults) then old(stages)[t].copy
                          else old(original)
      ensures t in stages <==> if committed then faults.removal || faults.drop
                               else faults.drop || RestoreBlocked(old(original), old(stages)[t], faults)
      ensures t in stages && committed ==> stages[t].marked == (old(stages)[t].marked || !faults.mark)
      ensures t in stages && !committed ==> stages[t].copy == old(stages)[t].copy || original == old(stages)[t].copy
    {
      committed := LooksSaved(stages[t], row);
      if committed {
        ok := Finalize(t, faults);
      } else {
        ok := Restore(t, faults);
      }
    }

    /** Startup: every stage is resolved, as far as `faults` let it; a crash is the
        failure of everything after it. The app goes on when no unsaved change is
        left unresolved; a saved one only leaves its old copy to a later start. */
    method Reconcile(faults: Token -> Faults) returns (ok: bool)
      requires Valid()
      modifies this`original, this`stages, this`saved
      ensures Valid() && row == old(row)
      ensures forall t :: t in stages ==> (t in saved <==> t in old(saved))
      ensures Pass(row, faults, old(original), old(stages), old(stages).Keys, original, stages)
      ensures ok <==> forall t :: t in stages ==> LooksSaved(old(stages)[t], row)
      ensures old(Tidy(row, original, stages, saved)) && (forall t :: faults(t) == NO_FAULTS) ==> ok && stages == map[]
    {
      ghost var was, before := original, stages;
      ok := true;
      var tokens := stages.Keys;
      hide Pass;
      PassBegins(row, faults, was, before);
      assert before.Keys - tokens == {};
      while tokens != {}
        invariant Valid() && row == old(row) && stages.Keys <= before.Keys && tokens <= before.Keys
        invariant forall t :: t in stages ==> (t in saved <==> t in old(saved))
        invariant Pass(row, faults, was, before, before.Keys - tokens, original, stages)
        invariant ok <==> forall t :: t in stages && t !in tokens ==> LooksSaved(before[t], row)
        decreases |tokens|
      {
        hide OnlyUnsaved, LooksSaved, Resolve, RestoreBlocked, Valid, Tidy;
        var t :| t in tokens;
        PassNotYet(row, faults, was, before, before.Keys - tokens, original, stages, t);
        PassStep(row, faults, was, before, before.Keys - tokens, original, stages, t);
        LookedAt(before.Keys, tokens, t);
        var committed, resolved := ReconcileStage(t, faults(t));
        if !committed && !resolved { ok := false; }
        tokens := tokens - {t};
      }
      assert before.Keys - tokens == before.Keys;
      if old(Tidy(row, original, stages, saved)) && forall t :: faults(t) == NO_FAULTS {
        PassCleans(row, faults, was, before, old(saved), original, stages);
      }
    }

    /** The database change behind a stage: the row is deleted, or gets new options. */
    method SaveChange(staged: Option<Token>, change: Option<Digest>)
      requires Valid() && row.Some? && (forall t :: t in stages && t !in saved ==> staged == Some(t))
      requires staged.Some? ==> staged.value in stages
      modifies this`row, this`saved
      ensures Valid() && row == change
      ensures saved == old(saved) + (if staged.Some? then {staged.value} else {})
    {
      row := change;
      if staged.Some? { saved := saved + {staged.value}; }
    }

    /** A credential rotation or a deletion, over whatever saved changes left behind:
        the first `calls` steps succeed and the process dies, or the database refuses the
        change. A staging that fails leaves what some such death leaves. */
    method Change(change: Option<Digest>, refused: bool, calls: nat, faults: Faults) returns (done: bool)
      requires Valid() && row.Some? && saved >= stages.Keys
      modifies this
      ensures Valid() && row == (if done then change else old(row)) && (done <==> calls >= 3 && !refused)
      ensures forall t :: t in stages ==> (t in saved <==> done || t in old(stages))
      ensures var (now, left) := Left(old(original), old(next), change == None, old(row).value, refused, calls, faults);
        original == now && stages == old(stages) + left && old(next) !in old(stages)
    {
      ghost var t: Token, was, before := next, original, stages;
      ghost var stage := Stage(change == None, row.value, false, original);
      var token := StageArtifacts(change == None, calls);
      assert stages == if was.None? || calls == 0 then before else before[t := if calls == 1 then stage.(copy := None) else stage];
      PutOver(before, t, stage);
      PutOver(before, t, stage.(copy := None));
      if calls < 3 { return false; }
      if refused {
        if token.Some? {
          var _ := Restore(token.value, faults);
          PutTwice(before, t, stage, stage.(copy := None));
        }
        return false;
      }
      SaveChange(token, change);
      if calls > 3 && token.Some? {
        var _ := Finalize(token.value, faults);
        ghost var left := stage.(marked := !faults.mark, copy := if faults.removal then was else None);
        PutOver(before, t, left);
        PutTwice(before, t, stage, left);
      }
      return true;
    }

    /** Whatever step it died at and whatever failed: the next start brings the old
        artifacts back if the change was not saved, and otherwise not. A rotation to
        the very same options counts as not saved exactly while its stage is unmarked
        and still has the copy; and when only its unmarked manifest is left, the start
        is refused. */
    method ChangeThenRestart(change: Option<Digest>, refused: bool, calls: nat, faults: Faults, recovery: Faults)
      returns (done: bool, ok: bool)
      requires Valid() && row.Some? && stages == map[] && saved == {}
      modifies this
      ensures Valid() && row == (if done then change else old(row)) && (done <==> calls >= 3 && !refused)
      ensures old(original) == None ==> ok && original == None && stages == map[]
      ensures !done && recovery == NO_FAULTS ==> ok && original == old(original) && stages == map[]
      ensures !done ==> original == old(original)
                        || (!ok && recovery.rename && exists t :: t in stages && stages[t].copy == old(original))
      ensures done && change != old(row) ==> ok && original == None
      ensures done && change != old(row) && !recovery.removal && !recovery.drop ==> stages == map[]
      ensures done && change == old(row) && old(original).Some? ==>
        (original == old(original) <==> (calls == 3 || (faults.mark && faults.removal)) && !recovery.rename)
      ensures done && original != old(original) ==> original == None
      // When the start is refused.
      ensures done ==>
        (!ok <==> change == old(row) && old(original).Some?
                  && (if calls == 3 || (faults.mark && faults.removal) then recovery.rename || recovery.drop
                      else faults.mark && faults.drop))
      ensures !done ==>
        (!ok <==> old(original).Some? && calls > 0 && (calls >= 3 ==> faults.rename || faults.drop)
                  && (recovery.drop || (recovery.rename && original.None?)))
    {
      ghost var t, was, row0 := next, original, row.value;
      done := Change(change, refused, calls, faults);
      ghost var before := stages;
      assert before == Left(was, t, change == None, row0, refused, calls, faults).1;
      hide Pass, Left, LooksSaved;
      ok := Reconcile(_ => recovery);
      if done {
        SavedThenStart(was, t, row0, change, calls, faults, recovery, original, stages);
      } else {
        UnsavedThenStart(was, t, row0, change == None, refused, calls, faults, recovery, original, stages);
      }
    }

    /** However many starts fail or crash in whatever way: the first one that nothing
        stops leaves no stage behind and pays what recovery owed at the beginning. */
    method Starts(failing: seq<Faults>, ghost was: Option<Content>) returns (ok: bool)
      requires Valid()
      modifies this`original, this`stages, this`saved
      ensures Valid() && row == old(row)
      ensures old(Tidy(row, original, stages, saved) && Owes(original, stages, saved, was)) ==>
        ok && stages == map[] && original == was
    {
      ghost var tidy := Tidy(row, original, stages, saved) && Owes(original, stages, saved, was);
      for i := 0 to |failing|
        invariant Valid() && row == old(row)
        invariant tidy ==> Tidy(row, original, stages, saved) && Owes(original, stages, saved, was)
      {
        ghost var here, before, done := original, stages, saved;
        var _ := Reconcile(_ => failing[i]);
        if tidy {
          PassKeepsDebt(row, failing[i], here, before, done, original, stages, saved, was);
        }
      }
      ok := Reconcile(_ => NO_FAULTS);
    }

    /** A change that stops anywhere, then any number of starts that fail anywhere: the
        first clean start has the old artifacts back if the change was not saved, and
        none if it was, unless it saved the very same options. */
    method ChangeThenStarts(change: Option<Digest>, refused: bool, calls: nat, faults: Faults, failing: seq<Faults>)
      returns (done: bool, ok: bool)
      requires Valid() && row.Some? && stages == map[] && saved == {}
      modifies this
      ensures Valid() && row == (if done then change else old(row)) && (done <==> calls >= 3 && !refused)
      ensures !done || change != old(row) ==> ok && stages == map[] && original == if done then None else old(original)
    {
      ghost var was, t := original, next;
      done := Change(change, refused, calls, faults);
      if !done || change != old(row) {
        assert stages.Keys <= {t} && (t in stages ==> (t in saved <==> done));
        assert t in stages && !done && original.None? ==> stages[t].copy == was;
        assert Tidy(row, original, stages, saved) && Owes(original, stages, saved, if done then None else was);
      }
      ok := Starts(failing, if done then None else was);
    }

    /** A later start, after the app went on with leftovers: the vault or its old
        options may be back, and new artifacts may be there. An old copy comes back
        exactly when nothing is there and some leftover with a copy looks unsaved;
        a marked one never does. */
    method RestartLater(newRow: Option<Digest>, newOriginal: Option<Content>) returns (ok: bool)
      requires Valid() && saved >= stages.Keys
      modifies this
      ensures Valid() && row == newRow
      ensures (forall t :: t in old(stages) ==> old(stages)[t].marked) ==> ok && stages == map[] && original == newOriginal
      ensures original != newOriginal <==>
        newOriginal == None
        && exists t :: t in old(stages) && !LooksSaved(old(stages)[t], newRow) && old(stages)[t].copy.Some?
      ensures original != newOriginal ==>
        exists t :: t in old(stages) && !old(stages)[t].marked && original == old(stages)[t].copy
    {
      ghost var before := stages;
      row, original := newRow, newOriginal;
      ok := Reconcile(_ => NO_FAULTS);
      if forall t :: t in before ==> before[t].marked {
        forall t | t in before ensures t !in stages { assert LooksSaved(before[t], row); }
      }
    }

    /** How such a leftover comes back: a rotation was saved, but marking its manifest
        and removing the old copy both failed; the engine may have written new artifacts
        since; a second rotation brings the old options back and takes those away; then
        the next start moves the first copy into place. */
    method LeftoverComesBack(rotated: Digest, written: Option<Content>) returns (first: bool, second: bool, ok: bool)
      requires Valid() && row.Some? && row != Some(rotated) && original.Some? && stages == map[] && saved == {}
      modifies this
      ensures first && second && original == old(original) && row == old(row)
    {
      ghost var t, was := next, original;
      var before := row;
      first := Change(Some(rotated), false, 4, Faults(true, true, false, false));
      assert stages == map[t := Stage(false, before.value, false, was)];
      original := written;
      second := Change(before, false, 4, NO_FAULTS);
      assert original == None && stages == map[t := Stage(false, before.value, false, was)];
      assert ComesBack(stages[t], row, NO_FAULTS);
      assert SomeBack(row, _ => NO_FAULTS, stages, stages.Keys);
      ok := Reconcile(_ => NO_FAULTS);
    }

    /** One staging of the removal. */
    method TryStage(staging: Staging) returns (token: Option<Token>, failed: bool)
      requires Valid() && row.Some? && stages == map[] && saved == {}
      modifies this
      ensures Valid() && row == old(row) && saved == {} && failed == StagingFails(old(original), staging)
      ensures failed ==> token == None && (original, stages) == LeftByStaging(old(original), old(next), row.value, staging)
      ensures !failed ==> original == None && token == if old(original).Some? then Some(old(next)) else None
      ensures !failed ==>
        stages == (if token.Some? then map[token.value := Stage(true, row.value, false, old(original))] else map[])
    {
      if staging.NoManifest? { return None, true; }
      if original.None? || staging.Staged? {
        token := StageArtifacts(true, 2);
        return token, false;
      }
      ghost var t: Token, stage := next, Stage(true, row.value, false, original);
      PutOver(map[], t, stage);
      PutOver(map[], t, stage.(copy := None));
      match staging {
        case NotMoved(manifestLeft) =>
          if manifestLeft { var _ := StageArtifacts(true, 1); }
        case NotSynced(undo) =>
          token := StageArtifacts(true, 2);
          var _ := Restore(token.value, undo);
          PutTwice(map[], t, stage, stage.(copy := None));
      }
      return None, true;
    }

    /** Staging, the deletion of the row, and what follows it; nothing comes of it when a
        change overtook the deletion and the artifacts are back. */
    method TryRemoval(staging: Staging, deletion: Deletion, faults: Faults) returns (outcome: Option<Outcome>)
      requires Valid() && row.Some? && stages == map[] && saved == {}
      modifies this
      ensures Valid() && row == if outcome == Some(Removed) then None else old(row)
      ensures outcome in {None, Some(Removed), Some(Refused), Some(RestoreFailed), Some(StageFailed)}
      ensures outcome == Some(StageFailed) <==> StagingFails(old(original), staging)
      ensures outcome == Some(StageFailed) ==>
        (original, stages) == LeftByStaging(old(original), old(next), old(row).value, staging)
      ensures outcome in {None, Some(Refused)} ==> original == old(original) && stages == map[] && saved == {}
      ensures outcome == Some(RestoreFailed) <==>
        !StagingFails(old(original), staging) && deletion !in {Deleted, DeletedDirty} && MoveBackFails(old(original), faults)
      // What was staged is discarded once the row is gone.
      ensures outcome == Some(Removed) ==>
        (original, stages) == Left(old(original), old(next), true, old(row).value, false, 4, faults)
      ensures outcome != Some(StageFailed) ==> (outcome == Some(Removed) <==> deletion in {Deleted, DeletedDirty})
      ensures outcome == None ==> deletion == DeletePending
      ensures outcome == Some(Refused) ==> deletion == DeleteRefused
      ensures Tidy(row, original, stages, saved)
      ensures Owes(original, stages, saved, if outcome == Some(Removed) then None else old(original))
    {
      ghost var t, stage := next, Stage(true, row.value, false, original);
      var token, failed := TryStage(staging);
      if failed {
        assert original.None? && old(original).Some? ==> t in stages && stages[t].copy == old(original);
        return Some(StageFailed);
      }
      if deletion == Deleted || deletion == DeletedDirty {
        SaveChange(token, None);
        if token.Some? {
          var _ := Finalize(token.value, faults);
          ghost var left := stage.(marked := !faults.mark, copy := if faults.removal then stage.copy else None);
          PutOver(map[], t, left);
          PutTwice(map[], t, stage, left);
        }
        return Some(Removed);
      }
      if token.Some? {
        var restored := Restore(token.value, faults);
        if !restored { return Some(RestoreFailed); }
        assert stages == map[] && saved == {};
      }
      return if deletion == DeletePending then None else Some(Refused);
    }

    /** Removing a vault: its profile is published, its artifacts are staged and its
        row is deleted, with one more attempt when a change overtook the first. */
    method Remove(discardProfile: bool, syncs: nat -> Sync, staging: nat -> Staging, deletions: nat -> Deletion,
                  faults: Faults)
      returns (outcome: Outcome, attempts: nat)
      requires Valid() && row.Some? && stages == map[] && saved == {}
      modifies this
      ensures Valid() && 1 <= attempts <= 2
      ensures row == if outcome == Removed then None else old(row)
      // The second attempt is for a change that overtook the first, and only then.
      ensures var published := k => if discardProfile then Synced else syncs(k);
        var overtaken := k => Overtaken(old(original), published(k), staging(k), deletions(k), faults);
        var stageFails := StagingFails(old(original), staging(attempts));
        && attempts == (if overtaken(1) then 2 else 1)
        && (outcome == ProfileStep <==> published(attempts) == SyncFailed || overtaken(attempts))
        && (outcome != ProfileStep ==>
              && published(attempts) == Synced
              && (outcome == StageFailed <==> stageFails)
              && (outcome == Removed <==> !stageFails && deletions(attempts) in {Deleted, DeletedDirty})
              && (outcome == RestoreFailed <==>
                    !stageFails && deletions(attempts) !in {Deleted, DeletedDirty} && MoveBackFails(old(original), faults)))
      // What each leaves behind.
      ensures outcome in {Refused, ProfileStep} ==> original == old(original) && stages == map[]
      ensures outcome == Removed ==>
        exists t :: (original, stages) == Left(old(original), t, true, old(row).value, false, 4, faults)
      ensures outcome == StageFailed ==>
        exists t :: (original, stages) == LeftByStaging(old(original), t, old(row).value, staging(attempts))
      // Whatever is left, a start can settle it.
      ensures Tidy(row, original, stages, saved)
      ensures Owes(original, stages, saved, if outcome == Removed then None else old(original))
    {
      assert Tidy(row, original, stages, saved) && Owes(original, stages, saved, original);
      hide Tidy, Owes, Left, LeftByStaging;
      attempts := 1;
      while true
        invariant 1 <= attempts <= 2 && Valid() && row == old(row) && original == old(original)
        invariant stages == map[] && saved == {}
        invariant Tidy(row, original, stages, saved) && Owes(original, stages, saved, old(original))
        invariant attempts == 2 ==>
          Overtaken(original, if discardProfile then Synced else syncs(1), staging(1), deletions(1), faults)
        decreases 2 - attempts
      {
        if !discardProfile {
          if syncs(attempts) == SyncPending && attempts == 1 {
            attempts := 2;
            continue;
          }
          if syncs(attempts) != Synced { return ProfileStep, attempts; }
        }
        var tried := TryRemoval(staging(attempts), deletions(attempts), faults);
        if tried.Some? { return tried.value, attempts; }
        if attempts == 2 { return ProfileStep, attempts; }
        attempts := 2;
      }
    }

    /** Whatever failed in a removal, its staging included, and in any starts after it:
        the first clean start has the artifacts back exactly if the vault is still there,
        and leaves nothing else. */
    method RemoveThenStarts(discardProfile: bool, syncs: nat -> Sync, staging: nat -> Staging,
                            deletions: nat -> Deletion, faults: Faults, failing: seq<Faults>)
      returns (outcome: Outcome, ok: bool)
      requires Valid() && row.Some? && stages == map[] && saved == {}
      modifies this
      ensures ok && stages == map[] && row == if outcome == Removed then None else old(row)
      ensures original == if outcome == Removed then None else old(original)
    {
      ghost var was := original;
      var attempts;
      outcome, attempts := Remove(discardProfile, syncs, staging, deletions, faults);
      ok := Starts(failing, if outcome == Removed then None else was);
    }
  }
}
