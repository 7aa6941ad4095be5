/** Restoring a selection: the paths it admits, one result per item, and the status
    of the whole request. */
module SelectedRestore {
  // ----- The overlap check --------------------------------------------------

  /** The components of a native path. */
  function Components(path: string): (r: seq<string>)
    ensures |r| > 0
  {
    if path == "" then [""]
    else if path[0] == '/' then [""] + Components(path[1..])
    else
      var rest := Components(path[1..]);
      [[path[0]] + rest[0]] + rest[1..]
  }

  predicate Overlaps(left: string, right: string) {
    left == right || right + "/" <= left || left + "/" <= right
  }

  /** The first component is empty exactly before a slash or the end. */
  lemma Heads(path: string)
    ensures Components(path)[0] == "" <==> path == "" || path[0] == '/'
    ensures path != "" && path[0] == '/' ==> Components(path) == [""] + Components(path[1..])
    ensures path != "" && path[0] != '/' ==>
      Components(path) == [[path[0]] + Components(path[1..])[0]] + Components(path[1..])[1..]
  {
  }

  lemma {:induction false} PrefixOfComponents(l: string, r: string)
    ensures Components(l) <= Components(r) <==> l == r || l + "/" <= r
    decreases |l| + |r|
  {
    Heads(l);
    Heads(r);
    hide Components;
    if l == "" {
      assert l + "/" == "/";
      EmptyPath();
      assert [""] <= Components(r) <==> Components(r)[0] == "";
    } else if r == "" {
      EmptyPath();
      assert !(l + "/" <= r);
      if l[0] == '/' { assert |Components(l)| >= 2; }
      else { assert Components(l)[0] != Components(r)[0]; }
    } else {
      var cl, cr := Components(l[1..]), Components(r[1..]);
      assert l == [l[0]] + l[1..] && r == [r[0]] + r[1..];
      assert l + "/" == [l[0]] + (l[1..] + "/");
      PrefixOfComponents(l[1..], r[1..]);
      assert l + "/" <= r <==> l[0] == r[0] && l[1..] + "/" <= r[1..] by { SameFirst(l[0], r[0], l[1..] + "/", r[1..]); }
      assert l == r <==> l[0] == r[0] && l[1..] == r[1..];
      if l[0] == '/' && r[0] == '/' {
        SameFirst("", "", cl, cr);
      } else if l[0] == '/' || r[0] == '/' {
        assert Components(l)[0] != Components(r)[0];
      } else {
        assert Components(l)[0][0] == l[0] && Components(r)[0][0] == r[0];
        if l[0] == r[0] { SameHead(l[0], cl, cr); }
      }
    }
  }

  lemma EmptyPath()
    ensures Components("") == [""]
  {
  }

  lemma SameFirst<T>(x: T, y: T, a: seq<T>, b: seq<T>)
    ensures [x] + a <= [y] + b <==> x == y && a <= b
  {
    if [x] + a <= [y] + b {
      assert ([x] + a)[0] == ([y] + b)[0];
      assert ([x] + a)[1..] == a && ([y] + b)[1..] == b;
      forall k | 0 <= k < |a| ensures a[k] == b[k] {
        assert ([x] + a)[k + 1] == ([y] + b)[k + 1];
      }
    }
  }

  lemma SameHead(c: char, a: seq<string>, b: seq<string>)
    requires a != [] && b != []
    ensures [[c] + a[0]] + a[1..] <= [[c] + b[0]] + b[1..] <==> a <= b
  {
    SameFirst([c] + a[0], [c] + b[0], a[1..], b[1..]);
    SameFirst(a[0], b[0], a[1..], b[1..]);
    assert a == [a[0]] + a[1..] && b == [b[0]] + b[1..];
    assert ([c] + a[0])[1..] == a[0] && ([c] + b[0])[1..] == b[0];
  }

  /** The textual check is exactly: neither path contains the other. */
  lemma OverlapMeansContainment(l: string, r: string)
    ensures Overlaps(l, r) <==> Components(l) <= Components(r) || Components(r) <= Components(l)
  {
    PrefixOfComponents(l, r);
    PrefixOfComponents(r, l);
  }

  datatype Item = Item(snapshot: string, path: string)

  method Admit(items: seq<Item>) returns (ok: bool)
    ensures ok <==> forall i, j :: 0 <= i < j < |items| ==>
      !(Components(items[i].path) <= Components(items[j].path)) && !(Components(items[j].path) <= Components(items[i].path))
  {
    var left := 0;
    while left < |items|
      invariant 0 <= left <= |items|
      invariant forall i, j :: 0 <= i < left && i < j < |items| ==>
        !(Components(items[i].path) <= Components(items[j].path)) && !(Components(items[j].path) <= Components(items[i].path))
    {
      var right := left + 1;
      while right < |items|
        invariant left < right <= |items|
        invariant forall j :: left < j < right ==>
          !(Components(items[left].path) <= Components(items[j].path))
          && !(Components(items[j].path) <= Components(items[left].path))
      {
        OverlapMeansContainment(items[left].path, items[right].path);
        if Overlaps(items[left].path, items[right].path) { return false; }
        right := right + 1;
      }
      left := left + 1;
    }
    return true;
  }

  const NUL: char := 0 as char

  /** The key under which an item's reviewed native root is kept. */
  function Key(item: Item): string { item.snapshot + [NUL] + item.path }

  /** Admitted paths hold no NUL, so two items never share a key. */
  lemma KeysAreUnique(a: Item, b: Item)
    requires NUL !in a.path && NUL !in b.path && a.path != b.path
    ensures Key(a) != Key(b)
  {
    assert Key(a)[|a.snapshot|] == NUL && Key(b)[|b.snapshot|] == NUL;
    assert Key(a)[|a.snapshot| + 1..] == a.path && Key(b)[|b.snapshot| + 1..] == b.path;
  }

  // ----- The items ----------------------------------------------------------

  /** How the engine's restore of one item ended. `followup` is a later step of the
      application failing, `own` this request's own cancel. */
  datatype Ended =
    | Clean
    | WithErrors(followup: bool)
    | Unreadable
    | FollowupFailed
    | NotStarted(own: bool)
    | StorageGone
    | NativeFailed(own: bool, followup: bool)

  datatype Result = Result(item: Item, ended: Ended) | Skipped(item: Item, cancelled: bool)

  datatype Status = Success | CompletedWithIssues | Failed | Interrupted

  /** After such an item no later one is restored. */
  predicate Stops(r: Result) {
    r.Result? && (r.ended.NotStarted? || r.ended.StorageGone? || (r.ended.NativeFailed? && r.ended.own))
  }

  predicate OwnCancel(r: Result) {
    match r
    case Skipped(_, cancelled) => cancelled
    case Result(_, ended) => (ended.NotStarted? || ended.NativeFailed?) && ended.own
  }

  predicate NotAttempted(r: Result) { r.Skipped? || r.ended.NotStarted? }
  predicate NativelyRestored(r: Result) { r.Result? && (r.ended.Clean? || r.ended.FollowupFailed?) }
  predicate HasIssues(r: Result) { r.Result? && r.ended.WithErrors? }
  predicate IsClean(r: Result) { r.Result? && r.ended.Clean? }
  predicate Attempted(r: Result) { r.Result? && !r.ended.NotStarted? && !r.ended.StorageGone? }

  /** The item itself failed: natively, or after a native success. An item with errors
      that finished, or an own cancel, has not. */
  predicate ItemFailed(r: Result) {
    r.Result? && (r.ended.Unreadable? || r.ended.FollowupFailed? || r.ended.StorageGone?
                  || (r.ended.NativeFailed? && !r.ended.own))
  }

  /** A step around the native restore failed. */
  predicate StepFailed(r: Result) {
    r.Result? && match r.ended
      case Clean => false
      case WithErrors(followup) => followup
      case NativeFailed(_, followup) => followup
      case _ => true
  }

  predicate IsStorageGone(r: Result) { r.Result? && r.ended.StorageGone? }

  function Count(results: seq<Result>, p: Result -> bool): (n: nat)
    ensures n <= |results|
  {
    if results == [] then 0
    else Count(results[..|results| - 1], p) + if p(results[|results| - 1]) then 1 else 0
  }

  lemma InLast(results: seq<Result>, last: Result, r: Result)
    ensures r in results + [last] <==> r in results || r == last
  {}

  lemma {:induction false} CountMeans(results: seq<Result>, p: Result -> bool)
    ensures Count(results, p) == 0 <==> forall r :: r in results ==> !p(r)
    ensures Count(results, p) == |results| <==> forall r :: r in results ==> p(r)
  {
    if results != [] {
      var rest, last := results[..|results| - 1], results[|results| - 1];
      CountMeans(rest, p);
      forall r ensures r in results <==> r in rest || r == last { InLast(rest, last, r); assert results == rest + [last]; }
      hide Count;
      assert Count(results, p) == Count(rest, p) + if p(last) then 1 else 0 by { assert results == rest + [last]; CountAppend(rest, last, p); }
    }
  }

  lemma CountAppend(results: seq<Result>, r: Result, p: Result -> bool)
    ensures Count(results + [r], p) == Count(results, p) + if p(r) then 1 else 0
  {
    assert (results + [r])[..|results|] == results;
  }

  ghost predicate StoppedBefore(results: seq<Result>, k: nat) {
    exists j :: 0 <= j < k && j < |results| && Stops(results[j])
  }

  /** Each item in order, restored until the first stop and skipped after it. */
  ghost predicate InOrder(items: seq<Item>, cancelled: seq<bool>, ended: seq<Ended>, results: seq<Result>)
    requires |items| == |cancelled| == |ended| && |results| <= |items|
  {
    forall k :: 0 <= k < |results| ==>
      results[k] ==
        if StoppedBefore(results, k) then Skipped(items[k], false)
        else if cancelled[k] then Skipped(items[k], true)
        else Result(items[k], ended[k])
  }

  lemma NextInOrder(items: seq<Item>, cancelled: seq<bool>, ended: seq<Ended>, results: seq<Result>, r: Result)
    requires |items| == |cancelled| == |ended| && |results| < |items| && InOrder(items, cancelled, ended, results)
    requires var k := |results|;
             r == if StoppedBefore(results, k) then Skipped(items[k], false)
                  else if cancelled[k] then Skipped(items[k], true)
                  else Result(items[k], ended[k])
    ensures InOrder(items, cancelled, ended, results + [r])
    ensures StoppedBefore(results + [r], |results| + 1) <==> StoppedBefore(results, |results|) || Stops(r)
  {
    var after := results + [r];
    forall k: nat | k <= |results| ensures StoppedBefore(after, k) <==> StoppedBefore(results, k) {
      if StoppedBefore(after, k) {
        var j :| 0 <= j < k && j < |after| && Stops(after[j]);
        assert Stops(results[j]);
      }
      if StoppedBefore(results, k) {
        var j :| 0 <= j < k && j < |results| && Stops(results[j]);
        assert Stops(after[j]);
      }
    }
    if Stops(r) { assert Stops(after[|results|]); }
    if StoppedBefore(results, |results|) {
      var j :| 0 <= j < |results| && Stops(results[j]);
      assert Stops(after[j]);
    }
  }

  datatype Totals = Totals(attempted: nat, restored: nat, failed: nat, orchestrationFailed: nat, notAttempted: nat, issues: nat)

  predicate Blameless(t: Totals) {
    t.failed == 0 && t.orchestrationFailed == 0 && t.notAttempted == 0 && t.issues == 0
  }

  function One(b: bool): nat { if b then 1 else 0 }

  /** The bookkeeping for one item the engine was asked to restore. */
  method Account(t: Totals, item: Item, ended: Ended) returns (t': Totals, stop: bool, interrupted: bool)
    ensures var r := Result(item, ended);
      && stop == Stops(r) && interrupted == OwnCancel(r)
      && t'.notAttempted == t.notAttempted + One(NotAttempted(r))
      && t'.restored == t.restored + One(NativelyRestored(r)) && t'.issues == t.issues + One(HasIssues(r))
      && t'.attempted == t.attempted + One(Attempted(r))
      && t'.failed == t.failed + One(ItemFailed(r)) && t'.orchestrationFailed == t.orchestrationFailed + One(StepFailed(r))
      && t'.attempted + t'.notAttempted + One(IsStorageGone(r)) == t.attempted + t.notAttempted + 1
      && (IsClean(r) ==> t' == t.(attempted := t.attempted + 1, restored := t.restored + 1))
      && (Blameless(t') && !interrupted ==> IsClean(r) && Blameless(t))
  {
    t', stop, interrupted := t, false, false;
    match ended {
      case Clean =>
        t' := t.(attempted := t.attempted + 1, restored := t.restored + 1);
      case WithErrors(followup) =>
        t' := t.(attempted := t.attempted + 1, issues := t.issues + 1);
        if followup { t' := t'.(orchestrationFailed := t.orchestrationFailed + 1); }
      case Unreadable =>
        t' := t.(attempted := t.attempted + 1, failed := t.failed + 1, orchestrationFailed := t.orchestrationFailed + 1);
      case FollowupFailed =>
        t' := t.(attempted := t.attempted + 1, restored := t.restored + 1,
                 failed := t.failed + 1, orchestrationFailed := t.orchestrationFailed + 1);
      case NotStarted(own) =>
        t' := t.(notAttempted := t.notAttempted + 1, orchestrationFailed := t.orchestrationFailed + 1);
        interrupted, stop := own, true;
      case StorageGone =>
        t' := t.(failed := t.failed + 1, orchestrationFailed := t.orchestrationFailed + 1);
        stop := true;
      case NativeFailed(own, followup) =>
        t' := t.(attempted := t.attempted + 1);
        if own { interrupted, stop := true, true; } else { t' := t'.(failed := t.failed + 1); }
        if followup { t' := t'.(orchestrationFailed := t.orchestrationFailed + 1); }
    }
  }

  /** The running totals are the counts of the results so far. */
  ghost predicate Tallied(results: seq<Result>, t: Totals, stopped: bool, interrupted: bool) {
    && t.notAttempted == Count(results, NotAttempted)
    && t.restored == Count(results, NativelyRestored) && t.issues == Count(results, HasIssues)
    && t.attempted == Count(results, Attempted)
    && t.failed == Count(results, ItemFailed) && t.orchestrationFailed == Count(results, StepFailed)
    && t.attempted + t.notAttempted + Count(results, IsStorageGone) == |results|
    && Count(results, IsStorageGone) <= One(stopped)
    && (interrupted <==> Count(results, OwnCancel) > 0)
    && (Blameless(t) && !interrupted <==> Count(results, IsClean) == |results|)
    && Count(results, IsClean) <= t.restored
  }

  /** One more result, booked as `Account` or as a skipped item. */
  lemma TalliedNext(results: seq<Result>, t: Totals, stopped: bool, interrupted: bool, r: Result, t': Totals)
    requires Tallied(results, t, stopped, interrupted) && (stopped ==> r.Skipped?)
    requires t'.notAttempted == t.notAttempted + One(NotAttempted(r))
    requires t'.restored == t.restored + One(NativelyRestored(r)) && t'.issues == t.issues + One(HasIssues(r))
    requires t'.attempted == t.attempted + One(Attempted(r))
    requires t'.failed == t.failed + One(ItemFailed(r)) && t'.orchestrationFailed == t.orchestrationFailed + One(StepFailed(r))
    requires t'.attempted + t'.notAttempted + One(IsStorageGone(r)) == t.attempted + t.notAttempted + 1
    requires IsClean(r) ==> t' == t.(attempted := t.attempted + 1, restored := t.restored + 1)
    requires Blameless(t') && !OwnCancel(r) ==> IsClean(r) && Blameless(t)
    ensures Tallied(results + [r], t', stopped || Stops(r), interrupted || OwnCancel(r))
  {
    CountAppend(results, r, NotAttempted);
    CountAppend(results, r, NativelyRestored);
    CountAppend(results, r, HasIssues);
    CountAppend(results, r, Attempted);
    CountAppend(results, r, ItemFailed);
    CountAppend(results, r, StepFailed);
    CountAppend(results, r, IsStorageGone);
    CountAppend(results, r, OwnCancel);
    CountAppend(results, r, IsClean);
  }

  /** The status of the whole request. */
  method Overall(results: seq<Result>, totals: Totals, stopped: bool, interrupted: bool) returns (status: Status)
    requires Tallied(results, totals, stopped, interrupted)
    ensures status == Success <==> results != [] && forall r :: r in results ==> IsClean(r)
    ensures status == Interrupted <==> exists r :: r in results && OwnCancel(r)
    ensures status == Failed <==> forall r :: r in results ==> !NativelyRestored(r) && !HasIssues(r) && !OwnCancel(r)
  {
    CountMeans(results, OwnCancel);
    CountMeans(results, IsClean);
    CountMeans(results, NativelyRestored);
    CountMeans(results, HasIssues);
    hide Count;
    status := Success;
    if totals.restored == 0 && totals.issues == 0 {
      status := Failed;
    } else if totals.failed > 0 || totals.orchestrationFailed > 0 || totals.notAttempted > 0 || totals.issues > 0 {
      status := CompletedWithIssues;
    }
    if interrupted { status := Interrupted; }
  }

  method RestoreSelection(items: seq<Item>, cancelled: seq<bool>, ended: seq<Ended>)
    returns (results: seq<Result>, totals: Totals, status: Status)
    requires |items| == |cancelled| == |ended|
    // A cancelled request stays cancelled.
    requires forall j, k :: 0 <= j < k < |items| && cancelled[j] ==> cancelled[k]
    ensures |results| == |items| && InOrder(items, cancelled, ended, results)
    ensures totals.notAttempted == Count(results, NotAttempted)
    ensures totals.attempted + totals.notAttempted + Count(results, IsStorageGone) == |items|
    ensures Count(results, IsStorageGone) <= 1 && totals.attempted == Count(results, Attempted)
    ensures totals.failed == Count(results, ItemFailed) && totals.orchestrationFailed == Count(results, StepFailed)
    ensures totals.restored == Count(results, NativelyRestored) && totals.issues == Count(results, HasIssues)
    ensures status == Success <==> |items| > 0 && forall r :: r in results ==> IsClean(r)
    ensures status == Interrupted <==> exists r :: r in results && OwnCancel(r)
    ensures status == Failed <==> forall r :: r in results ==> !NativelyRestored(r) && !HasIssues(r) && !OwnCancel(r)
  {
    results, totals := [], Totals(0, 0, 0, 0, 0, 0);
    var stopped, interrupted := false, false;
    for k := 0 to |items|
      invariant |results| == k && InOrder(items, cancelled, ended, results)
      invariant stopped <==> StoppedBefore(results, k)
      invariant Tallied(results, totals, stopped, interrupted)
    {
      hide Tallied, InOrder, StoppedBefore;
      var r: Result;
      ghost var was, wasStopped, wasInterrupted := totals, stopped, interrupted;
      if stopped || cancelled[k] {
        r := Skipped(items[k], !stopped);
        totals := totals.(notAttempted := totals.notAttempted + 1);
        interrupted := interrupted || !stopped;
      } else {
        r := Result(items[k], ended[k]);
        var stop, own;
        totals, stop, own := Account(totals, items[k], ended[k]);
        stopped, interrupted := stop, interrupted || own;
      }
      NextInOrder(items, cancelled, ended, results, r);
      TalliedNext(results, was, wasStopped, wasInterrupted, r, totals);
      results := results + [r];
    }
    status := Overall(results, totals, stopped, interrupted);
  }

  /** After the first stop every later item is reported as not attempted. */
  lemma {:induction false} AllSkippedAfterAStop(items: seq<Item>, cancelled: seq<bool>, ended: seq<Ended>, results: seq<Result>, j: nat, k: nat)
    requires |items| == |cancelled| == |ended| == |results| && InOrder(items, cancelled, ended, results)
    requires forall a, b :: 0 <= a < b < |items| && cancelled[a] ==> cancelled[b]
    requires j < k < |items| && (Stops(results[j]) || results[j].Skipped?)
    ensures results[k].Skipped? && NotAttempted(results[k])
  {
    if !Stops(results[j]) && !cancelled[j] {
      var a :| 0 <= a < j && Stops(results[a]);
      assert StoppedBefore(results, k);
    }
  }
}
