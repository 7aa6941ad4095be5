/** Re-owning the state volume for the container's user, interruption-safe. */
module StateVolume {
  type Inode = nat
  type User = nat

  /** A directory entry, with its children as the walk lists them; one that is gone by
      the time it is looked at ends the walk, as any call that fails does. What is
      mounted inside the volume is not its own. */
  datatype Node = Node(inode: Inode, folder: bool, mounted: bool, children: seq<Node>)

  /** The inodes below the folder `node`, from its child `k` on, outside mounts. */
  ghost function BelowFrom(node: Node, k: nat): (r: set<Inode>)
    requires k <= |node.children|
    decreases node, |node.children| - k
  {
    if k == |node.children| then {}
    else (if node.children[k].mounted then {} else Whole(node.children[k])) + BelowFrom(node, k + 1)
  }

  ghost function Below(node: Node): (r: set<Inode>)
    decreases node, |node.children| + 1
  {
    if node.folder then BelowFrom(node, 0) else {}
  }

  ghost function Whole(node: Node): (r: set<Inode>)
    decreases node, |node.children| + 2
  {
    {node.inode} + Below(node)
  }

  /** How many calls a walk of the folder, from its child `k` on, makes at most. */
  function Steps(node: Node, k: nat): (n: nat)
    requires k <= |node.children|
    decreases node, |node.children| - k
  {
    if k == |node.children| then 0
    else
      var child := node.children[k];
      (if child.mounted then 0 else if child.folder then 2 + Steps(child, 0) else 2) + Steps(node, k + 1)
  }

  predicate Has(owner: map<Inode, User>, i: Inode, user: User) {
    i in owner && owner[i] == user
  }

  ghost predicate All(owner: map<Inode, User>, inodes: set<Inode>, user: User) {
    forall i :: i in inodes ==> Has(owner, i, user)
  }

  ghost predicate Same(owner: map<Inode, User>, other: map<Inode, User>, i: Inode) {
    (i in owner <==> i in other) && (i in owner ==> owner[i] == other[i])
  }

  /** Some of `inodes` were given to `user`, and nothing else changed. */
  ghost predicate Gave(now: map<Inode, User>, owner: map<Inode, User>, inodes: set<Inode>, user: User) {
    forall i :: Same(now, owner, i) || (i in inodes && Has(now, i, user))
  }

  lemma GaveBoth(now: map<Inode, User>, between: map<Inode, User>, owner: map<Inode, User>, later: set<Inode>,
                 earlier: set<Inode>, user: User)
    requires Gave(between, owner, earlier, user) && Gave(now, between, later, user)
    ensures Gave(now, owner, earlier + later, user)
  {
    forall i
      ensures Same(now, owner, i) || (i in earlier + later && Has(now, i, user))
    {
      assert Same(now, between, i) || (i in later && Has(now, i, user));
      assert Same(between, owner, i) || (i in earlier && Has(between, i, user));
    }
  }

  /** A walk of the folder from its child `k` on, which stops before any change after
      `left` calls: the owners then, whether it got through, and the calls not made. */
  function Walk(node: Node, k: nat, user: User, owner: map<Inode, User>, left: nat): (map<Inode, User>, bool, nat)
    requires k <= |node.children|
    decreases node, |node.children| - k
  {
    if k == |node.children| then (owner, true, left)
    else
      var child := node.children[k];
      if child.mounted then Walk(node, k + 1, user, owner, left)
      else if left == 0 then (owner, false, 0)
      else
        var (inside, through, rest) := if child.folder then Walk(child, 0, user, owner, left - 1) else (owner, true, left - 1);
        if !through then (inside, false, rest)
        else if Has(owner, child.inode, user) then Walk(node, k + 1, user, inside, rest)
        else if rest == 0 then (inside, false, 0)
        else Walk(node, k + 1, user, inside[child.inode := user], rest - 1)
  }

  /** One start: nothing when the top folder is the user's, else the walk, and the
      top folder last. */
  function Start(root: Node, user: User, owner: map<Inode, User>, calls: nat): (map<Inode, User>, bool) {
    if Has(owner, root.inode, user) then (owner, true)
    else
      var (inside, through, rest) := Walk(root, 0, user, owner, calls);
      if through && rest > 0 then (inside[root.inode := user], true) else (inside, false)
  }

  /** A walk makes no more calls than it has, and enough calls get it through. */
  lemma {:induction false} WalkMakesItsSteps(node: Node, k: nat, user: User, owner: map<Inode, User>, left: nat)
    requires k <= |node.children|
    ensures var (now, through, rest) := Walk(node, k, user, owner, left);
      rest <= left && (left >= Steps(node, k) ==> through && rest >= left - Steps(node, k))
    decreases node, |node.children| - k
  {
    if k == |node.children| {
    } else {
      var child := node.children[k];
      if child.mounted {
        WalkMakesItsSteps(node, k + 1, user, owner, left);
      } else if left > 0 {
        var (inside, through, rest) := if child.folder then Walk(child, 0, user, owner, left - 1) else (owner, true, left - 1);
        if child.folder { WalkMakesItsSteps(child, 0, user, owner, left - 1); }
        if through && Has(owner, child.inode, user) {
          WalkMakesItsSteps(node, k + 1, user, inside, rest);
        } else if through && rest > 0 {
          WalkMakesItsSteps(node, k + 1, user, inside[child.inode := user], rest - 1);
        }
      }
    }
  }

  /** A walk gives the user everything below the folder when it gets through, takes
      nothing from the user and changes nothing else. */
  lemma {:induction false} WalkOwnsBelow(node: Node, k: nat, user: User, owner: map<Inode, User>, left: nat)
    requires k <= |node.children|
    ensures var (now, through, _) := Walk(node, k, user, owner, left);
      (through ==> All(now, BelowFrom(node, k), user)) && Gave(now, owner, BelowFrom(node, k), user)
    decreases node, |node.children| - k
  {
    if k == |node.children| {
    } else {
      var child := node.children[k];
      if child.mounted {
        WalkOwnsBelow(node, k + 1, user, owner, left);
      } else if left > 0 {
        var (inside, through, rest) := if child.folder then Walk(child, 0, user, owner, left - 1) else (owner, true, left - 1);
        if child.folder { WalkOwnsBelow(child, 0, user, owner, left - 1); }
        assert BelowFrom(node, k) == Whole(child) + BelowFrom(node, k + 1);
        if through && (rest > 0 || Has(owner, child.inode, user)) {
          var found := Has(owner, child.inode, user);
          var given := if found then inside else inside[child.inode := user];
          ChildGiven(child, user, owner, inside, found);
          hide Gave, All, Same, Whole;
          WalkOwnsBelow(node, k + 1, user, given, if found then rest else rest - 1);
          var now := Walk(node, k, user, owner, left).0;
          GaveBoth(now, given, owner, BelowFrom(node, k + 1), Whole(child), user);
          if Walk(node, k, user, owner, left).1 {
            StaysGiven(now, given, BelowFrom(node, k + 1), Whole(child), user);
          }
        } else {
          forall i
            ensures Same(inside, owner, i) || (i in BelowFrom(node, k) && Has(inside, i, user))
          {
            assert Same(inside, owner, i) || (i in Below(child) && Has(inside, i, user));
          }
        }
      }
    }
  }

  lemma ChildGiven(child: Node, user: User, owner: map<Inode, User>, inside: map<Inode, User>, found: bool)
    requires Gave(inside, owner, Below(child), user) && All(inside, Below(child), user)
    requires found == Has(owner, child.inode, user)
    ensures var given := if found then inside else inside[child.inode := user];
      Gave(given, owner, Whole(child), user) && All(given, Whole(child), user)
  {
    var given := if found then inside else inside[child.inode := user];
    assert Same(inside, owner, child.inode) || Has(inside, child.inode, user);
    forall i
      ensures Same(given, owner, i) || (i in Whole(child) && Has(given, i, user))
    {
      assert Same(inside, owner, i) || (i in Below(child) && Has(inside, i, user));
    }
  }

  /** What is the user's stays so. */
  lemma StaysGiven(now: map<Inode, User>, owner: map<Inode, User>, inodes: set<Inode>, theirs: set<Inode>, user: User)
    requires Gave(now, owner, inodes, user) && All(now, inodes, user) && All(owner, theirs, user)
    ensures All(now, theirs + inodes, user)
  {
    forall i | i in theirs + inodes
      ensures Has(now, i, user)
    {
      assert Same(now, owner, i) || (i in inodes && Has(now, i, user));
    }
  }

  /** A walk that gets through with calls to spare gets through without them. */
  lemma {:induction false} WalkNeedsNoSpare(node: Node, k: nat, user: User, owner: map<Inode, User>, left: nat, spare: nat)
    requires k <= |node.children|
    requires var (_, through, rest) := Walk(node, k, user, owner, left); through && spare <= rest <= left
    ensures var (now, _, rest) := Walk(node, k, user, owner, left);
      Walk(node, k, user, owner, left - spare) == (now, true, rest - spare)
    decreases node, |node.children| - k
  {
    hide All, Gave, BelowFrom, Below, Whole, Steps;
    if k == |node.children| {
    } else {
      var child := node.children[k];
      if child.mounted {
        WalkNeedsNoSpare(node, k + 1, user, owner, left, spare);
      } else {
        var (inside, through, rest) := if child.folder then Walk(child, 0, user, owner, left - 1) else (owner, true, left - 1);
        var found := Has(owner, child.inode, user);
        var given, left' := if found then inside else inside[child.inode := user], if found then rest else rest - 1;
        assert Walk(node, k, user, owner, left) == Walk(node, k + 1, user, given, left');
        WalkMakesItsSteps(node, k + 1, user, given, left');
        WalkNeedsNoSpare(node, k + 1, user, given, left', spare);
        if child.folder {
          WalkMakesItsSteps(child, 0, user, owner, left - 1);
          WalkNeedsNoSpare(child, 0, user, owner, left - 1, spare);
        }
      }
    }
  }

  /** The owners after some starts, each with its user and its number of calls. */
  function After(root: Node, owner: map<Inode, User>, starts: seq<(User, nat)>): map<Inode, User> {
    if starts == [] then owner
    else
      var n := |starts| - 1;
      Start(root, starts[n].0, After(root, owner, starts[..n]), starts[n].1).0
  }

  /** Since the top folder was last given away, a start has changed something: one
      for somebody else that did not get through. */
  predicate Disturbed(root: Node, owner: map<Inode, User>, starts: seq<(User, nat)>) {
    if starts == [] then false
    else
      var n := |starts| - 1;
      var before := After(root, owner, starts[..n]);
      var (now, ok) := Start(root, starts[n].0, before, starts[n].1);
      if ok && now != before then false else Disturbed(root, owner, starts[..n]) || now != before
  }

  lemma SomethingChanged(now: map<Inode, User>, owner: map<Inode, User>)
    requires now != owner
    ensures exists i :: !Same(now, owner, i)
  {
    if i :| i in now && (i !in owner || now[i] != owner[i]) {
      assert !Same(now, owner, i);
    } else if i :| i in owner && i !in now {
      assert !Same(now, owner, i);
    }
  }

  /** One start, seen from the owner of the top folder. */
  lemma StartKeeps(root: Node, user: User, owner: map<Inode, User>, calls: nat, top: User)
    requires root.folder && root.inode !in Below(root) && Has(owner, root.inode, top)
    ensures var (now, ok) := Start(root, user, owner, calls);
      && (ok <==> Has(now, root.inode, user))
      && (ok && now != owner ==> user != top && All(now, Whole(root), user))
      && (ok && user == top ==> now == owner)
      && (!ok ==> Has(now, root.inode, top) && user != top)
      && (!ok && now != owner ==> !All(now, Below(root), top))
      && (!All(owner, Below(root), top) && !ok ==> !All(now, Below(root), top))
  {
    var (now, ok) := Start(root, user, owner, calls);
    assert Whole(root) == {root.inode} + Below(root);
    WalkOwnsBelow(root, 0, user, owner, calls);
    if !ok {
      assert Same(now, owner, root.inode);
      if now != owner {
        SomethingChanged(now, owner);
        var i :| !Same(now, owner, i);
        assert i in Below(root) && Has(now, i, user);
      }
      if i :| i in Below(root) && !Has(owner, i, top) {
        assert Same(now, owner, i) || Has(now, i, user);
      }
    }
  }

  /** Over any starts for any users: everything belongs to the owner of the top folder
      exactly when nothing was disturbed since it was last given away. */
  lemma {:induction false} WholeUnlessDisturbed(root: Node, owner: map<Inode, User>, first: User, starts: seq<(User, nat)>)
    returns (top: User)
    requires root.folder && root.inode !in Below(root) && All(owner, Whole(root), first)
    ensures Has(After(root, owner, starts), root.inode, top)
    ensures All(After(root, owner, starts), Whole(root), top) <==> !Disturbed(root, owner, starts)
  {
    assert Whole(root) == {root.inode} + Below(root);
    if starts == [] {
      top := first;
    } else {
      var n := |starts| - 1;
      var before := After(root, owner, starts[..n]);
      top := WholeUnlessDisturbed(root, owner, first, starts[..n]);
      StartKeeps(root, starts[n].0, before, starts[n].1, top);
      if Start(root, starts[n].0, before, starts[n].1).1 { top := starts[n].0; }
    }
  }

  /** Start `n` reported `ok`, and when it did everything was its user's: unless the top
      folder was theirs already and something was disturbed since it was given to them. */
  ghost predicate Meant(root: Node, owner: map<Inode, User>, starts: seq<(User, nat)>, n: nat, ok: bool)
    requires n < |starts|
  {
    var before, user := After(root, owner, starts[..n]), starts[n].0;
    && ok == Start(root, user, before, starts[n].1).1
    && (ok ==> (All(After(root, owner, starts[..n + 1]), Whole(root), user) <==>
                  !(Has(before, root.inode, user) && Disturbed(root, owner, starts[..n]))))
  }

  /** When a successful start means that everything is the user's: unless the top
      folder was theirs already and something was disturbed since it was given to them. */
  lemma SuccessMeansAll(root: Node, owner: map<Inode, User>, first: User, starts: seq<(User, nat)>, n: nat)
    requires root.folder && root.inode !in Below(root) && All(owner, Whole(root), first) && n < |starts|
    ensures Meant(root, owner, starts, n, Start(root, starts[n].0, After(root, owner, starts[..n]), starts[n].1).1)
  {
    var top := WholeUnlessDisturbed(root, owner, first, starts[..n]);
    StartKeeps(root, starts[n].0, After(root, owner, starts[..n]), starts[n].1, top);
    assert starts[..n + 1][..n] == starts[..n];
  }

  class Volume {
    const root: Node
    var owner: map<Inode, User>

    constructor (root: Node, owner: map<Inode, User>)
      ensures this.root == root && this.owner == owner
    {
      this.root, this.owner := root, owner;
    }

    predicate Owns(i: Inode, user: User)
      reads this
    {
      Has(owner, i, user)
    }

    /** The promise between starts: a top folder that belongs to `user` means that
        everything in the volume does. */
    ghost predicate Settled(user: User)
      reads this
    {
      Owns(root.inode, user) ==> forall i :: i in Below(root) ==> Owns(i, user)
    }

    /** Gives `user` everything inside the folder; it may stop before any change,
        after `calls` of them. Each folder's contents go before the folder. */
    method ReownChildren(node: Node, user: User, calls: nat) returns (ok: bool, left: nat)
      requires node.folder
      modifies this`owner
      ensures (owner, ok, left) == Walk(node, 0, user, old(owner), calls)
      ensures ok ==> forall i :: i in Below(node) ==> Owns(i, user)
      ensures calls >= Steps(node, 0) ==> ok && left >= calls - Steps(node, 0)
      ensures forall i :: Owns(i, user) || ((i in owner <==> i in old(owner)) && (i in owner ==> owner[i] == old(owner)[i]))
      ensures forall i :: i !in Below(node) ==> (i in owner <==> i in old(owner)) && (i in owner ==> owner[i] == old(owner)[i])
      ensures forall i :: i in old(owner) && old(owner)[i] == user ==> Owns(i, user)
      decreases node
    {
      WalkOwnsBelow(node, 0, user, owner, calls);
      WalkMakesItsSteps(node, 0, user, owner, calls);
      left := calls;
      var k := 0;
      while k < |node.children|
        invariant 0 <= k <= |node.children|
        invariant Walk(node, k, user, owner, left) == Walk(node, 0, user, old(owner), calls)
      {
        var child := node.children[k];
        k := k + 1;
        if child.mounted { continue; }
        if left == 0 { return false, 0; }
        left := left - 1;
        var found := child.inode in owner && owner[child.inode] == user;
        if child.folder {
          var done;
          done, left := ReownChildren(child, user, left);
          if !done { return false, left; }
        }
        if found { continue; }
        if left == 0 { return false, 0; }
        left := left - 1;
        owner := owner[child.inode := user];
      }
      return true, left;
    }

    /** One start. The top folder is changed last, so that an interrupted walk is
        walked again by the next start with the same user. */
    method OwnStateVolume(user: User, calls: nat) returns (ok: bool)
      requires root.folder && root.inode !in Below(root)
      modifies this`owner
      ensures (owner, ok) == Start(root, user, old(owner), calls)
      ensures ok ==>
        ((forall i :: i in Whole(root) ==> Owns(i, user)) <==> (old(Owns(root.inode, user)) ==> old(Settled(user))))
      ensures old(Settled(user)) ==> Settled(user)
      ensures ok ==> Owns(root.inode, user)
      ensures calls > Steps(root, 0) ==> ok
      ensures ok && old(Settled(user)) ==> forall i :: i in Whole(root) ==> Owns(i, user)
      ensures forall i :: i !in Whole(root) ==> (i in owner <==> i in old(owner)) && (i in owner ==> owner[i] == old(owner)[i])
      ensures old(Owns(root.inode, user)) ==> ok && owner == old(owner)
      ensures !ok ==> !Owns(root.inode, user)
    {
      if Owns(root.inode, user) { return true; }
      var left;
      ok, left := ReownChildren(root, user, calls);
      if !ok || left == 0 { return false; }
      owner := owner[root.inode := user];
    }

    /** Any number of starts with one user, each possibly interrupted: whenever one
        of them succeeds, everything belongs to that user from then on, and every later
        start succeeds; one that nothing interrupts is enough. */
    method Starts(user: User, budgets: seq<nat>) returns (oks: seq<bool>)
      requires root.folder && root.inode !in Below(root) && Settled(user)
      modifies this`owner
      ensures Settled(user) && |oks| == |budgets|
      ensures forall n :: 0 <= n < |oks| && (oks[n] || budgets[n] > Steps(root, 0)) ==>
        (forall i :: i in Whole(root) ==> Owns(i, user)) && forall m :: n <= m < |oks| ==> oks[m]
    {
      oks := [];
      for n := 0 to |budgets|
        invariant Settled(user) && |oks| == n
        invariant forall m :: 0 <= m < n && (oks[m] || budgets[m] > Steps(root, 0)) ==>
          (forall i :: i in Whole(root) ==> Owns(i, user)) && forall l :: m <= l < n ==> oks[l]
      {
        var ok := OwnStateVolume(user, budgets[n]);
        oks := oks + [ok];
      }
    }

    /** Any number of starts for any users: when each of them succeeded, everything was
        its user's exactly unless the top folder was theirs already and something had
        been disturbed since it was given to them. */
    method StartsForAnyone(first: User, starts: seq<(User, nat)>) returns (oks: seq<bool>)
      requires root.folder && root.inode !in Below(root) && All(owner, Whole(root), first)
      modifies this`owner
      ensures owner == After(root, old(owner), starts) && |oks| == |starts|
      ensures forall n :: 0 <= n < |starts| ==> Meant(root, old(owner), starts, n, oks[n])
    {
      ghost var was := owner;
      oks := [];
      for n := 0 to |starts|
        invariant owner == After(root, was, starts[..n]) && |oks| == n
        invariant forall m :: 0 <= m < n ==> Meant(root, was, starts, m, oks[m])
      {
        hide Meant, Start, Below, All, Disturbed;
        SuccessMeansAll(root, was, first, starts, n);
        var ok := OwnStateVolume(starts[n].0, starts[n].1);
        assert starts[..n + 1][..n] == starts[..n];
        oks := oks + [ok];
      }
      assert starts[..|starts|] == starts;
    }

    /** How that comes about, in any volume that is one user's and has anything in it:
        a start for another user that is stopped right before the top folder's turn,
        and then one for the former user, which succeeds whatever it may do. */
    method BackToFormerUser(former: User, other: User, calls: nat) returns (stopped: bool, ok: bool)
      requires root.folder && root.inode !in Below(root) && Below(root) != {} && former != other
      requires All(owner, Whole(root), former)
      modifies this`owner
      ensures stopped && ok && All(owner, Below(root), other) && !(exists i :: i in Below(root) && Owns(i, former))
    {
      WalkOwnsBelow(root, 0, other, owner, Steps(root, 0));
      WalkMakesItsSteps(root, 0, other, owner, Steps(root, 0));
      var (_, _, spare) := Walk(root, 0, other, owner, Steps(root, 0));
      WalkNeedsNoSpare(root, 0, other, owner, Steps(root, 0), spare);
      var through := OwnStateVolume(other, Steps(root, 0) - spare);
      stopped := !through;
      ok := OwnStateVolume(former, calls);
    }
  }
}
