/** `_remove_tree`: bottom-up removal of a plain directory tree that may contain
    symbolic links, which are unlinked in place and never followed. */
module RemoveTree {
  import opened Basics
  import opened Storage
  import opened Tree

  // ------------------------------------------------------------- the calls

  /** `os.walk` lists folders, and links to folders, apart from everything else. */
  predicate FolderLike(d: Dir, n: Name)
    requires Has(d, n)
  {
    At(d, n).Folder? || At(d, n) == Symlink(true)
  }

  function RemoveOne(d: Dir, n: Name): Act
    requires Has(d, n)
  {
    if At(d, n).Folder? then Rmdir(n) else Unlink(n)
  }

  /** The calls in the directory itself: its files, or its folders and folder links. */
  ghost function HereOps(d: Dir, names: seq<Name>, folders: bool): seq<Op>
    requires forall n | n in names :: Has(d, n)
  {
    if names == [] then []
    else if FolderLike(d, names[0]) == folders then
      [Op([], RemoveOne(d, names[0]))] + HereOps(d, names[1..], folders)
    else HereOps(d, names[1..], folders)
  }

  /** Everything the bottom-up walk does below the folders among `names`. */
  ghost function BelowOps(d: Dir, names: seq<Name>, ls: Lister): seq<Op>
    decreases d, 1, |names|
  {
    if names == [] then []
    else BelowOp(d, names[0], ls) + BelowOps(d, names[1..], ls)
  }

  ghost function BelowOp(d: Dir, n: Name, ls: Lister): seq<Op>
    decreases d, 0, 0
  {
    if HasFolder(d, n) then Under(n, EmptyOps(Sub(d, n), ls)) else []
  }

  /** Empties `d`: the subfolders first, then its files, then the folders left empty. */
  ghost function EmptyOps(d: Dir, ls: Lister): seq<Op>
    decreases d, 2, 0
  {
    var names := ls(View(d).Keys);
    if forall n | n in names :: Has(d, n) then
      BelowOps(d, names, ls) + (HereOps(d, names, false) + HereOps(d, names, true))
    else []
  }

  /** The whole removal of the folder `n` of `d`. */
  ghost function RemoveOps(d: Dir, n: Name, ls: Lister): seq<Op>
    requires HasFolder(d, n)
  {
    Under(n, EmptyOps(Sub(d, n), ls)) + [Op([], Rmdir(n))]
  }

  // ------------------------------------------------------------- shrinking

  ghost predicate OnlyRemoves(ops: seq<Op>) {
    forall op | op in ops :: op.act.Unlink? || op.act.Rmdir?
  }

  ghost predicate OnlyDels(ops: seq<EntryOp>) {
    forall op | op in ops :: op.Del?
  }

  /** `b` is `a` with entries taken away, here and below; file contents, links
      and inode numbers are the same. */
  ghost predicate Shrinks(a: Dir, b: Dir)
    decreases a
  {
    && b.durable == a.durable && a.pending <= b.pending && |a.nodes| == |b.nodes|
    && OnlyDels(b.pending[|a.pending|..])
    && (forall i | 0 <= i < |a.nodes| ::
          b.nodes[i] == a.nodes[i]
          || (a.nodes[i].Folder? && b.nodes[i].Folder? && Shrinks(a.nodes[i].dir, b.nodes[i].dir)))
  }

  lemma {:induction false} ShrinksTransitive(a: Dir, b: Dir, c: Dir)
    requires Shrinks(a, b) && Shrinks(b, c)
    ensures Shrinks(a, c)
    decreases a
  {
    forall op | op in c.pending[|a.pending|..]
      ensures op.Del?
    {
      var i :| |a.pending| <= i < |c.pending| && c.pending[i] == op;
      if i < |b.pending| {
        assert b.pending[i] == b.pending[|a.pending|..][i - |a.pending|];
      } else {
        assert c.pending[i] == c.pending[|b.pending|..][i - |b.pending|];
      }
    }
    forall i | 0 <= i < |a.nodes| && c.nodes[i] != a.nodes[i]
      ensures a.nodes[i].Folder? && c.nodes[i].Folder? && Shrinks(a.nodes[i].dir, c.nodes[i].dir)
    {
      if b.nodes[i] != a.nodes[i] && c.nodes[i] != b.nodes[i] {
        ShrinksTransitive(a.nodes[i].dir, b.nodes[i].dir, c.nodes[i].dir);
      }
    }
  }

  lemma {:induction false} ApplyShrinks(d: Dir, op: Op)
    requires CanApply(d, op) && (op.act.Unlink? || op.act.Rmdir?)
    ensures Shrinks(d, Apply(d, op))
    decreases |op.at|
  {
    if op.at != [] {
      ApplyShrinks(Sub(d, op.at[0]), Op(op.at[1..], op.act));
    }
  }

  lemma {:induction false} RemovalShrinks(d: Dir, ops: seq<Op>)
    requires Runs(d, ops) && OnlyRemoves(ops)
    ensures Shrinks(d, Exec(d, ops))
    decreases |ops|
  {
    if ops != [] {
      ApplyShrinks(d, ops[0]);
      RemovalShrinks(Apply(d, ops[0]), ops[1..]);
      ShrinksTransitive(d, Apply(d, ops[0]), Exec(d, ops));
    }
  }

  /** Every entry map a power cut can leave in a shrunk directory is one it could
      leave before, or is contained in the view from before. */
  lemma {:induction false} ShrunkPrefix(a: Dir, b: Dir, k: nat)
    requires b.durable == a.durable && a.pending <= b.pending && OnlyDels(b.pending[|a.pending|..])
    requires k <= |b.pending|
    ensures k <= |a.pending| ==> After(b, k) == After(a, k)
    ensures k >= |a.pending| ==> After(b, k).Items <= View(a).Items
    decreases k
  {
    if k <= |a.pending| {
      assert b.pending[..k] == a.pending[..k];
      if k == |a.pending| { ViewIsAfterAll(a); }
    } else {
      ShrunkPrefix(a, b, k - 1);
      assert b.pending[..k][..k - 1] == b.pending[..k - 1];
      assert b.pending[k - 1] == b.pending[|a.pending|..][k - 1 - |a.pending|];
      var m := After(b, k - 1);
      assert After(b, k) == m - {b.pending[k - 1].name};
      assert After(b, k).Items <= m.Items;
    }
  }

  // ------------------------------------------------------------- only removals

  lemma {:induction false} BelowOnlyRemoves(d: Dir, names: seq<Name>, ls: Lister)
    ensures OnlyRemoves(BelowOps(d, names, ls))
    decreases d, 1, |names|
  {
    if names != [] {
      BelowOnlyRemoves(d, names[1..], ls);
      if HasFolder(d, names[0]) { EmptyOnlyRemoves(Sub(d, names[0]), ls); }
    }
  }

  lemma {:induction false} HereOnlyRemoves(d: Dir, names: seq<Name>, folders: bool)
    requires forall n | n in names :: Has(d, n)
    ensures OnlyRemoves(HereOps(d, names, folders))
  {
    if names != [] { HereOnlyRemoves(d, names[1..], folders); }
  }

  lemma {:induction false} EmptyOnlyRemoves(d: Dir, ls: Lister)
    ensures OnlyRemoves(EmptyOps(d, ls))
    decreases d, 2, 0
  {
    var names := ls(View(d).Keys);
    BelowOnlyRemoves(d, names, ls);
    if forall n | n in names :: Has(d, n) {
      HereOnlyRemoves(d, names, false);
      HereOnlyRemoves(d, names, true);
    }
  }

  // ------------------------------------------------------------- it works

  /** `b` has the same entries as `a`; the folders among `names` are empty, all
      other inodes are the same. */
  ghost predicate Emptied(a: Dir, b: Dir, names: seq<Name>) {
    && b.durable == a.durable && b.pending == a.pending && |b.nodes| == |a.nodes|
    && (forall n | n in View(a) && Has(a, n) && (n !in names || !At(a, n).Folder?) :: b.nodes[View(a)[n]] == At(a, n))
    && (forall n | n in names && HasFolder(a, n) :: HasFolder(b, n) && View(Sub(b, n)) == map[])
  }

  lemma SameSub(d: Dir, e: Dir, done: seq<Name>, n: Name)
    requires EntriesOk(View(d), |d.nodes|) && Emptied(d, e, done) && n !in done && HasFolder(d, n)
    ensures HasFolder(e, n) && Sub(e, n) == Sub(d, n)
  {
    assert View(e) == View(d);
  }

  lemma EmptiedOneMore(d: Dir, e: Dir, done: seq<Name>, n: Name, c: Dir)
    requires EntriesOk(View(d), |d.nodes|) && Emptied(d, e, done) && n !in done
    requires HasFolder(d, n) && HasFolder(e, n) && View(c) == map[]
    ensures Emptied(d, WithSub(e, n, c), done + [n])
  {
    var f := WithSub(e, n, c);
    assert View(e) == View(d) && View(f) == View(d);
    forall m | m in done + [n] && HasFolder(d, m)
      ensures HasFolder(f, m) && View(Sub(f, m)) == map[]
    {
    }
  }

  lemma EmptiedSkips(d: Dir, e: Dir, done: seq<Name>, n: Name)
    requires Emptied(d, e, done) && !HasFolder(d, n)
    ensures Emptied(d, e, done + [n])
  {
  }

  lemma {:induction false} BelowOneRuns(d: Dir, e: Dir, done: seq<Name>, n: Name, ls: Lister) returns (f: Dir)
    requires Wf(d) && Lists(ls) && Emptied(d, e, done) && n !in done
    ensures Runs(e, BelowOp(d, n, ls)) && f == Exec(e, BelowOp(d, n, ls))
    ensures Emptied(d, f, done + [n])
    decreases d, 0, 1
  {
    WfView(d);
    hide Emptied, Wf;
    if HasFolder(d, n) {
      WfSub(d, n);
      var c := EmptyRuns(Sub(d, n), ls);
      SameSub(d, e, done, n);
      ExecUnder(e, n, EmptyOps(Sub(d, n), ls));
      f := WithSub(e, n, c);
      EmptiedOneMore(d, e, done, n, c);
    } else {
      f := e;
      EmptiedSkips(d, e, done, n);
    }
  }

  lemma {:induction false} BelowRuns(d: Dir, e: Dir, done: seq<Name>, names: seq<Name>, ls: Lister) returns (f: Dir)
    requires Wf(d) && Lists(ls) && Emptied(d, e, done)
    requires forall n | n in names :: n !in done
    requires forall i, j | 0 <= i < j < |names| :: names[i] != names[j]
    ensures Runs(e, BelowOps(d, names, ls)) && f == Exec(e, BelowOps(d, names, ls))
    ensures Emptied(d, f, done + names)
    decreases d, 1, |names|
  {
    hide Emptied, Wf, BelowOp;
    if names == [] {
      f := e;
      assert done + names == done;
    } else {
      var n := names[0];
      var e1 := BelowOneRuns(d, e, done, n, ls);
      f := BelowRuns(d, e1, done + [n], names[1..], ls);
      ExecConcat(e, BelowOp(d, n, ls), BelowOps(d, names[1..], ls));
      assert (done + [n]) + names[1..] == done + names;
    }
  }

  /** `b` is `a` with exactly the entries `gone` deleted, nothing else changed. */
  ghost predicate Deleted(a: Dir, b: Dir, gone: set<Name>) {
    b.nodes == a.nodes && View(b) == View(a) - gone
  }

  lemma DeleteOne(a: Dir, b: Dir, gone: set<Name>, n: Name, act: Act)
    requires Deleted(a, b, gone) && n !in gone && (act == Unlink(n) || act == Rmdir(n)) && CanPerform(a, act)
    ensures CanPerform(b, act) && Deleted(a, Perform(b, act), gone + {n})
    ensures Runs(b, [Op([], act)]) && Exec(b, [Op([], act)]) == Perform(b, act)
  {
    assert CanPerform(b, act);
    AfterAppend(b, Perform(b, act), Del(n));
    DeletedMore(a, b, Perform(b, act), gone, n);
    ExecOne(b, Op([], act));
  }

  lemma DeletedMore(a: Dir, b: Dir, c: Dir, gone: set<Name>, n: Name)
    requires Deleted(a, b, gone) && c.nodes == b.nodes && View(c) == View(b) - {n}
    ensures Deleted(a, c, gone + {n})
  {
    assert View(a) - (gone + {n}) == (View(a) - gone) - {n};
  }

  ghost function Picked(d: Dir, names: seq<Name>, folders: bool): set<Name>
    requires forall n | n in names :: Has(d, n)
  {
    set n | n in names && FolderLike(d, n) == folders
  }

  lemma PickedOneMore(d: Dir, names: seq<Name>, folders: bool)
    requires names != [] && (forall n | n in names :: Has(d, n)) && FolderLike(d, names[0]) == folders
    requires forall i, j | 0 <= i < j < |names| :: names[i] != names[j]
    ensures Picked(d, names, folders) == {names[0]} + Picked(d, names[1..], folders)
    ensures names[0] !in Picked(d, names[1..], folders)
  {
  }

  lemma ActsOn(d: Dir, n: Name)
    requires Has(d, n)
    ensures RemoveOne(d, n) in {Unlink(n), Rmdir(n)}
  {
  }

  lemma {:induction false} HereRuns(a: Dir, b: Dir, d: Dir, gone: set<Name>, names: seq<Name>, folders: bool)
    returns (f: Dir)
    requires forall n | n in names :: Has(d, n) && CanPerform(a, RemoveOne(d, n))
    requires Deleted(a, b, gone) && gone !! Picked(d, names, folders)
    requires forall i, j | 0 <= i < j < |names| :: names[i] != names[j]
    ensures Runs(b, HereOps(d, names, folders)) && f == Exec(b, HereOps(d, names, folders))
    ensures Deleted(a, f, gone + Picked(d, names, folders))
    decreases |names|
  {
    hide Deleted, CanPerform, Perform, RemoveOne, FolderLike;
    if names == [] {
      f := b;
      assert gone + Picked(d, names, folders) == gone;
    } else {
      var n, rest := names[0], names[1..];
      if FolderLike(d, n) == folders {
        var act := RemoveOne(d, n);
        ActsOn(d, n);
        DeleteOne(a, b, gone, n, act);
        PickedOneMore(d, names, folders);
        hide Picked;
        f := HereRuns(a, Perform(b, act), d, gone + {n}, rest, folders);
        ExecConcat(b, [Op([], act)], HereOps(d, rest, folders));
        assert gone + {n} + Picked(d, rest, folders) == gone + Picked(d, names, folders);
      } else {
        assert Picked(d, names, folders) == Picked(d, rest, folders);
        f := HereRuns(a, b, d, gone, rest, folders);
      }
    }
  }

  /** Both phases in the directory itself delete every entry between them. */
  lemma BothPhases(e: Dir, d: Dir, names: seq<Name>) returns (f: Dir)
    requires EntriesOk(View(d), |d.nodes|) && Emptied(d, e, names) && IsListing(names, View(d).Keys)
    requires forall n | n in names :: Has(d, n)
    ensures var ops := HereOps(d, names, false) + HereOps(d, names, true);
      Runs(e, ops) && f == Exec(e, ops)
    ensures View(f) == map[]
  {
    assert View(e) == View(d);
    forall n | n in names
      ensures CanPerform(e, RemoveOne(d, n))
    {
    }
    assert View(e) == View(e) - {};
    var g := HereRuns(e, e, d, {}, names, false);
    f := HereRuns(e, g, d, {} + Picked(d, names, false), names, true);
    assert View(d).Keys == {} + Picked(d, names, false) + Picked(d, names, true);
    ExecConcat(e, HereOps(d, names, false), HereOps(d, names, true));
  }

  /** Emptying a well-formed directory never fails (every `rmdir` meets an empty
      folder, every `unlink` a non-folder) and leaves no entry. */
  lemma {:induction false} EmptyRuns(d: Dir, ls: Lister) returns (f: Dir)
    requires Wf(d) && Lists(ls)
    ensures Runs(d, EmptyOps(d, ls)) && f == Exec(d, EmptyOps(d, ls))
    ensures View(f) == map[]
    decreases d, 2, 0
  {
    var names := ls(View(d).Keys);
    assert IsListing(names, View(d).Keys);
    WfView(d);
    var e := BelowRuns(d, d, [], names, ls);
    f := EmptyFromBelow(d, e, names, ls);
  }

  lemma EmptyOpsAre(d: Dir, names: seq<Name>, ls: Lister)
    requires EntriesOk(View(d), |d.nodes|) && names == ls(View(d).Keys) && IsListing(names, View(d).Keys)
    ensures forall n | n in names :: Has(d, n)
    ensures EmptyOps(d, ls) == BelowOps(d, names, ls) + (HereOps(d, names, false) + HereOps(d, names, true))
  {
    hide BelowOps, HereOps;
  }

  lemma EmptyFromBelow(d: Dir, e: Dir, names: seq<Name>, ls: Lister) returns (f: Dir)
    requires EntriesOk(View(d), |d.nodes|) && names == ls(View(d).Keys) && IsListing(names, View(d).Keys)
    requires Emptied(d, e, [] + names)
    requires Runs(d, BelowOps(d, names, ls)) && e == Exec(d, BelowOps(d, names, ls))
    ensures Runs(d, EmptyOps(d, ls)) && f == Exec(d, EmptyOps(d, ls))
    ensures View(f) == map[]
  {
    EmptyOpsAre(d, names, ls);
    hide EmptyOps, BelowOps, HereOps, Emptied, Runs, Exec, Has, View;
    assert [] + names == names;
    f := BothPhases(e, d, names);
    ExecConcat(d, BelowOps(d, names, ls), HereOps(d, names, false) + HereOps(d, names, true));
  }

  /** Inside the tree: only the folder's own inode moves, and it only shrinks. */
  lemma InsideRuns(d: Dir, n: Name, ls: Lister, k: nat)
    requires Wf(d) && Lists(ls) && HasFolder(d, n) && k <= |EmptyOps(Sub(d, n), ls)|
    ensures var sub := Sub(d, n); var inner := EmptyOps(sub, ls);
      && Runs(sub, inner) && Runs(sub, inner[..k]) && Shrinks(sub, Exec(sub, inner[..k]))
      && View(Exec(sub, inner)) == map[]
      && Runs(d, Under(n, inner)) && Runs(d, Under(n, inner)[..k])
      && Exec(d, Under(n, inner)[..k]) == WithSub(d, n, Exec(sub, inner[..k]))
  {
    hide Wf, EmptyOps, Shrinks;
    var sub := Sub(d, n);
    var inner := EmptyOps(sub, ls);
    WfSub(d, n);
    var _ := EmptyRuns(sub, ls);
    EmptyOnlyRemoves(sub, ls);
    RunsPrefix(sub, inner, k);
    ExecUnder(d, n, inner);
    UnderPrefix(n, inner, k);
    ExecUnder(d, n, inner[..k]);
    RemovalShrinks(sub, inner[..k]);
  }

  /** `_remove_tree(n)` never fails, takes away exactly the entry `n` of its
      parent, and at every point on the way the parent has every other entry and
      inode as before while the tree under `n` only shrinks. */
  lemma RemoveRuns(d: Dir, n: Name, ls: Lister, k: nat)
    requires Wf(d) && Lists(ls) && HasFolder(d, n) && k <= |RemoveOps(d, n, ls)|
    ensures var ops := RemoveOps(d, n, ls);
      && Runs(d, ops) && Runs(d, ops[..k])
      && var e := Exec(d, ops[..k]);
      && e.durable == d.durable && |e.nodes| == |d.nodes|
      && (forall i | 0 <= i < |d.nodes| && i != View(d)[n] :: e.nodes[i] == d.nodes[i])
      && e.nodes[View(d)[n]].Folder? && Shrinks(Sub(d, n), e.nodes[View(d)[n]].dir)
      && e.pending == (if k < |ops| then d.pending else d.pending + [Del(n)])
      && View(e) == (if k < |ops| then View(d) else View(d) - {n})
  {
    hide Wf, EmptyOps, Shrinks, Runs, Exec;
    var inner := EmptyOps(Sub(d, n), ls);
    var u, last := Under(n, inner), Op([], Rmdir(n));
    var j := if k <= |inner| then k else |inner|;
    InsideRuns(d, n, ls, j);
    InsideRuns(d, n, ls, |inner|);
    assert inner[..|inner|] == inner && u[..|u|] == u;
    var e := WithSub(d, n, Exec(Sub(d, n), inner));
    assert View(e) == View(d);
    ExecOne(e, last);
    ExecSplit(d, u, [last], k);
    if k <= |inner| {
      assert View(WithSub(d, n, Exec(Sub(d, n), inner[..k]))) == View(d);
    } else {
      assert [last][..1] == [last];
      AfterAppend(e, Apply(e, last), Del(n));
    }
  }

  /** Removing the tree `n` of the directory at `at`, wherever it stops, changes
      nothing that a path from outside the tree leads to: in particular not what
      any link inside the tree points to. */
  lemma TargetsStay(d: Dir, at: Path, n: Name, ls: Lister, k: nat, target: Path)
    requires Wf(d) && Lists(ls) && IsDir(d, at) && HasFolder(DirAt(d, at), n) && Wf(DirAt(d, at))
    requires k <= |RemoveOps(DirAt(d, at), n, ls)|
    requires !(at + [n] <= target) && !(target <= at + [n])
    ensures Runs(DirAt(d, at), RemoveOps(DirAt(d, at), n, ls)[..k])
    ensures var e := Exec(DirAt(d, at), RemoveOps(DirAt(d, at), n, ls)[..k]);
      NodeAt(WithDirAt(d, at, e), target) == NodeAt(d, target)
  {
    var p := DirAt(d, at);
    RemoveRuns(p, n, ls, k);
    var e := Exec(p, RemoveOps(p, n, ls)[..k]);
    OthersSame(p, n, e);
    hide Wf, RemoveOps, Runs, Exec, SameEntry;
    ElsewhereSame(d, at, n, e, target);
  }

  lemma OthersSame(p: Dir, n: Name, e: Dir)
    requires Wf(p) && Has(p, n) && |e.nodes| == |p.nodes| && View(e) in {View(p), View(p) - {n}}
    requires forall i | 0 <= i < |p.nodes| && i != View(p)[n] :: e.nodes[i] == p.nodes[i]
    ensures forall m | m != n :: SameEntry(p, e, m)
  {
    WfView(p);
  }
}
