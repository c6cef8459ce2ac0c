/** Directories addressed by their path from the root: what a script issued
    inside one of them does to the whole tree. */
module Tree {
  import opened Basics
  import opened Storage

  predicate IsDir(d: Dir, at: Path)
    decreases |at|
  {
    at == [] || (HasFolder(d, at[0]) && IsDir(Sub(d, at[0]), at[1..]))
  }

  function DirAt(d: Dir, at: Path): Dir
    requires IsDir(d, at)
    decreases |at|
  {
    if at == [] then d else DirAt(Sub(d, at[0]), at[1..])
  }

  ghost function WithDirAt(d: Dir, at: Path, e: Dir): Dir
    requires IsDir(d, at)
    decreases |at|
  {
    if at == [] then e else WithSub(d, at[0], WithDirAt(Sub(d, at[0]), at[1..], e))
  }

  /** `now` is `was` with the directory at `at` turned into `e`. */
  ghost predicate Became(was: Dir, now: Dir, at: Path, e: Dir) {
    IsDir(was, at) && now == WithDirAt(was, at, e)
  }

  lemma {:induction false} BecameAt(was: Dir, now: Dir, at: Path, e: Dir)
    requires Became(was, now, at, e)
    ensures IsDir(now, at) && DirAt(now, at) == e
    decreases |at|
  {
    if at != [] {
      BecameAt(Sub(was, at[0]), Sub(now, at[0]), at[1..], e);
    }
  }

  lemma {:induction false} StillThere(d: Dir, at: Path)
    requires IsDir(d, at)
    ensures Became(d, d, at, DirAt(d, at))
    decreases |at|
  {
    if at != [] {
      StillThere(Sub(d, at[0]), at[1..]);
      assert WithSub(d, at[0], Sub(d, at[0])) == d;
    }
  }

  lemma {:induction false} BecameAgain(a: Dir, b: Dir, c: Dir, at: Path, e: Dir, f: Dir)
    requires Became(a, b, at, e) && Became(b, c, at, f)
    ensures Became(a, c, at, f)
    decreases |at|
  {
    if at != [] {
      var n := at[0];
      BecameAgain(Sub(a, n), Sub(b, n), Sub(c, n), at[1..], e, f);
      assert WithSub(WithSub(a, n, Sub(b, n)), n, Sub(c, n)) == WithSub(a, n, Sub(c, n));
    }
  }

  /** One call in the directory at `at`. */
  lemma {:induction false} ApplyAt(d: Dir, at: Path, act: Act)
    requires IsDir(d, at) && CanPerform(DirAt(d, at), act)
    ensures CanApply(d, Op(at, act))
    ensures Became(d, Apply(d, Op(at, act)), at, Perform(DirAt(d, at), act))
    decreases |at|
  {
    if at != [] {
      ApplyAt(Sub(d, at[0]), at[1..], act);
    }
  }

  lemma {:induction false} Deeper(d: Dir, at: Path, n: Name)
    requires IsDir(d, at) && HasFolder(DirAt(d, at), n)
    ensures IsDir(d, at + [n]) && DirAt(d, at + [n]) == Sub(DirAt(d, at), n)
    decreases |at|
  {
    if at != [] {
      Deeper(Sub(d, at[0]), at[1..], n);
      assert (at + [n])[1..] == at[1..] + [n];
    }
  }

  /** A change one level down is a change here. */
  lemma {:induction false} BecameBelow(was: Dir, now: Dir, at: Path, n: Name, c: Dir)
    requires IsDir(was, at) && HasFolder(DirAt(was, at), n) && Became(was, now, at + [n], c)
    ensures Became(was, now, at, WithSub(DirAt(was, at), n, c))
    decreases |at|
  {
    if at == [] {
      assert at + [n] == [n] && [n][1..] == [];
      assert WithDirAt(Sub(was, n), [], c) == c;
      assert now == WithSub(was, n, c);
    } else {
      assert (at + [n])[1..] == at[1..] + [n];
      BecameBelow(Sub(was, at[0]), Sub(now, at[0]), at[1..], n, c);
    }
  }

  /** What a path without links on the way leads to. */
  function NodeAt(d: Dir, p: Path): Option<Node>
    decreases |p|
  {
    if p == [] then Some(Folder(d))
    else if !Has(d, p[0]) then None
    else if |p| == 1 then Some(At(d, p[0]))
    else if At(d, p[0]).Folder? then NodeAt(Sub(d, p[0]), p[1..])
    else None
  }

  /** A change to the entry `n` of the directory at `at` is seen on no path but
      those that lead to that entry or through it. */
  lemma {:induction false} ElsewhereSame(d: Dir, at: Path, n: Name, e: Dir, p: Path)
    requires Wf(d) && IsDir(d, at) && !(at + [n] <= p) && !(p <= at + [n])
    requires forall m | m != n :: SameEntry(DirAt(d, at), e, m)
    ensures NodeAt(WithDirAt(d, at, e), p) == NodeAt(d, p)
    decreases |at|
  {
    WfView(d);
    if at == [] {
      assert [] + [n] == [n] && p != [];
      assert p[0] == n ==> [n] <= p;
      assert SameEntry(DirAt(d, at), e, p[0]);
    } else {
      var f := WithDirAt(Sub(d, at[0]), at[1..], e);
      assert View(WithSub(d, at[0], f)) == View(d);
      if p[0] == at[0] {
        assert at + [n] == [at[0]] + (at[1..] + [n]) && p == [p[0]] + p[1..];
        assert DirAt(d, at) == DirAt(Sub(d, at[0]), at[1..]);
        ElsewhereSame(Sub(d, at[0]), at[1..], n, e, p[1..]);
      }
    }
  }

  predicate SameEntry(d: Dir, e: Dir, m: Name) {
    (Has(e, m) <==> Has(d, m)) && (Has(d, m) ==> At(e, m) == At(d, m))
  }

  // ------------------------------------------------------------- taking a script apart

  lemma {:induction false} Peel(d: Dir, a: seq<Op>, b: seq<Op>)
    requires Runs(d, a + b)
    ensures Runs(d, a) && Runs(Exec(d, a), b) && Exec(d, a + b) == Exec(Exec(d, a), b)
  {
    RunsPrefix(d, a + b, |a|);
    assert (a + b)[..|a|] == a;
    PeelRest(d, a, b);
  }

  lemma {:induction false} PeelRest(d: Dir, a: seq<Op>, b: seq<Op>)
    requires Runs(d, a + b) && Runs(d, a)
    ensures Runs(Exec(d, a), b) && Exec(d, a + b) == Exec(Exec(d, a), b)
    decreases |a|
  {
    hide CanApply, Apply;
    if a == [] {
      assert a + b == b;
    } else {
      assert (a + b)[1..] == a[1..] + b;
      PeelRest(Apply(d, a[0]), a[1..], b);
    }
  }

  lemma PeelOne(d: Dir, act: Act, b: seq<Op>)
    requires Runs(d, [Op([], act)] + b)
    ensures CanPerform(d, act) && Runs(Perform(d, act), b)
    ensures Exec(d, [Op([], act)] + b) == Exec(Perform(d, act), b)
  {
    assert ([Op([], act)] + b)[1..] == b;
  }

  /** A script issued below a folder runs only if it runs in that folder. */
  lemma {:induction false} RunsInside(d: Dir, n: Name, ops: seq<Op>)
    requires HasFolder(d, n) && Runs(d, Under(n, ops))
    ensures Runs(Sub(d, n), ops) && Exec(d, Under(n, ops)) == WithSub(d, n, Exec(Sub(d, n), ops))
    decreases |ops|
  {
    if ops == [] {
      assert WithSub(d, n, Sub(d, n)) == d;
    } else {
      var u := Under(n, ops);
      assert u[0].at[1..] == ops[0].at;
      assert u[1..] == Under(n, ops[1..]);
      RunsInside(Apply(d, u[0]), n, ops[1..]);
      ExecUnder(d, n, ops);
    }
  }
}
