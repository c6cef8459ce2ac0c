/** `commitlog.py` as it runs: methods that change the state directory call by
    call. Each is proved to issue exactly the script that `CommitLog`,
    `Reconcile` and `RemoveTree` reason about. */
module StateDisk {
  import opened Basics
  import opened Storage
  import opened Tree
  import opened RemoveTree
  import opened JobDir
  import opened ResultsDir
  import opened CommitLog
  import opened Reconcile

  class Disk {
    var root: Dir

    constructor (d: Dir)
      ensures root == d
    {
      root := d;
    }

    /** One system call that succeeds. */
    method Call(at: Path, act: Act)
      requires IsDir(root, at) && CanPerform(DirAt(root, at), act)
      modifies this
      ensures Became(old(root), root, at, Perform(DirAt(old(root), at), act))
      ensures IsDir(root, at) && DirAt(root, at) == Perform(DirAt(old(root), at), act)
    {
      ApplyAt(root, at, act);
      root := Apply(root, Op(at, act));
      BecameAt(old(root), root, at, Perform(DirAt(old(root), at), act));
    }

    /** The next call of a script. */
    method Next(at: Path, act: Act, ghost rest: seq<Op>)
      requires IsDir(root, at) && Runs(DirAt(root, at), [Op([], act)] + rest)
      modifies this
      ensures IsDir(root, at) && Runs(DirAt(root, at), rest)
      ensures Exec(DirAt(root, at), rest) == Exec(DirAt(old(root), at), [Op([], act)] + rest)
      ensures Became(old(root), root, at, DirAt(root, at))
      ensures DirAt(root, at) == Perform(DirAt(old(root), at), act)
    {
      PeelOne(DirAt(root, at), act, rest);
      Call(at, act);
    }

    /** `_atomic_write`. */
    method AtomicWriteFile(at: Path, n: Name, c: Content)
      requires IsDir(root, at) && Runs(DirAt(root, at), AtomicWrite(n, c))
      modifies this
      ensures Became(old(root), root, at, Exec(DirAt(old(root), at), AtomicWrite(n, c)))
      ensures IsDir(root, at) && DirAt(root, at) == Exec(DirAt(old(root), at), AtomicWrite(n, c))
    {
      ghost var t := n + TMP;
      ghost var d0, ops := DirAt(root, at), AtomicWrite(n, c);
      assert ops == [ops[0]] + ops[1..] && ops[1..] == [ops[1]] + ops[2..];
      assert ops[2..] == [ops[2]] + ops[3..] && ops[3..] == [ops[3]] + [];
      Next(at, OpenTrunc(n + TMP), ops[1..]);
      ghost var r1 := root;
      Next(at, Write(n + TMP, c), ops[2..]);
      BecameAgain(old(root), r1, root, at, DirAt(r1, at), DirAt(root, at));
      ghost var r2 := root;
      Next(at, FsyncFile(n + TMP), ops[3..]);
      BecameAgain(old(root), r2, root, at, DirAt(r2, at), DirAt(root, at));
      ghost var r3 := root;
      Next(at, Rename(n + TMP, n), []);
      BecameAgain(old(root), r3, root, at, DirAt(r3, at), DirAt(root, at));
    }

    // ----------------------------------------------------------- _remove_tree

    /** What the bottom-up walk does in and below the directory at `at`. */
    method EmptyDir(at: Path, ls: Lister)
      requires IsDir(root, at) && Wf(DirAt(root, at)) && Lists(ls)
      modifies this
      ensures var d := DirAt(old(root), at);
        && Runs(d, EmptyOps(d, ls)) && Became(old(root), root, at, Exec(d, EmptyOps(d, ls)))
        && IsDir(root, at) && DirAt(root, at) == Exec(d, EmptyOps(d, ls))
      decreases DirAt(root, at), 2
    {
      var d := DirAt(root, at);
      var names := ls(View(d).Keys);
      assert IsListing(names, View(d).Keys);
      WfView(d);
      EmptyOpsAre(d, names, ls);
      ghost var here := HereOps(d, names, false) + HereOps(d, names, true);
      ghost var _ := EmptyRuns(d, ls);
      Peel(d, BelowOps(d, names, ls), here);
      EmptyBelow(at, names, ls);
      ghost var r1 := root;
      EmptyHere(at, d, names, false, HereOps(d, names, true));
      BecameAgain(old(root), r1, root, at, DirAt(r1, at), DirAt(root, at));
      ghost var r2 := root;
      assert HereOps(d, names, true) == HereOps(d, names, true) + [];
      EmptyHere(at, d, names, true, []);
      BecameAgain(old(root), r2, root, at, DirAt(r2, at), DirAt(root, at));
    }

    method EmptyBelow(at: Path, names: seq<Name>, ls: Lister)
      requires IsDir(root, at) && Wf(DirAt(root, at)) && Lists(ls) && IsListing(names, View(DirAt(root, at)).Keys)
      modifies this
      ensures var d := DirAt(old(root), at);
        && Runs(d, BelowOps(d, names, ls)) && Became(old(root), root, at, Exec(d, BelowOps(d, names, ls)))
        && IsDir(root, at) && DirAt(root, at) == Exec(d, BelowOps(d, names, ls))
      decreases DirAt(root, at), 1
    {
      ghost var d := DirAt(root, at);
      StillThere(root, at);
      ghost var goal := BelowRuns(d, d, [], names, ls);
      assert names[0..] == names && names[..0] == [];
      hide Wf, Runs, Exec, EmptyOps, BelowOps, Emptied, Became;
      assert Emptied(d, d, []) by { StartEmptied(d); }
      var i := 0;
      while i < |names|
        invariant i <= |names| && IsDir(root, at) && Became(old(root), root, at, DirAt(root, at))
        invariant Emptied(d, DirAt(root, at), names[..i])
        invariant Runs(DirAt(root, at), BelowOps(d, names[i..], ls))
        invariant Exec(DirAt(root, at), BelowOps(d, names[i..], ls)) == goal
      {
        ghost var r := root;
        EmptyOne(at, d, names, i, ls);
        BecameAgain(old(root), r, root, at, DirAt(r, at), DirAt(root, at));
        i := i + 1;
      }
      assert names[|names|..] == [];
      NothingBelow(d, DirAt(root, at), ls);
    }

    method EmptyOne(at: Path, ghost d: Dir, names: seq<Name>, i: nat, ls: Lister)
      requires IsDir(root, at) && Wf(d) && Lists(ls) && IsListing(names, View(d).Keys) && i < |names|
      requires Emptied(d, DirAt(root, at), names[..i]) && Runs(DirAt(root, at), BelowOps(d, names[i..], ls))
      modifies this
      ensures IsDir(root, at) && Became(old(root), root, at, DirAt(root, at))
      ensures Emptied(d, DirAt(root, at), names[..i + 1]) && Runs(DirAt(root, at), BelowOps(d, names[i + 1..], ls))
      ensures Exec(DirAt(root, at), BelowOps(d, names[i + 1..], ls))
        == Exec(DirAt(old(root), at), BelowOps(d, names[i..], ls))
      decreases d, 0
    {
      hide Wf, Runs, Exec, EmptyOps, BelowOps, Emptied, Became;
      BelowStep(d, DirAt(root, at), names, i, ls);
      StillThere(root, at);
      if HasFolder(DirAt(root, at), names[i]) {
        Deeper(root, at, names[i]);
        EmptyDir(at + [names[i]], ls);
        BecameBelow(old(root), root, at, names[i], DirAt(root, at + [names[i]]));
        BecameAt(old(root), root, at, WithSub(DirAt(old(root), at), names[i], DirAt(root, at + [names[i]])));
      }
    }

    /** The files, or the folders, listed in the directory itself. */
    method EmptyHere(at: Path, d: Dir, names: seq<Name>, folders: bool, ghost rest: seq<Op>)
      requires IsDir(root, at) && forall n | n in names :: Has(d, n)
      requires Runs(DirAt(root, at), HereOps(d, names, folders) + rest)
      modifies this
      ensures IsDir(root, at) && Became(old(root), root, at, DirAt(root, at))
      ensures Runs(DirAt(root, at), rest)
      ensures Exec(DirAt(root, at), rest) == Exec(DirAt(old(root), at), HereOps(d, names, folders) + rest)
    {
      StillThere(root, at);
      assert names[0..] == names;
      ghost var goal := Exec(DirAt(root, at), HereOps(d, names, folders) + rest);
      var i := 0;
      while i < |names|
        invariant i <= |names| && IsDir(root, at) && Became(old(root), root, at, DirAt(root, at))
        invariant Runs(DirAt(root, at), HereOps(d, names[i..], folders) + rest)
        invariant Exec(DirAt(root, at), HereOps(d, names[i..], folders) + rest) == goal
      {
        HereStep(d, names[i..], folders, rest);
        assert names[i..][1..] == names[i + 1..];
        hide Runs, Exec, HereOps, Became;
        ghost var r := root;
        if FolderLike(d, names[i]) == folders {
          Next(at, RemoveOne(d, names[i]), HereOps(d, names[i + 1..], folders) + rest);
          BecameAgain(old(root), r, root, at, DirAt(r, at), DirAt(root, at));
        }
        i := i + 1;
      }
      assert names[|names|..] == [];
      assert [] + rest == rest;
    }

    /** The whole of it; a link is refused and left alone. */
    method RemoveTreeAt(at: Path, n: Name, ls: Lister) returns (ok: bool)
      requires IsDir(root, at) && Wf(DirAt(root, at)) && Lists(ls)
      requires HasFolder(DirAt(root, at), n) || (Has(DirAt(root, at), n) && At(DirAt(root, at), n).Symlink?)
      modifies this
      ensures ok == HasFolder(DirAt(old(root), at), n) && (!ok ==> root == old(root))
      ensures var d := DirAt(old(root), at); ok ==>
        && Runs(d, RemoveOps(d, n, ls)) && Became(old(root), root, at, Exec(d, RemoveOps(d, n, ls)))
        && IsDir(root, at) && DirAt(root, at) == Exec(d, RemoveOps(d, n, ls))
    {
      ok := HasFolder(DirAt(root, at), n);
      if ok {
        ghost var d := DirAt(root, at);
        ghost var inner := EmptyOps(Sub(d, n), ls);
        WfSub(d, n);
        Deeper(root, at, n);
        RemoveRuns(d, n, ls, |RemoveOps(d, n, ls)|);
        Peel(d, Under(n, inner), [Op([], Rmdir(n))]);
        ghost var r0 := root;
        EmptyDir(at + [n], ls);
        hide Wf, EmptyOps, Shrinks, Runs, Exec;
        ghost var r1 := root;
        BecameBelow(r0, r1, at, n, Exec(Sub(d, n), inner));
        BecameAt(r0, r1, at, WithSub(d, n, Exec(Sub(d, n), inner)));
        ExecUnder(d, n, inner);
        assert [Op([], Rmdir(n))] + [] == [Op([], Rmdir(n))];
        Next(at, Rmdir(n), []);
        BecameAgain(r0, r1, root, at, DirAt(r1, at), DirAt(root, at));
        NothingLeft(DirAt(root, at));
      }
    }

    // ----------------------------------------------------------- commit

    /** Step 1: every output up to the first unsafe name, which raises. */
    method WriteOutputs(at: Path, outs: seq<Output>) returns (ok: bool, metas: seq<OutputMeta>)
      requires IsDir(root, at) && Runs(DirAt(root, at), OutputOps(GoodPrefix(outs)))
      modifies this
      ensures ok == (GoodPrefix(outs) == outs) && (ok ==> metas == Metas(outs))
      ensures IsDir(root, at) && Became(old(root), root, at, DirAt(root, at))
      ensures DirAt(root, at) == Exec(DirAt(old(root), at), OutputOps(GoodPrefix(outs)))
    {
      ghost var d, good := DirAt(root, at), GoodPrefix(outs);
      metas := [];
      StillThere(root, at);
      NothingLeft(d);
      hide Runs, Exec, AtomicWrite, GoodPrefix, Became, Metas, OutputOps, ValidOutputName;
      NoOutputs(outs, good);
      var i := 0;
      while i < |outs|
        invariant i <= |good| && metas == Metas(outs[..i])
        invariant IsDir(root, at) && Became(old(root), root, at, DirAt(root, at))
        invariant Runs(d, OutputOps(good[..i])) && DirAt(root, at) == Exec(d, OutputOps(good[..i]))
        invariant i == |outs| ==> good == outs
      {
        GoodSoFar(outs, i);
        if !ValidOutputName(outs[i].path) {
          AllOf(good);
          return false, metas;
        }
        ghost var r := root;
        var meta := WriteOutput(at, outs[i], d, good, i);
        BecameAgain(old(root), r, root, at, DirAt(r, at), DirAt(root, at));
        MetasGrow(outs, i);
        metas := metas + [meta];
        i := i + 1;
      }
      AllOf(good);
      AllOf(outs);
      ok := true;
    }

    /** `_write_output`. */
    method WriteOutput(at: Path, o: Output, ghost d: Dir, ghost good: seq<Output>, ghost i: nat)
      returns (meta: OutputMeta)
      requires IsDir(root, at) && i < |good| && good[i] == o && Runs(d, OutputOps(good))
      requires Runs(d, OutputOps(good[..i])) && DirAt(root, at) == Exec(d, OutputOps(good[..i]))
      modifies this
      ensures meta == OutputMeta(o.path, Sha256(o.data), |o.data|)
      ensures IsDir(root, at) && Became(old(root), root, at, DirAt(root, at))
      ensures Runs(d, OutputOps(good[..i + 1])) && DirAt(root, at) == Exec(d, OutputOps(good[..i + 1]))
    {
      hide Runs, Exec, AtomicWrite, Became, OutputOps;
      OutputsUpTo(d, good, i);
      AtomicWriteFile(at, o.path, Raw(o.data));
      meta := OutputMeta(o.path, Sha256(o.data), |o.data|);
    }

    /** Steps 1 to 3, in the freshly made job directory. */
    method WriteJob(at: Path, c: Request) returns (ok: bool)
      requires IsDir(root, at) && Runs(DirAt(root, at), InnerOps(c))
      modifies this
      ensures ok == (GoodPrefix(c.outs) == c.outs)
      ensures IsDir(root, at) && Became(old(root), root, at, DirAt(root, at))
      ensures DirAt(root, at) == Exec(DirAt(old(root), at), InnerOps(c))
    {
      ghost var d := DirAt(root, at);
      ghost var a, b := OutputOps(GoodPrefix(c.outs)), AtomicWrite(STATUS, StatusOf(c.job, c.number, c.outs, c.fields));
      ghost var m, last := AtomicWrite(DONE, DoneText(c.number)), [Op([], FsyncDir)];
      if GoodPrefix(c.outs) == c.outs {
        assert InnerOps(c) == ((a + b) + m) + last;
        Peel(d, (a + b) + m, last);
        Peel(d, a + b, m);
        Peel(d, a, b);
      }
      hide Runs, Exec, AtomicWrite, GoodPrefix, Became, OutputOps;
      var metas;
      ok, metas := WriteOutputs(at, c.outs);
      if !ok { return; }
      ghost var r1 := root;
      AtomicWriteFile(at, STATUS, StatusText(c.fields - {"job_id", "seq", "outputs"}, c.job, c.number, metas));
      BecameAgain(old(root), r1, root, at, DirAt(r1, at), DirAt(root, at));
      ghost var r2 := root;
      AtomicWriteFile(at, DONE, DoneText(c.number));
      BecameAgain(old(root), r2, root, at, DirAt(r2, at), DirAt(root, at));
      ghost var r3 := root;
      assert last == last + [];
      Next(at, FsyncDir, []);
      NothingLeft(DirAt(root, at));
      BecameAgain(old(root), r3, root, at, DirAt(r3, at), DirAt(root, at));
    }

    /** Step 0: wipe a stale partial job, make the directory, fsync its parent. */
    method OpenJob(at: Path, job: Name, ls: Lister)
      requires IsDir(root, at) && Wf(DirAt(root, at)) && Lists(ls)
      requires job in View(DirAt(root, at)) ==> HasFolder(DirAt(root, at), job)
      requires Runs(DirAt(root, at), PrepareOps(DirAt(root, at), job, ls))
      modifies this
      ensures IsDir(root, at) && Became(old(root), root, at, DirAt(root, at))
      ensures DirAt(root, at) == Exec(DirAt(old(root), at), PrepareOps(DirAt(old(root), at), job, ls))
      ensures HasFolder(DirAt(root, at), job)
    {
      ghost var d := DirAt(root, at);
      ghost var a := WipeOps(d, job, ls);
      Peel(d, a, OpenOps(job));
      StillThere(root, at);
      NothingLeft(d);
      hide Wf, Runs, Exec, RemoveOps, Became;
      if Has(DirAt(root, at), job) {
        var _ := RemoveTreeAt(at, job, ls);
      }
      assert DirAt(root, at) == Exec(d, a);
      ghost var r1 := root;
      assert OpenOps(job) == [Op([], Mkdir(job))] + [Op([], FsyncDir)] && [Op([], FsyncDir)] + [] == [Op([], FsyncDir)];
      Next(at, Mkdir(job), [Op([], FsyncDir)]);
      BecameAgain(old(root), r1, root, at, DirAt(r1, at), DirAt(root, at));
      ghost var r2 := root;
      MkdirMakes(DirAt(r1, at), job);
      Next(at, FsyncDir, []);
      NothingLeft(DirAt(root, at));
      BecameAgain(old(root), r2, root, at, DirAt(r2, at), DirAt(root, at));
    }

    /** `_bump_caches`. */
    method BumpCaches(job: Name, number: nat)
      requires SeqReadable(root) && Runs(root, BumpOps(Max(ReadSeq(root), number), job))
      modifies this
      ensures root == Exec(old(root), BumpOps(Max(ReadSeq(old(root)), number), job))
    {
      var value := Max(ReadSeq(root), number);
      ghost var a, b := AtomicWrite(SEQ, SeqText(value)), BumpOps(value, job)[4..];
      assert BumpOps(value, job) == a + b;
      Peel(root, a, b);
      AtomicWriteFile([], SEQ, SeqText(value));
      hide Runs, Exec, Perform, AtomicWrite;
      assert b == [b[0]] + b[1..] && b[1..] == [b[1]] + b[2..] && b[2..] == [b[2]] + b[3..] && b[3..] == [b[3]] + [];
      Next([], OpenAppend(CONSUMED), b[1..]);
      Next([], AppendLine(CONSUMED, job), b[2..]);
      Next([], FsyncFile(CONSUMED), b[3..]);
      Next([], FsyncDir, []);
      NothingLeft(root);
    }

    /** `os.makedirs(RESULTS_DIR, exist_ok=True)`. */
    method MakeResults(ghost rest: seq<Op>)
      requires Wf(root) && Runs(root, MakeOps(root) + rest)
      modifies this
      ensures Wf(root) && HasFolder(root, RESULTS) && Sub(root, RESULTS) == ResultsOf(old(root))
      ensures Runs(root, rest) && Exec(root, rest) == Exec(old(root), MakeOps(old(root)) + rest)
      ensures SeqReadable(root) == SeqReadable(old(root))
      ensures SeqReadable(root) ==> ReadSeq(root) == ReadSeq(old(root))
    {
      if !HasFolder(root, RESULTS) {
        PeelOne(root, Mkdir(RESULTS), rest);
        PerformKeepsWf(root, Mkdir(RESULTS));
        ResultsMade(root);
        hide Wf, Runs, Exec, Perform;
        Next([], Mkdir(RESULTS), rest);
      } else {
        assert [] + rest == rest;
      }
    }

    /** `commit`: exactly its script, whatever the directory looks like; on a box
        at rest that is put-if-absent. */
    method Commit(c: Request, ls: Lister) returns (o: Outcome)
      requires Wf(root) && Lists(ls) && Runs(root, CommitPlan(root, c, ls).1)
      modifies this
      ensures o == CommitPlan(old(root), c, ls).0
      ensures root == Exec(old(root), CommitPlan(old(root), c, ls).1)
      ensures old(Standing(root)) ==> Standing(root) && LogOf(root) == LogAfter(old(root), c, ls)
      ensures old(AtRest(root)) ==> AtRest(root)
    {
      ghost var d := root;
      if Standing(d) { CommitStands(d, c, ls); }
      if AtRest(d) { CommitEnds(d, c, ls); }
      NothingLeft(d);
      hide Wf, AtRest, Standing, Runs, Exec, LogAfter, InResults, InnerOps, LogOf;
      var res := ResultsOf(root);
      if !ValidJobId(c.job) || (Has(res, c.job) && At(res, c.job).Symlink?) {
        return Refused;
      }
      if DoneIn(res, c.job) {
        return AlreadyCommitted;
      }
      if Has(res, c.job) && !At(res, c.job).Folder? {
        return Refused;
      }
      ghost var body := InResults(d, c.job, ls, InnerOps(c));
      PlanIs(d, c, ls);
      var ok := CommitBody(c, ls);
      if !ok {
        return Refused;
      }
      if !SeqReadable(root) {
        return CacheUnreadable;
      }
      BumpCaches(c.job, c.number);
      return Committed;
    }

    /** Steps 0 to 3. */
    method CommitBody(c: Request, ls: Lister) returns (ok: bool)
      requires Wf(root) && Lists(ls) && Runs(root, InResults(root, c.job, ls, InnerOps(c)))
      requires Has(ResultsOf(root), c.job) ==> At(ResultsOf(root), c.job).Folder?
      modifies this
      ensures ok == (GoodPrefix(c.outs) == c.outs)
      ensures root == Exec(old(root), InResults(old(root), c.job, ls, InnerOps(c)))
      ensures SeqReadable(root) == SeqReadable(old(root))
      ensures SeqReadable(root) ==> ReadSeq(root) == ReadSeq(old(root))
    {
      ghost var res := ResultsOf(root);
      ghost var prep, inner := PrepareOps(res, c.job, ls), InnerOps(c);
      ghost var below := prep + Under(c.job, inner);
      MakeResults(Under(RESULTS, below));
      ghost var r0, at := root, [RESULTS];
      AtResults(r0);
      RunsInside(r0, RESULTS, below);
      Peel(res, prep, Under(c.job, inner));
      WfSub(r0, RESULTS);
      WfView(res);
      hide Wf, Runs, Exec, PrepareOps, InnerOps, Became;
      OpenJob([RESULTS], c.job, ls);
      ghost var r1, p := root, DirAt(root, at);
      RunsInside(p, c.job, inner);
      Deeper(r1, at, c.job);
      assert at + [c.job] == [RESULTS, c.job];
      ok := WriteJob([RESULTS, c.job], c);
      ghost var jd := DirAt(root, [RESULTS, c.job]);
      BecameBelow(r1, root, at, c.job, jd);
      BecameAgain(r0, r1, root, at, p, WithSub(p, c.job, jd));
      BecameResults(r0, root, WithSub(p, c.job, jd));
      SeqUnmoved(r0, WithSub(p, c.job, jd));
    }

    // ----------------------------------------------------------- reconcile_on_boot

    /** The boot scan: purge what never committed, collect what did. */
    method Scan(at: Path, ls: Lister) returns (maxSeq: int, consumed: seq<Name>)
      requires IsDir(root, at) && Wf(DirAt(root, at)) && Lists(ls)
      modifies this
      ensures var res := DirAt(old(root), at); var names := ls(View(res).Keys);
        && maxSeq == MaxDone(res, names) && consumed == Survivors(res, names)
        && Runs(res, PurgeOps(res, names, ls))
        && IsDir(root, at) && Became(old(root), root, at, DirAt(root, at))
        && DirAt(root, at) == Exec(res, PurgeOps(res, names, ls))
    {
      ghost var res := DirAt(root, at);
      var names := ls(View(DirAt(root, at)).Keys);
      assert IsListing(names, View(res).Keys);
      StillThere(root, at);
      NothingLeft(res);
      WfView(res);
      hide Wf, Runs, Exec, Became, RemoveOps;
      maxSeq, consumed := 0, [];
      var i := 0;
      while i < |names|
        invariant i <= |names| && maxSeq == MaxDone(res, names[..i]) && consumed == Survivors(res, names[..i])
        invariant IsDir(root, at) && Became(old(root), root, at, DirAt(root, at)) && Wf(DirAt(root, at))
        invariant Runs(res, PurgeOps(res, names[..i], ls))
        invariant DirAt(root, at) == Exec(res, PurgeOps(res, names[..i], ls))
        invariant Purged(res, DirAt(root, at), names[..i])
      {
        hide PurgeOps, Survivors, MaxDone, Purged;
        ghost var r := root;
        NextListed(res, names, i, ls);
        maxSeq, consumed := ScanEntry(at, res, names[..i], names[i], ls, maxSeq, consumed);
        BecameAgain(old(root), r, root, at, DirAt(r, at), DirAt(root, at));
        i := i + 1;
      }
      assert names[..|names|] == names;
    }

    /** One entry of the boot scan. */
    method ScanEntry(at: Path, ghost res: Dir, ghost init: seq<Name>, n: Name, ls: Lister, maxSeq: int,
                     consumed: seq<Name>)
      returns (max: int, ids: seq<Name>)
      requires IsDir(root, at) && Wf(DirAt(root, at)) && Wf(res) && Lists(ls) && n in View(res) && n !in init
      requires Runs(res, PurgeOps(res, init, ls)) && DirAt(root, at) == Exec(res, PurgeOps(res, init, ls))
      requires Purged(res, DirAt(root, at), init)
      modifies this
      ensures max == if DoneIn(res, n) then Max(maxSeq, RecordIn(res, n).number) else maxSeq
      ensures ids == consumed + if DoneIn(res, n) then [n] else []
      ensures IsDir(root, at) && Became(old(root), root, at, DirAt(root, at)) && Wf(DirAt(root, at))
      ensures Runs(res, PurgeOps(res, init, ls) + PurgeOne(res, n, ls))
      ensures DirAt(root, at) == Exec(res, PurgeOps(res, init, ls) + PurgeOne(res, n, ls))
      ensures Purged(res, DirAt(root, at), init + [n])
    {
      max, ids := maxSeq, consumed;
      StillThere(root, at);
      ScanStep(res, DirAt(root, at), init, n, ls);
      SameVerdict(res, DirAt(root, at), n);
      hide Wf, Runs, Exec, Became, RemoveOps, PurgeOps, Purged, DoneIn, RecordIn;
      if HasFolder(DirAt(root, at), n) {
        if !DoneIn(DirAt(root, at), n) {
          var _ := RemoveTreeAt(at, n, ls);
        } else {
          ids := consumed + [n];
          max := Max(maxSeq, RecordIn(DirAt(root, at), n).number);
        }
      }
    }

    /** The first half of the boot pass. */
    method PurgeResults(ls: Lister) returns (maxSeq: int, consumed: seq<Name>)
      requires Wf(root) && Lists(ls) && Runs(root, PurgeAll(root, ls))
      modifies this
      ensures root == Exec(old(root), PurgeAll(old(root), ls))
      ensures var res := ResultsOf(old(root)); var names := ls(View(res).Keys);
        maxSeq == MaxDone(res, names) && consumed == Survivors(res, names)
      ensures SeqReadable(root) == SeqReadable(old(root))
      ensures SeqReadable(root) ==> ReadSeq(root) == ReadSeq(old(root))
    {
      ghost var res := ResultsOf(root);
      ghost var purge := PurgeOps(res, ls(View(res).Keys), ls);
      hide Wf, Runs, Exec, Became, PurgeOps, MaxDone, Survivors;
      MakeResults(Under(RESULTS, purge));
      ghost var r0 := root;
      AtResults(r0);
      RunsInside(r0, RESULTS, purge);
      WfSub(r0, RESULTS);
      maxSeq, consumed := Scan([RESULTS], ls);
      BecameResults(r0, root, Exec(res, purge));
      SeqUnmoved(r0, Exec(res, purge));
    }

    /** `reconcile_on_boot`: exactly its script; on any settled medium that brings
        the box to rest with the log it had. */
    method ReconcileOnBoot(ls: Lister) returns (ok: bool)
      requires Wf(root) && Lists(ls) && Runs(root, ReconcileOps(root, ls))
      modifies this
      ensures ok == SeqReadable(old(root))
      ensures root == Exec(old(root), ReconcileOps(old(root), ls))
      ensures var d := old(root); Safe(d, LogOf(d), LogOf(d)) && d.pending == [] ==>
        AtRest(root) && LogOf(root) == LogOf(d)
    {
      ghost var d := root;
      if Safe(d, LogOf(d), LogOf(d)) && d.pending == [] {
        var _, _ := ReconcileEnds(d, ls);
      }
      ReconcileSplits(d, ls);
      hide Safe, AtRest, Wf, Runs, Exec, PurgeAll, MaxDone, Survivors, RebuildOps, ReconcileOps;
      var maxSeq, consumed := PurgeResults(ls);
      ok := SeqReadable(root);
      if ok {
        Rebuild(Max(ReadSeq(root), maxSeq), consumed);
      }
    }

    method Rebuild(value: int, ids: seq<Name>)
      requires Runs(root, RebuildOps(value, ids))
      modifies this
      ensures root == Exec(old(root), RebuildOps(value, ids))
    {
      ghost var a, b := AtomicWrite(SEQ, SeqText(value)), AtomicWrite(CONSUMED, LinesText(ids));
      ghost var last := [Op([], FsyncDir)];
      assert RebuildOps(value, ids) == (a + b) + last;
      Peel(root, a + b, last);
      Peel(root, a, b);
      hide Runs, Exec, AtomicWrite, Perform;
      AtomicWriteFile([], SEQ, SeqText(value));
      AtomicWriteFile([], CONSUMED, LinesText(ids));
      assert last == last + [];
      Next([], FsyncDir, []);
      NothingLeft(root);
    }
  }

  lemma NothingLeft(d: Dir)
    ensures Runs(d, []) && Exec(d, []) == d
  {
  }

  lemma NothingBelow(d: Dir, e: Dir, ls: Lister)
    ensures Runs(e, BelowOps(d, [], ls)) && Exec(e, BelowOps(d, [], ls)) == e
  {
  }

  lemma StartEmptied(d: Dir)
    ensures Emptied(d, d, [])
  {
  }

  lemma HereStep(d: Dir, names: seq<Name>, folders: bool, rest: seq<Op>)
    requires names != [] && forall n | n in names :: Has(d, n)
    ensures HereOps(d, names, folders) + rest ==
      (if FolderLike(d, names[0]) == folders
      then [Op([], RemoveOne(d, names[0]))] + (HereOps(d, names[1..], folders) + rest)
      else HereOps(d, names[1..], folders) + rest)
  {
  }

  /** One subfolder of the bottom-up walk. */
  lemma BelowStep(d: Dir, e: Dir, names: seq<Name>, i: nat, ls: Lister)
    requires Wf(d) && Lists(ls) && i < |names| && Emptied(d, e, names[..i]) && IsListing(names, View(d).Keys)
    requires Runs(e, BelowOps(d, names[i..], ls))
    ensures var n := names[i];
      && HasFolder(e, n) == HasFolder(d, n)
      && (HasFolder(d, n) ==> Sub(e, n) == Sub(d, n) && Wf(Sub(d, n)) && Runs(Sub(d, n), EmptyOps(Sub(d, n), ls)))
      && var f := (if HasFolder(d, n) then WithSub(e, n, Exec(Sub(d, n), EmptyOps(Sub(d, n), ls))) else e);
      && Emptied(d, f, names[..i + 1]) && Runs(f, BelowOps(d, names[i + 1..], ls))
      && Exec(f, BelowOps(d, names[i + 1..], ls)) == Exec(e, BelowOps(d, names[i..], ls))
  {
    var n := names[i];
    WfView(d);
    var f := BelowOneRuns(d, e, names[..i], n, ls);
    assert names[..i + 1] == names[..i] + [n];
    assert names[i..][1..] == names[i + 1..];
    assert BelowOps(d, names[i..], ls) == BelowOp(d, n, ls) + BelowOps(d, names[i + 1..], ls);
    KindsStay(d, e, names[..i], n);
    hide Wf, Runs, Exec, EmptyOps, Emptied, BelowOps;
    Peel(e, BelowOp(d, n, ls), BelowOps(d, names[i + 1..], ls));
    if HasFolder(d, n) {
      WfSub(d, n);
      var _ := EmptyRuns(Sub(d, n), ls);
      ExecUnder(e, n, EmptyOps(Sub(d, n), ls));
    } else {
      NothingLeft(e);
    }
  }

  lemma KindsStay(d: Dir, e: Dir, done: seq<Name>, n: Name)
    requires EntriesOk(View(d), |d.nodes|) && Emptied(d, e, done) && n !in done && n in View(d)
    ensures HasFolder(e, n) == HasFolder(d, n)
    ensures HasFolder(d, n) ==> Sub(e, n) == Sub(d, n)
  {
    assert View(e) == View(d);
  }

  // ------------------------------------------------------------- lemmas about the scripts

  /** Steps 1 to 3 for any request: up to the first unsafe name, or all of it. */
  function InnerOps(c: Request): seq<Op> {
    if GoodPrefix(c.outs) == c.outs then JobOps(c.job, c.number, c.outs, c.fields)
    else OutputOps(GoodPrefix(c.outs))
  }

  function MakeOps(d: Dir): seq<Op> {
    if HasFolder(d, RESULTS) then [] else [Op([], Mkdir(RESULTS))]
  }

  lemma {:induction false} GoodSoFar(outs: seq<Output>, i: nat)
    requires i < |outs| && i <= |GoodPrefix(outs)|
    ensures ValidOutputName(outs[i].path) ==> i < |GoodPrefix(outs)| && GoodPrefix(outs)[i] == outs[i]
    ensures ValidOutputName(outs[i].path) && i + 1 == |outs| ==> GoodPrefix(outs) == outs
    ensures !ValidOutputName(outs[i].path) ==> i == |GoodPrefix(outs)| && GoodPrefix(outs) != outs
  {
    if i > 0 {
      GoodSoFar(outs[1..], i - 1);
    }
  }

  lemma AllOf(outs: seq<Output>)
    ensures outs[..|outs|] == outs
  {
  }

  lemma MetasGrow(outs: seq<Output>, i: nat)
    requires i < |outs|
    ensures Metas(outs[..i + 1]) ==
      Metas(outs[..i]) + [OutputMeta(outs[i].path, Sha256(outs[i].data), |outs[i].data|)]
  {
  }

  lemma NoOutputs(outs: seq<Output>, good: seq<Output>)
    ensures Metas(outs[..0]) == [] && OutputOps(good[..0]) == []
  {
  }

  lemma OutputsUpTo(d: Dir, outs: seq<Output>, i: nat)
    requires i < |outs| && Runs(d, OutputOps(outs))
    requires Runs(d, OutputOps(outs[..i]))
    ensures Runs(Exec(d, OutputOps(outs[..i])), AtomicWrite(outs[i].path, Raw(outs[i].data)))
    ensures Runs(d, OutputOps(outs[..i + 1]))
    ensures Exec(d, OutputOps(outs[..i + 1]))
      == Exec(Exec(d, OutputOps(outs[..i])), AtomicWrite(outs[i].path, Raw(outs[i].data)))
  {
    hide Runs, Exec, AtomicWrite;
    OutputsPrefix(outs, i + 1);
    var k := |OutputOps(outs[..i + 1])|;
    RunsPrefix(d, OutputOps(outs), k);
    assert OutputOps(outs)[..k] == OutputOps(outs[..i + 1]);
    assert outs[..i + 1][..i] == outs[..i];
    Peel(d, OutputOps(outs[..i]), AtomicWrite(outs[i].path, Raw(outs[i].data)));
  }

  lemma {:induction false} OutputsPrefix(outs: seq<Output>, i: nat)
    requires i <= |outs|
    ensures OutputOps(outs[..i]) <= OutputOps(outs)
    decreases |outs|
  {
    hide AtomicWrite;
    if i == |outs| {
      assert outs[..i] == outs;
    } else {
      OutputsPrefix(outs[..|outs| - 1], i);
      assert outs[..|outs| - 1][..i] == outs[..i];
    }
  }

  lemma MkdirMakes(d: Dir, n: Name)
    requires CanPerform(d, Mkdir(n))
    ensures var e := Perform(d, Mkdir(n)); HasFolder(e, n) && HasFolder(Perform(e, FsyncDir), n) && Sub(e, n) == EMPTY
  {
    var e := Perform(d, Mkdir(n));
    AfterAppend(d, e, Put(n, |d.nodes|));
    var f := Perform(e, FsyncDir);
    assert View(f) == View(e);
    hide View, Replay, After;
    assert View(e)[n] == |d.nodes| && e.nodes[|d.nodes|] == Folder(EMPTY);
  }

  lemma ResultsMade(d: Dir)
    requires Wf(d) && CanPerform(d, Mkdir(RESULTS))
    ensures var e := Perform(d, Mkdir(RESULTS));
      && HasFolder(e, RESULTS) && Sub(e, RESULTS) == EMPTY
      && SeqReadable(e) == SeqReadable(d) && (SeqReadable(d) ==> ReadSeq(e) == ReadSeq(d))
  {
    NamesDiffer();
    WfView(d);
    AfterAppend(d, Perform(d, Mkdir(RESULTS)), Put(RESULTS, |d.nodes|));
  }

  lemma AtResults(d: Dir)
    requires HasFolder(d, RESULTS)
    ensures IsDir(d, [RESULTS]) && DirAt(d, [RESULTS]) == Sub(d, RESULTS)
  {
    assert [RESULTS][1..] == [];
    assert IsDir(Sub(d, RESULTS), []);
  }

  lemma BecameResults(was: Dir, now: Dir, e: Dir)
    requires HasFolder(was, RESULTS) && Became(was, now, [RESULTS], e)
    ensures now == WithSub(was, RESULTS, e)
  {
    assert [RESULTS][1..] == [];
    assert WithDirAt(Sub(was, RESULTS), [], e) == e;
  }

  lemma SeqUnmoved(d: Dir, e: Dir)
    requires Wf(d) && HasFolder(d, RESULTS)
    ensures var f := WithSub(d, RESULTS, e);
      SeqReadable(f) == SeqReadable(d) && (SeqReadable(d) ==> ReadSeq(f) == ReadSeq(d))
  {
    NamesDiffer();
    WfView(d);
    assert View(WithSub(d, RESULTS, e)) == View(d);
  }

  /** The part of the plan before the caches. */
  lemma PlanIs(d: Dir, c: Request, ls: Lister)
    requires ValidJobId(c.job) && !DoneIn(ResultsOf(d), c.job)
    requires Has(ResultsOf(d), c.job) ==> At(ResultsOf(d), c.job).Folder?
    requires Runs(d, CommitPlan(d, c, ls).1)
    ensures var body := InResults(d, c.job, ls, InnerOps(c)); var (o, ops) := CommitPlan(d, c, ls);
      && Runs(d, body)
      && (GoodPrefix(c.outs) != c.outs ==> o.Refused? && ops == body)
      && (GoodPrefix(c.outs) == c.outs && !SeqReadable(d) ==> o.CacheUnreadable? && ops == body)
      && (GoodPrefix(c.outs) == c.outs && SeqReadable(d) ==>
            var bump := BumpOps(Max(ReadSeq(d), c.number), c.job);
            o.Committed? && Runs(Exec(d, body), bump) && Exec(d, ops) == Exec(Exec(d, body), bump))
  {
    var body := InResults(d, c.job, ls, InnerOps(c));
    hide Runs, Exec, InResults, BumpOps;
    if GoodPrefix(c.outs) == c.outs && SeqReadable(d) {
      Peel(d, body, BumpOps(Max(ReadSeq(d), c.number), c.job));
    }
  }

  /** The boot pass is the purge, then (when the seq file reads) the rebuild. */
  lemma ReconcileSplits(d: Dir, ls: Lister)
    requires Runs(d, ReconcileOps(d, ls))
    ensures Runs(d, PurgeAll(d, ls))
    ensures !SeqReadable(d) ==> Exec(d, ReconcileOps(d, ls)) == Exec(d, PurgeAll(d, ls))
    ensures SeqReadable(d) ==>
      var res := ResultsOf(d); var names := ls(View(res).Keys);
      var rest := RebuildOps(Max(ReadSeq(d), MaxDone(res, names)), Survivors(res, names));
      Runs(Exec(d, PurgeAll(d, ls)), rest) && Exec(d, ReconcileOps(d, ls)) == Exec(Exec(d, PurgeAll(d, ls)), rest)
  {
    var res := ResultsOf(d);
    var names := ls(View(res).Keys);
    hide Runs, Exec, PurgeAll, MaxDone, Survivors, RebuildOps;
    if SeqReadable(d) {
      Peel(d, PurgeAll(d, ls), RebuildOps(Max(ReadSeq(d), MaxDone(res, names)), Survivors(res, names)));
    } else {
      assert PurgeAll(d, ls) + [] == PurgeAll(d, ls);
    }
  }

  lemma NextListed(res: Dir, names: seq<Name>, i: nat, ls: Lister)
    requires i < |names| && IsListing(names, View(res).Keys)
    ensures names[i] in View(res) && names[i] !in names[..i] && names[..i + 1] == names[..i] + [names[i]]
    ensures PurgeOps(res, names[..i + 1], ls) == PurgeOps(res, names[..i], ls) + PurgeOne(res, names[i], ls)
    ensures Survivors(res, names[..i + 1])
      == Survivors(res, names[..i]) + if DoneIn(res, names[i]) then [names[i]] else []
    ensures MaxDone(res, names[..i + 1]) ==
      (if DoneIn(res, names[i]) then Max(MaxDone(res, names[..i]), RecordIn(res, names[i]).number)
      else MaxDone(res, names[..i]))
  {
    assert names[..i + 1][..i] == names[..i];
    assert names[i] in names;
    hide DoneIn, RecordIn, PurgeOne;
  }

  lemma SameVerdict(res: Dir, cur: Dir, n: Name)
    requires Has(cur, n) && Has(res, n) && At(cur, n) == At(res, n)
    ensures HasFolder(cur, n) == HasFolder(res, n) && DoneIn(cur, n) == DoneIn(res, n)
    ensures DoneIn(res, n) ==> RecordIn(cur, n) == RecordIn(res, n)
    ensures !HasFolder(res, n) ==> !DoneIn(res, n)
  {
    hide Done, FilesOf, View;
  }

  /** One entry of the boot scan, as scripts. */
  lemma ScanStep(res: Dir, cur: Dir, init: seq<Name>, n: Name, ls: Lister)
    requires Wf(res) && Wf(cur) && Lists(ls) && n in View(res) && n !in init && Purged(res, cur, init)
    requires Runs(res, PurgeOps(res, init, ls)) && cur == Exec(res, PurgeOps(res, init, ls))
    ensures Has(cur, n) && Has(res, n) && At(cur, n) == At(res, n)
    ensures var b := PurgeOne(res, n, ls);
      && Runs(cur, b) && Runs(res, PurgeOps(res, init, ls) + b)
      && Exec(res, PurgeOps(res, init, ls) + b) == Exec(cur, b)
      && Wf(Exec(cur, b)) && Purged(res, Exec(cur, b), init + [n])
      && (Purgeable(res, n) ==> HasFolder(cur, n) && !DoneIn(cur, n) && b == RemoveOps(cur, n, ls))
      && (!Purgeable(res, n) ==> Exec(cur, b) == cur)
  {
    WfView(res);
    WfView(cur);
    var b := PurgeOne(res, n, ls);
    if Purgeable(res, n) {
      RemoveRuns(cur, n, ls, |b|);
      assert b[..|b|] == b;
      WipedOthersStay(cur, Exec(cur, b), n);
      ExecKeepsWf(cur, b);
      WfView(Exec(cur, b));
      PurgedOneMore(res, cur, Exec(cur, b), init, n);
    } else {
      PurgedSkips(res, cur, init, n);
      NothingLeft(cur);
    }
    ExecConcat(res, PurgeOps(res, init, ls), b);
  }
}
