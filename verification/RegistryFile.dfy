/** `registry.save`: the registry on disk is replaced as a whole or not at all. */
module RegistryFile {
  import opened Basics
  import opened Storage
  import opened Tree
  import opened JobDir
  import opened ResultsDir
  import opened StateDisk

  const REGISTRY: Name := "registry.json"

  function SaveOps(c: Content): seq<Op> {
    AtomicWrite(REGISTRY, c) + [Op([], FsyncDir)]
  }

  datatype Saved = Nothing | Text(content: Content)

  function ReadFile(d: Dir, n: Name): Saved {
    if HasFile(d, n) then Text(At(d, n).content) else Nothing
  }

  /** A saved registry is on the medium, whichever way it got there. */
  ghost predicate Settled(d: Dir) {
    && Wf(d) && d.pending == []
    && (REGISTRY in View(d) ==> HasFile(d, REGISTRY) && At(d, REGISTRY).synced)
    && (REGISTRY + TMP in View(d) ==> HasFile(d, REGISTRY + TMP))
  }

  method Save(disk: Disk, at: Path, c: Content)
    requires IsDir(disk.root, at) && Settled(DirAt(disk.root, at))
    modifies disk
    ensures IsDir(disk.root, at) && Became(old(disk.root), disk.root, at, DirAt(disk.root, at))
    ensures Settled(DirAt(disk.root, at)) && ReadFile(DirAt(disk.root, at), "registry.json") == Text(c)
  {
    ghost var d := DirAt(disk.root, at);
    SaveRuns(d, c);
    Peel(d, AtomicWrite(REGISTRY, c), [Op([], FsyncDir)]);
    hide Runs, Exec, AtomicWrite, Settled;
    disk.AtomicWriteFile(at, REGISTRY, c);
    ghost var r := disk.root;
    assert [Op([], FsyncDir)] == [Op([], FsyncDir)] + [];
    disk.Next(at, FsyncDir, []);
    NothingLeft(DirAt(disk.root, at));
    BecameAgain(old(disk.root), r, disk.root, at, DirAt(r, at), DirAt(disk.root, at));
  }

  /** Undisturbed, the new registry is in place and settled. */
  lemma SaveRuns(d: Dir, c: Content)
    requires Settled(d)
    ensures Runs(d, SaveOps(c))
    ensures Settled(Exec(d, SaveOps(c))) && ReadFile(Exec(d, SaveOps(c)), REGISTRY) == Text(c)
  {
    var e := AtomicWriteRuns(d, REGISTRY, c);
    var f := Perform(e, FsyncDir);
    PerformKeepsWf(e, FsyncDir);
    assert View(f) == View(e);
    hide Wf, AtomicWrite, Runs, Exec;
    ExecOne(e, Op([], FsyncDir));
    ExecConcat(d, AtomicWrite(REGISTRY, c), [Op([], FsyncDir)]);
  }

  /** A power cut anywhere in it leaves the old registry or the new one, whole. */
  lemma {:induction false} SaveIsAtomic(d: Dir, c: Content, k: nat, w: World, at: seq<nat>)
    requires Settled(d) && k <= |SaveOps(c)|
    ensures Runs(d, SaveOps(c)[..k])
    ensures var read := ReadFile(Crash(Exec(d, SaveOps(c)[..k]), w, at), "registry.json");
      read in {ReadFile(d, "registry.json"), Text(c)} && (k == |SaveOps(c)| ==> read == Text(c))
  {
    var a, last := AtomicWrite(REGISTRY, c), [Op([], FsyncDir)];
    SaveRuns(d, c);
    var e := AtomicWriteRuns(d, REGISTRY, c);
    PerformKeepsWf(e, FsyncDir);
    assert View(Perform(e, FsyncDir)) == View(e);
    ExecOne(e, last[0]);
    ExecSplit(d, a, last, k);
    hide Wf, Runs, Exec, Crash, AtomicWrite, SaveOps;
    if k < 4 {
      var b := FillTmp(d, REGISTRY, c, k);
      OldSurvives(d, b, w, at);
    } else if k == 4 {
      assert a[..4] == a;
      RenameSurvives(d, e, c, w, at);
    } else {
      assert last[..1] == last;
      NewSurvives(Perform(e, FsyncDir), c, w, at);
    }
  }

  lemma OldSurvives(d: Dir, b: Dir, w: World, at: seq<nat>)
    requires Settled(d) && OnlyTouches(d, b, REGISTRY + TMP)
    ensures ReadFile(Crash(b, w, at), REGISTRY) == ReadFile(d, REGISTRY)
  {
    TmpIsLonger(REGISTRY);
    WfView(d);
    CrashedEntry(b, w, at, REGISTRY);
    assert AgreeExcept(After(b, Kept(b, at, w)), View(d), REGISTRY + TMP);
  }

  lemma RenameSurvives(d: Dir, e: Dir, c: Content, w: World, at: seq<nat>)
    requires Settled(d) && Replaced(d, e, REGISTRY, c) && TmpUntilLast(d, e, REGISTRY)
    ensures ReadFile(Crash(e, w, at), REGISTRY) in {ReadFile(d, REGISTRY), Text(c)}
  {
    TmpIsLonger(REGISTRY);
    WfView(d);
    ViewIsAfterAll(e);
    CrashedEntry(e, w, at, REGISTRY);
  }

  lemma NewSurvives(f: Dir, c: Content, w: World, at: seq<nat>)
    requires f.pending == [] && HasFile(f, REGISTRY) && At(f, REGISTRY) == File(c, true)
    ensures ReadFile(Crash(f, w, at), REGISTRY) == Text(c)
  {
    ViewIsAfterAll(f);
    CrashedEntry(f, w, at, REGISTRY);
  }
}
