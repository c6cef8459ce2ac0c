/** `RESULTS_DIR` and its job directories: which of them count as committed, and
    what every power cut leaves of them. */
module ResultsDir {
  import opened Basics
  import opened Storage
  import opened JobDir
  import opened RemoveTree

  /** The committed jobs, each with its marker's number and all its bytes. */
  type Log = map<Name, Record>

  predicate DoneIn(res: Dir, j: Name) {
    HasFolder(res, j) && Done(Sub(res, j))
  }

  function RecordIn(res: Dir, j: Name): Record
    requires DoneIn(res, j)
  {
    Record(At(Sub(res, j), DONE).content.number, FilesOf(Sub(res, j)))
  }

  /** What a scan for valid `DONE` markers finds. */
  ghost function LogIn(res: Dir): Log {
    map j | j in View(res) && DoneIn(res, j) :: RecordIn(res, j)
  }

  // ------------------------------------------------------------- invariants

  /** No power cut can make this directory look committed. */
  ghost predicate Clean(d: Dir) {
    forall k: nat | k <= |d.pending| && DONE in After(d, k) && After(d, k)[DONE] < |d.nodes| ::
      var n := d.nodes[After(d, k)[DONE]];
      !ValidDone(n) && (n.File? ==> n.synced)
  }

  ghost predicate CompleteAt(nodes: seq<Node>, m: map<Name, nat>, j: Name, r: Record) {
    j in m && m[j] < |nodes| && nodes[m[j]].Folder? && Complete(nodes[m[j]].dir, r)
  }

  /** Under the entries `m`: every job of `log` is complete; any other folder is
      clean, except that a job of `next` may be landing. */
  ghost predicate JobsIn(nodes: seq<Node>, m: map<Name, nat>, log: Log, next: Log) {
    && (forall j | j in log :: CompleteAt(nodes, m, j, log[j]))
    && (forall j | j in m && j !in log && m[j] < |nodes| && nodes[m[j]].Folder? ::
          Clean(nodes[m[j]].dir) || (j in next && Landing(nodes[m[j]].dir, next[j])))
  }

  /** ... and so under every prefix of the waiting entry operations. */
  ghost predicate JobsOk(res: Dir, log: Log, next: Log) {
    forall k: nat | k <= |res.pending| :: JobsIn(res.nodes, After(res, k), log, next)
  }

  lemma JobsInView(res: Dir, log: Log, next: Log)
    requires JobsOk(res, log, next)
    ensures JobsIn(res.nodes, View(res), log, next)
  {
    ViewIsAfterAll(res);
    assert JobsIn(res.nodes, After(res, |res.pending|), log, next);
  }

  lemma CleanIsNotDone(d: Dir)
    requires Clean(d)
    ensures !Done(d)
  {
    ViewIsAfterAll(d);
  }

  lemma NoDoneIsClean(d: Dir)
    requires NoDone(d)
    ensures Clean(d)
  {
  }

  /** The jobs of the log are always shown. */
  lemma LogIsShown(res: Dir, log: Log, next: Log)
    requires JobsOk(res, log, next)
    ensures forall j | j in log :: j in View(res) && DoneIn(res, j) && RecordIn(res, j) == log[j]
  {
    JobsInView(res, log, next);
    forall j | j in log
      ensures j in View(res) && DoneIn(res, j) && RecordIn(res, j) == log[j]
    {
      assert CompleteAt(res.nodes, View(res), j, log[j]);
    }
  }

  /** A settled results directory shows exactly the log. */
  lemma SettledShowsLog(res: Dir, log: Log)
    requires JobsOk(res, log, log)
    ensures LogIn(res) == log
  {
    JobsInView(res, log, log);
    forall j | j in View(res) && DoneIn(res, j)
      ensures j in log && RecordIn(res, j) == log[j]
    {
      if j !in log {
        CleanIsNotDone(Sub(res, j));
      }
    }
    forall j | j in log
      ensures j in View(res) && DoneIn(res, j)
    {
      assert CompleteAt(res.nodes, View(res), j, log[j]);
    }
  }

  // ------------------------------------------------------------- power cuts

  lemma CrashedEntry(d: Dir, w: World, at: seq<nat>, n: Name)
    ensures var c := Crash(d, w, at); var k := Kept(d, at, w);
      && View(c) == After(d, k)
      && (Has(c, n) ==> At(c, n) == CrashNode(d.nodes[After(d, k)[n]], w, at + [After(d, k)[n]]))
  {
  }

  lemma CompleteSurvives(d: Dir, r: Record, w: World, at: seq<nat>)
    requires Complete(d, r)
    ensures Complete(Crash(d, w, at), r)
  {
    var c := Crash(d, w, at);
    assert After(d, 0) == View(d) by { ViewIsAfterAll(d); }
    forall n | n in View(c)
      ensures HasFile(c, n) && At(c, n) == At(d, n)
    {
      CrashedEntry(d, w, at, n);
      assert HasFile(d, n) && At(d, n).synced;
    }
    assert FilesOf(c) == FilesOf(d);
  }

  lemma CleanSurvives(d: Dir, w: World, at: seq<nat>)
    requires Clean(d)
    ensures Clean(Crash(d, w, at))
  {
    var c := Crash(d, w, at);
    assert After(c, 0) == After(d, Kept(d, at, w));
    forall k: nat | k <= |c.pending| && DONE in After(c, k) && After(c, k)[DONE] < |c.nodes|
      ensures var n := c.nodes[After(c, k)[DONE]]; !ValidDone(n) && (n.File? ==> n.synced)
    {
      var i := After(c, k)[DONE];
      assert c.nodes[i] == CrashNode(d.nodes[i], w, at + [i]);
    }
  }

  /** All or nothing: either the cut kept the `DONE` rename, and with it every
      entry before it, or the directory cannot look committed. */
  lemma LandingSurvives(d: Dir, r: Record, w: World, at: seq<nat>)
    requires Landing(d, r)
    ensures if Kept(d, at, w) == |d.pending| then Complete(Crash(d, w, at), r) else Clean(Crash(d, w, at))
  {
    var c := Crash(d, w, at);
    if Kept(d, at, w) == |d.pending| {
      ViewIsAfterAll(d);
      forall n | n in View(c)
        ensures HasFile(c, n) && At(c, n) == At(d, n)
      {
        CrashedEntry(d, w, at, n);
        assert HasFile(d, n) && At(d, n).synced;
      }
      assert FilesOf(c) == FilesOf(d);
    } else {
      assert After(c, 0) == After(d, Kept(d, at, w));
    }
  }

  lemma CrashedJob(res: Dir, log: Log, next: Log, w: World, at: seq<nat>, j: Name)
    requires JobsIn(res.nodes, After(res, Kept(res, at, w)), log, next)
    requires var m := After(res, Kept(res, at, w)); j in m && m[j] < |res.nodes|
    ensures var c := Crash(res, w, at); var n := res.nodes[After(res, Kept(res, at, w))[j]];
      && (n.Folder? <==> HasFolder(c, j))
      && (j in log ==> HasFolder(c, j) && Complete(Sub(c, j), log[j]))
      && (HasFolder(c, j) && j !in log ==> Clean(Sub(c, j)) || (j in next && Complete(Sub(c, j), next[j])))
  {
    var m := After(res, Kept(res, at, w));
    CrashedEntry(res, w, at, j);
    hide Complete, Clean, Landing, After, Replay;
    var n, here := res.nodes[m[j]], at + [m[j]];
    if j in log {
      assert CompleteAt(res.nodes, m, j, log[j]);
      CompleteSurvives(n.dir, log[j], w, here);
    } else if n.Folder? {
      if Clean(n.dir) {
        CleanSurvives(n.dir, w, here);
      } else {
        LandingSurvives(n.dir, next[j], w, here);
      }
    }
  }

  lemma CompleteMeans(res: Dir, j: Name, r: Record)
    requires HasFolder(res, j) && Complete(Sub(res, j), r)
    ensures j in LogIn(res) && LogIn(res)[j] == r
  {
  }

  /** A power cut leaves the old log, plus whatever was landing and made it. */
  lemma CrashShowsLog(res: Dir, log: Log, next: Log, w: World, at: seq<nat>)
    requires JobsOk(res, log, next)
    ensures var c := Crash(res, w, at);
      && JobsOk(c, LogIn(c), LogIn(c))
      && log.Items <= LogIn(c).Items
      && (forall j | j in LogIn(c) && j !in log :: j in next && LogIn(c)[j] == next[j])
  {
    var c, m := Crash(res, w, at), After(res, Kept(res, at, w));
    var found := LogIn(c);
    assert View(c) == m && After(c, 0) == m && |c.nodes| == |res.nodes|;
    assert JobsIn(res.nodes, m, log, next);
    assert forall j | j in log :: CompleteAt(res.nodes, m, j, log[j]);
    hide Complete, Clean, Landing, JobsIn, JobsOk, After, View, Replay, Crash, LogIn;
    forall j | j in m && m[j] < |res.nodes|
      ensures j in log ==> j in found && found[j] == log[j]
      ensures HasFolder(c, j) && j in found ==> Complete(Sub(c, j), found[j])
      ensures HasFolder(c, j) && j !in found ==> Clean(Sub(c, j))
      ensures j in found && j !in log ==> j in next && found[j] == next[j]
    {
      FoundJob(res, log, next, w, at, j);
    }
    FoundIsHeld(c, found);
    ItemsWithin(log, found);
    FoundOk(c, found);
  }

  lemma FoundJob(res: Dir, log: Log, next: Log, w: World, at: seq<nat>, j: Name)
    requires JobsIn(res.nodes, After(res, Kept(res, at, w)), log, next)
    requires var m := After(res, Kept(res, at, w)); j in m && m[j] < |res.nodes|
    ensures var c := Crash(res, w, at); var found := LogIn(c);
      && (j in log ==> j in found && found[j] == log[j])
      && (HasFolder(c, j) && j in found ==> Complete(Sub(c, j), found[j]))
      && (HasFolder(c, j) && j !in found ==> Clean(Sub(c, j)))
      && (j in found && j !in log ==> j in next && found[j] == next[j])
  {
    CrashedJob(res, log, next, w, at, j);
    var c := Crash(res, w, at);
    hide Crash, Complete, Clean, After, View, JobsIn;
    if j in log {
      CompleteMeans(c, j, log[j]);
    } else if HasFolder(c, j) {
      if Clean(Sub(c, j)) {
        CleanIsNotDone(Sub(c, j));
      } else {
        CompleteMeans(c, j, next[j]);
      }
    }
  }

  lemma FoundIsHeld(c: Dir, found: Log)
    requires found == LogIn(c)
    ensures forall j | j in found :: HasFolder(c, j)
  {
  }

  lemma ItemsWithin(log: Log, more: Log)
    requires forall j | j in log :: j in more && more[j] == log[j]
    ensures log.Items <= more.Items
  {
    forall p | p in log.Items
      ensures p in more.Items
    {
      assert p.0 in more && more[p.0] == p.1;
    }
  }

  lemma FoundOk(c: Dir, found: Log)
    requires c.pending == [] && After(c, 0) == View(c)
    requires forall j | j in found :: HasFolder(c, j) && Complete(Sub(c, j), found[j])
    requires forall j | HasFolder(c, j) && j !in found :: Clean(Sub(c, j))
    ensures JobsOk(c, found, found)
  {
    hide Complete, Clean;
    assert JobsIn(c.nodes, View(c), found, found);
  }

  // ------------------------------------------------------------- wiping a partial job

  lemma ShrunkStaysClean(a: Dir, b: Dir)
    requires Wf(a) && Clean(a) && Shrinks(a, b)
    ensures Clean(b)
  {
    forall k: nat | k <= |b.pending| && DONE in After(b, k) && After(b, k)[DONE] < |b.nodes|
      ensures var n := b.nodes[After(b, k)[DONE]]; !ValidDone(n) && (n.File? ==> n.synced)
    {
      var i := After(b, k)[DONE];
      ShrunkPrefix(a, b, k);
      if k <= |a.pending| {
        assert After(a, k)[DONE] == i;
      } else {
        assert (DONE, i) in After(b, k).Items;
        ViewIsAfterAll(a);
        assert After(a, |a.pending|)[DONE] == i;
      }
    }
  }

  lemma CleanView(res: Dir, log: Log, next: Log, j: Name)
    requires JobsOk(res, log, next) && HasFolder(res, j) && !DoneIn(res, j)
    ensures j !in log && Clean(Sub(res, j))
  {
    JobsInView(res, log, next);
    assert j in log ==> CompleteAt(res.nodes, View(res), j, log[j]);
  }

  /** Replacing one uncommitted folder by another clean one. */
  lemma JobsInWith(nodes: seq<Node>, m: map<Name, nat>, log: Log, next: Log, i: nat, c: Dir)
    requires JobsIn(nodes, m, log, next) && i < |nodes| && nodes[i].Folder? && !Done(nodes[i].dir) && Clean(c)
    ensures JobsIn(nodes[i := Folder(c)], m, log, next)
  {
    forall j | j in log
      ensures CompleteAt(nodes[i := Folder(c)], m, j, log[j])
    {
      assert CompleteAt(nodes, m, j, log[j]);
    }
  }

  lemma JobsInLess(nodes: seq<Node>, m: map<Name, nat>, log: Log, next: Log, n: Name)
    requires JobsIn(nodes, m, log, next) && n !in log
    ensures JobsIn(nodes, m - {n}, log, next)
  {
    forall j | j in log
      ensures CompleteAt(nodes, m - {n}, j, log[j])
    {
      assert CompleteAt(nodes, m, j, log[j]);
    }
  }

  /** Removing an uncommitted job directory keeps every committed job whole,
      whenever the power fails. */
  lemma WipeKeepsJobs(res: Dir, log: Log, next: Log, job: Name, ls: Lister, k: nat)
    requires Wf(res) && JobsOk(res, log, next) && Lists(ls)
    requires HasFolder(res, job) && !DoneIn(res, job) && k <= |RemoveOps(res, job, ls)|
    ensures var ops := RemoveOps(res, job, ls);
      && Runs(res, ops) && Runs(res, ops[..k])
      && var e := Exec(res, ops[..k]);
      && JobsOk(e, log, next) && Wf(e)
      && (k == |ops| ==> View(e) == View(res) - {job})
      && (forall n | Has(res, n) && n != job :: Has(e, n) && At(e, n) == At(res, n))
  {
    RemoveRuns(res, job, ls, k);
    var ops := RemoveOps(res, job, ls);
    var e := Exec(res, ops[..k]);
    CleanView(res, log, next, job);
    ShrunkStaysClean(Sub(res, job), e.nodes[View(res)[job]].dir);
    WipedJobsOk(res, e, log, next, job);
    WipedOthersStay(res, e, job);
    ExecKeepsWf(res, ops[..k]);
  }

  lemma WipedOthersStay(res: Dir, e: Dir, job: Name)
    requires Wf(res) && HasFolder(res, job) && |e.nodes| == |res.nodes|
    requires forall i | 0 <= i < |res.nodes| && i != View(res)[job] :: e.nodes[i] == res.nodes[i]
    requires View(e) == View(res) || View(e) == View(res) - {job}
    ensures forall n | Has(res, n) && n != job :: Has(e, n) && At(e, n) == At(res, n)
  {
    WfView(res);
  }

  lemma WipedJobsOk(res: Dir, e: Dir, log: Log, next: Log, job: Name)
    requires JobsOk(res, log, next) && job !in log && HasFolder(res, job) && !DoneIn(res, job)
    requires e.durable == res.durable && (e.pending == res.pending || e.pending == res.pending + [Del(job)])
    requires |e.nodes| == |res.nodes| && e.nodes[View(res)[job]].Folder? && Clean(e.nodes[View(res)[job]].dir)
    requires forall i | 0 <= i < |res.nodes| && i != View(res)[job] :: e.nodes[i] == res.nodes[i]
    ensures JobsOk(e, log, next)
  {
    var i := View(res)[job];
    var c := e.nodes[i].dir;
    assert e.nodes == res.nodes[i := Folder(c)];
    EarlierPrefixes(res, e);
    JobsInView(res, log, next);
    var m := View(res);
    assert forall j: nat | j <= |res.pending| :: JobsIn(res.nodes, After(res, j), log, next);
    if e.pending != res.pending { AfterAppend(res, e, Del(job)); }
    hide JobsIn, JobsOk, Clean, Done, View, After;
    forall j: nat | j <= |e.pending|
      ensures JobsIn(e.nodes, After(e, j), log, next)
    {
      if j <= |res.pending| {
        JobsInWith(res.nodes, After(res, j), log, next, i, c);
      } else {
        JobsInWith(res.nodes, m, log, next, i, c);
        JobsInLess(e.nodes, m, log, next, job);
        assert After(e, j) == m - {job};
      }
    }
    JobsOkFrom(e, log, next);
  }

  lemma JobsOkFrom(e: Dir, log: Log, next: Log)
    requires forall j: nat | j <= |e.pending| :: JobsIn(e.nodes, After(e, j), log, next)
    ensures JobsOk(e, log, next)
  {
  }

  // ------------------------------------------------------------- opening a new job

  lemma JobsInMore(nodes: seq<Node>, m: map<Name, nat>, log: Log, next: Log, n: Node)
    requires EntriesOk(m, |nodes|) && JobsIn(nodes, m, log, next)
    ensures JobsIn(nodes + [n], m, log, next)
  {
    forall j | j in log
      ensures CompleteAt(nodes + [n], m, j, log[j])
    {
      assert CompleteAt(nodes, m, j, log[j]);
    }
  }

  lemma JobsInOpened(nodes: seq<Node>, m: map<Name, nat>, log: Log, next: Log, job: Name)
    requires EntriesOk(m, |nodes|) && JobsIn(nodes, m, log, next) && job !in log
    ensures JobsIn(nodes + [Folder(EMPTY)], m[job := |nodes|], log, next)
  {
    forall j | j in log
      ensures CompleteAt(nodes + [Folder(EMPTY)], m[job := |nodes|], j, log[j])
    {
      assert CompleteAt(nodes, m, j, log[j]);
    }
  }

  lemma MkdirKeepsJobs(res: Dir, log: Log, next: Log, job: Name)
    requires Wf(res) && JobsOk(res, log, next) && job !in View(res)
    ensures CanPerform(res, Mkdir(job))
    ensures var e := Perform(res, Mkdir(job));
      Wf(e) && JobsOk(e, log, next) && HasFolder(e, job) && Sub(e, job) == EMPTY
  {
    var e := Perform(res, Mkdir(job));
    PerformKeepsWf(res, Mkdir(job));
    NewEntryIs(res, job);
    hide JobsOk, Wf, View, After, Replay;
    OpenedJobsOk(res, e, log, next, job);
  }

  lemma NewEntryIs(res: Dir, job: Name)
    requires job !in View(res)
    ensures var e := Perform(res, Mkdir(job)); HasFolder(e, job) && Sub(e, job) == EMPTY
  {
    AfterAppend(res, Perform(res, Mkdir(job)), Put(job, |res.nodes|));
    hide View, Replay, After;
  }

  lemma OpenedJobsOk(res: Dir, e: Dir, log: Log, next: Log, job: Name)
    requires Wf(res) && JobsOk(res, log, next) && job !in View(res) && e == Create(res, job, Folder(EMPTY))
    ensures JobsOk(e, log, next)
  {
    AfterAppend(res, e, Put(job, |res.nodes|));
    JobsInView(res, log, next);
    WfView(res);
    assert job in log ==> CompleteAt(res.nodes, View(res), job, log[job]);
    forall j: nat | j <= |e.pending|
      ensures JobsIn(e.nodes, After(e, j), log, next)
    {
      if j <= |res.pending| {
        assert JobsIn(res.nodes, After(res, j), log, next) && EntriesOk(After(res, j), |res.nodes|);
        hide JobsIn, JobsOk, Wf, EntriesOk, View, After, Complete, Replay;
        JobsInMore(res.nodes, After(res, j), log, next, Folder(EMPTY));
      } else {
        hide JobsIn, JobsOk, Wf, EntriesOk, View, After, Complete, Replay;
        JobsInOpened(res.nodes, View(res), log, next, job);
      }
    }
    JobsOkFrom(e, log, next);
  }

  lemma FsyncKeepsJobs(res: Dir, log: Log, next: Log)
    requires JobsOk(res, log, next)
    ensures JobsOk(Perform(res, FsyncDir), log, next)
  {
    JobsInView(res, log, next);
  }

  // ------------------------------------------------------------- filling it

  /** With the job's entry on the medium, its directory may go through clean
      states, land, and be complete; the committed jobs stay whole throughout. */
  lemma FillKeepsJobs(res: Dir, log: Log, next: Log, job: Name, r: Record, c: Dir)
    requires Wf(res) && res.pending == [] && JobsOk(res, log, next)
    requires HasFolder(res, job) && !DoneIn(res, job)
    ensures var e := WithSub(res, job, c);
      && (Clean(c) ==> JobsOk(e, log, next))
      && (Landing(c, r) ==> JobsOk(e, log, next[job := r]))
      && (Complete(c, r) ==> JobsOk(e, log[job := r], next[job := r]))
  {
    var e := WithSub(res, job, c);
    WfView(res);
    JobsInView(res, log, next);
    CleanView(res, log, next, job);
    FilledEntry(res.nodes, View(res), log, next, job, r, c);
    assert forall k: nat | k <= |e.pending| :: After(e, k) == View(res);
  }

  lemma FilledEntry(nodes: seq<Node>, m: map<Name, nat>, log: Log, next: Log, job: Name, r: Record, c: Dir)
    requires EntriesOk(m, |nodes|) && JobsIn(nodes, m, log, next)
    requires job in m && job !in log && nodes[m[job]].Folder?
    ensures var after := nodes[m[job] := Folder(c)];
      && (Clean(c) ==> JobsIn(after, m, log, next))
      && (Landing(c, r) ==> JobsIn(after, m, log, next[job := r]))
      && (Complete(c, r) ==> JobsIn(after, m, log[job := r], next[job := r]))
  {
    hide Clean, Landing, Complete;
    var after := nodes[m[job] := Folder(c)];
    OthersStay(nodes, m, log, next, job, c);
    if Complete(c, r) {
      var more := log[job := r];
      forall j | j in more
        ensures CompleteAt(after, m, j, more[j])
      {
        if j != job { assert CompleteAt(after, m, j, log[j]); }
      }
    }
  }

  lemma OthersStay(nodes: seq<Node>, m: map<Name, nat>, log: Log, next: Log, job: Name, c: Dir)
    requires EntriesOk(m, |nodes|) && JobsIn(nodes, m, log, next)
    requires job in m && job !in log && nodes[m[job]].Folder?
    ensures var after := nodes[m[job] := Folder(c)];
      && (forall j | j in log :: CompleteAt(after, m, j, log[j]))
      && (forall j | j in m && j != job :: after[m[j]] == nodes[m[j]])
      && after[m[job]] == Folder(c)
  {
    hide Clean, Landing, Complete;
    forall j | j in log
      ensures CompleteAt(nodes[m[job] := Folder(c)], m, j, log[j])
    {
      assert CompleteAt(nodes, m, j, log[j]);
    }
  }
}
