/** `status.json` lists every output with its digest and length; when is what it
    says true of the committed files? */
module Metadata {
  import opened Basics
  import opened Storage
  import opened JobDir
  import opened ResultsDir
  import opened CommitLog

  /** The entry names a file that is there, with the listed digest and length. */
  predicate Agrees(files: map<Name, Content>, m: OutputMeta) {
    && m.path in files && files[m.path].Raw?
    && Sha256(files[m.path].data) == m.sha256 && |files[m.path].data| == m.bytes
  }

  /** `outs[k]` is the last to write `n`, and no later output uses `n` as its `.tmp` sibling. */
  predicate Survives(outs: seq<Output>, n: Name, k: int) {
    && 0 <= k < |outs| && outs[k].path == n
    && (forall j | k < j < |outs| :: outs[j].path != n && outs[j].path + TMP != n)
  }

  /** A map of files from a list of writes, each of which also takes its `.tmp` sibling away. */
  lemma {:induction false} WroteAllHolds(outs: seq<Output>, n: Name)
    ensures n in WroteAll(outs) <==> exists k :: Survives(outs, n, k)
    ensures forall k | Survives(outs, n, k) :: WroteAll(outs)[n] == Raw(outs[k].data)
    decreases |outs|
  {
    if outs != [] {
      var init, last := outs[..|outs| - 1], |outs| - 1;
      WroteAllHolds(init, n);
      TmpIsLonger(outs[last].path);
      forall k | 0 <= k < last
        ensures Survives(outs, n, k) <==>
          Survives(init, n, k) && outs[last].path != n && outs[last].path + TMP != n
      {
        assert forall j | k < j < last :: init[j] == outs[j];
      }
      assert outs[last].path == n <==> Survives(outs, n, last);
    }
  }

  lemma StatusIsThere(c: Request)
    ensures var files := RecordFor(c).files;
      STATUS in files && files[STATUS] == StatusOf(c.job, c.number, c.outs, c.fields)
  {
    TmpIsLonger(STATUS);
    TmpIsLonger(DONE);
    assert STATUS[0] == 's' && DONE[0] == 'D';
    assert STATUS != DONE + TMP by { assert (DONE + TMP)[0] == 'D'; }
  }

  /** What the two later writes, of `status.json` and `DONE`, leave of an output. */
  lemma OutputStays(c: Request, n: Name)
    requires ValidOutputName(n)
    ensures var files, all := RecordFor(c).files, WroteAll(c.outs);
      && (n in files <==> n in all && n != STATUS + TMP && n != DONE + TMP)
      && (n in files ==> files[n] == all[n])
  {
  }

  /** Exactly when one entry of `status.json` is true of the committed directory. */
  lemma EntryAgrees(c: Request, i: nat)
    requires forall o | o in c.outs :: ValidOutputName(o.path)
    requires i < |c.outs|
    ensures Agrees(RecordFor(c).files, Metas(c.outs)[i]) <==>
      && c.outs[i].path != STATUS + TMP && c.outs[i].path != DONE + TMP
      && exists k :: Survives(c.outs, c.outs[i].path, k) && c.outs[k].data == c.outs[i].data
  {
    var n := c.outs[i].path;
    WroteAllHolds(c.outs, n);
    OutputStays(c, n);
    hide RecordFor, WroteAll;
    if Agrees(RecordFor(c).files, Metas(c.outs)[i]) {
      var k :| Survives(c.outs, n, k);
      assert c.outs[k].data == c.outs[i].data;
    }
  }

  predicate DistinctNames(outs: seq<Output>) {
    forall i, j | 0 <= i < j < |outs| :: outs[i].path != outs[j].path
  }

  /** A name that a later write of the same commit uses as its `.tmp` sibling. */
  predicate Clobbered(outs: seq<Output>, i: nat)
    requires i < |outs|
  {
    || outs[i].path == STATUS + TMP || outs[i].path == DONE + TMP
    || exists j :: i < j < |outs| && outs[j].path + TMP == outs[i].path
  }

  /** With distinct names, all of `status.json` is true of the committed directory
      exactly when no output is named like a later write's `.tmp` sibling. */
  lemma AllAgree(c: Request)
    requires (forall o | o in c.outs :: ValidOutputName(o.path)) && DistinctNames(c.outs)
    ensures (forall i | 0 <= i < |c.outs| :: Agrees(RecordFor(c).files, Metas(c.outs)[i]))
      <==> (forall i | 0 <= i < |c.outs| :: !Clobbered(c.outs, i))
  {
    hide RecordFor;
    forall i | 0 <= i < |c.outs|
      ensures Agrees(RecordFor(c).files, Metas(c.outs)[i]) <==> !Clobbered(c.outs, i)
    {
      EntryAgrees(c, i);
      assert !Clobbered(c.outs, i) ==> Survives(c.outs, c.outs[i].path, i);
    }
  }

  /** What `status.json` says of a request: its id and number, the caller's other
      entries, and one entry for each output, in order. */
  ghost predicate Describes(status: Content, c: Request) {
    && status.StatusText? && status.jobId == c.job && status.number == c.number
    && (forall k :: k in status.fields <==> k in c.fields && k !in {"job_id", "seq", "outputs"})
    && (forall k | k in status.fields :: status.fields[k] == c.fields[k])
    && |status.outputs| == |c.outs|
    && (forall i | 0 <= i < |c.outs| ::
          status.outputs[i] == OutputMeta(c.outs[i].path, Sha256(c.outs[i].data), |c.outs[i].data|))
  }

  lemma StatusDescribes(c: Request)
    ensures Describes(StatusOf(c.job, c.number, c.outs, c.fields), c)
  {
  }

  ghost predicate IsFile(d: Dir, n: Name, c: Content) {
    HasFile(d, n) && At(d, n) == File(c, true)
  }

  /** The disk once `commit()` has returned, file by file: the job's directory with
      its two control files, the greater number in `seq`, and the id in
      `consumed-jobs`. The job's directory is on the medium as it is. */
  lemma CommittedDisk(d: Dir, c: Request, ls: Lister)
    requires Standing(d) && Lists(ls) && CommitPlan(d, c, ls).0.Committed?
    ensures SeqReadable(d) && Runs(d, CommitPlan(d, c, ls).1)
    ensures var e := Exec(d, CommitPlan(d, c, ls).1); e.pending == [] && HoldsJob(e, c)
    ensures var e := Exec(d, CommitPlan(d, c, ls).1);
      SaysSeq(e, if c.number >= ReadSeq(d) then c.number else ReadSeq(d)) && SaysConsumed(e, ReadConsumed(d), c.job)
  {
    hide *;
    CommitStands(d, c, ls);
    CommittedPlan(d, c, ls);
    CommittedJob(Exec(d, CommitPlan(d, c, ls).1), c) by { AddedJob(LogOf(d), c); }
    CommittedCaches(Exec(d, CommitPlan(d, c, ls).1), ReadSeq(d), ReadConsumed(d), c);
  }

  lemma AddedJob(log: Log, c: Request)
    ensures c.job in log[c.job := RecordFor(c)] && log[c.job := RecordFor(c)][c.job] == RecordFor(c)
  {
  }

  ghost predicate HoldsJob(e: Dir, c: Request) {
    && HasFolder(e, "results") && HasFolder(Sub(e, "results"), c.job)
    && var job := Sub(Sub(e, "results"), c.job);
    && job.pending == [] && IsFile(job, "DONE", DoneText(c.number))
    && (exists status :: IsFile(job, "status.json", status) && Describes(status, c))
    && (forall n | n in View(job) :: n in {"DONE", "status.json"} ||
          exists o :: o in c.outs && o.path == n && IsFile(job, n, Raw(o.data)))
  }

  ghost predicate SaysSeq(e: Dir, v: int) {
    if "seq" in View(e) then HasFile(e, "seq") && At(e, "seq").content == SeqText(v) else v == 0
  }

  ghost predicate SaysConsumed(e: Dir, ids: set<Name>, job: Name) {
    && HasFile(e, "consumed-jobs") && At(e, "consumed-jobs").content.LinesText?
    && forall j :: j in At(e, "consumed-jobs").content.lines <==> j in ids || j == job
  }

  lemma CommittedCaches(e: Dir, v: int, ids: set<Name>, c: Request)
    requires CachesSay(e, Max(v, c.number), ids + {c.job})
    ensures SaysSeq(e, if c.number >= v then c.number else v) && SaysConsumed(e, ids, c.job)
  {
    hide View;
    assert c.job in ReadConsumed(e);
    assert forall j :: j in ReadConsumed(e) <==> j in ids || j == c.job;
  }

  lemma CommittedJob(e: Dir, c: Request)
    requires Standing(e) && c.job in LogOf(e) && LogOf(e)[c.job] == RecordFor(c)
    ensures HoldsJob(e, c)
  {
    hide Wf, RecordFor, Tidy, Describes, View, ReadConsumed, StatusOf;
    StatusIsThere(c);
    StatusDescribes(c);
    RecordHolds(c);
    var res := Sub(e, RESULTS);
    assert JobsIn(res.nodes, After(res, |res.pending|), LogOf(e), LogOf(e));
    ViewIsAfterAll(res);
    assert CompleteAt(res.nodes, View(res), c.job, RecordFor(c));
    var job := Sub(res, c.job);
    assert IsFile(job, "status.json", StatusOf(c.job, c.number, c.outs, c.fields));
    forall n | n in View(job) && n !in {"DONE", "status.json"}
      ensures exists o :: o in c.outs && o.path == n && IsFile(job, n, Raw(o.data))
    {
      assert n in FilesOf(job);
      var o :| o in c.outs && o.path == n && RecordFor(c).files[n] == Raw(o.data);
      assert IsFile(job, n, Raw(o.data));
    }
  }

  lemma {:induction false} WroteFrom(outs: seq<Output>)
    ensures forall n | n in WroteAll(outs) :: exists o :: o in outs && o.path == n && WroteAll(outs)[n] == Raw(o.data)
  {
    if outs != [] {
      var init, last := outs[..|outs| - 1], outs[|outs| - 1];
      WroteFrom(init);
      assert outs == init + [last];
      forall n | n in WroteAll(outs)
        ensures exists o :: o in outs && o.path == n && WroteAll(outs)[n] == Raw(o.data)
      {
        if n == last.path {
          assert last in outs;
        } else {
          assert n in WroteAll(init) && WroteAll(outs)[n] == WroteAll(init)[n];
          var o :| o in init && o.path == n && WroteAll(init)[n] == Raw(o.data);
          assert o in outs;
        }
      }
    }
  }

  lemma RecordHolds(c: Request)
    ensures var files := RecordFor(c).files;
      && DONE in files && files[DONE] == DoneText(c.number)
      && forall n | n in files && n !in {DONE, STATUS} ::
        exists o :: o in c.outs && o.path == n && files[n] == Raw(o.data)
  {
    hide WroteAll, StatusOf;
    WroteFrom(c.outs);
  }

  /** ... and when all of `status.json` is true of the files there. */
  lemma CommittedMetadata(d: Dir, c: Request, ls: Lister)
    requires Standing(d) && Lists(ls) && CommitPlan(d, c, ls).0.Committed? && DistinctNames(c.outs)
    ensures Runs(d, CommitPlan(d, c, ls).1)
    ensures var log := LogOf(Exec(d, CommitPlan(d, c, ls).1));
      && c.job in log && "status.json" in log[c.job].files && Describes(log[c.job].files["status.json"], c)
      && ((forall m | m in log[c.job].files["status.json"].outputs :: Agrees(log[c.job].files, m))
          <==> (forall i | 0 <= i < |c.outs| :: !Clobbered(c.outs, i)))
  {
    hide Standing, Runs, Exec, LogOf, RecordFor, InResults, BumpOps, StatusOf;
    CommitStands(d, c, ls);
    RecordMetadata(c);
    StatusIsThere(c);
    StatusDescribes(c);
  }

  lemma RecordMetadata(c: Request)
    requires (forall o | o in c.outs :: ValidOutputName(o.path)) && DistinctNames(c.outs)
    ensures var files := RecordFor(c).files;
      && STATUS in files && files[STATUS].StatusText?
      && ((forall m | m in files[STATUS].outputs :: Agrees(files, m))
          <==> (forall i | 0 <= i < |c.outs| :: !Clobbered(c.outs, i)))
  {
    hide RecordFor, Agrees, Clobbered;
    StatusIsThere(c);
    AllAgree(c);
    assert forall i | 0 <= i < |c.outs| :: Metas(c.outs)[i] in Metas(c.outs);
  }

  /** The reserved names do not cover this: an output called `a.tmp` is gone once
      `a` has been written after it ... */
  lemma TmpOutputVanishes(c: Request, x: Bytes, y: Bytes)
    requires c.outs == [Output("a.tmp", x), Output("a", y)]
    ensures (forall o | o in c.outs :: ValidOutputName(o.path)) && DistinctNames(c.outs)
    ensures !Agrees(RecordFor(c).files, Metas(c.outs)[0]) && Agrees(RecordFor(c).files, Metas(c.outs)[1])
  {
    assert c.outs[1].path + TMP == c.outs[0].path;
    assert STATUS + TMP == "status.json.tmp" && DONE + TMP == "DONE.tmp";
    hide RecordFor, Agrees;
    EntryAgrees(c, 0);
    EntryAgrees(c, 1);
    assert Survives(c.outs, "a", 1);
  }

  /** ... and one called `status.json.tmp` always. */
  lemma StatusTmpVanishes(c: Request, x: Bytes)
    requires c.outs == [Output("status.json.tmp", x)]
    ensures ValidOutputName("status.json.tmp") && !Agrees(RecordFor(c).files, Metas(c.outs)[0])
  {
    assert STATUS + TMP == "status.json.tmp";
    EntryAgrees(c, 0);
  }
}
