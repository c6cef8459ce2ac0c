/** What can be read at each single point of an undisturbed `commit()`, and what
    of it a power cut at that point can take back. */
module Moments {
  import opened Basics
  import opened Storage
  import opened JobDir
  import opened ResultsDir
  import opened CommitLog
  import opened Box

  /** Everything but the last call. */
  function AllButLast(ops: seq<Op>): seq<Op> {
    if ops == [] then [] else ops[..|ops| - 1]
  }

  lemma OthersShow(p: Dir, job: Name, jd: Dir, j: Name)
    requires EntriesOk(View(p), |p.nodes|) && HasFolder(p, job) && j != job
    ensures var e := WithSub(p, job, jd);
      && View(e) == View(p) && DoneIn(e, j) == DoneIn(p, j)
      && (DoneIn(p, j) ==> RecordIn(e, j) == RecordIn(p, j))
  {
    var e := WithSub(p, job, jd);
    assert View(e) == View(p);
    hide View, FilesOf, Done;
    if Has(p, j) {
      assert At(e, j) == At(p, j);
    }
  }

  lemma InLog(res: Dir, j: Name)
    ensures j in LogIn(res) <==> DoneIn(res, j)
    ensures DoneIn(res, j) ==> LogIn(res)[j] == RecordIn(res, j)
  {
    hide FilesOf, Done;
  }

  /** An uncommitted folder of the results directory gains a valid marker. */
  lemma ShownIn(p: Dir, job: Name, r: Record, jd: Dir)
    requires EntriesOk(View(p), |p.nodes|) && HasFolder(p, job) && !DoneIn(p, job) && Shows(jd, r)
    ensures LogIn(WithSub(p, job, jd)) == LogIn(p)[job := r]
  {
    var e := WithSub(p, job, jd);
    hide EntriesOk, View, Shows, DoneIn, RecordIn, LogIn, WithSub, HasFolder;
    forall j
      ensures j in LogIn(e) <==> j in LogIn(p) || j == job
      ensures j in LogIn(e) ==> LogIn(e)[j] == if j == job then r else LogIn(p)[j]
    {
      ShownEntry(p, job, r, jd, j);
    }
  }

  lemma ShownEntry(p: Dir, job: Name, r: Record, jd: Dir, j: Name)
    requires EntriesOk(View(p), |p.nodes|) && HasFolder(p, job) && !DoneIn(p, job) && Shows(jd, r)
    ensures var e := WithSub(p, job, jd);
      && (j in LogIn(e) <==> j in LogIn(p) || j == job)
      && (j in LogIn(e) ==> LogIn(e)[j] == if j == job then r else LogIn(p)[j])
  {
    var e := WithSub(p, job, jd);
    InLog(e, j);
    InLog(p, j);
    if j == job {
      assert View(e) == View(p);
      hide View, LogIn;
      assert DoneIn(e, job) && RecordIn(e, job) == r;
    } else {
      OthersShow(p, job, jd, j);
    }
  }

  /** The `DONE` rename is still waiting in the job directory. */
  lemma MarkerWaits(c: Request) returns (jd: Dir)
    requires GoodPrefix(c.outs) == c.outs
    ensures var ops := JobOps(c.job, c.number, c.outs, c.fields);
      && |ops| > 0 && Runs(EMPTY, AllButLast(ops)) && jd == Exec(EMPTY, AllButLast(ops))
      && Landing(jd, RecordFor(c)) && jd.pending != [] && Wf(jd)
  {
    var ops := JobOps(c.job, c.number, c.outs, c.fields);
    JobRuns(c.job, c.number, c.outs, c.fields, |ops| - 1);
    jd := Exec(EMPTY, AllButLast(ops));
    var a, b := BodyOps(c.job, c.number, c.outs, c.fields), AtomicWrite(DONE, DoneText(c.number));
    assert ops == (a + b) + [Op([], FsyncDir)];
    hide Wf, Landing, NoDone, AllSynced, FilesOf, Runs, Exec, BodyOps;
    var d1 := BodyRuns(c.job, c.number, c.outs, c.fields, 0);
    var f := AtomicWriteRuns(d1, DONE, DoneText(c.number)) by { SyncedAreFiles(d1); }
    ExecConcat(EMPTY, a, b);
    assert jd == f;
  }

  lemma SyncedAreFiles(d: Dir)
    requires AllSynced(d)
    ensures forall n | n in View(d) :: HasFile(d, n)
  {
  }

  lemma WhenCommitted(d: Dir, c: Request, ls: Lister)
    requires Standing(d) && CommitPlan(d, c, ls).0.Committed?
    ensures var log := LogOf(d);
      && HasFolder(d, RESULTS) && Safe(d, log, log) && Wf(d) && Tidy(d) && ReadConsumed(d) <= log.Keys
      && SeqReadable(d) && NotAhead(ReadSeq(d), log)
      && ValidJobId(c.job) && GoodPrefix(c.outs) == c.outs
      && (c.job in View(Sub(d, RESULTS)) ==> HasFolder(Sub(d, RESULTS), c.job) && !DoneIn(Sub(d, RESULTS), c.job))
      && LogAfter(d, c, ls) == log[c.job := RecordFor(c)]
      && CommitPlan(d, c, ls).1 == ResultOps(d, c, ls) + BumpOps(Max(ReadSeq(d), c.number), c.job)
  {
    StandingReads(d);
    hide Wf, RootOk, JobsOk, InResults, BumpOps, Tidy;
    NotLinkedAway(d, LogOf(d), LogOf(d), c, ls);
  }

  /** Steps 0 to 3, after `k` calls: the caches have not moved ... */
  lemma BodyCaches(d: Dir, c: Request, ls: Lister, k: nat)
    requires Standing(d) && Lists(ls) && CommitPlan(d, c, ls).0.Committed? && k <= |ResultOps(d, c, ls)|
    ensures Runs(d, ResultOps(d, c, ls)[..k]) && SeqReadable(d) && Tidy(Exec(d, ResultOps(d, c, ls)[..k]))
    ensures CachesSay(Exec(d, ResultOps(d, c, ls)[..k]), ReadSeq(d), ReadConsumed(d))
  {
    WhenCommitted(d, c, ls);
    hide Standing, Safe, CommitPlan, LogAfter, CachesSay, Runs, Exec, LogOf, WithSub, GoodPrefix, NotAhead, View,
      DoneIn, RecordFor, ReadSeq, SeqReadable, ReadConsumed, Tidy, ResultOps, InResults, JobOps;
    JobPart(d, LogOf(d), LogOf(d), c, ls, k);
    var r :| Exec(d, ResultOps(d, c, ls)[..k]) == WithSub(d, RESULTS, r);
    CachesUnmoved(d, r, LogOf(d), LogOf(d));
  }

  /** ... and the log switches with the `DONE` rename. */
  lemma BodyLog(d: Dir, c: Request, ls: Lister, k: nat)
    requires Standing(d) && Lists(ls) && CommitPlan(d, c, ls).0.Committed? && k <= |ResultOps(d, c, ls)|
    ensures |ResultOps(d, c, ls)| > 0 && Runs(d, ResultOps(d, c, ls)[..k]) && c.job !in LogOf(d)
    ensures LogOf(Exec(d, ResultOps(d, c, ls)[..k]))
      == (if k < |ResultOps(d, c, ls)| - 1 then LogOf(d) else LogAfter(d, c, ls))
  {
    hide Standing, Safe, CommitPlan, LogAfter, Runs, Exec, LogOf, LandingIn, Placed, ResultOps;
    SafeBody(d, c, ls, k);
    var p, jd := LandingMoment(d, c, ls);
    var e := Exec(d, ResultOps(d, c, ls)[..k]);
    if k < |ResultOps(d, c, ls)| - 1 {
      SafeShowsLog(e, LogOf(d));
    } else if k == |ResultOps(d, c, ls)| {
      SafeShowsLog(e, LogAfter(d, c, ls));
    }
  }

  lemma SafeBody(d: Dir, c: Request, ls: Lister, k: nat)
    requires Standing(d) && Lists(ls) && CommitPlan(d, c, ls).0.Committed? && k <= |ResultOps(d, c, ls)|
    ensures Runs(d, ResultOps(d, c, ls)[..k]) && c.job !in LogOf(d)
    ensures k < |ResultOps(d, c, ls)| - 1 ==> Safe(Exec(d, ResultOps(d, c, ls)[..k]), LogOf(d), LogOf(d))
    ensures k == |ResultOps(d, c, ls)| ==>
      Safe(Exec(d, ResultOps(d, c, ls)[..k]), LogAfter(d, c, ls), LogAfter(d, c, ls))
  {
    WhenCommitted(d, c, ls);
    hide Standing, Safe, CommitPlan, LogAfter, CachesSay, Runs, Exec, LogOf, WithSub, GoodPrefix, NotAhead, View,
      DoneIn, RecordFor, ReadSeq, SeqReadable, ReadConsumed, Tidy, InResults, JobOps;
    JobPart(d, LogOf(d), LogOf(d), c, ls, k);
  }

  /** Exactly one call short of durable. */
  lemma LandingMoment(d: Dir, c: Request, ls: Lister) returns (p: Dir, jd: Dir)
    requires Standing(d) && Lists(ls) && CommitPlan(d, c, ls).0.Committed?
    ensures |ResultOps(d, c, ls)| > 0 && Runs(d, AllButLast(ResultOps(d, c, ls)))
    ensures Exec(d, AllButLast(ResultOps(d, c, ls))) == Placed(d, p, c.job, jd)
    ensures LandingIn(d, p, c.job, jd, RecordFor(c), LogOf(d))
    ensures LogOf(Placed(d, p, c.job, jd)) == LogAfter(d, c, ls)
  {
    hide Standing, Safe, CommitPlan, LogAfter, CachesSay, Runs, Exec, LogOf, WithSub, GoodPrefix, NotAhead, View,
      DoneIn, RecordFor, ReadSeq, SeqReadable, ReadConsumed, Tidy, InResults, JobOps, Placed, LandingIn, BumpOps,
      Landing, Wf, JobsOk;
    WhenCommitted(d, c, ls);
    jd := MarkerWaits(c);
    RunsAll(c);
    p := PrepareMoment(d, c, ls, JobOps(c.job, c.number, c.outs, c.fields), jd, LogOf(d));
    LandingShows(d, p, c.job, RecordFor(c), jd, LogOf(d));
  }

  /** The state directory with the results directory `p` and its job directory in place. */
  ghost function Placed(d: Dir, p: Dir, job: Name, jd: Dir): Dir {
    if HasFolder(d, RESULTS) && HasFolder(p, job) then WithSub(d, RESULTS, WithSub(p, job, jd)) else d
  }

  ghost predicate LandingIn(d: Dir, p: Dir, job: Name, jd: Dir, r: Record, log: Log) {
    && HasFolder(d, RESULTS) && HasFolder(p, job) && p.pending == [] && Wf(p) && JobsOk(p, log, log)
    && !DoneIn(p, job) && Landing(jd, r) && jd.pending != []
  }

  lemma PrepareMoment(d: Dir, c: Request, ls: Lister, inner: seq<Op>, jd: Dir, log: Log) returns (p: Dir)
    requires Safe(d, log, log) && Lists(ls) && Runs(EMPTY, inner) && |inner| > 0
    requires c.job in View(Sub(d, RESULTS)) ==> HasFolder(Sub(d, RESULTS), c.job) && !DoneIn(Sub(d, RESULTS), c.job)
    requires Runs(EMPTY, AllButLast(inner)) && jd == Exec(EMPTY, AllButLast(inner))
    ensures HasFolder(d, RESULTS) && Wf(p) && p.pending == []
    ensures HasFolder(p, c.job) && !DoneIn(p, c.job) && JobsOk(p, log, log)
    ensures |InResults(d, c.job, ls, inner)| > 0
    ensures Runs(d, AllButLast(InResults(d, c.job, ls, inner)))
    ensures Exec(d, AllButLast(InResults(d, c.job, ls, inner))) == Placed(d, p, c.job, jd)
  {
    assert HasFolder(d, RESULTS);
    assert !Done(EMPTY);
    hide Safe, Wf, JobsOk, PrepareOps, InResults, Runs, Exec, View, WithSub, Done;
    InResultsLength(d, c.job, ls, inner);
    var ops, k := InResults(d, c.job, ls, inner), |PrepareOps(Sub(d, RESULTS), c.job, ls)| + |inner| - 1;
    assert AllButLast(ops) == ops[..k] && AllButLast(inner) == inner[..|inner| - 1];
    hide AllButLast;
    p := InResultsRuns(d, log, log, c.job, ls, inner, k);
    hide HasFolder;
  }

  lemma LandingShows(d: Dir, p: Dir, job: Name, r: Record, jd: Dir, log: Log)
    requires HasFolder(d, RESULTS) && Wf(p) && p.pending == [] && JobsOk(p, log, log)
    requires HasFolder(p, job) && !DoneIn(p, job) && Landing(jd, r) && jd.pending != []
    ensures LandingIn(d, p, job, jd, r, log)
    ensures LogOf(Placed(d, p, job, jd)) == log[job := r]
  {
    WfView(p);
    SettledShowsLog(p, log);
    hide Wf, JobsOk, LogOf, LogIn, WithSub;
    ShownIn(p, job, r, jd);
    ShowsBelow(d, WithSub(p, job, jd));
  }

  lemma RunsAll(c: Request)
    requires GoodPrefix(c.outs) == c.outs
    ensures Runs(EMPTY, JobOps(c.job, c.number, c.outs, c.fields))
  {
    JobRuns(c.job, c.number, c.outs, c.fields, 0);
  }

  lemma ShowsBelow(d: Dir, r: Dir)
    requires HasFolder(d, RESULTS)
    ensures LogOf(WithSub(d, RESULTS, r)) == LogIn(r)
  {
    assert View(WithSub(d, RESULTS, r)) == View(d);
  }

  /** At every moment of a commit what is read is one of the two logs, the switch
      being the `DONE` rename; the seq file follows with the fourth call of step 4
      and the job id with the sixth, so neither cache is ever ahead; and at every
      moment but one the next job could be taken. */
  lemma EveryMoment(d: Dir, c: Request, ls: Lister, k: nat)
    requires Standing(d) && Lists(ls) && CommitPlan(d, c, ls).0.Committed? && k <= |CommitPlan(d, c, ls).1|
    ensures SeqReadable(d) && Runs(d, CommitPlan(d, c, ls).1[..k])
    ensures var e := Exec(d, CommitPlan(d, c, ls).1[..k]); var n := |ResultOps(d, c, ls)|;
      && LogOf(e) == (if k < n - 1 then LogOf(d) else LogAfter(d, c, ls))
      && (k != n - 1 ==> Standing(e))
      && CachesSay(e, if k < n + 4 then ReadSeq(d) else Max(ReadSeq(d), c.number),
                   ReadConsumed(d) + (if k < n + 6 then {} else {c.job}))
      && NotAhead(ReadSeq(e), LogOf(e)) && ReadConsumed(e) <= LogOf(e).Keys
  {
    WhenCommitted(d, c, ls);
    hide Safe, Standing, CommitPlan, InResults, BumpOps, Runs, Exec, LogOf, RecordFor, GoodPrefix, View, DoneIn, Tidy,
      ResultOps, SeqReadable, ReadSeq, ReadConsumed, NotAhead, CachesSay, LogAfter;
    var body, ops := ResultOps(d, c, ls), CommitPlan(d, c, ls).1;
    if k < |body| {
      EarlyMoment(d, c, ls, k);
      assert ops[..k] == body[..k];
      assert ReadConsumed(d) + {} == ReadConsumed(d);
    } else {
      LateMoment(d, c, ls, k);
    }
  }

  lemma EarlyMoment(d: Dir, c: Request, ls: Lister, k: nat)
    requires Standing(d) && Lists(ls) && CommitPlan(d, c, ls).0.Committed? && k < |ResultOps(d, c, ls)|
    ensures SeqReadable(d) && Runs(d, ResultOps(d, c, ls)[..k])
    ensures var e := Exec(d, ResultOps(d, c, ls)[..k]); var n := |ResultOps(d, c, ls)|;
      && LogOf(e) == (if k < n - 1 then LogOf(d) else LogAfter(d, c, ls))
      && (k < n - 1 ==> Standing(e)) && CachesSay(e, ReadSeq(d), ReadConsumed(d))
      && NotAhead(ReadSeq(e), LogOf(e)) && ReadConsumed(e) <= LogOf(e).Keys
  {
    WhenCommitted(d, c, ls);
    hide Safe, Standing, CommitPlan, InResults, Runs, Exec, LogOf, RecordFor, GoodPrefix, View, DoneIn, Tidy,
      ResultOps, SeqReadable, ReadSeq, ReadConsumed, NotAhead, LogAfter, CachesSay;
    BodyCaches(d, c, ls, k);
    BodyLog(d, c, ls, k);
    SafeBody(d, c, ls, k);
    var e, log := Exec(d, ResultOps(d, c, ls)[..k]), LogOf(d);
    CachesMean(e, ReadSeq(d), ReadConsumed(d));
    InsertGrows(log, c.job, RecordFor(c));
    NotAheadGrows(ReadSeq(d), log, LogOf(e));
    if k < |ResultOps(d, c, ls)| - 1 { StandingFrom(e, log); }
  }

  lemma LateMoment(d: Dir, c: Request, ls: Lister, k: nat)
    requires Standing(d) && Lists(ls) && CommitPlan(d, c, ls).0.Committed?
    requires |ResultOps(d, c, ls)| <= k <= |CommitPlan(d, c, ls).1|
    ensures SeqReadable(d) && Runs(d, CommitPlan(d, c, ls).1[..k])
    ensures var g := Exec(d, CommitPlan(d, c, ls).1[..k]); var n := |ResultOps(d, c, ls)|;
      && LogOf(g) == LogAfter(d, c, ls) && Standing(g)
      && CachesSay(g, if k < n + 4 then ReadSeq(d) else Max(ReadSeq(d), c.number),
                   ReadConsumed(d) + (if k < n + 6 then {} else {c.job}))
      && NotAhead(ReadSeq(g), LogOf(g)) && ReadConsumed(g) <= LogOf(g).Keys
  {
    WhenCommitted(d, c, ls);
    var body, value, next := ResultOps(d, c, ls), Max(ReadSeq(d), c.number), LogAfter(d, c, ls);
    hide Safe, Standing, CommitPlan, InResults, BumpOps, Runs, Exec, LogOf, RecordFor, GoodPrefix, View, DoneIn, Tidy,
      ResultOps, SeqReadable, ReadSeq, ReadConsumed, NotAhead, CachesSay, LogAfter;
    var e, f := CommittedEnds(d, c, ls);
    CachesMean(e, ReadSeq(d), ReadConsumed(d));
    BumpAt(e, next, next, value, c.job, k - |body|);
    ExecSplit(d, body, BumpOps(value, c.job), k);
    var g := Exec(d, CommitPlan(d, c, ls).1[..k]);
    var ids := ReadConsumed(d) + (if k < |body| + 6 then {} else {c.job});
    CachesMean(g, if k < |body| + 4 then ReadSeq(d) else value, ids);
    assert ids <= next.Keys;
    StandingFrom(g, next);
    StandingReads(g);
  }

  // ------------------------------------------------------------- what a power cut can take back

  /** While the job is landing, the cut alone decides: all of the job directory's
      waiting entry operations, or none of the job. */
  lemma CutLanding(d: Dir, p: Dir, job: Name, jd: Dir, r: Record, log: Log, w: World)
    requires LandingIn(d, p, job, jd, r, log) && Wf(d)
    requires Safe(Placed(d, p, job, jd), log, log[job := r]) && job !in log
    ensures LogOf(Crash(Placed(d, p, job, jd), w, []))
      == if Kept(jd, [View(d)[RESULTS], View(p)[job]], w) == |jd.pending| then log[job := r] else log
  {
    var e, res := Placed(d, p, job, jd), WithSub(p, job, jd);
    var c := Crash(e, w, []);
    assert View(e) == View(d) && View(res) == View(p);
    assert RESULTS in View(e) && View(e)[RESULTS] < |e.nodes|;
    assert Sub(e, RESULTS) == res && Sub(res, job) == jd;
    hide Landing, Wf, Safe, JobsOk, View, Crash, LogOf;
    CrashIsSafe(e, log, log[job := r], w);
    OneMore(log, log[job := r], LogOf(c), job);
    CutResults(e, res, log, log[job := r], w);
    CutJob(res, job, jd, r, w, View(d)[RESULTS]);
    InLog(Sub(c, RESULTS), job);
    ShowsResults(c);
  }

  lemma ShowsResults(d: Dir)
    requires HasFolder(d, RESULTS)
    ensures LogOf(d) == LogIn(Sub(d, RESULTS))
  {
  }

  lemma CutResults(e: Dir, res: Dir, log: Log, next: Log, w: World)
    requires Safe(e, log, next) && HasFolder(e, RESULTS) && Sub(e, RESULTS) == res
    ensures var c := Crash(e, w, []); HasFolder(c, RESULTS) && Sub(c, RESULTS) == Crash(res, w, [View(e)[RESULTS]])
  {
    hide Wf, RootOk, JobsOk, Crash;
    RootSurvives(e, log, w);
  }

  lemma CutJob(res: Dir, job: Name, jd: Dir, r: Record, w: World, i: nat)
    requires HasFolder(res, job) && Sub(res, job) == jd && res.pending == [] && Landing(jd, r)
    ensures DoneIn(Crash(res, w, [i]), job) == (Kept(jd, [i, View(res)[job]], w) == |jd.pending|)
  {
    var c, j := Crash(res, w, [i]), View(res)[job];
    assert After(res, 0) == View(res) && View(c) == View(res);
    CrashedEntry(res, w, [i], job);
    assert [i] + [j] == [i, j];
    assert Sub(c, job) == Crash(jd, w, [i, j]);
    LandingSurvives(jd, r, w, [i, j]);
    hide Landing, Crash;
    if Kept(jd, [i, j], w) != |jd.pending| {
      CleanIsNotDone(Sub(c, job));
    }
  }

  /** The commit point, exactly: before the `DONE` rename every power cut leaves
      the old log; from the directory fsync on every power cut leaves the new one;
      at the one moment between, both can happen. */
  lemma CommitPoint(d: Dir, c: Request, ls: Lister, k: nat)
    requires Standing(d) && Lists(ls) && CommitPlan(d, c, ls).0.Committed? && k <= |CommitPlan(d, c, ls).1|
    ensures var ops := CommitPlan(d, c, ls).1; var n := |ResultOps(d, c, ls)|;
      && Runs(d, ops[..k])
      && var e := Exec(d, ops[..k]);
      && LogOf(d) != LogAfter(d, c, ls)
      && (k < n - 1 <==> Firm(e, LogOf(d)))
      && (k >= n <==> Firm(e, LogAfter(d, c, ls)))
  {
    hide Standing, CommitPlan, LogAfter, Runs, Exec, Crash, ResultOps, LogOf, Safe;
    var log, next := LogOf(d), LogAfter(d, c, ls);
    var ops, n := CommitPlan(d, c, ls).1, |ResultOps(d, c, ls)|;
    LogsDiffer(d, c, ls);
    EveryMoment(d, c, ls, k);
    if k == n - 1 {
      var kept := EitherWay(d, c, ls);
      assert ops[..k] == AllButLast(ResultOps(d, c, ls)) by { BodyFirst(d, c, ls); }
      CutsDiffer(Exec(d, ops[..k]), log, next, kept);
    } else {
      CutsAgree(Exec(d, ops[..k]), log, next);
    }
  }

  /** Every power cut leaves `log`. */
  ghost predicate Firm(e: Dir, log: Log) {
    forall w :: LogOf(Crash(e, w, [])) == log
  }

  lemma CutsAgree(e: Dir, log: Log, next: Log)
    requires Standing(e) && LogOf(e) in {log, next} && log != next
    ensures Firm(e, log) <==> LogOf(e) == log
    ensures Firm(e, next) <==> LogOf(e) == next
  {
    hide Standing, Crash, LogOf;
    StandingCuts(e);
    assert LogOf(Crash(e, ALL_LOST, [])) == LogOf(e);
  }

  lemma CutsDiffer(e: Dir, log: Log, next: Log, kept: World)
    requires LogOf(Crash(e, ALL_LOST, [])) == log && LogOf(Crash(e, kept, [])) == next && log != next
    ensures !Firm(e, log) && !Firm(e, next)
  {
    hide Crash, LogOf;
  }

  const ALL_LOST := World(at => 0, at => Raw([]))

  lemma LogsDiffer(d: Dir, c: Request, ls: Lister)
    requires Standing(d) && CommitPlan(d, c, ls).0.Committed? && Lists(ls)
    ensures c.job !in LogOf(d) && LogOf(d) != LogAfter(d, c, ls)
  {
    hide Standing, CommitPlan, LogOf, LogAfter;
    JobIsNew(d, c, ls);
  }

  lemma BodyFirst(d: Dir, c: Request, ls: Lister)
    requires CommitPlan(d, c, ls).0.Committed?
    ensures ResultOps(d, c, ls) <= CommitPlan(d, c, ls).1
    ensures SeqReadable(d)
    ensures |CommitPlan(d, c, ls).1| == |ResultOps(d, c, ls)| + 8
  {
    hide InResults;
  }

  lemma StandingCuts(e: Dir)
    requires Standing(e)
    ensures forall w :: LogOf(Crash(e, w, [])) == LogOf(e)
  {
    hide Safe, Crash, LogOf, Tidy;
    var log := LogOf(e);
    forall w
      ensures LogOf(Crash(e, w, [])) == log
    {
      CrashIsSafe(e, log, log, w);
      OneMore(log, log, LogOf(Crash(e, w, [])), "");
    }
  }

  lemma EitherWay(d: Dir, c: Request, ls: Lister) returns (kept: World)
    requires Standing(d) && Lists(ls) && CommitPlan(d, c, ls).0.Committed?
    ensures |ResultOps(d, c, ls)| > 0 && Runs(d, AllButLast(ResultOps(d, c, ls)))
    ensures LogOf(Crash(Exec(d, AllButLast(ResultOps(d, c, ls))), ALL_LOST, [])) == LogOf(d)
    ensures LogOf(Crash(Exec(d, AllButLast(ResultOps(d, c, ls))), kept, [])) == LogAfter(d, c, ls)
  {
    WhenCommitted(d, c, ls);
    hide Standing, CommitPlan, Runs, Exec, Safe, LogOf, LogAfter, ResultOps, Placed, Crash, Wf, RecordFor, LandingIn;
    JobIsNew(d, c, ls);
    var p, jd := LandingMoment(d, c, ls);
    LandingIsSafe(d, c, ls);
    hide AllButLast;
    kept := CutBothWays(d, p, c.job, jd, RecordFor(c), LogOf(d));
  }

  lemma CutBothWays(d: Dir, p: Dir, job: Name, jd: Dir, r: Record, log: Log) returns (kept: World)
    requires LandingIn(d, p, job, jd, r, log) && Wf(d)
    requires Safe(Placed(d, p, job, jd), log, log[job := r]) && job !in log
    ensures LogOf(Crash(Placed(d, p, job, jd), ALL_LOST, [])) == log
    ensures LogOf(Crash(Placed(d, p, job, jd), kept, [])) == log[job := r]
  {
    assert HasFolder(d, RESULTS) && HasFolder(p, job) && jd.pending != [];
    kept := World(at => |jd.pending|, at => Raw([]));
    hide Safe, Wf, Placed, LandingIn, Crash, LogOf;
    CutLanding(d, p, job, jd, r, log, ALL_LOST);
    CutLanding(d, p, job, jd, r, log, kept);
  }

  lemma LandingIsSafe(d: Dir, c: Request, ls: Lister)
    requires Standing(d) && Lists(ls) && CommitPlan(d, c, ls).0.Committed?
    ensures |ResultOps(d, c, ls)| > 0 && Runs(d, AllButLast(ResultOps(d, c, ls)))
    ensures Safe(Exec(d, AllButLast(ResultOps(d, c, ls))), LogOf(d), LogOf(d)[c.job := RecordFor(c)])
  {
    hide Standing, Safe, CommitPlan, LogAfter, CachesSay, Runs, Exec, LogOf, WithSub, GoodPrefix, NotAhead, View,
      DoneIn, RecordFor, ReadSeq, SeqReadable, ReadConsumed, Tidy, InResults, JobOps, ResultOps, BumpOps;
    WhenCommitted(d, c, ls);
    BodyLog(d, c, ls, 0);
    JobPart(d, LogOf(d), LogOf(d), c, ls, |ResultOps(d, c, ls)| - 1);
  }

  // ------------------------------------------------------------- a process that dies while the power stays on

  /** Replays are answered from the log. */
  lemma CachedIsLog(d: Dir, job: Name)
    requires ValidJobId(job)
    ensures CachedResult(d, job) == if job in LogOf(d) then Cached(LogOf(d)[job].files) else NotCached
  {
    InLog(ResultsOf(d), job);
  }

  /** One call short of durable, `cached_result` already answers, and a later
      power cut can still take the answer back. */
  lemma AnsweredTooSoon(d: Dir, c: Request, ls: Lister) returns (e: Dir)
    requires Standing(d) && Lists(ls) && CommitPlan(d, c, ls).0.Committed?
    ensures |ResultOps(d, c, ls)| > 0
    ensures Runs(d, AllButLast(ResultOps(d, c, ls))) && e == Exec(d, AllButLast(ResultOps(d, c, ls)))
    ensures CachedResult(e, c.job) == Cached(RecordFor(c).files)
    ensures CachedResult(Crash(e, ALL_LOST, []), c.job) == NotCached
  {
    hide Standing, Runs, Exec, Safe, LogOf, ResultOps, Crash, RecordFor, CachedResult;
    JobIsNew(d, c, ls);
    hide CommitPlan, LogAfter, ValidJobId;
    var _ := EitherWay(d, c, ls);
    BodyLog(d, c, ls, |ResultOps(d, c, ls)| - 1);
    e := Exec(d, AllButLast(ResultOps(d, c, ls)));
    CachedIsLog(e, c.job);
    CachedIsLog(Crash(e, ALL_LOST, []), c.job);
  }

  lemma JobIsNew(d: Dir, c: Request, ls: Lister)
    requires Standing(d) && Lists(ls) && CommitPlan(d, c, ls).0.Committed?
    ensures ValidJobId(c.job) && c.job !in LogOf(d) && |ResultOps(d, c, ls)| > 0
    ensures LogAfter(d, c, ls) == LogOf(d)[c.job := RecordFor(c)]
  {
    WhenCommitted(d, c, ls);
    hide Standing, CommitPlan, LogOf, LogAfter, Safe, RecordFor, ResultOps;
    BodyLog(d, c, ls, 0);
  }

  /** A process killed between the marker and the caches, with no reboot: the job
      is committed, `check` still calls a newer number of it fresh, a retry of
      `commit` does nothing, so the caches stay behind, until the next power cut
      and boot. */
  lemma KilledBeforeBump(d: Dir, c: Request, ls: Lister, retry: Request, a: Ask, w: World) returns (e: Dir)
    requires Standing(d) && Lists(ls) && CommitPlan(d, c, ls).0.Committed?
    requires retry.job == c.job && a.request.job == c.job
    ensures Runs(d, ResultOps(d, c, ls)) && e == Exec(d, ResultOps(d, c, ls))
    ensures c.job in LogOf(e) && CommitPlan(e, retry, ls) == (AlreadyCommitted, [])
    ensures SeqReadable(d) && CachesSay(e, ReadSeq(d), ReadConsumed(d))
    ensures a.box == BOX_NAME && ClockSane(a.year) ==>
      Check(e, a) == (if a.request.number <= ReadSeq(d) then StaleSeq else Fresh)
    ensures var f := Boot(Crash(e, w, []), [], ls); AtRest(f) && LogOf(f) == LogAfter(d, c, ls)
  {
    hide AtRest, Standing, Runs, Exec, Safe, LogOf, ResultOps, Crash, RecordFor, GoodPrefix, Boot, LogAfter, CommitPlan,
      BumpOps, InResults, NotAhead, Tidy, ReadSeq, ReadConsumed, SeqReadable, CachesSay, Check;
    WhenCommitted(d, c, ls);
    JobIsNew(d, c, ls);
    BodyFirst(d, c, ls);
    EveryMoment(d, c, ls, |ResultOps(d, c, ls)|);
    e := Exec(d, ResultOps(d, c, ls));
    assert CommitPlan(d, c, ls).1[..|ResultOps(d, c, ls)|] == ResultOps(d, c, ls);
    assert ReadConsumed(d) + {} == ReadConsumed(d);
    CachesMean(e, ReadSeq(d), ReadConsumed(d));
    CutThenBoots(e, w, [], ls);
    RetryDoesNothing(e, retry, ls);
    StaleCheck(e, a);
  }

  lemma RetryDoesNothing(e: Dir, retry: Request, ls: Lister)
    requires retry.job in LogOf(e) && ValidJobId(retry.job)
    ensures CommitPlan(e, retry, ls) == (AlreadyCommitted, [])
  {
    LogIsIn(e);
    InLog(ResultsOf(e), retry.job);
    hide LogOf, LogIn, Done, InResults;
  }

  lemma StaleCheck(e: Dir, a: Ask)
    requires SeqReadable(e) && a.request.job !in ReadConsumed(e)
    ensures a.box == BOX_NAME && ClockSane(a.year) ==>
      Check(e, a) == (if a.request.number <= ReadSeq(e) then StaleSeq else Fresh)
  {
    hide ReadSeq, ReadConsumed;
  }

  lemma LogIsIn(d: Dir)
    ensures LogOf(d) == LogIn(ResultsOf(d))
  {
    assert View(EMPTY) == map[];
  }
}
