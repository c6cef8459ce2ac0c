/** Whole runs of the box: which histories keep put-if-absent, byte identity and
    number order when processes are killed and the power fails anywhere. */
module Histories {
  import opened Basics
  import opened Storage
  import opened JobDir
  import opened ResultsDir
  import opened CommitLog
  import opened Box
  import opened Moments

  // ------------------------------------------------------------- the two awkward moments

  /** The job is called fresh and nothing will stop its commit but a failure. */
  ghost predicate Commits(d: Dir, a: Ask, ls: Lister) {
    Check(d, a).Fresh? && CommitPlan(d, a.request, ls).0.Committed?
  }

  /** The process dies with the marker in place and its directory not fsync'd. */
  ghost predicate Lands(d: Dir, e: Event) {
    e.JobKilled? && Commits(d, e.ask, e.ls) && e.after == |ResultOps(d, e.ask.request, e.ls)| - 1
  }

  /** The process dies with the job committed and the seq file not replaced. */
  ghost predicate Lags(d: Dir, e: Event) {
    e.JobKilled? && Commits(d, e.ask, e.ls)
    && |ResultOps(d, e.ask.request, e.ls)| <= e.after < |ResultOps(d, e.ask.request, e.ls)| + 4
  }

  /** The job is committed and the seq file replaced. */
  ghost predicate Completes(d: Dir, e: Event) {
    || (e.Job? && Commits(d, e.ask, e.ls))
    || (e.JobKilled? && Commits(d, e.ask, e.ls) && e.after >= |ResultOps(d, e.ask.request, e.ls)| + 4)
  }

  /** ... under a number that no committed job exceeds. */
  ghost predicate CatchesUp(d: Dir, e: Event) {
    Completes(d, e) && forall j | j in LogOf(d) :: LogOf(d)[j].number <= e.ask.request.number
  }

  predicate PowerFails(e: Event) {
    e.JobCut? || e.IdleCut?
  }

  // ------------------------------------------------------------- one event

  /** Nothing, or the asked-for job is added, which is new. */
  ghost predicate PutIfAbsent(log: Log, e: Event, after: Log) {
    after == log
    || (!e.IdleCut? && var c := e.ask.request; c.job !in log && after == log[c.job := RecordFor(c)])
  }

  ghost predicate Above(log: Log, number: int) {
    forall j | j in log :: log[j].number < number
  }

  /** What an event that does not land does: put-if-absent; a seq file that had not
      fallen behind admits only higher numbers; afterwards it has not fallen behind
      exactly when the power failed, the job caught up, or it had not before and
      the event does not lag. */
  ghost predicate Keeps(d: Dir, e: Event, f: Dir) {
    && Standing(f) && PutIfAbsent(LogOf(d), e, LogOf(f))
    && (PowerFails(e) ==> AtRest(f))
    && (LogOf(f) != LogOf(d) ==> Check(d, e.ask).Fresh?)
    && (Current(d) && LogOf(f) != LogOf(d) ==> Above(LogOf(d), e.ask.request.number))
    && (Current(f) <==> PowerFails(e) || CatchesUp(d, e) || (Current(d) && !Lags(d, e)))
  }

  lemma FreshIsAbove(d: Dir, a: Ask)
    requires Current(d) && Check(d, a).Fresh?
    ensures Above(LogOf(d), a.request.number)
  {
    hide LogOf, ReadSeq, ReadConsumed;
  }

  lemma SameIsCurrent(d: Dir, f: Dir)
    requires SeqReadable(d) && LogOf(f) == LogOf(d) && CachesSay(f, ReadSeq(d), ReadConsumed(d))
    ensures Current(f) <==> Current(d)
  {
    hide LogOf, ReadSeq, ReadConsumed, SeqReadable;
  }

  lemma AddedIsCurrent(d: Dir, a: Ask, f: Dir, v: int, ids: set<Name>)
    requires SeqReadable(d) && Check(d, a).Fresh? && CachesSay(f, v, ids) && a.request.job !in LogOf(d)
    requires LogOf(f) == LogOf(d)[a.request.job := RecordFor(a.request)]
    ensures v == Max(ReadSeq(d), a.request.number) ==>
      (Current(f) <==> Current(d) || forall j | j in LogOf(d) :: LogOf(d)[j].number <= a.request.number)
    ensures v == ReadSeq(d) ==> !Current(f)
  {
    hide LogOf, ReadConsumed, SeqReadable;
    var log, next, job, n := LogOf(d), LogOf(f), a.request.job, a.request.number;
    assert job in next && next[job].number == n > ReadSeq(d);
    assert forall j | j in log :: j in next && next[j] == log[j];
    if v == Max(ReadSeq(d), n) && Current(f) && !Current(d) {
      var i :| i in log && log[i].number > ReadSeq(d);
      assert next[i].number <= v;
      forall j | j in log
        ensures log[j].number <= n
      {
        assert next[j].number <= v;
      }
    }
  }

  /** A killed job: the moments of its commit, or of a refused one, or nothing. */
  lemma KillKeeps(d: Dir, a: Ask, ls: Lister, after: nat)
    requires Standing(d) && Lists(ls) && !Lands(d, JobKilled(a, ls, after))
    ensures Keeps(d, JobKilled(a, ls, after), Step(d, JobKilled(a, ls, after)))
  {
    hide Standing, LogOf, CommitPlan, Check, ReadSeq, ReadConsumed, SeqReadable, Current, CachesSay, AtRest, Step,
      Commits, ResultOps;
    StandingReads(d);
    if Commits(d, a, ls) {
      KilledCommitKeeps(d, a, ls, after);
    } else {
      SameWhenIdle(d, a, ls, after);
      SameIsCurrent(d, Step(d, JobKilled(a, ls, after)));
    }
  }

  lemma SameWhenIdle(d: Dir, a: Ask, ls: Lister, after: nat)
    requires Standing(d) && Lists(ls) && !Commits(d, a, ls) && SeqReadable(d)
    ensures var f := Step(d, JobKilled(a, ls, after));
      Standing(f) && LogOf(f) == LogOf(d) && CachesSay(f, ReadSeq(d), ReadConsumed(d))
  {
    var ops := JobCalls(d, a, ls);
    assert Runs(d, []) && Exec(d, []) == d;
    hide Standing, LogOf, Runs, Exec, ReadSeq, ReadConsumed, SeqReadable, AtRest, LogAfter, InResults;
    if Check(d, a).Fresh? && ops != [] {
      CommitStands(d, a.request, ls);
      hide Check, CommitPlan;
      RefusedAt(d, a.request, ls, if after <= |ops| then after else |ops|);
    }
  }

  lemma KilledCommitKeeps(d: Dir, a: Ask, ls: Lister, after: nat)
    requires Standing(d) && Lists(ls) && Commits(d, a, ls) && after != |ResultOps(d, a.request, ls)| - 1
    ensures Keeps(d, JobKilled(a, ls, after), Step(d, JobKilled(a, ls, after)))
  {
    hide Standing, LogOf, Runs, Exec, CommitPlan, Check, RecordFor, ReadSeq, ReadConsumed, SeqReadable, Current,
      CachesSay, AtRest, LogAfter, Max, ResultOps, Upto;
    var c, ops, n := a.request, CommitPlan(d, a.request, ls).1, |ResultOps(d, a.request, ls)|;
    var k := if after <= |ops| then after else |ops|;
    UptoIs(ops, after);
    JobIsNew(d, c, ls);
    EveryMoment(d, c, ls, k);
    BodyFirst(d, c, ls);
    var f := Exec(d, ops[..k]);
    assert f == Step(d, JobKilled(a, ls, after));
    if Current(d) { FreshIsAbove(d, a); }
    KilledIsCurrent(d, a, ls, after, k, f);
  }

  /** Where the seq file is once the process has died. */
  lemma KilledIsCurrent(d: Dir, a: Ask, ls: Lister, after: nat, k: nat, f: Dir)
    requires Commits(d, a, ls) && SeqReadable(d) && a.request.job !in LogOf(d)
    requires k == after || (k < after && k == |ResultOps(d, a.request, ls)| + 8)
    requires k != |ResultOps(d, a.request, ls)| - 1
    requires LogOf(f) == if k < |ResultOps(d, a.request, ls)| - 1 then LogOf(d)
                         else LogOf(d)[a.request.job := RecordFor(a.request)]
    requires var n := |ResultOps(d, a.request, ls)|;
      CachesSay(f, if k < n + 4 then ReadSeq(d) else Max(ReadSeq(d), a.request.number),
                ReadConsumed(d) + (if k < n + 6 then {} else {a.request.job}))
    ensures var e := JobKilled(a, ls, after);
      Current(f) <==> CatchesUp(d, e) || (Current(d) && !Lags(d, e))
  {
    hide LogOf, CommitPlan, Check, RecordFor, ReadSeq, ReadConsumed, SeqReadable, Current, CachesSay, Max, ResultOps;
    var n := |ResultOps(d, a.request, ls)|;
    if k < n - 1 {
      assert ReadConsumed(d) + {} == ReadConsumed(d);
      SameIsCurrent(d, f);
    } else {
      var ids := ReadConsumed(d) + (if k < n + 6 then {} else {a.request.job});
      AddedIsCurrent(d, a, f, if k < n + 4 then ReadSeq(d) else Max(ReadSeq(d), a.request.number), ids);
      if Current(d) { FreshIsAbove(d, a); }
    }
  }

  /** An undisturbed job is one killed after its last call. */
  lemma JobKeeps(d: Dir, a: Ask, ls: Lister)
    requires Standing(d) && Lists(ls)
    ensures Keeps(d, Job(a, ls), Step(d, Job(a, ls)))
  {
    hide Standing, LogOf, Runs, Exec, CommitPlan, Check, RecordFor, ReadSeq, ReadConsumed, SeqReadable, Current,
      CachesSay, AtRest, LogAfter, Max, ResultOps, JobCalls;
    var last := |JobCalls(d, a, ls)|;
    JobIsKill(d, a, ls);
    if Commits(d, a, ls) {
      assert last == |ResultOps(d, a.request, ls)| + 8 by { CommitCalls(d, a, ls); }
      KilledCommitKeeps(d, a, ls, last);
    } else {
      StandingReads(d);
      SameWhenIdle(d, a, ls, last);
      SameIsCurrent(d, Step(d, Job(a, ls)));
    }
  }

  lemma JobIsKill(d: Dir, a: Ask, ls: Lister)
    ensures Step(d, Job(a, ls)) == Step(d, JobKilled(a, ls, |JobCalls(d, a, ls)|))
  {
    hide JobCalls, Runs, Exec;
    assert JobCalls(d, a, ls)[..|JobCalls(d, a, ls)|] == JobCalls(d, a, ls);
  }

  lemma CommitCalls(d: Dir, a: Ask, ls: Lister)
    requires Commits(d, a, ls)
    ensures |JobCalls(d, a, ls)| == |ResultOps(d, a.request, ls)| + 8
  {
    BodyFirst(d, a.request, ls);
  }

  /** A power failure: wherever it falls, the boots end at rest. */
  lemma CutKeeps(d: Dir, a: Ask, cut: Cut, boots: seq<Cut>, last: Lister)
    requires Standing(d) && Lists(cut.ls) && BootsListed(boots, last)
    ensures Keeps(d, JobCut(a, cut, boots, last), Step(d, JobCut(a, cut, boots, last)))
  {
    var m := CutShort(d, JobCalls(d, a, cut.ls), cut);
    var f := Boot(m, boots, last);
    hide Standing, LogOf, Boot, RecordFor, JobCalls, CutShort, Safe, AtRest, Current, Check;
    JobCutSafe(d, a, cut);
    BootRestores(m, boots, last);
    RestStands(f);
    if Current(d) && LogOf(f) != LogOf(d) { FreshIsAbove(d, a); }
  }

  lemma JobCutSafe(d: Dir, a: Ask, cut: Cut)
    requires Standing(d) && Lists(cut.ls)
    ensures var m := CutShort(d, JobCalls(d, a, cut.ls), cut);
      && Safe(m, LogOf(m), LogOf(m)) && m.pending == []
      && PutIfAbsent(LogOf(d), JobCut(a, cut, [], cut.ls), LogOf(m))
      && (LogOf(m) != LogOf(d) ==> Check(d, a).Fresh?)
  {
    assert Runs(d, []) && Exec(d, []) == d;
    hide Safe, Runs, Exec, Crash, LogOf, CommitPlan, Tidy, ReadConsumed, RecordFor, Check;
    if Check(d, a).Fresh? {
      CommitCut(d, a.request, cut);
    } else {
      IdleCrash(d, cut.world);
    }
  }

  lemma CommitCut(d: Dir, c: Request, cut: Cut)
    requires Standing(d) && Lists(cut.ls)
    ensures var m := CutShort(d, CommitPlan(d, c, cut.ls).1, cut);
      && Safe(m, LogOf(m), LogOf(m)) && m.pending == []
      && (LogOf(m) == LogOf(d) || (c.job !in LogOf(d) && LogOf(m) == LogOf(d)[c.job := RecordFor(c)]))
  {
    var ops := CommitPlan(d, c, cut.ls).1;
    hide Standing, Safe, Runs, Exec, Crash, LogOf, LogAfter, CommitPlan, RecordFor, Upto;
    CommitStands(d, c, cut.ls);
    NothingAddedUnless(d, c, cut.ls);
    CommitCrash(d, c, cut.ls, if cut.after <= |ops| then cut.after else |ops|, cut.world);
    UptoIs(ops, cut.after);
  }

  lemma UptoIs(ops: seq<Op>, k: nat)
    ensures Upto(ops, k) == ops[..if k <= |ops| then k else |ops|]
  {
  }

  lemma NothingAddedUnless(d: Dir, c: Request, ls: Lister)
    ensures LogAfter(d, c, ls) != LogOf(d) ==> CommitPlan(d, c, ls).0.Committed?
  {
  }

  lemma IdleKeeps(d: Dir, w: World, boots: seq<Cut>, last: Lister)
    requires Standing(d) && BootsListed(boots, last)
    ensures Keeps(d, IdleCut(w, boots, last), Step(d, IdleCut(w, boots, last)))
  {
    hide Standing, LogOf, Boot, Crash, AtRest, Current;
    CutThenBoots(d, w, boots, last);
    RestStands(Boot(Crash(d, w, []), boots, last));
  }

  /** Every event that does not land its job. */
  lemma StepKeeps(d: Dir, e: Event)
    requires Standing(d) && Listed(e) && !Lands(d, e)
    ensures Keeps(d, e, Step(d, e))
  {
    hide Standing, Keeps, Step, Lands;
    match e {
      case Job(a, ls) => JobKeeps(d, a, ls);
      case JobKilled(a, ls, after) => KillKeeps(d, a, ls, after);
      case JobCut(a, cut, boots, last) => CutKeeps(d, a, cut, boots, last);
      case IdleCut(w, boots, last) => IdleKeeps(d, w, boots, last);
    }
  }

  /** A seq file that has fallen behind is caught up by a job that gets it replaced,
      exactly when no committed job has a higher number. */
  lemma CompletedCatchesUp(d: Dir, e: Event)
    requires Standing(d) && Listed(e) && !Current(d) && Completes(d, e)
    ensures Current(Step(d, e)) <==> forall j | j in LogOf(d) :: LogOf(d)[j].number <= e.ask.request.number
  {
    CompletesBeyond(d, e);
    hide Standing, Current, LogOf, Step, Lands, Completes, Lags, AtRest;
    StepKeeps(d, e);
  }

  lemma CompletesBeyond(d: Dir, e: Event)
    requires Completes(d, e)
    ensures !Lands(d, e) && !PowerFails(e)
  {
    hide Commits, ResultOps;
  }

  // ------------------------------------------------------------- the two conditions are exact

  /** A landing kill shows the new log, and two power cuts disagree about it. */
  lemma LandingIsUndecided(d: Dir, e: Event) returns (kept: World)
    requires Standing(d) && Listed(e) && Lands(d, e)
    ensures var f, log := Step(d, e), LogOf(d);
      && e.ask.request.job !in log && LogOf(f) == log[e.ask.request.job := RecordFor(e.ask.request)]
      && LogOf(Crash(f, kept, [])) == LogOf(f) && LogOf(Crash(f, ALL_LOST, [])) == log
  {
    hide Standing, Step, LogOf, Runs, Exec, CommitPlan, RecordFor, LogAfter, ResultOps, Crash, AllButLast, Check,
      Listed;
    var c, ls := e.ask.request, e.ls;
    LandingStep(d, e);
    JobIsNew(d, c, ls);
    BodyLog(d, c, ls, |ResultOps(d, c, ls)| - 1);
    kept := EitherWay(d, c, ls);
  }

  lemma LandingStep(d: Dir, e: Event)
    requires Standing(d) && Listed(e) && Lands(d, e)
    ensures Lists(e.ls) && CommitPlan(d, e.ask.request, e.ls).0.Committed?
    ensures var body := ResultOps(d, e.ask.request, e.ls);
      && |body| > 0 && AllButLast(body) == body[..|body| - 1] && Runs(d, AllButLast(body))
      && Step(d, e) == Exec(d, AllButLast(body))
  {
    hide Standing, LogOf, Runs, Exec, CommitPlan, Check, LogAfter, ResultOps, Upto, SeqReadable, CachesSay, ReadSeq,
      ReadConsumed;
    var c, ls := e.ask.request, e.ls;
    var body := ResultOps(d, c, ls);
    BodyFirst(d, c, ls);
    assert |body| > 0 by { JobIsNew(d, c, ls); }
    EveryMoment(d, c, ls, |body| - 1);
    assert CommitPlan(d, c, ls).1[..|body| - 1] == AllButLast(body);
    UptoIs(CommitPlan(d, c, ls).1, |body| - 1);
  }

  /** What an event leaves to be read is there for good, whatever power cut comes
      next, exactly when the event does not land its job. */
  lemma FirmUnlessLanding(d: Dir, e: Event)
    requires Standing(d) && Listed(e)
    ensures Firm(Step(d, e), LogOf(Step(d, e))) <==> !Lands(d, e)
    ensures Standing(Step(d, e)) <==> !Lands(d, e)
  {
    hide Standing, Step, Lands, LogOf, Crash, RecordFor;
    var f := Step(d, e);
    if Lands(d, e) {
      var _ := LandingIsUndecided(d, e);
      assert LogOf(Crash(f, ALL_LOST, [])) != LogOf(f);
      assert Standing(f) ==> Firm(f, LogOf(f)) by { if Standing(f) { StandingCuts(f); } }
    } else {
      StepKeeps(d, e);
      StandingCuts(f);
    }
  }

  /** A kill that the power failure catches up with is a job cut short. */
  lemma KillThenCut(d: Dir, a: Ask, ls: Lister, after: nat, w: World, boots: seq<Cut>, last: Lister)
    ensures Step(Step(d, JobKilled(a, ls, after)), IdleCut(w, boots, last))
      == Step(d, JobCut(a, Cut(after, ls, w), boots, last))
  {
  }

  /** After a lagging kill a job of no higher number is called fresh and committed. */
  lemma LagAdmitsLower(d: Dir, e: Event, a: Ask, ls: Lister)
    requires Standing(d) && Listed(e) && Lags(d, e) && Lists(ls)
    requires a.box == BOX_NAME && ClockSane(a.year)
    requires SeqReadable(d) && ReadSeq(d) < a.request.number <= e.ask.request.number
    requires ValidJobId(a.request.job) && a.request.job !in LogOf(Step(d, e))
    requires forall o | o in a.request.outs :: ValidOutputName(o.path)
    requires HasFolder(Step(d, e), RESULTS) && a.request.job !in View(Sub(Step(d, e), RESULTS))
    ensures var f := Step(d, e); var g := Step(f, Job(a, ls));
      && LogOf(g) == LogOf(f)[a.request.job := RecordFor(a.request)]
      && !Above(LogOf(f), a.request.number)
  {
    var c, f := e.ask.request, Step(d, e);
    LagLooksFresh(d, e, a);
    hide LogOf, Step, Lags, Check, RecordFor, CommitPlan;
    assert c.job in LogOf(f) && LogOf(f)[c.job].number >= a.request.number;
    FreshPlan(f, a.request, ls);
    CommitStands(f, a.request, ls);
    JobAdds(f, a, ls);
  }

  lemma JobAdds(f: Dir, a: Ask, ls: Lister)
    requires Check(f, a).Fresh?
    ensures Step(f, Job(a, ls)) == Ran(f, CommitPlan(f, a.request, ls).1)
  {
  }

  lemma LagLooksFresh(d: Dir, e: Event, a: Ask)
    requires Standing(d) && Listed(e) && Lags(d, e)
    requires a.box == BOX_NAME && ClockSane(a.year) && a.request.job !in LogOf(Step(d, e))
    requires SeqReadable(d) && ReadSeq(d) < a.request.number
    ensures var f := Step(d, e);
      && Standing(f) && e.ask.request.job in LogOf(f) && LogOf(f)[e.ask.request.job].number == e.ask.request.number
      && Check(f, a).Fresh?
  {
    var c, ls := e.ask.request, e.ls;
    var ops := CommitPlan(d, c, ls).1;
    hide Standing, LogOf, Runs, Exec, CommitPlan, RecordFor, LogAfter, ResultOps, ReadSeq, ReadConsumed, SeqReadable;
    JobIsNew(d, c, ls);
    EveryMoment(d, c, ls, e.after);
    BodyFirst(d, c, ls);
    assert Step(d, e) == Exec(d, ops[..e.after]);
    assert RecordFor(c).number == c.number by { NumberOf(c); }
  }

  lemma NumberOf(c: Request)
    ensures RecordFor(c).number == c.number
  {
  }

  // ------------------------------------------------------------- which events add a job

  /** The job is committed: the process got to the directory fsync, or was cut one
      call short of it and the marker reached the medium all the same. */
  ghost predicate Adds(d: Dir, e: Event) {
    match e
    case Job(a, ls) => Commits(d, a, ls)
    case JobKilled(a, ls, after) => Commits(d, a, ls) && after >= |ResultOps(d, a.request, ls)|
    case JobCut(a, cut, _, _) =>
      && Commits(d, a, cut.ls) && cut.after >= |ResultOps(d, a.request, cut.ls)| - 1
      && (cut.after == |ResultOps(d, a.request, cut.ls)| - 1 ==>
            a.request.job in LogOf(Crash(Step(d, JobKilled(a, cut.ls, cut.after)), cut.world, [])))
    case IdleCut(_, _, _) => false
  }

  lemma AddsMeans(d: Dir, e: Event)
    requires Standing(d) && Listed(e) && !Lands(d, e)
    ensures LogOf(Step(d, e)) != LogOf(d) <==> Adds(d, e)
  {
    hide Standing, Lands, LogOf;
    match e {
      case Job(a, ls) => JobAddsWhen(d, a, ls);
      case JobKilled(a, ls, after) => KillAddsWhen(d, a, ls, after);
      case JobCut(a, cut, boots, last) => CutAddsWhen(d, a, cut, boots, last);
      case IdleCut(w, boots, last) => hide Crash, Boot; CutThenBoots(d, w, boots, last);
    }
  }

  lemma JobAddsWhen(d: Dir, a: Ask, ls: Lister)
    requires Standing(d) && Lists(ls)
    ensures LogOf(Step(d, Job(a, ls))) != LogOf(d) <==> Commits(d, a, ls)
  {
    assert Runs(d, []) && Exec(d, []) == d;
    hide Standing, LogOf, Runs, Exec, CommitPlan, Check, RecordFor, LogAfter;
    if Check(d, a).Fresh? {
      CommitStands(d, a.request, ls);
      if CommitPlan(d, a.request, ls).0.Committed? {
        LogsDiffer(d, a.request, ls);
      } else {
        NothingAdded(d, a.request, ls);
      }
    }
  }

  lemma KillAddsWhen(d: Dir, a: Ask, ls: Lister, after: nat)
    requires Standing(d) && Lists(ls) && !Lands(d, JobKilled(a, ls, after))
    ensures LogOf(Step(d, JobKilled(a, ls, after))) != LogOf(d) <==>
      Commits(d, a, ls) && after >= |ResultOps(d, a.request, ls)|
  {
    hide Standing, LogOf, Runs, Exec, CommitPlan, Check, RecordFor, LogAfter, ResultOps, ReadSeq, ReadConsumed,
      SeqReadable, CachesSay;
    StandingReads(d);
    if Commits(d, a, ls) {
      KilledLog(d, a, ls, after);
    } else {
      SameWhenIdle(d, a, ls, after);
    }
  }

  lemma KilledLog(d: Dir, a: Ask, ls: Lister, after: nat)
    requires Standing(d) && Lists(ls) && Commits(d, a, ls)
    ensures LogAfter(d, a.request, ls) != LogOf(d)
    ensures LogOf(Step(d, JobKilled(a, ls, after)))
      == if after < |ResultOps(d, a.request, ls)| - 1 then LogOf(d) else LogAfter(d, a.request, ls)
  {
    var c, ops := a.request, CommitPlan(d, a.request, ls).1;
    hide Standing, LogOf, Runs, Exec, CommitPlan, Check, RecordFor, LogAfter, ResultOps, ReadSeq, ReadConsumed,
      SeqReadable, CachesSay, Upto;
    LogsDiffer(d, c, ls);
    EveryMoment(d, c, ls, if after <= |ops| then after else |ops|);
    BodyFirst(d, c, ls);
    UptoIs(ops, after);
  }

  lemma CutAddsWhen(d: Dir, a: Ask, cut: Cut, boots: seq<Cut>, last: Lister)
    requires Standing(d) && Lists(cut.ls) && BootsListed(boots, last)
    ensures var e := JobCut(a, cut, boots, last);
      LogOf(Step(d, e)) != LogOf(d) <==> Adds(d, e)
  {
    hide Standing, LogOf, Step, RecordFor, Commits, ResultOps, LogAfter, Crash, Lists, BootsListed;
    var f, c := Step(d, JobKilled(a, cut.ls, cut.after)), a.request;
    CutLog(d, a, cut, boots, last);
    if Commits(d, a, cut.ls) {
      if cut.after == |ResultOps(d, c, cut.ls)| - 1 {
        NewJob(d, a, cut.ls);
      } else {
        KilledLog(d, a, cut.ls, cut.after);
        FirmUnlessLanding(d, JobKilled(a, cut.ls, cut.after));
      }
    } else {
      SameWhenIdle(d, a, cut.ls, cut.after) by { StandingReads(d); }
      FirmUnlessLanding(d, JobKilled(a, cut.ls, cut.after));
    }
  }

  lemma NewJob(d: Dir, a: Ask, ls: Lister)
    requires Standing(d) && Lists(ls) && Commits(d, a, ls)
    ensures a.request.job !in LogOf(d)
  {
    hide Standing, LogOf, CommitPlan, Check, RecordFor, LogAfter, ResultOps;
    JobIsNew(d, a.request, ls);
  }

  /** The boots keep what the cut left of a killed job. */
  lemma CutLog(d: Dir, a: Ask, cut: Cut, boots: seq<Cut>, last: Lister)
    requires Standing(d) && Lists(cut.ls) && BootsListed(boots, last)
    ensures var log := LogOf(Crash(Step(d, JobKilled(a, cut.ls, cut.after)), cut.world, []));
      && LogOf(Step(d, JobCut(a, cut, boots, last))) == log
      && (log == LogOf(d) || (a.request.job !in LogOf(d) && log == LogOf(d)[a.request.job := RecordFor(a.request)]))
  {
    hide Standing, LogOf, RecordFor, CutShort, JobCalls, Boot, Crash, Safe, AtRest, Check, Upto, Runs, Exec;
    JobCutSafe(d, a, cut);
    CutIsCrash(d, a, cut);
    BootRestores(CutShort(d, JobCalls(d, a, cut.ls), cut), boots, last);
  }

  lemma CutIsCrash(d: Dir, a: Ask, cut: Cut)
    ensures CutShort(d, JobCalls(d, a, cut.ls), cut) == Crash(Step(d, JobKilled(a, cut.ls, cut.after)), cut.world, [])
  {
    hide JobCalls, Crash, Runs, Exec, Upto;
  }

  // ------------------------------------------------------------- what is durable, landing kills and all

  /** `log` is on the medium for good; jobs of `next` may be landing besides. */
  ghost predicate Steady(d: Dir, log: Log, next: Log) {
    Safe(d, log, next) && Tidy(d) && log.Items <= next.Items
  }

  ghost predicate Durable(d: Dir, log: Log) {
    exists next :: Steady(d, log, next)
  }

  lemma StandingIsDurable(d: Dir)
    requires Standing(d)
    ensures Durable(d, LogOf(d))
  {
    assert Steady(d, LogOf(d), LogOf(d));
  }

  lemma DurableShows(d: Dir, log: Log, job: Name)
    requires Durable(d, log) && job in log
    ensures job in LogOf(d) && LogOf(d)[job] == log[job]
  {
    hide Wf, JobsOk, Tidy, Complete;
    var next :| Steady(d, log, next);
    assert HasFolder(d, RESULTS);
    hide RootOk;
    LogIsShown(Sub(d, RESULTS), log, next);
  }

  lemma SteadyReads(d: Dir, log: Log, next: Log)
    requires Steady(d, log, next)
    ensures HasFolder(d, RESULTS) && SeqReadable(d) && NotAhead(ReadSeq(d), log)
  {
    hide Wf, JobsOk, Tidy;
    RootView(d, log);
  }

  lemma MoreItems(log: Log, next: Log, job: Name, r: Record)
    requires log.Items <= next.Items && job !in log
    ensures log.Items <= next[job := r].Items && log[job := r].Items <= next[job := r].Items
    ensures log.Items <= log[job := r].Items
  {
    var longer, most := log[job := r], next[job := r];
    forall j | j in log
      ensures j in next && next[j] == log[j] && j != job
    {
      assert (j, log[j]) in next.Items;
    }
    ItemsWithin(log, most);
    ItemsWithin(log, longer);
    ItemsWithin(longer, most);
  }

  /** Wherever a commit is left, what was durable is; and from the directory fsync
      on the job is, too. */
  lemma CommitKeepsDurable(d: Dir, log: Log, next: Log, c: Request, ls: Lister, k: nat) returns (log1: Log, next1: Log)
    requires Steady(d, log, next) && Lists(ls) && k <= |CommitPlan(d, c, ls).1|
    ensures Runs(d, CommitPlan(d, c, ls).1[..k]) && Steady(Exec(d, CommitPlan(d, c, ls).1[..k]), log1, next1)
    ensures log.Items <= log1.Items
    ensures CommitPlan(d, c, ls).0.Committed? && k >= |ResultOps(d, c, ls)| ==> log1 == log[c.job := RecordFor(c)]
  {
    hide Safe, Tidy, Runs, Exec, CommitPlan, ResultOps, RecordFor, LogOf, ReadSeq, SeqReadable, NotAhead, GoodPrefix,
      InResults;
    if CommitPlan(d, c, ls).0.Committed? {
      log1, next1 := CommittedKeepsDurable(d, log, next, c, ls, k);
    } else {
      NothingDone(d);
      log1, next1 := log, next;
      if k > 0 { RefusedKeepsDurable(d, log, next, c, ls, k); }
      else { assert CommitPlan(d, c, ls).1[..k] == []; }
    }
  }

  lemma NothingDone(d: Dir)
    ensures Runs(d, []) && Exec(d, []) == d
  {
  }

  lemma RefusedKeepsDurable(d: Dir, log: Log, next: Log, c: Request, ls: Lister, k: nat)
    requires Steady(d, log, next) && Lists(ls) && 0 < k <= |CommitPlan(d, c, ls).1|
    requires !CommitPlan(d, c, ls).0.Committed?
    ensures Runs(d, CommitPlan(d, c, ls).1[..k]) && Steady(Exec(d, CommitPlan(d, c, ls).1[..k]), log, next)
  {
    SteadyReads(d, log, next);
    NotLinkedAway(d, log, next, c, ls);
    hide Safe, Tidy, Runs, Exec, InResults;
    RefusedPart(d, log, next, c, ls, k);
    var e := Exec(d, CommitPlan(d, c, ls).1[..k]);
    var r :| e == WithSub(d, RESULTS, r);
    CachesUnmoved(d, r, log, next);
  }

  lemma CommittedKeepsDurable(d: Dir, log: Log, next: Log, c: Request, ls: Lister, k: nat)
    returns (log1: Log, next1: Log)
    requires Steady(d, log, next) && Lists(ls) && CommitPlan(d, c, ls).0.Committed? && k <= |CommitPlan(d, c, ls).1|
    ensures Runs(d, CommitPlan(d, c, ls).1[..k]) && Steady(Exec(d, CommitPlan(d, c, ls).1[..k]), log1, next1)
    ensures log.Items <= log1.Items
    ensures k >= |ResultOps(d, c, ls)| ==> log1 == log[c.job := RecordFor(c)]
  {
    hide Safe, Tidy, Runs, Exec, CommitPlan, ResultOps, RecordFor, LogOf, ReadSeq, SeqReadable, NotAhead, GoodPrefix,
      BumpOps, CachesSay, Max;
    SteadyReads(d, log, next);
    CommittedPlan(d, c, ls);
    var body, bump := ResultOps(d, c, ls), BumpOps(Max(ReadSeq(d), c.number), c.job);
    if k <= |body| {
      log1, next1 := BodyKeepsDurable(d, log, next, c, ls, k);
      assert (body + bump)[..k] == body[..k];
    } else {
      log1, next1 := BodyKeepsDurable(d, log, next, c, ls, |body|);
      assert body[..|body|] == body;
      var e := Exec(d, body);
      CachesMean(e, ReadSeq(d), ReadConsumed(d));
      MaxNotAhead(ReadSeq(d), log, c);
      BumpAt(e, log1, next1, Max(ReadSeq(d), c.number), c.job, |bump|);
      BumpAt(e, log1, next1, Max(ReadSeq(d), c.number), c.job, k - |body|);
      assert bump[..|bump|] == bump;
      ExecSplit(d, body, bump, k);
    }
  }

  lemma BodyKeepsDurable(d: Dir, log: Log, next: Log, c: Request, ls: Lister, k: nat) returns (log1: Log, next1: Log)
    requires Steady(d, log, next) && Lists(ls) && CommitPlan(d, c, ls).0.Committed? && k <= |ResultOps(d, c, ls)|
    ensures Runs(d, ResultOps(d, c, ls)[..k]) && Steady(Exec(d, ResultOps(d, c, ls)[..k]), log1, next1)
    ensures log.Items <= log1.Items && c.job !in log && SeqReadable(d)
    ensures k == |ResultOps(d, c, ls)| ==> log1 == log[c.job := RecordFor(c)]
    ensures CachesSay(Exec(d, ResultOps(d, c, ls)[..k]), ReadSeq(d), ReadConsumed(d))
  {
    hide Safe, Tidy, Runs, Exec, ResultOps, RecordFor, LogOf, ReadSeq, SeqReadable, NotAhead, GoodPrefix, InResults,
      CachesSay;
    SteadyReads(d, log, next);
    NotLinkedAway(d, log, next, c, ls);
    CommittedPlan(d, c, ls);
    hide CommitPlan;
    JobPart(d, log, next, c, ls, k);
    var n, r := |ResultOps(d, c, ls)|, RecordFor(c);
    MoreItems(log, next, c.job, r);
    log1 := if k == n then log[c.job := r] else log;
    next1 := if k >= n - 1 then next[c.job := r] else next;
    var e := Exec(d, ResultOps(d, c, ls)[..k]);
    var q :| e == WithSub(d, RESULTS, q);
    CachesUnmoved(d, q, log, next);
  }

  /** The job is on the medium when the event is over, whatever it landed on. */
  ghost predicate Secures(d: Dir, e: Event) {
    || (e.Job? && Commits(d, e.ask, e.ls))
    || (e.JobKilled? && Commits(d, e.ask, e.ls) && e.after >= |ResultOps(d, e.ask.request, e.ls)|)
  }

  /** Any event whatever keeps what is durable, and may add to it. */
  lemma StepKeepsDurable(d: Dir, log: Log, e: Event) returns (more: Log)
    requires Durable(d, log) && Listed(e)
    ensures Durable(Step(d, e), more) && log.Items <= more.Items
    ensures Secures(d, e) ==> e.ask.request.job in more && more[e.ask.request.job] == RecordFor(e.ask.request)
  {
    hide Steady, Step, Commits, RecordFor, ResultOps, LogOf;
    match e {
      case Job(a, ls) =>
        JobIsKill(d, a, ls);
        more := KillKeepsDurable(d, log, a, ls, |JobCalls(d, a, ls)|);
        if Commits(d, a, ls) { CommitCalls(d, a, ls); }
      case JobKilled(a, ls, after) => more := KillKeepsDurable(d, log, a, ls, after);
      case JobCut(a, cut, boots, last) => more := CutKeepsDurable(d, log, a, cut, boots, last);
      case IdleCut(w, boots, last) =>
        var next :| Steady(d, log, next);
        more := FailureKeepsDurable(d, log, next, w, boots, last);
        CutIsBoot(d, w, boots, last);
    }
  }

  lemma CutIsBoot(d: Dir, w: World, boots: seq<Cut>, last: Lister)
    ensures Step(d, IdleCut(w, boots, last)) == Boot(Crash(d, w, []), boots, last)
  {
  }

  /** After a power failure everything that shows is durable. */
  lemma FailureKeepsDurable(d: Dir, log: Log, next: Log, w: World, boots: seq<Cut>, last: Lister) returns (more: Log)
    requires Steady(d, log, next) && BootsListed(boots, last)
    ensures var f := Boot(Crash(d, w, []), boots, last);
      more == LogOf(f) && Durable(f, more) && log.Items <= more.Items && AtRest(f)
  {
    hide Safe, Tidy, Crash, LogOf, Boot, AtRest;
    CrashIsSafe(d, log, next, w);
    BootRestores(Crash(d, w, []), boots, last);
    var f := Boot(Crash(d, w, []), boots, last);
    RestStands(f);
    StandingIsDurable(f);
    more := LogOf(f);
  }

  lemma KillSteady(d: Dir, log: Log, next: Log, a: Ask, ls: Lister, after: nat) returns (log1: Log, next1: Log)
    requires Steady(d, log, next) && Lists(ls)
    ensures Steady(Step(d, JobKilled(a, ls, after)), log1, next1) && log.Items <= log1.Items
    ensures Commits(d, a, ls) && after >= |ResultOps(d, a.request, ls)| ==>
      a.request.job in log1 && log1[a.request.job] == RecordFor(a.request)
  {
    hide Steady, Runs, Exec, CommitPlan, ResultOps, RecordFor, Check, Upto;
    NothingDone(d);
    var ops := CommitPlan(d, a.request, ls).1;
    if Check(d, a).Fresh? {
      var k := if after <= |ops| then after else |ops|;
      UptoIs(ops, after);
      log1, next1 := CommitKeepsDurable(d, log, next, a.request, ls, k);
      if CommitPlan(d, a.request, ls).0.Committed? { BodyFirst(d, a.request, ls); }
    } else {
      UptoNothing(after);
      log1, next1 := log, next;
    }
  }

  lemma UptoNothing(k: nat)
    ensures Upto([], k) == []
  {
  }

  lemma KillKeepsDurable(d: Dir, log: Log, a: Ask, ls: Lister, after: nat) returns (more: Log)
    requires Durable(d, log) && Lists(ls)
    ensures Durable(Step(d, JobKilled(a, ls, after)), more) && log.Items <= more.Items
    ensures Commits(d, a, ls) && after >= |ResultOps(d, a.request, ls)| ==>
      a.request.job in more && more[a.request.job] == RecordFor(a.request)
  {
    hide Steady, Step, Commits, ResultOps, RecordFor;
    var next :| Steady(d, log, next);
    var log1, next1 := KillSteady(d, log, next, a, ls, after);
    more := log1;
  }

  lemma CutKeepsDurable(d: Dir, log: Log, a: Ask, cut: Cut, boots: seq<Cut>, last: Lister) returns (more: Log)
    requires Durable(d, log) && Lists(cut.ls) && BootsListed(boots, last)
    ensures Durable(Step(d, JobCut(a, cut, boots, last)), more) && log.Items <= more.Items
  {
    hide Steady, Step, ResultOps, RecordFor, LogOf, AtRest;
    var next :| Steady(d, log, next);
    var log1, next1 := KillSteady(d, log, next, a, cut.ls, cut.after);
    more := FailureKeepsDurable(Step(d, JobKilled(a, cut.ls, cut.after)), log1, next1, cut.world, boots, last);
    KillThenCut(d, a, cut.ls, cut.after, cut.world, boots, last);
    CutIsBoot(Step(d, JobKilled(a, cut.ls, cut.after)), cut.world, boots, last);
  }

  // ------------------------------------------------------------- whole runs

  ghost predicate AllListed(es: seq<Event>) {
    forall k | 0 <= k < |es| :: Listed(es[k])
  }

  /** No process dies at the landing moment with the power staying on. */
  ghost predicate NoneLands(d: Dir, es: seq<Event>) {
    forall k | 0 <= k < |es| :: !Lands(Run(d, es[..k]), es[k])
  }

  /** A lagging kill since which neither the power has failed nor a job caught up. */
  ghost predicate Behind(d: Dir, es: seq<Event>) {
    es != [] && var init, e := es[..|es| - 1], es[|es| - 1];
    var b := Run(d, init);
    !PowerFails(e) && !CatchesUp(b, e) && (Lags(b, e) || Behind(d, init))
  }

  /** A job added behind a lagging kill is numbered above everything committed. */
  ghost predicate InOrder(d: Dir, es: seq<Event>) {
    forall k | 0 <= k < |es| :: InOrderAt(d, es[..k], es[k])
  }

  ghost predicate InOrderAt(d: Dir, before: seq<Event>, e: Event) {
    var b := Run(d, before);
    Behind(d, before) && Adds(b, e) && !e.IdleCut? ==> Above(LogOf(b), e.ask.request.number)
  }

  /** Nothing lags that the kills and the jobs do not say lags. */
  lemma {:induction false} RunStands(d: Dir, es: seq<Event>)
    requires Standing(d) && AllListed(es) && NoneLands(d, es)
    ensures Standing(Run(d, es))
    ensures Current(d) ==> (Current(Run(d, es)) <==> !Behind(d, es))
    decreases |es|
  {
    hide Step, Standing, Current, Lands, Lags, LogOf, AtRest, CatchesUp;
    if es != [] {
      var init, e := es[..|es| - 1], es[|es| - 1];
      InitOf(d, es);
      RunStands(d, init);
      StepKeeps(Run(d, init), e);
      LagsNoCatch(Run(d, init), e);
    }
  }

  lemma LagsNoCatch(d: Dir, e: Event)
    ensures Lags(d, e) ==> !CatchesUp(d, e) && !PowerFails(e)
  {
    hide Commits, LogOf;
  }

  lemma InitOf(d: Dir, es: seq<Event>)
    requires es != [] && AllListed(es) && NoneLands(d, es)
    ensures var init, e := es[..|es| - 1], es[|es| - 1];
      && AllListed(init) && NoneLands(d, init) && Listed(e) && !Lands(Run(d, init), e)
      && (InOrder(d, es) <==> InOrder(d, init) && InOrderAt(d, init, e))
  {
    hide Run, Lands, InOrderAt;
    var init := es[..|es| - 1];
    assert forall k | 0 <= k < |init| :: init[..k] == es[..k] && init[k] == es[k];
    assert es[..|init|] == init;
  }

  lemma {:induction false} RunKeepsDurable(d: Dir, log: Log, es: seq<Event>) returns (more: Log)
    requires Durable(d, log) && AllListed(es)
    ensures Durable(Run(d, es), more) && log.Items <= more.Items
    decreases |es|
  {
    hide Step, Durable;
    more := log;
    if es != [] {
      var mid := RunKeepsDurable(d, log, es[..|es| - 1]);
      more := StepKeepsDurable(Run(d, es[..|es| - 1]), mid, es[|es| - 1]);
    }
  }

  /** Durability: what is durable is so for good, byte for byte, and every later
      replay reads exactly those bytes, over every run: whatever is killed, at the
      landing moment or elsewhere, and wherever the power fails. */
  lemma CommittedForGood(d: Dir, log: Log, es: seq<Event>, job: Name)
    requires Durable(d, log) && AllListed(es) && job in log
    ensures job in LogOf(Run(d, es)) && LogOf(Run(d, es))[job] == log[job]
    ensures ValidJobId(job) ==> CachedResult(Run(d, es), job) == Cached(log[job].files)
  {
    hide Durable, Run, LogOf, CachedResult;
    var more := RunKeepsDurable(d, log, es);
    assert (job, log[job]) in more.Items;
    DurableShows(Run(d, es), more, job);
    if ValidJobId(job) { LogIsCached(Run(d, es), job); }
  }

  /** ... in particular every job that shows on a standing box, and every job whose
      process got as far as the directory fsync. */
  lemma CommittedStays(d: Dir, e: Event, es: seq<Event>, job: Name)
    requires Standing(d) && Listed(e) && AllListed(es)
    requires job in LogOf(d) || (Secures(d, e) && job == e.ask.request.job)
    ensures var f, r := Run(Step(d, e), es), if job in LogOf(d) then LogOf(d)[job] else RecordFor(e.ask.request);
      job in LogOf(f) && LogOf(f)[job] == r && (ValidJobId(job) ==> CachedResult(f, job) == Cached(r.files))
  {
    hide Standing, Durable, Step, Run, LogOf, CachedResult, RecordFor, Commits, ResultOps;
    StandingIsDurable(d);
    var more := StepKeepsDurable(d, LogOf(d), e);
    if job in LogOf(d) { assert (job, LogOf(d)[job]) in more.Items; }
    CommittedForGood(Step(d, e), more, es, job);
  }

  /** ... and of a history whose last event lands its job that job can be lost:
      `cached_result` answers for it, and no longer after an idle power cut. */
  lemma LandingCanBeLost(d: Dir, es: seq<Event>, e: Event, boots: seq<Cut>, last: Lister)
    requires Standing(d) && AllListed(es) && NoneLands(d, es) && Listed(e) && Lands(Run(d, es), e)
    requires BootsListed(boots, last)
    ensures var f, c := Step(Run(d, es), e), e.ask.request;
      && CachedResult(f, c.job) == Cached(RecordFor(c).files)
      && CachedResult(Step(f, IdleCut(ALL_LOST, boots, last)), c.job) == NotCached
  {
    hide Standing, Lands, Run, Step, RecordFor, CachedResult, NoneLands, Boot;
    RunStands(d, es);
    LandingLost(Run(d, es), e, boots, last);
  }

  lemma LandingLost(d: Dir, e: Event, boots: seq<Cut>, last: Lister)
    requires Standing(d) && Listed(e) && Lands(d, e) && BootsListed(boots, last)
    ensures var f, c := Step(d, e), e.ask.request;
      && CachedResult(f, c.job) == Cached(RecordFor(c).files)
      && CachedResult(Boot(Crash(f, ALL_LOST, []), boots, last), c.job) == NotCached
    ensures Step(Step(d, e), IdleCut(ALL_LOST, boots, last)) == Boot(Crash(Step(d, e), ALL_LOST, []), boots, last)
  {
    var f, c := Step(d, e), e.ask.request;
    var m := Crash(f, ALL_LOST, []);
    JobIsNew(d, c, e.ls);
    hide Standing, Lands, LogOf, Crash, RecordFor, CachedResult, CommitPlan, ResultOps, Boot, Safe, AtRest, ValidJobId,
      Step, Check, BootsListed;
    var _ := LandingIsUndecided(d, e);
    LandingCut(d, e, ALL_LOST);
    BootRestores(m, boots, last);
    CachedIsLog(f, c.job);
    CachedIsLog(Boot(m, boots, last), c.job);
    IdleIs(f, boots, last);
  }

  lemma IdleIs(f: Dir, boots: seq<Cut>, last: Lister)
    ensures Step(f, IdleCut(ALL_LOST, boots, last)) == Boot(Crash(f, ALL_LOST, []), boots, last)
  {
  }

  lemma LandingCut(d: Dir, e: Event, w: World)
    requires Standing(d) && Listed(e) && Lands(d, e)
    ensures var m := Crash(Step(d, e), w, []); Safe(m, LogOf(m), LogOf(m)) && m.pending == []
  {
    var c, ls := e.ask.request, e.ls;
    hide Standing, LogOf, Runs, Exec, CommitPlan, Crash, Safe, Check, ResultOps;
    BodyFirst(d, c, ls);
    CommitCrash(d, c, ls, e.after, w);
    UptoIs(CommitPlan(d, c, ls).1, e.after);
  }

  datatype Entry = Entry(job: Name, number: nat)

  /** The jobs a run added, in the order they were committed. */
  ghost function History(d: Dir, es: seq<Event>): seq<Entry> {
    if es == [] then []
    else
      var before, after, e := Run(d, es[..|es| - 1]), Run(d, es), es[|es| - 1];
      History(d, es[..|es| - 1])
      + (if LogOf(after) != LogOf(before) && !e.IdleCut? then [Entry(e.ask.request.job, e.ask.request.number)] else [])
  }

  /** Numbers rise, and are above everything there was before. */
  ghost predicate Rising(h: seq<Entry>, before: Log) {
    && (forall i, j | 0 <= i < j < |h| :: h[i].number < h[j].number)
    && (forall x | x in h :: Above(before, x.number))
  }

  /** A new job, in the log under its number. */
  ghost predicate Added(x: Entry, before: Log, after: Log) {
    x.job !in before && x.job in after && after[x.job].number == x.number
  }

  /** The history is the difference between two logs, each job in it once. */
  ghost predicate Explains(h: seq<Entry>, before: Log, after: Log) {
    && (forall i, j | 0 <= i < j < |h| :: h[i].job != h[j].job)
    && (forall x | x in h :: Added(x, before, after))
    && (forall j | j in before :: j in after && after[j] == before[j])
    && (forall j | j in after :: j in before || exists x :: x in h && x.job == j)
  }

  lemma ExplainsOneMore(h: seq<Entry>, before: Log, mid: Log, x: Entry, r: Record)
    requires Explains(h, before, mid) && x.job !in mid && r.number == x.number
    ensures Explains(h + [x], before, mid[x.job := r])
  {
    var after := mid[x.job := r];
    forall i | 0 <= i < |h|
      ensures h[i].job != x.job && Added(h[i], before, after)
    {
      assert h[i] in h && Added(h[i], before, mid);
    }
    forall j | j in after && j !in before
      ensures exists y :: y in h + [x] && y.job == j
    {
      if j == x.job {
        assert x in h + [x];
      } else {
        var y :| y in h && y.job == j;
        assert y in h + [x];
      }
    }
    assert forall j | j in before :: before[j] == mid[j];
  }

  lemma RisesOneMore(h: seq<Entry>, before: Log, mid: Log, x: Entry)
    requires Explains(h, before, mid)
    ensures Rising(h + [x], before) <==> Rising(h, before) && Above(mid, x.number)
  {
    hide Explains, Rising, Above;
    if Rising(h + [x], before) {
      RisesWithout(h, before, x);
      LastIsAbove(h, before, mid, x);
    } else if Rising(h, before) && Above(mid, x.number) {
      RisesWith(h, before, mid, x);
    }
  }

  lemma RisesWith(h: seq<Entry>, before: Log, mid: Log, x: Entry)
    requires Explains(h, before, mid) && Rising(h, before) && Above(mid, x.number)
    ensures Rising(h + [x], before)
  {
    forall i | 0 <= i < |h|
      ensures h[i].number < x.number
    {
      assert h[i] in h && Added(h[i], before, mid);
    }
    assert forall j | j in before :: before[j] == mid[j];
  }

  lemma LastIsAbove(h: seq<Entry>, before: Log, mid: Log, x: Entry)
    requires Explains(h, before, mid) && Rising(h + [x], before)
    ensures Above(mid, x.number)
  {
    var g := h + [x];
    assert g[|h|] == x && x in g;
    forall j | j in mid
      ensures mid[j].number < x.number
    {
      if j !in before {
        var y :| y in h && y.job == j;
        var i :| 0 <= i < |h| && h[i] == y;
        assert g[i].number < g[|h|].number && Added(y, before, mid);
      }
    }
  }

  lemma RisesWithout(h: seq<Entry>, before: Log, x: Entry)
    requires Rising(h + [x], before)
    ensures Rising(h, before) && Above(before, x.number)
  {
    var g := h + [x];
    assert forall i | 0 <= i < |h| :: g[i] == h[i];
    assert forall y | y in h :: y in g;
    assert x in g;
  }

  lemma HistoryCases(h: seq<Entry>, before: Log, mid: Log, e: Event, after: Log, g: seq<Entry>)
    requires Explains(h, before, mid) && PutIfAbsent(mid, e, after)
    requires g == h + (if after != mid && !e.IdleCut? then [Entry(e.ask.request.job, e.ask.request.number)] else [])
    ensures Explains(g, before, after)
    ensures Rising(g, before) <==>
      Rising(h, before) && (after != mid ==> !e.IdleCut? && Above(mid, e.ask.request.number))
  {
    if after != mid {
      var c := e.ask.request;
      ExplainsOneMore(h, before, mid, Entry(c.job, c.number), RecordFor(c));
      RisesOneMore(h, before, mid, Entry(c.job, c.number));
    } else {
      assert g == h;
    }
  }

  /** Each job is committed at most once, nothing committed is lost or altered, and
      nothing else is in the log; and commit order is number order exactly when
      every job added behind a lagging kill is numbered above all before it. */
  lemma {:induction false} HistoryIsMonotone(d: Dir, es: seq<Event>)
    requires Standing(d) && AllListed(es) && NoneLands(d, es)
    ensures Explains(History(d, es), LogOf(d), LogOf(Run(d, es)))
    ensures Current(d) ==> (Rising(History(d, es), LogOf(d)) <==> InOrder(d, es))
    decreases |es|
  {
    hide Step, Standing, Current, Lands, Lags, LogOf, AtRest, Explains, Rising, Behind, PutIfAbsent, Above, Adds,
      CatchesUp;
    if es == [] {
      NothingExplained(LogOf(d));
    } else {
      hide InOrder;
      var init, e := es[..|es| - 1], es[|es| - 1];
      InitOf(d, es);
      HistoryIsMonotone(d, init);
      RunStands(d, init);
      var b := Run(d, init);
      StepKeeps(b, e);
      AddsMeans(b, e);
      if LogOf(Step(b, e)) != LogOf(b) { OnlyJobsAdd(LogOf(b), e, LogOf(Step(b, e))); }
      HistoryCases(History(d, init), LogOf(d), LogOf(b), e, LogOf(Step(b, e)), History(d, es));
    }
  }

  lemma OnlyJobsAdd(log: Log, e: Event, after: Log)
    requires PutIfAbsent(log, e, after) && after != log
    ensures !e.IdleCut?
  {
  }

  lemma NothingExplained(log: Log)
    ensures Explains([], log, log) && Rising([], log)
  {
  }
}
