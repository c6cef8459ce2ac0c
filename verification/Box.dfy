/** What can happen to the box: `freshness.check`, then `commit()` or a replay from
    `cached_result`, with the process killed or the power failing anywhere, and
    `reconcile_on_boot()` (itself interrupted any number of times) after every
    power failure. */
module Box {
  import opened Basics
  import opened Storage
  import opened JobDir
  import opened ResultsDir
  import opened CommitLog
  import opened Reconcile

  const BOX_NAME := "nebula-ca"
  const FIRST_YEAR := 2026

  // ------------------------------------------------------------- freshness.py

  /** `SeqUnreadable` is the ValueError that an unparseable seq file raises. */
  datatype Verdict = WrongBox | ClockInsane | SeqUnreadable | StaleSeq | Replayed | Fresh

  datatype Ask = Ask(box: string, year: int, op: string, request: Request)

  predicate ClockSane(year: int) {
    year >= FIRST_YEAR
  }

  function Check(d: Dir, a: Ask): Verdict {
    if a.box != BOX_NAME then WrongBox
    else if a.op != "set-time" && !ClockSane(a.year) then ClockInsane
    else if !SeqReadable(d) then SeqUnreadable
    else if a.request.number <= ReadSeq(d) then StaleSeq
    else if a.request.job in ReadConsumed(d) then Replayed
    else Fresh
  }

  // ------------------------------------------------------------- cached_result

  datatype Cached = UnsafeId | NotCached | Cached(files: map<Name, Content>)

  /** The directory a replay reads; an unsafe id raises a ValueError. */
  function CachedResult(d: Dir, job: Name): Cached {
    var res := ResultsOf(d);
    if !ValidJobId(job) then UnsafeId
    else if DoneIn(res, job) then Cached(FilesOf(Sub(res, job)))
    else NotCached
  }

  // ------------------------------------------------------------- events

  /** A process stopped by a power failure: how far it got, in what order it
      listed directories, and how the failure fell out. */
  datatype Cut = Cut(after: nat, ls: Lister, world: World)

  /** Each process has a lister of its own. `boots` are the boot passes that were
      themselves cut short before one, listing by `last`, got through. */
  datatype Event =
    | Job(ask: Ask, ls: Lister)
    | JobKilled(ask: Ask, ls: Lister, after: nat)     // the power stays on
    | JobCut(ask: Ask, cut: Cut, boots: seq<Cut>, last: Lister)
    | IdleCut(world: World, boots: seq<Cut>, last: Lister)

  ghost predicate BootsListed(boots: seq<Cut>, last: Lister) {
    Lists(last) && forall i | 0 <= i < |boots| :: Lists(boots[i].ls)
  }

  ghost predicate Listed(e: Event) {
    match e
    case Job(_, ls) => Lists(ls)
    case JobKilled(_, ls, _) => Lists(ls)
    case JobCut(_, cut, boots, last) => Lists(cut.ls) && BootsListed(boots, last)
    case IdleCut(_, boots, last) => BootsListed(boots, last)
  }

  ghost function Ran(d: Dir, ops: seq<Op>): Dir {
    if Runs(d, ops) then Exec(d, ops) else d
  }

  function Upto(ops: seq<Op>, k: nat): seq<Op> {
    if k <= |ops| then ops[..k] else ops
  }

  /** The medium after the power failed `cut.after` calls into `ops`. */
  ghost function CutShort(d: Dir, ops: seq<Op>, cut: Cut): Dir {
    Crash(Ran(d, Upto(ops, cut.after)), cut.world, [])
  }

  ghost function Boot(d: Dir, boots: seq<Cut>, last: Lister): Dir
    decreases |boots|
  {
    if boots == [] then Ran(d, ReconcileOps(d, last))
    else Boot(CutShort(d, ReconcileOps(d, boots[0].ls), boots[0]), boots[1..], last)
  }

  /** The calls a presented job leads to: a replay only reads. */
  ghost function JobCalls(d: Dir, a: Ask, ls: Lister): seq<Op> {
    if Check(d, a).Fresh? then CommitPlan(d, a.request, ls).1 else []
  }

  ghost function Step(d: Dir, e: Event): Dir {
    match e
    case Job(a, ls) => Ran(d, JobCalls(d, a, ls))
    case JobKilled(a, ls, after) => Ran(d, Upto(JobCalls(d, a, ls), after))
    case JobCut(a, cut, boots, last) => Boot(CutShort(d, JobCalls(d, a, cut.ls), cut), boots, last)
    case IdleCut(w, boots, last) => Boot(Crash(d, w, []), boots, last)
  }

  ghost function Run(d: Dir, es: seq<Event>): Dir {
    if es == [] then d else Step(Run(d, es[..|es| - 1]), es[|es| - 1])
  }

  // ------------------------------------------------------------- one event

  /** However often the boot pass is cut short, the pass that gets through brings
      the box to rest with the log it started from. */
  lemma {:induction false} BootRestores(d: Dir, boots: seq<Cut>, last: Lister)
    requires Safe(d, LogOf(d), LogOf(d)) && d.pending == [] && BootsListed(boots, last)
    ensures AtRest(Boot(d, boots, last)) && LogOf(Boot(d, boots, last)) == LogOf(d)
    decreases |boots|
  {
    hide Wf, RootOk, JobsOk, ReconcileOps, Crash;
    if boots == [] {
      var _, _ := ReconcileEnds(d, last);
    } else {
      var ops := ReconcileOps(d, boots[0].ls);
      assert Upto(ops, boots[0].after) == ops[..if boots[0].after <= |ops| then boots[0].after else |ops|];
      ReconcileCrash(d, boots[0].ls, if boots[0].after <= |ops| then boots[0].after else |ops|, boots[0].world);
      BootRestores(CutShort(d, ops, boots[0]), boots[1..], last);
    }
  }

  /** Booting a box at rest changes nothing that can be read. */
  lemma BootIsIdempotent(d: Dir, ls: Lister)
    requires AtRest(d) && Lists(ls)
    ensures var e := Boot(d, [], ls);
      AtRest(e) && LogOf(e) == LogOf(d) && ReadSeq(e) == ReadSeq(d) && ReadConsumed(e) == ReadConsumed(d)
  {
    BootRestores(d, [], ls);
    MaxSeqIsUnique(ReadSeq(Boot(d, [], ls)), ReadSeq(d), LogOf(d));
  }

  lemma MaxSeqIsUnique(v: int, w: int, log: Log)
    requires IsMaxSeq(v, log) && IsMaxSeq(w, log)
    ensures v == w
  {
  }

  /** On every disk a job for another box is refused as that, then one with a clock
      before 2026 unless it sets the time; every other verdict is past both checks. */
  lemma RefusalsComeFirst(d: Dir, a: Ask)
    ensures Check(d, a).WrongBox? <==> a.box != "nebula-ca"
    ensures Check(d, a).ClockInsane? <==> a.box == "nebula-ca" && a.op != "set-time" && a.year < 2026
    ensures Check(d, a).SeqUnreadable? ==> "seq" in View(d)
  {
    hide View;
  }

  /** `cached_result` on every disk: which ids are refused, and that the answer is
      the files beside a marker with a number. */
  lemma CachedMeans(d: Dir, job: Name)
    ensures CachedResult(d, job).UnsafeId? <==> job in {"", ".", ".."} || '/' in job
    ensures CachedResult(d, job).Cached? <==>
      && !CachedResult(d, job).UnsafeId? && HasFolder(d, "results") && HasFolder(Sub(d, "results"), job)
      && var j := Sub(Sub(d, "results"), job);
        HasFile(j, "DONE") && At(j, "DONE").content.DoneText? && At(j, "DONE").content.number >= 0
    ensures CachedResult(d, job).Cached? ==>
      var files, j := CachedResult(d, job).files, Sub(Sub(d, "results"), job);
      forall n :: (n in files <==> HasFile(j, n)) && (n in files ==> files[n] == At(j, n).content)
  {
    assert View(EMPTY) == map[];
    if CachedResult(d, job).Cached? {
      FilesAre(Sub(Sub(d, "results"), job));
    }
    hide View;
  }

  lemma FilesAre(j: Dir)
    ensures forall n :: (n in FilesOf(j) <==> HasFile(j, n)) && (n in FilesOf(j) ==> FilesOf(j)[n] == At(j, n).content)
  {
    hide View;
  }

  /** `check` on a box at rest, in terms of the committed jobs alone. */
  lemma CheckMeans(d: Dir, a: Ask)
    requires AtRest(d)
    ensures SeqReadable(d)
    ensures var v := Check(d, a); var log := LogOf(d); var n := a.request.number;
      var admitted := a.box == "nebula-ca" && (a.op == "set-time" || a.year >= 2026);
      var newest := n > 0 && forall j | j in log :: log[j].number < n;
      && (v.Fresh? <==> admitted && newest && a.request.job !in log)
      && (v.Replayed? <==> admitted && newest && a.request.job in log)
      && (v.StaleSeq? <==> admitted && !newest)
  {
  }

  /** A job handed in again under its own number is reported stale, not as a
      replay: the number check comes first. */
  lemma SameNumberIsStale(d: Dir, a: Ask)
    requires AtRest(d) && a.request.job in LogOf(d) && LogOf(d)[a.request.job].number == a.request.number
    ensures !Check(d, a).Replayed? && !Check(d, a).Fresh?
  {
    CheckMeans(d, a);
  }

  /** "fresh" means no marker for that id; "replay" means there is a result to read. */
  lemma VerdictAgreesWithMarkers(d: Dir, a: Ask)
    requires AtRest(d) && ValidJobId(a.request.job)
    ensures Check(d, a).Fresh? ==> CachedResult(d, a.request.job).NotCached?
    ensures Check(d, a).Replayed? ==>
      CachedResult(d, a.request.job) == Cached(LogOf(d)[a.request.job].files)
  {
    CheckMeans(d, a);
  }

  lemma IdleCrash(d: Dir, w: World)
    requires Safe(d, LogOf(d), LogOf(d))
    ensures var c := Crash(d, w, []); Safe(c, LogOf(c), LogOf(c)) && c.pending == [] && LogOf(c) == LogOf(d)
  {
    CrashIsSafe(d, LogOf(d), LogOf(d), w);
    OneMore(LogOf(d), LogOf(d), LogOf(Crash(d, w, [])), "");
  }

  /** An idle power cut and its boots lose nothing of a box that is standing. */
  lemma CutThenBoots(d: Dir, w: World, boots: seq<Cut>, last: Lister)
    requires Standing(d) && BootsListed(boots, last)
    ensures var f := Boot(Crash(d, w, []), boots, last); AtRest(f) && LogOf(f) == LogOf(d)
  {
    hide Safe, Tidy, Crash, Boot, LogOf, AtRest;
    IdleCrash(d, w);
    BootRestores(Crash(d, w, []), boots, last);
  }

  lemma LogIsCached(d: Dir, job: Name)
    requires job in LogOf(d) && ValidJobId(job)
    ensures CachedResult(d, job) == Cached(LogOf(d)[job].files)
  {
  }

  lemma FreshPlan(d: Dir, c: Request, ls: Lister)
    requires Safe(d, LogOf(d), LogOf(d)) && c.job !in LogOf(d) && ValidJobId(c.job)
    requires forall o | o in c.outs :: ValidOutputName(o.path)
    requires Has(Sub(d, RESULTS), c.job) ==> HasFolder(Sub(d, RESULTS), c.job)
    ensures CommitPlan(d, c, ls).0.Committed?
  {
    RootView(d, LogOf(d));
    assert !DoneIn(Sub(d, RESULTS), c.job);
  }

  /** An undisturbed fresh job with safe names is committed, exactly. */
  lemma FreshJobCommits(d: Dir, a: Ask, ls: Lister)
    requires AtRest(d) && Lists(ls) && ValidJobId(a.request.job)
    requires Check(d, a).Fresh? && (forall o | o in a.request.outs :: ValidOutputName(o.path))
    requires Has(Sub(d, RESULTS), a.request.job) ==> HasFolder(Sub(d, RESULTS), a.request.job)
    ensures LogOf(Step(d, Job(a, ls))) == LogOf(d)[a.request.job := RecordFor(a.request)]
    ensures CachedResult(Step(d, Job(a, ls)), a.request.job) == Cached(RecordFor(a.request).files)
  {
    assert a.request.job !in LogOf(d) by { CheckMeans(d, a); }
    FreshPlan(d, a.request, ls);
    CommitEnds(d, a.request, ls);
    LogIsCached(Step(d, Job(a, ls)), a.request.job);
  }
}
