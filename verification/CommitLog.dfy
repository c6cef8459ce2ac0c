/** `commit()` and `reconcile_on_boot()` as scripts of system calls over the
    state directory, and what every power cut in the middle of them leaves. */
module CommitLog {
  import opened Basics
  import opened Storage
  import opened JobDir
  import opened RemoveTree
  import opened ResultsDir

  const RESULTS: Name := "results"
  const SEQ: Name := "seq"
  const CONSUMED: Name := "consumed-jobs"

  lemma NamesDiffer()
    ensures SEQ + TMP == "seq.tmp" && CONSUMED + TMP == "consumed-jobs.tmp"
    ensures SEQ + TMP != RESULTS && SEQ != RESULTS && CONSUMED != RESULTS && CONSUMED + TMP != RESULTS
    ensures SEQ != SEQ + TMP && SEQ != CONSUMED && SEQ != CONSUMED + TMP
    ensures CONSUMED != SEQ + TMP && CONSUMED != CONSUMED + TMP && SEQ + TMP != CONSUMED + TMP
  {
    assert SEQ[0] == 's' && RESULTS[0] == 'r' && CONSUMED[0] == 'c';
  }

  // ------------------------------------------------------------- reading

  ghost function LogOf(d: Dir): Log {
    if HasFolder(d, RESULTS) then LogIn(Sub(d, RESULTS)) else map[]
  }

  /** `_read_seq`: 0 when the file is missing; unreadable text raises. */
  predicate SeqReadable(d: Dir) {
    SEQ in View(d) ==> HasFile(d, SEQ) && At(d, SEQ).content.SeqText?
  }

  function ReadSeq(d: Dir): int
    requires SeqReadable(d)
  {
    if SEQ in View(d) then At(d, SEQ).content.value else 0
  }

  /** The ids `is_consumed` looks through. */
  function ReadConsumed(d: Dir): set<Name> {
    if HasFile(d, CONSUMED) && At(d, CONSUMED).content.LinesText?
    then set l | l in At(d, CONSUMED).content.lines
    else {}
  }

  // ------------------------------------------------------------- invariants

  /** `v` is 0 or covered by the number of some committed job. */
  ghost predicate NotAhead(v: int, log: Log) {
    v >= 0 && (v == 0 || exists j :: j in log && v <= log[j].number)
  }

  ghost predicate IsMaxSeq(v: int, log: Log) {
    NotAhead(v, log) && forall j | j in log :: log[j].number <= v
  }

  /** The state directory's own entries, under one entry map. */
  ghost predicate RootEntries(nodes: seq<Node>, m: map<Name, nat>, results: nat, log: Log) {
    && RESULTS in m && m[RESULTS] == results
    && (SEQ in m ==> m[SEQ] < |nodes| && SeqFileOk(nodes[m[SEQ]], log))
    && (forall n | n in m && n in {SEQ + TMP, CONSUMED, CONSUMED + TMP} :: m[n] < |nodes| && nodes[m[n]].File?)
  }

  ghost predicate SeqFileOk(f: Node, log: Log) {
    f.File? && f.synced && f.content.SeqText? && NotAhead(f.content.value, log)
  }

  ghost predicate RootOk(d: Dir, log: Log) {
    HasFolder(d, RESULTS)
    && forall k: nat | k <= |d.pending| :: RootEntries(d.nodes, After(d, k), View(d)[RESULTS], log)
  }

  /** Whatever a power cut does now, the medium will show `log`, or `log` with
      jobs of `next` that were landing; and the seq file will be readable and not
      ahead of the committed jobs. */
  ghost predicate Safe(d: Dir, log: Log, next: Log) {
    Wf(d) && RootOk(d, log) && JobsOk(Sub(d, RESULTS), log, next)
  }

  /** Between jobs: nothing is waiting in the state directory, and both caches
      are exactly the projection of the markers. */
  ghost predicate CachesTrue(d: Dir, log: Log) {
    SeqReadable(d) && IsMaxSeq(ReadSeq(d), log) && ReadConsumed(d) == log.Keys
    && (CONSUMED in View(d) ==>
      HasFile(d, CONSUMED) && (At(d, CONSUMED).content.LinesText? || At(d, CONSUMED).content == Raw([])))
  }

  ghost predicate AtRest(d: Dir) {
    Safe(d, LogOf(d), LogOf(d)) && d.pending == [] && CachesTrue(d, LogOf(d))
  }

  /** No prefix calls the present inode of `t` the seq file. */
  ghost predicate Apart(d: Dir, t: Name) {
    t in View(d) ==> forall k: nat | k <= |d.pending| :: SEQ in After(d, k) ==> After(d, k)[SEQ] != View(d)[t]
  }

  ghost predicate Tidy(d: Dir) {
    Appendable(d) && Apart(d, SEQ + TMP) && Apart(d, CONSUMED)
  }

  /** The next job can be taken: whatever shows is on the medium for good, and the
      caches, which may have fallen behind, can be written. */
  ghost predicate Standing(d: Dir) {
    Safe(d, LogOf(d), LogOf(d)) && Tidy(d) && ReadConsumed(d) <= LogOf(d).Keys
  }

  /** The seq file has not fallen behind. */
  ghost predicate Current(d: Dir) {
    SeqReadable(d) && forall j | j in LogOf(d) :: LogOf(d)[j].number <= ReadSeq(d)
  }

  lemma RestStands(d: Dir)
    requires AtRest(d)
    ensures Standing(d) && Current(d)
  {
    hide JobsOk, RootOk;
    TidyAtRest(d);
  }

  lemma StandingReads(d: Dir)
    requires Standing(d)
    ensures HasFolder(d, RESULTS) && SeqReadable(d) && NotAhead(ReadSeq(d), LogOf(d))
  {
    hide Wf, JobsOk, LogOf;
    RootView(d, LogOf(d));
  }

  lemma SafeShowsLog(d: Dir, log: Log)
    requires Safe(d, log, log)
    ensures LogOf(d) == log
  {
    SettledShowsLog(Sub(d, RESULTS), log);
  }

  // ------------------------------------------------------------- writing in the state directory

  lemma RootView(d: Dir, log: Log)
    requires RootOk(d, log)
    ensures RootEntries(d.nodes, View(d), View(d)[RESULTS], log)
  {
    ViewIsAfterAll(d);
    assert RootEntries(d.nodes, After(d, |d.pending|), View(d)[RESULTS], log);
  }

  /** Touching only a cache file other than `seq` keeps the state directory safe. */
  lemma TouchKeepsRoot(d: Dir, e: Dir, t: Name, log: Log)
    requires Wf(d) && RootOk(d, log) && OnlyTouches(d, e, t) && Apart(d, t)
    requires t in {SEQ + TMP, CONSUMED, CONSUMED + TMP} && FileIn(d, View(d), t)
    ensures RootOk(e, log) && Sub(e, RESULTS) == Sub(d, RESULTS)
  {
    NamesDiffer();
    ViewIsAfterAll(e);
    assert AgreeExcept(After(e, |e.pending|), View(d), t);
    EarlierPrefixes(d, e);
    RootView(d, log);
    WfView(d);
    assert e.nodes[View(d)[RESULTS]] == d.nodes[View(d)[RESULTS]];
    forall j: nat | j <= |e.pending|
      ensures RootEntries(e.nodes, After(e, j), View(d)[RESULTS], log)
    {
      if j < |d.pending| {
        ViewIsAfterAll(d);
        assert EntriesOk(After(d, j), |d.nodes|);
        assert RootEntries(d.nodes, After(d, j), View(d)[RESULTS], log);
        TouchedEntries(d, e, After(d, j), t, log);
      } else {
        assert AgreeExcept(After(e, j), View(d), t) && FileIn(e, After(e, j), t);
        AgreeingEntries(d, e, After(e, j), t, log);
      }
    }
  }

  lemma TouchedEntries(d: Dir, e: Dir, m: map<Name, nat>, t: Name, log: Log)
    requires EntriesOk(m, |d.nodes|) && OnlyTouches(d, e, t) && t in {SEQ + TMP, CONSUMED, CONSUMED + TMP}
    requires RESULTS in View(d) && FileIn(d, View(d), t)
    requires RootEntries(d.nodes, m, View(d)[RESULTS], log)
    requires t in View(d) && SEQ in m ==> m[SEQ] != View(d)[t]
    ensures RootEntries(e.nodes, m, View(d)[RESULTS], log)
  {
    NamesDiffer();
    ViewIsAfterAll(d);
    EarlierPrefixes(d, e);
    assert After(e, |d.pending|) == View(d);
    assert FileIn(e, After(e, |d.pending|), t);
  }

  lemma AgreeingEntries(d: Dir, e: Dir, m: map<Name, nat>, t: Name, log: Log)
    requires EntriesOk(View(d), |d.nodes|) && OnlyTouches(d, e, t) && t in {SEQ + TMP, CONSUMED, CONSUMED + TMP}
    requires RESULTS in View(d) && RootEntries(d.nodes, View(d), View(d)[RESULTS], log)
    requires AgreeExcept(m, View(d), t) && FileIn(e, m, t)
    ensures RootEntries(e.nodes, m, View(d)[RESULTS], log)
  {
    NamesDiffer();
  }

  /** The rename that puts a filled `.tmp` file in place. */
  lemma RenameKeepsRoot(b: Dir, n: Name, log: Log)
    requires Wf(b) && RootOk(b, log) && n in {SEQ, CONSUMED} && HasFile(b, n + TMP)
    requires n == SEQ ==> SeqFileOk(At(b, n + TMP), log)
    ensures CanPerform(b, Rename(n + TMP, n))
    ensures var e := Perform(b, Rename(n + TMP, n)); RootOk(e, log) && Sub(e, RESULTS) == Sub(b, RESULTS)
  {
    assert HasFolder(b, RESULTS);
    hide RootEntries, RootOk, Wf, Replay, After, SeqFileOk;
    RenameCan(b, n, log);
    RenamedRoot(b, n, log);
  }

  lemma RenameCan(b: Dir, n: Name, log: Log)
    requires Wf(b) && RootOk(b, log) && n in {SEQ, CONSUMED} && HasFile(b, n + TMP)
    ensures CanPerform(b, Rename(n + TMP, n))
  {
    RootView(b, log);
    TmpIsLonger(n);
    hide Wf, RootOk, View, After;
  }

  lemma RenamedRoot(b: Dir, n: Name, log: Log)
    requires Wf(b) && RootOk(b, log) && n in {SEQ, CONSUMED} && HasFile(b, n + TMP)
    requires n == SEQ ==> SeqFileOk(At(b, n + TMP), log)
    ensures var e := b.(pending := b.pending + [Move(n + TMP, n)]);
      RootOk(e, log) && Sub(e, RESULTS) == Sub(b, RESULTS)
  {
    RootView(b, log);
    WfView(b);
    var e := b.(pending := b.pending + [Move(n + TMP, n)]);
    AfterAppend(b, e, Move(n + TMP, n));
    RenamedEntries(b.nodes, View(b), n, log);
    ResultsStays(View(b), n);
    RootOkAppended(b, e, log);
  }

  lemma RootOkAppended(b: Dir, e: Dir, log: Log)
    requires RootOk(b, log) && e.nodes == b.nodes && |e.pending| == |b.pending| + 1
    requires forall j: nat | j <= |b.pending| :: After(e, j) == After(b, j)
    requires After(e, |e.pending|) == View(e) && RESULTS in View(e) && View(e)[RESULTS] == View(b)[RESULTS]
    requires RootEntries(e.nodes, View(e), View(e)[RESULTS], log)
    ensures RootOk(e, log) && Sub(e, RESULTS) == Sub(b, RESULTS)
  {
    hide RootEntries, View, After, Replay;
  }

  lemma ResultsStays(m: map<Name, nat>, n: Name)
    requires RESULTS in m && n in {SEQ, CONSUMED}
    ensures var e := ApplyEntry(m, Move(n + TMP, n)); RESULTS in e && e[RESULTS] == m[RESULTS]
  {
    NamesDiffer();
  }

  lemma RenamedEntries(nodes: seq<Node>, m: map<Name, nat>, n: Name, log: Log)
    requires EntriesOk(m, |nodes|) && n in {SEQ, CONSUMED} && n + TMP in m && RESULTS in m
    requires RootEntries(nodes, m, m[RESULTS], log) && nodes[m[n + TMP]].File?
    requires n == SEQ ==> SeqFileOk(nodes[m[n + TMP]], log)
    ensures RootEntries(nodes, ApplyEntry(m, Move(n + TMP, n)), m[RESULTS], log)
  {
    NamesDiffer();
  }

  /** Part-way through an `_atomic_write` of a cache file ... */
  lemma CacheWritePart(d: Dir, n: Name, c: Content, log: Log, next: Log, k: nat) returns (b: Dir)
    requires Safe(d, log, next) && n in {SEQ, CONSUMED} && Apart(d, n + TMP) && k < 4
    ensures Runs(d, AtomicWrite(n, c)[..k]) && b == Exec(d, AtomicWrite(n, c)[..k])
    ensures Safe(b, log, next) && OnlyTouches(d, b, n + TMP) && Sub(b, RESULTS) == Sub(d, RESULTS)
    ensures k == 3 ==> HasFile(b, n + TMP) && At(b, n + TMP) == File(c, true)
  {
    RootView(d, log);
    WfView(d);
    b := FillTmp(d, n, c, k);
    TouchKeepsRoot(d, b, n + TMP, log);
  }

  /** ... and at its end. */
  lemma CacheWrite(d: Dir, n: Name, c: Content, log: Log, next: Log) returns (e: Dir)
    requires Safe(d, log, next) && n in {SEQ, CONSUMED} && Apart(d, n + TMP)
    requires n == SEQ ==> c.SeqText? && NotAhead(c.value, log)
    ensures Runs(d, AtomicWrite(n, c)) && e == Exec(d, AtomicWrite(n, c))
    ensures Safe(e, log, next) && Replaced(d, e, n, c) && TmpUntilLast(d, e, n)
    ensures Sub(e, RESULTS) == Sub(d, RESULTS)
  {
    hide Wf, JobsOk, RootOk, Replaced, TmpUntilLast, OnlyTouches, Runs, Exec;
    e := CacheWriteFrame(d, n, c, log, next);
    var b := CacheWritePart(d, n, c, log, next, 3);
    var ops := AtomicWrite(n, c);
    RenameKeepsRoot(b, n, log);
    ExecNext(d, ops, 3);
    assert ops[..4] == ops;
  }

  lemma CacheWriteFrame(d: Dir, n: Name, c: Content, log: Log, next: Log) returns (e: Dir)
    requires Safe(d, log, next) && n in {SEQ, CONSUMED}
    ensures Runs(d, AtomicWrite(n, c)) && e == Exec(d, AtomicWrite(n, c)) && Wf(e)
    ensures Replaced(d, e, n, c) && TmpUntilLast(d, e, n)
  {
    RootView(d, log);
    e := AtomicWriteRuns(d, n, c);
  }

  // ------------------------------------------------------------- commit()

  datatype Request = Request(job: Name, number: nat, outs: seq<Output>, fields: map<string, Bytes>)

  datatype Outcome =
    | Committed          // every step done
    | AlreadyCommitted   // a valid DONE was there: nothing done
    | Refused            // ValueError: unsafe name, symlink or non-directory in the way
    | CacheUnreadable    // ValueError out of `_read_seq`, after the commit point

  predicate ValidJobId(job: Name) {
    job != "" && '/' !in job && job != "." && job != ".."
  }

  /** The names that are refused: those that lead elsewhere, and those of the two
      control files. */
  lemma NamesRefused(n: Name)
    ensures ValidJobId(n) <==> n !in {"", ".", ".."} && forall a, b :: n != a + "/" + b
    ensures ValidOutputName(n) <==> n !in {"", ".", "..", "DONE", "status.json"} && forall a, b :: n != a + "/" + b
  {
    if '/' in n {
      var i :| 0 <= i < |n| && n[i] == '/';
      assert n == n[..i] + "/" + n[i + 1..];
    }
    if a, b :| n == a + "/" + b {
      assert n[|a|] == '/';
    }
  }

  /** The outputs written before the first unsafe name raises. */
  function GoodPrefix(outs: seq<Output>): (good: seq<Output>)
    ensures good <= outs && forall o | o in good :: ValidOutputName(o.path)
    ensures good == outs <==> forall o | o in outs :: ValidOutputName(o.path)
    ensures good != outs ==> !ValidOutputName(outs[|good|].path)
  {
    if outs == [] then []
    else if !ValidOutputName(outs[0].path) then (assert outs[0] in outs; [])
    else (assert outs == [outs[0]] + outs[1..]; [outs[0]] + GoodPrefix(outs[1..]))
  }

  function ResultsOf(d: Dir): Dir {
    if HasFolder(d, RESULTS) then Sub(d, RESULTS) else EMPTY
  }

  ghost function WipeOps(res: Dir, job: Name, ls: Lister): seq<Op> {
    if HasFolder(res, job) then RemoveOps(res, job, ls) else []
  }

  /** Step 0: the job directory's entry, made durable in its parent. */
  function OpenOps(job: Name): seq<Op> {
    [Op([], Mkdir(job)), Op([], FsyncDir)]
  }

  ghost function PrepareOps(res: Dir, job: Name, ls: Lister): seq<Op> {
    WipeOps(res, job, ls) + OpenOps(job)
  }

  function Max(a: int, b: int): int { if a >= b then a else b }

  /** Step 4. */
  function BumpOps(value: int, job: Name): seq<Op> {
    AtomicWrite(SEQ, SeqText(value))
    + [Op([], OpenAppend(CONSUMED)), Op([], AppendLine(CONSUMED, job)), Op([], FsyncFile(CONSUMED)), Op([], FsyncDir)]
  }

  ghost function InResults(d: Dir, job: Name, ls: Lister, inner: seq<Op>): seq<Op> {
    (if HasFolder(d, RESULTS) then [] else [Op([], Mkdir(RESULTS))])
    + Under(RESULTS, PrepareOps(ResultsOf(d), job, ls) + Under(job, inner))
  }

  ghost function CommitPlan(d: Dir, c: Request, ls: Lister): (Outcome, seq<Op>) {
    var res, good := ResultsOf(d), GoodPrefix(c.outs);
    if !ValidJobId(c.job) || (Has(res, c.job) && At(res, c.job).Symlink?) then (Refused, [])
    else if DoneIn(res, c.job) then (AlreadyCommitted, [])
    else if Has(res, c.job) && !At(res, c.job).Folder? then (Refused, [])
    else if good != c.outs then (Refused, InResults(d, c.job, ls, OutputOps(good)))
    else
      var ops := InResults(d, c.job, ls, JobOps(c.job, c.number, c.outs, c.fields));
      if !SeqReadable(d) then (CacheUnreadable, ops)
      else (Committed, ops + BumpOps(Max(ReadSeq(d), c.number), c.job))
  }

  /** How `commit` ends, by what stands at the job's place, the names and the seq file. */
  lemma OutcomeMeans(d: Dir, c: Request, ls: Lister)
    ensures var o, res := CommitPlan(d, c, ls).0, ResultsOf(d);
      var done, blocked := DoneIn(res, c.job), Has(res, c.job) && !HasFolder(res, c.job);
      var named := forall x | x in c.outs :: ValidOutputName(x.path);
      && (o.Refused? <==> !ValidJobId(c.job) || blocked || (!done && !named))
      && (o.AlreadyCommitted? <==> ValidJobId(c.job) && done)
      && (o.CacheUnreadable? <==> ValidJobId(c.job) && !blocked && !done && named && !SeqReadable(d))
      && (o.Committed? <==> ValidJobId(c.job) && !blocked && !done && named && SeqReadable(d))
    ensures CommitPlan(d, c, ls).0.AlreadyCommitted? ==> CommitPlan(d, c, ls).1 == []
    ensures CommitPlan(d, c, ls).0.CacheUnreadable? ==> CommitPlan(d, c, ls).1 == ResultOps(d, c, ls)
    ensures var (o, ops), res := CommitPlan(d, c, ls), ResultsOf(d);
      var reached := ValidJobId(c.job) && (Has(res, c.job) ==> HasFolder(res, c.job));
      o.Refused? ==> ops == if reached then InResults(d, c.job, ls, OutputOps(GoodPrefix(c.outs))) else []
  {
    hide View, InResults, BumpOps;
  }

  function RecordFor(c: Request): Record {
    RecordOf(c.job, c.number, c.outs, c.fields)
  }

  /** Steps 0 to 3. */
  ghost function ResultOps(d: Dir, c: Request, ls: Lister): seq<Op> {
    InResults(d, c.job, ls, JobOps(c.job, c.number, c.outs, c.fields))
  }

  // ------------------------------------------------------------- steps 0 to 3, in RESULTS_DIR

  lemma OpenRuns(res: Dir, log: Log, next: Log, job: Name, k: nat) returns (e: Dir)
    requires Wf(res) && JobsOk(res, log, next) && job !in View(res) && k <= 2
    ensures Runs(res, OpenOps(job)) && e == Exec(res, OpenOps(job)) && Runs(res, OpenOps(job)[..k])
    ensures Wf(e) && e.pending == [] && HasFolder(e, job) && Sub(e, job) == EMPTY && JobsOk(e, log, next)
    ensures Wf(Exec(res, OpenOps(job)[..k])) && JobsOk(Exec(res, OpenOps(job)[..k]), log, next)
  {
    var ops := OpenOps(job);
    MkdirKeepsJobs(res, log, next, job);
    var m := Perform(res, Mkdir(job));
    FsyncKeepsJobs(m, log, next);
    PerformKeepsWf(m, FsyncDir);
    assert ops[..0] == [];
    ExecNext(res, ops, 0);
    ExecNext(res, ops, 1);
    assert ops[..2] == ops;
    e := Perform(m, FsyncDir);
    assert View(e) == View(m);
  }

  lemma PrepareRuns(res: Dir, log: Log, next: Log, job: Name, ls: Lister, k: nat) returns (e: Dir)
    requires Wf(res) && JobsOk(res, log, next) && Lists(ls)
    requires job in View(res) ==> HasFolder(res, job) && !DoneIn(res, job)
    requires k <= |PrepareOps(res, job, ls)|
    ensures var ops := PrepareOps(res, job, ls);
      && Runs(res, ops) && e == Exec(res, ops) && Runs(res, ops[..k])
      && Wf(Exec(res, ops[..k])) && JobsOk(Exec(res, ops[..k]), log, next)
    ensures Wf(e) && e.pending == [] && HasFolder(e, job) && Sub(e, job) == EMPTY && JobsOk(e, log, next)
  {
    var a, b := WipeOps(res, job, ls), OpenOps(job);
    var m := res;
    if HasFolder(res, job) {
      WipeKeepsJobs(res, log, next, job, ls, if k <= |a| then k else |a|);
      WipeKeepsJobs(res, log, next, job, ls, |a|);
      assert a[..|a|] == a;
      m := Exec(res, a);
    } else {
      assert a[..0] == a;
    }
    e := OpenRuns(m, log, next, job, if k <= |a| then 0 else k - |a|);
    ExecSplit(res, a, b, k);
  }

  /** Where the results directory is after `k` calls of steps 0 to 3. */
  lemma ResultsPart(res: Dir, log: Log, next: Log, job: Name, ls: Lister, inner: seq<Op>, k: nat) returns (p: Dir)
    requires Wf(res) && JobsOk(res, log, next) && Lists(ls) && Runs(EMPTY, inner)
    requires job in View(res) ==> HasFolder(res, job) && !DoneIn(res, job)
    requires k <= |PrepareOps(res, job, ls) + Under(job, inner)|
    ensures var prep := PrepareOps(res, job, ls); var ops := prep + Under(job, inner);
      && Runs(res, ops) && Runs(res, ops[..k])
      && Wf(p) && p.pending == [] && HasFolder(p, job) && Sub(p, job) == EMPTY && JobsOk(p, log, next)
      && (k <= |prep| ==> Wf(Exec(res, ops[..k])) && JobsOk(Exec(res, ops[..k]), log, next))
      && (k >= |prep| ==>
            (Runs(EMPTY, inner[..k - |prep|])
             && Exec(res, ops[..k]) == WithSub(p, job, Exec(EMPTY, inner[..k - |prep|]))))
  {
    hide Wf, JobsOk, Runs, Exec, View, DoneIn, PrepareOps, Under;
    var prep := PrepareOps(res, job, ls);
    p := PrepareRuns(res, log, next, job, ls, if k <= |prep| then k else |prep|);
    ExecUnder(p, job, inner);
    ExecSplit(res, prep, Under(job, inner), k);
    if k >= |prep| {
      RunsPrefix(EMPTY, inner, k - |prep|);
      UnderPrefix(job, inner, k - |prep|);
      ExecUnder(p, job, inner[..k - |prep|]);
    }
  }

  // ------------------------------------------------------------- ... seen from the state directory

  lemma NotAheadGrows(v: int, log: Log, more: Log)
    requires NotAhead(v, log) && log.Items <= more.Items
    ensures NotAhead(v, more)
  {
    if v > 0 {
      var j :| j in log && v <= log[j].number;
      assert (j, log[j]) in more.Items;
      assert j in more && more[j] == log[j];
    }
  }

  /** Changing only the results directory. */
  lemma SafeWithResults(d: Dir, log: Log, next: Log, res: Dir, log1: Log, next1: Log)
    requires Safe(d, log, next) && Wf(res) && JobsOk(res, log1, next1) && log.Items <= log1.Items
    ensures Safe(WithSub(d, RESULTS, res), log1, next1)
  {
    var e := WithSub(d, RESULTS, res);
    SameEntriesKeepWf(d, e);
    assert View(e) == View(d);
    forall k: nat | k <= |e.pending|
      ensures RootEntries(e.nodes, After(e, k), View(e)[RESULTS], log1)
    {
      assert After(e, k) == After(d, k);
      assert EntriesOk(After(d, k), |d.nodes|) && RootEntries(d.nodes, After(d, k), View(d)[RESULTS], log);
      RootEntriesWith(d, After(d, k), res, log, log1);
    }
  }

  lemma RootEntriesWith(d: Dir, m: map<Name, nat>, res: Dir, log: Log, log1: Log)
    requires HasFolder(d, RESULTS) && EntriesOk(m, |d.nodes|) && log.Items <= log1.Items
    requires RootEntries(d.nodes, m, View(d)[RESULTS], log)
    ensures RootEntries(WithSub(d, RESULTS, res).nodes, m, View(d)[RESULTS], log1)
  {
    NamesDiffer();
    if SEQ in m {
      NotAheadGrows(d.nodes[m[SEQ]].content.value, log, log1);
    }
  }

  lemma InsertGrows(log: Log, job: Name, r: Record)
    requires job !in log
    ensures log.Items <= log[job := r].Items
  {
    forall p | p in log.Items
      ensures p in log[job := r].Items
    {
      assert p.0 in log[job := r] && log[job := r][p.0] == p.1;
    }
  }

  lemma InResultsLength(d: Dir, job: Name, ls: Lister, inner: seq<Op>)
    requires HasFolder(d, RESULTS)
    ensures |InResults(d, job, ls, inner)| == |PrepareOps(Sub(d, RESULTS), job, ls)| + |inner|
  {
    hide PrepareOps;
  }

  /** Steps 0 to 3 with any inner script: the disk after `k` calls. */
  lemma InResultsRuns(d: Dir, log: Log, next: Log, job: Name, ls: Lister, inner: seq<Op>, k: nat) returns (p: Dir)
    requires Safe(d, log, next) && Lists(ls) && Runs(EMPTY, inner)
    requires job in View(Sub(d, RESULTS)) ==> HasFolder(Sub(d, RESULTS), job) && !DoneIn(Sub(d, RESULTS), job)
    requires k <= |InResults(d, job, ls, inner)|
    ensures var ops := InResults(d, job, ls, inner); var prep := PrepareOps(Sub(d, RESULTS), job, ls);
      && |ops| == |prep| + |inner| && Runs(d, ops) && Runs(d, ops[..k])
      && Wf(p) && p.pending == [] && HasFolder(p, job) && Sub(p, job) == EMPTY && JobsOk(p, log, next)
      && (k <= |prep| ==> Safe(Exec(d, ops[..k]), log, next))
      && (k >= |prep| ==>
            (Runs(EMPTY, inner[..k - |prep|])
             && Exec(d, ops[..k]) == WithSub(d, RESULTS, WithSub(p, job, Exec(EMPTY, inner[..k - |prep|])))))
    ensures exists r :: Exec(d, InResults(d, job, ls, inner)[..k]) == WithSub(d, RESULTS, r)
  {
    var res := Sub(d, RESULTS);
    var prep := PrepareOps(res, job, ls);
    var below := prep + Under(job, inner);
    assert InResults(d, job, ls, inner) == Under(RESULTS, below);
    p := ResultsPart(res, log, next, job, ls, inner, k);
    ExecUnder(d, RESULTS, below);
    UnderPrefix(RESULTS, below, k);
    ExecUnder(d, RESULTS, below[..k]);
    if k <= |prep| {
      SafeWithResults(d, log, next, Exec(res, below[..k]), log, next);
    }
  }

  /** The job directory may be filled, may land, may be complete. */
  lemma FilledIsSafe(d: Dir, log: Log, next: Log, p: Dir, job: Name, r: Record, jd: Dir)
    requires Safe(d, log, next) && Wf(p) && p.pending == [] && JobsOk(p, log, next)
    requires HasFolder(p, job) && Sub(p, job) == EMPTY && Wf(jd)
    ensures var e := WithSub(d, RESULTS, WithSub(p, job, jd));
      && job !in log
      && (NoDone(jd) ==> Safe(e, log, next))
      && (Landing(jd, r) ==> Safe(e, log, next[job := r]))
      && (Complete(jd, r) ==> Safe(e, log[job := r], next[job := r]))
  {
    assert HasFolder(d, RESULTS);
    assert !Done(EMPTY);
    var res := WithSub(p, job, jd);
    CleanView(p, log, next, job);
    hide Wf, RootOk, JobsOk, NoDone, Clean, Landing, Complete, Safe;
    FillKeepsJobs(p, log, next, job, r, jd);
    WithSubKeepsWf(p, job, jd);
    InsertGrows(log, job, r);
    if NoDone(jd) {
      NoDoneIsClean(jd);
      SafeWithResults(d, log, next, res, log, next);
    }
    if Landing(jd, r) {
      SafeWithResults(d, log, next, res, log, next[job := r]);
    }
    if Complete(jd, r) {
      SafeWithResults(d, log, next, res, log[job := r], next[job := r]);
    }
  }

  /** The inner script is the whole job: until the `DONE` rename nothing changes,
      from there to the directory fsync the job may land, after it the job is in
      the log; whatever else was landing still is. */
  lemma JobPart(d: Dir, log: Log, next: Log, c: Request, ls: Lister, k: nat)
    requires Safe(d, log, next) && Lists(ls) && GoodPrefix(c.outs) == c.outs
    requires c.job in View(Sub(d, RESULTS)) ==> HasFolder(Sub(d, RESULTS), c.job) && !DoneIn(Sub(d, RESULTS), c.job)
    requires k <= |ResultOps(d, c, ls)|
    ensures Runs(d, ResultOps(d, c, ls)) && Runs(d, ResultOps(d, c, ls)[..k]) && c.job !in log
    ensures var e, r, n := Exec(d, ResultOps(d, c, ls)[..k]), RecordFor(c), |ResultOps(d, c, ls)|;
      && (k < n - 1 ==> Safe(e, log, next))
      && (k == n - 1 ==> Safe(e, log, next[c.job := r]))
      && (k == n ==> Safe(e, log[c.job := r], next[c.job := r]))
      && exists r :: e == WithSub(d, RESULTS, r)
  {
    assert HasFolder(d, RESULTS);
    hide Safe, Wf, JobsOk, NoDone, Landing, Complete, Runs, Exec, PrepareOps, JobOps, InResults, DoneIn, View,
      RecordFor, GoodPrefix, WithSub;
    var inner := JobOps(c.job, c.number, c.outs, c.fields);
    var prep := PrepareOps(Sub(d, RESULTS), c.job, ls);
    JobAt(c, 0);
    NotInLog(d, log, next, c.job);
    var p := InResultsRuns(d, log, next, c.job, ls, inner, k);
    if k > |prep| { JobFilled(d, log, next, p, c, k - |prep|); }
  }

  lemma JobFilled(d: Dir, log: Log, next: Log, p: Dir, c: Request, k: nat)
    requires Safe(d, log, next) && Wf(p) && p.pending == [] && JobsOk(p, log, next)
    requires HasFolder(p, c.job) && Sub(p, c.job) == EMPTY && GoodPrefix(c.outs) == c.outs && HasFolder(d, RESULTS)
    requires k <= |JobOps(c.job, c.number, c.outs, c.fields)|
    ensures var ops, r := JobOps(c.job, c.number, c.outs, c.fields), RecordFor(c);
      && Runs(EMPTY, ops[..k])
      && var e := WithSub(d, RESULTS, WithSub(p, c.job, Exec(EMPTY, ops[..k])));
      && (k < |ops| - 1 ==> Safe(e, log, next))
      && (k == |ops| - 1 ==> Safe(e, log, next[c.job := r]))
      && (k == |ops| ==> Safe(e, log[c.job := r], next[c.job := r]))
  {
    hide Safe, Wf, JobsOk, NoDone, Landing, Complete, Runs, Exec, JobOps, View, RecordFor, GoodPrefix, WithSub;
    JobAt(c, k);
    FilledIsSafe(d, log, next, p, c.job, RecordFor(c), Exec(EMPTY, JobOps(c.job, c.number, c.outs, c.fields)[..k]));
  }

  lemma JobAt(c: Request, k: nat)
    requires GoodPrefix(c.outs) == c.outs
    ensures var ops := JobOps(c.job, c.number, c.outs, c.fields);
      && |ops| > 0 && Runs(EMPTY, ops)
      && (k <= |ops| ==>
            && Runs(EMPTY, ops[..k]) && Wf(Exec(EMPTY, ops[..k]))
            && (k < |ops| - 1 ==> NoDone(Exec(EMPTY, ops[..k])))
            && (k == |ops| - 1 ==> Landing(Exec(EMPTY, ops[..k]), RecordFor(c)))
            && (k == |ops| ==> Complete(Exec(EMPTY, ops[..k]), RecordFor(c))))
  {
    hide Wf, NoDone, Landing, Complete, Runs, Exec, RecordOf;
    JobRuns(c.job, c.number, c.outs, c.fields, 0);
    if k <= |JobOps(c.job, c.number, c.outs, c.fields)| { JobRuns(c.job, c.number, c.outs, c.fields, k); }
  }

  lemma NotInLog(d: Dir, log: Log, next: Log, job: Name)
    requires Safe(d, log, next)
    requires job in View(Sub(d, RESULTS)) ==> HasFolder(Sub(d, RESULTS), job) && !DoneIn(Sub(d, RESULTS), job)
    ensures job !in log
  {
    assert HasFolder(d, RESULTS);
    hide Wf, RootOk, JobsOk, DoneIn;
    LogIsShown(Sub(d, RESULTS), log, next);
  }

  /** An unsafe output name raises part-way: nothing of the job can ever count. */
  lemma RefusedPart(d: Dir, log: Log, next: Log, c: Request, ls: Lister, k: nat)
    requires Safe(d, log, next) && Lists(ls)
    requires c.job in View(Sub(d, RESULTS)) ==> HasFolder(Sub(d, RESULTS), c.job) && !DoneIn(Sub(d, RESULTS), c.job)
    requires k <= |InResults(d, c.job, ls, OutputOps(GoodPrefix(c.outs)))|
    ensures var ops := InResults(d, c.job, ls, OutputOps(GoodPrefix(c.outs)));
      && Runs(d, ops) && Runs(d, ops[..k])
      && Safe(Exec(d, ops[..k]), log, next)
      && exists r :: Exec(d, ops[..k]) == WithSub(d, RESULTS, r)
  {
    assert HasFolder(d, RESULTS);
    var inner, prep := OutputOps(GoodPrefix(c.outs)), PrepareOps(Sub(d, RESULTS), c.job, ls);
    hide Safe, Wf, JobsOk, RootOk, NoDone, Clean, Runs, Exec, PrepareOps, OutputOps, InResults, GoodPrefix, DoneIn,
      View, WithSub, AllSynced, FilesOf, RecordFor;
    var _ := OutputsRun(GoodPrefix(c.outs), if k <= |prep| then 0 else if k - |prep| <= |inner| then k - |prep| else 0);
    var p := InResultsRuns(d, log, next, c.job, ls, inner, k);
    if k > |prep| {
      FilledIsSafe(d, log, next, p, c.job, RecordFor(c), Exec(EMPTY, inner[..k - |prep|]));
    }
  }

  // ------------------------------------------------------------- step 4

  function AppendOps(job: Name): seq<Op> {
    [Op([], OpenAppend(CONSUMED)), Op([], AppendLine(CONSUMED, job)), Op([], FsyncFile(CONSUMED))]
  }

  ghost predicate Appendable(d: Dir) {
    CONSUMED in View(d) ==>
      HasFile(d, CONSUMED) && (At(d, CONSUMED).content.LinesText? || At(d, CONSUMED).content == Raw([]))
  }

  /** Appending the job id in place. */
  lemma {:induction false} AppendRuns(d: Dir, job: Name, k: nat) returns (e: Dir)
    requires Wf(d) && Appendable(d) && k <= 3
    ensures Runs(d, AppendOps(job)[..k]) && e == Exec(d, AppendOps(job)[..k]) && Wf(e)
    ensures OnlyTouches(d, e, CONSUMED) && Appendable(e) && (k >= 1 ==> HasFile(e, CONSUMED))
    ensures ReadConsumed(e) == ReadConsumed(d) + (if k >= 2 then {job} else {})
  {
    assert CONSUMED in View(d) ==> HasFile(d, CONSUMED);
    hide Wf, OnlyTouches, ReadConsumed, Appendable;
    var ops := AppendOps(job);
    e := d;
    assert ops[..0] == [];
    if k == 0 {
      TouchesNothing(d, CONSUMED);
    } else if k == 1 {
      e := OpenRunsAppend(d, job);
    } else {
      var b := AppendRuns(d, job, k - 1);
      assert CanApply(b, ops[k - 1]) by { LineCanGrow(b, job); }
      hide Runs, Exec, View, AppendOps;
      NextTouch(d, ops, k - 1, CONSUMED);
      e := Exec(d, ops[..k]);
      ApplyKeepsWf(b, ops[k - 1]);
      TouchedLine(b, e, job);
    }
  }

  lemma OpenRunsAppend(d: Dir, job: Name) returns (e: Dir)
    requires Wf(d) && Appendable(d)
    ensures Runs(d, AppendOps(job)[..1]) && e == Exec(d, AppendOps(job)[..1]) && Wf(e)
    ensures OnlyTouches(d, e, CONSUMED) && Appendable(e) && HasFile(e, CONSUMED) && ReadConsumed(e) == ReadConsumed(d)
  {
    var ops := AppendOps(job);
    AppendOpens(d);
    e := Apply(d, ops[0]);
    PerformKeepsWf(d, ops[0].act);
    hide Wf, OnlyTouches;
    assert ops[..0] == [];
    ExecNext(d, ops, 0);
  }

  lemma LineCanGrow(b: Dir, job: Name)
    requires HasFile(b, CONSUMED) && Appendable(b)
    ensures CanPerform(b, AppendLine(CONSUMED, job)) && CanPerform(b, FsyncFile(CONSUMED))
  {
  }

  lemma TouchedLine(b: Dir, e: Dir, job: Name)
    requires HasFile(b, CONSUMED) && HasFile(e, CONSUMED) && Appendable(b)
    ensures At(e, CONSUMED) == Touched(At(b, CONSUMED), AppendLine(CONSUMED, job)) ==>
      Appendable(e) && ReadConsumed(e) == ReadConsumed(b) + {job}
    ensures At(e, CONSUMED) == Touched(At(b, CONSUMED), FsyncFile(CONSUMED)) ==>
      Appendable(e) && ReadConsumed(e) == ReadConsumed(b)
  {
    hide View;
  }

  lemma AppendOpens(d: Dir)
    requires Wf(d) && (CONSUMED in View(d) ==> HasFile(d, CONSUMED))
    ensures CanPerform(d, OpenAppend(CONSUMED))
    ensures var e := Perform(d, OpenAppend(CONSUMED));
      OnlyTouches(d, e, CONSUMED) && HasFile(e, CONSUMED)
      && At(e, CONSUMED) == (if CONSUMED in View(d) then At(d, CONSUMED) else File(Raw([]), false))
  {
    WfView(d);
    if CONSUMED !in View(d) {
      NewTouches(d, CONSUMED, File(Raw([]), false));
    } else {
      TouchesNothing(d, CONSUMED);
    }
  }

  lemma TouchesNothing(d: Dir, t: Name)
    requires t in View(d) ==> HasFile(d, t)
    ensures OnlyTouches(d, d, t)
  {
    ViewIsAfterAll(d);
  }

  lemma StateFsync(d: Dir, log: Log, next: Log)
    requires Safe(d, log, next)
    ensures var e := Perform(d, FsyncDir);
      && Safe(e, log, next) && e.pending == [] && View(e) == View(d) && e.nodes == d.nodes
      && Runs(d, [Op([], FsyncDir)]) && Exec(d, [Op([], FsyncDir)]) == e
  {
    var e := Perform(d, FsyncDir);
    PerformKeepsWf(d, FsyncDir);
    RootView(d, log);
    assert forall k: nat | k <= |e.pending| :: After(e, k) == View(d);
    assert [Op([], FsyncDir)][1..] == [];
  }

  /** What reading the caches gives, before and after. */
  ghost predicate CachesSay(d: Dir, v: int, ids: set<Name>) {
    SeqReadable(d) && ReadSeq(d) == v && ReadConsumed(d) == ids
  }

  lemma ReplacedCaches(d: Dir, e: Dir, v: int)
    requires Replaced(d, e, SEQ, SeqText(v))
    requires Wf(d) && Appendable(d)
    ensures CachesSay(e, v, ReadConsumed(d)) && Appendable(e)
  {
    NamesDiffer();
    WfView(d);
  }

  lemma TouchedSeq(d: Dir, e: Dir, t: Name)
    requires Wf(d) && SeqReadable(d) && OnlyTouches(d, e, t) && t != SEQ
    ensures SeqReadable(e) && ReadSeq(e) == ReadSeq(d)
  {
    WfView(d);
    ViewIsAfterAll(e);
    assert AgreeExcept(After(e, |e.pending|), View(d), t);
  }

  lemma TouchedConsumed(d: Dir, e: Dir, t: Name)
    requires Wf(d) && OnlyTouches(d, e, t) && t != CONSUMED
    ensures ReadConsumed(e) == ReadConsumed(d)
  {
    WfView(d);
    ViewIsAfterAll(e);
    assert AgreeExcept(After(e, |e.pending|), View(d), t);
  }

  // ------------------------------------------------------------- ... keeping the cache files apart

  lemma ApartSettled(d: Dir, t: Name)
    requires Wf(d) && d.pending == [] && t != SEQ
    ensures Apart(d, t)
  {
    WfView(d);
    assert After(d, 0) == View(d) by { ViewIsAfterAll(d); }
  }

  lemma TidyAtRest(d: Dir)
    requires Wf(d) && d.pending == [] && Appendable(d)
    ensures Tidy(d)
  {
    NamesDiffer();
    ApartSettled(d, SEQ + TMP);
    ApartSettled(d, CONSUMED);
  }

  lemma ApartTouched(d: Dir, e: Dir, u: Name, t: Name)
    requires Wf(d) && OnlyTouches(d, e, u) && Apart(d, t) && u != SEQ && t != SEQ
    ensures Apart(e, t)
  {
    if t in View(e) {
      WfView(d);
      ViewIsAfterAll(e);
      EarlierPrefixes(d, e);
      assert AgreeExcept(After(e, |e.pending|), View(d), u);
      forall k: nat | k <= |e.pending| && SEQ in After(e, k)
        ensures After(e, k)[SEQ] != View(e)[t]
      {
        if k <= |d.pending| {
          assert EntriesOk(After(d, k), |d.nodes|) && After(e, k) == After(d, k);
        } else {
          assert AgreeExcept(After(e, k), View(d), u);
        }
      }
    }
  }

  lemma ApartAfterWrite(d: Dir, e: Dir, n: Name, t: Name)
    requires Wf(d) && Wf(e) && Apart(d, t) && TmpUntilLast(d, e, n)
    requires t != SEQ && n + TMP != SEQ && t != n && t != n + TMP
    requires t in View(e) ==> t in View(d) && View(e)[t] == View(d)[t]
    ensures Apart(e, t)
  {
    if t in View(e) {
      WfView(d);
      WfView(e);
      ViewIsAfterAll(e);
      EarlierPrefixes(d, e);
      forall k: nat | k <= |e.pending| && SEQ in After(e, k)
        ensures After(e, k)[SEQ] != View(e)[t]
      {
        if |d.pending| < k < |e.pending| {
          assert AgreeExcept(After(e, k), View(d), n + TMP);
        }
      }
    }
  }

  lemma TidyTouched(d: Dir, e: Dir, u: Name)
    requires Wf(d) && OnlyTouches(d, e, u) && Tidy(d) && u in {SEQ + TMP, CONSUMED}
    requires u == CONSUMED ==> Appendable(e)
    ensures Tidy(e)
  {
    NamesDiffer();
    ApartTouched(d, e, u, SEQ + TMP);
    ApartTouched(d, e, u, CONSUMED);
    if u != CONSUMED { AppendableTouched(d, e, u); }
  }

  lemma AppendableTouched(d: Dir, e: Dir, u: Name)
    requires Wf(d) && OnlyTouches(d, e, u) && Appendable(d) && u != CONSUMED
    ensures Appendable(e)
  {
    WfView(d);
    ViewIsAfterAll(e);
    assert AgreeExcept(After(e, |e.pending|), View(d), u);
  }

  lemma TidyReplaced(d: Dir, e: Dir, v: int)
    requires Wf(d) && Wf(e) && Tidy(d) && Replaced(d, e, SEQ, SeqText(v)) && TmpUntilLast(d, e, SEQ)
    ensures Tidy(e)
  {
    NamesDiffer();
    ReplacedCaches(d, e, v);
    ReplacedFrame(d, e, SEQ, SeqText(v), CONSUMED);
    ApartAfterWrite(d, e, SEQ, CONSUMED);
  }

  // ------------------------------------------------------------- the bump itself

  /** Step 4: the log is untouched, the caches get their new values. */
  lemma BumpRuns(d: Dir, log: Log, next: Log, value: int, job: Name) returns (d1: Dir, f: Dir)
    requires Safe(d, log, next) && Tidy(d) && SeqReadable(d) && NotAhead(value, log)
    ensures Runs(d, AtomicWrite(SEQ, SeqText(value))) && d1 == Exec(d, AtomicWrite(SEQ, SeqText(value)))
    ensures Safe(d1, log, next) && Tidy(d1) && CachesSay(d1, value, ReadConsumed(d))
    ensures Runs(d1, AppendOps(job) + [Op([], FsyncDir)]) && f == Exec(d1, AppendOps(job) + [Op([], FsyncDir)])
    ensures Runs(d, BumpOps(value, job)) && f == Exec(d, BumpOps(value, job))
    ensures Safe(f, log, next) && Tidy(f) && f.pending == []
    ensures CachesSay(f, value, ReadConsumed(d) + {job})
  {
    var a, b, last := AtomicWrite(SEQ, SeqText(value)), AppendOps(job), [Op([], FsyncDir)];
    assert BumpOps(value, job) == a + (b + last);
    assert b[..3] == b;
    hide Safe, Tidy, SeqReadable, ReadSeq, ReadConsumed, CachesSay, Runs, Exec, View, AtomicWrite, AppendOps, BumpOps;
    d1 := BumpSeq(d, log, next, value, 0);
    var d2 := BumpConsumed(d1, log, next, value, ReadConsumed(d), job, 3);
    f := FsyncCaches(d2, log, next, value, ReadConsumed(d) + {job});
    ExecConcat(d1, b, last);
    ExecConcat(d, a, b + last);
  }

  lemma FsyncCaches(d: Dir, log: Log, next: Log, v: int, ids: set<Name>) returns (f: Dir)
    requires Safe(d, log, next) && Tidy(d) && CachesSay(d, v, ids)
    ensures Runs(d, [Op([], FsyncDir)]) && f == Exec(d, [Op([], FsyncDir)])
    ensures Safe(f, log, next) && Tidy(f) && f.pending == [] && CachesSay(f, v, ids)
    ensures f.nodes == d.nodes && View(f) == View(d)
  {
    StateFsync(d, log, next);
    f := Perform(d, FsyncDir);
    hide Runs, Exec, View, JobsOk, RootOk, Wf;
    TidyAtRest(f);
  }

  /** ... and at every point of it they have moved exactly as far as its calls. */
  lemma BumpAt(d: Dir, log: Log, next: Log, value: int, job: Name, k: nat)
    requires Safe(d, log, next) && Tidy(d) && SeqReadable(d) && NotAhead(value, log)
    requires k <= |BumpOps(value, job)|
    ensures Runs(d, BumpOps(value, job)[..k])
    ensures var e := Exec(d, BumpOps(value, job)[..k]);
      && Safe(e, log, next) && Tidy(e)
      && CachesSay(e, if k < 4 then ReadSeq(d) else value, ReadConsumed(d) + (if k < 6 then {} else {job}))
  {
    hide Safe, Tidy, SeqReadable, ReadSeq, ReadConsumed, CachesSay, Runs, Exec, View, AtomicWrite, AppendOps, BumpOps;
    var a, b, last := AtomicWrite(SEQ, SeqText(value)), AppendOps(job), [Op([], FsyncDir)];
    BumpInParts(value, job);
    var d1, f := BumpRuns(d, log, next, value, job);
    ExecSplit(d, a, b + last, k);
    assert ReadConsumed(d) + {} == ReadConsumed(d);
    if k <= 4 {
      var _ := BumpSeq(d, log, next, value, k);
    } else if k < 8 {
      var _ := BumpConsumed(d1, log, next, value, ReadConsumed(d), job, k - 4);
    }
  }

  lemma BumpInParts(value: int, job: Name)
    ensures var a, b, last := AtomicWrite(SEQ, SeqText(value)), AppendOps(job), [Op([], FsyncDir)];
      && BumpOps(value, job) == a + (b + last) && |a| == 4 && |b| == 3
      && (forall j: nat | j <= 3 :: (b + last)[..j] == b[..j]) && (b + last)[..4] == b + last
  {
  }

  lemma BumpSeq(d: Dir, log: Log, next: Log, value: int, k: nat) returns (d1: Dir)
    requires Safe(d, log, next) && Tidy(d) && SeqReadable(d) && NotAhead(value, log) && k <= 4
    ensures Runs(d, AtomicWrite(SEQ, SeqText(value))) && d1 == Exec(d, AtomicWrite(SEQ, SeqText(value)))
    ensures Runs(d, AtomicWrite(SEQ, SeqText(value))[..k])
    ensures var e := Exec(d, AtomicWrite(SEQ, SeqText(value))[..k]);
      Safe(e, log, next) && Tidy(e) && CachesSay(e, if k < 4 then ReadSeq(d) else value, ReadConsumed(d))
    ensures Safe(d1, log, next) && Tidy(d1) && CachesSay(d1, value, ReadConsumed(d))
  {
    assert Apart(d, SEQ + TMP);
    hide Safe, Tidy, Appendable, SeqReadable, ReadSeq, ReadConsumed, Apart, Replaced, TmpUntilLast, OnlyTouches, Runs,
      Exec, View, CachesSay;
    d1 := BumpSeqEnd(d, log, next, value);
    if k < 4 {
      var b := CacheWritePart(d, SEQ, SeqText(value), log, next, k);
      TouchedOnlyTmp(d, b, log, next);
    } else {
      assert AtomicWrite(SEQ, SeqText(value))[..4] == AtomicWrite(SEQ, SeqText(value));
    }
  }

  lemma CachesMean(d: Dir, v: int, ids: set<Name>)
    requires CachesSay(d, v, ids)
    ensures SeqReadable(d) && ReadSeq(d) == v && ReadConsumed(d) == ids
  {
  }

  lemma TouchedOnlyTmp(d: Dir, b: Dir, log: Log, next: Log)
    requires Safe(d, log, next) && Tidy(d) && SeqReadable(d) && OnlyTouches(d, b, SEQ + TMP)
    ensures CachesSay(b, ReadSeq(d), ReadConsumed(d)) && Tidy(b)
  {
    NamesDiffer();
    TouchedSeq(d, b, SEQ + TMP);
    TouchedConsumed(d, b, SEQ + TMP);
    TidyTouched(d, b, SEQ + TMP);
  }

  lemma BumpSeqEnd(d: Dir, log: Log, next: Log, value: int) returns (d1: Dir)
    requires Safe(d, log, next) && Tidy(d) && SeqReadable(d) && NotAhead(value, log)
    ensures Runs(d, AtomicWrite(SEQ, SeqText(value))) && d1 == Exec(d, AtomicWrite(SEQ, SeqText(value)))
    ensures Safe(d1, log, next) && Tidy(d1) && CachesSay(d1, value, ReadConsumed(d))
  {
    hide RootOk, JobsOk, Runs, Exec, OnlyTouches, After;
    d1 := CacheWrite(d, SEQ, SeqText(value), log, next);
    ReplacedCaches(d, d1, value);
    TidyReplaced(d, d1, value);
  }

  lemma ReplacedFrame(d: Dir, e: Dir, n: Name, c: Content, t: Name)
    requires Wf(d) && Replaced(d, e, n, c) && t != n && t != n + TMP
    ensures t in View(e) <==> t in View(d)
    ensures t in View(d) ==> View(e)[t] == View(d)[t]
  {
    WfView(d);
  }

  lemma BumpConsumed(d: Dir, log: Log, next: Log, value: int, ids: set<Name>, job: Name, k: nat) returns (e: Dir)
    requires Safe(d, log, next) && Tidy(d) && CachesSay(d, value, ids) && k <= 3
    ensures Runs(d, AppendOps(job)[..k]) && e == Exec(d, AppendOps(job)[..k])
    ensures Safe(e, log, next) && Tidy(e)
    ensures CachesSay(e, value, ids + (if k >= 2 then {job} else {}))
  {
    NamesDiffer();
    hide Wf, RootOk, JobsOk, OnlyTouches, Apart, Runs, Exec, AppendOps, ReadConsumed;
    e := AppendRuns(d, job, k);
    TouchedSeq(d, e, CONSUMED);
    TouchKeepsRoot(d, e, CONSUMED, log);
    TidyTouched(d, e, CONSUMED);
  }

  // ------------------------------------------------------------- the whole commit

  /** The log after an undisturbed `commit()`: put-if-absent. */
  ghost function LogAfter(d: Dir, c: Request, ls: Lister): Log {
    if CommitPlan(d, c, ls).0.Committed? then LogOf(d)[c.job := RecordFor(c)] else LogOf(d)
  }

  lemma MaxCoversNew(v: int, log: Log, c: Request)
    requires IsMaxSeq(v, log) && c.job !in log
    ensures IsMaxSeq(Max(v, c.number), log[c.job := RecordFor(c)])
  {
    MaxNotAhead(v, log, c);
  }

  lemma MaxNotAhead(v: int, log: Log, c: Request)
    requires NotAhead(v, log) && c.job !in log
    ensures NotAhead(Max(v, c.number), log[c.job := RecordFor(c)])
  {
    var next := log[c.job := RecordFor(c)];
    assert c.job in next && next[c.job].number == c.number;
    if v > c.number {
      InsertGrows(log, c.job, RecordFor(c));
      NotAheadGrows(v, log, next);
    }
  }

  /** The caches read the same when only the results directory changed. */
  lemma CachesUnmoved(d: Dir, r: Dir, log: Log, next: Log)
    requires Safe(d, log, next)
    ensures var e := WithSub(d, RESULTS, r);
      && e.pending == d.pending && (SeqReadable(d) ==> CachesSay(e, ReadSeq(d), ReadConsumed(d)))
      && (Appendable(d) ==> Appendable(e)) && (Tidy(d) ==> Tidy(e))
  {
    NamesDiffer();
    WfView(d);
    var e := WithSub(d, RESULTS, r);
    assert View(e) == View(d);
    assert forall k: nat | k <= |d.pending| :: After(e, k) == After(d, k);
  }

  lemma NotLinkedAway(d: Dir, log: Log, next: Log, c: Request, ls: Lister)
    requires Safe(d, log, next)
    requires CommitPlan(d, c, ls).1 != [] || CommitPlan(d, c, ls).0.Committed?
    ensures var res := Sub(d, RESULTS);
      c.job in View(res) ==> HasFolder(res, c.job) && !DoneIn(res, c.job)
  {
    assert Wf(Sub(d, RESULTS));
    WfView(Sub(d, RESULTS));
  }

  /** Through step 3: the job is committed, the caches are still the old ones. */
  lemma BodyEnds(d: Dir, c: Request, ls: Lister) returns (e: Dir)
    requires Standing(d) && Lists(ls) && CommitPlan(d, c, ls).0.Committed?
    ensures Runs(d, ResultOps(d, c, ls)) && e == Exec(d, ResultOps(d, c, ls)) && c.job !in LogOf(d)
    ensures LogAfter(d, c, ls) == LogOf(d)[c.job := RecordFor(c)]
    ensures Safe(e, LogAfter(d, c, ls), LogAfter(d, c, ls)) && Tidy(e) && CachesSay(e, ReadSeq(d), ReadConsumed(d))
  {
    StandingReads(d);
    hide Wf, RootOk, JobsOk, InResults, Runs, Exec, Tidy, SeqReadable, ReadSeq, ReadConsumed, CachesSay, LogOf,
      NotAhead;
    var body, log := ResultOps(d, c, ls), LogOf(d);
    NotLinkedAway(d, LogOf(d), LogOf(d), c, ls);
    assert body[..|body|] == body;
    JobPart(d, log, log, c, ls, |body|);
    e := Exec(d, body);
    var r :| e == WithSub(d, RESULTS, r);
    CachesUnmoved(d, r, log, log);
  }

  /** Through step 4: the caches have followed. */
  lemma CommittedEnds(d: Dir, c: Request, ls: Lister) returns (e: Dir, f: Dir)
    requires Standing(d) && Lists(ls) && CommitPlan(d, c, ls).0.Committed?
    ensures Runs(d, ResultOps(d, c, ls)) && e == Exec(d, ResultOps(d, c, ls)) && c.job !in LogOf(d) && SeqReadable(d)
    ensures LogAfter(d, c, ls) == LogOf(d)[c.job := RecordFor(c)]
    ensures Safe(e, LogAfter(d, c, ls), LogAfter(d, c, ls)) && Tidy(e) && CachesSay(e, ReadSeq(d), ReadConsumed(d))
    ensures NotAhead(Max(ReadSeq(d), c.number), LogAfter(d, c, ls))
    ensures Runs(e, BumpOps(Max(ReadSeq(d), c.number), c.job))
    ensures f == Exec(e, BumpOps(Max(ReadSeq(d), c.number), c.job))
    ensures Safe(f, LogAfter(d, c, ls), LogAfter(d, c, ls)) && Tidy(f) && f.pending == []
    ensures CachesSay(f, Max(ReadSeq(d), c.number), ReadConsumed(d) + {c.job})
  {
    StandingReads(d);
    hide Standing, CommitPlan, Safe, Tidy, InResults, ResultOps, BumpOps, Runs, Exec, LogOf, LogAfter, RecordFor,
      ReadSeq, ReadConsumed, SeqReadable, NotAhead, CachesSay, Max;
    e := BodyEnds(d, c, ls);
    MaxNotAhead(ReadSeq(d), LogOf(d), c);
    CachesMean(e, ReadSeq(d), ReadConsumed(d));
    var d1, f1 := BumpRuns(e, LogAfter(d, c, ls), LogAfter(d, c, ls), Max(ReadSeq(d), c.number), c.job);
    f := f1;
  }

  lemma StandingFrom(d: Dir, log: Log)
    requires Safe(d, log, log) && Tidy(d) && ReadConsumed(d) <= log.Keys
    ensures Standing(d) && LogOf(d) == log
  {
    SafeShowsLog(d, log);
  }

  lemma AtRestFrom(d: Dir, log: Log, v: int)
    requires Safe(d, log, log) && d.pending == [] && Appendable(d)
    requires CachesSay(d, v, log.Keys) && IsMaxSeq(v, log)
    ensures AtRest(d) && LogOf(d) == log
  {
    SafeShowsLog(d, log);
  }

  /** A refused commit leaves the box standing wherever it stops. */
  lemma RefusedAt(d: Dir, c: Request, ls: Lister, k: nat)
    requires Standing(d) && Lists(ls) && CommitPlan(d, c, ls).0.Refused? && CommitPlan(d, c, ls).1 != []
    requires k <= |CommitPlan(d, c, ls).1|
    ensures var ops := CommitPlan(d, c, ls).1[..k];
      && Runs(d, ops) && Standing(Exec(d, ops)) && LogOf(Exec(d, ops)) == LogOf(d)
      && Exec(d, ops).pending == d.pending && SeqReadable(d) && CachesSay(Exec(d, ops), ReadSeq(d), ReadConsumed(d))
  {
    StandingReads(d);
    var ops, log := CommitPlan(d, c, ls).1[..k], LogOf(d);
    NotLinkedAway(d, LogOf(d), LogOf(d), c, ls);
    hide Wf, RootOk, JobsOk, InResults, Runs, Exec, Tidy, SeqReadable, ReadSeq, ReadConsumed, LogOf, NotAhead;
    RefusedPart(d, log, log, c, ls, k);
    var e := Exec(d, ops);
    var r :| e == WithSub(d, RESULTS, r);
    CachesUnmoved(d, r, log, log);
    StandingFrom(e, log);
  }

  /** An undisturbed `commit()` is put-if-absent on the log from any standing box:
      none of its calls can fail, and the caches move by exactly this job. */
  lemma CommitStands(d: Dir, c: Request, ls: Lister)
    requires Standing(d) && Lists(ls)
    ensures SeqReadable(d)
    ensures var (o, ops) := CommitPlan(d, c, ls);
      && Runs(d, ops) && Standing(Exec(d, ops))
      && LogOf(Exec(d, ops)) == LogAfter(d, c, ls)
      && (o.Committed? ==> c.job !in LogOf(d) && LogAfter(d, c, ls) == LogOf(d)[c.job := RecordFor(c)])
      && (o.AlreadyCommitted? <==> ValidJobId(c.job) && c.job in LogOf(d))
      && !o.CacheUnreadable?
      && (if o.Committed?
          then Exec(d, ops).pending == []
            && CachesSay(Exec(d, ops), Max(ReadSeq(d), c.number), ReadConsumed(d) + {c.job})
          else Exec(d, ops).pending == d.pending && CachesSay(Exec(d, ops), ReadSeq(d), ReadConsumed(d)))
  {
    StandingReads(d);
    var (o, ops) := CommitPlan(d, c, ls);
    assert c.job in LogOf(d) <==> DoneIn(Sub(d, RESULTS), c.job);
    if o.Committed? {
      CommittedStands(d, c, ls);
    } else if ops != [] {
      assert ops[..|ops|] == ops;
      RefusedAt(d, c, ls, |ops|);
    }
  }

  lemma CommittedStands(d: Dir, c: Request, ls: Lister)
    requires Standing(d) && Lists(ls) && CommitPlan(d, c, ls).0.Committed?
    ensures var ops, next := CommitPlan(d, c, ls).1, LogAfter(d, c, ls);
      && Runs(d, ops) && Standing(Exec(d, ops)) && LogOf(Exec(d, ops)) == next
      && c.job !in LogOf(d) && next == LogOf(d)[c.job := RecordFor(c)] && Exec(d, ops).pending == []
      && SeqReadable(d) && CachesSay(Exec(d, ops), Max(ReadSeq(d), c.number), ReadConsumed(d) + {c.job})
  {
    var e, f := CommittedEnds(d, c, ls);
    var log, next := LogOf(d), LogAfter(d, c, ls);
    assert ReadConsumed(d) <= log.Keys && next.Keys == log.Keys + {c.job};
    CachesMean(f, Max(ReadSeq(d), c.number), ReadConsumed(d) + {c.job});
    assert CommitPlan(d, c, ls).1 == ResultOps(d, c, ls) + BumpOps(Max(ReadSeq(d), c.number), c.job);
    hide Standing, CommitPlan, Safe, Tidy, ResultOps, BumpOps, Runs, Exec, LogOf, LogAfter, RecordFor, ReadSeq,
      ReadConsumed, SeqReadable, NotAhead, CachesSay, Max;
    ExecConcat(d, ResultOps(d, c, ls), BumpOps(Max(ReadSeq(d), c.number), c.job));
    StandingFrom(f, next);
  }

  /** ... and from a box at rest it leaves both caches exactly the projection of
      the markers. */
  lemma CommitEnds(d: Dir, c: Request, ls: Lister)
    requires AtRest(d) && Lists(ls)
    ensures var (o, ops) := CommitPlan(d, c, ls);
      && Runs(d, ops) && AtRest(Exec(d, ops))
      && LogOf(Exec(d, ops)) == LogAfter(d, c, ls)
      && (o.Committed? ==> c.job !in LogOf(d))
      && (o.AlreadyCommitted? <==> ValidJobId(c.job) && c.job in LogOf(d))
      && !o.CacheUnreadable?
  {
    RestStands(d);
    CommitStands(d, c, ls);
    var (o, ops) := CommitPlan(d, c, ls);
    var e, log, next := Exec(d, ops), LogOf(d), LogAfter(d, c, ls);
    assert IsMaxSeq(ReadSeq(d), log) && ReadConsumed(d) == log.Keys && d.pending == [];
    assert Safe(e, next, next) && Appendable(e);
    hide AtRest, Standing, CommitPlan, Safe, Appendable, Tidy, Runs, Exec, LogOf, LogAfter, RecordFor, ReadSeq,
      ReadConsumed, SeqReadable, IsMaxSeq, CachesSay, Max;
    if o.Committed? {
      MaxCoversNew(ReadSeq(d), log, c);
      assert next.Keys == log.Keys + {c.job};
      AtRestFrom(e, next, Max(ReadSeq(d), c.number));
    } else {
      assert next == log by { NothingAdded(d, c, ls); }
      AtRestFrom(e, next, ReadSeq(d));
    }
  }

  lemma NothingAdded(d: Dir, c: Request, ls: Lister)
    requires !CommitPlan(d, c, ls).0.Committed?
    ensures LogAfter(d, c, ls) == LogOf(d)
  {
  }

  lemma CommittedAt(d: Dir, c: Request, ls: Lister, k: nat)
    requires Standing(d) && Lists(ls) && CommitPlan(d, c, ls).0.Committed? && k <= |CommitPlan(d, c, ls).1|
    ensures var ops := CommitPlan(d, c, ls).1;
      && Runs(d, ops[..k])
      && var e, log, next := Exec(d, ops[..k]), LogOf(d), LogAfter(d, c, ls);
      (Safe(e, log, next) || Safe(e, next, next))
  {
    hide Standing, Safe, CommitPlan, ResultOps, Runs, Exec, LogOf, LogAfter;
    CommittedPlan(d, c, ls);
    if k < |ResultOps(d, c, ls)| {
      CommittedEarly(d, c, ls, k);
      assert CommitPlan(d, c, ls).1[..k] == ResultOps(d, c, ls)[..k];
    } else {
      CommittedLate(d, c, ls, k);
    }
  }

  lemma CommittedPlan(d: Dir, c: Request, ls: Lister)
    requires CommitPlan(d, c, ls).0.Committed?
    ensures SeqReadable(d) && GoodPrefix(c.outs) == c.outs
    ensures CommitPlan(d, c, ls).1 == ResultOps(d, c, ls) + BumpOps(Max(ReadSeq(d), c.number), c.job)
    ensures LogAfter(d, c, ls) == LogOf(d)[c.job := RecordFor(c)]
  {
    hide InResults, BumpOps, LogOf;
  }

  lemma CommittedEarly(d: Dir, c: Request, ls: Lister, k: nat)
    requires Standing(d) && Lists(ls) && CommitPlan(d, c, ls).0.Committed? && k < |ResultOps(d, c, ls)|
    ensures Runs(d, ResultOps(d, c, ls)[..k])
    ensures Safe(Exec(d, ResultOps(d, c, ls)[..k]), LogOf(d), LogAfter(d, c, ls))
  {
    var log, next := LogOf(d), LogAfter(d, c, ls);
    NotLinkedAway(d, LogOf(d), LogOf(d), c, ls) by { StandingReads(d); }
    StandingReads(d);
    hide CommitPlan, ResultOps, Runs, Exec, LogOf, LogAfter, RecordFor, DoneIn, View, GoodPrefix, Tidy;
    CommittedPlan(d, c, ls);
    hide Safe;
    JobPart(d, log, log, c, ls, k);
    if k < |ResultOps(d, c, ls)| - 1 { SafeWeakens(Exec(d, ResultOps(d, c, ls)[..k]), log, next); }
  }

  lemma CommittedLate(d: Dir, c: Request, ls: Lister, k: nat)
    requires Standing(d) && Lists(ls) && CommitPlan(d, c, ls).0.Committed?
    requires |ResultOps(d, c, ls)| <= k <= |CommitPlan(d, c, ls).1|
    ensures Runs(d, CommitPlan(d, c, ls).1[..k])
    ensures Safe(Exec(d, CommitPlan(d, c, ls).1[..k]), LogAfter(d, c, ls), LogAfter(d, c, ls))
  {
    hide Standing, CommitPlan, Safe, Tidy, ResultOps, BumpOps, Runs, Exec, LogOf, LogAfter, RecordFor, ReadSeq,
      ReadConsumed, SeqReadable, NotAhead, CachesSay, Max, GoodPrefix;
    CommittedPlan(d, c, ls);
    var body, value := ResultOps(d, c, ls), Max(ReadSeq(d), c.number);
    var e, f := CommittedEnds(d, c, ls);
    CachesMean(e, ReadSeq(d), ReadConsumed(d));
    BumpAt(e, LogAfter(d, c, ls), LogAfter(d, c, ls), value, c.job, k - |body|);
    ExecSplit(d, body, BumpOps(value, c.job), k);
  }

  /** Where a power cut in the middle of `commit()` can find the disk. */
  lemma CommitAt(d: Dir, c: Request, ls: Lister, k: nat)
    requires Standing(d) && Lists(ls) && k <= |CommitPlan(d, c, ls).1|
    ensures var (o, ops) := CommitPlan(d, c, ls);
      && Runs(d, ops[..k])
      && var e, log, next := Exec(d, ops[..k]), LogOf(d), LogAfter(d, c, ls);
      (Safe(e, log, next) || Safe(e, next, next))
  {
    StandingReads(d);
    var (o, ops) := CommitPlan(d, c, ls);
    hide Wf, RootOk, JobsOk, InResults, BumpOps, Runs, Exec;
    if o.Committed? {
      CommittedAt(d, c, ls, k);
    } else if ops == [] {
      CommitStands(d, c, ls);
      assert ops[..k] == ops;
    } else {
      NotLinkedAway(d, LogOf(d), LogOf(d), c, ls);
      RefusedPart(d, LogOf(d), LogOf(d), c, ls, k);
    }
  }

  lemma SafeWeakens(d: Dir, log: Log, next: Log)
    requires Safe(d, log, log)
    ensures Safe(d, log, next)
  {
    var res := Sub(d, RESULTS);
    forall k: nat | k <= |res.pending|
      ensures JobsIn(res.nodes, After(res, k), log, next)
    {
      assert JobsIn(res.nodes, After(res, k), log, log);
    }
  }

  // ------------------------------------------------------------- power cuts

  lemma RootSurvives(d: Dir, log: Log, w: World)
    requires Wf(d) && RootOk(d, log)
    ensures var c := Crash(d, w, []); var i := View(d)[RESULTS];
      && RootOk(c, log) && HasFolder(c, RESULTS)
      && Sub(c, RESULTS) == Crash(Sub(d, RESULTS), w, [i])
  {
    NamesDiffer();
    var c := Crash(d, w, []);
    var m := After(d, Kept(d, [], w));
    assert RootEntries(d.nodes, m, View(d)[RESULTS], log);
    assert View(c) == m && After(c, 0) == m;
    assert [] + [View(d)[RESULTS]] == [View(d)[RESULTS]];
    assert EntriesOk(m, |d.nodes|);
    forall n | n in m
      ensures c.nodes[m[n]] == CrashNode(d.nodes[m[n]], w, [m[n]])
    {
      assert [] + [m[n]] == [m[n]];
    }
  }

  /** The crash theorem, on any safe disk: the medium afterwards is settled, shows
      the old log plus possibly the landing jobs, and its seq file is usable. */
  lemma CrashIsSafe(d: Dir, log: Log, next: Log, w: World)
    requires Safe(d, log, next)
    ensures var c := Crash(d, w, []);
      && Safe(c, LogOf(c), LogOf(c)) && c.pending == []
      && log.Items <= LogOf(c).Items
      && (forall j | j in LogOf(c) && j !in log :: j in next && LogOf(c)[j] == next[j])
  {
    var c := Crash(d, w, []);
    CrashKeepsWf(d, w, []);
    RootSurvives(d, log, w);
    CrashShowsLog(Sub(d, RESULTS), log, next, w, [View(d)[RESULTS]]);
    RootGrows(c, log, LogOf(c));
  }

  lemma RootGrows(d: Dir, log: Log, more: Log)
    requires RootOk(d, log) && log.Items <= more.Items
    ensures RootOk(d, more)
  {
    forall k: nat | k <= |d.pending|
      ensures RootEntries(d.nodes, After(d, k), View(d)[RESULTS], more)
    {
      var m := After(d, k);
      assert RootEntries(d.nodes, m, View(d)[RESULTS], log);
      if SEQ in m { NotAheadGrows(d.nodes[m[SEQ]].content.value, log, more); }
    }
  }

  /** All or nothing: a power cut anywhere in `commit()` leaves the log as it was,
      or with the one new job in it, complete with every byte. */
  lemma CommitCrash(d: Dir, c: Request, ls: Lister, k: nat, w: World)
    requires Standing(d) && Lists(ls) && k <= |CommitPlan(d, c, ls).1|
    ensures var ops := CommitPlan(d, c, ls).1;
      && Runs(d, ops[..k])
      && var m := Crash(Exec(d, ops[..k]), w, []);
      && Safe(m, LogOf(m), LogOf(m)) && m.pending == []
      && LogOf(m) in {LogOf(d), LogAfter(d, c, ls)}
  {
    CommitAt(d, c, ls, k);
    CommitStands(d, c, ls);
    var e := Exec(d, CommitPlan(d, c, ls).1[..k]);
    var log, next := LogOf(d), LogAfter(d, c, ls);
    var m := Crash(e, w, []);
    if Safe(e, log, next) {
      CrashIsSafe(e, log, next, w);
      OneMore(log, next, LogOf(m), c.job);
    } else {
      CrashIsSafe(e, next, next, w);
      OneMore(next, next, LogOf(m), c.job);
    }
  }

  lemma OneMore(log: Log, next: Log, found: Log, job: Name)
    requires log.Items <= found.Items
    requires forall j | j in found && j !in log :: j in next && found[j] == next[j]
    requires next == log || (job !in log && job in next && next == log[job := next[job]])
    ensures found in {log, next}
  {
    forall j | j in log
      ensures j in found && found[j] == log[j]
    {
      assert (j, log[j]) in log.Items;
    }
    if job in found && job !in log {
      assert found == next;
    } else {
      assert found == log;
    }
  }
}
