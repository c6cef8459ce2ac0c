/** `reconcile_on_boot()`: purge what never committed, rebuild both caches from
    the markers. */
module Reconcile {
  import opened Basics
  import opened Storage
  import opened JobDir
  import opened RemoveTree
  import opened ResultsDir
  import opened CommitLog

  ghost predicate Purgeable(res: Dir, n: Name) {
    HasFolder(res, n) && !DoneIn(res, n)
  }

  ghost function PurgeOne(res: Dir, n: Name, ls: Lister): seq<Op> {
    if Purgeable(res, n) then RemoveOps(res, n, ls) else []
  }

  ghost function PurgeOps(res: Dir, names: seq<Name>, ls: Lister): seq<Op> {
    if names == [] then []
    else PurgeOps(res, names[..|names| - 1], ls) + PurgeOne(res, names[|names| - 1], ls)
  }

  /** `consumed`, in listing order. */
  ghost function Survivors(res: Dir, names: seq<Name>): seq<Name> {
    if names == [] then []
    else
      var n := names[|names| - 1];
      Survivors(res, names[..|names| - 1]) + (if DoneIn(res, n) then [n] else [])
  }

  /** `max_seq`. */
  ghost function MaxDone(res: Dir, names: seq<Name>): int {
    if names == [] then 0
    else var m := MaxDone(res, names[..|names| - 1]); var n := names[|names| - 1];
      if DoneIn(res, n) then Max(m, RecordIn(res, n).number) else m
  }

  ghost function RebuildOps(value: int, ids: seq<Name>): seq<Op> {
    AtomicWrite(SEQ, SeqText(value)) + AtomicWrite(CONSUMED, LinesText(ids)) + [Op([], FsyncDir)]
  }

  ghost function PurgeAll(d: Dir, ls: Lister): seq<Op> {
    (if HasFolder(d, RESULTS) then [] else [Op([], Mkdir(RESULTS))])
    + Under(RESULTS, PurgeOps(ResultsOf(d), ls(View(ResultsOf(d)).Keys), ls))
  }

  /** The whole boot pass; it stops with a ValueError when the seq file is unreadable. */
  ghost function ReconcileOps(d: Dir, ls: Lister): seq<Op> {
    var res := ResultsOf(d);
    var names := ls(View(res).Keys);
    PurgeAll(d, ls)
    + (if SeqReadable(d) then RebuildOps(Max(ReadSeq(d), MaxDone(res, names)), Survivors(res, names)) else [])
  }

  // ------------------------------------------------------------- purging

  /** Part-way through the purge: the names still to come are as they were. */
  ghost predicate Purged(res: Dir, e: Dir, names: seq<Name>) {
    && (forall n | Has(res, n) && n !in names :: Has(e, n) && At(e, n) == At(res, n))
    && (forall n | n in names && Purgeable(res, n) :: n !in View(e))
    && (forall n | n in View(e) :: Has(e, n) && Has(res, n) && At(e, n) == At(res, n))
  }

  ghost predicate Distinct(names: seq<Name>) {
    forall i, j | 0 <= i < j < |names| :: names[i] != names[j]
  }

  lemma {:induction false} PurgeRuns(res: Dir, log: Log, names: seq<Name>, ls: Lister) returns (e: Dir)
    requires Wf(res) && JobsOk(res, log, log) && Lists(ls) && Distinct(names)
    ensures Runs(res, PurgeOps(res, names, ls)) && e == Exec(res, PurgeOps(res, names, ls))
    ensures Wf(e) && JobsOk(e, log, log) && Purged(res, e, names)
    decreases |names|
  {
    if names == [] {
      e := res;
      WfView(res);
    } else {
      var init, n := names[..|names| - 1], names[|names| - 1];
      var m := PurgeRuns(res, log, init, ls);
      e := PurgeOneRuns(res, m, log, init, n, ls, 0);
      assert init + [n] == names;
      ExecConcat(res, PurgeOps(res, init, ls), PurgeOne(res, n, ls));
    }
  }

  lemma {:induction false} PurgeAt(res: Dir, log: Log, names: seq<Name>, ls: Lister, k: nat)
    requires Wf(res) && JobsOk(res, log, log) && Lists(ls) && Distinct(names)
    requires k <= |PurgeOps(res, names, ls)|
    ensures var ops := PurgeOps(res, names, ls);
      Runs(res, ops[..k]) && JobsOk(Exec(res, ops[..k]), log, log)
    decreases |names|
  {
    if names == [] {
      assert PurgeOps(res, names, ls)[..k] == [];
    } else {
      assert PurgeOps(res, names, ls)
        == PurgeOps(res, names[..|names| - 1], ls) + PurgeOne(res, names[|names| - 1], ls);
      var init, n := names[..|names| - 1], names[|names| - 1];
      var a, b := PurgeOps(res, init, ls), PurgeOne(res, n, ls);
      if k <= |a| {
        PurgeAt(res, log, init, ls, k);
        assert (a + b)[..k] == a[..k];
      } else {
        PurgeAtLast(res, log, init, n, ls, k);
      }
    }
  }

  lemma PurgeAtLast(res: Dir, log: Log, init: seq<Name>, n: Name, ls: Lister, k: nat)
    requires Wf(res) && JobsOk(res, log, log) && Lists(ls) && Distinct(init) && n !in init
    requires |PurgeOps(res, init, ls)| <= k <= |PurgeOps(res, init, ls) + PurgeOne(res, n, ls)|
    ensures var ops := PurgeOps(res, init, ls) + PurgeOne(res, n, ls);
      Runs(res, ops[..k]) && JobsOk(Exec(res, ops[..k]), log, log)
  {
    var a, b := PurgeOps(res, init, ls), PurgeOne(res, n, ls);
    var m := PurgeRuns(res, log, init, ls);
    var _ := PurgeOneRuns(res, m, log, init, n, ls, k - |a|);
    ExecSplit(res, a, b, k);
  }

  lemma PurgeOneRuns(res: Dir, m: Dir, log: Log, init: seq<Name>, n: Name, ls: Lister, j: nat) returns (e: Dir)
    requires Wf(m) && JobsOk(m, log, log) && Lists(ls) && Purged(res, m, init) && n !in init
    requires j <= |PurgeOne(res, n, ls)|
    ensures var b := PurgeOne(res, n, ls);
      && Runs(m, b) && e == Exec(m, b) && Runs(m, b[..j])
      && Wf(Exec(m, b[..j])) && JobsOk(Exec(m, b[..j]), log, log)
    ensures Wf(e) && JobsOk(e, log, log) && Purged(res, e, init + [n])
  {
    var b := PurgeOne(res, n, ls);
    if Purgeable(res, n) {
      assert At(m, n) == At(res, n) && RemoveOps(m, n, ls) == b;
      WipeKeepsJobs(m, log, log, n, ls, |b|);
      WipeKeepsJobs(m, log, log, n, ls, j);
      assert b[..|b|] == b;
      e := Exec(m, b);
      WfView(e);
      PurgedOneMore(res, m, e, init, n);
    } else {
      e := m;
      PurgedSkips(res, e, init, n);
      assert b[..0] == b;
    }
  }

  lemma PurgedOneMore(res: Dir, m: Dir, e: Dir, init: seq<Name>, n: Name)
    requires Purged(res, m, init) && View(e) == View(m) - {n}
    requires forall x | Has(m, x) && x != n :: Has(e, x) && At(e, x) == At(m, x)
    requires forall x | x in View(e) :: Has(e, x)
    ensures Purged(res, e, init + [n])
  {
    forall x | x in View(e)
      ensures Has(res, x) && At(e, x) == At(res, x)
    {
      assert x in View(m) && x != n;
    }
  }

  lemma PurgedSkips(res: Dir, e: Dir, init: seq<Name>, n: Name)
    requires Purged(res, e, init) && !Purgeable(res, n)
    ensures Purged(res, e, init + [n])
  {
  }

  // ------------------------------------------------------------- the projection

  lemma {:induction false} SurvivorsAre(res: Dir, names: seq<Name>)
    ensures forall n :: n in Survivors(res, names) <==> n in names && DoneIn(res, n)
  {
    if names != [] {
      SurvivorsAre(res, names[..|names| - 1]);
      assert names == names[..|names| - 1] + [names[|names| - 1]];
    }
  }

  lemma {:induction false} MaxDoneIs(res: Dir, names: seq<Name>)
    ensures MaxDone(res, names) >= 0
    ensures forall n | n in names && DoneIn(res, n) :: RecordIn(res, n).number <= MaxDone(res, names)
    ensures MaxDone(res, names) == 0
      || exists n :: n in names && DoneIn(res, n) && RecordIn(res, n).number == MaxDone(res, names)
  {
    if names != [] {
      var init, n := names[..|names| - 1], names[|names| - 1];
      MaxDoneIs(res, init);
      assert names == init + [n];
      if DoneIn(res, n) && MaxDone(res, init) < RecordIn(res, n).number {
        assert n in names;
      }
    }
  }

  /** What the scan collects is the projection of the markers, provided the old
      seq file was not ahead of them. */
  lemma ScanIsProjection(d: Dir, log: Log, ls: Lister)
    requires Safe(d, log, log) && Lists(ls)
    ensures var res := Sub(d, RESULTS); var names := ls(View(res).Keys);
      && SeqReadable(d) && IsMaxSeq(Max(ReadSeq(d), MaxDone(res, names)), log)
      && (set n | n in Survivors(res, names)) == log.Keys
  {
    hide Wf, JobsOk, Survivors, MaxDone;
    var res := Sub(d, RESULTS);
    var names := ls(View(res).Keys);
    assert IsListing(names, View(res).Keys);
    SettledShowsLog(res, log);
    SurvivorsAre(res, names);
    MaxDoneIs(res, names);
    RootView(d, log);
    var v, m := ReadSeq(d), MaxDone(res, names);
    assert NotAhead(v, log);
    forall j | j in log
      ensures log[j].number <= m
    {
      assert j in names && DoneIn(res, j);
    }
    if m > 0 {
      var n :| n in names && DoneIn(res, n) && RecordIn(res, n).number == m;
      assert n in log && log[n].number == m;
    }
    assert NotAhead(m, log);
  }

  // ------------------------------------------------------------- rebuilding

  lemma ReplacedConsumed(d: Dir, e: Dir, ids: seq<Name>, v: int)
    requires Wf(d) && SeqReadable(d) && ReadSeq(d) == v && Replaced(d, e, CONSUMED, LinesText(ids))
    ensures CachesSay(e, v, set n | n in ids) && Appendable(e)
  {
    NamesDiffer();
    WfView(d);
  }

  lemma RebuildRuns(d: Dir, log: Log, v: int, ids: seq<Name>) returns (d1: Dir, d2: Dir, f: Dir)
    requires Safe(d, log, log) && d.pending == [] && NotAhead(v, log)
    ensures var a, b := AtomicWrite(SEQ, SeqText(v)), AtomicWrite(CONSUMED, LinesText(ids));
      && Runs(d, a) && d1 == Exec(d, a) && Safe(d1, log, log) && Apart(d1, CONSUMED + TMP)
      && Runs(d1, b) && d2 == Exec(d1, b) && Safe(d2, log, log)
      && Runs(d2, [Op([], FsyncDir)]) && f == Exec(d2, [Op([], FsyncDir)])
      && Sub(f, RESULTS) == Sub(d, RESULTS)
    ensures Safe(f, log, log) && f.pending == [] && CachesSay(f, v, set n | n in ids) && Appendable(f)
  {
    d1 := FirstCache(d, log, v);
    hide Wf, RootOk, JobsOk, OnlyTouches, Apart, Tidy, SeqReadable, ReadSeq, Appendable, CachesSay, TmpUntilLast,
      Replaced, Runs, Exec;
    d2 := CacheWrite(d1, CONSUMED, LinesText(ids), log, log);
    ReplacedConsumed(d1, d2, ids, v);
    StateFsync(d2, log, log);
    f := Perform(d2, FsyncDir);
    SameCaches(d2, f, v, set n | n in ids);
  }

  lemma FirstCache(d: Dir, log: Log, v: int) returns (d1: Dir)
    requires Safe(d, log, log) && d.pending == [] && NotAhead(v, log)
    ensures Runs(d, AtomicWrite(SEQ, SeqText(v))) && d1 == Exec(d, AtomicWrite(SEQ, SeqText(v)))
    ensures Safe(d1, log, log) && Apart(d1, CONSUMED + TMP) && SeqReadable(d1) && ReadSeq(d1) == v
    ensures Sub(d1, RESULTS) == Sub(d, RESULTS)
  {
    NamesDiffer();
    ApartSettled(d, SEQ + TMP);
    ApartSettled(d, CONSUMED + TMP);
    hide RootOk, JobsOk, OnlyTouches, Runs, Exec, After, Apart;
    d1 := CacheWrite(d, SEQ, SeqText(v), log, log);
    ReplacedFrame(d, d1, SEQ, SeqText(v), CONSUMED + TMP);
    ApartAfterWrite(d, d1, SEQ, CONSUMED + TMP);
  }

  lemma SameCaches(d: Dir, e: Dir, v: int, ids: set<Name>)
    requires e.nodes == d.nodes && View(e) == View(d) && CachesSay(d, v, ids) && Appendable(d)
    ensures CachesSay(e, v, ids) && Appendable(e)
  {
  }

  /** The boot pass, uninterrupted, from any settled medium: it cannot fail, it
      keeps the log, it makes both caches the projection of the markers, and it
      leaves no job directory without a valid marker. */
  lemma ReconcileEnds(d: Dir, ls: Lister) returns (p: Dir, f: Dir)
    requires Safe(d, LogOf(d), LogOf(d)) && d.pending == [] && Lists(ls)
    ensures Runs(d, PurgeAll(d, ls)) && p == Exec(d, PurgeAll(d, ls))
    ensures Safe(p, LogOf(d), LogOf(d)) && p.pending == [] && SeqReadable(d)
    ensures Runs(d, ReconcileOps(d, ls)) && f == Exec(d, ReconcileOps(d, ls))
    ensures AtRest(f) && LogOf(f) == LogOf(d)
    ensures forall n | HasFolder(Sub(f, RESULTS), n) :: DoneIn(Sub(f, RESULTS), n)
  {
    assert HasFolder(d, RESULTS);
    hide Wf, RootOk, JobsOk, Runs, Exec, PurgeAll;
    var log, res := LogOf(d), Sub(d, RESULTS);
    var names := ls(View(res).Keys);
    assert IsListing(names, View(res).Keys);
    p := PurgeEnds(d, ls);
    ScanIsProjection(d, log, ls);
    var v, ids := Max(ReadSeq(d), MaxDone(res, names)), Survivors(res, names);
    var d1, d2, f1 := RebuildRuns(p, log, v, ids);
    f := f1;
    var a, b, last := AtomicWrite(SEQ, SeqText(v)), AtomicWrite(CONSUMED, LinesText(ids)), [Op([], FsyncDir)];
    ExecConcat(p, a, b);
    ExecConcat(p, a + b, last);
    ExecConcat(d, PurgeAll(d, ls), RebuildOps(v, ids));
    SafeShowsLog(f, log);
  }

  lemma PurgeEnds(d: Dir, ls: Lister) returns (p: Dir)
    requires Safe(d, LogOf(d), LogOf(d)) && d.pending == [] && Lists(ls)
    ensures Runs(d, PurgeAll(d, ls)) && p == Exec(d, PurgeAll(d, ls))
    ensures Safe(p, LogOf(d), LogOf(d)) && p.pending == []
    ensures forall n | HasFolder(Sub(p, RESULTS), n) :: DoneIn(Sub(p, RESULTS), n)
  {
    var log, res := LogOf(d), Sub(d, RESULTS);
    var names := ls(View(res).Keys);
    assert IsListing(names, View(res).Keys);
    var ops := PurgeOps(res, names, ls);
    assert PurgeAll(d, ls) == Under(RESULTS, ops);
    var r := PurgeRuns(res, log, names, ls);
    ExecUnder(d, RESULTS, ops);
    SafeWithResults(d, log, log, r, log, log);
    p := WithSub(d, RESULTS, r);
    assert Sub(p, RESULTS) == r;
  }

  /** ... and at every point of it the medium still shows the same log. */
  lemma ReconcileAt(d: Dir, ls: Lister, k: nat)
    requires Safe(d, LogOf(d), LogOf(d)) && d.pending == [] && Lists(ls)
    requires k <= |ReconcileOps(d, ls)|
    ensures Runs(d, ReconcileOps(d, ls)[..k])
    ensures Safe(Exec(d, ReconcileOps(d, ls)[..k]), LogOf(d), LogOf(d))
  {
    assert HasFolder(d, RESULTS);
    hide Wf, RootOk, JobsOk, Runs, Exec, PurgeAll, RebuildOps;
    var log, res := LogOf(d), Sub(d, RESULTS);
    var names := ls(View(res).Keys);
    ScanIsProjection(d, log, ls);
    var v, ids := Max(ReadSeq(d), MaxDone(res, names)), Survivors(res, names);
    var p := PurgeEnds(d, ls);
    var a := PurgeAll(d, ls);
    RebuildAt(p, log, v, ids, if k <= |a| then 0 else k - |a|);
    ExecSplit(d, a, RebuildOps(v, ids), k);
    if k <= |a| {
      PurgeAllAt(d, ls, k);
    }
  }

  lemma PurgeIs(d: Dir, ls: Lister)
    requires HasFolder(d, RESULTS) && Lists(ls)
    ensures var names := ls(View(Sub(d, RESULTS)).Keys);
      Distinct(names) && PurgeAll(d, ls) == Under(RESULTS, PurgeOps(Sub(d, RESULTS), names, ls))
  {
    hide PurgeOps, View, Under;
    assert IsListing(ls(View(Sub(d, RESULTS)).Keys), View(Sub(d, RESULTS)).Keys);
    assert [] + Under(RESULTS, PurgeOps(Sub(d, RESULTS), ls(View(Sub(d, RESULTS)).Keys), ls))
      == Under(RESULTS, PurgeOps(Sub(d, RESULTS), ls(View(Sub(d, RESULTS)).Keys), ls));
  }

  lemma PurgeAllAt(d: Dir, ls: Lister, k: nat)
    requires Safe(d, LogOf(d), LogOf(d)) && Lists(ls) && k <= |PurgeAll(d, ls)|
    ensures Runs(d, PurgeAll(d, ls)[..k]) && Safe(Exec(d, PurgeAll(d, ls)[..k]), LogOf(d), LogOf(d))
  {
    assert HasFolder(d, RESULTS) && JobsOk(Sub(d, RESULTS), LogOf(d), LogOf(d));
    var log, res := LogOf(d), Sub(d, RESULTS);
    var names := ls(View(res).Keys);
    var ops := PurgeOps(res, names, ls);
    WfSub(d, RESULTS);
    hide Wf, Safe, RootOk, JobsOk, Runs, Exec, PurgeOps, PurgeAll, View, LogOf, WithSub;
    PurgeIs(d, ls);
    PurgeAt(res, log, names, ls, k);
    ExecKeepsWf(res, ops[..k]);
    UnderPrefix(RESULTS, ops, k);
    ExecUnder(d, RESULTS, ops[..k]);
    SafeWithResults(d, log, log, Exec(res, ops[..k]), log, log);
  }

  lemma RebuildAt(d: Dir, log: Log, v: int, ids: seq<Name>, k: nat)
    requires Safe(d, log, log) && d.pending == [] && NotAhead(v, log) && k <= |RebuildOps(v, ids)|
    ensures Runs(d, RebuildOps(v, ids)) && Runs(d, RebuildOps(v, ids)[..k])
    ensures Safe(Exec(d, RebuildOps(v, ids)[..k]), log, log)
  {
    NamesDiffer();
    ApartSettled(d, SEQ + TMP);
    hide Safe, Apart, Runs, Exec, AtomicWrite, RebuildOps;
    var a, b, last := AtomicWrite(SEQ, SeqText(v)), AtomicWrite(CONSUMED, LinesText(ids)), [Op([], FsyncDir)];
    RebuildInParts(v, ids);
    var d1, d2, f := RebuildRuns(d, log, v, ids);
    ExecThree(d, a, b, last, k);
    if k < 4 {
      var _ := CacheWritePart(d, SEQ, SeqText(v), log, log, k);
    } else if k < 8 {
      var _ := CacheWritePart(d1, CONSUMED, LinesText(ids), log, log, k - 4);
    }
  }

  lemma RebuildInParts(v: int, ids: seq<Name>)
    ensures var a, b, last := AtomicWrite(SEQ, SeqText(v)), AtomicWrite(CONSUMED, LinesText(ids)), [Op([], FsyncDir)];
      && RebuildOps(v, ids) == (a + b) + last && |a| == 4 && |b| == 4
      && a[..4] == a && b[..4] == b && last[..1] == last
  {
  }

  /** A power cut anywhere in the boot pass leaves the log as it was, ready for
      the next boot pass. */
  lemma ReconcileCrash(d: Dir, ls: Lister, k: nat, w: World)
    requires Safe(d, LogOf(d), LogOf(d)) && d.pending == [] && Lists(ls)
    requires k <= |ReconcileOps(d, ls)|
    ensures Runs(d, ReconcileOps(d, ls)[..k])
    ensures var m := Crash(Exec(d, ReconcileOps(d, ls)[..k]), w, []);
      && Safe(m, LogOf(m), LogOf(m)) && m.pending == [] && LogOf(m) == LogOf(d)
  {
    hide Wf, RootOk, JobsOk, Runs, Exec, ReconcileOps, Crash;
    ReconcileAt(d, ls, k);
    var log, e := LogOf(d), Exec(d, ReconcileOps(d, ls)[..k]);
    CrashIsSafe(e, log, log, w);
    OneMore(log, log, LogOf(Crash(e, w, [])), "");
  }
}
