/** The very first boot: there is no results directory yet, and its entry becomes
    durable only with the last fsync of the boot pass. */
module FirstBoot {
  import opened Basics
  import opened Storage
  import opened JobDir
  import opened ResultsDir
  import opened CommitLog
  import opened Reconcile
  import opened Box

  /** A state directory no boot pass has been through. */
  ghost predicate Blank(d: Dir) {
    Wf(d) && d.pending == [] && RESULTS !in View(d) && NoCaches(View(d))
  }

  ghost predicate NoCaches(m: map<Name, nat>) {
    SEQ !in m && SEQ + TMP !in m && CONSUMED !in m && CONSUMED + TMP !in m
  }

  // ------------------------------------------------------------- one entry behind

  /** `e` is `f`, except that the entry operation `p` is still waiting in `e`, first in line. */
  ghost predicate Trails(e: Dir, f: Dir, p: EntryOp) {
    e.nodes == f.nodes && e.pending == [p] + f.pending && f.durable == ApplyEntry(e.durable, p)
  }

  lemma {:induction false} ReplayAfterFirst(m: map<Name, nat>, p: EntryOp, ops: seq<EntryOp>)
    ensures Replay(m, [p] + ops) == Replay(ApplyEntry(m, p), ops)
    decreases |ops|
  {
    if ops == [] {
      assert [p] + ops == [p] && [p][..0] == [];
    } else {
      ReplayAfterFirst(m, p, ops[..|ops| - 1]);
      assert ([p] + ops)[..|ops|] == [p] + ops[..|ops| - 1];
    }
  }

  lemma TrailingViews(e: Dir, f: Dir, p: EntryOp)
    requires Trails(e, f, p)
    ensures View(e) == View(f)
    ensures forall k: nat | k <= |f.pending| :: After(e, k + 1) == After(f, k)
    ensures After(e, 0) == e.durable
  {
    ReplayAfterFirst(e.durable, p, f.pending);
    forall k: nat | k <= |f.pending|
      ensures After(e, k + 1) == After(f, k)
    {
      assert e.pending[..k + 1] == [p] + f.pending[..k];
      ReplayAfterFirst(e.durable, p, f.pending[..k]);
    }
  }

  /** Any call but the directory fsync keeps the distance; the fsync closes it. */
  lemma TrailingApply(e: Dir, f: Dir, p: EntryOp, act: Act)
    requires Trails(e, f, p) && CanPerform(f, act)
    ensures CanPerform(e, act)
    ensures if act == FsyncDir then Perform(e, act) == Perform(f, act) else Trails(Perform(e, act), Perform(f, act), p)
  {
    TrailingViews(e, f, p);
  }

  lemma {:induction false} TrailingRuns(e: Dir, f: Dir, p: EntryOp, ops: seq<Op>)
    requires Trails(e, f, p) && Runs(f, ops)
    requires forall op | op in ops :: op.at == [] && op.act != FsyncDir
    ensures Runs(e, ops) && Trails(Exec(e, ops), Exec(f, ops), p)
    decreases |ops|
  {
    if ops != [] {
      TrailingApply(e, f, p, ops[0].act);
      assert ops[0] in ops && forall op | op in ops[1..] :: op in ops;
      TrailingRuns(Apply(e, ops[0]), Apply(f, ops[0]), p, ops[1..]);
    }
  }

  // ------------------------------------------------------------- ... across a power cut

  /** The same cut everywhere but in the top directory. */
  ghost predicate SameBelow(v: World, w: World) {
    v.junk == w.junk && forall at | at != [] :: v.cut(at) == w.cut(at)
  }

  lemma {:induction false} CrashSameBelow(d: Dir, v: World, w: World, at: seq<nat>)
    requires SameBelow(v, w) && at != []
    ensures Crash(d, v, at) == Crash(d, w, at)
    decreases d
  {
    var a, b := Crash(d, v, at), Crash(d, w, at);
    forall i | 0 <= i < |d.nodes|
      ensures a.nodes[i] == b.nodes[i]
    {
      assert a.nodes[i] == CrashNode(d.nodes[i], v, at + [i]) && b.nodes[i] == CrashNode(d.nodes[i], w, at + [i]);
      if d.nodes[i].Folder? { CrashSameBelow(d.nodes[i].dir, v, w, at + [i]); }
    }
    assert a.nodes == b.nodes;
  }

  lemma TrailingCrash(e: Dir, f: Dir, p: EntryOp, w: World) returns (v: World)
    requires Trails(e, f, p)
    ensures var c := Crash(e, w, []);
      (View(c) == e.durable && c.pending == []) || c == Crash(f, v, [])
  {
    TrailingViews(e, f, p);
    var k := Kept(e, [], w);
    v := World(at => if at == [] && k > 0 then k - 1 else w.cut(at), w.junk);
    if k > 0 {
      var a, b := Crash(e, w, []), Crash(f, v, []);
      assert Kept(f, [], v) == k - 1;
      forall i | 0 <= i < |e.nodes|
        ensures a.nodes[i] == b.nodes[i]
      {
        assert a.nodes[i] == CrashNode(e.nodes[i], w, [] + [i]) && b.nodes[i] == CrashNode(e.nodes[i], v, [] + [i]);
        if e.nodes[i].Folder? { CrashSameBelow(e.nodes[i].dir, v, w, [] + [i]); }
      }
      assert a.nodes == b.nodes;
    }
  }

  // ------------------------------------------------------------- the boot pass

  function CacheOps(): seq<Op> {
    AtomicWrite(SEQ, SeqText(0)) + AtomicWrite(CONSUMED, LinesText([]))
  }

  lemma FirstOps(d: Dir, ls: Lister)
    requires Blank(d) && Lists(ls)
    ensures ReconcileOps(d, ls) == [Op([], Mkdir(RESULTS))] + (CacheOps() + [Op([], FsyncDir)])
    ensures RebuildOps(0, []) == CacheOps() + [Op([], FsyncDir)]
  {
    assert View(EMPTY) == map[];
    assert IsListing(ls({}), {});
    var listed: seq<Name> := ls({});
    assert |listed| > 0 ==> listed[0] in listed;
    assert Under(RESULTS, []) == [];
    assert View(EMPTY).Keys == {};
  }

  /** With the new entry fsync'd the box would be settled. */
  lemma Settled(d: Dir) returns (e: Dir, f: Dir)
    requires Blank(d)
    ensures CanPerform(d, Mkdir(RESULTS)) && e == Perform(d, Mkdir(RESULTS)) && Wf(e)
    ensures Trails(e, f, Put(RESULTS, |d.nodes|)) && e.durable == View(d)
    ensures Safe(f, map[], map[]) && f.pending == []
  {
    hide Safe, Wf, NoCaches, CanPerform, CanApply;
    MkdirCan(d);
    e := Perform(d, Mkdir(RESULTS));
    var i, p := |d.nodes|, Put(RESULTS, |d.nodes|);
    assert e == Create(d, RESULTS, Folder(EMPTY));
    PerformKeepsWf(d, Mkdir(RESULTS));
    f := Dir(e.nodes, View(e), []);
    FsyncDirKeepsWf(e);
    MkdirView(d, e, f);
    hide View, After, Replay, Perform;
    assert e.nodes[i] == Folder(EMPTY);
    SettledIsSafe(f, View(d), i);
  }

  lemma MkdirView(d: Dir, e: Dir, f: Dir)
    requires d.pending == [] && e == Create(d, RESULTS, Folder(EMPTY)) && f == Dir(e.nodes, View(e), [])
    ensures View(f) == View(d)[RESULTS := |d.nodes|] && After(f, 0) == View(f) && e.durable == View(d)
    ensures Trails(e, f, Put(RESULTS, |d.nodes|))
  {
    AfterAppend(d, e, Put(RESULTS, |d.nodes|));
    EmptyPending(f);
    EmptyPending(d);
    hide View, After, Replay;
    assert e.pending == [Put(RESULTS, |d.nodes|)] == [Put(RESULTS, |d.nodes|)] + f.pending;
  }

  lemma MkdirCan(d: Dir)
    requires RESULTS !in View(d)
    ensures CanPerform(d, Mkdir(RESULTS))
  {
  }

  lemma EmptyPending(f: Dir)
    requires f.pending == []
    ensures View(f) == f.durable && After(f, 0) == f.durable
  {
  }

  lemma SettledIsSafe(f: Dir, was: map<Name, nat>, i: nat)
    requires Wf(f) && f.pending == [] && View(f) == was[RESULTS := i] && After(f, 0) == View(f)
    requires NoCaches(was)
    requires i < |f.nodes| && f.nodes[i] == Folder(EMPTY)
    ensures Safe(f, map[], map[])
  {
    NamesDiffer();
    hide Wf;
    assert Sub(f, RESULTS) == EMPTY && After(EMPTY, 0) == map[];
    hide View, After, Replay;
    assert RootEntries(f.nodes, After(f, 0), View(f)[RESULTS], map[]);
    assert JobsIn(EMPTY.nodes, After(EMPTY, 0), map[], map[]);
  }

  /** Uninterrupted, the first boot brings the box to rest with an empty log. */
  lemma FirstBootEnds(d: Dir, ls: Lister)
    requires Blank(d) && Lists(ls)
    ensures Runs(d, ReconcileOps(d, ls))
    ensures AtRest(Exec(d, ReconcileOps(d, ls))) && LogOf(Exec(d, ReconcileOps(d, ls))) == map[]
  {
    FirstOps(d, ls);
    var e, f := Settled(d);
    var p := Put(RESULTS, |d.nodes|);
    var ops, last := CacheOps(), [Op([], FsyncDir)];
    CacheOpsAreFlat(|ops|);
    assert ops[..|ops|] == ops;
    hide Blank, Safe, AtRest, LogOf, Trails, ReconcileOps, Runs, Exec, CacheOps;
    var g := SettledEnds(f);
    TrailingRuns(e, f, p, ops);
    TrailingFsync(Exec(e, ops), Exec(f, ops), p);
    ExecConcat(e, ops, last);
    MkdirThen(d, ops + last);
  }

  lemma MkdirThen(d: Dir, ops: seq<Op>)
    requires CanPerform(d, Mkdir(RESULTS)) && Runs(Perform(d, Mkdir(RESULTS)), ops)
    ensures Runs(d, [Op([], Mkdir(RESULTS))] + ops)
    ensures Exec(d, [Op([], Mkdir(RESULTS))] + ops) == Exec(Perform(d, Mkdir(RESULTS)), ops)
  {
    assert ([Op([], Mkdir(RESULTS))] + ops)[1..] == ops;
  }

  lemma TrailingFsync(e: Dir, f: Dir, p: EntryOp)
    requires Trails(e, f, p)
    ensures Runs(e, [Op([], FsyncDir)]) && Runs(f, [Op([], FsyncDir)])
    ensures Exec(e, [Op([], FsyncDir)]) == Exec(f, [Op([], FsyncDir)])
  {
    TrailingApply(e, f, p, FsyncDir);
    ExecOne(e, Op([], FsyncDir));
    ExecOne(f, Op([], FsyncDir));
  }

  lemma {:induction false} SettledEnds(f: Dir) returns (g: Dir)
    requires Safe(f, map[], map[]) && f.pending == []
    ensures Runs(f, CacheOps()) && Runs(Exec(f, CacheOps()), [Op([], FsyncDir)])
    ensures g == Exec(Exec(f, CacheOps()), [Op([], FsyncDir)]) && AtRest(g) && LogOf(g) == map[]
  {
    var a, b := AtomicWrite(SEQ, SeqText(0)), AtomicWrite(CONSUMED, LinesText([]));
    hide Safe, Runs, Exec;
    var d1, d2, g1 := RebuildRuns(f, map[], 0, []);
    g := g1;
    ExecConcat(f, a, b);
    var none: seq<Name> := [];
    assert (set n | n in none) == {};
    AtRestFrom(g, map[], 0);
  }

  /** Wherever the power fails in it, the box is as blank as before, or settled
      with an empty log. */
  lemma {:induction false} FirstBootCut(d: Dir, ls: Lister, k: nat, w: World)
    requires Blank(d) && Lists(ls) && k <= |ReconcileOps(d, ls)|
    ensures Runs(d, ReconcileOps(d, ls)[..k])
    ensures var m := Crash(Exec(d, ReconcileOps(d, ls)[..k]), w, []);
      Blank(m) || (Safe(m, map[], map[]) && m.pending == [] && LogOf(m) == map[])
  {
    hide Blank, Safe, ReconcileOps, Runs, Exec, CacheOps, Crash, LogOf;
    FirstOps(d, ls);
    FirstBootEnds(d, ls);
    var ops := ReconcileOps(d, ls);
    RunsPrefix(d, ops, k);
    Within(CacheOps(), k);
    if k == 0 {
      BlankCut(d, w);
    } else if k == |ops| {
      CutIsSettled(Exec(d, ops), w);
    } else {
      FirstBootMiddle(d, k - 1, w);
    }
  }

  lemma Within(middle: seq<Op>, k: nat)
    ensures var ops := [Op([], Mkdir(RESULTS))] + (middle + [Op([], FsyncDir)]);
      && ops[..0] == []
      && (k == |ops| ==> ops[..k] == ops)
      && (0 < k < |ops| ==> ops[..k] == [Op([], Mkdir(RESULTS))] + middle[..k - 1])
  {
  }

  lemma BlankCut(d: Dir, w: World)
    requires Blank(d)
    ensures Runs(d, []) && Blank(Crash(Exec(d, []), w, []))
  {
    CrashKeepsWf(d, w, []);
    hide Wf;
    ViewIsAfterAll(d);
    assert Kept(d, [], w) == 0;
  }

  lemma CutIsSettled(e: Dir, w: World)
    requires Safe(e, map[], map[])
    ensures var m := Crash(e, w, []); Safe(m, map[], map[]) && m.pending == [] && LogOf(m) == map[]
  {
    hide Safe, Crash;
    CrashIsSafe(e, map[], map[], w);
    OneMore(map[], map[], LogOf(Crash(e, w, [])), "");
  }

  lemma FirstBootMiddle(d: Dir, j: nat, w: World)
    requires Blank(d) && j <= |CacheOps()|
    ensures var ops := [Op([], Mkdir(RESULTS))] + CacheOps()[..j];
      && Runs(d, ops)
      && var m := Crash(Exec(d, ops), w, []);
      Blank(m) || (Safe(m, map[], map[]) && m.pending == [] && LogOf(m) == map[])
  {
    var e, f := Settled(d);
    var p, part := Put(RESULTS, |d.nodes|), CacheOps()[..j];
    assert RESULTS !in e.durable && NoCaches(e.durable);
    CacheOpsAreFlat(j);
    hide Wf, Safe, Runs, Exec, CacheOps, Crash;
    var _ := SettledEnds(f);
    MiddleIsSafe(f, j);
    TrailingRuns(e, f, p, part);
    MkdirThen(d, part);
    var v := TrailingCrash(Exec(e, part), Exec(f, part), p, w);
    ExecKeepsWf(e, part);
    CrashKeepsWf(Exec(e, part), w, []);
    CutIsSettled(Exec(f, part), v);
    SameDurable(e, part);
  }

  lemma {:induction false} MiddleIsSafe(f: Dir, j: nat)
    requires Safe(f, map[], map[]) && f.pending == [] && j <= |CacheOps()|
    ensures Runs(f, CacheOps()[..j]) && Safe(Exec(f, CacheOps()[..j]), map[], map[])
  {
    var ops := RebuildOps(0, []);
    hide Safe, Runs, Exec;
    assert ops == CacheOps() + [Op([], FsyncDir)];
    assert ops[..j] == CacheOps()[..j];
    RebuildAt(f, map[], 0, [], j);
  }

  lemma CacheOpsAreFlat(j: nat)
    requires j <= |CacheOps()|
    ensures forall op | op in CacheOps()[..j] :: op.at == [] && op.act != FsyncDir
  {
  }

  lemma {:induction false} SameDurable(e: Dir, ops: seq<Op>)
    requires Runs(e, ops) && forall op | op in ops :: op.at == [] && op.act != FsyncDir
    ensures Exec(e, ops).durable == e.durable
    decreases |ops|
  {
    if ops != [] {
      assert ops[0] in ops && forall op | op in ops[1..] :: op in ops;
      SameDurable(Apply(e, ops[0]), ops[1..]);
    }
  }

  /** A box may be cut short in its first boot any number of times: the pass that
      gets through leaves it at rest with an empty log. */
  lemma {:induction false} FirstBootRestores(d: Dir, boots: seq<Cut>, last: Lister)
    requires Blank(d) && BootsListed(boots, last)
    ensures AtRest(Boot(d, boots, last)) && LogOf(Boot(d, boots, last)) == map[]
    decreases |boots|
  {
    hide Blank, Safe, AtRest, LogOf, ReconcileOps, Runs, Exec, Crash;
    if boots == [] {
      FirstBootEnds(d, last);
    } else {
      var ops := ReconcileOps(d, boots[0].ls);
      var k := if boots[0].after <= |ops| then boots[0].after else |ops|;
      FirstBootCut(d, boots[0].ls, k, boots[0].world);
      var m := CutShort(d, ops, boots[0]);
      assert Upto(ops, boots[0].after) == ops[..k];
      if Blank(m) {
        FirstBootRestores(m, boots[1..], last);
      } else {
        BootRestores(m, boots[1..], last);
      }
    }
  }
}
