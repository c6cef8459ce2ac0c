/** What the crash safety rests on. The ordering assumption: on a file system that
    may keep any subset of a directory's waiting entry operations, rather than a
    prefix, one fsync for both renames is not enough. And the fsync of each file. */
module AnySubset {
  import opened Basics
  import opened Storage
  import opened JobDir

  /** The waiting operations whose positions are in `keep`. */
  function Picked(ops: seq<EntryOp>, keep: set<nat>): seq<EntryOp> {
    if ops == [] then []
    else Picked(ops[..|ops| - 1], keep) + (if |ops| - 1 in keep then [ops[|ops| - 1]] else [])
  }

  /** The directory after a power cut that kept just those; a prefix is one such choice. */
  function Survivor(d: Dir, keep: set<nat>): Dir {
    Dir(d.nodes, Replay(d.durable, Picked(d.pending, keep)), [])
  }

  function FirstFew(k: nat): (s: set<nat>)
    ensures forall i: nat :: i in s <==> i < k
  {
    if k == 0 then {} else FirstFew(k - 1) + {k - 1}
  }

  lemma PrefixIsOneChoice(d: Dir, k: nat)
    requires k <= |d.pending|
    ensures View(Survivor(d, FirstFew(k))) == After(d, k)
  {
    PickedPrefix(d.pending, k);
  }

  lemma {:induction false} PickedPrefix(ops: seq<EntryOp>, k: nat)
    requires k <= |ops|
    ensures Picked(ops, FirstFew(k)) == ops[..k]
    decreases |ops|
  {
    if k < |ops| {
      PickedPrefix(ops[..|ops| - 1], k);
      assert ops[..|ops| - 1][..k] == ops[..k];
    } else if ops != [] {
      PickedPrefix(ops[..|ops| - 1], k - 1);
      PickedSame(ops[..|ops| - 1], FirstFew(k - 1), FirstFew(k));
      assert ops[..|ops| - 1][..k - 1] + [ops[k - 1]] == ops[..k];
    }
  }

  lemma {:induction false} PickedSame(ops: seq<EntryOp>, a: set<nat>, b: set<nat>)
    requires forall i: nat | i < |ops| :: i in a <==> i in b
    ensures Picked(ops, a) == Picked(ops, b)
    decreases |ops|
  {
    if ops != [] { PickedSame(ops[..|ops| - 1], a, b); }
  }

  /** The job directory just before its fsync, for a job without outputs. */
  function Landed(number: nat, status: Content): Dir {
    Dir([File(status, true), File(DoneText(number), true)], map[],
        [Put(STATUS + TMP, 0), Move(STATUS + TMP, STATUS), Put(DONE + TMP, 1), Move(DONE + TMP, DONE)])
  }

  lemma FourCalls(d: Dir, d1: Dir, d2: Dir, d3: Dir, d4: Dir, ops: seq<Op>)
    requires |ops| == 4 && forall i | 0 <= i < 4 :: ops[i].at == []
    requires CanPerform(d, ops[0].act) && d1 == Perform(d, ops[0].act)
    requires CanPerform(d1, ops[1].act) && d2 == Perform(d1, ops[1].act)
    requires CanPerform(d2, ops[2].act) && d3 == Perform(d2, ops[2].act)
    requires CanPerform(d3, ops[3].act) && d4 == Perform(d3, ops[3].act)
    ensures Runs(d, ops) && Exec(d, ops) == d4
  {
    hide CanPerform, Perform;
    assert Runs(d4, []) && Exec(d4, []) == d4;
    assert ops[3..][1..] == [] && ops[2..][1..] == ops[3..] && ops[1..][1..] == ops[2..];
    assert Runs(d3, ops[3..]) && Exec(d3, ops[3..]) == d4;
    assert Runs(d2, ops[2..]) && Exec(d2, ops[2..]) == d4;
    assert Runs(d1, ops[1..]) && Exec(d1, ops[1..]) == d4;
  }

  /** A directory whose newest inode is the file `t`. */
  ghost predicate NewestIs(d: Dir, t: Name, f: Node) {
    d.nodes != [] && t in View(d) && View(d)[t] == |d.nodes| - 1 && d.nodes[|d.nodes| - 1] == f && f.File?
  }

  function Refilled(d: Dir, g: Node): Dir
    requires d.nodes != []
  {
    d.(nodes := d.nodes[|d.nodes| - 1 := g])
  }

  lemma OpenNew(d: Dir, t: Name)
    requires t !in View(d)
    ensures CanPerform(d, OpenTrunc(t))
    ensures var e := Perform(d, OpenTrunc(t));
      && e == Create(d, t, File(Raw([]), false)) && NewestIs(e, t, File(Raw([]), false))
      && View(e) == View(d)[t := |d.nodes|]
  {
    AfterAppend(d, Create(d, t, File(Raw([]), false)), Put(t, |d.nodes|));
    hide View, Replay, After;
  }

  lemma WriteNewest(d: Dir, t: Name, f: Node, c: Content)
    requires NewestIs(d, t, f)
    ensures CanPerform(d, Write(t, c))
    ensures var e := Perform(d, Write(t, c));
      e == Refilled(d, File(c, false)) && NewestIs(e, t, File(c, false)) && View(e) == View(d)
  {
    assert View(Refilled(d, File(c, false))) == View(d);
    hide View, Replay;
  }

  lemma FsyncNewest(d: Dir, t: Name, c: Content)
    requires NewestIs(d, t, File(c, false))
    ensures CanPerform(d, FsyncFile(t))
    ensures var e := Perform(d, FsyncFile(t));
      e == Refilled(d, File(c, true)) && NewestIs(e, t, File(c, true)) && View(e) == View(d)
  {
    assert View(Refilled(d, File(c, true))) == View(d);
    hide View, Replay;
  }

  lemma RenameNewest(d: Dir, t: Name, n: Name, f: Node)
    requires NewestIs(d, t, f) && n !in View(d) && n != t
    ensures CanPerform(d, Rename(t, n))
    ensures Perform(d, Rename(t, n)) == d.(pending := d.pending + [Move(t, n)])
  {
    hide View, Replay;
  }

  /** `_atomic_write` of a new name in a directory. */
  lemma AtomicWriteAppends(d: Dir, n: Name, c: Content)
    requires n + TMP !in View(d) && n !in View(d)
    ensures Runs(d, AtomicWrite(n, c))
    ensures Exec(d, AtomicWrite(n, c)) == Dir(d.nodes + [File(c, true)], d.durable,
      d.pending + [Put(n + TMP, |d.nodes|), Move(n + TMP, n)])
  {
    TmpIsLonger(n);
    var t := n + TMP;
    hide View, CanPerform, Perform, NewestIs, Runs, Exec;
    OpenNew(d, t);
    var d1 := Perform(d, OpenTrunc(t));
    WriteNewest(d1, t, File(Raw([]), false), c);
    var d2 := Perform(d1, Write(t, c));
    FsyncNewest(d2, t, c);
    var d3 := Perform(d2, FsyncFile(t));
    RenameNewest(d3, t, n, File(c, true));
    var d4 := Perform(d3, Rename(t, n));
    FourCalls(d, d1, d2, d3, d4, AtomicWrite(n, c));
    assert d4.nodes == d.nodes + [File(c, true)];
    assert d4.pending == d.pending + [Put(t, |d.nodes|), Move(t, n)];
  }

  /** ... without the fsync of the file: even once the directory is fsync'd a power cut
      can leave any content whatever under the final name. */
  lemma FsyncIsNeeded(d: Dir, n: Name, c: Content, x: Content)
    requires n + TMP !in View(d) && n !in View(d)
    ensures var ops := [Op([], OpenTrunc(n + TMP)), Op([], Write(n + TMP, c)),
                        Op([], Rename(n + TMP, n)), Op([], FsyncDir)];
      && Runs(d, ops)
      && var torn := Crash(Exec(d, ops), World(_ => 0, _ => x), []);
      && HasFile(torn, n) && At(torn, n).content == x
  {
    TmpIsLonger(n);
    var t := n + TMP;
    var ops := [Op([], OpenTrunc(t)), Op([], Write(t, c)), Op([], Rename(t, n)), Op([], FsyncDir)];
    hide View, CanPerform, Perform, NewestIs, Runs, Exec, Crash, CrashNode;
    OpenNew(d, t);
    var d1 := Perform(d, OpenTrunc(t));
    WriteNewest(d1, t, File(Raw([]), false), c);
    var d2 := Perform(d1, Write(t, c));
    RenameNewest(d2, t, n, File(c, false));
    var d3 := Perform(d2, Rename(t, n));
    MovedNewest(d2, t, n, File(c, false));
    FsyncedDir(d3, n, File(c, false));
    FourCalls(d, d1, d2, d3, Dir(d3.nodes, View(d3), []), ops);
    TornHere(Dir(d3.nodes, View(d3), []), n, c, x);
  }

  lemma MovedNewest(d: Dir, t: Name, n: Name, f: Node)
    requires NewestIs(d, t, f) && n != t
    ensures var e := d.(pending := d.pending + [Move(t, n)]); NewestIs(e, n, f)
  {
    AfterAppend(d, d.(pending := d.pending + [Move(t, n)]), Move(t, n));
  }

  lemma FsyncedDir(d: Dir, n: Name, f: Node)
    requires NewestIs(d, n, f)
    ensures CanPerform(d, FsyncDir) && Perform(d, FsyncDir) == Dir(d.nodes, View(d), [])
    ensures NewestIs(Dir(d.nodes, View(d), []), n, f)
  {
    assert View(Dir(d.nodes, View(d), [])) == View(d);
    hide View;
  }

  lemma TornHere(d: Dir, n: Name, c: Content, x: Content)
    requires d.pending == [] && NewestIs(d, n, File(c, false))
    ensures var torn := Crash(d, World(_ => 0, _ => x), []); HasFile(torn, n) && At(torn, n).content == x
  {
    var torn := Crash(d, World(_ => 0, _ => x), []);
    assert d.pending[..0] == [] && After(d, 0) == View(d) == d.durable;
    assert View(torn) == d.durable;
  }

  lemma LandedIs(job: Name, number: nat, fields: map<string, Bytes>)
    ensures var ops, status := JobOps(job, number, [], fields), StatusOf(job, number, [], fields);
      && |ops| > 0 && Runs(EMPTY, ops[..|ops| - 1])
      && Exec(EMPTY, ops[..|ops| - 1]) == Landed(number, status)
  {
    NamesHere();
    var ops, status := JobOps(job, number, [], fields), StatusOf(job, number, [], fields);
    var a, b := AtomicWrite(STATUS, status), AtomicWrite(DONE, DoneText(number));
    AtomicWriteAppends(EMPTY, STATUS, status);
    var d := Dir([File(status, true)], map[], [Put(STATUS + TMP, 0), Move(STATUS + TMP, STATUS)]);
    assert EMPTY.nodes + [File(status, true)] == d.nodes;
    assert EMPTY.pending + d.pending == d.pending;
    assert Exec(EMPTY, a) == d;
    hide Runs, Exec, AtomicWrite;
    ViewOfTwo(d, STATUS);
    AtomicWriteAppends(d, DONE, DoneText(number));
    assert d.pending + [Put(DONE + TMP, 1), Move(DONE + TMP, DONE)] == Landed(number, status).pending;
    assert d.nodes + [File(DoneText(number), true)] == Landed(number, status).nodes;
    ExecConcat(EMPTY, a, b);
    assert ops == [] + a + b + [Op([], FsyncDir)] by { assert OutputOps([]) == []; }
    assert ops[..|ops| - 1] == a + b;
  }

  lemma NamesHere()
    ensures DONE != STATUS && DONE + TMP != STATUS && DONE != STATUS + TMP && DONE + TMP != STATUS + TMP
  {
    assert DONE[0] == 'D' && STATUS[0] == 's' && (DONE + TMP)[0] == 'D' && (STATUS + TMP)[0] == 's';
  }

  lemma ViewOfTwo(d: Dir, n: Name)
    requires d.durable == map[] && d.pending == [Put(n + TMP, 0), Move(n + TMP, n)]
    ensures View(d) == map[n := 0]
  {
    TmpIsLonger(n);
    assert d.pending[..1] == [Put(n + TMP, 0)] && [Put(n + TMP, 0)][..0] == [];
    assert Replay(map[], [Put(n + TMP, 0)]) == map[n + TMP := 0];
  }

  /** A valid `DONE` without `status.json`: it looks committed and is not whole. */
  lemma SubsetLosesStatus(job: Name, number: nat, fields: map<string, Bytes>)
    ensures var ops := JobOps(job, number, [], fields);
      && |ops| > 0 && Runs(EMPTY, ops[..|ops| - 1])
      && var torn := Survivor(Exec(EMPTY, ops[..|ops| - 1]), {2, 3});
      && Done(torn) && STATUS !in View(torn)
  {
    NamesHere();
    LandedIs(job, number, fields);
    var d := Landed(number, StatusOf(job, number, [], fields));
    var p := d.pending;
    PickTwo(p);
    var torn := Survivor(d, {2, 3});
    ReplayTwo(p[2], p[3]);
    assert View(torn) == torn.durable;
  }

  lemma PickTwo(p: seq<EntryOp>)
    requires |p| == 4
    ensures Picked(p, {2, 3}) == [p[2], p[3]]
  {
    var p3, p2, p1 := p[..3], p[..2], p[..1];
    assert p3[..2] == p2 && p2[..1] == p1 && p1[..0] == [];
    assert Picked(p1, {2, 3}) == [];
    assert Picked(p2, {2, 3}) == [];
    assert Picked(p3, {2, 3}) == [p[2]];
  }

  lemma ReplayTwo(a: EntryOp, b: EntryOp)
    requires a == Put(DONE + TMP, 1) && b == Move(DONE + TMP, DONE)
    ensures Replay(map[], [a, b]) == map[DONE := 1]
  {
    assert [a, b][..1] == [a] && [a][..0] == [];
    assert Replay(map[], [a]) == map[DONE + TMP := 1];
  }
}
