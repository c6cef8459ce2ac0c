/** What `commit()` does inside `results/<job_id>/`: outputs, `status.json`,
    `DONE`, one directory fsync. Everything here is about that one directory;
    `CommitLog` places it in the tree. */
module JobDir {
  import opened Basics
  import opened Storage

  const DONE: Name := "DONE"
  const STATUS: Name := "status.json"
  const TMP := ".tmp"

  datatype Output = Output(path: Name, data: Bytes)

  // ------------------------------------------------------------- the calls

  /** `_atomic_write`: fill a `.tmp` sibling, fsync it, rename it into place. */
  function AtomicWrite(n: Name, c: Content): seq<Op> {
    [Op([], OpenTrunc(n + TMP)), Op([], Write(n + TMP, c)),
     Op([], FsyncFile(n + TMP)), Op([], Rename(n + TMP, n))]
  }

  predicate ValidOutputName(n: Name) {
    n != "" && '/' !in n && n != "." && n != ".." && n != DONE && n != STATUS
  }

  function Metas(outs: seq<Output>): seq<OutputMeta> {
    seq(|outs|, i requires 0 <= i < |outs| =>
      OutputMeta(outs[i].path, Sha256(outs[i].data), |outs[i].data|))
  }

  function StatusOf(job: Name, number: nat, outs: seq<Output>, fields: map<string, Bytes>): Content {
    StatusText(fields - {"job_id", "seq", "outputs"}, job, number, Metas(outs))
  }

  function OutputOps(outs: seq<Output>): seq<Op> {
    if outs == [] then []
    else OutputOps(outs[..|outs| - 1]) + AtomicWrite(outs[|outs| - 1].path, Raw(outs[|outs| - 1].data))
  }

  /** Steps 1 to 3 of the commit, relative to the job directory. */
  function JobOps(job: Name, number: nat, outs: seq<Output>, fields: map<string, Bytes>): seq<Op> {
    OutputOps(outs) + AtomicWrite(STATUS, StatusOf(job, number, outs, fields))
    + AtomicWrite(DONE, DoneText(number)) + [Op([], FsyncDir)]
  }

  // ------------------------------------------------------------- what is on disk

  function FilesOf(d: Dir): map<Name, Content> {
    map n | n in View(d) && HasFile(d, n) :: At(d, n).content
  }

  /** `_read_done_seq`: the marker counts when it parses to a non-negative number. */
  predicate ValidDone(n: Node) {
    n.File? && n.content.DoneText? && n.content.number >= 0
  }

  predicate Done(d: Dir) {
    Has(d, DONE) && ValidDone(At(d, DONE))
  }

  /** Only fsync'd regular files. */
  ghost predicate AllSynced(d: Dir) {
    forall n | n in View(d) :: HasFile(d, n) && At(d, n).synced
  }

  /** No power cut can leave a `DONE` entry here. */
  ghost predicate NoDone(d: Dir) {
    forall k: nat | k <= |d.pending| :: DONE !in After(d, k)
  }

  /** A committed job, kept whole: the marker's number and every file. */
  datatype Record = Record(number: nat, files: map<Name, Content>)

  ghost predicate Shows(d: Dir, r: Record) {
    Done(d) && At(d, DONE).content.number == r.number && FilesOf(d) == r.files && AllSynced(d)
  }

  /** Between the `DONE` rename and the directory fsync: the marker is there only
      if every entry operation before it is. */
  ghost predicate Landing(d: Dir, r: Record) {
    Shows(d, r) && forall k: nat | k < |d.pending| :: DONE !in After(d, k)
  }

  /** On the medium for good. */
  ghost predicate Complete(d: Dir, r: Record) {
    Shows(d, r) && d.pending == []
  }

  // ------------------------------------------------------------- file contents, abstractly

  /** The effect of one `_atomic_write` on the directory's files: the `.tmp`
      sibling is gone, the name holds the new content. */
  function Wrote(m: map<Name, Content>, n: Name, c: Content): map<Name, Content> {
    (m - {n + TMP})[n := c]
  }

  function WroteAll(outs: seq<Output>): map<Name, Content> {
    if outs == [] then map[]
    else Wrote(WroteAll(outs[..|outs| - 1]), outs[|outs| - 1].path, Raw(outs[|outs| - 1].data))
  }

  function JobFiles(job: Name, number: nat, outs: seq<Output>, fields: map<string, Bytes>): map<Name, Content> {
    Wrote(Wrote(WroteAll(outs), STATUS, StatusOf(job, number, outs, fields)), DONE, DoneText(number))
  }

  function RecordOf(job: Name, number: nat, outs: seq<Output>, fields: map<string, Bytes>): Record {
    Record(number, JobFiles(job, number, outs, fields))
  }

  // ------------------------------------------------------------- proofs

  lemma TmpIsLonger(n: Name)
    ensures n + TMP != n && n + TMP != DONE
  {
    assert (n + TMP)[|n + TMP| - 1] == 'p';
    assert DONE[|DONE| - 1] == 'E';
  }

  ghost predicate AgreeExcept(a: map<Name, nat>, b: map<Name, nat>, t: Name) {
    forall n | n != t && (n in a || n in b) :: n in a && n in b && a[n] == b[n]
  }

  /** `e` comes from `d` by touching nothing but the entry `t` and its file. */
  ghost predicate OnlyTouches(d: Dir, e: Dir, t: Name) {
    && e.durable == d.durable && d.pending <= e.pending && |d.nodes| <= |e.nodes|
    && (forall i | 0 <= i < |d.nodes| :: e.nodes[i] == d.nodes[i] || (t in View(d) && View(d)[t] == i))
    && (t in View(e) ==> View(e)[t] >= |d.nodes| || (t in View(d) && View(d)[t] == View(e)[t]))
    && (forall j: nat | |d.pending| <= j <= |e.pending| ::
          AgreeExcept(After(e, j), View(d), t) && FileIn(e, After(e, j), t))
  }

  ghost predicate FileIn(d: Dir, m: map<Name, nat>, n: Name) {
    n in m ==> m[n] < |d.nodes| && d.nodes[m[n]].File?
  }

  lemma EarlierPrefixes(d: Dir, e: Dir)
    requires e.durable == d.durable && d.pending <= e.pending
    ensures forall j: nat | j <= |d.pending| :: After(e, j) == After(d, j)
  {
    forall j: nat | j <= |d.pending|
      ensures After(e, j) == After(d, j)
    {
      assert e.pending[..j] == d.pending[..j];
    }
  }

  lemma TouchesTransitive(d: Dir, e: Dir, f: Dir, t: Name)
    requires OnlyTouches(d, e, t) && OnlyTouches(e, f, t)
    ensures OnlyTouches(d, f, t)
  {
    EarlierPrefixes(e, f);
    ViewIsAfterAll(e);
    forall j: nat | |d.pending| <= j <= |f.pending|
      ensures AgreeExcept(After(f, j), View(d), t) && FileIn(f, After(f, j), t)
    {
      assert AgreeExcept(After(e, |e.pending|), View(d), t);
      assert FileIn(f, After(f, |e.pending|), t);
      if j <= |e.pending| {
        assert After(f, j) == After(e, j);
        assert FileIn(e, After(e, j), t);
      } else {
        assert AgreeExcept(After(f, j), View(e), t);
      }
    }
  }

  lemma OpenTouches(d: Dir, t: Name)
    requires Wf(d) && (t in View(d) ==> HasFile(d, t))
    ensures CanPerform(d, OpenTrunc(t))
    ensures var e := Perform(d, OpenTrunc(t));
      OnlyTouches(d, e, t) && HasFile(e, t)
  {
    WfView(d);
    var e := Perform(d, OpenTrunc(t));
    if t !in View(d) {
      NewTouches(d, t, File(Raw([]), false));
    } else {
      SetTouches(d, t, File(Raw([]), false));
    }
  }

  lemma NewTouches(d: Dir, t: Name, f: Node)
    requires EntriesOk(View(d), |d.nodes|) && t !in View(d) && f.File?
    ensures var e := Create(d, t, f); OnlyTouches(d, e, t) && HasFile(e, t) && At(e, t) == f
  {
    var e := Create(d, t, f);
    AfterAppend(d, e, Put(t, |d.nodes|));
    ViewIsAfterAll(d);
    hide View, After, Replay;
    forall j: nat | |d.pending| <= j <= |e.pending|
      ensures AgreeExcept(After(e, j), View(d), t) && FileIn(e, After(e, j), t)
    {
    }
  }

  lemma SetTouches(d: Dir, t: Name, f: Node)
    requires Wf(d) && Has(d, t) && f.File?
    ensures OnlyTouches(d, SetFile(d, t, f), t)
    ensures View(SetFile(d, t, f)) == View(d) && At(SetFile(d, t, f), t) == f
  {
    ViewIsAfterAll(d);
    assert forall j: nat | j <= |d.pending| :: After(SetFile(d, t, f), j) == After(d, j);
  }

  /** One more call on the file `t` of a script that touches nothing else. */
  lemma NextTouch(d: Dir, ops: seq<Op>, k: nat, t: Name)
    requires Wf(d) && k < |ops| && Runs(d, ops[..k])
    requires var e := Exec(d, ops[..k]);
      OnlyTouches(d, e, t) && HasFile(e, t) && CanApply(e, ops[k])
    requires ops[k].at == [] && (ops[k].act.Write? || ops[k].act.AppendLine? || ops[k].act.FsyncFile?)
    requires ops[k].act.name == t
    ensures Runs(d, ops[..k + 1])
    ensures var e, f := Exec(d, ops[..k]), Exec(d, ops[..k + 1]);
      f == Apply(e, ops[k]) && OnlyTouches(d, f, t) && HasFile(f, t) && At(f, t) == Touched(At(e, t), ops[k].act)
  {
    var e := Exec(d, ops[..k]);
    ExecNext(d, ops, k);
    ExecKeepsWf(d, ops[..k]);
    hide Wf, OnlyTouches, Runs, Exec;
    SetTouches(e, t, Touched(At(e, t), ops[k].act));
    TouchesTransitive(d, e, Apply(e, ops[k]), t);
  }

  function Touched(f: Node, a: Act): Node
    requires f.File?
  {
    match a
    case Write(_, c) => File(c, false)
    case AppendLine(_, l) => File(Appended(f.content, l), false)
    case FsyncFile(_) => f.(synced := true)
    case _ => f
  }

  /** The three calls that fill the `.tmp` sibling leave it fsync'd and touch nothing else. */
  lemma {:induction false} FillTmp(d: Dir, n: Name, c: Content, k: nat) returns (e: Dir)
    requires Wf(d) && (n + TMP in View(d) ==> HasFile(d, n + TMP)) && k <= 3
    ensures Runs(d, AtomicWrite(n, c)[..k]) && e == Exec(d, AtomicWrite(n, c)[..k])
    ensures Wf(e) && OnlyTouches(d, e, n + TMP)
    ensures k >= 1 ==> HasFile(e, n + TMP)
    ensures k >= 2 ==> At(e, n + TMP) == File(c, k == 3)
  {
    var t, ops := n + TMP, AtomicWrite(n, c);
    e := d;
    assert ops[..0] == [];
    hide Wf;
    if k == 0 {
      ViewIsAfterAll(d);
    } else if k == 1 {
      OpenTouches(d, t);
      ExecNext(d, ops, 0);
      e := Apply(d, ops[0]);
      PerformKeepsWf(d, ops[0].act);
    } else {
      hide OnlyTouches, Runs, Exec;
      var b := FillTmp(d, n, c, k - 1);
      NextTouch(d, ops, k - 1, t);
      e := Exec(d, ops[..k]);
      ApplyKeepsWf(b, ops[k - 1]);
    }
  }

  /** The name now holds fsync'd `c`, the `.tmp` sibling is gone, every other entry is as before. */
  ghost predicate Replaced(d: Dir, e: Dir, n: Name, c: Content) {
    && HasFile(e, n) && At(e, n) == File(c, true) && n + TMP !in View(e)
    && (forall m | m != n && m != n + TMP ::
          && (m in View(d) <==> m in View(e))
          && (Has(d, m) ==> Has(e, m) && At(e, m) == At(d, m) && View(e)[m] == View(d)[m]))
  }

  /** The entries went through `OnlyTouches` states for the `.tmp` sibling until the very last one. */
  ghost predicate TmpUntilLast(d: Dir, e: Dir, n: Name) {
    && e.durable == d.durable && d.pending < e.pending && |d.nodes| <= |e.nodes|
    && (forall j: nat | |d.pending| <= j < |e.pending| :: AgreeExcept(After(e, j), View(d), n + TMP))
    && (forall i | 0 <= i < |d.nodes| :: e.nodes[i] == d.nodes[i] || (n + TMP in View(d) && View(d)[n + TMP] == i))
  }

  /** A whole `_atomic_write`. */
  lemma AtomicWriteRuns(d: Dir, n: Name, c: Content) returns (e: Dir)
    requires Wf(d) && (n + TMP in View(d) ==> HasFile(d, n + TMP)) && (n in View(d) ==> HasFile(d, n))
    ensures Runs(d, AtomicWrite(n, c)) && e == Exec(d, AtomicWrite(n, c)) && Wf(e)
    ensures Replaced(d, e, n, c) && TmpUntilLast(d, e, n)
  {
    TmpIsLonger(n);
    WfView(d);
    var ops := AtomicWrite(n, c);
    var b := FillTmp(d, n, c, 3);
    WfView(b);
    ViewIsAfterAll(b);
    assert AgreeExcept(After(b, |b.pending|), View(d), n + TMP);
    hide Wf, OnlyTouches, AgreeExcept, Replaced, TmpUntilLast, Runs, Exec;
    RenameReplaces(d, b, n, c);
    RenameIsLast(d, b, n);
    ExecNext(d, ops, 3);
    assert ops[..4] == ops;
    e := Perform(b, Rename(n + TMP, n));
    PerformKeepsWf(b, Rename(n + TMP, n));
  }

  lemma RenameReplaces(d: Dir, b: Dir, n: Name, c: Content)
    requires EntriesOk(View(d), |d.nodes|) && EntriesOk(View(b), |b.nodes|)
    requires OnlyTouches(d, b, n + TMP) && AgreeExcept(View(b), View(d), n + TMP)
    requires n in View(d) ==> HasFile(d, n)
    requires HasFile(b, n + TMP) && At(b, n + TMP) == File(c, true)
    ensures CanPerform(b, Rename(n + TMP, n)) && Replaced(d, Perform(b, Rename(n + TMP, n)), n, c)
  {
    TmpIsLonger(n);
    var e := b.(pending := b.pending + [Move(n + TMP, n)]);
    AfterAppend(b, e, Move(n + TMP, n));
    forall m | m != n + TMP && m in View(d)
      ensures At(b, m) == At(d, m)
    {
    }
  }

  lemma RenameIsLast(d: Dir, b: Dir, n: Name)
    requires OnlyTouches(d, b, n + TMP)
    ensures TmpUntilLast(d, b.(pending := b.pending + [Move(n + TMP, n)]), n)
  {
    var e := b.(pending := b.pending + [Move(n + TMP, n)]);
    AfterAppend(b, e, Move(n + TMP, n));
  }

  /** In the job directory: files and safety after a whole `_atomic_write`. */
  lemma AtomicWriteInJob(d: Dir, n: Name, c: Content) returns (e: Dir)
    requires Wf(d) && AllSynced(d) && NoDone(d)
    ensures Runs(d, AtomicWrite(n, c)) && e == Exec(d, AtomicWrite(n, c)) && Wf(e) && AllSynced(e)
    ensures FilesOf(e) == Wrote(FilesOf(d), n, c)
    ensures n != DONE ==> NoDone(e)
    ensures n == DONE && ValidDone(File(c, true)) ==>
      Landing(e, Record(c.number, Wrote(FilesOf(d), DONE, c)))
  {
    WfView(d);
    e := AtomicWriteRuns(d, n, c);
    WfView(e);
    ReplacedFiles(d, e, n, c);
    NoDoneUntilLast(d, e, n);
  }

  lemma ReplacedFiles(d: Dir, e: Dir, n: Name, c: Content)
    requires EntriesOk(View(d), |d.nodes|) && EntriesOk(View(e), |e.nodes|)
    requires AllSynced(d) && Replaced(d, e, n, c)
    ensures AllSynced(e) && FilesOf(e) == Wrote(FilesOf(d), n, c)
  {
    TmpIsLonger(n);
    hide View;
    forall m | m in View(e)
      ensures HasFile(e, m) && At(e, m).synced
    {
      assert m != n ==> Has(d, m);
    }
    ReplacedContents(d, e, n, c);
  }

  lemma ReplacedContents(d: Dir, e: Dir, n: Name, c: Content)
    requires EntriesOk(View(d), |d.nodes|) && Replaced(d, e, n, c)
    ensures FilesOf(e) == Wrote(FilesOf(d), n, c)
  {
    hide View, EntriesOk, Replaced, FilesOf, Wrote;
    forall m
      ensures m in FilesOf(e) <==> m in Wrote(FilesOf(d), n, c)
      ensures m in FilesOf(e) ==> FilesOf(e)[m] == Wrote(FilesOf(d), n, c)[m]
    {
      ReplacedOne(d, e, n, c, m);
    }
  }

  lemma ReplacedOne(d: Dir, e: Dir, n: Name, c: Content, m: Name)
    requires EntriesOk(View(d), |d.nodes|) && Replaced(d, e, n, c)
    ensures m in FilesOf(e) <==> m in Wrote(FilesOf(d), n, c)
    ensures m in FilesOf(e) ==> FilesOf(e)[m] == Wrote(FilesOf(d), n, c)[m]
  {
    TmpIsLonger(n);
    hide View;
  }

  lemma NoDoneUntilLast(d: Dir, e: Dir, n: Name)
    requires NoDone(d) && TmpUntilLast(d, e, n)
    requires n != DONE && DONE in View(e) ==> DONE in View(d)
    ensures forall j: nat | j < |e.pending| :: DONE !in After(e, j)
    ensures n != DONE ==> NoDone(e)
  {
    TmpIsLonger(n);
    EarlierPrefixes(d, e);
    ViewIsAfterAll(d);
    ViewIsAfterAll(e);
  }

  /** In the job directory: safety part-way through an `_atomic_write`. */
  lemma PartWayInJob(d: Dir, n: Name, c: Content, k: nat)
    requires Wf(d) && AllSynced(d) && NoDone(d) && k < 4
    ensures Runs(d, AtomicWrite(n, c)[..k])
    ensures Wf(Exec(d, AtomicWrite(n, c)[..k])) && NoDone(Exec(d, AtomicWrite(n, c)[..k]))
  {
    TmpIsLonger(n);
    var e := FillTmp(d, n, c, k);
    EarlierPrefixes(d, e);
    ViewIsAfterAll(d);
    forall j: nat | j <= |e.pending|
      ensures DONE !in After(e, j)
    {
      if j > |d.pending| {
        assert AgreeExcept(After(e, j), View(d), n + TMP);
      }
    }
  }

  lemma AtomicWriteHasFour(n: Name, c: Content)
    ensures |AtomicWrite(n, c)| == 4
  {
  }

  /** Step 1: any list of outputs can be written, and none of it can look committed. */
  lemma {:induction false} OutputsRun(outs: seq<Output>, k: nat) returns (e: Dir)
    requires forall o | o in outs :: ValidOutputName(o.path)
    requires k <= |OutputOps(outs)|
    ensures Runs(EMPTY, OutputOps(outs)) && e == Exec(EMPTY, OutputOps(outs))
    ensures Wf(e) && AllSynced(e) && NoDone(e) && FilesOf(e) == WroteAll(outs)
    ensures Runs(EMPTY, OutputOps(outs)[..k])
    ensures Wf(Exec(EMPTY, OutputOps(outs)[..k])) && NoDone(Exec(EMPTY, OutputOps(outs)[..k]))
  {
    if outs == [] {
      e := EMPTY;
      assert OutputOps(outs)[..k] == [];
    } else {
      hide Wf, NoDone, AllSynced, FilesOf, Runs, Exec, AtomicWrite;
      var init, o := outs[..|outs| - 1], outs[|outs| - 1];
      var a, b := OutputOps(init), AtomicWrite(o.path, Raw(o.data));
      assert OutputOps(outs) == a + b;
      var m := OutputsRun(init, if k <= |a| then k else |a|);
      e := AtomicWriteInJob(m, o.path, Raw(o.data));
      ExecSplit(EMPTY, a, b, k);
      if k > |a| {
        assert |b| == 4 by { AtomicWriteHasFour(o.path, Raw(o.data)); }
        if k - |a| < 4 { PartWayInJob(m, o.path, Raw(o.data), k - |a|); }
        else { assert b[..k - |a|] == b; }
      }
    }
  }

  function BodyOps(job: Name, number: nat, outs: seq<Output>, fields: map<string, Bytes>): seq<Op> {
    OutputOps(outs) + AtomicWrite(STATUS, StatusOf(job, number, outs, fields))
  }

  /** Steps 1 and 2. */
  lemma BodyRuns(job: Name, number: nat, outs: seq<Output>, fields: map<string, Bytes>, k: nat) returns (e: Dir)
    requires forall o | o in outs :: ValidOutputName(o.path)
    requires k <= |BodyOps(job, number, outs, fields)|
    ensures var ops := BodyOps(job, number, outs, fields);
      && Runs(EMPTY, ops) && e == Exec(EMPTY, ops) && Runs(EMPTY, ops[..k])
      && Wf(Exec(EMPTY, ops[..k])) && NoDone(Exec(EMPTY, ops[..k]))
    ensures Wf(e) && AllSynced(e) && NoDone(e)
    ensures FilesOf(e) == Wrote(WroteAll(outs), STATUS, StatusOf(job, number, outs, fields))
  {
    var a, c := OutputOps(outs), StatusOf(job, number, outs, fields);
    var s := AtomicWrite(STATUS, c);
    var d1 := OutputsRun(outs, if k <= |a| then k else |a|);
    e := AtomicWriteInJob(d1, STATUS, c);
    ExecSplit(EMPTY, a, s, k);
    if |a| < k < |a| + 4 {
      PartWayInJob(d1, STATUS, c, k - |a|);
    } else if k == |a| + 4 {
      assert s[..4] == s;
    }
  }

  /** ... then the `DONE` marker. */
  lemma MarkerRuns(d: Dir, number: nat, k: nat) returns (e: Dir)
    requires Wf(d) && AllSynced(d) && NoDone(d) && k <= 4
    ensures var ops := AtomicWrite(DONE, DoneText(number));
      && Runs(d, ops) && e == Exec(d, ops) && Runs(d, ops[..k])
      && Wf(Exec(d, ops[..k])) && (k < 4 ==> NoDone(Exec(d, ops[..k])))
      && (k == 4 ==> Exec(d, ops[..k]) == e)
    ensures Wf(e) && Landing(e, Record(number, Wrote(FilesOf(d), DONE, DoneText(number))))
  {
    var ops := AtomicWrite(DONE, DoneText(number));
    e := AtomicWriteInJob(d, DONE, DoneText(number));
    if k < 4 {
      PartWayInJob(d, DONE, DoneText(number), k);
    } else {
      assert ops[..4] == ops;
    }
  }

  /** ... then the directory fsync that turns `Landing` into `Complete`. */
  lemma FsyncCompletes(d: Dir, r: Record)
    requires Wf(d) && Landing(d, r)
    ensures CanApply(d, Op([], FsyncDir))
    ensures var e := Apply(d, Op([], FsyncDir)); Wf(e) && Complete(e, r)
    ensures Runs(d, [Op([], FsyncDir)]) && Exec(d, [Op([], FsyncDir)]) == Apply(d, Op([], FsyncDir))
  {
    var e := Apply(d, Op([], FsyncDir));
    ApplyKeepsWf(d, Op([], FsyncDir));
    assert FilesOf(e) == FilesOf(d);
    assert [Op([], FsyncDir)][1..] == [];
  }

  /** Steps 1 to 3: at every point of the script the job directory either cannot
      look committed, or looks committed exactly when everything is there; at the
      end it is complete. */
  lemma JobRuns(job: Name, number: nat, outs: seq<Output>, fields: map<string, Bytes>, k: nat)
    requires forall o | o in outs :: ValidOutputName(o.path)
    requires k <= |JobOps(job, number, outs, fields)|
    ensures var ops := JobOps(job, number, outs, fields);
      && Runs(EMPTY, ops) && Runs(EMPTY, ops[..k]) && Wf(Exec(EMPTY, ops[..k]))
      && var e, r := Exec(EMPTY, ops[..k]), RecordOf(job, number, outs, fields);
      && (k < |ops| - 1 ==> NoDone(e))
      && (k == |ops| - 1 ==> Landing(e, r))
      && (k == |ops| ==> Complete(e, r))
  {
    hide Wf, NoDone, AllSynced, Landing, Complete, FilesOf, Wrote, WroteAll, StatusOf, Runs, Exec, BodyOps, JobOps,
      AtomicWrite, RecordOf, CanApply, Apply, ValidOutputName;
    var a, b, last := BodyOps(job, number, outs, fields), AtomicWrite(DONE, DoneText(number)), [Op([], FsyncDir)];
    var r := RecordOf(job, number, outs, fields);
    JobInParts(job, number, outs, fields);
    var d1 := BodyRuns(job, number, outs, fields, if k <= |a| then k else |a|);
    var d2 := MarkerRuns(d1, number, if k <= |a| then 0 else if k <= |a| + 4 then k - |a| else 4);
    FsyncCompletes(d2, r);
    MomentOf(a, b, last, d1, d2, r, k);
  }

  lemma JobInParts(job: Name, number: nat, outs: seq<Output>, fields: map<string, Bytes>)
    ensures JobOps(job, number, outs, fields)
      == (BodyOps(job, number, outs, fields) + AtomicWrite(DONE, DoneText(number))) + [Op([], FsyncDir)]
    ensures |AtomicWrite(DONE, DoneText(number))| == 4
    ensures var files := Wrote(WroteAll(outs), STATUS, StatusOf(job, number, outs, fields));
      RecordOf(job, number, outs, fields) == Record(number, Wrote(files, DONE, DoneText(number)))
  {
  }

  /** After `k` calls of three scripts in a row. */
  lemma MomentOf(a: seq<Op>, b: seq<Op>, last: seq<Op>, d1: Dir, d2: Dir, r: Record, k: nat)
    requires Runs(EMPTY, a) && d1 == Exec(EMPTY, a) && Runs(d1, b) && d2 == Exec(d1, b) && Runs(d2, last)
    requires |b| == 4 && |last| == 1 && k <= |a| + 5
    requires k <= |a| ==> Runs(EMPTY, a[..k]) && Wf(Exec(EMPTY, a[..k])) && NoDone(Exec(EMPTY, a[..k]))
    requires |a| <= k < |a| + 4 ==>
      Runs(d1, b[..k - |a|]) && Wf(Exec(d1, b[..k - |a|])) && NoDone(Exec(d1, b[..k - |a|]))
    requires Wf(d2) && Landing(d2, r) && Wf(Exec(d2, last)) && Complete(Exec(d2, last), r)
    ensures var ops := (a + b) + last;
      && Runs(EMPTY, ops) && Runs(EMPTY, ops[..k]) && Wf(Exec(EMPTY, ops[..k]))
      && (k < |ops| - 1 ==> NoDone(Exec(EMPTY, ops[..k])))
      && (k == |ops| - 1 ==> Landing(Exec(EMPTY, ops[..k]), r))
      && (k == |ops| ==> Complete(Exec(EMPTY, ops[..k]), r))
  {
    hide Wf, NoDone, Landing, Complete, Runs, Exec;
    ExecThree(EMPTY, a, b, last, k);
    if k == |a| + 5 {
      assert last[..1] == last;
    } else if k == |a| + 4 {
      assert b[..4] == b;
    }
  }
}
