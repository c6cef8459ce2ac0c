/** The disk under `/var/lib/nebula-ca`, as the crash protocol sees it.

    A directory holds an inode table, the entry map that has reached the medium,
    and the entry operations still waiting in the page cache. `fsync` on a file
    fixes its bytes; `fsync` on a directory fixes its entries. A power cut keeps,
    in every directory separately, some prefix of the waiting entry operations,
    and leaves arbitrary bytes in every file that was not fsync'd. */
module Storage {
  import opened Basics

  type Path = seq<Name>

  /** SHA-256, kept symbolic: the digest of a byte string names that byte string. */
  datatype Digest = Sha256(of: Bytes)

  /** One entry of `status.json`'s `outputs` list. */
  datatype OutputMeta = OutputMeta(path: Name, sha256: Digest, bytes: nat)

  /** What a file holds. JSON and decimal text are kept decoded. */
  datatype Content =
    | Raw(data: Bytes)
    | DoneText(number: int)
    | StatusText(fields: map<string, Bytes>, jobId: Name, number: int, outputs: seq<OutputMeta>)
    | SeqText(value: int)
    | LinesText(lines: seq<string>)

  datatype EntryOp = Put(name: Name, ino: nat) | Del(name: Name) | Move(src: Name, dst: Name)

  datatype Node =
    | File(content: Content, synced: bool)
    | Folder(dir: Dir)
    | Symlink(toFolder: bool)
    | Special

  datatype Dir = Dir(nodes: seq<Node>, durable: map<Name, nat>, pending: seq<EntryOp>)

  const EMPTY := Dir([], map[], [])

  // ------------------------------------------------------------- entry maps

  function ApplyEntry(m: map<Name, nat>, op: EntryOp): map<Name, nat> {
    match op
    case Put(n, i) => m[n := i]
    case Del(n) => m - {n}
    case Move(s, t) => if s in m then (m - {s})[t := m[s]] else m
  }

  function Replay(m: map<Name, nat>, ops: seq<EntryOp>): map<Name, nat> {
    if ops == [] then m else ApplyEntry(Replay(m, ops[..|ops| - 1]), ops[|ops| - 1])
  }

  /** The entries as they stand once the first `k` waiting operations are applied. */
  function After(d: Dir, k: nat): map<Name, nat>
    requires k <= |d.pending|
  {
    Replay(d.durable, d.pending[..k])
  }

  /** What a running process sees. */
  function View(d: Dir): map<Name, nat> {
    Replay(d.durable, d.pending)
  }

  lemma ViewIsAfterAll(d: Dir)
    ensures After(d, |d.pending|) == View(d)
  {
    assert d.pending[..|d.pending|] == d.pending;
  }

  /** Appending one entry operation adds one prefix and leaves the others alone. */
  lemma AfterAppend(d: Dir, e: Dir, op: EntryOp)
    requires e.durable == d.durable && e.pending == d.pending + [op]
    ensures View(e) == ApplyEntry(View(d), op)
    ensures forall k: nat | k <= |d.pending| :: After(e, k) == After(d, k)
    ensures After(e, |e.pending|) == ApplyEntry(View(d), op)
  {
    assert e.pending[..|e.pending| - 1] == d.pending;
    assert e.pending[..|e.pending|] == e.pending;
    forall k: nat | k <= |d.pending|
      ensures After(e, k) == After(d, k)
    {
      assert e.pending[..k] == d.pending[..k];
    }
  }

  // ------------------------------------------------------------- looking up

  predicate Has(d: Dir, n: Name) {
    n in View(d) && View(d)[n] < |d.nodes|
  }

  function At(d: Dir, n: Name): Node
    requires Has(d, n)
  {
    d.nodes[View(d)[n]]
  }

  predicate HasFolder(d: Dir, n: Name) {
    Has(d, n) && At(d, n).Folder?
  }

  predicate HasFile(d: Dir, n: Name) {
    Has(d, n) && At(d, n).File?
  }

  function Sub(d: Dir, n: Name): Dir
    requires HasFolder(d, n)
  {
    At(d, n).dir
  }

  /** `d` with the folder named `n` replaced by `c`. */
  function WithSub(d: Dir, n: Name, c: Dir): Dir
    requires HasFolder(d, n)
  {
    d.(nodes := d.nodes[View(d)[n] := Folder(c)])
  }

  // ------------------------------------------------------------- system calls

  datatype Act =
    | OpenTrunc(name: Name)                 // O_WRONLY | O_CREAT | O_TRUNC
    | OpenAppend(name: Name)                // O_WRONLY | O_CREAT | O_APPEND
    | Write(name: Name, content: Content)   // into a file just truncated
    | AppendLine(name: Name, line: string)
    | FsyncFile(name: Name)
    | Rename(src: Name, dst: Name)
    | FsyncDir
    | Mkdir(name: Name)
    | Unlink(name: Name)
    | Rmdir(name: Name)

  /** One system call, issued in the directory reached by `at` from the root. */
  datatype Op = Op(at: Path, act: Act)

  function Appended(c: Content, line: string): Content {
    match c
    case LinesText(ls) => LinesText(ls + [line])
    case Raw(b) => if b == [] then LinesText([line]) else c
    case _ => c
  }

  /** The call succeeds, as opposed to failing with an `OSError`. */
  predicate CanPerform(d: Dir, a: Act) {
    match a
    case OpenTrunc(n) => n in View(d) ==> HasFile(d, n)
    case OpenAppend(n) => n in View(d) ==> HasFile(d, n)
    case Write(n, _) => HasFile(d, n)
    case AppendLine(n, _) =>
      HasFile(d, n) && (At(d, n).content.LinesText? || At(d, n).content == Raw([]))
    case FsyncFile(n) => HasFile(d, n)
    case Rename(s, t) => HasFile(d, s) && (t in View(d) ==> HasFile(d, t)) && s != t
    case FsyncDir => true
    case Mkdir(n) => n !in View(d)
    case Unlink(n) => Has(d, n) && !At(d, n).Folder?
    case Rmdir(n) => HasFolder(d, n) && View(Sub(d, n)) == map[]
  }

  /** What the calls are refused for: a name that is taken or missing, an object of
      the wrong kind, a directory that still has entries. */
  lemma RefusedCalls(d: Dir, n: Name)
    ensures CanPerform(d, Mkdir(n)) ==> n !in View(d)
    ensures CanPerform(d, Unlink(n)) ==> Has(d, n) && !HasFolder(d, n)
    ensures CanPerform(d, Rmdir(n)) ==> HasFolder(d, n) && forall m :: m !in View(Sub(d, n))
    ensures HasFolder(d, n) ==> !CanPerform(d, OpenTrunc(n)) && !CanPerform(d, OpenAppend(n))
    ensures HasFolder(d, n) ==> forall m :: !CanPerform(d, Rename(m, n))
    ensures n !in View(d) ==> forall m :: !CanPerform(d, Rename(n, m))
  {
    hide View;
  }

  function Create(d: Dir, n: Name, node: Node): Dir {
    Dir(d.nodes + [node], d.durable, d.pending + [Put(n, |d.nodes|)])
  }

  function SetFile(d: Dir, n: Name, f: Node): Dir
    requires Has(d, n)
  {
    d.(nodes := d.nodes[View(d)[n] := f])
  }

  function Perform(d: Dir, a: Act): Dir
    requires CanPerform(d, a)
  {
    match a
    case OpenTrunc(n) =>
      if n in View(d) then SetFile(d, n, File(Raw([]), false)) else Create(d, n, File(Raw([]), false))
    case OpenAppend(n) =>
      if n in View(d) then d else Create(d, n, File(Raw([]), false))
    case Write(n, c) => SetFile(d, n, File(c, false))
    case AppendLine(n, l) => SetFile(d, n, File(Appended(At(d, n).content, l), false))
    case FsyncFile(n) => SetFile(d, n, At(d, n).(synced := true))
    case Rename(s, t) => d.(pending := d.pending + [Move(s, t)])
    case FsyncDir => Dir(d.nodes, View(d), [])
    case Mkdir(n) => Create(d, n, Folder(EMPTY))
    case Unlink(n) => d.(pending := d.pending + [Del(n)])
    case Rmdir(n) => d.(pending := d.pending + [Del(n)])
  }

  predicate CanApply(d: Dir, op: Op)
    decreases |op.at|
  {
    if op.at == [] then CanPerform(d, op.act)
    else HasFolder(d, op.at[0]) && CanApply(Sub(d, op.at[0]), Op(op.at[1..], op.act))
  }

  function Apply(d: Dir, op: Op): Dir
    requires CanApply(d, op)
    decreases |op.at|
  {
    if op.at == [] then Perform(d, op.act)
    else WithSub(d, op.at[0], Apply(Sub(d, op.at[0]), Op(op.at[1..], op.act)))
  }

  /** Every call of a script succeeds. */
  ghost predicate Runs(d: Dir, ops: seq<Op>)
    decreases |ops|
  {
    ops == [] || (CanApply(d, ops[0]) && Runs(Apply(d, ops[0]), ops[1..]))
  }

  /** The disk after a script. */
  ghost function Exec(d: Dir, ops: seq<Op>): Dir
    requires Runs(d, ops)
    decreases |ops|
  {
    if ops == [] then d else Exec(Apply(d, ops[0]), ops[1..])
  }

  // ------------------------------------------------------------- power cuts

  /** One way for a power cut to fall out: how many waiting entry operations each
      directory keeps, and what an unsynced file holds afterwards. Both are
      looked up by the inode path from the root. */
  datatype World = World(cut: seq<nat> -> nat, junk: seq<nat> -> Content)

  function Kept(d: Dir, at: seq<nat>, w: World): (k: nat)
    ensures k <= |d.pending|
  {
    if w.cut(at) <= |d.pending| then w.cut(at) else |d.pending|
  }

  ghost function Crash(d: Dir, w: World, at: seq<nat>): Dir {
    Dir(seq(|d.nodes|, i requires 0 <= i < |d.nodes| => CrashNode(d.nodes[i], w, at + [i])),
        After(d, Kept(d, at, w)), [])
  }

  ghost function CrashNode(n: Node, w: World, at: seq<nat>): Node {
    match n
    case File(c, synced) => File(if synced then c else w.junk(at), true)
    case Folder(d) => Folder(Crash(d, w, at))
    case _ => n
  }

  // ------------------------------------------------------------- well-formedness

  /** Entries name existing inodes, and no inode has two names (no hard links). */
  ghost predicate EntriesOk(m: map<Name, nat>, size: nat) {
    && (forall n | n in m :: m[n] < size)
    && (forall a, b | a in m && b in m && m[a] == m[b] :: a == b)
  }

  /** Entries are sound in every prefix a power cut could leave behind. */
  ghost predicate Wf(d: Dir) {
    && (forall k: nat | k <= |d.pending| :: EntriesOk(After(d, k), |d.nodes|))
    && (forall i | 0 <= i < |d.nodes| && d.nodes[i].Folder? :: Wf(d.nodes[i].dir))
  }

  lemma WfView(d: Dir)
    requires Wf(d)
    ensures EntriesOk(View(d), |d.nodes|)
    ensures forall n | n in View(d) :: Has(d, n)
  {
    ViewIsAfterAll(d);
    assert EntriesOk(After(d, |d.pending|), |d.nodes|);
  }

  lemma WfSub(d: Dir, n: Name)
    requires Wf(d) && HasFolder(d, n)
    ensures Wf(Sub(d, n))
  {
  }

  lemma EntriesGrow(m: map<Name, nat>, size: nat, n: Name)
    requires EntriesOk(m, size)
    ensures EntriesOk(m[n := size], size + 1)
  {
  }

  lemma AppendKeepsWf(d: Dir, e: Dir, op: EntryOp)
    requires Wf(d) && e.durable == d.durable && e.pending == d.pending + [op]
    requires |d.nodes| <= |e.nodes|
    requires EntriesOk(ApplyEntry(View(d), op), |e.nodes|)
    requires forall i | 0 <= i < |e.nodes| && e.nodes[i].Folder? :: Wf(e.nodes[i].dir)
    ensures Wf(e)
  {
    AfterAppend(d, e, op);
    forall k: nat | k <= |e.pending|
      ensures EntriesOk(After(e, k), |e.nodes|)
    {
      if k <= |d.pending| {
        assert After(e, k) == After(d, k);
        assert EntriesOk(After(d, k), |d.nodes|);
      }
    }
  }

  lemma CreateKeepsWf(d: Dir, n: Name, node: Node)
    requires Wf(d) && n !in View(d) && (node.Folder? ==> Wf(node.dir))
    ensures Wf(Create(d, n, node))
  {
    WfView(d);
    EntriesGrow(View(d), |d.nodes|, n);
    hide View, After, Replay;
    AppendKeepsWf(d, Create(d, n, node), Put(n, |d.nodes|));
  }

  lemma SetFileKeepsWf(d: Dir, n: Name, f: Node)
    requires Wf(d) && Has(d, n) && !f.Folder?
    ensures Wf(SetFile(d, n, f))
  {
    hide View, After, Replay;
    SameEntriesKeepWf(d, SetFile(d, n, f));
  }

  lemma EntryKeepsWf(d: Dir, op: EntryOp)
    requires Wf(d) && (op.Del? || (op.Move? && op.src != op.dst))
    ensures Wf(d.(pending := d.pending + [op]))
  {
    WfView(d);
    hide After, Replay;
    AppendKeepsWf(d, d.(pending := d.pending + [op]), op);
  }

  lemma PerformKeepsWf(d: Dir, a: Act)
    requires Wf(d) && CanPerform(d, a)
    ensures Wf(Perform(d, a))
  {
    WfView(d);
    assert Wf(EMPTY);
    hide After, Replay, View, Wf, EntriesOk;
    match a {
      case OpenTrunc(n) =>
        if n !in View(d) { CreateKeepsWf(d, n, File(Raw([]), false)); }
        else { SetFileKeepsWf(d, n, File(Raw([]), false)); }
      case OpenAppend(n) =>
        if n !in View(d) { CreateKeepsWf(d, n, File(Raw([]), false)); }
      case Write(n, c) => SetFileKeepsWf(d, n, File(c, false));
      case AppendLine(n, l) => SetFileKeepsWf(d, n, File(Appended(At(d, n).content, l), false));
      case FsyncFile(n) => SetFileKeepsWf(d, n, At(d, n).(synced := true));
      case Rename(s, t) => EntryKeepsWf(d, Move(s, t));
      case FsyncDir => FsyncDirKeepsWf(d);
      case Mkdir(n) => CreateKeepsWf(d, n, Folder(EMPTY));
      case Unlink(n) => EntryKeepsWf(d, Del(n));
      case Rmdir(n) => EntryKeepsWf(d, Del(n));
    }
  }

  lemma FsyncDirKeepsWf(d: Dir)
    requires Wf(d)
    ensures Wf(Dir(d.nodes, View(d), []))
  {
    WfView(d);
    var e := Dir(d.nodes, View(d), []);
    forall k: nat | k <= |e.pending|
      ensures EntriesOk(After(e, k), |e.nodes|)
    {
    }
  }

  lemma SameEntriesKeepWf(d: Dir, e: Dir)
    requires Wf(d) && e.durable == d.durable && e.pending == d.pending && |e.nodes| == |d.nodes|
    requires forall i | 0 <= i < |e.nodes| && e.nodes[i].Folder? :: Wf(e.nodes[i].dir)
    ensures Wf(e)
  {
    forall k: nat | k <= |e.pending|
      ensures EntriesOk(After(e, k), |e.nodes|)
    {
      assert After(e, k) == After(d, k);
    }
  }

  lemma WithSubKeepsWf(d: Dir, n: Name, c: Dir)
    requires Wf(d) && HasFolder(d, n) && Wf(c)
    ensures Wf(WithSub(d, n, c))
  {
    SameEntriesKeepWf(d, WithSub(d, n, c));
  }

  /** Any successful system call keeps the tree well-formed. */
  lemma {:induction false} ApplyKeepsWf(d: Dir, op: Op)
    requires Wf(d) && CanApply(d, op)
    ensures Wf(Apply(d, op))
    decreases |op.at|
  {
    if op.at == [] {
      PerformKeepsWf(d, op.act);
    } else {
      ApplyKeepsWf(Sub(d, op.at[0]), Op(op.at[1..], op.act));
      SameEntriesKeepWf(d, Apply(d, op));
    }
  }

  /** Any power cut leaves a well-formed tree with nothing waiting at its root. */
  lemma {:induction false} CrashKeepsWf(d: Dir, w: World, at: seq<nat>)
    requires Wf(d)
    ensures Wf(Crash(d, w, at))
  {
    var c := Crash(d, w, at);
    forall k: nat | k <= |c.pending|
      ensures EntriesOk(After(c, k), |c.nodes|)
    {
      assert After(c, k) == After(d, Kept(d, at, w));
    }
    forall i | 0 <= i < |c.nodes| && c.nodes[i].Folder?
      ensures Wf(c.nodes[i].dir)
    {
      assert c.nodes[i] == CrashNode(d.nodes[i], w, at + [i]);
      CrashKeepsWf(d.nodes[i].dir, w, at + [i]);
    }
  }

  // ------------------------------------------------------------- scripts

  lemma {:induction false} ExecConcat(d: Dir, a: seq<Op>, b: seq<Op>)
    requires Runs(d, a) && Runs(Exec(d, a), b)
    ensures Runs(d, a + b) && Exec(d, a + b) == Exec(Exec(d, a), b)
    decreases |a|
  {
    hide CanApply, Apply;
    if a == [] {
      assert a + b == b;
    } else {
      ExecConcat(Apply(d, a[0]), a[1..], b);
      assert (a + b)[1..] == a[1..] + b;
    }
  }

  lemma {:induction false} RunsPrefix(d: Dir, ops: seq<Op>, k: nat)
    requires Runs(d, ops) && k <= |ops|
    ensures Runs(d, ops[..k])
    decreases k
  {
    if k > 0 {
      RunsPrefix(Apply(d, ops[0]), ops[1..], k - 1);
      assert ops[..k][1..] == ops[1..][..k - 1];
    }
  }

  lemma ExecOne(d: Dir, op: Op)
    requires CanApply(d, op)
    ensures Runs(d, [op]) && Exec(d, [op]) == Apply(d, op)
  {
    assert [op][1..] == [];
    assert Runs(Apply(d, op), []);
  }

  /** One more call of a script. */
  lemma ExecNext(d: Dir, ops: seq<Op>, k: nat)
    requires k < |ops| && Runs(d, ops[..k]) && CanApply(Exec(d, ops[..k]), ops[k])
    ensures Runs(d, ops[..k + 1]) && Exec(d, ops[..k + 1]) == Apply(Exec(d, ops[..k]), ops[k])
  {
    ExecOne(Exec(d, ops[..k]), ops[k]);
    ExecConcat(d, ops[..k], [ops[k]]);
    assert ops[..k + 1] == ops[..k] + [ops[k]];
  }

  /** After `k` calls of `a + b` the disk is where `a` alone, or `a` and part of `b`, put it. */
  lemma {:induction false} ExecSplit(d: Dir, a: seq<Op>, b: seq<Op>, k: nat)
    requires Runs(d, a) && Runs(Exec(d, a), b) && k <= |a| + |b|
    ensures Runs(d, a + b) && Runs(d, (a + b)[..k]) && Exec(d, a + b) == Exec(Exec(d, a), b)
    ensures k <= |a| ==> Runs(d, a[..k]) && Exec(d, (a + b)[..k]) == Exec(d, a[..k])
    ensures k >= |a| ==>
      Runs(Exec(d, a), b[..k - |a|]) && Exec(d, (a + b)[..k]) == Exec(Exec(d, a), b[..k - |a|])
  {
    ExecConcat(d, a, b);
    RunsPrefix(d, a + b, k);
    if k <= |a| {
      RunsPrefix(d, a, k);
      assert (a + b)[..k] == a[..k];
    }
    if k >= |a| {
      RunsPrefix(Exec(d, a), b, k - |a|);
      ExecConcat(d, a, b[..k - |a|]);
      assert (a + b)[..k] == a + b[..k - |a|];
    }
  }

  /** The same for a script of three parts. */
  lemma ExecThree(d: Dir, a: seq<Op>, b: seq<Op>, c: seq<Op>, k: nat)
    requires Runs(d, a) && Runs(Exec(d, a), b) && Runs(Exec(Exec(d, a), b), c) && k <= |a| + |b| + |c|
    ensures Runs(d, (a + b) + c) && Runs(d, ((a + b) + c)[..k])
    ensures k <= |a| ==> Runs(d, a[..k]) && Exec(d, ((a + b) + c)[..k]) == Exec(d, a[..k])
    ensures |a| <= k <= |a| + |b| ==>
      Runs(Exec(d, a), b[..k - |a|]) && Exec(d, ((a + b) + c)[..k]) == Exec(Exec(d, a), b[..k - |a|])
    ensures |a| + |b| <= k ==>
      && Runs(Exec(Exec(d, a), b), c[..k - |a| - |b|])
      && Exec(d, ((a + b) + c)[..k]) == Exec(Exec(Exec(d, a), b), c[..k - |a| - |b|])
  {
    hide Runs, Exec;
    ExecSplit(d, a, b, if k <= |a| + |b| then k else |a| + |b|);
    ExecSplit(d, a + b, c, k);
  }

  lemma {:induction false} ExecKeepsWf(d: Dir, ops: seq<Op>)
    requires Wf(d) && Runs(d, ops)
    ensures Wf(Exec(d, ops))
    decreases |ops|
  {
    if ops != [] {
      ApplyKeepsWf(d, ops[0]);
      ExecKeepsWf(Apply(d, ops[0]), ops[1..]);
    }
  }

  /** The same calls, issued from one directory further up. */
  function Under(n: Name, ops: seq<Op>): (r: seq<Op>)
    ensures |r| == |ops|
  {
    seq(|ops|, i requires 0 <= i < |ops| => Op([n] + ops[i].at, ops[i].act))
  }

  lemma UnderPrefix(n: Name, ops: seq<Op>, k: nat)
    requires k <= |ops|
    ensures Under(n, ops)[..k] == Under(n, ops[..k])
  {
  }

  /** Calls issued below a folder change that folder and nothing else. */
  lemma {:induction false} ExecUnder(d: Dir, n: Name, ops: seq<Op>)
    requires HasFolder(d, n) && Runs(Sub(d, n), ops)
    ensures Runs(d, Under(n, ops))
    ensures Exec(d, Under(n, ops)) == WithSub(d, n, Exec(Sub(d, n), ops))
    decreases |ops|
  {
    var u := Under(n, ops);
    if ops == [] {
      assert WithSub(d, n, Sub(d, n)) == d;
    } else {
      assert u[0].at[1..] == ops[0].at;
      var d1 := Apply(d, u[0]);
      assert d1 == WithSub(d, n, Apply(Sub(d, n), ops[0]));
      assert u[1..] == Under(n, ops[1..]);
      ExecUnder(d1, n, ops[1..]);
      assert WithSub(d1, n, Exec(Sub(d1, n), ops[1..])) == WithSub(d, n, Exec(Sub(d, n), ops));
    }
  }
}
