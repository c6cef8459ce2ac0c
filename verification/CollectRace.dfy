/** `collect.py` against a process that keeps changing the tree: every single call
    of the walk, each read of a chunk included, may find a different file system.
    The walk is over-approximated (it may make its calls in any order and read
    chunks at any offset), which only adds runs to be safe in. */
module CollectRace {
  import opened Basics

  type Inode = nat

  /** What an inode is; a link is kept as the inode its target resolves to. */
  datatype Object = Regular(data: Bytes) | Directory(entries: map<Name, Inode>) | Link(to: Inode) | Other

  type Fs = map<Inode, Object>

  predicate IsDir(fs: Fs, d: Inode) {
    d in fs && fs[d].Directory?
  }

  predicate IsEntry(fs: Fs, d: Inode, n: Name, i: Inode) {
    IsDir(fs, d) && n in fs[d].entries && fs[d].entries[n] == i
  }

  predicate SameKind(a: Object, b: Object) {
    a.Regular? == b.Regular? && a.Directory? == b.Directory? && a.Link? == b.Link?
  }

  // ------------------------------------------------------------- the walk

  /** An `lstat` that found a directory; the entry may be gone by the time it is opened. */
  datatype Seen = Seen(dir: Inode, name: Name, ino: Inode)

  /** A leaf descriptor; `passed` once `fstat` said it is a regular file. */
  datatype Leaf = Leaf(ino: Inode, passed: bool)

  /** One chunk copied: the bytes that stood at `from`. */
  datatype Copied = Copied(ino: Inode, from: nat, data: Bytes)

  datatype State = State(fs: Fs, pinned: set<Inode>, seen: set<Seen>, leaves: set<Leaf>, copied: seq<Copied>)

  datatype Step =
    | Mutate(fs: Fs)                          // anything the other process does
    | LstatDir(dir: Inode, name: Name)        // fwalk: lstat, relative to a pinned directory
    | OpenDir(seen: Seen)                     // fwalk: open (following links), fstat, samestat
    | OpenLeaf(dir: Inode, name: Name)        // O_NOFOLLOW, relative to a pinned directory
    | OpenLeafByPath(path: seq<Name>)         // not in the code: O_NOFOLLOW, by a path string
    | FstatLeaf(leaf: Leaf)
    | ReadLeaf(leaf: Leaf, from: nat, size: nat)  // one chunk

  /** Inodes may come and change their contents, but an inode keeps its type. */
  predicate MayBecome(fs: Fs, gs: Fs) {
    forall i | i in fs :: i in gs && SameKind(fs[i], gs[i])
  }

  function Followed(fs: Fs, i: Inode): Inode {
    if i in fs && fs[i].Link? then fs[i].to else i
  }

  predicate Next(s: State, step: Step, t: State) {
    match step
    case Mutate(gs) => MayBecome(s.fs, gs) && t == s.(fs := gs)
    case LstatDir(d, n) =>
      && d in s.pinned && IsDir(s.fs, d) && n in s.fs[d].entries && IsDir(s.fs, s.fs[d].entries[n])
      && t == s.(seen := s.seen + {Seen(d, n, s.fs[d].entries[n])})
    case OpenDir(x) =>
      && x in s.seen && IsDir(s.fs, x.dir) && x.name in s.fs[x.dir].entries
      && var got := Followed(s.fs, s.fs[x.dir].entries[x.name]);
      t == if IsDir(s.fs, got) && got == x.ino then s.(pinned := s.pinned + {got}) else s
    case OpenLeaf(d, n) =>
      && d in s.pinned && IsDir(s.fs, d) && n in s.fs[d].entries
      && var got := s.fs[d].entries[n];
      && got in s.fs && !s.fs[got].Link?
      && t == s.(leaves := s.leaves + {Leaf(got, false)})
    case FstatLeaf(l) =>
      && l in s.leaves && l.ino in s.fs && s.fs[l.ino].Regular?
      && t == s.(leaves := s.leaves + {Leaf(l.ino, true)})
    case ReadLeaf(l, from, size) =>
      && l in s.leaves && l.passed && l.ino in s.fs && s.fs[l.ino].Regular?
      && from + size <= |s.fs[l.ino].data|
      && t == s.(copied := s.copied + [Copied(l.ino, from, s.fs[l.ino].data[from..from + size])])
    case OpenLeafByPath(_) => false
  }

  /** Only the output directory is open yet. */
  predicate Starts(s: State, root: Inode) {
    s.pinned == {root} && s.seen == {} && s.leaves == {} && s.copied == [] && IsDir(s.fs, root)
  }

  /** A run: the states in between, starting with only the output directory open. */
  ghost predicate IsRun(ss: seq<State>, steps: seq<Step>, root: Inode) {
    && |ss| == |steps| + 1 && Starts(ss[0], root)
    && forall k | 0 <= k < |steps| :: Next(ss[k], steps[k], ss[k + 1])
  }

  // ------------------------------------------------------------- where copied bytes come from

  /** The call is an `lstat` in a pinned directory that finds `i` as a direct entry. */
  predicate LooksUp(s: State, step: Step, i: Inode) {
    step.LstatDir? && step.dir in s.pinned && IsEntry(s.fs, step.dir, step.name, i)
  }

  /** The call opens `i` as a leaf, at that moment a direct entry of a pinned directory. */
  predicate Opens(s: State, step: Step, i: Inode) {
    step.OpenLeaf? && step.dir in s.pinned && IsEntry(s.fs, step.dir, step.name, i)
  }

  /** The call is an `fstat` of the leaf, which is a regular file at that moment. */
  predicate Checks(s: State, step: Step, i: Inode) {
    step.FstatLeaf? && step.leaf.ino == i && i in s.fs && s.fs[i].Regular?
  }

  /** The call reads the chunk from the file that holds it there. */
  predicate Reads(s: State, step: Step, c: Copied) {
    step.ReadLeaf? && step.leaf.ino == c.ino && step.from == c.from && Holds(s.fs, c)
  }

  /** The regular file holds the chunk where it was read. */
  predicate Holds(fs: Fs, c: Copied) {
    && c.ino in fs && fs[c.ino].Regular? && c.from + |c.data| <= |fs[c.ino].data|
    && fs[c.ino].data[c.from..c.from + |c.data|] == c.data
  }

  ghost predicate WasLookedUp(ss: seq<State>, steps: seq<Step>, k: nat, i: Inode) {
    exists j :: 0 <= j < k && j < |ss| && j < |steps| && LooksUp(ss[j], steps[j], i)
  }

  ghost predicate WasOpened(ss: seq<State>, steps: seq<Step>, k: nat, i: Inode) {
    exists j :: 0 <= j < k && j < |ss| && j < |steps| && Opens(ss[j], steps[j], i)
  }

  ghost predicate WasChecked(ss: seq<State>, steps: seq<Step>, k: nat, i: Inode) {
    exists j :: 0 <= j < k && j < |ss| && j < |steps| && Checks(ss[j], steps[j], i)
  }

  /** Two chunks of one file may be from two moments. */
  ghost predicate WasRead(ss: seq<State>, steps: seq<Step>, k: nat, c: Copied) {
    exists j :: 0 <= j < k && j < |ss| && j < |steps| && Reads(ss[j], steps[j], c)
  }

  lemma Earlier(ss: seq<State>, steps: seq<Step>, k: nat)
    requires k > 0
    ensures forall i | WasLookedUp(ss, steps, k - 1, i) :: WasLookedUp(ss, steps, k, i)
    ensures forall i | WasOpened(ss, steps, k - 1, i) :: WasOpened(ss, steps, k, i)
    ensures forall i | WasChecked(ss, steps, k - 1, i) :: WasChecked(ss, steps, k, i)
    ensures forall c | WasRead(ss, steps, k - 1, c) :: WasRead(ss, steps, k, c)
  {
    hide LooksUp, Opens, Checks, Reads;
    forall i | WasChecked(ss, steps, k - 1, i)
      ensures WasChecked(ss, steps, k, i)
    {
      var j :| 0 <= j < k - 1 && j < |ss| && j < |steps| && Checks(ss[j], steps[j], i);
      assert j < k;
    }
    forall i | WasLookedUp(ss, steps, k - 1, i)
      ensures WasLookedUp(ss, steps, k, i)
    {
      var j :| 0 <= j < k - 1 && j < |ss| && j < |steps| && LooksUp(ss[j], steps[j], i);
      assert j < k;
    }
    forall i | WasOpened(ss, steps, k - 1, i)
      ensures WasOpened(ss, steps, k, i)
    {
      var j :| 0 <= j < k - 1 && j < |ss| && j < |steps| && Opens(ss[j], steps[j], i);
      assert j < k;
    }
    forall c | WasRead(ss, steps, k - 1, c)
      ensures WasRead(ss, steps, k, c)
    {
      var j :| 0 <= j < k - 1 && j < |ss| && j < |steps| && Reads(ss[j], steps[j], c);
      assert j < k;
    }
  }

  ghost predicate WellSourced(ss: seq<State>, steps: seq<Step>, k: nat, root: Inode)
    requires k < |ss|
  {
    && (forall d | d in ss[k].pinned :: IsDir(ss[k].fs, d) && (d == root || WasLookedUp(ss, steps, k, d)))
    && (forall x | x in ss[k].seen :: WasLookedUp(ss, steps, k, x.ino))
    && (forall l | l in ss[k].leaves ::
          WasOpened(ss, steps, k, l.ino) && l.ino in ss[k].fs && !ss[k].fs[l.ino].Link?)
    && (forall l | l in ss[k].leaves && l.passed :: WasChecked(ss, steps, k, l.ino))
    && (forall c | c in ss[k].copied ::
          WasOpened(ss, steps, k, c.ino) && WasChecked(ss, steps, k, c.ino) && WasRead(ss, steps, k, c))
  }

  /** Every pinned directory was, at the very `lstat` that found it, and every leaf
      and every copied file, at the very call that opened it, a direct entry of a
      directory pinned by then, and no link; every copied file was found to be a
      regular one first, and every copied chunk is what it held at its place when it was read.
      This is so for any mutator whatever. */
  lemma {:induction false} CopiesComeFromPinned(ss: seq<State>, steps: seq<Step>, root: Inode, k: nat)
    requires IsRun(ss, steps, root) && k < |ss|
    ensures WellSourced(ss, steps, k, root)
  {
    hide Next, WasLookedUp, WasOpened, WasChecked, WasRead;
    if k > 0 {
      CopiesComeFromPinned(ss, steps, root, k - 1);
      assert Next(ss[k - 1], steps[k - 1], ss[k]);
      SourcedStep(ss, steps, root, k);
    }
  }

  lemma SourcedStep(ss: seq<State>, steps: seq<Step>, root: Inode, k: nat)
    requires 0 < k < |ss| && k <= |steps| && WellSourced(ss, steps, k - 1, root) && Next(ss[k - 1], steps[k - 1], ss[k])
    ensures WellSourced(ss, steps, k, root)
  {
    hide WasLookedUp, WasOpened, WasChecked, WasRead;
    Earlier(ss, steps, k);
    var s := ss[k - 1];
    match steps[k - 1] {
      case LstatDir(d, n) => LookedUpNow(ss, steps, k, s.fs[d].entries[n]);
      case OpenLeaf(d, n) => OpenedNow(ss, steps, k, s.fs[d].entries[n]);
      case ReadLeaf(l, from, size) => ReadNow(ss, steps, k, Copied(l.ino, from, s.fs[l.ino].data[from..from + size]));
      case Mutate(gs) =>
      case OpenDir(x) =>
      case FstatLeaf(l) => CheckedNow(ss, steps, k, l.ino);
    }
  }

  lemma LookedUpNow(ss: seq<State>, steps: seq<Step>, k: nat, i: Inode)
    requires 0 < k < |ss| && k <= |steps| && LooksUp(ss[k - 1], steps[k - 1], i)
    ensures WasLookedUp(ss, steps, k, i)
  {
  }

  lemma OpenedNow(ss: seq<State>, steps: seq<Step>, k: nat, i: Inode)
    requires 0 < k < |ss| && k <= |steps| && Opens(ss[k - 1], steps[k - 1], i)
    ensures WasOpened(ss, steps, k, i)
  {
  }

  lemma CheckedNow(ss: seq<State>, steps: seq<Step>, k: nat, i: Inode)
    requires 0 < k < |ss| && k <= |steps| && Checks(ss[k - 1], steps[k - 1], i)
    ensures WasChecked(ss, steps, k, i)
  {
  }

  lemma ReadNow(ss: seq<State>, steps: seq<Step>, k: nat, c: Copied)
    requires 0 < k < |ss| && k <= |steps| && Reads(ss[k - 1], steps[k - 1], c)
    ensures WasRead(ss, steps, k, c)
  {
  }

  // ------------------------------------------------------------- nothing from outside

  /** No directory of the mutator's leads straight to an inode outside; links may. */
  ghost predicate Sealed(fs: Fs, outside: set<Inode>) {
    forall d, n, i | IsEntry(fs, d, n, i) && d !in outside :: i !in outside
  }

  /** As long as no outside inode is ever an entry of an inside directory, none of
      them is read, whatever links are planted and swapped in between the calls. */
  lemma {:induction false} NothingFromOutside(ss: seq<State>, steps: seq<Step>, root: Inode, outside: set<Inode>,
                                              k: nat)
    requires IsRun(ss, steps, root) && k < |ss| && root !in outside
    requires forall s | s in ss :: Sealed(s.fs, outside)
    ensures ss[k].pinned !! outside
    ensures forall x | x in ss[k].seen :: x.ino !in outside
    ensures forall l | l in ss[k].leaves :: l.ino !in outside
    ensures forall c | c in ss[k].copied :: c.ino !in outside
  {
    if k > 0 {
      NothingFromOutside(ss, steps, root, outside, k - 1);
      var s, t := ss[k - 1], ss[k];
      assert s in ss && Sealed(s.fs, outside) && Next(s, steps[k - 1], t);
      match steps[k - 1] {
        case LstatDir(d, n) => assert IsEntry(s.fs, d, n, s.fs[d].entries[n]);
        case OpenLeaf(d, n) => assert IsEntry(s.fs, d, n, s.fs[d].entries[n]);
        case Mutate(gs) =>
        case OpenDir(x) =>
        case FstatLeaf(l) =>
        case ReadLeaf(l, from, size) =>
      }
    }
  }

  // ------------------------------------------------------------- why the descriptors matter

  /** Opening by a path string instead: links in the middle are followed, only the
      last component is protected. */
  function ByPath(fs: Fs, d: Inode, path: seq<Name>): (r: set<Inode>)
    decreases |path|
  {
    if path == [] || !IsDir(fs, d) || path[0] !in fs[d].entries then {}
    else
      var i := fs[d].entries[path[0]];
      if |path| == 1 then (if i in fs && !fs[i].Link? then {i} else {})
      else ByPath(fs, Followed(fs, i), path[1..])
  }

  /** The same walk, except that leaves are opened by path. */
  ghost predicate NextByPath(s: State, step: Step, t: State, root: Inode) {
    match step
    case OpenLeaf(_, _) => false
    case OpenLeafByPath(path) =>
      exists got | got in ByPath(s.fs, root, path) :: t == s.(leaves := s.leaves + {Leaf(got, false)})
    case _ => Next(s, step, t)
  }

  ghost predicate IsRunByPath(ss: seq<State>, steps: seq<Step>, root: Inode) {
    && |ss| == |steps| + 1 && Starts(ss[0], root)
    && forall k | 0 <= k < |steps| :: NextByPath(ss[k], steps[k], ss[k + 1], root)
  }

  const TREE := map[0 := Directory(map["sub" := 1]), 1 := Directory(map["x" := 2]), 2 := Regular([])]

  /** Inodes 10 and 11 are outside. */
  function Before(secret: Bytes): Fs {
    TREE[10 := Directory(map["x" := 11])][11 := Regular(secret)]
  }

  /** `sub` moved away and a link put in its place. */
  function Swapped(secret: Bytes): Fs {
    Before(secret)[0 := Directory(map["old" := 1, "sub" := 3])][3 := Link(10)]
  }

  lemma SwapIsAllowed(secret: Bytes)
    ensures Sealed(Before(secret), {10, 11}) && Sealed(Swapped(secret), {10, 11})
    ensures MayBecome(Before(secret), Swapped(secret))
  {
  }

  lemma SwapMisleads(secret: Bytes)
    ensures ByPath(Before(secret), 0, ["sub", "x"]) == {2} && ByPath(Swapped(secret), 0, ["sub", "x"]) == {11}
  {
    assert ["sub", "x"][1..] == ["x"];
    assert ByPath(Before(secret), 1, ["x"]) == {2};
    assert Followed(Swapped(secret), 3) == 10 && ByPath(Swapped(secret), 10, ["x"]) == {11};
  }

  /** Why the descriptors matter: `sub` is seen and pinned, then swapped for a
      link, and the leaf opened by path, a single-link regular file by its `fstat`,
      is the one outside. The tree is sealed in every state of this run, whatever
      the outside file holds. */
  lemma ByPathLeaks(secret: Bytes) returns (ss: seq<State>, steps: seq<Step>, root: Inode, outside: set<Inode>)
    ensures IsRunByPath(ss, steps, root) && root !in outside
    ensures forall s | s in ss :: Sealed(s.fs, outside)
    ensures exists c :: c in ss[|ss| - 1].copied && c.ino in outside && c.data == secret
    ensures !IsRun(ss, steps, root)
  {
    hide Next, Sealed, Before, Swapped, ByPath, MayBecome;
    SwapIsAllowed(secret);
    root, outside := 0, {10, 11};
    var sub := Seen(0, "sub", 1);
    steps := [LstatDir(0, "sub"), OpenDir(sub), Mutate(Swapped(secret)), OpenLeafByPath(["sub", "x"]),
      FstatLeaf(Leaf(11, false)), ReadLeaf(Leaf(11, true), 0, |secret|)];
    var s0 := State(Before(secret), {0}, {}, {}, []);
    var s1 := s0.(seen := {sub});
    var s2 := s1.(pinned := {0, 1});
    var s3 := s2.(fs := Swapped(secret));
    var s4 := s3.(leaves := {Leaf(11, false)});
    var s5 := s4.(leaves := {Leaf(11, false), Leaf(11, true)});
    var s6 := s5.(copied := [Copied(11, 0, secret)]);
    ss := [s0, s1, s2, s3, s4, s5, s6];
    LeakSteps(secret, s0, s1, s2, s3);
    assert NextByPath(s3, steps[3], s4, root) by {
      SwapMisleads(secret);
      assert 11 in ByPath(s3.fs, root, ["sub", "x"]);
    }
    LeakReads(secret, s4, s5, s6);
    hide NextByPath;
    assert Copied(11, 0, secret) in s6.copied;
    forall k | 0 <= k < 6
      ensures NextByPath(ss[k], steps[k], ss[k + 1], root)
    {
    }
    assert !Next(ss[3], steps[3], ss[4]) by { ByPathIsNotNext(s3, ["sub", "x"], s4); }
  }

  lemma ByPathIsNotNext(s: State, path: seq<Name>, t: State)
    ensures !Next(s, OpenLeafByPath(path), t)
  {
  }

  lemma LeakSteps(secret: Bytes, s0: State, s1: State, s2: State, s3: State)
    requires s0 == State(Before(secret), {0}, {}, {}, []) && s1 == s0.(seen := {Seen(0, "sub", 1)})
    requires s2 == s1.(pinned := {0, 1}) && s3 == s2.(fs := Swapped(secret))
    requires MayBecome(Before(secret), Swapped(secret))
    ensures Starts(s0, 0) && NextByPath(s0, LstatDir(0, "sub"), s1, 0)
    ensures NextByPath(s1, OpenDir(Seen(0, "sub", 1)), s2, 0)
    ensures NextByPath(s2, Mutate(Swapped(secret)), s3, 0)
  {
  }

  lemma LeakReads(secret: Bytes, s4: State, s5: State, s6: State)
    requires s4.fs == Swapped(secret) && s4.leaves == {Leaf(11, false)} && s4.copied == []
    requires s5 == s4.(leaves := {Leaf(11, false), Leaf(11, true)}) && s6 == s5.(copied := [Copied(11, 0, secret)])
    ensures NextByPath(s4, FstatLeaf(Leaf(11, false)), s5, 0)
    ensures NextByPath(s5, ReadLeaf(Leaf(11, true), 0, |secret|), s6, 0)
  {
    assert secret[0..|secret|] == secret;
  }
}
