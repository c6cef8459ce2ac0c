/** `collect.py` with nothing else running: a walk over the output tree that copies
    every file into an empty destination, under the type, depth and count rules. */
module Collect {
  import opened Basics
  import opened Extract

  /** The output tree: `links` counts a file's directory entries. */
  datatype Node =
    | File(data: Bytes, links: nat)
    | Folder(entries: map<string, Node>)
    | Link(toFolder: bool)
    | Special

  datatype Meta = Meta(path: Path, sha256Of: Bytes, bytes: nat)

  datatype Refusal = Traversal | TooMany | BadOutput

  datatype Outcome = Collected | Refused(reason: Refusal)

  // ------------------------------------------------------------- what the tree holds

  predicate FileAt(t: Node, q: Path)
    decreases |q|
  {
    if q == [] then t.File? else t.Folder? && q[0] in t.entries && FileAt(t.entries[q[0]], q[1..])
  }

  function DataAt(t: Node, q: Path): Bytes
    requires FileAt(t, q)
    decreases |q|
  {
    if q == [] then t.data else DataAt(t.entries[q[0]], q[1..])
  }

  /** Only real directories at depth at most 4, and single-link regular files of at
      most 4 path components. */
  ghost predicate Fine(t: Node, depth: nat) {
    t.Folder? && FineEntry(t, depth)
  }

  ghost predicate FineEntry(t: Node, depth: nat) {
    match t
    case File(_, links) => links == 1 && depth <= DEPTH
    case Folder(es) => depth <= DEPTH && forall n | n in es :: FineEntry(es[n], depth + 1)
    case _ => false
  }

  /** What a path leads to. */
  function NodeAt(t: Node, q: Path): Option<Node>
    decreases |q|
  {
    if q == [] then Some(t)
    else if t.Folder? && q[0] in t.entries then NodeAt(t.entries[q[0]], q[1..])
    else None
  }

  /** A directory, or a file that has no other name. */
  predicate Sound(t: Node) {
    t.Folder? || (t.File? && t.links == 1)
  }

  /** Every path leads to a sound object, and is no longer than `room`. */
  ghost predicate SoundWithin(t: Node, room: int) {
    forall q | NodeAt(t, q).Some? :: |q| <= room && Sound(NodeAt(t, q).value)
  }

  lemma Downward(t: Node, n: string, q: Path)
    requires t.Folder? && n in t.entries
    ensures NodeAt(t, [n] + q) == NodeAt(t.entries[n], q)
  {
    assert ([n] + q)[1..] == q;
  }

  lemma SoundBelow(t: Node, room: int)
    requires t.Folder?
    ensures SoundWithin(t, room) <==> room >= 0 && forall n | n in t.entries :: SoundWithin(t.entries[n], room - 1)
  {
    assert NodeAt(t, []) == Some(t);
    if SoundWithin(t, room) {
      forall n, q | n in t.entries && NodeAt(t.entries[n], q).Some?
        ensures |q| <= room - 1 && Sound(NodeAt(t.entries[n], q).value)
      {
        Downward(t, n, q);
      }
    }
    if room >= 0 && forall n | n in t.entries :: SoundWithin(t.entries[n], room - 1) {
      forall q | NodeAt(t, q).Some?
        ensures |q| <= room && Sound(NodeAt(t, q).value)
      {
        if q != [] {
          var n := q[0];
          assert SoundWithin(t.entries[n], room - 1) && NodeAt(t.entries[n], q[1..]) == NodeAt(t, q);
        }
      }
    }
  }

  lemma SoundAlone(t: Node, room: int)
    requires !t.Folder?
    ensures SoundWithin(t, room) <==> room >= 0 && Sound(t)
  {
    assert NodeAt(t, []) == Some(t);
  }

  lemma {:induction false} FineEntryMeans(t: Node, depth: nat)
    ensures FineEntry(t, depth) <==> SoundWithin(t, 4 - depth)
    decreases t
  {
    if t.Folder? {
      SoundBelow(t, 4 - depth);
      hide SoundWithin;
      forall n | n in t.entries
        ensures FineEntry(t.entries[n], depth + 1) <==> SoundWithin(t.entries[n], 3 - depth)
      {
        FineEntryMeans(t.entries[n], depth + 1);
      }
    } else {
      SoundAlone(t, 4 - depth);
      hide SoundWithin;
    }
  }

  /** The trees that are taken: nothing but directories and single-link regular
      files, none of them behind more than four names. */
  lemma FineMeans(t: Node)
    requires t.Folder?
    ensures Fine(t, 0) <==> SoundWithin(t, 4)
  {
    FineEntryMeans(t, 0);
  }

  lemma {:induction false} FileIsNode(t: Node, q: Path)
    ensures FileAt(t, q) <==> NodeAt(t, q).Some? && NodeAt(t, q).value.File?
    ensures FileAt(t, q) ==> DataAt(t, q) == NodeAt(t, q).value.data
    decreases |q|
  {
    if q != [] && t.Folder? && q[0] in t.entries { FileIsNode(t.entries[q[0]], q[1..]); }
  }

  /** `os.fwalk` lists a link to a directory among the directories. */
  predicate FolderLike(t: Node) {
    t.Folder? || t == Link(true)
  }

  // ------------------------------------------------------------- the destination

  /** Nothing in the destination is at or below `rel`, and no file is above it. */
  ghost predicate Vacant(files: map<Path, Bytes>, dirs: set<Path>, rel: Path) {
    && (forall p | p in files :: !(rel <= p) && !(p <= rel))
    && (forall p | p in dirs :: !(rel < p))
  }

  predicate EntryFor(o: Meta, files: map<Path, Bytes>) {
    o.path in files && o == Meta(o.path, files[o.path], |files[o.path]|)
  }

  /** One entry per file, each with its digest and length. */
  ghost predicate Listed(outputs: seq<Meta>, files: map<Path, Bytes>) {
    && |outputs| == |files|
    && (forall i | 0 <= i < |outputs| :: EntryFor(outputs[i], files))
    && (forall i, j | 0 <= i < j < |outputs| :: outputs[i].path != outputs[j].path)
    && (forall p | p in files :: exists i :: 0 <= i < |outputs| && outputs[i].path == p)
  }

  lemma OneMoreKey(files: map<Path, Bytes>, p: Path, data: Bytes)
    requires p !in files
    ensures |files[p := data]| == |files| + 1
  {
    assert files[p := data].Keys == files.Keys + {p};
    assert |files| == |files.Keys| && |files[p := data]| == |files[p := data].Keys|;
  }

  lemma ListedMore(outputs: seq<Meta>, files: map<Path, Bytes>, p: Path, data: Bytes)
    requires Listed(outputs, files) && p !in files
    ensures Listed(outputs + [Meta(p, data, |data|)], files[p := data])
  {
    OneMoreKey(files, p, data);
    var more, m := outputs + [Meta(p, data, |data|)], files[p := data];
    forall i | 0 <= i < |more|
      ensures EntryFor(more[i], m)
    {
      assert i < |outputs| ==> EntryFor(outputs[i], files);
    }
    forall q | q in m
      ensures exists i :: 0 <= i < |more| && more[i].path == q
    {
      if q == p {
        assert more[|outputs|].path == p;
      } else {
        var i :| 0 <= i < |outputs| && outputs[i].path == q;
        assert more[i].path == q;
      }
    }
    forall i, j | 0 <= i < j < |more|
      ensures more[i].path != more[j].path
    {
      assert EntryFor(outputs[i], files);
    }
  }

  /** The files `was`, and those of `t` (placed at `rel`) whose first name is in `names`. */
  ghost predicate Holds(files: map<Path, Bytes>, was: map<Path, Bytes>, t: Node, rel: Path, names: set<string>) {
    forall p ::
      && (p in files <==> p in was || From(t, rel, names, p))
      && (p in was ==> p in files && files[p] == was[p])
      && (p !in was && From(t, rel, names, p) ==> p in files && files[p] == DataAt(t, p[|rel|..]))
  }

  ghost predicate Partly(files: map<Path, Bytes>, was: map<Path, Bytes>, t: Node, rel: Path, names: set<string>) {
    forall p ::
      && (p in was ==> p in files && files[p] == was[p])
      && (p in files && p !in was ==> From(t, rel, names, p) && files[p] == DataAt(t, p[|rel|..]))
  }

  ghost predicate From(t: Node, rel: Path, names: set<string>, p: Path) {
    rel < p && p[|rel|] in names && FileAt(t, p[|rel|..])
  }

  /** New directories are above `rel`, or start with `rel` and one of `names`. */
  ghost predicate NewDirs(dirs: set<Path>, was: set<Path>, rel: Path, names: set<string>) {
    was <= dirs && forall p | p in dirs && p !in was :: p <= rel || (rel < p && p[|rel|] in names)
  }

  class Collector {
    var files: map<Path, Bytes>
    var dirs: set<Path>
    var outputs: seq<Meta>
    var fileCount: nat

    constructor ()
      ensures files == map[] && dirs == {} && outputs == [] && fileCount == 0
    {
      files, dirs, outputs, fileCount := map[], {}, [], 0;
    }

    /** `_write_dest`: directories component by component, then an exclusive create. */
    method WriteDest(path: Path, data: Bytes) returns (ok: bool)
      requires path != []
      modifies this`files, this`dirs
      ensures ok == (path !in old(files) && path !in old(dirs) && forall q | q in Above(path) :: q !in old(files))
      ensures ok ==> files == old(files)[path := data] && dirs == old(dirs) + Above(path)
      ensures !ok ==> files == old(files)
    {
      var i, leaf := 1, |path| - 1;
      assert Chain([]) == {} && path[..0] == [];
      while i <= leaf
        invariant 1 <= i <= leaf + 1 && files == old(files)
        invariant dirs == old(dirs) + Chain(path[..i - 1])
        invariant forall q | q in Chain(path[..i - 1]) :: q !in files
      {
        assert path[..i] == path[..i - 1] + [path[i - 1]];
        ChainSnoc(path[..i - 1], path[i - 1]);
        if path[..i] in files {
          assert path[..i] in Above(path);
          return false;
        }
        dirs := dirs + {path[..i]};
        i := i + 1;
      }
      assert path == path[..leaf] + [path[leaf]];
      ChainSnoc(path[..leaf], path[leaf]);
      ChainShorter(path[..leaf]);
      if path in files || path in dirs {
        return false;
      }
      files := files[path := data];
      ok := true;
    }

    /** The links among the listed directories. */
    method CheckFolders(t: Node, names: seq<string>) returns (ok: bool)
      requires t.Folder? && forall n | n in names :: n in t.entries
      ensures ok <==> forall n | n in names :: t.entries[n] != Link(true)
    {
      var i := 0;
      while i < |names|
        invariant i <= |names| && forall n | n in names[..i] :: t.entries[n] != Link(true)
      {
        if t.entries[names[i]] == Link(true) {
          assert names[i] in names;
          return false;
        }
        assert names[..i + 1] == names[..i] + [names[i]];
        i := i + 1;
      }
      assert names[..|names|] == names;
      return true;
    }

    /** The files of one directory: count, depth, type, copy. */
    method CollectFiles(t: Node, rel: Path, names: seq<string>) returns (r: Outcome)
      requires t.Folder? && Vacant(files, dirs, rel) && Listed(outputs, files) && fileCount == |files| <= TAR_FILES
      requires IsListing(names, t.entries.Keys)
      modifies this
      ensures Listed(outputs, files) && |files| <= TAR_FILES
      ensures r.Collected? ==>
        && fileCount == |files|
        && (forall n | n in names && !FolderLike(t.entries[n]) :: FineEntry(t.entries[n], |rel| + 1))
      ensures Kept(old(files), old(dirs), files, dirs, t, rel, LeavesOf(t, names), r.Refused?)
      ensures r.Refused? ==> Justified(r.reason, files, t, rel)
    {
      var i := 0;
      ghost var done: set<string> := {};
      NothingKept(files, dirs, t, rel);
      hide Vacant, Listed, Holds, NewDirs, Fine, FineEntry, FileAt, DataAt, Above;
      while i < |names|
        invariant i <= |names| && done == LeavesOf(t, names[..i])
        invariant Listed(outputs, files) && fileCount == |files| <= TAR_FILES
        invariant Kept(old(files), old(dirs), files, dirs, t, rel, done, false)
        invariant forall n | n in done :: FineEntry(t.entries[n], |rel| + 1)
      {
        var n := names[i];
        LeavesMore(t, names, i);
        if !FolderLike(t.entries[n]) {
          fileCount := fileCount + 1;
          LeafFacts(t, rel, n);
          LeafIsVacant(old(files), old(dirs), files, dirs, t, rel, done, n) by {
            assert Vacant(old(files), old(dirs), rel);
          }
          if fileCount > TAR_FILES {
            KeptPart(old(files), old(dirs), files, dirs, t, rel, done, LeavesOf(t, names));
            return Refused(TooMany);
          }
          var node := t.entries[n];
          if |rel| + 1 > DEPTH || !node.File? || node.links != 1 {
            KeptPart(old(files), old(dirs), files, dirs, t, rel, done, LeavesOf(t, names));
            return Refused(Traversal);
          }
          ghost var files0, dirs0 := files, dirs;
          var ok := WriteDest(rel + [n], node.data);
          LeafKept(old(files), old(dirs), files0, dirs0, t, rel, done, n);
          ListedMore(outputs, files0, rel + [n], node.data);
          OneMoreKey(files0, rel + [n], node.data);
          outputs := outputs + [Meta(rel + [n], node.data, |node.data|)];
          done := done + {n};
        }
        i := i + 1;
      }
      assert names[..|names|] == names;
      return Collected;
    }

    /** One directory of the walk, then everything below it. */
    method CollectDir(t: Node, rel: Path, ls: Lister) returns (r: Outcome)
      requires t.Folder? && Lists(ls)
      requires Vacant(files, dirs, rel) && Listed(outputs, files) && fileCount == |files| <= TAR_FILES
      modifies this
      ensures Listed(outputs, files) && |files| <= TAR_FILES
      ensures r.Collected? ==> Fine(t, |rel|) && fileCount == |files|
      ensures Kept(old(files), old(dirs), files, dirs, t, rel, t.entries.Keys, r.Refused?)
      ensures r.Refused? ==> Justified(r.reason, files, t, rel)
      ensures (exists n :: n in t.entries && t.entries[n] == Link(true)) ==>
        r == Refused(Traversal) && files == old(files)
      decreases t, 1
    {
      if |rel| > DEPTH {
        KeptNothing(files, dirs, t, rel);
        return Refused(Traversal);
      }
      var names := ls(t.entries.Keys);
      assert IsListing(names, t.entries.Keys);
      hide Vacant, Listed, Holds, Partly, NewDirs, Fine, FineEntry, FileAt, DataAt, Above, Kept, Justified;
      var ok := CheckFolders(t, names);
      if !ok {
        BadLink(t, rel, names);
        KeptNothing(files, dirs, t, rel);
        TraversalIsJust(files, t, rel);
        return Refused(Traversal);
      }
      r := CollectFiles(t, rel, names);
      ghost var leaves := LeavesOf(t, names);
      if r.Refused? {
        KeptMore(old(files), old(dirs), files, dirs, t, rel, leaves, t.entries.Keys);
        return;
      }
      r := CollectFolders(t, rel, names, ls, old(files), old(dirs));
      if r.Collected? {
        AllFine(t, rel, names);
      }
    }

    /** The recursion into the real directories, in listing order. */
    method CollectFolders(t: Node, rel: Path, names: seq<string>, ls: Lister,
                          ghost files0: map<Path, Bytes>, ghost dirs0: set<Path>) returns (r: Outcome)
      requires t.Folder? && |rel| <= DEPTH && Lists(ls) && Vacant(files0, dirs0, rel)
      requires IsListing(names, t.entries.Keys)
      requires forall n | n in t.entries && FolderLike(t.entries[n]) :: t.entries[n].Folder?
      requires Kept(files0, dirs0, files, dirs, t, rel, LeavesOf(t, names), false)
      requires Listed(outputs, files) && fileCount == |files| <= TAR_FILES
      modifies this
      ensures Listed(outputs, files) && |files| <= TAR_FILES
      ensures r.Collected? ==> fileCount == |files|
      ensures r.Collected? ==>
        forall n | n in FoldersOf(t, names) :: FineEntry(t.entries[n], |rel| + 1)
      ensures Kept(files0, dirs0, files, dirs, t, rel, t.entries.Keys, r.Refused?)
      ensures r.Refused? ==> Justified(r.reason, files, t, rel)
      decreases t, 0
    {
      var i := 0;
      DoneEnds(t, names);
      hide Vacant, Listed, Fine, FineEntry, Kept, Justified, DoneSoFar, FolderLike, FoldersOf, LeavesOf, IsListing;
      while i < |names|
        invariant i <= |names| && Listed(outputs, files) && fileCount == |files| <= TAR_FILES
        invariant Kept(files0, dirs0, files, dirs, t, rel, DoneSoFar(t, names, i), false)
        invariant FoldersFine(t, FoldersOf(t, names[..i]), |rel| + 1)
      {
        DoneMore(t, names, i);
        FoldersMore(t, names, i);
        if FolderLike(t.entries[names[i]]) {
          r := CollectFolder(t, rel, names[i], ls, files0, dirs0, DoneSoFar(t, names, i));
          if r.Refused? {
            KeptMore(files0, dirs0, files, dirs, t, rel, DoneSoFar(t, names, i + 1), t.entries.Keys);
            return;
          }
        }
        i := i + 1;
      }
      return Collected;
    }

    method CollectFolder(t: Node, rel: Path, n: string, ls: Lister,
                         ghost files0: map<Path, Bytes>, ghost dirs0: set<Path>,
                         ghost done: set<string>) returns (r: Outcome)
      requires t.Folder? && n in t.entries && t.entries[n].Folder? && n !in done && Lists(ls)
      requires Vacant(files0, dirs0, rel) && Kept(files0, dirs0, files, dirs, t, rel, done, false)
      requires Listed(outputs, files) && fileCount == |files| <= TAR_FILES
      modifies this
      ensures Listed(outputs, files) && |files| <= TAR_FILES
      ensures r.Collected? ==> fileCount == |files| && FineEntry(t.entries[n], |rel| + 1)
      ensures Kept(files0, dirs0, files, dirs, t, rel, done + {n}, r.Refused?)
      ensures r.Refused? ==> Justified(r.reason, files, t, rel)
      decreases t.entries[n], 2
    {
      hide Vacant, Listed, Holds, Partly, NewDirs, Fine, FineEntry, FileAt, DataAt, Above, Kept, Justified;
      VacantBelow(files0, dirs0, files, dirs, t, rel, done, n);
      r := CollectDir(t.entries[n], rel + [n], ls);
      FolderKept(files0, dirs0, old(files), old(dirs), files, dirs, t, rel, done, n, r.Refused?);
      if r.Refused? {
        JustBelow(r.reason, files, t, rel, n);
      } else {
        FineBelow(t, rel, n);
      }
    }

    /** `collect`, into an empty destination. */
    method CollectAll(t: Node, ls: Lister) returns (r: Outcome)
      requires t.Folder? && Lists(ls) && files == map[] && dirs == {} && outputs == [] && fileCount == 0
      modifies this
      ensures r.Collected? <==> Fine(t, 0) && FewFiles(t)
      ensures forall p | p in files :: FileAt(t, p) && files[p] == DataAt(t, p)
      ensures r.Collected? ==> forall p | FileAt(t, p) :: p in files
      ensures Listed(outputs, files) && |files| <= TAR_FILES
      ensures forall o | o in outputs ::
        o.path in files && o.sha256Of == files[o.path] && o.bytes == |files[o.path]|
      ensures (exists n :: n in t.entries && t.entries[n] == Link(true)) ==> r == Refused(Traversal) && files == map[]
      ensures r == Refused(Traversal) ==> !Fine(t, 0)
      ensures r == Refused(TooMany) ==> |files| == 64
      ensures r != Refused(BadOutput)
    {
      NothingListed(files);
      r := CollectDir(t, [], ls);
      hide Listed, Kept, Justified, Fine, FileAt, DataAt, FewFiles;
      RootKept(files, dirs, t, r.Refused?);
      if r.Collected? {
        AllListedAreFew(files, t);
      } else {
        RefusedRightly(r.reason, files, t);
      }
    }
  }

  /** At most 64 files in the whole tree. */
  ghost predicate FewFiles(t: Node) {
    forall s: set<Path> | (forall p | p in s :: FileAt(t, p)) :: |s| <= 64
  }

  lemma NothingListed(files: map<Path, Bytes>)
    requires files == map[]
    ensures Listed([], files) && Vacant(files, {}, [])
  {
  }

  lemma RootKept(files: map<Path, Bytes>, dirs: set<Path>, t: Node, stopped: bool)
    requires t.Folder? && Kept(map[], {}, files, dirs, t, [], t.entries.Keys, stopped)
    ensures forall p | p in files :: FileAt(t, p) && files[p] == DataAt(t, p)
    ensures !stopped ==> forall p | FileAt(t, p) :: p in files
  {
    forall p
      ensures From(t, [], t.entries.Keys, p) <==> FileAt(t, p)
    {
      assert p[0..] == p;
    }
    assert forall p: Path :: p[0..] == p;
    hide FileAt, DataAt, From;
  }

  lemma AllListedAreFew(files: map<Path, Bytes>, t: Node)
    requires |files| <= TAR_FILES && forall p | FileAt(t, p) :: p in files
    ensures FewFiles(t)
  {
    forall s: set<Path> | (forall p | p in s :: FileAt(t, p))
      ensures |s| <= TAR_FILES
    {
      assert s <= files.Keys;
      SubsetSize(s, files.Keys);
      assert |files| == |files.Keys|;
    }
  }

  lemma RefusedRightly(reason: Refusal, files: map<Path, Bytes>, t: Node)
    requires Justified(reason, files, t, []) && forall p | p in files :: FileAt(t, p)
    ensures !(Fine(t, 0) && FewFiles(t)) && !reason.BadOutput?
    ensures (reason.Traversal? ==> !Fine(t, 0)) && (reason.TooMany? ==> |files| == TAR_FILES)
  {
    hide Fine, FileAt, FewFiles;
    if Fine(t, 0) {
      var q :| FileAt(t, q) && [] + q !in files;
      assert [] + q == q;
      OneTooMany(files, t, q);
    }
  }

  lemma OneTooMany(files: map<Path, Bytes>, t: Node, q: Path)
    requires |files| == TAR_FILES && FileAt(t, q) && q !in files && forall p | p in files :: FileAt(t, p)
    ensures !FewFiles(t)
  {
    var s := files.Keys + {q};
    assert |files| == |files.Keys| && |s| == TAR_FILES + 1;
  }

  /** The names dealt with once all files, and the first `i` folders, are done. */
  function DoneSoFar(t: Node, names: seq<string>, i: nat): (s: set<string>)
    requires t.Folder? && i <= |names|
  {
    LeavesOf(t, names) + FoldersOf(t, names[..i])
  }

  ghost predicate FoldersFine(t: Node, names: set<string>, depth: nat)
    requires t.Folder?
  {
    forall n | n in t.entries && n in names :: FineEntry(t.entries[n], depth)
  }

  lemma DoneMore(t: Node, names: seq<string>, i: nat)
    requires t.Folder? && i < |names| && IsListing(names, t.entries.Keys)
    ensures FolderLike(t.entries[names[i]]) ==>
      names[i] !in DoneSoFar(t, names, i) && DoneSoFar(t, names, i + 1) == DoneSoFar(t, names, i) + {names[i]}
    ensures !FolderLike(t.entries[names[i]]) ==> DoneSoFar(t, names, i + 1) == DoneSoFar(t, names, i)
    ensures DoneSoFar(t, names, i + 1) <= t.entries.Keys
  {
    FoldersMore(t, names, i);
  }

  lemma DoneEnds(t: Node, names: seq<string>)
    requires t.Folder? && IsListing(names, t.entries.Keys)
    ensures DoneSoFar(t, names, 0) == LeavesOf(t, names) && DoneSoFar(t, names, |names|) == t.entries.Keys
  {
    FoldersNone(t, names);
    FoldersAll(t, names);
    assert names[..|names|] == names;
  }

  function FoldersOf(t: Node, names: seq<string>): (s: set<string>)
    requires t.Folder?
  {
    set n | n in t.entries && n in names && FolderLike(t.entries[n])
  }

  function LeavesOf(t: Node, names: seq<string>): (s: set<string>)
    requires t.Folder?
  {
    set n | n in t.entries && n in names && !FolderLike(t.entries[n])
  }

  /** Exactly the files of `names` were added (or, when stopped, some of them), and
      directories only on the way to them. */
  ghost predicate Kept(files0: map<Path, Bytes>, dirs0: set<Path>, files: map<Path, Bytes>, dirs: set<Path>,
                       t: Node, rel: Path, names: set<string>, stopped: bool) {
    && NewDirs(dirs, dirs0, rel, names)
    && (if stopped then Partly(files, files0, t, rel, names) else Holds(files, files0, t, rel, names))
  }

  /** A refusal is due to the tree: something in it is not allowed, or it has a
      file more than the 64 already copied. */
  ghost predicate Justified(reason: Refusal, files: map<Path, Bytes>, t: Node, rel: Path) {
    && !reason.BadOutput? && (reason.Traversal? ==> !Fine(t, |rel|))
    && (reason.TooMany? ==> |files| == TAR_FILES && (Fine(t, |rel|) ==> exists q :: FileAt(t, q) && rel + q !in files))
  }

  // ------------------------------------------------------------- small facts about one step

  lemma NothingKept(f: map<Path, Bytes>, d: set<Path>, t: Node, rel: Path)
    ensures Kept(f, d, f, d, t, rel, {}, false)
  {
  }

  lemma KeptNothing(f: map<Path, Bytes>, d: set<Path>, t: Node, rel: Path)
    requires t.Folder?
    ensures Kept(f, d, f, d, t, rel, t.entries.Keys, true)
  {
  }

  lemma KeptPart(f0: map<Path, Bytes>, d0: set<Path>, f: map<Path, Bytes>, d: set<Path>,
                 t: Node, rel: Path, done: set<string>, all: set<string>)
    requires Kept(f0, d0, f, d, t, rel, done, false) && done <= all
    ensures Kept(f0, d0, f, d, t, rel, all, true)
  {
    hide FileAt, DataAt;
  }

  lemma KeptMore(f0: map<Path, Bytes>, d0: set<Path>, f: map<Path, Bytes>, d: set<Path>,
                 t: Node, rel: Path, done: set<string>, all: set<string>)
    requires Kept(f0, d0, f, d, t, rel, done, true) && done <= all
    ensures Kept(f0, d0, f, d, t, rel, all, true)
  {
    hide FileAt, DataAt;
  }

  lemma LeavesMore(t: Node, names: seq<string>, i: nat)
    requires t.Folder? && i < |names| && IsListing(names, t.entries.Keys)
    ensures LeavesOf(t, names[..i + 1])
      == LeavesOf(t, names[..i]) + (if FolderLike(t.entries[names[i]]) then {} else {names[i]})
    ensures names[i] !in LeavesOf(t, names[..i]) && LeavesOf(t, names[..i]) <= LeavesOf(t, names)
  {
    assert names[..i + 1] == names[..i] + [names[i]];
  }

  lemma FoldersMore(t: Node, names: seq<string>, i: nat)
    requires t.Folder? && i < |names| && IsListing(names, t.entries.Keys)
    ensures FoldersOf(t, names[..i + 1])
      == FoldersOf(t, names[..i]) + (if FolderLike(t.entries[names[i]]) then {names[i]} else {})
    ensures names[i] !in FoldersOf(t, names[..i])
    ensures FolderLike(t.entries[names[i]]) ==> names[i] !in LeavesOf(t, names)
  {
    assert names[..i + 1] == names[..i] + [names[i]];
  }

  lemma FoldersNone(t: Node, names: seq<string>)
    requires t.Folder?
    ensures FoldersOf(t, names[..0]) == {} && LeavesOf(t, names) <= t.entries.Keys
  {
  }

  lemma FoldersAll(t: Node, names: seq<string>)
    requires t.Folder? && IsListing(names, t.entries.Keys)
    ensures LeavesOf(t, names) + FoldersOf(t, names) == t.entries.Keys
  {
  }

  lemma LeafFacts(t: Node, rel: Path, n: string)
    requires t.Folder? && n in t.entries && !FolderLike(t.entries[n])
    ensures Fine(t, |rel|) ==> FineEntry(t.entries[n], |rel| + 1)
    ensures FineEntry(t.entries[n], |rel| + 1) <==>
      t.entries[n].File? && t.entries[n].links == 1 && |rel| + 1 <= DEPTH
    ensures t.entries[n].File? ==> FileAt(t, [n]) && DataAt(t, [n]) == t.entries[n].data
  {
    assert [n][1..] == [];
    assert t.entries[n].File? ==> FileAt(t.entries[n], []);
  }

  lemma BadLink(t: Node, rel: Path, names: seq<string>)
    requires t.Folder? && (forall n | n in names :: n in t.entries)
    requires !(forall n | n in names :: t.entries[n] != Link(true))
    ensures !Fine(t, |rel|)
  {
    var n :| n in names && t.entries[n] == Link(true);
    assert !FineEntry(t.entries[n], |rel| + 1);
  }

  lemma TraversalIsJust(files: map<Path, Bytes>, t: Node, rel: Path)
    requires !Fine(t, |rel|)
    ensures Justified(Traversal, files, t, rel)
  {
  }

  lemma AllFine(t: Node, rel: Path, names: seq<string>)
    requires t.Folder? && |rel| <= DEPTH && IsListing(names, t.entries.Keys)
    requires forall n | n in names :: FineEntry(t.entries[n], |rel| + 1)
    ensures Fine(t, |rel|)
  {
  }

  lemma FineBelow(t: Node, rel: Path, n: string)
    requires t.Folder? && n in t.entries && Fine(t.entries[n], |rel + [n]|)
    ensures FineEntry(t.entries[n], |rel| + 1)
  {
  }

  /** What a directory's own name stands for is still free. */
  lemma LeafIsVacant(f0: map<Path, Bytes>, d0: set<Path>, f: map<Path, Bytes>, d: set<Path>,
                     t: Node, rel: Path, done: set<string>, n: string)
    requires Vacant(f0, d0, rel) && Kept(f0, d0, f, d, t, rel, done, false) && n !in done
    ensures rel + [n] !in f && rel + [n] !in d && forall q | q in Above(rel + [n]) :: q !in f
  {
    hide FileAt, DataAt;
    var p := rel + [n];
    assert rel < p && p[|rel|] == n;
    forall q | q in Above(p)
      ensures q !in f && q <= rel
    {
      var k :| 0 < k < |p| && q == p[..k];
      assert q == rel[..k];
    }
  }

  lemma LeafKept(f0: map<Path, Bytes>, d0: set<Path>, f: map<Path, Bytes>, d: set<Path>,
                 t: Node, rel: Path, done: set<string>, n: string)
    requires t.Folder? && n in t.entries && t.entries[n].File? && n !in done
    requires Kept(f0, d0, f, d, t, rel, done, false) && rel + [n] !in f
    ensures Kept(f0, d0, f[rel + [n] := t.entries[n].data], d + Above(rel + [n]), t, rel, done + {n}, false)
  {
    var p, data := rel + [n], t.entries[n].data;
    forall q | q in Above(p)
      ensures q <= rel
    {
      var k :| 0 < k < |p| && q == p[..k];
      assert q == rel[..k];
    }
    forall q
      ensures From(t, rel, done + {n}, q) <==> From(t, rel, done, q) || q == p
      ensures q == p ==> FileAt(t, q[|rel|..]) && DataAt(t, q[|rel|..]) == data
    {
      OnlyLeaf(t, rel, n, q);
    }
    hide FileAt, DataAt, Above, From;
  }

  lemma OnlyLeaf(t: Node, rel: Path, n: string, q: Path)
    requires t.Folder? && n in t.entries && t.entries[n].File?
    ensures rel < q && q[|rel|] == n && FileAt(t, q[|rel|..]) <==> q == rel + [n]
    ensures q == rel + [n] ==> FileAt(t, q[|rel|..]) && DataAt(t, q[|rel|..]) == t.entries[n].data
  {
    assert [n][1..] == [];
    assert FileAt(t, [n]) && DataAt(t, [n]) == t.entries[n].data by { assert FileAt(t.entries[n], []); }
    assert (rel + [n])[|rel|..] == [n];
    if rel < q && q[|rel|] == n && FileAt(t, q[|rel|..]) {
      var rest := q[|rel|..];
      assert rest[0] == n && FileAt(t.entries[n], rest[1..]);
      assert rest[1..] == [];
      assert q == rel + rest && rest == [n];
    }
  }

  lemma VacantBelow(f0: map<Path, Bytes>, d0: set<Path>, f: map<Path, Bytes>, d: set<Path>,
                    t: Node, rel: Path, done: set<string>, n: string)
    requires Vacant(f0, d0, rel) && Kept(f0, d0, f, d, t, rel, done, false) && n !in done
    ensures Vacant(f, d, rel + [n])
  {
    hide FileAt, DataAt;
    forall p
      ensures rel + [n] <= p ==> rel < p && p[|rel|] == n
      ensures p <= rel + [n] ==> p <= rel || p == rel + [n]
    {
      OneDown(rel, n, p);
    }
  }

  lemma OneDown(rel: Path, n: string, p: Path)
    ensures rel + [n] <= p ==> rel < p && p[|rel|] == n
    ensures p <= rel + [n] ==> p <= rel || p == rel + [n]
  {
    assert (rel + [n])[|rel|] == n;
  }

  /** The files of a subfolder are the files of the folder that start with its name. */
  lemma FromBelow(t: Node, rel: Path, n: string, q: Path)
    requires t.Folder? && n in t.entries && t.entries[n].Folder?
    ensures From(t, rel, {n}, q) <==> From(t.entries[n], rel + [n], t.entries[n].entries.Keys, q)
    ensures From(t, rel, {n}, q) ==> DataAt(t, q[|rel|..]) == DataAt(t.entries[n], q[|rel| + 1..])
  {
    assert (rel + [n])[|rel|] == n;
    assert rel + [n] < q ==> rel < q && q[|rel|] == n;
    if rel < q && q[|rel|] == n {
      assert q[|rel|..][0] == n && q[|rel|..][1..] == q[|rel| + 1..];
      assert rel + [n] <= q;
      assert FileAt(t, q[|rel|..]) <==> FileAt(t.entries[n], q[|rel| + 1..]);
      if |q| == |rel| + 1 {
        assert q[|rel| + 1..] == [];
      } else {
        var child, rest := t.entries[n], q[|rel| + 1..];
        assert rest[0] == q[|rel| + 1] && q[|rel + [n]|..] == rest;
        assert FileAt(child, rest) ==> rest[0] in child.entries;
      }
    }
  }

  lemma FolderKept(f0: map<Path, Bytes>, d0: set<Path>, f1: map<Path, Bytes>, d1: set<Path>,
                   f2: map<Path, Bytes>, d2: set<Path>, t: Node, rel: Path, done: set<string>, n: string, stopped: bool)
    requires t.Folder? && n in t.entries && t.entries[n].Folder?
    requires Kept(f0, d0, f1, d1, t, rel, done, false)
    requires Kept(f1, d1, f2, d2, t.entries[n], rel + [n], t.entries[n].entries.Keys, stopped)
    ensures Kept(f0, d0, f2, d2, t, rel, done + {n}, stopped)
  {
    forall q
      ensures From(t, rel, {n}, q) <==> From(t.entries[n], rel + [n], t.entries[n].entries.Keys, q)
      ensures From(t, rel, {n}, q) ==> DataAt(t, q[|rel|..]) == DataAt(t.entries[n], q[|rel + [n]|..])
      ensures From(t, rel, done + {n}, q) <==> From(t, rel, done, q) || From(t, rel, {n}, q)
    {
      FromBelow(t, rel, n, q);
    }
    DirsBelow(d0, d1, d2, t.entries[n].entries.Keys, rel, done, n);
    hide FileAt, DataAt, From, NewDirs;
  }

  lemma DirsBelow(d0: set<Path>, d1: set<Path>, d2: set<Path>, inner: set<string>, rel: Path, done: set<string>,
                  n: string)
    requires NewDirs(d1, d0, rel, done) && NewDirs(d2, d1, rel + [n], inner)
    ensures NewDirs(d2, d0, rel, done + {n})
  {
    forall p | p in d2 && p !in d0
      ensures p <= rel || (rel < p && p[|rel|] in done + {n})
    {
      if p !in d1 {
        if p <= rel + [n] && !(p <= rel) { assert p == rel + [n]; }
      }
    }
  }

  lemma JustBelow(reason: Refusal, files: map<Path, Bytes>, t: Node, rel: Path, n: string)
    requires t.Folder? && n in t.entries && t.entries[n].Folder?
    requires Justified(reason, files, t.entries[n], rel + [n])
    ensures Justified(reason, files, t, rel)
  {
    if Fine(t, |rel|) {
      assert FineEntry(t.entries[n], |rel| + 1);
      if reason.TooMany? {
        var q :| FileAt(t.entries[n], q) && rel + [n] + q !in files;
        assert ([n] + q)[1..] == q;
        assert rel + ([n] + q) == rel + [n] + q;
        assert FileAt(t, [n] + q);
      }
    }
  }
}
