/** `extract.py`: a member stream folded into a directory tree under caps, one path
    component at a time. */
module Extract {
  import opened Basics

  type Path = seq<string>

  const TAR_FILES := 64
  const TAR_BYTES := 8 * 1024 * 1024
  const DEPTH := 4

  /** One tar member as parsed; `data` is what reading it yields, if it can be read. */
  datatype Member = Member(name: string, size: int, regular: bool, data: Option<Bytes>)

  datatype Reason = PathTraversal | CapExceeded | BadTar

  datatype Result = Done | Failed(reason: Reason)

  // ------------------------------------------------------------- names

  /** `name.split("/")`. */
  function Split(name: string): (parts: Path)
    ensures |parts| > 0
  {
    if name == "" then [""]
    else
      var rest := Split(name[1..]);
      if name[0] == '/' then [""] + rest else [[name[0]] + rest[0]] + rest[1..]
  }

  /** `"/".join(parts)`. */
  function Joined(parts: Path): string
    requires parts != []
  {
    if |parts| == 1 then parts[0] else parts[0] + "/" + Joined(parts[1..])
  }

  /** Joining the components gives the name back, and no component holds a `/`. */
  lemma {:induction false} SplitJoins(name: string)
    ensures Joined(Split(name)) == name
    ensures forall c | c in Split(name) :: '/' !in c
  {
    if name != "" {
      var rest := Split(name[1..]);
      SplitJoins(name[1..]);
      if name[0] == '/' {
        assert ([""] + rest)[1..] == rest;
      } else {
        var parts := [[name[0]] + rest[0]] + rest[1..];
        assert parts[1..] == rest[1..];
        assert rest[0] in rest;
      }
    }
  }

  /** ... and those are the only components that do. */
  lemma {:induction false} JoinSplits(parts: Path)
    requires parts != [] && forall c | c in parts :: '/' !in c
    ensures Split(Joined(parts)) == parts
    decreases |parts|, if parts == [] then 0 else |parts[0]|
  {
    hide Split, Joined;
    var head, tail := parts[0], parts[1..];
    if head != "" {
      var fewer := [head[1..]] + tail;
      assert forall c | c in tail :: c in parts;
      assert forall x | x in head[1..] :: x in head;
      assert head in parts && fewer[1..] == tail;
      JoinSplits(fewer);
      JoinedHead(head, tail);
      assert parts == [head] + tail && [head[0]] + head[1..] == head && head[0] in head;
      SplitStep(Joined(parts));
    } else if tail != [] {
      JoinSplits(tail);
      JoinedSlash(tail);
      assert parts == [""] + tail;
      SplitStep(Joined(parts));
    } else {
      assert parts == [""];
      OnlyEmpty();
    }
  }

  lemma OnlyEmpty()
    ensures Joined([""]) == "" && Split("") == [""]
  {
  }

  lemma SplitStep(name: string)
    requires name != ""
    ensures var rest := Split(name[1..]);
      Split(name) == if name[0] == '/' then [""] + rest else [[name[0]] + rest[0]] + rest[1..]
  {
  }

  lemma JoinedHead(head: string, tail: Path)
    requires head != ""
    ensures Joined([head] + tail) != ""
    ensures Joined([head] + tail)[0] == head[0] && Joined([head] + tail)[1..] == Joined([head[1..]] + tail)
  {
    assert ([head] + tail)[1..] == tail && ([head[1..]] + tail)[1..] == tail;
    if tail != [] {
      assert (head + "/" + Joined(tail))[1..] == head[1..] + "/" + Joined(tail);
    }
  }

  lemma JoinedSlash(tail: Path)
    requires tail != []
    ensures Joined([""] + tail) == "/" + Joined(tail)
  {
    assert ([""] + tail)[1..] == tail;
  }

  /** `name[i..j]` lies between two slashes, or the ends of the name, and holds none. */
  ghost predicate ComponentAt(name: string, i: nat, j: nat) {
    && i <= j <= |name| && (forall k | i <= k < j :: name[k] != '/')
    && (i == 0 || name[i - 1] == '/') && (j == |name| || name[j] == '/')
  }

  ghost predicate Reads(name: string, i: nat, j: nat, c: string) {
    ComponentAt(name, i, j) && name[i..j] == c
  }

  ghost predicate IsComponent(name: string, c: string) {
    exists i: nat, j: nat :: Reads(name, i, j, c)
  }

  /** One that is not the first. */
  ghost predicate IsLater(name: string, c: string) {
    exists i: nat, j: nat :: i > 0 && Reads(name, i, j, c)
  }

  lemma ShiftedComponent(name: string, i: nat, j: nat, c: string)
    requires name != "" && (i > 0 || name[0] == '/')
    ensures Reads(name, i + 1, j + 1, c) <==> Reads(name[1..], i, j, c)
  {
    var rest := name[1..];
    assert forall k | 0 <= k < |rest| :: rest[k] == name[k + 1];
    if ComponentAt(rest, i, j) {
      forall k | i + 1 <= k < j + 1
        ensures name[k] != '/'
      {
        assert rest[k - 1] != '/';
      }
    }
    if j <= |rest| && i <= j { assert name[i + 1..j + 1] == rest[i..j]; }
  }

  lemma Bounds(name: string, i: nat, j: nat, c: string)
    requires Reads(name, i, j, c)
    ensures i <= j <= |name| && (i > 0 ==> name[i - 1] == '/')
  {
  }

  lemma LaterShifts(name: string, c: string)
    requires name != ""
    ensures IsLater(name, c) <==> IsLater(name[1..], c) || (name[0] == '/' && IsComponent(name[1..], c))
  {
    hide Reads;
    if i: nat, j: nat :| i > 0 && Reads(name, i, j, c) {
      Bounds(name, i, j, c);
      ShiftedComponent(name, i - 1, j - 1, c);
    }
    if i: nat, j: nat :| (i > 0 || name[0] == '/') && Reads(name[1..], i, j, c) {
      ShiftedComponent(name, i, j, c);
    }
  }

  /** The first component, the later ones, and how many there are. */
  lemma {:induction false} SplitFinds(name: string)
    ensures ComponentAt(name, 0, |Split(name)[0]|) && name[..|Split(name)[0]|] == Split(name)[0]
    ensures forall c :: c in Split(name)[1..] <==> IsLater(name, c)
    ensures |Split(name)| == multiset(name)['/'] + 1
  {
    if name != "" {
      var rest, head := Split(name[1..]), Split(name[1..])[0];
      SplitFinds(name[1..]);
      assert name == [name[0]] + name[1..];
      assert multiset(name)['/'] == multiset([name[0]])['/'] + multiset(name[1..])['/'];
      FirstIs(name[1..], head);
      hide ComponentAt, IsLater, IsComponent, Reads;
      forall c
        ensures c in Split(name)[1..] <==> IsLater(name, c)
      {
        LaterShifts(name, c);
        FirstOrLater(name[1..], head, c);
        assert c in rest <==> c == head || c in rest[1..];
      }
      FirstGrows(name, head);
    } else {
      forall c
        ensures !IsLater(name, c)
      {
      }
    }
  }

  lemma FirstIs(name: string, head: string)
    requires ComponentAt(name, 0, |head|) && name[..|head|] == head
    ensures IsComponent(name, head)
  {
    assert Reads(name, 0, |head|, head);
  }

  lemma FirstOrLater(name: string, head: string, c: string)
    requires ComponentAt(name, 0, |head|) && name[..|head|] == head
    ensures IsComponent(name, c) <==> c == head || IsLater(name, c)
  {
    FirstIs(name, head);
    if j: nat :| Reads(name, 0, j, c) {
      assert j == |head|;
    }
  }

  lemma FirstGrows(name: string, head: string)
    requires name != "" && ComponentAt(name[1..], 0, |head|) && name[1..][..|head|] == head
    ensures name[0] == '/' ==> ComponentAt(name, 0, 0)
    ensures name[0] != '/' ==> ComponentAt(name, 0, |head| + 1) && name[..|head| + 1] == [name[0]] + head
  {
    assert forall k | 0 <= k < |name| - 1 :: name[1..][k] == name[k + 1];
    if name[0] != '/' {
      forall k | 0 <= k < |head| + 1
        ensures name[k] != '/'
      {
        if k > 0 { assert name[1..][k - 1] != '/'; }
      }
    }
  }

  /** The components are the stretches between slashes, one more than there are slashes. */
  lemma SplitMeans(name: string)
    ensures forall c :: c in Split(name) <==> IsComponent(name, c)
    ensures |Split(name)| == multiset(name)['/'] + 1
  {
    SplitFinds(name);
    var head := Split(name)[0];
    hide Split, ComponentAt, IsLater, IsComponent;
    forall c
      ensures c in Split(name) <==> IsComponent(name, c)
    {
      FirstOrLater(name, head, c);
      assert Split(name) == [head] + Split(name)[1..];
    }
  }

  function Leaf(parts: Path): string
    requires parts != []
  {
    parts[|parts| - 1]
  }

  /** The name ends in a component that is a lone `.`. */
  predicate EndsInDot(name: string) {
    name != "" && name[|name| - 1] == '.' && (|name| == 1 || name[|name| - 2] == '/')
  }

  lemma LeafMeans(name: string)
    ensures Leaf(Split(name)) == "." <==> EndsInDot(name)
  {
    hide Split, Leaf, EndsInDot;
    LeafIsTail(name);
    DotTail(name, Leaf(Split(name)));
  }

  lemma DotTail(name: string, leaf: string)
    requires |leaf| <= |name| && leaf == name[|name| - |leaf|..] && '/' !in leaf
    requires |leaf| == |name| || name[|name| - |leaf| - 1] == '/'
    ensures leaf == "." <==> EndsInDot(name)
  {
    assert forall k | 0 <= k < |leaf| :: leaf[k] == name[|name| - |leaf| + k] != '/';
    if |leaf| >= 2 {
      assert leaf[|leaf| - 2] == name[|name| - 2];
    } else if EndsInDot(name) {
      assert leaf == [name[|name| - 1]];
    }
  }

  /** The last component is what follows the last slash. */
  lemma {:induction false} LeafIsTail(name: string)
    ensures var leaf, n := Leaf(Split(name)), |name|;
      && |leaf| <= n && leaf == name[n - |leaf|..] && '/' !in leaf
      && (|leaf| == n || name[n - |leaf| - 1] == '/')
      && (|Split(name)| == 1 ==> leaf == name) && (|Split(name)| > 1 ==> |leaf| < n)
  {
    if name != "" {
      LeafIsTail(name[1..]);
      LeafStep(name);
      hide Split, Leaf;
      var leaf, n := Leaf(Split(name)), |name|;
      if |leaf| < n { assert name[n - |leaf|..] == name[1..][n - 1 - |leaf|..]; }
    }
  }

  lemma LeafStep(name: string)
    requires name != ""
    ensures var rest, leaf := Split(name[1..]), Leaf(Split(name));
      && |Split(name)| == (if name[0] == '/' then 1 else 0) + |rest|
      && leaf == if name[0] == '/' || |rest| > 1 then Leaf(rest) else [name[0]] + Leaf(rest)
  {
  }

  predicate Placed(name: string) {
    name == "manifest.json" || "payload/" <= name
  }

  /** `_safe_name`, on the raw string. */
  predicate SafeName(name: string) {
    && !("/" <= name)
    && |Split(name)| <= DEPTH
    && (forall p | p in Split(name) :: p != "" && p != "..")
    && Placed(name)
  }

  /** ... and on the components: a lone `manifest.json`, or something under `payload`. */
  predicate SafeParts(parts: Path) {
    && |parts| <= 4 && (forall p | p in parts :: p != "" && p != "..")
    && (parts == ["manifest.json"] || (|parts| >= 2 && parts[0] == "payload"))
  }

  lemma {:induction false} SplitHead(name: string, head: string)
    requires forall c | c in head :: c != '/'
    ensures Split(name)[0] == head && |Split(name)| >= 2 <==> head + "/" <= name
    ensures Split(name) == [head] <==> name == head
    decreases |head|
  {
    if name != "" {
      var rest := Split(name[1..]);
      assert name == [name[0]] + name[1..];
      if head == "" {
        assert ("" + "/" <= name) == (name[0] == '/');
      } else {
        assert head == [head[0]] + head[1..];
        assert forall c | c in head[1..] :: c in head;
        SplitHead(name[1..], head[1..]);
        assert head + "/" == [head[0]] + (head[1..] + "/");
        if name[0] == '/' {
          assert head[0] in head;
          assert (head + "/")[0] == head[0];
        } else {
          assert Split(name) == [[name[0]] + rest[0]] + rest[1..];
          assert head + "/" <= name <==> head[0] == name[0] && head[1..] + "/" <= name[1..];
          assert Split(name)[0] == head <==> head[0] == name[0] && rest[0] == head[1..];
        }
      }
    }
  }

  lemma SafeNameMeans(name: string)
    ensures SafeName(name) <==> SafeParts(Split(name))
  {
    SplitHead(name, "manifest.json");
    SplitHead(name, "payload");
    SplitHead(name, "");
    assert "payload" + "/" == "payload/" && "" + "/" == "/";
    assert Split(name)[0] in Split(name);
  }

  /** The names that are taken, without splitting any: at most three slashes, and
      nothing empty and no `..` between them. */
  lemma SafeNameIs(name: string)
    ensures SafeName(name) <==>
      Placed(name) && multiset(name)['/'] <= 3 && !IsComponent(name, "") && !IsComponent(name, "..")
  {
    hide Split, IsComponent, Placed;
    SplitMeans(name);
    if "/" <= name { SlashFirst(name); }
  }

  lemma SlashFirst(name: string)
    requires "/" <= name
    ensures IsComponent(name, "")
  {
    assert Reads(name, 0, 0, "");
  }

  lemma UnsafeIf(name: string, c: string)
    requires IsComponent(name, c) && (c == "" || c == "..")
    ensures !SafeName(name)
  {
    hide SafeName, IsComponent;
    SafeNameIs(name);
  }

  /** No name leads up or to the root, and none has an empty component, wherever in it. */
  lemma NoWayUp(a: string, b: string)
    ensures !SafeName(a + "/../" + b) && !SafeName("../" + b) && !SafeName(a + "/..")
    ensures !SafeName(a + "//" + b) && !SafeName("/" + b) && !SafeName(a + "/")
  {
    hide SafeName, IsComponent;
    Between(a, "..", b);
    Between(a, "", b);
    AtStart("..", b);
    AtStart("", b);
    AtEnd(a, "..");
    AtEnd(a, "");
    assert a + "/" + "" + "/" + b == a + "//" + b && a + "/" + ".." + "/" + b == a + "/../" + b;
    assert ".." + "/" + b == "../" + b && "" + "/" + b == "/" + b;
    assert a + "/" + ".." == a + "/.." && a + "/" + "" == a + "/";
    UnsafeIf(a + "/../" + b, "..");
    UnsafeIf("../" + b, "..");
    UnsafeIf(a + "/..", "..");
    UnsafeIf(a + "//" + b, "");
    UnsafeIf("/" + b, "");
    UnsafeIf(a + "/", "");
  }

  lemma Between(a: string, c: string, b: string)
    requires '/' !in c
    ensures IsComponent(a + "/" + c + "/" + b, c)
  {
    var name, i, j := a + "/" + c + "/" + b, |a| + 1, |a| + 1 + |c|;
    assert name[i..j] == c;
    assert forall k | i <= k < j :: name[k] == c[k - i];
    assert name[i - 1] == '/' && name[j] == '/';
    assert Reads(name, i, j, c);
  }

  lemma AtStart(c: string, b: string)
    requires '/' !in c
    ensures IsComponent(c + "/" + b, c)
  {
    var name := c + "/" + b;
    assert name[0..|c|] == c && name[|c|] == '/';
    assert forall k | 0 <= k < |c| :: name[k] == c[k];
    assert Reads(name, 0, |c|, c);
  }

  lemma AtEnd(a: string, c: string)
    requires '/' !in c
    ensures IsComponent(a + "/" + c, c)
  {
    var name, i := a + "/" + c, |a| + 1;
    assert name[i..|name|] == c && name[i - 1] == '/';
    assert forall k | i <= k < |name| :: name[k] == c[k - i];
    assert Reads(name, i, |name|, c);
  }

  /** Four slashes are too many. */
  lemma TooDeep(a: string, b: string, c: string, d: string, e: string)
    ensures !SafeName(a + "/" + b + "/" + c + "/" + d + "/" + e)
  {
    var name := a + "/" + b + "/" + c + "/" + d + "/" + e;
    assert multiset(name) == multiset(a) + multiset("/") + multiset(b) + multiset("/") + multiset(c) + multiset("/")
                             + multiset(d) + multiset("/") + multiset(e);
    assert multiset("/")['/'] == 1;
    SafeNameIs(name);
  }

  /** A `.` component opens the directory it is in, so it adds nothing to the path. */
  function Normal(parts: Path): (p: Path)
    ensures |p| <= |parts|
  {
    if parts == [] then []
    else Normal(parts[..|parts| - 1]) + (if parts[|parts| - 1] == "." then [] else [parts[|parts| - 1]])
  }

  function Target(m: Member): Path {
    Normal(Split(m.name))
  }

  // ------------------------------------------------------------- what should come out

  /** The paths above `p`, below the root. */
  function Above(p: Path): set<Path> {
    set k | 0 < k < |p| :: p[..k]
  }

  function Data(m: Member): Bytes {
    if m.data.Some? then m.data.value else []
  }

  /** The last writer of a name wins. */
  function FilesOf(ms: seq<Member>): map<Path, Bytes> {
    if ms == [] then map[]
    else FilesOf(ms[..|ms| - 1])[Target(ms[|ms| - 1]) := Data(ms[|ms| - 1])]
  }

  function DirsOf(ms: seq<Member>): set<Path> {
    if ms == [] then {} else DirsOf(ms[..|ms| - 1]) + Above(Target(ms[|ms| - 1]))
  }

  function TotalSize(ms: seq<Member>): int {
    if ms == [] then 0 else TotalSize(ms[..|ms| - 1]) + ms[|ms| - 1].size
  }

  predicate GoodMember(m: Member) {
    m.size >= 0 && SafeName(m.name) && m.regular && m.data.Some? && Leaf(Split(m.name)) != "."
  }

  /** No two members want one path as both a file and a directory. */
  ghost predicate NoClash(ms: seq<Member>) {
    forall i, j | 0 <= i < |ms| && 0 <= j < |ms| :: Target(ms[i]) !in Above(Target(ms[j]))
  }

  /** A condition on the stream alone. */
  ghost predicate Acceptable(ms: seq<Member>) {
    && |ms| <= TAR_FILES && TotalSize(ms) <= TAR_BYTES
    && (forall m | m in ms :: GoodMember(m)) && NoClash(ms)
  }

  /** Why member `i` is turned away, in the order the checks are made. */
  function ReasonAt(ms: seq<Member>, i: nat): Reason
    requires i < |ms|
  {
    if i + 1 > TAR_FILES then CapExceeded
    else if ms[i].size < 0 then BadTar
    else if TotalSize(ms[..i + 1]) > TAR_BYTES then CapExceeded
    else if !SafeName(ms[i].name) || !ms[i].regular then PathTraversal
    else BadTar
  }

  /** One to four proper names. */
  predicate Plain(p: Path) {
    1 <= |p| <= 4 && forall c | c in p :: c != "" && c != "." && c != ".." && '/' !in c
  }

  predicate Allowed(p: Path) {
    Plain(p) && (p == ["manifest.json"] || p[0] == "payload")
  }

  // ------------------------------------------------------------- one member

  /** The entries met on the way are directories or absent, and the leaf is no directory. */
  predicate CanWrite(files: map<Path, Bytes>, dirs: set<Path>, parts: Path)
    requires parts != []
  {
    && Leaf(parts) != "." && Normal(parts) !in dirs
    && forall q | q in Above(Normal(parts)) :: q !in files
  }

  lemma NormalStep(parts: Path, i: nat)
    requires i < |parts|
    ensures Normal(parts[..i + 1]) == Normal(parts[..i]) + (if parts[i] == "." then [] else [parts[i]])
  {
    assert parts[..i + 1][..i] == parts[..i];
  }

  lemma {:induction false} NormalGrows(parts: Path, i: nat)
    requires i <= |parts|
    ensures Normal(parts[..i]) <= Normal(parts)
    decreases |parts| - i
  {
    if i < |parts| {
      NormalStep(parts, i);
      NormalGrows(parts, i + 1);
    } else {
      assert parts[..i] == parts;
    }
  }

  lemma AboveSnoc(p: Path, c: string)
    ensures Above(p + [c]) == if p == [] then {} else Above(p) + {p}
  {
    assert forall k | 0 < k < |p| :: (p + [c])[..k] == p[..k];
    assert (p + [c])[..|p|] == p;
    assert forall q | q in Above(p) :: q in Above(p + [c]) by {
      forall q | q in Above(p)
        ensures q in Above(p + [c])
      {
        var k :| 0 < k < |p| && q == p[..k];
        assert q == (p + [c])[..k];
      }
    }
  }

  /** `p` and everything above it, below the root. */
  function Chain(p: Path): set<Path> {
    Above(p) + (if p == [] then {} else {p})
  }

  lemma ChainSnoc(p: Path, c: string)
    ensures Above(p + [c]) == Chain(p) && Chain(p + [c]) == Chain(p) + {p + [c]}
  {
    AboveSnoc(p, c);
    if p == [] { assert Above(p) == {}; }
  }

  lemma ChainBelow(p: Path, q: Path)
    requires p < q
    ensures Chain(p) <= Above(q)
  {
    forall r | r in Chain(p)
      ensures r in Above(q)
    {
      if r != p {
        var k :| 0 < k < |p| && r == p[..k];
        assert r == q[..k];
      } else {
        assert r == q[..|p|];
      }
    }
  }

  lemma ChainShorter(p: Path)
    ensures forall q | q in Chain(p) :: |q| <= |p|
  {
  }

  lemma ChainAllowed(p: Path)
    requires Plain(p) && p[0] == "payload"
    ensures Allowed(p) && forall q | q in Chain(p) :: Allowed(q)
  {
    forall q | q in Chain(p)
      ensures Allowed(q)
    {
      if q != p {
        var k :| 0 < k < |p| && q == p[..k];
        assert q[0] == p[0];
        assert forall c | c in q :: c in p;
      }
    }
  }

  lemma PrefixAbove(p: Path, q: Path)
    requires p < q && p != []
    ensures p in Above(q)
  {
    assert p == q[..|p|];
  }

  lemma NormalLast(parts: Path)
    requires parts != [] && Leaf(parts) != "."
    ensures Normal(parts) == Normal(parts[..|parts| - 1]) + [Leaf(parts)]
  {
  }

  lemma LeafBelow(parts: Path, k: nat)
    requires k < |parts| && Leaf(parts) != "."
    ensures Normal(parts[..k]) < Normal(parts)
  {
    var up := parts[..|parts| - 1];
    NormalLast(parts);
    NormalGrows(up, k);
    assert up[..k] == parts[..k];
  }

  /** A plain file on the way: the member cannot be written. */
  lemma StopsShort(files: map<Path, Bytes>, dirs: set<Path>, parts: Path, i: nat)
    requires i + 1 < |parts| && parts[i] != "." && Normal(parts[..i + 1]) in files
    ensures !CanWrite(files, dirs, parts) && Normal(parts[..i]) <= Normal(parts)
  {
    NormalGrows(parts, i);
    NormalStep(parts, i);
    var next := Normal(parts[..i + 1]);
    hide Normal, Above;
    if Leaf(parts) != "." {
      LeafBelow(parts, i + 1);
      PrefixAbove(next, Normal(parts));
    }
  }

  lemma ChainWithin(p: Path, q: Path)
    requires p <= q
    ensures Chain(p) <= Chain(q)
  {
    if p != q { ChainBelow(p, q); }
  }

  lemma TargetAllowed(m: Member)
    requires SafeName(m.name)
    ensures Allowed(Normal(Split(m.name))) && forall q | q in Chain(Normal(Split(m.name))) :: Allowed(q)
  {
    hide SafeName, Split, Normal, Chain, Allowed;
    SafeNameMeans(m.name);
    SplitJoins(m.name);
    PartsAllowed(Split(m.name));
  }

  lemma PartsAllowed(parts: Path)
    requires SafeParts(parts) && forall c | c in parts :: '/' !in c
    ensures Allowed(Normal(parts)) && forall q | q in Chain(Normal(parts)) :: Allowed(q)
  {
    NormalHolds(parts);
    hide Normal, Chain;
    if parts == ["manifest.json"] {
      ChainOfOne("manifest.json");
    } else {
      StartsWith(parts);
      ChainAllowed(Normal(parts));
    }
  }

  lemma StartsWith(parts: Path)
    requires parts != [] && parts[0] != "."
    ensures Normal(parts) != [] && Normal(parts)[0] == parts[0]
  {
    NormalGrows(parts, 1);
    NormalStep(parts, 0);
    assert parts[..0] == [] && Normal([]) == [];
  }

  /** What is left of a path without its `.` components. */
  lemma {:induction false} NormalHolds(parts: Path)
    ensures forall c :: c in Normal(parts) <==> c in parts && c != "."
    ensures "." !in parts ==> Normal(parts) == parts
  {
    if parts != [] {
      NormalHolds(parts[..|parts| - 1]);
      assert parts == parts[..|parts| - 1] + [parts[|parts| - 1]];
    }
  }

  /** A name without `.` components is written at the path that spells it. */
  lemma TargetSpellsName(m: Member)
    requires !IsComponent(m.name, ".")
    ensures Target(m) != [] && Joined(Target(m)) == m.name
  {
    SplitMeans(m.name);
    SplitJoins(m.name);
    NormalHolds(Split(m.name));
    hide Split, Normal, Joined, IsComponent;
  }

  lemma ChainOfOne(c: string)
    ensures Chain([c]) == {[c]}
  {
    assert Above([c]) == {};
  }

  // ------------------------------------------------------------- the conditions, spelled out

  /** The paths above a path are its proper prefixes. */
  lemma AboveMeans(q: Path, p: Path)
    ensures q in Above(p) <==> q != [] && q < p
  {
    if q in Above(p) {
      var k :| 0 < k < |p| && q == p[..k];
    }
    if q != [] && q < p { assert q == p[..|q|]; }
  }

  lemma TargetIsPath(m: Member)
    requires GoodMember(m)
    ensures Target(m) != []
  {
    NormalLast(Split(m.name));
  }

  /** What the caps, names and types must be for a stream to be taken. */
  lemma AcceptableMeans(ms: seq<Member>)
    ensures Acceptable(ms) <==>
      && |ms| <= 64 && TotalSize(ms) <= 8_388_608
      && (forall m | m in ms :: m.size >= 0 && m.regular && m.data.Some? && SafeName(m.name) && !EndsInDot(m.name))
      && (forall i, j | 0 <= i < |ms| && 0 <= j < |ms| :: !(Target(ms[i]) < Target(ms[j])))
  {
    hide SafeName, TotalSize, GoodMember, Target, EndsInDot, NoClash;
    forall m | m in ms
      ensures GoodMember(m) <==> m.size >= 0 && m.regular && m.data.Some? && SafeName(m.name) && !EndsInDot(m.name)
    {
      GoodMemberMeans(m);
    }
    if forall m | m in ms :: GoodMember(m) { NoClashMeans(ms); }
  }

  lemma GoodMemberMeans(m: Member)
    ensures GoodMember(m) <==> m.size >= 0 && m.regular && m.data.Some? && SafeName(m.name) && !EndsInDot(m.name)
  {
    hide SafeName, Split, EndsInDot;
    LeafMeans(m.name);
  }

  lemma NoClashMeans(ms: seq<Member>)
    requires forall m | m in ms :: GoodMember(m)
    ensures NoClash(ms) <==>
      forall i, j | 0 <= i < |ms| && 0 <= j < |ms| :: !(Target(ms[i]) < Target(ms[j]))
  {
    hide GoodMember, Target, Above;
    forall i, j | 0 <= i < |ms| && 0 <= j < |ms|
      ensures Target(ms[i]) in Above(Target(ms[j])) <==> Target(ms[i]) < Target(ms[j])
    {
      TargetIsPath(ms[i]);
      AboveMeans(Target(ms[i]), Target(ms[j]));
    }
  }

  /** Why a stream was refused: the first member to fail decides, and of what is
      wrong with it the first in this order: the count, a negative size, the
      total size, the name or type, and then whatever else. */
  lemma WhyRefused(ms: seq<Member>, broken: bool, i: nat, reason: Reason)
    requires FailsAt(ms, broken, i, reason)
    ensures i < |ms| ==> var m, total := ms[i], TotalSize(ms[..i]) + ms[i].size;
      && (reason == CapExceeded <==> i >= 64 || (m.size >= 0 && total > 8_388_608))
      && (reason == PathTraversal <==>
            i < 64 && m.size >= 0 && total <= 8_388_608 && !(SafeName(m.name) && m.regular))
      && (reason == BadTar <==>
            && i < 64 && (m.size >= 0 ==> total <= 8_388_608 && SafeName(m.name) && m.regular)
            && (m.size >= 0 && m.data.Some? ==> !CanWrite(FilesOf(ms[..i]), DirsOf(ms[..i]), Split(m.name))))
    ensures i == |ms| ==> broken && reason == BadTar
  {
    if i < |ms| {
      NextMember(ms, i);
      hide Acceptable, SafeName, Split, CanWrite, TotalSize, FilesOf, DirsOf;
      LeafIsName(ms[i]);
      CannotWriteDot(FilesOf(ms[..i]), DirsOf(ms[..i]), Split(ms[i].name));
    }
  }

  lemma CannotWriteDot(files: map<Path, Bytes>, dirs: set<Path>, parts: Path)
    requires parts != []
    ensures CanWrite(files, dirs, parts) ==> Leaf(parts) != "."
  {
  }

  // ------------------------------------------------------------- one more member

  lemma {:induction false} WhoWrote(ms: seq<Member>, p: Path)
    ensures p in FilesOf(ms) <==> exists j :: 0 <= j < |ms| && Target(ms[j]) == p
    ensures p in DirsOf(ms) <==> exists j :: 0 <= j < |ms| && p in Above(Target(ms[j]))
  {
    hide Target, Above, Data;
    if ms != [] {
      var init, last := ms[..|ms| - 1], |ms| - 1;
      WhoWrote(init, p);
      assert forall j | 0 <= j < last :: init[j] == ms[j];
    }
  }

  /** A file holds the data of the last member that names it. */
  lemma {:induction false} LastWriterWins(ms: seq<Member>, j: nat)
    requires j < |ms| && forall k | j < k < |ms| :: Target(ms[k]) != Target(ms[j])
    ensures Target(ms[j]) in FilesOf(ms) && FilesOf(ms)[Target(ms[j])] == Data(ms[j])
    decreases |ms|
  {
    hide Target, Data;
    if j < |ms| - 1 {
      LastWriterWins(ms[..|ms| - 1], j);
    }
  }

  /** `payload/./x` and `payload/x` are one file. */
  lemma {:induction false} DotAddsNothing(a: Path, b: Path)
    ensures Normal(a + ["."] + b) == Normal(a + b)
    decreases |b|
  {
    if b == [] {
      assert a + ["."] + b == a + ["."] && (a + ["."])[..|a|] == a && a + b == a;
    } else {
      DotAddsNothing(a, b[..|b| - 1]);
      assert (a + ["."] + b)[..|a| + |b|] == a + ["."] + b[..|b| - 1];
      assert (a + b)[..|a| + |b| - 1] == a + b[..|b| - 1];
    }
  }

  lemma {:induction false} SizesAdd(ms: seq<Member>, k: nat)
    requires k <= |ms| && forall m | m in ms :: m.size >= 0
    ensures TotalSize(ms[..k]) <= TotalSize(ms)
    decreases |ms| - k
  {
    if k < |ms| {
      SizesAdd(ms, k + 1);
      assert ms[..k + 1][..k] == ms[..k];
    } else {
      assert ms[..k] == ms;
    }
  }

  lemma AcceptablePrefix(ms: seq<Member>, k: nat)
    requires Acceptable(ms) && k <= |ms|
    ensures Acceptable(ms[..k])
  {
    hide Target, Above, GoodMember;
    assert forall m | m in ms :: m.size >= 0 by {
      forall m | m in ms
        ensures m.size >= 0
      {
        assert GoodMember(m);
        NotNegative(m);
      }
    }
    SizesAdd(ms, k);
  }

  lemma NotNegative(m: Member)
    requires GoodMember(m)
    ensures m.size >= 0
  {
  }

  /** With everything before it accepted, a member is acceptable exactly when the
      checks pass and the tree lets it be written. */
  lemma NextMember(ms: seq<Member>, i: nat)
    requires i < |ms|
    ensures TotalSize(ms[..i + 1]) == TotalSize(ms[..i]) + ms[i].size
    ensures FilesOf(ms[..i + 1]) == FilesOf(ms[..i])[Target(ms[i]) := Data(ms[i])]
    ensures DirsOf(ms[..i + 1]) == DirsOf(ms[..i]) + Above(Target(ms[i]))
    ensures Acceptable(ms) ==> Acceptable(ms[..i + 1])
    ensures Acceptable(ms[..i]) ==>
      (Acceptable(ms[..i + 1]) <==>
        && i + 1 <= TAR_FILES && TotalSize(ms[..i + 1]) <= TAR_BYTES && GoodMember(ms[i])
        && CanWrite(FilesOf(ms[..i]), DirsOf(ms[..i]), Split(ms[i].name)))
  {
    assert ms[..i + 1][..i] == ms[..i] && ms[..i + 1] == ms[..i] + [ms[i]];
    StillAcceptable(ms, i + 1);
    hide Acceptable, Target, Above, CanWrite, NoClash, GoodMember, Split;
    if Acceptable(ms[..i]) {
      AcceptMore(ms, i);
    }
  }

  lemma AcceptMore(ms: seq<Member>, i: nat)
    requires i < |ms| && Acceptable(ms[..i])
    ensures Acceptable(ms[..i + 1]) <==>
      && i + 1 <= TAR_FILES && TotalSize(ms[..i + 1]) <= TAR_BYTES && GoodMember(ms[i])
      && CanWrite(FilesOf(ms[..i]), DirsOf(ms[..i]), Split(ms[i].name))
  {
    ClashMeans(ms, i);
    LeafIsName(ms[i]);
    hide TotalSize, Target, Above, CanWrite, FilesOf, DirsOf, NoClash, GoodMember, Split;
    assert ms[..i + 1] == ms[..i] + [ms[i]];
    assert forall m :: m in ms[..i + 1] <==> m in ms[..i] || m == ms[i];
  }

  lemma LeafIsName(m: Member)
    ensures GoodMember(m) ==> Leaf(Split(m.name)) != "."
  {
  }

  lemma ClashMeans(ms: seq<Member>, i: nat)
    requires i < |ms| && NoClash(ms[..i])
    ensures Leaf(Split(ms[i].name)) != "." ==>
      (NoClash(ms[..i + 1]) <==> CanWrite(FilesOf(ms[..i]), DirsOf(ms[..i]), Split(ms[i].name)))
  {
    var t, init, more := Target(ms[i]), ms[..i], ms[..i + 1];
    assert forall j | 0 <= j < i :: init[j] == more[j];
    assert more[i] == ms[i];
    forall p
      ensures p in FilesOf(init) <==> exists j :: 0 <= j < |init| && Target(init[j]) == p
      ensures p in DirsOf(init) <==> exists j :: 0 <= j < |init| && p in Above(Target(init[j]))
    {
      WhoWrote(init, p);
    }
    assert t !in Above(t);
    hide FilesOf, DirsOf, Above;
    assert NoClash(more) <==> forall j | 0 <= j < i :: Target(init[j]) !in Above(t) && t !in Above(Target(init[j]));
  }

  /** With the way clear, only the leaf is left to decide. */
  lemma LeafDecides(files: map<Path, Bytes>, dirs: set<Path>, parts: Path, at: Path)
    requires parts != [] && at == Normal(parts[..|parts| - 1]) && forall q | q in Chain(at) :: q !in files
    ensures Leaf(parts) == "." ==> !CanWrite(files, dirs, parts) && Normal(parts) == at
    ensures Leaf(parts) != "." ==>
      && Normal(parts) == at + [Leaf(parts)] && Normal(parts) !in Chain(at)
      && Above(Normal(parts)) == Chain(at) && Chain(at) <= Chain(Normal(parts))
      && (CanWrite(files, dirs, parts) <==> Normal(parts) !in dirs)
  {
    assert at + [] == at;
    ChainSnoc(at, Leaf(parts));
    ChainShorter(at);
    hide Above, Chain;
  }

  class Dest {
    var files: map<Path, Bytes>
    var dirs: set<Path>

    constructor ()
      ensures files == map[] && dirs == {}
    {
      files, dirs := map[], {};
    }

    /** `_ensure_dir_beneath`: mkdirat, then an open that fails on a plain file. */
    method EnsureDirBeneath(at: Path, component: string) returns (ok: bool, next: Path)
      modifies this`dirs
      ensures next == at + (if component == "." then [] else [component])
      ensures ok == (component == "." || next !in files)
      ensures dirs == old(dirs) + (if component == "." || next in files then {} else {next})
    {
      if component == "." {
        return true, at;
      }
      next := at + [component];
      if next !in files && next !in dirs {
        dirs := dirs + {next};
      }
      ok := next !in files;
    }

    /** The directories a member's path leads through. */
    method Descend(parts: Path) returns (ok: bool, at: Path)
      requires parts != []
      modifies this`dirs
      ensures ok ==> at == Normal(parts[..|parts| - 1]) && dirs == old(dirs) + Chain(at)
      ensures ok ==> forall q | q in Chain(at) :: q !in files
      ensures !ok ==> !CanWrite(files, old(dirs), parts) && old(dirs) <= dirs <= old(dirs) + Chain(Normal(parts))
    {
      at := [];
      var i, leaf := 0, |parts| - 1;
      assert parts[..0] == [] && Chain([]) == {};
      hide Normal, Above, Chain, CanWrite;
      while i < leaf
        invariant i <= leaf && at == Normal(parts[..i])
        invariant dirs == old(dirs) + Chain(at)
        invariant forall q | q in Chain(at) :: q !in files
      {
        NormalStep(parts, i);
        ghost var was := at;
        ChainSnoc(was, parts[i]);
        ok, at := EnsureDirBeneath(at, parts[i]);
        if !ok {
          StopsShort(files, old(dirs), parts, i);
          ChainWithin(was, Normal(parts));
          return;
        }
        assert was + [] == was;
        i := i + 1;
      }
      ok := true;
    }

    /** `_write_member`. */
    method WriteMember(parts: Path, data: Bytes) returns (ok: bool)
      requires parts != []
      modifies this
      ensures ok == CanWrite(old(files), old(dirs), parts)
      ensures ok ==> files == old(files)[Normal(parts) := data] && dirs == old(dirs) + Above(Normal(parts))
      ensures !ok ==> files == old(files) && old(dirs) <= dirs <= old(dirs) + Chain(Normal(parts))
    {
      var at;
      ok, at := Descend(parts);
      if !ok { return; }
      LeafDecides(files, old(dirs), parts, at);
      hide Normal, Above, Chain, CanWrite;
      if parts[|parts| - 1] == "." {
        return false;
      }
      var target := at + [parts[|parts| - 1]];
      if target in dirs {
        return false;
      }
      files := files[target := data];
      ok := true;
    }

    /** One turn of `_extract_into`: the checks in their order, then the write. */
    method TakeMember(ms: seq<Member>, i: nat, runningBytes: int) returns (r: Result, total: int)
      requires i < |ms| && runningBytes == TotalSize(ms[..i])
      modifies this
      ensures r.Done? ==> total == TotalSize(ms[..i + 1])
      ensures InStep(old(files), old(dirs), ms, i) ==> (r.Done? <==> Acceptable(ms[..i + 1]))
      ensures InStep(old(files), old(dirs), ms, i) && r.Done? ==> InStep(files, dirs, ms, i + 1)
      ensures r.Failed? && InStep(old(files), old(dirs), ms, i) ==> r.reason == ReasonAt(ms, i)
      ensures Confined(old(files), old(dirs), files, dirs)
    {
      NextMember(ms, i);
      var m := ms[i];
      hide Acceptable, FilesOf, DirsOf, TotalSize, Split, Target, Above, Chain, Normal, Allowed, CanWrite, Data,
        SafeName;
      if i + 1 > TAR_FILES {
        return Failed(CapExceeded), runningBytes;
      }
      if m.size < 0 {
        return Failed(BadTar), runningBytes;
      }
      total := runningBytes + m.size;
      if total > TAR_BYTES {
        return Failed(CapExceeded), total;
      }
      if !SafeName(m.name) || !m.regular {
        return Failed(PathTraversal), total;
      }
      if m.data.None? {
        return Failed(BadTar), total;
      }
      TargetAllowed(m);
      TargetIs(m);
      var ok := WriteMember(Split(m.name), m.data.value);
      WriteConfined(old(files), old(dirs), files, dirs, Normal(Split(m.name)), m.data.value, ok);
      r := if ok then Done else Failed(BadTar);
    }

    /** `_extract_into`: the stream as the tar parser delivers it; `broken` when its
        next header cannot be parsed. */
    method ExtractInto(ms: seq<Member>, broken: bool) returns (r: Result)
      modifies this
      ensures old(files) == map[] && old(dirs) == {} ==> (r.Done? <==> Acceptable(ms) && !broken)
      ensures old(files) == map[] && old(dirs) == {} && r.Done? ==> files == FilesOf(ms) && dirs == DirsOf(ms)
      ensures old(files) == map[] && old(dirs) == {} && r.Failed? ==>
        exists i: nat :: FailsAt(ms, broken, i, r.reason)
      ensures Confined(old(files), old(dirs), files, dirs)
    {
      var runningFiles, runningBytes := 0, 0;
      ghost var empty := files == map[] && dirs == {};
      assert ms[..0] == [] && Acceptable([]);
      NothingYet(ms, files, dirs);
      assert empty ==> InStep(files, dirs, ms, 0);
      hide Acceptable, FilesOf, DirsOf, TotalSize, Confined, ReasonAt, InStep, FailsAt;
      while runningFiles < |ms|
        invariant runningFiles <= |ms| && runningBytes == TotalSize(ms[..runningFiles])
        invariant empty ==> InStep(files, dirs, ms, runningFiles)
        invariant Confined(old(files), old(dirs), files, dirs)
      {
        ghost var files0, dirs0 := files, dirs;
        StillAcceptable(ms, runningFiles + 1);
        r, runningBytes := TakeMember(ms, runningFiles, runningBytes);
        ConfinedOn(old(files), old(dirs), files0, dirs0, files, dirs);
        if r.Failed? {
          if empty { FailsHere(ms, broken, runningFiles, r.reason, files0, dirs0); }
          return;
        }
        runningFiles := runningFiles + 1;
      }
      if empty { AtTheEnd(ms, files, dirs); }
      if broken {
        if empty { FailsAtTheEnd(ms, files, dirs); }
        return Failed(BadTar);
      }
      return Done;
    }
  }

  lemma AtTheEnd(ms: seq<Member>, files: map<Path, Bytes>, dirs: set<Path>)
    requires InStep(files, dirs, ms, |ms|)
    ensures Acceptable(ms) && files == FilesOf(ms) && dirs == DirsOf(ms)
  {
    assert ms[..|ms|] == ms;
  }

  lemma FailsHere(ms: seq<Member>, broken: bool, i: nat, reason: Reason, files: map<Path, Bytes>, dirs: set<Path>)
    requires i < |ms| && InStep(files, dirs, ms, i) && !Acceptable(ms[..i + 1]) && reason == ReasonAt(ms, i)
    ensures FailsAt(ms, broken, i, reason)
  {
    hide Acceptable, ReasonAt;
  }

  lemma FailsAtTheEnd(ms: seq<Member>, files: map<Path, Bytes>, dirs: set<Path>)
    requires InStep(files, dirs, ms, |ms|)
    ensures FailsAt(ms, true, |ms|, BadTar)
  {
    hide Acceptable;
  }

  /** The first `i` members were accepted and the tree is exactly what they say. */
  ghost predicate InStep(files: map<Path, Bytes>, dirs: set<Path>, ms: seq<Member>, i: nat) {
    i <= |ms| && Acceptable(ms[..i]) && files == FilesOf(ms[..i]) && dirs == DirsOf(ms[..i])
  }

  lemma NothingYet(ms: seq<Member>, files: map<Path, Bytes>, dirs: set<Path>)
    ensures TotalSize(ms[..0]) == 0 && Confined(files, dirs, files, dirs)
    ensures FilesOf(ms[..0]) == map[] && DirsOf(ms[..0]) == {}
  {
  }

  lemma StillAcceptable(ms: seq<Member>, k: nat)
    requires k <= |ms|
    ensures Acceptable(ms) ==> Acceptable(ms[..k])
  {
    hide Acceptable;
    if Acceptable(ms) { AcceptablePrefix(ms, k); }
  }

  lemma TargetIs(m: Member)
    requires m.data.Some?
    ensures Target(m) == Normal(Split(m.name)) && Data(m) == m.data.value
    ensures !CanWrite(map[], {}, Split(m.name)) ==> Leaf(Split(m.name)) == "."
    ensures Leaf(Split(m.name)) == "." ==> forall f, d :: !CanWrite(f, d, Split(m.name))
  {
  }

  /** Everything new or changed lies where members may go; everything else is as before. */
  ghost predicate Confined(files0: map<Path, Bytes>, dirs0: set<Path>, files: map<Path, Bytes>, dirs: set<Path>) {
    && dirs0 <= dirs && (forall p | p in dirs && p !in dirs0 :: Allowed(p))
    && (forall p | !Allowed(p) :: (p in files <==> p in files0) && (p in files ==> files[p] == files0[p]))
    && (forall p | p in files0 :: p in files)
  }

  /** Whatever the stream and whatever its outcome, each new file or directory is at a
      path of one to four proper names, none of them `..` and none holding a `/`. */
  lemma ConfinedIsPlain(files0: map<Path, Bytes>, dirs0: set<Path>, files: map<Path, Bytes>, dirs: set<Path>, p: Path)
    requires Confined(files0, dirs0, files, dirs) && (p in files || p in dirs) && p !in files0 && p !in dirs0
    ensures 1 <= |p| <= 4 && (forall c | c in p :: c != "" && c != "." && c != ".." && '/' !in c)
    ensures p == ["manifest.json"] || p[0] == "payload"
  {
    assert Allowed(p);
  }

  lemma WriteConfined(files0: map<Path, Bytes>, dirs0: set<Path>, files: map<Path, Bytes>, dirs: set<Path>,
                      target: Path, data: Bytes, ok: bool)
    requires Allowed(target) && forall q | q in Chain(target) :: Allowed(q)
    requires ok ==> files == files0[target := data] && dirs == dirs0 + Above(target)
    requires !ok ==> files == files0 && dirs0 <= dirs <= dirs0 + Chain(target)
    ensures Confined(files0, dirs0, files, dirs)
  {
    hide Above, Allowed;
    assert Above(target) <= Chain(target);
  }

  lemma ConfinedOn(f0: map<Path, Bytes>, d0: set<Path>, f1: map<Path, Bytes>, d1: set<Path>,
                   f2: map<Path, Bytes>, d2: set<Path>)
    requires Confined(f0, d0, f1, d1) && Confined(f1, d1, f2, d2)
    ensures Confined(f0, d0, f2, d2)
  {
    hide Allowed;
  }

  /** The stream was good up to member `i`, and that member (or the next header) is why it failed. */
  ghost predicate FailsAt(ms: seq<Member>, broken: bool, i: nat, reason: Reason) {
    && i <= |ms| && Acceptable(ms[..i])
    && (if i == |ms| then broken && reason == BadTar
        else !Acceptable(ms[..i + 1]) && reason == ReasonAt(ms, i))
  }
}
