/** `registry.reconcile`: the registry rebuilt from allocation records in any
    listing order, against what the records say and against the live registry. */
module Rebuild {
  import opened Basics
  import opened Registry

  // ------------------------------------------------------------- the sort key

  /** Python compares strings by code point, a proper prefix first. */
  predicate NameLess(a: Name, b: Name) {
    if b == "" then false
    else if a == "" then true
    else a[0] < b[0] || (a[0] == b[0] && NameLess(a[1..], b[1..]))
  }

  /** Names compare letter by letter, the shorter first when one starts the other. */
  lemma {:induction false} NameLessMeans(a: Name, b: Name)
    ensures NameLess(a, b) <==>
      a < b || exists k :: 0 <= k < |a| && k < |b| && a[..k] == b[..k] && a[k] < b[k]
  {
    if a != "" && b != "" {
      var x, y := a[1..], b[1..];
      NameLessMeans(x, y);
      assert a == [a[0]] + x && b == [b[0]] + y;
      if k :| 0 <= k < |x| && k < |y| && x[..k] == y[..k] && x[k] < y[k] && a[0] == b[0] {
        assert a[..k + 1] == [a[0]] + x[..k] && b[..k + 1] == [b[0]] + y[..k] && a[k + 1] == x[k] && b[k + 1] == y[k];
      }
      if k :| 0 <= k < |a| && k < |b| && a[..k] == b[..k] && a[k] < b[k] {
        if k > 0 {
          assert a[0] == a[..k][0] && b[0] == b[..k][0];
          assert x[..k - 1] == a[..k][1..] && y[..k - 1] == b[..k][1..] && x[k - 1] == a[k] && y[k - 1] == b[k];
        }
      }
    }
  }

  lemma {:induction false} NameTrichotomy(a: Name, b: Name)
    ensures NameLess(a, b) || a == b || NameLess(b, a)
    ensures !(NameLess(a, b) && NameLess(b, a)) && (a == b ==> !NameLess(a, b))
  {
    if a != "" && b != "" {
      NameTrichotomy(a[1..], b[1..]);
      assert a == [a[0]] + a[1..] && b == [b[0]] + b[1..];
    }
  }

  lemma {:induction false} NameTransitive(a: Name, b: Name, c: Name)
    requires NameLess(a, b) && NameLess(b, c)
    ensures NameLess(a, c)
  {
    if a != "" && a[0] == b[0] && b[0] == c[0] { NameTransitive(a[1..], b[1..], c[1..]); }
  }

  /** `(seq, name, pubkey_sha256)`, lexicographically. */
  predicate Less(a: AllocRecord, b: AllocRecord) {
    || a.number < b.number
    || (a.number == b.number && NameLess(a.name, b.name))
    || (a.number == b.number && a.name == b.name && a.sha < b.sha)
  }

  predicate Tied(a: AllocRecord, b: AllocRecord) {
    a.number == b.number && a.name == b.name && a.sha == b.sha
  }

  lemma Trichotomy(a: AllocRecord, b: AllocRecord)
    ensures Less(a, b) || Tied(a, b) || Less(b, a)
    ensures !(Less(a, b) && Less(b, a)) && (Tied(a, b) ==> !Less(a, b) && !Less(b, a))
  {
    NameTrichotomy(a.name, b.name);
  }

  lemma Transitive(a: AllocRecord, b: AllocRecord, c: AllocRecord)
    requires !Less(b, a) && !Less(c, b)
    ensures !Less(c, a)
    ensures Less(a, b) || Less(b, c) ==> Less(a, c)
  {
    NameTrichotomy(a.name, b.name);
    NameTrichotomy(b.name, c.name);
    NameTrichotomy(a.name, c.name);
    if NameLess(a.name, b.name) && NameLess(b.name, c.name) { NameTransitive(a.name, b.name, c.name); }
  }

  // ------------------------------------------------------------- sorted(), stably

  /** `x` goes after everything not greater than it. */
  function Insert(s: seq<AllocRecord>, x: AllocRecord): (r: seq<AllocRecord>)
    ensures multiset(r) == multiset(s) + multiset{x} && |r| == |s| + 1
  {
    if s == [] then [x]
    else
      var init, y := s[..|s| - 1], s[|s| - 1];
      assert s == init + [y];
      if Less(x, y) then Insert(init, x) + [y] else s + [x]
  }

  function Sorted(recs: seq<AllocRecord>): (r: seq<AllocRecord>)
    ensures multiset(r) == multiset(recs) && |r| == |recs|
  {
    if recs == [] then []
    else
      assert recs == recs[..|recs| - 1] + [recs[|recs| - 1]];
      Insert(Sorted(recs[..|recs| - 1]), recs[|recs| - 1])
  }

  ghost predicate IsSorted(s: seq<AllocRecord>) {
    forall i, j | 0 <= i < j < |s| :: !Less(s[j], s[i])
  }

  lemma {:induction false} InsertSorted(s: seq<AllocRecord>, x: AllocRecord)
    requires IsSorted(s)
    ensures IsSorted(Insert(s, x))
    ensures forall y | y in Insert(s, x) :: y in s || y == x
    decreases |s|
  {
    if s != [] {
      var init, y := s[..|s| - 1], s[|s| - 1];
      if Less(x, y) {
        InsertSorted(init, x);
        Trichotomy(x, y);
        var t := Insert(init, x);
        forall i | 0 <= i < |t|
          ensures !Less(y, t[i])
        {
          assert t[i] in t;
        }
      } else {
        forall i | 0 <= i < |s|
          ensures !Less(x, s[i])
        {
          if i < |s| - 1 { Transitive(s[i], y, x); }
        }
      }
    }
  }

  lemma {:induction false} SortedIsSorted(recs: seq<AllocRecord>)
    ensures IsSorted(Sorted(recs))
  {
    if recs != [] {
      SortedIsSorted(recs[..|recs| - 1]);
      InsertSorted(Sorted(recs[..|recs| - 1]), recs[|recs| - 1]);
    }
  }

  lemma {:induction false} AlreadySorted(recs: seq<AllocRecord>)
    requires IsSorted(recs)
    ensures Sorted(recs) == recs
  {
    hide Less;
    if recs != [] {
      AlreadySorted(recs[..|recs| - 1]);
      assert recs == recs[..|recs| - 1] + [recs[|recs| - 1]];
    }
  }

  // ------------------------------------------------------------- the replay

  function HostOf(ip: nat, r: AllocRecord): Host {
    Host(ip, Some(r.sha), r.pubkey, Some(r.details))
  }

  /** One record: the first-seen address wins, everything else is overwritten. */
  function Put(h: Hosts, r: AllocRecord): Hosts {
    h[r.name := HostOf(if r.name in h then h[r.name].ip else r.ip, r)]
  }

  function Replay(recs: seq<AllocRecord>): Hosts {
    if recs == [] then map[] else Put(Replay(recs[..|recs| - 1]), recs[|recs| - 1])
  }

  function Reconciled(recs: seq<AllocRecord>): Hosts {
    Replay(Sorted(recs))
  }

  lemma ReplayNext(s: seq<AllocRecord>, i: nat)
    requires i < |s|
    ensures Replay(s[..i + 1]) == Put(Replay(s[..i]), s[i])
  {
    assert s[..i + 1][..i] == s[..i];
  }

  /** `reconcile`. */
  method Reconcile(recs: seq<AllocRecord>, cidr: Network) returns (reg: Reg)
    ensures reg == Reg(cidr, Reconciled(recs))
  {
    var sorted := Sorted(recs);
    var hosts: Hosts := map[];
    assert Replay(sorted[..0]) == map[];
    assert sorted[..|sorted|] == sorted;
    hide Sorted, Less, Replay;
    var i := 0;
    while i < |sorted|
      invariant i <= |sorted| && hosts == Replay(sorted[..i])
    {
      ReplayNext(sorted, i);
      var r := sorted[i];
      var ip := r.ip;
      if r.name in hosts {
        ip := hosts[r.name].ip;
      }
      hosts := hosts[r.name := Host(ip, Some(r.sha), r.pubkey, Some(r.details))];
      i := i + 1;
    }
    return Reg(cidr, hosts);
  }

  // ------------------------------------------------------------- which record decides what

  /** The record of `n` with the least key, the earliest listed among equals. */
  function FirstOf(recs: seq<AllocRecord>, n: Name): Option<AllocRecord> {
    if recs == [] then None
    else
      var f, x := FirstOf(recs[..|recs| - 1], n), recs[|recs| - 1];
      if x.name == n && (f.None? || Less(x, f.value)) then Some(x) else f
  }

  /** The record of `n` with the greatest key, the latest listed among equals. */
  function LastOf(recs: seq<AllocRecord>, n: Name): Option<AllocRecord> {
    if recs == [] then None
    else
      var l, x := LastOf(recs[..|recs| - 1], n), recs[|recs| - 1];
      if x.name == n && (l.None? || !Less(x, l.value)) then Some(x) else l
  }

  /** `f` is the least-keyed record of `n` in `recs`. */
  ghost predicate IsLeast(recs: seq<AllocRecord>, n: Name, f: AllocRecord) {
    f in recs && f.name == n && forall r | r in recs && r.name == n :: !Less(r, f)
  }

  ghost predicate IsGreatest(recs: seq<AllocRecord>, n: Name, l: AllocRecord) {
    l in recs && l.name == n && forall r | r in recs && r.name == n :: !Less(l, r)
  }

  lemma {:induction false} FirstIsLeast(recs: seq<AllocRecord>, n: Name)
    ensures FirstOf(recs, n).None? <==> forall r | r in recs :: r.name != n
    ensures FirstOf(recs, n).Some? ==> IsLeast(recs, n, FirstOf(recs, n).value)
  {
    if recs != [] {
      var init, x := recs[..|recs| - 1], recs[|recs| - 1];
      FirstIsLeast(init, n);
      assert recs == init + [x];
      var f := FirstOf(init, n);
      Trichotomy(x, x);
      if f.Some? && x.name == n && Less(x, f.value) {
        forall r | r in init && r.name == n
          ensures !Less(r, x)
        {
          Trichotomy(x, f.value);
          Transitive(x, f.value, r);
        }
      }
    }
  }

  lemma {:induction false} LastIsGreatest(recs: seq<AllocRecord>, n: Name)
    ensures LastOf(recs, n).None? <==> forall r | r in recs :: r.name != n
    ensures LastOf(recs, n).Some? ==> IsGreatest(recs, n, LastOf(recs, n).value)
  {
    if recs != [] {
      var init, x := recs[..|recs| - 1], recs[|recs| - 1];
      LastIsGreatest(init, n);
      assert recs == init + [x];
      var l := LastOf(init, n);
      Trichotomy(x, x);
      if l.Some? && x.name == n {
        Trichotomy(x, l.value);
        if !Less(x, l.value) {
          forall r | r in init && r.name == n
            ensures !Less(x, r)
          {
            Transitive(r, l.value, x);
          }
        }
      }
    }
  }

  /** In a sorted list the first and last occurrence decide. */
  ghost predicate Shows(h: Hosts, n: Name, f: Option<AllocRecord>, l: Option<AllocRecord>) {
    && (n in h <==> f.Some?) && (f.Some? <==> l.Some?)
    && (n in h ==> h[n] == HostOf(f.value.ip, l.value))
  }

  lemma {:induction false} ReplayShows(s: seq<AllocRecord>, n: Name)
    requires IsSorted(s)
    ensures Shows(Replay(s), n, FirstOf(s, n), LastOf(s, n))
  {
    if s != [] {
      var init, x := s[..|s| - 1], s[|s| - 1];
      ReplayShows(init, n);
      FirstIsLeast(init, n);
      LastIsGreatest(init, n);
      assert forall y | y in init :: !Less(x, y);
    }
  }

  lemma InsertedBelow(init: seq<AllocRecord>, x: AllocRecord, y: AllocRecord, n: Name)
    requires Less(x, y) && forall z | z in init :: !Less(y, z)
    requires FirstOf(Insert(init, x), n) == FirstOf(init + [x], n)
    requires LastOf(Insert(init, x), n) == LastOf(init + [x], n)
    ensures FirstOf(Insert(init, x) + [y], n) == FirstOf(init + [y] + [x], n)
    ensures LastOf(Insert(init, x) + [y], n) == LastOf(init + [y] + [x], n)
  {
    hide Less, FirstOf, LastOf, Insert;
    Swapped(init, x, y, n);
    OneMore(Insert(init, x), init + [x], y, n);
  }

  /** Sorting changes neither: the deciding records are those of the listing itself. */
  lemma InsertIs(s: seq<AllocRecord>, x: AllocRecord)
    requires s != []
    ensures var init, y := s[..|s| - 1], s[|s| - 1];
      && s == init + [y]
      && Insert(s, x) == (if Less(x, y) then Insert(init, x) + [y] else s + [x])
      && (IsSorted(s) ==> IsSorted(init) && forall z | z in init :: !Less(y, z))
  {
    hide Less;
  }

  lemma {:induction false} InsertDecides(s: seq<AllocRecord>, x: AllocRecord, n: Name)
    requires IsSorted(s)
    ensures FirstOf(Insert(s, x), n) == FirstOf(s + [x], n)
    ensures LastOf(Insert(s, x), n) == LastOf(s + [x], n)
    decreases |s|
  {
    if s == [] {
      assert s + [x] == [x] && Insert(s, x) == [x];
    } else {
      hide Less, FirstOf, LastOf, Insert, IsSorted;
      var init, y := s[..|s| - 1], s[|s| - 1];
      InsertIs(s, x);
      if Less(x, y) {
        InsertDecides(init, x, n);
        InsertedBelow(init, x, y, n);
      }
    }
  }

  lemma OneMore(a: seq<AllocRecord>, b: seq<AllocRecord>, y: AllocRecord, n: Name)
    requires FirstOf(a, n) == FirstOf(b, n) && LastOf(a, n) == LastOf(b, n)
    ensures FirstOf(a + [y], n) == FirstOf(b + [y], n) && LastOf(a + [y], n) == LastOf(b + [y], n)
  {
    assert (a + [y])[..|a|] == a && (b + [y])[..|b|] == b;
  }

  lemma Swapped(init: seq<AllocRecord>, x: AllocRecord, y: AllocRecord, n: Name)
    requires Less(x, y) && forall z | z in init :: !Less(y, z)
    ensures FirstOf(init + [x] + [y], n) == FirstOf(init + [y] + [x], n)
    ensures LastOf(init + [x] + [y], n) == LastOf(init + [y] + [x], n)
  {
    assert (init + [x] + [y])[..|init| + 1] == init + [x] && (init + [x])[..|init|] == init;
    assert (init + [y] + [x])[..|init| + 1] == init + [y] && (init + [y])[..|init|] == init;
    FirstIsLeast(init, n);
    LastIsGreatest(init, n);
    Trichotomy(x, y);
    if FirstOf(init, n).Some? { Trichotomy(x, FirstOf(init, n).value); Trichotomy(y, FirstOf(init, n).value); }
    if LastOf(init, n).Some? {
      Trichotomy(x, LastOf(init, n).value);
      Trichotomy(y, LastOf(init, n).value);
    }
  }

  lemma InsertedDecides(s: seq<AllocRecord>, init: seq<AllocRecord>, x: AllocRecord, n: Name)
    requires IsSorted(s) && FirstOf(s, n) == FirstOf(init, n) && LastOf(s, n) == LastOf(init, n)
    ensures FirstOf(Insert(s, x), n) == FirstOf(init + [x], n)
    ensures LastOf(Insert(s, x), n) == LastOf(init + [x], n)
  {
    hide Less, FirstOf, LastOf, IsSorted, Insert;
    InsertDecides(s, x, n);
    OneMore(s, init, x, n);
  }

  lemma {:induction false} SortingDecides(recs: seq<AllocRecord>, n: Name)
    ensures FirstOf(Sorted(recs), n) == FirstOf(recs, n)
    ensures LastOf(Sorted(recs), n) == LastOf(recs, n)
  {
    hide Less, FirstOf, LastOf, IsSorted, Insert;
    if recs != [] {
      var init, x := recs[..|recs| - 1], recs[|recs| - 1];
      SortingDecides(init, n);
      SortedIsSorted(init);
      InsertedDecides(Sorted(init), init, x, n);
      assert recs == init + [x];
    }
  }

  /** What a rebuild keeps of each host: the address of its least-keyed record,
      everything else from its greatest-keyed one, in whatever order they are listed. */
  lemma RebuildShows(recs: seq<AllocRecord>, n: Name)
    ensures Shows(Reconciled(recs), n, FirstOf(recs, n), LastOf(recs, n))
    ensures n in Reconciled(recs) <==> exists r :: r in recs && r.name == n
    ensures n in Reconciled(recs) ==>
      IsLeast(recs, n, FirstOf(recs, n).value) && IsGreatest(recs, n, LastOf(recs, n).value)
  {
    SortedIsSorted(recs);
    hide IsSorted, Less, Replay, Put;
    SortingDecides(recs, n);
    ReplayShows(Sorted(recs), n);
    FirstIsLeast(recs, n);
    LastIsGreatest(recs, n);
  }

  /** `a` sorts before `b`, or level with it, by number and then by key hash. */
  predicate NotAfter(a: AllocRecord, b: AllocRecord) {
    a.number < b.number || (a.number == b.number && a.sha <= b.sha)
  }

  lemma SameHost(a: AllocRecord, b: AllocRecord)
    requires a.name == b.name
    ensures NotAfter(a, b) <==> !Less(b, a)
  {
    NameTrichotomy(a.name, a.name);
  }

  /** ... in plain numbers: of a host's records one with the lowest number, and among
      those the lowest key hash, gives the address; one with the highest, and among
      those the highest hash, gives the key, its hash and the certificate's details. */
  lemma RebuildMeans(recs: seq<AllocRecord>, n: Name)
    ensures n in Reconciled(recs) <==> exists r :: r in recs && r.name == n
    ensures n in Reconciled(recs) ==>
      exists f, l :: IsBounded(recs, n, f, l)
                     && Reconciled(recs)[n] == Host(f.ip, Some(l.sha), l.pubkey, Some(l.details))
  {
    RebuildShows(recs, n);
    hide Reconciled, FirstOf, LastOf, Less;
    if n in Reconciled(recs) {
      var f, l := FirstOf(recs, n).value, LastOf(recs, n).value;
      forall r | r in recs && r.name == n
        ensures NotAfter(f, r) && NotAfter(r, l)
      {
        SameHost(f, r);
        SameHost(r, l);
      }
      assert IsBounded(recs, n, f, l);
    }
  }

  ghost predicate IsBounded(recs: seq<AllocRecord>, n: Name, f: AllocRecord, l: AllocRecord) {
    && f in recs && f.name == n && l in recs && l.name == n
    && forall r | r in recs && r.name == n :: NotAfter(f, r) && NotAfter(r, l)
  }

  // ------------------------------------------------------------- order independence

  ghost predicate LeastAgree(recs: seq<AllocRecord>, n: Name) {
    forall a, b | IsLeast(recs, n, a) && IsLeast(recs, n, b) :: a.ip == b.ip
  }

  ghost predicate GreatestAgree(recs: seq<AllocRecord>, n: Name) {
    forall a, b | IsGreatest(recs, n, a) && IsGreatest(recs, n, b) :: HostOf(0, a) == HostOf(0, b)
  }

  ghost predicate Permuted(p: seq<AllocRecord>, q: seq<AllocRecord>) {
    multiset(p) == multiset(q)
  }

  lemma SameMembers(p: seq<AllocRecord>, q: seq<AllocRecord>)
    requires Permuted(p, q)
    ensures forall r :: r in p <==> r in q
  {
    assert forall r :: r in p <==> r in multiset(p);
    assert forall r :: r in q <==> r in multiset(q);
  }

  ghost predicate SameIp(g: Hosts, h: Hosts, n: Name) {
    n in g && n in h && g[n].ip == h[n].ip
  }

  /** Some listing order puts a given record first, so it wins every tie. */
  lemma ToFront(recs: seq<AllocRecord>, n: Name, a: AllocRecord) returns (p: seq<AllocRecord>)
    requires IsLeast(recs, n, a)
    ensures Permuted(p, recs) && FirstOf(p, n) == Some(a)
  {
    var i :| 0 <= i < |recs| && recs[i] == a;
    var rest := recs[..i] + recs[i + 1..];
    p := [a] + rest;
    assert recs == recs[..i] + [a] + recs[i + 1..];
    FrontStays(a, rest, n) by {
      forall r | r in rest && r.name == n
        ensures !Less(r, a)
      {
        assert r in recs;
      }
    }
  }

  lemma {:induction false} FrontStays(a: AllocRecord, rest: seq<AllocRecord>, n: Name)
    requires a.name == n && forall r | r in rest && r.name == n :: !Less(r, a)
    ensures FirstOf([a] + rest, n) == Some(a)
    decreases |rest|
  {
    if rest == [] {
      assert [a] + rest == [a] && [a][..0] == [];
    } else {
      FrontStays(a, rest[..|rest| - 1], n);
      assert ([a] + rest)[..|rest|] == [a] + rest[..|rest| - 1];
    }
  }

  /** ... and some order puts it last. */
  lemma ToBack(recs: seq<AllocRecord>, n: Name, a: AllocRecord) returns (p: seq<AllocRecord>)
    requires IsGreatest(recs, n, a)
    ensures Permuted(p, recs) && LastOf(p, n) == Some(a)
  {
    var i :| 0 <= i < |recs| && recs[i] == a;
    var rest := recs[..i] + recs[i + 1..];
    p := rest + [a];
    assert recs == recs[..i] + [a] + recs[i + 1..];
    assert p[..|rest|] == rest;
    LastIsGreatest(rest, n);
    if LastOf(rest, n).Some? { assert LastOf(rest, n).value in recs; }
  }

  /** A host's rebuilt address is the same for every listing order exactly when
      its least-keyed records agree on it. */
  lemma IpOrderFree(recs: seq<AllocRecord>, n: Name)
    requires exists r :: r in recs && r.name == n
    ensures LeastAgree(recs, n) <==>
      forall p | Permuted(p, recs) :: SameIp(Reconciled(p), Reconciled(recs), n)
  {
    RebuildShows(recs, n);
    hide Reconciled, FirstOf, LastOf, Less;
    if LeastAgree(recs, n) {
      forall p | Permuted(p, recs)
        ensures SameIp(Reconciled(p), Reconciled(recs), n)
      {
        SameMembers(p, recs);
        RebuildShows(p, n);
        assert IsLeast(recs, n, FirstOf(p, n).value);
      }
    }
    if forall p | Permuted(p, recs) :: SameIp(Reconciled(p), Reconciled(recs), n) {
      forall a, b | IsLeast(recs, n, a) && IsLeast(recs, n, b)
        ensures a.ip == b.ip
      {
        var p := ToFront(recs, n, a);
        var q := ToFront(recs, n, b);
        RebuildShows(p, n);
        RebuildShows(q, n);
        assert SameIp(Reconciled(p), Reconciled(recs), n) && SameIp(Reconciled(q), Reconciled(recs), n);
      }
    }
  }

  /** ... and the whole registry exactly when, besides, the greatest-keyed
      records of each host agree on everything else. */
  lemma OrderFree(recs: seq<AllocRecord>)
    ensures (forall n :: LeastAgree(recs, n) && GreatestAgree(recs, n)) <==>
      forall p | Permuted(p, recs) :: Reconciled(p) == Reconciled(recs)
  {
    hide Reconciled, LeastAgree, GreatestAgree;
    if forall n :: LeastAgree(recs, n) && GreatestAgree(recs, n) {
      forall p | Permuted(p, recs)
        ensures Reconciled(p) == Reconciled(recs)
      {
        forall n
          ensures n in Reconciled(p) <==> n in Reconciled(recs)
          ensures n in Reconciled(p) ==> Reconciled(p)[n] == Reconciled(recs)[n]
        {
          assert LeastAgree(recs, n) && GreatestAgree(recs, n);
          AgreeingEntry(recs, p, n);
        }
      }
    }
    if forall p | Permuted(p, recs) :: Reconciled(p) == Reconciled(recs) {
      forall n
        ensures LeastAgree(recs, n) && GreatestAgree(recs, n)
      {
        TiesAgree(recs, n);
      }
    }
  }

  lemma AgreeingEntry(recs: seq<AllocRecord>, p: seq<AllocRecord>, n: Name)
    requires Permuted(p, recs) && LeastAgree(recs, n) && GreatestAgree(recs, n)
    ensures n in Reconciled(p) <==> n in Reconciled(recs)
    ensures n in Reconciled(p) ==> Reconciled(p)[n] == Reconciled(recs)[n]
  {
    SameMembers(p, recs);
    RebuildShows(recs, n);
    RebuildShows(p, n);
    hide Reconciled, FirstOf, LastOf, Less;
    if n in Reconciled(p) {
      assert IsLeast(recs, n, FirstOf(p, n).value) && IsGreatest(recs, n, LastOf(p, n).value);
    }
  }

  lemma TiesAgree(recs: seq<AllocRecord>, n: Name)
    requires forall p | Permuted(p, recs) :: Reconciled(p) == Reconciled(recs)
    ensures LeastAgree(recs, n) && GreatestAgree(recs, n)
  {
    hide Reconciled, FirstOf, LastOf, Less, IsLeast, IsGreatest;
    forall a, b | IsLeast(recs, n, a) && IsLeast(recs, n, b)
      ensures a.ip == b.ip
    {
      var p := ToFront(recs, n, a);
      var q := ToFront(recs, n, b);
      RebuildShows(p, n);
      RebuildShows(q, n);
      assert Reconciled(p) == Reconciled(recs) && Reconciled(q) == Reconciled(recs);
    }
    forall a, b | IsGreatest(recs, n, a) && IsGreatest(recs, n, b)
      ensures HostOf(0, a) == HostOf(0, b)
    {
      var p := ToBack(recs, n, a);
      var q := ToBack(recs, n, b);
      RebuildShows(p, n);
      RebuildShows(q, n);
      assert Reconciled(p) == Reconciled(recs) && Reconciled(q) == Reconciled(recs);
    }
  }

  /** "The IP stays fixed under ANY tie" is not so: two records with one key and
      two addresses rebuild to whichever is listed first. */
  lemma TieMovesTheAddress(a: AllocRecord, b: AllocRecord)
    requires Tied(a, b) && a.ip != b.ip
    ensures Permuted([a, b], [b, a])
    ensures a.name in Reconciled([a, b]) && a.name in Reconciled([b, a])
    ensures Reconciled([a, b])[a.name].ip == a.ip && Reconciled([b, a])[a.name].ip == b.ip
  {
    hide Reconciled, Tied;
    TiedBack(a, b);
    FirstListedWins(a, b);
    FirstListedWins(b, a);
  }

  lemma TiedBack(a: AllocRecord, b: AllocRecord)
    requires Tied(a, b)
    ensures Tied(b, a) && a.name == b.name
  {
  }

  lemma FirstListedWins(a: AllocRecord, b: AllocRecord)
    requires Tied(a, b)
    ensures a.name in Reconciled([a, b]) && Reconciled([a, b])[a.name].ip == a.ip
  {
    Trichotomy(a, b);
    hide Less, Tied, Reconciled;
    FrontStays(a, [b], a.name);
    assert [a] + [b] == [a, b];
    hide FirstOf, LastOf, IsLeast, IsGreatest;
    RebuildShows([a, b], a.name);
  }
}
