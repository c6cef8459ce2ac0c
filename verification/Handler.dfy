/** One run of `sign-hosts`, stopped anywhere: what it leaves in the registry, what
    in the output directory, and what becomes of addresses once that is committed. */
module Handler {
  import opened Basics
  import opened Registry
  import opened Rebuild
  import opened Stability

  /** How a run of `sign-hosts` goes: it stops for a reason of its own after
      `reach` hosts, with (`certified`) or without the certificate of the next one
      written, and a run through all hosts does or does not get as far as the
      rename that puts the new registry in place. */
  datatype Fate = Fate(reach: nat, certified: bool, saves: bool)

  /** The first `k` hosts can all be signed. */
  predicate AllSign(reg: Reg, ss: seq<Signing>, k: nat)
    requires k <= |ss|
  {
    k == 0 || (AllSign(reg, ss, k - 1) && Sign(LiveAfter(reg, ss[..k - 1]), ss[k - 1]).Signed?)
  }

  /** The hosts done when the loop, having done `i`, ends: it goes no further than
      `reach` and raises at the first host it cannot allocate. */
  function ReachedFrom(reg: Reg, ss: seq<Signing>, i: nat, reach: nat): (k: nat)
    requires i <= |ss| && AllSign(reg, ss, i)
    ensures i <= k <= |ss| && AllSign(reg, ss, k)
    decreases |ss| - i
  {
    if i == |ss| || i >= reach || !Sign(LiveAfter(reg, ss[..i]), ss[i]).Signed? then i
    else ReachedFrom(reg, ss, i + 1, reach)
  }

  function Reached(reg: Reg, ss: seq<Signing>, how: Fate): (k: nat)
    ensures k <= |ss| && AllSign(reg, ss, k)
  {
    ReachedFrom(reg, ss, 0, how.reach)
  }

  /** The loop ends where it was to stop, with the last host, or before the first host
      that cannot be allocated; every host before that was signed. */
  lemma {:induction false} ReachedIs(reg: Reg, ss: seq<Signing>, how: Fate)
    ensures var k := Reached(reg, ss, how);
      && k <= |ss| && k <= how.reach
      && (forall i | 0 <= i < k :: Sign(LiveAfter(reg, ss[..i]), ss[i]).Signed?)
      && (k < |ss| && k < how.reach ==> !Sign(LiveAfter(reg, ss[..k]), ss[k]).Signed?)
  {
    hide Sign, LiveAfter;
    ReachedFromIs(reg, ss, 0, how.reach);
    AllSignMeans(reg, ss, Reached(reg, ss, how));
  }

  lemma {:induction false} ReachedFromIs(reg: Reg, ss: seq<Signing>, i: nat, reach: nat)
    requires i <= |ss| && AllSign(reg, ss, i) && i <= reach
    ensures var k := ReachedFrom(reg, ss, i, reach);
      k <= reach && (k < |ss| && k < reach ==> !Sign(LiveAfter(reg, ss[..k]), ss[k]).Signed?)
    decreases |ss| - i
  {
    hide Sign, LiveAfter;
    if i < |ss| && i < reach && Sign(LiveAfter(reg, ss[..i]), ss[i]).Signed? {
      ReachedFromIs(reg, ss, i + 1, reach);
    }
  }

  lemma {:induction false} AllSignMeans(reg: Reg, ss: seq<Signing>, k: nat)
    requires k <= |ss|
    ensures AllSign(reg, ss, k) <==> forall i | 0 <= i < k :: Sign(LiveAfter(reg, ss[..i]), ss[i]).Signed?
  {
    hide Sign, LiveAfter;
    if k > 0 { AllSignMeans(reg, ss, k - 1); }
  }

  predicate Saved(reg: Reg, ss: seq<Signing>, how: Fate) {
    how.saves && Reached(reg, ss, how) == |ss|
  }

  /** The hosts whose certificate was written. */
  function Written(reg: Reg, ss: seq<Signing>, how: Fate): (w: nat)
    ensures Reached(reg, ss, how) <= w <= |ss| && AllSign(reg, ss, w)
  {
    var k := Reached(reg, ss, how);
    if how.certified && k < |ss| && AllSign(reg, ss, k + 1) then k + 1 else k
  }

  datatype Certificate = Certificate(name: Name, ip: nat)

  function CertificateOf(rec: AllocRecord): Certificate {
    Certificate(rec.name, rec.ip)
  }

  function CertificatesOf(recs: seq<AllocRecord>): set<Certificate> {
    set r | r in recs :: CertificateOf(r)
  }

  /** What a run leaves: the registry file, and in the output directory the records
      of the finished hosts and the certificates written. */
  datatype Handled = Handled(live: Reg, recs: seq<AllocRecord>, certs: set<Certificate>)

  function Handle(reg: Reg, ss: seq<Signing>, how: Fate): Handled {
    Handled(
      if Saved(reg, ss, how) then LiveAfter(reg, ss) else reg,
      Emitted(reg, ss[..Reached(reg, ss, how)]),
      CertificatesOf(Emitted(reg, ss[..Written(reg, ss, how)])))
  }

  // ------------------------------------------------------------- the records

  /** The address a host is signed for: its own, or the least free one. */
  function AddressFor(reg: Reg, s: Signing): Option<nat> {
    if s.name in reg.hosts then Some(reg.hosts[s.name].ip) else NextFree(reg.cidr, Assigned(reg.hosts))
  }

  /** The part of a record that the sort looks at. */
  ghost predicate IsFor(rec: AllocRecord, s: Signing) {
    rec.name == s.name && rec.number == s.number && rec.sha == s.sha
  }

  lemma SignedRecord(reg: Reg, s: Signing)
    requires Sign(reg, s).Signed?
    ensures IsFor(Sign(reg, s).rec, s) && AddressFor(reg, s) == Some(Sign(reg, s).rec.ip)
  {
  }

  lemma Snoc(ss: seq<Signing>, k: nat)
    requires 0 < k <= |ss|
    ensures ss[..k] == ss[..k - 1] + [ss[k - 1]]
  {
  }

  lemma EmittedOne(reg: Reg, init: seq<Signing>, s: Signing)
    requires Sign(LiveAfter(reg, init), s).Signed?
    ensures Emitted(reg, init + [s]) == Emitted(reg, init) + [Sign(LiveAfter(reg, init), s).rec]
  {
    hide Sign, LiveAfter;
    assert (init + [s])[..|init|] == init;
  }

  /** One record for each host, in order. */
  lemma {:induction false} EmittedCount(reg: Reg, ss: seq<Signing>, k: nat)
    requires k <= |ss| && AllSign(reg, ss, k)
    ensures |Emitted(reg, ss[..k])| == k
  {
    if k > 0 {
      hide Sign, Emitted, LiveAfter;
      EmittedCount(reg, ss, k - 1);
      Snoc(ss, k);
      EmittedOne(reg, ss[..k - 1], ss[k - 1]);
    }
  }

  lemma {:induction false} EmittedIs(reg: Reg, ss: seq<Signing>, k: nat, j: nat)
    requires j < k <= |ss| && AllSign(reg, ss, k)
    ensures |Emitted(reg, ss[..k])| == k && IsFor(Emitted(reg, ss[..k])[j], ss[j])
    ensures AddressFor(LiveAfter(reg, ss[..j]), ss[j]) == Some(Emitted(reg, ss[..k])[j].ip)
    decreases k
  {
    hide Sign, Emitted, LiveAfter, AddressFor, IsFor;
    EmittedCount(reg, ss, k);
    EmittedCount(reg, ss, k - 1);
    Snoc(ss, k);
    EmittedOne(reg, ss[..k - 1], ss[k - 1]);
    if j < k - 1 {
      EmittedIs(reg, ss, k - 1, j);
    } else {
      SignedRecord(LiveAfter(reg, ss[..j]), ss[j]);
    }
  }

  /** Where the hosts are that a run has signed, saved or not. */
  ghost function SignedHosts(reg: Reg, ss: seq<Signing>, how: Fate): Hosts {
    LiveAfter(reg, ss[..Reached(reg, ss, how)]).hosts
  }

  /** The record of a finished host says where the run put it, which is where it
      was if it was known. */
  lemma RecordOfHost(reg: Reg, ss: seq<Signing>, how: Fate, i: nat)
    requires i < Reached(reg, ss, how)
    ensures var recs, n := Handle(reg, ss, how).recs, ss[i].name;
      && i < |recs| && recs[i] in recs && IsFor(recs[i], ss[i])
      && AddressFor(LiveAfter(reg, ss[..i]), ss[i]) == Some(recs[i].ip)
      && n in SignedHosts(reg, ss, how) && SignedHosts(reg, ss, how)[n].ip == recs[i].ip
      && (n in reg.hosts ==> reg.hosts[n].ip == recs[i].ip)
  {
    hide Reached, LiveAfter, Emitted, AddressFor;
    EmittedIs(reg, ss, Reached(reg, ss, how), i);
    EmittedAreLive(reg, ss[..Reached(reg, ss, how)]);
    LiveKeeps(reg, ss[..Reached(reg, ss, how)]);
  }

  lemma HostOfRecord(reg: Reg, ss: seq<Signing>, how: Fate, e: AllocRecord) returns (i: nat)
    requires e in Handle(reg, ss, how).recs
    ensures i < Reached(reg, ss, how) && i < |Handle(reg, ss, how).recs| && Handle(reg, ss, how).recs[i] == e
    ensures ss[i].name == e.name
    ensures e.name in SignedHosts(reg, ss, how) && SignedHosts(reg, ss, how)[e.name].ip == e.ip
  {
    hide Reached, LiveAfter, Emitted, AddressFor;
    EmittedCount(reg, ss, Reached(reg, ss, how));
    var recs := Handle(reg, ss, how).recs;
    i :| 0 <= i < |recs| && recs[i] == e;
    RecordOfHost(reg, ss, how, i);
  }

  /** What a run does to the registry file. */
  lemma HandledLive(reg: Reg, ss: seq<Signing>, how: Fate)
    ensures var o := Handle(reg, ss, how);
      && o.live.cidr == reg.cidr
      && (forall n | n in reg.hosts :: n in o.live.hosts && o.live.hosts[n].ip == reg.hosts[n].ip)
      && (Saved(reg, ss, how) ==> o.live.hosts == SignedHosts(reg, ss, how))
      && (!Saved(reg, ss, how) ==> o.live == reg)
      && (DistinctIps(reg.hosts) ==> DistinctIps(o.live.hosts) && DistinctIps(SignedHosts(reg, ss, how)))
      && (InPool(reg.hosts, reg.cidr) ==> InPool(o.live.hosts, reg.cidr) && InPool(SignedHosts(reg, ss, how), reg.cidr))
      && (forall n | n in reg.hosts ::
            n in SignedHosts(reg, ss, how) && SignedHosts(reg, ss, how)[n].ip == reg.hosts[n].ip)
  {
    hide Reached, LiveAfter, Emitted, DistinctIps, InPool;
    var k := Reached(reg, ss, how);
    assert k == |ss| ==> ss[..k] == ss;
    LiveKeeps(reg, ss[..k]);
  }

  lemma HandledRises(log: seq<AllocRecord>, reg: Reg, ss: seq<Signing>, how: Fate)
    requires Rising(log) && RisingNumbers(ss)
    requires forall s, r | s in ss && r in log :: r.number < s.number
    ensures Rising(log + Handle(reg, ss, how).recs)
  {
    var done := ss[..Reached(reg, ss, how)];
    var recs := Handle(reg, ss, how).recs;
    assert recs == Emitted(reg, done);
    hide Handle, Reached, Emitted;
    EmittedRises(reg, done);
    EmittedNumbers(reg, done);
    forall e, r | e in recs && r in log
      ensures r.number < e.number
    {
      var s :| s in done && s.number == e.number;
      assert s in ss;
    }
  }

  // ------------------------------------------------------------- where a boot puts the committed hosts

  /** Every committed name is live where a boot would put it. */
  ghost predicate Contained(log: seq<AllocRecord>, h: Hosts) {
    forall n | n in Reconciled(log) :: n in h && h[n].ip == Reconciled(log)[n].ip
  }

  lemma HomeIs(recs: seq<AllocRecord>, n: Name)
    ensures n in Reconciled(recs) <==> FirstOf(recs, n).Some?
    ensures n in Reconciled(recs) <==> exists r :: r in recs && r.name == n
    ensures n in Reconciled(recs) ==>
      IsLeast(recs, n, FirstOf(recs, n).value) && Reconciled(recs)[n].ip == FirstOf(recs, n).value.ip
  {
    hide Reconciled, FirstOf, LastOf, IsLeast;
    RebuildShows(recs, n);
  }

  /** The least-keyed record of a longer list is the old one, or one of the new. */
  lemma {:induction false} FirstConcat(a: seq<AllocRecord>, b: seq<AllocRecord>, n: Name)
    ensures FirstOf(a + b, n) == FirstOf(a, n) || (FirstOf(a + b, n).Some? && FirstOf(a + b, n).value in b)
    decreases |b|
  {
    hide Less;
    if b == [] {
      assert a + b == a;
    } else {
      FirstConcat(a, b[..|b| - 1], n);
      assert (a + b)[..|a + b| - 1] == a + b[..|b| - 1];
    }
  }

  /** Once the records are committed a name is where it was, or where the run put it. */
  lemma HomeAfter(log: seq<AllocRecord>, reg: Reg, ss: seq<Signing>, how: Fate, n: Name)
    ensures var after, put := Reconciled(log + Handle(reg, ss, how).recs), SignedHosts(reg, ss, how);
      && (n in after <==> n in Reconciled(log) || exists i :: 0 <= i < Reached(reg, ss, how) && ss[i].name == n)
      && (n in after ==>
            || (n in Reconciled(log) && after[n].ip == Reconciled(log)[n].ip)
            || (n in put && after[n].ip == put[n].ip && exists i :: 0 <= i < Reached(reg, ss, how) && ss[i].name == n))
  {
    hide Handle, Reached, SignedHosts, Reconciled, FirstOf, IsFor;
    var recs := Handle(reg, ss, how).recs;
    HomeIs(log, n);
    HomeIs(log + recs, n);
    FirstConcat(log, recs, n);
    forall i | 0 <= i < Reached(reg, ss, how) && ss[i].name == n
      ensures n in Reconciled(log + recs)
    {
      RecordOfHost(reg, ss, how, i);
      NamedIn(recs[i], ss[i]);
      assert recs[i] in log + recs;
    }
    if n in Reconciled(log + recs) {
      var r := FirstOf(log + recs, n).value;
      if r in recs {
        var i := HostOfRecord(reg, ss, how, r);
      } else {
        assert FirstOf(log, n) == FirstOf(log + recs, n);
      }
    }
  }

  lemma NamedIn(r: AllocRecord, s: Signing)
    requires IsFor(r, s)
    ensures r.name == s.name
  {
  }

  /** One run of the handler whose records get committed: the committed names stay
      live where a boot would put them exactly when the registry was saved or every
      finished host was in it already. This needs nothing of the numbers. */
  lemma HandleContained(log: seq<AllocRecord>, reg: Reg, ss: seq<Signing>, how: Fate)
    requires Contained(log, reg.hosts)
    ensures var o := Handle(reg, ss, how);
      && Contained(log, o.live.hosts)
      && (Contained(log + o.recs, o.live.hosts) <==>
            Saved(reg, ss, how) || forall i | 0 <= i < Reached(reg, ss, how) :: ss[i].name in reg.hosts)
  {
    hide Handle, Reached, SignedHosts, Reconciled, Saved, IsFor;
    var k, o := Reached(reg, ss, how), Handle(reg, ss, how);
    HandledLive(reg, ss, how);
    forall n
      ensures n in Reconciled(log + o.recs) ==>
        || (n in reg.hosts && reg.hosts[n].ip == Reconciled(log + o.recs)[n].ip)
        || (n !in reg.hosts && n in SignedHosts(reg, ss, how)
            && SignedHosts(reg, ss, how)[n].ip == Reconciled(log + o.recs)[n].ip
            && exists i :: 0 <= i < k && ss[i].name == n)
    {
      HomeAfter(log, reg, ss, how, n);
    }
    if !Saved(reg, ss, how) && exists i :: 0 <= i < k && ss[i].name !in reg.hosts {
      var i :| 0 <= i < k && ss[i].name !in reg.hosts;
      HomeAfter(log, reg, ss, how, ss[i].name);
    }
  }

  /** ... and their homes stay apart when the live hosts are. */
  lemma HomesApart(log: seq<AllocRecord>, reg: Reg, ss: seq<Signing>, how: Fate)
    requires Contained(log, reg.hosts) && DistinctIps(reg.hosts)
    ensures DistinctIps(Reconciled(log + Handle(reg, ss, how).recs))
  {
    hide Handle, Reached, SignedHosts, Reconciled, Saved;
    var after := Reconciled(log + Handle(reg, ss, how).recs);
    HandledLive(reg, ss, how);
    forall n | n in after
      ensures n in SignedHosts(reg, ss, how) && SignedHosts(reg, ss, how)[n].ip == after[n].ip
    {
      HomeAfter(log, reg, ss, how, n);
    }
  }

  // ------------------------------------------------------------- scans

  /** A scan lists the committed records, each once, in some order. */
  ghost predicate IsScan(p: seq<AllocRecord>, recs: seq<AllocRecord>) {
    multiset(p) == multiset(set r | r in recs)
  }

  lemma SameRecords(p: seq<AllocRecord>, recs: seq<AllocRecord>)
    requires IsScan(p, recs)
    ensures forall r :: r in p <==> r in recs
  {
    assert forall r :: r in p <==> r in multiset(p);
  }

  /** A boot puts each host at one address, in whatever order it lists the records. */
  ghost predicate Settled(recs: seq<AllocRecord>) {
    forall n :: LeastAgree(recs, n)
  }

  /** The rebuild from any scan of settled records puts every host where the
      records say. */
  lemma ScanRestores(p: seq<AllocRecord>, recs: seq<AllocRecord>)
    requires IsScan(p, recs)
    ensures Settled(recs) ==> Contained(recs, Reconciled(p))
    ensures forall n | n in Reconciled(p) :: exists r :: r in recs && r.name == n && r.ip == Reconciled(p)[n].ip
    ensures forall n :: n in Reconciled(p) <==> n in Reconciled(recs)
  {
    hide Reconciled, FirstOf, IsLeast;
    SameRecords(p, recs);
    forall n
      ensures n in Reconciled(recs) <==> n in Reconciled(p)
      ensures n in Reconciled(p) ==> exists r :: r in recs && r.name == n && r.ip == Reconciled(p)[n].ip
      ensures Settled(recs) && n in Reconciled(recs) ==> Reconciled(p)[n].ip == Reconciled(recs)[n].ip
    {
      ScanOne(p, recs, n);
    }
  }

  lemma ScanOne(p: seq<AllocRecord>, recs: seq<AllocRecord>, n: Name)
    requires forall r :: r in p <==> r in recs
    ensures n in Reconciled(recs) <==> n in Reconciled(p)
    ensures n in Reconciled(p) ==> exists r :: r in recs && r.name == n && r.ip == Reconciled(p)[n].ip
    ensures Settled(recs) && n in Reconciled(recs) ==> Reconciled(p)[n].ip == Reconciled(recs)[n].ip
  {
    hide Reconciled, FirstOf, Less;
    HomeIs(p, n);
    HomeIs(recs, n);
    if n in Reconciled(p) {
      var r := FirstOf(p, n).value;
      assert r in recs;
      assert IsLeast(recs, n, r);
      assert Settled(recs) ==> LeastAgree(recs, n);
    }
  }

  /** Some scan puts a host where a least-keyed record of it says. */
  lemma ScanFor(recs: seq<AllocRecord>, n: Name, a: AllocRecord) returns (p: seq<AllocRecord>)
    requires IsLeast(recs, n, a)
    ensures IsScan(p, recs) && n in Reconciled(p) && Reconciled(p)[n].ip == a.ip
  {
    hide Reconciled, FirstOf, Less;
    var listed := Enumerated(set r | r in recs);
    assert forall r :: r in listed <==> r in recs;
    assert IsLeast(listed, n, a);
    p := ToFront(listed, n, a);
    HomeIs(p, n);
  }

  // ------------------------------------------------------------- when a boot moves a committed host

  /** Where a boot put the committed hosts of `log` it still puts them, in whatever
      order it lists the records of `more`. */
  ghost predicate BootsKeep(log: seq<AllocRecord>, more: seq<AllocRecord>) {
    forall p | IsScan(p, more) :: Contained(log, Reconciled(p))
  }

  ghost predicate HomesStay(log: seq<AllocRecord>, more: seq<AllocRecord>) {
    Settled(more)
    && forall n | n in Reconciled(log) :: n in Reconciled(more) && Reconciled(more)[n].ip == Reconciled(log)[n].ip
  }

  lemma HomesAreKept(log: seq<AllocRecord>, more: seq<AllocRecord>)
    requires HomesStay(log, more)
    ensures BootsKeep(log, more)
  {
    hide Reconciled, Settled, IsScan;
    forall p | IsScan(p, more)
      ensures Contained(log, Reconciled(p))
    {
      ScanRestores(p, more);
    }
  }

  function KeyOf(s: Signing): AllocRecord {
    AllocRecord(s.name, 0, s.sha, None, s.details, s.number)
  }

  /** Host `i` is committed already, no longer live at home, signed for another
      address, and its new record does not sort after the one that decides. */
  predicate MovesAt(log: seq<AllocRecord>, reg: Reg, ss: seq<Signing>, i: nat)
    requires i < |ss|
  {
    var first := FirstOf(log, ss[i].name);
    && first.Some? && AddressFor(LiveAfter(reg, ss[..i]), ss[i]) != Some(first.value.ip)
    && !Less(first.value, KeyOf(ss[i]))
  }

  ghost predicate Moves(log: seq<AllocRecord>, reg: Reg, ss: seq<Signing>, how: Fate) {
    exists i :: 0 <= i < Reached(reg, ss, how) && MovesAt(log, reg, ss, i)
  }

  lemma SameKey(a: AllocRecord, b: AllocRecord, r: AllocRecord)
    requires Tied(a, b)
    ensures Less(r, a) <==> Less(r, b)
    ensures Less(a, r) <==> Less(b, r)
  {
  }

  lemma KeyIs(e: AllocRecord, s: Signing)
    requires IsFor(e, s)
    ensures Tied(e, KeyOf(s))
  {
  }

  /** A finished host moves exactly as its record says. */
  lemma MovesAsRecorded(log: seq<AllocRecord>, reg: Reg, ss: seq<Signing>, how: Fate, i: nat)
    requires i < Reached(reg, ss, how)
    ensures var e, first := Handle(reg, ss, how).recs, FirstOf(log, ss[i].name);
      && i < |e| && e[i] in e && e[i].name == ss[i].name
      && (MovesAt(log, reg, ss, i) <==> first.Some? && e[i].ip != first.value.ip && !Less(first.value, e[i]))
  {
    hide Handle, Reached, LiveAfter, AddressFor, Less, FirstOf, SignedHosts;
    RecordOfHost(reg, ss, how, i);
    var e := Handle(reg, ss, how).recs[i];
    KeyIs(e, ss[i]);
    var first := FirstOf(log, ss[i].name);
    if first.Some? { SameKey(e, KeyOf(ss[i]), first.value); }
  }

  lemma NameStays(log: seq<AllocRecord>, reg: Reg, ss: seq<Signing>, how: Fate, n: Name)
    requires LeastAgree(log, n) && !Moves(log, reg, ss, how)
    ensures var more := log + Handle(reg, ss, how).recs;
      && LeastAgree(more, n)
      && (n in Reconciled(log) ==> n in Reconciled(more) && Reconciled(more)[n].ip == Reconciled(log)[n].ip)
  {
    hide Handle, Reached, SignedHosts, Reconciled, FirstOf, Less, MovesAt;
    var recs := Handle(reg, ss, how).recs;
    var more := log + recs;
    HomeIs(log, n);
    HomeIs(more, n);
    if n in Reconciled(log) {
      var l := FirstOf(log, n).value;
      assert l in more;
      forall a | IsLeast(more, n, a)
        ensures a.ip == l.ip
      {
        if a in recs {
          var i := HostOfRecord(reg, ss, how, a);
          MovesAsRecorded(log, reg, ss, how, i);
        } else {
          assert IsLeast(log, n, a) by { assert forall r | r in log :: r in more; }
        }
      }
    } else {
      forall a | IsLeast(more, n, a)
        ensures n in SignedHosts(reg, ss, how) && a.ip == SignedHosts(reg, ss, how)[n].ip
      {
        var i := HostOfRecord(reg, ss, how, a);
      }
    }
  }

  /** Once a host has moved, some boot puts it elsewhere. */
  lemma MovedAway(log: seq<AllocRecord>, reg: Reg, ss: seq<Signing>, how: Fate)
    requires Moves(log, reg, ss, how)
    ensures !BootsKeep(log, log + Handle(reg, ss, how).recs)
  {
    hide Handle, Reached, SignedHosts, Reconciled, FirstOf, Less, MovesAt, IsLeast, IsScan;
    var recs := Handle(reg, ss, how).recs;
    var i :| 0 <= i < Reached(reg, ss, how) && MovesAt(log, reg, ss, i);
    MovesAsRecorded(log, reg, ss, how, i);
    var n, e := ss[i].name, recs[i];
    HomeIs(log, n);
    var a := LeastElsewhere(log, recs, n, e);
    var j := HostOfRecord(reg, ss, how, a);
    var k := HostOfRecord(reg, ss, how, e);
    var p := ScanFor(log + recs, n, a);
    assert !Contained(log, Reconciled(p));
  }

  /** A new record that does not sort after the old deciding one is least, or
      another new one is. */
  lemma LeastElsewhere(log: seq<AllocRecord>, recs: seq<AllocRecord>, n: Name, e: AllocRecord)
    returns (a: AllocRecord)
    requires e in recs && e.name == n && FirstOf(log, n).Some? && !Less(FirstOf(log, n).value, e)
    ensures IsLeast(log + recs, n, a) && a in recs && a.name == n
  {
    hide FirstOf, Less, IsLeast, Reconciled;
    var more := log + recs;
    HomeIs(log, n);
    HomeIs(more, n);
    var l := FirstOf(log, n).value;
    LeastIs(log, n, l);
    assert e in more && l in more;
    a := FirstOf(more, n).value;
    LeastIs(more, n, a);
    if a !in recs {
      AlsoLeast(more, n, l, a, e);
      a := e;
    }
  }

  lemma LeastIs(recs: seq<AllocRecord>, n: Name, f: AllocRecord)
    requires IsLeast(recs, n, f)
    ensures f in recs && f.name == n && forall r | r in recs && r.name == n :: !Less(r, f)
  {
  }

  /** A record that does not sort after a least one is least, too. */
  lemma AlsoLeast(recs: seq<AllocRecord>, n: Name, l: AllocRecord, m: AllocRecord, e: AllocRecord)
    requires IsLeast(recs, n, m) && !Less(m, l) && l in recs && l.name == n && e in recs && e.name == n && !Less(l, e)
    ensures IsLeast(recs, n, e)
  {
    Trichotomy(m, l);
    SameKey(m, l, e);
    Trichotomy(m, e);
    forall r | r in recs && r.name == n
      ensures !Less(r, e)
    {
      SameKey(m, e, r);
    }
  }

  /** A boot after the commit puts every committed host where one before would
      have, in whatever order it lists the records, exactly when the run moves none. */
  lemma MovesExactly(log: seq<AllocRecord>, reg: Reg, ss: seq<Signing>, how: Fate)
    requires Settled(log)
    ensures BootsKeep(log, log + Handle(reg, ss, how).recs) <==> !Moves(log, reg, ss, how)
    ensures HomesStay(log, log + Handle(reg, ss, how).recs) <==> !Moves(log, reg, ss, how)
  {
    hide Handle, Reached, Reconciled, LeastAgree, Moves, BootsKeep, HomesStay;
    if Moves(log, reg, ss, how) {
      MovedAway(log, reg, ss, how);
      if HomesStay(log, log + Handle(reg, ss, how).recs) { HomesAreKept(log, log + Handle(reg, ss, how).recs); }
    } else {
      StaysUnlessMoved(log, reg, ss, how);
      HomesAreKept(log, log + Handle(reg, ss, how).recs);
    }
  }

  lemma StaysUnlessMoved(log: seq<AllocRecord>, reg: Reg, ss: seq<Signing>, how: Fate)
    requires Settled(log) && !Moves(log, reg, ss, how)
    ensures HomesStay(log, log + Handle(reg, ss, how).recs)
  {
    hide Handle, Reached, Reconciled, LeastAgree, Moves;
    forall n
      ensures LeastAgree(log + Handle(reg, ss, how).recs, n)
      ensures n in Reconciled(log) ==>
        && n in Reconciled(log + Handle(reg, ss, how).recs)
        && Reconciled(log + Handle(reg, ss, how).recs)[n].ip == Reconciled(log)[n].ip
    {
      NameStays(log, reg, ss, how, n);
    }
  }

  /** A host that is live at home is signed for its home: only a lost one can move. */
  lemma HeldNeverMoves(log: seq<AllocRecord>, reg: Reg, ss: seq<Signing>, how: Fate, i: nat)
    requires i < Reached(reg, ss, how) && MovesAt(log, reg, ss, i)
    ensures var n := ss[i].name;
      n in Reconciled(log) && !(n in reg.hosts && reg.hosts[n].ip == Reconciled(log)[n].ip)
  {
    hide Handle, Reached, SignedHosts, Reconciled, FirstOf, Less, LiveAfter;
    RecordOfHost(reg, ss, how, i);
    HomeIs(log, ss[i].name);
  }

  // ------------------------------------------------------------- certificates

  predicate IsHeld(c: Certificate, h: Hosts) {
    c.name in h && h[c.name].ip == c.ip
  }

  /** The certificate of host `i`, finished or half done. */
  lemma CertificateOfHost(reg: Reg, ss: seq<Signing>, how: Fate, i: nat) returns (c: Certificate)
    requires i < Written(reg, ss, how)
    ensures c in Handle(reg, ss, how).certs && c.name == ss[i].name
    ensures AddressFor(LiveAfter(reg, ss[..i]), ss[i]) == Some(c.ip)
    ensures IsHeld(c, LiveAfter(reg, ss[..Written(reg, ss, how)]).hosts)
    ensures c.name in reg.hosts ==> reg.hosts[c.name].ip == c.ip
  {
    hide Written, LiveAfter, Emitted, AddressFor, Reached, Saved;
    var w := Written(reg, ss, how);
    EmittedIs(reg, ss, w, i);
    EmittedAreLive(reg, ss[..w]);
    LiveKeeps(reg, ss[..w]);
    var e := Emitted(reg, ss[..w])[i];
    c := CertificateOf(e);
    assert e in Emitted(reg, ss[..w]);
  }

  lemma HostOfCertificate(reg: Reg, ss: seq<Signing>, how: Fate, c: Certificate) returns (i: nat)
    requires c in Handle(reg, ss, how).certs
    ensures i < Written(reg, ss, how) && c.name == ss[i].name
    ensures AddressFor(LiveAfter(reg, ss[..i]), ss[i]) == Some(c.ip)
    ensures IsHeld(c, LiveAfter(reg, ss[..Written(reg, ss, how)]).hosts)
    ensures c.name in reg.hosts ==> reg.hosts[c.name].ip == c.ip
  {
    hide Written, LiveAfter, Emitted, AddressFor, Reached, Saved;
    var w := Written(reg, ss, how);
    var recs := Emitted(reg, ss[..w]);
    var e :| e in recs && CertificateOf(e) == c;
    EmittedCount(reg, ss, w);
    i :| 0 <= i < |recs| && recs[i] == e;
    EmittedIs(reg, ss, w, i);
    EmittedAreLive(reg, ss[..w]);
    LiveKeeps(reg, ss[..w]);
  }

  /** Each finished host has both a record and a certificate. */
  lemma RecordsCertified(reg: Reg, ss: seq<Signing>, how: Fate, e: AllocRecord)
    requires e in Handle(reg, ss, how).recs
    ensures CertificateOf(e) in Handle(reg, ss, how).certs
  {
    hide Written, LiveAfter, Emitted, AddressFor, Reached, SignedHosts, Handle;
    var i := HostOfRecord(reg, ss, how, e);
    var c := CertificateOfHost(reg, ss, how, i);
    RecordOfHost(reg, ss, how, i);
  }

  /** Every certificate a run has written names a host that is live under its
      address exactly when the registry was saved or every such host, the half-done
      one included, was in it already. */
  lemma CertificatesHeld(reg: Reg, ss: seq<Signing>, how: Fate)
    ensures var o := Handle(reg, ss, how);
      (forall c | c in o.certs :: IsHeld(c, o.live.hosts)) <==>
        Saved(reg, ss, how) || forall i | 0 <= i < Written(reg, ss, how) :: ss[i].name in reg.hosts
  {
    hide Written, LiveAfter, Emitted, AddressFor, Reached, SignedHosts, Handle, Saved;
    HandledLive(reg, ss, how);
    if Saved(reg, ss, how) { SavedWrites(reg, ss, how); }
    var o := Handle(reg, ss, how);
    forall c | c in o.certs
      ensures exists i :: 0 <= i < Written(reg, ss, how) && c.name == ss[i].name
      ensures Saved(reg, ss, how) ==> IsHeld(c, o.live.hosts)
      ensures c.name in reg.hosts ==> reg.hosts[c.name].ip == c.ip
    {
      var i := HostOfCertificate(reg, ss, how, c);
    }
    forall i | 0 <= i < Written(reg, ss, how)
      ensures exists c :: c in o.certs && c.name == ss[i].name
    {
      var c := CertificateOfHost(reg, ss, how, i);
    }
  }

  lemma SavedWrites(reg: Reg, ss: seq<Signing>, how: Fate)
    requires Saved(reg, ss, how)
    ensures LiveAfter(reg, ss[..Written(reg, ss, how)]) == Handle(reg, ss, how).live
  {
    hide LiveAfter, Emitted, Reached, Sign;
    assert ss[..|ss|] == ss;
  }

  /** No two certificates name different hosts under one address. */
  ghost predicate CertificatesApart(cs: set<Certificate>) {
    forall a, b | a in cs && b in cs && a.name != b.name :: a.ip != b.ip
  }

  /** Host `i` is signed for the address of another's certificate, not held by it. */
  ghost predicate TakesAt(certs: set<Certificate>, reg: Reg, ss: seq<Signing>, i: nat)
    requires i < |ss|
  {
    exists c :: c in certs && c.name != ss[i].name && !IsHeld(c, reg.hosts)
                && AddressFor(LiveAfter(reg, ss[..i]), ss[i]) == Some(c.ip)
  }

  /** The certificates of a run stay apart from those there were, and from each
      other, exactly when none is for an address that an older one has lost hold of. */
  lemma CertificatesCollide(certs: set<Certificate>, reg: Reg, ss: seq<Signing>, how: Fate)
    requires CertificatesApart(certs) && DistinctIps(reg.hosts)
    ensures CertificatesApart(certs + Handle(reg, ss, how).certs) <==>
      forall i | 0 <= i < Written(reg, ss, how) :: !TakesAt(certs, reg, ss, i)
  {
    hide Written, LiveAfter, AddressFor, Handle, IsHeld;
    var new1 := Handle(reg, ss, how).certs;
    if i :| 0 <= i < Written(reg, ss, how) && TakesAt(certs, reg, ss, i) {
      var c := CertificateOfHost(reg, ss, how, i);
    } else {
      forall a, b | a in certs + new1 && b in certs + new1 && a.name != b.name
        ensures a.ip != b.ip
      {
        if a in new1 { NewApart(certs, reg, ss, how, a, b); }
        else if b in new1 { NewApart(certs, reg, ss, how, b, a); }
      }
    }
  }

  lemma NewApart(certs: set<Certificate>, reg: Reg, ss: seq<Signing>, how: Fate, a: Certificate, b: Certificate)
    requires DistinctIps(reg.hosts) && forall i | 0 <= i < Written(reg, ss, how) :: !TakesAt(certs, reg, ss, i)
    requires a in Handle(reg, ss, how).certs && b in certs + Handle(reg, ss, how).certs && a.name != b.name
    ensures a.ip != b.ip
  {
    hide Written, LiveAfter, AddressFor, Handle;
    var put := LiveAfter(reg, ss[..Written(reg, ss, how)]).hosts;
    LiveKeeps(reg, ss[..Written(reg, ss, how)]);
    var i := HostOfCertificate(reg, ss, how, a);
    assert !TakesAt(certs, reg, ss, i);
    if b in Handle(reg, ss, how).certs {
      var j := HostOfCertificate(reg, ss, how, b);
    }
  }

  // ------------------------------------------------------------- how it breaks

  /** A job that gets as far as the record of a new host, and no further, is
      committed with it, but the registry is not saved: the next new host gets the
      very same address, and both records are in the log. It takes no failing call:
      one host, and the handler stopped before the save, will do. */
  lemma LostAddressIsReused(reg: Reg, a: Signing, rest: seq<Signing>, how: Fate, b: Signing)
    requires a.name !in reg.hosts && b.name !in reg.hosts && a.name != b.name
    requires !KeyTaken(reg.hosts, a.sha) && !KeyTaken(reg.hosts, b.sha) && !(Pool(reg.cidr) <= Assigned(reg.hosts))
    requires how.reach == 1 && (rest == [] ==> !how.saves)
    ensures var first := Handle(reg, [a] + rest, how); var second := Handle(first.live, [b], ALL_DONE);
      && first.live == reg && |first.recs| == 1 && |second.recs| == 1
      && Saved(first.live, [b], ALL_DONE) && first.recs[0].ip == second.recs[0].ip
      && var h := Reconciled(first.recs + second.recs);
      && a.name in h && b.name in h && h[a.name].ip == h[b.name].ip
  {
    hide Handle, Sign, Saved, Reconciled, FirstOf, IsFor, KeyTaken, Pool, Assigned;
    FirstSigned(reg, a, rest, how);
    FirstSigned(reg, b, [], ALL_DONE);
    assert [b] + [] == [b];
    var p, q := Handle(reg, [a] + rest, how).recs[0], Handle(reg, [b], ALL_DONE).recs[0];
    assert Handle(reg, [a] + rest, how).recs == [p] && Handle(reg, [b], ALL_DONE).recs == [q];
    NamedIn(p, a);
    NamedIn(q, b);
    OnlyRecord([p] + [q], p);
    OnlyRecord([p] + [q], q);
  }

  /** Every host done and the registry saved. */
  const ALL_DONE := Fate(1, false, true)

  /** A host with one record lives where it says. */
  lemma OnlyRecord(recs: seq<AllocRecord>, r: AllocRecord)
    requires r in recs && forall e | e in recs && e.name == r.name :: e == r
    ensures r.name in Reconciled(recs) && Reconciled(recs)[r.name].ip == r.ip
  {
    hide Reconciled, FirstOf;
    HomeIs(recs, r.name);
  }

  /** The first host of a run, if it is new. */
  lemma FirstSigned(reg: Reg, s: Signing, rest: seq<Signing>, how: Fate)
    requires s.name !in reg.hosts && !KeyTaken(reg.hosts, s.sha) && !(Pool(reg.cidr) <= Assigned(reg.hosts))
    requires how.reach == 1
    ensures var o := Handle(reg, [s] + rest, how);
      && |o.recs| == 1 && IsFor(o.recs[0], s) && Sign(reg, s).Signed?
      && NextFree(reg.cidr, Assigned(reg.hosts)) == Some(o.recs[0].ip)
      && (Saved(reg, [s] + rest, how) <==> how.saves && rest == [])
      && o.live == if how.saves && rest == [] then Sign(reg, s).reg else reg
  {
    var ss := [s] + rest;
    NextFreeIsLeast(reg.cidr, Assigned(reg.hosts));
    assert ss[..0] == [] && ss[..1] == [s] && [s][..0] == [];
    assert Emitted(reg, []) == [] && LiveAfter(reg, []) == reg;
    assert Sign(reg, s).Signed? && ss[0] == s;
    assert AllSign(reg, ss, 1);
    assert ReachedFrom(reg, ss, 1, 1) == 1;
    assert Reached(reg, ss, how) == 1;
  }

  /** A handler stopped between a new host's certificate and its record: the
      certificate is committed, nothing else knows of it, no rebuild brings its
      address back, and the next new host is given that address. */
  lemma {:induction false} OrphanIsReused(log: seq<AllocRecord>, reg: Reg, a: Signing, how: Fate, b: Signing,
                                          p: seq<AllocRecord>)
    requires a.name !in reg.hosts && b.name !in reg.hosts && a.name != b.name
    requires !KeyTaken(reg.hosts, a.sha) && !KeyTaken(reg.hosts, b.sha) && !(Pool(reg.cidr) <= Assigned(reg.hosts))
    requires how.reach == 0 && how.certified && Rising(log) && reg.hosts == Replay(log)
    requires Permuted(p, log + Handle(reg, [a], how).recs)
    ensures var first := Handle(reg, [a], how); var rebuilt := Reg(reg.cidr, Reconciled(p));
      var second := Handle(rebuilt, [b], ALL_DONE);
      && (exists c :: first.certs == {c} && c.name == a.name && |second.recs| == 1 && second.recs[0].ip == c.ip)
      && a.name !in rebuilt.hosts
  {
    hide Handle, Sign, Reconciled, Replay, KeyTaken, Pool, Assigned, NextFree, Rising, Permuted;
    FirstSigned(reg, b, [], ALL_DONE);
    assert [b] + [] == [b];
    var c := HalfSigned(reg, a, how);
    assert log + [] == log;
    RisingIsOrderFree(log, p);
    assert Reg(reg.cidr, Reconciled(p)) == reg;
    assert Handle(reg, [a], how).certs == {c};
  }

  /** A run that stops between the certificate and the record of its first host. */
  lemma {:induction false} HalfSigned(reg: Reg, s: Signing, how: Fate) returns (c: Certificate)
    requires s.name !in reg.hosts && !KeyTaken(reg.hosts, s.sha) && !(Pool(reg.cidr) <= Assigned(reg.hosts))
    requires how.reach == 0 && how.certified
    ensures Handle(reg, [s], how).recs == [] && Handle(reg, [s], how).certs == {c} && c.name == s.name
    ensures NextFree(reg.cidr, Assigned(reg.hosts)) == Some(c.ip)
  {
    NewSigned(reg, s);
    hide Sign, NextFree, KeyTaken, Pool, Assigned;
    assert [s][..0] == [] && [s][..1] == [s] && Emitted(reg, []) == [] && LiveAfter(reg, []) == reg;
    assert Reached(reg, [s], how) == 0 && Written(reg, [s], how) == 1;
    var rec := Sign(reg, s).rec;
    assert Emitted(reg, [s]) == [rec];
    SignedRecord(reg, s);
    c := CertificateOf(rec);
    assert Handle(reg, [s], how).certs == {c};
  }

  ghost predicate RoomForTwo(reg: Reg) {
    exists a, b :: a in Pool(reg.cidr) && b in Pool(reg.cidr) && a !in Assigned(reg.hosts) && b !in Assigned(reg.hosts)
                   && a != b
  }

  /** How a boot comes to move a committed host: a job signs the new host `h` and is
      stopped before the save; a job of a lower number signs `g`, which gets that
      address, and `h` again, which gets another, and saves. The second record of
      `h` sorts first, so the next boot, in whatever order it lists the three,
      puts `h` at the other address. */
  lemma ResignedElsewhere(reg: Reg, g: Signing, h: Signing, again: Signing, p: seq<AllocRecord>)
    requires g.name !in reg.hosts && h.name !in reg.hosts && g.name != h.name && g.sha != h.sha
    requires !KeyTaken(reg.hosts, g.sha) && !KeyTaken(reg.hosts, h.sha)
    requires again == h.(number := again.number) && again.number < h.number
    requires RoomForTwo(reg)
    requires Permuted(p, Handle(reg, [h], Fate(1, false, false)).recs
                         + Handle(reg, [g, again], Fate(2, false, true)).recs)
    ensures var first, second := Handle(reg, [h], Fate(1, false, false)), Handle(reg, [g, again], Fate(2, false, true));
      && first.live == reg && Saved(reg, [g, again], Fate(2, false, true)) && |first.recs| == 1 && |second.recs| == 2
      && h.name in Reconciled(first.recs) && Reconciled(first.recs)[h.name].ip == first.recs[0].ip
      && second.recs[0].ip == first.recs[0].ip
      && h.name in Reconciled(p) && Reconciled(p)[h.name].ip == second.recs[1].ip != first.recs[0].ip
  {
    hide Handle, Sign, Saved, Reconciled, FirstOf, KeyTaken, Pool, Assigned, Less, Permuted, IsFor, NextFree;
    var first, second := Handle(reg, [h], Fate(1, false, false)), Handle(reg, [g, again], Fate(2, false, true));
    assert [h] + [] == [h];
    FirstSigned(reg, h, [], Fate(1, false, false));
    TwoSigned(reg, g, again);
    SecondDecides(first.recs, second.recs, g, h, again, p);
  }

  lemma SecondDecides(a: seq<AllocRecord>, q: seq<AllocRecord>, g: Signing, h: Signing, again: Signing,
                      p: seq<AllocRecord>)
    requires |a| == 1 && |q| == 2 && IsFor(a[0], h) && IsFor(q[0], g) && IsFor(q[1], again) && Permuted(p, a + q)
    requires g.name != h.name && again.name == h.name && again.number < h.number
    ensures h.name in Reconciled(a) && Reconciled(a)[h.name].ip == a[0].ip
    ensures h.name in Reconciled(p) && Reconciled(p)[h.name].ip == q[1].ip
  {
    hide Reconciled, FirstOf, Less;
    OnlyRecord(a, a[0]);
    SameMembers(p, a + q);
    assert q[1] in a + q && forall r | r in a + q :: r == a[0] || r == q[0] || r == q[1];
    HomeIs(p, h.name);
    EarlierNumber(q[1], a[0]);
  }

  lemma EarlierNumber(a: AllocRecord, b: AllocRecord)
    requires a.number < b.number
    ensures Less(a, b)
  {
  }

  /** Two new hosts in one saved run get the two least free addresses. */
  lemma TwoSigned(reg: Reg, g: Signing, h: Signing)
    requires g.name !in reg.hosts && h.name !in reg.hosts && g.name != h.name && g.sha != h.sha
    requires !KeyTaken(reg.hosts, g.sha) && !KeyTaken(reg.hosts, h.sha)
    requires RoomForTwo(reg)
    ensures var o := Handle(reg, [g, h], Fate(2, false, true));
      && Saved(reg, [g, h], Fate(2, false, true)) && |o.recs| == 2 && IsFor(o.recs[0], g) && IsFor(o.recs[1], h)
      && NextFree(reg.cidr, Assigned(reg.hosts)) == Some(o.recs[0].ip) && o.recs[1].ip != o.recs[0].ip
  {
    var ss, how := [g, h], Fate(2, false, true);
    NewSigned(reg, g);
    var mid := Sign(reg, g).reg;
    NewSigned(mid, h);
    assert ss[..0] == [] && ss[..1] == [g] && ss[..2] == ss && [g][..0] == [];
    assert LiveAfter(reg, []) == reg && LiveAfter(reg, [g]) == mid;
    hide Sign, NextFree;
    assert AllSign(reg, ss, 0) && AllSign(reg, ss, 1) && AllSign(reg, ss, 2);
    assert ReachedFrom(reg, ss, 2, 2) == 2 && ReachedFrom(reg, ss, 1, 2) == 2;
    assert Reached(reg, ss, how) == 2;
    EmittedIs(reg, ss, 2, 0);
    EmittedIs(reg, ss, 2, 1);
  }

  lemma NewSigned(reg: Reg, s: Signing)
    requires s.name !in reg.hosts && !KeyTaken(reg.hosts, s.sha) && !(Pool(reg.cidr) <= Assigned(reg.hosts))
    ensures Sign(reg, s).Signed? && NextFree(reg.cidr, Assigned(reg.hosts)) == Some(Sign(reg, s).rec.ip)
    ensures var r := Sign(reg, s);
      && r.reg.cidr == reg.cidr && r.reg.hosts.Keys == reg.hosts.Keys + {s.name}
      && Assigned(r.reg.hosts) == Assigned(reg.hosts) + {r.rec.ip}
      && r.rec.ip in Pool(reg.cidr) && r.rec.ip !in Assigned(reg.hosts)
      && (forall sha | sha != s.sha && !KeyTaken(reg.hosts, sha) :: !KeyTaken(r.reg.hosts, sha))
  {
    NextFreeIsLeast(reg.cidr, Assigned(reg.hosts));
    SignPuts(reg, s) by { assert Sign(reg, s).Signed?; }
    hide NextFree, Pool;
    var h, g := reg.hosts, Sign(reg, s).reg.hosts;
    assert forall n | n in h :: n in g && g[n] == h[n];
  }
}
