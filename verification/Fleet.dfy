/** Disk and registry together: signing jobs are checked, handled, collected,
    committed, killed or cut short; every power failure ends in a boot that
    reconciles the commit log and then rebuilds the registry from the committed
    allocation records. */
module Fleet {
  import opened Basics
  import opened Storage
  import opened JobDir
  import opened ResultsDir
  import opened CommitLog
  import B = Box
  import H = Histories
  import R = Registry
  import W = Rebuild
  import S = Stability
  import D = Handler

  /** The allocation records the boot scan finds among one committed job's files. */
  type Decoder = map<Name, Content> -> set<R.AllocRecord>

  /** The order in which the boot scan lists them. */
  type Listing = set<R.AllocRecord> -> seq<R.AllocRecord>

  ghost predicate ListsRecords(lr: Listing) {
    forall s: set<R.AllocRecord> :: multiset(lr(s)) == multiset(s)
  }

  lemma ListingsExist()
    ensures ListsRecords((s: set<R.AllocRecord>) => Enumerated(s))
  {
  }

  ghost function RecordsIn(log: Log, dec: Decoder): set<R.AllocRecord> {
    set j, r | j in log && r in dec(log[j].files) :: r
  }

  /** `book` is the committed records and `certs` the committed certificates, in
      commit order; the box stores neither list. */
  datatype State = State(disk: Dir, live: R.Reg, book: seq<R.AllocRecord>, certs: set<D.Certificate>)

  /** One event of the box: `hosts` is what the job asks to sign, `how` how its
      handler goes, `collected` whether its output directory passes the collection
      rules (otherwise the job is committed without outputs), `listing` the order
      the boot scan, if there is one, finds the records in. */
  datatype Event = Event(box: B.Event, hosts: seq<R.Signing>, how: D.Fate, collected: bool, listing: Listing)

  ghost predicate Taken(f: State, ev: Event) {
    !ev.box.IdleCut? && B.Check(f.disk, ev.box.ask).Fresh?
  }

  ghost function Handled(f: State, ev: Event): D.Handled {
    D.Handle(f.live, ev.hosts, ev.how)
  }

  ghost function Records(f: State, ev: Event): seq<R.AllocRecord> {
    if ev.collected then Handled(f, ev).recs else []
  }

  ghost function Certificates(f: State, ev: Event): set<D.Certificate> {
    if ev.collected then Handled(f, ev).certs else {}
  }

  ghost function Rebuilt(disk: Dir, cidr: R.Network, dec: Decoder, lr: Listing): R.Reg {
    R.Reg(cidr, W.Reconciled(lr(RecordsIn(LogOf(disk), dec))))
  }

  ghost function After(f: State, ev: Event, dec: Decoder): State {
    var disk := B.Step(f.disk, ev.box);
    var added := LogOf(disk) != LogOf(f.disk);
    var live := (
      if H.PowerFails(ev.box) then Rebuilt(disk, f.live.cidr, dec, ev.listing)
      else if Taken(f, ev) then Handled(f, ev).live
      else f.live);
    State(disk, live,
          f.book + (if added then Records(f, ev) else []),
          f.certs + (if added then Certificates(f, ev) else {}))
  }

  /** What the job hands to `commit` is what its handler wrote, or nothing. */
  ghost predicate Honest(f: State, ev: Event, dec: Decoder) {
    Taken(f, ev) ==> dec(RecordFor(ev.box.ask.request).files) == set r | r in Records(f, ev)
  }

  /** The events spoken of here: honest ones, other than a kill at the landing moment. */
  ghost predicate Regular(f: State, ev: Event, dec: Decoder) {
    B.Listed(ev.box) && ListsRecords(ev.listing) && Honest(f, ev, dec) && !H.Lands(f.disk, ev.box)
  }

  /** What every regular event keeps. */
  ghost predicate Invariant(f: State, dec: Decoder) {
    && Standing(f.disk)
    && (set r | r in f.book) == RecordsIn(LogOf(f.disk), dec)
    && (forall r | r in f.book :: r.ip in R.Pool(f.live.cidr) && D.CertificateOf(r) in f.certs)
    && R.InPool(f.live.hosts, f.live.cidr)
  }

  /** Every committed name is live where a boot would put it. */
  ghost predicate AddressesHeld(f: State) {
    D.Contained(f.book, f.live.hosts)
  }

  /** No two certificates name different hosts under one address, and no two live
      hosts share one. */
  ghost predicate NoneShared(f: State) {
    R.DistinctIps(f.live.hosts) && D.CertificatesApart(f.certs)
  }

  /** The one way to lose hold of a committed address with the power on: a job is
      committed with its records whose handler did not save the registry and had
      finished a host that was not in it. */
  ghost predicate Spoils(f: State, ev: Event) {
    && !H.PowerFails(ev.box) && H.Adds(f.disk, ev.box) && ev.collected && !D.Saved(f.live, ev.hosts, ev.how)
    && exists i :: 0 <= i < D.Reached(f.live, ev.hosts, ev.how) && ev.hosts[i].name !in f.live.hosts
  }

  /** The one way for a boot to move a committed host: a job is committed that
      signed it again, lost from the live registry, for another address, under a
      record that does not sort after the deciding one. */
  ghost predicate Moves(f: State, ev: Event) {
    H.Adds(f.disk, ev.box) && ev.collected && D.Moves(f.book, f.live, ev.hosts, ev.how)
  }

  /** The one way for two certificates to share an address: a job is committed that
      signed a host for the address of a certificate that does not hold it. */
  ghost predicate Collides(f: State, ev: Event) {
    && H.Adds(f.disk, ev.box) && ev.collected
    && exists i :: 0 <= i < D.Written(f.live, ev.hosts, ev.how) && D.TakesAt(f.certs, f.live, ev.hosts, i)
  }

  // ------------------------------------------------------------- the scan

  lemma RecordsGrow(log: Log, job: Name, rec: Record, dec: Decoder)
    requires job !in log
    ensures RecordsIn(log[job := rec], dec) == RecordsIn(log, dec) + dec(rec.files)
  {
    var next := log[job := rec];
    forall r | r in RecordsIn(log, dec)
      ensures r in RecordsIn(next, dec)
    {
      var j :| j in log && r in dec(log[j].files);
      assert j in next && next[j] == log[j];
    }
    forall r | r in dec(rec.files)
      ensures r in RecordsIn(next, dec)
    {
      assert job in next && next[job] == rec;
    }
    forall r | r in RecordsIn(next, dec)
      ensures r in RecordsIn(log, dec) + dec(rec.files)
    {
      var j :| j in next && r in dec(next[j].files);
      assert j == job || (j in log && log[j] == next[j]);
    }
  }

  lemma {:induction false} NoRepeats(book: seq<R.AllocRecord>)
    requires S.Rising(book)
    ensures multiset(book) == multiset(set r | r in book)
  {
    if book != [] {
      var init, x := book[..|book| - 1], book[|book| - 1];
      NoRepeats(init);
      assert book == init + [x];
      assert x !in init;
      assert (set r | r in book) == (set r | r in init) + {x};
    }
  }

  /** With rising numbers the boot rebuild is the replay of the commits in their
      order, field by field. */
  lemma RebuildIsReplay(disk: Dir, cidr: R.Network, book: seq<R.AllocRecord>, dec: Decoder, lr: Listing)
    requires S.Rising(book) && (set r | r in book) == RecordsIn(LogOf(disk), dec) && ListsRecords(lr)
    ensures Rebuilt(disk, cidr, dec, lr) == R.Reg(cidr, W.Replay(book))
  {
    hide LogOf, RecordsIn, S.Rising, W.Reconciled, W.Replay;
    NoRepeats(book);
    var s := RecordsIn(LogOf(disk), dec);
    assert W.Permuted(lr(s), book);
    S.RisingIsOrderFree(book, lr(s));
  }

  // ------------------------------------------------------------- one event

  /** The book follows the log. */
  lemma BookFollows(f: State, ev: Event, dec: Decoder)
    requires Invariant(f, dec) && Regular(f, ev, dec)
    ensures var g, adds := After(f, ev, dec), H.Adds(f.disk, ev.box);
      && Standing(g.disk) && (set r | r in g.book) == RecordsIn(LogOf(g.disk), dec)
      && (adds ==> Taken(f, ev))
      && g.book == (if adds then f.book + Records(f, ev) else f.book)
      && g.certs == (if adds then f.certs + Certificates(f, ev) else f.certs)
  {
    hide Standing, AtRest, LogOf, B.Step, Handled, RecordFor, RecordsIn, Taken, Rebuilt, R.InPool, Honest,
      H.Adds, H.Lands, H.Lags, Current, Records, Certificates;
    H.StepKeeps(f.disk, ev.box);
    H.AddsMeans(f.disk, ev.box);
    var disk := B.Step(f.disk, ev.box);
    if LogOf(disk) != LogOf(f.disk) {
      H.OnlyJobsAdd(LogOf(f.disk), ev.box, LogOf(disk));
      assert Taken(f, ev) by { Takes(f, ev); }
      NewEntry(f, ev, LogOf(disk), dec);
      SetOfBoth(f.book, Records(f, ev));
    } else {
      assert f.book + [] == f.book;
    }
  }

  lemma Takes(f: State, ev: Event)
    requires !ev.box.IdleCut? && B.Check(f.disk, ev.box.ask).Fresh?
    ensures Taken(f, ev)
  {
  }

  lemma SetOfBoth(a: seq<R.AllocRecord>, b: seq<R.AllocRecord>)
    ensures (set r | r in a + b) == (set r | r in a) + (set r | r in b)
  {
  }

  lemma NewEntry(f: State, ev: Event, after: Log, dec: Decoder)
    requires H.PutIfAbsent(LogOf(f.disk), ev.box, after) && after != LogOf(f.disk) && Honest(f, ev, dec) && Taken(f, ev)
    ensures RecordsIn(after, dec) == RecordsIn(LogOf(f.disk), dec) + (set r | r in Records(f, ev))
  {
    hide LogOf, RecordFor, RecordsIn, Handled, Records;
    var c := ev.box.ask.request;
    RecordsGrow(LogOf(f.disk), c.job, RecordFor(c), dec);
  }

  /** What an event makes of the book, the certificates and the live registry;
      after a power failure the registry is some scan's rebuild. */
  ghost predicate Moved(f: State, ev: Event, g: State) {
    var adds := H.Adds(f.disk, ev.box);
    && (adds ==> Taken(f, ev))
    && g.book == (if adds then f.book + Records(f, ev) else f.book)
    && g.certs == (if adds then f.certs + Certificates(f, ev) else f.certs)
    && g.live.cidr == f.live.cidr
    && (H.PowerFails(ev.box) ==> IsRebuilt(g))
    && (!H.PowerFails(ev.box) ==> g.live == if Taken(f, ev) then Handled(f, ev).live else f.live)
  }

  ghost predicate IsRebuilt(g: State) {
    exists p :: D.IsScan(p, g.book) && g.live.hosts == W.Reconciled(p)
  }

  lemma StepMoves(f: State, ev: Event, dec: Decoder)
    requires Invariant(f, dec) && Regular(f, ev, dec)
    ensures var g := After(f, ev, dec);
      Moved(f, ev, g) && (set r | r in g.book) == RecordsIn(LogOf(g.disk), dec) && Standing(g.disk)
  {
    hide Standing, LogOf, B.Step, RecordFor, RecordsIn, Taken, Handled, W.Reconciled, H.Adds, H.Lands, R.InPool, After,
      Honest, Records, Certificates, D.Handle;
    var g := After(f, ev, dec);
    BookFollows(f, ev, dec);
    AfterLive(f, ev, dec);
  }

  lemma AfterLive(f: State, ev: Event, dec: Decoder)
    requires ListsRecords(ev.listing)
    ensures var g := After(f, ev, dec);
      && g.live.cidr == f.live.cidr
      && (H.PowerFails(ev.box) ==>
            var s := RecordsIn(LogOf(g.disk), dec);
            multiset(ev.listing(s)) == multiset(s) && g.live.hosts == W.Reconciled(ev.listing(s)))
      && (!H.PowerFails(ev.box) ==> g.live == if Taken(f, ev) then Handled(f, ev).live else f.live)
  {
    hide LogOf, B.Step, Taken, RecordsIn, W.Reconciled, D.Saved, S.LiveAfter, Records, Certificates;
    D.HandledLive(f.live, ev.hosts, ev.how);
  }

  lemma InvariantKept(f: State, ev: Event, dec: Decoder, g: State)
    requires Invariant(f, dec) && Moved(f, ev, g)
    ensures forall r | r in g.book :: r.ip in R.Pool(g.live.cidr) && D.CertificateOf(r) in g.certs
    ensures R.InPool(g.live.hosts, g.live.cidr)
    ensures R.DistinctIps(f.live.hosts) && !H.PowerFails(ev.box) ==> R.DistinctIps(g.live.hosts)
  {
    hide Standing, LogOf, RecordsIn, Taken, W.Reconciled, H.Adds, R.Pool, R.DistinctIps, D.Handle;
    D.HandledLive(f.live, ev.hosts, ev.how);
    forall r | r in Handled(f, ev).recs
      ensures r.ip in R.Pool(f.live.cidr) && D.CertificateOf(r) in Handled(f, ev).certs
    {
      RecordIsGood(f, ev, r);
    }
    if H.PowerFails(ev.box) {
      var p :| D.IsScan(p, g.book) && g.live.hosts == W.Reconciled(p);
      D.ScanRestores(p, g.book);
    }
  }

  lemma RecordIsGood(f: State, ev: Event, r: R.AllocRecord)
    requires R.InPool(f.live.hosts, f.live.cidr) && r in Handled(f, ev).recs
    ensures r.ip in R.Pool(f.live.cidr) && D.CertificateOf(r) in Handled(f, ev).certs
  {
    hide D.Handle, R.Pool, D.SignedHosts, D.Reached;
    D.HandledLive(f.live, ev.hosts, ev.how);
    var i := D.HostOfRecord(f.live, ev.hosts, ev.how, r);
    D.RecordsCertified(f.live, ev.hosts, ev.how, r);
  }

  lemma HeldAfter(f: State, ev: Event, g: State)
    requires Moved(f, ev, g)
    ensures H.PowerFails(ev.box) && D.Settled(g.book) ==> AddressesHeld(g)
    ensures !H.PowerFails(ev.box) && AddressesHeld(f) ==> (AddressesHeld(g) <==> !Spoils(f, ev))
  {
    hide Taken, D.Handle, W.Reconciled, H.Adds, D.Reached, D.Saved, D.Settled;
    if H.PowerFails(ev.box) {
      var p :| D.IsScan(p, g.book) && g.live.hosts == W.Reconciled(p);
      D.ScanRestores(p, g.book);
    } else if AddressesHeld(f) {
      D.HandleContained(f.book, f.live, ev.hosts, ev.how);
      assert f.book + [] == f.book;
    }
  }

  lemma StaysAfter(f: State, ev: Event, g: State)
    requires Moved(f, ev, g) && D.Settled(f.book)
    ensures D.BootsKeep(f.book, g.book) <==> !Moves(f, ev)
    ensures D.HomesStay(f.book, g.book) <==> !Moves(f, ev)
    ensures AddressesHeld(f) ==> !Moves(f, ev)
  {
    hide Taken, D.Handle, W.Reconciled, H.Adds, D.Reached, D.Moves, D.Settled, D.BootsKeep, AddressesHeld;
    if H.Adds(f.disk, ev.box) && ev.collected {
      D.MovesExactly(f.book, f.live, ev.hosts, ev.how);
    } else {
      assert f.book + [] == f.book;
      D.HomesAreKept(f.book, f.book);
    }
    if AddressesHeld(f) { HeldNoMoves(f, ev); }
  }

  lemma HeldNoMoves(f: State, ev: Event)
    requires AddressesHeld(f)
    ensures !Moves(f, ev)
  {
    hide D.Handle, W.Reconciled, H.Adds, D.Reached, D.MovesAt;
    if Moves(f, ev) {
      var i :| 0 <= i < D.Reached(f.live, ev.hosts, ev.how) && D.MovesAt(f.book, f.live, ev.hosts, i);
      D.HeldNeverMoves(f.book, f.live, ev.hosts, ev.how, i);
    }
  }

  lemma SharedAfter(f: State, ev: Event, dec: Decoder, g: State)
    requires Invariant(f, dec) && Moved(f, ev, g) && NoneShared(f)
    ensures D.CertificatesApart(g.certs) <==> !Collides(f, ev)
    ensures NoneShared(g) <==> !Collides(f, ev)
  {
    hide Standing, LogOf, RecordsIn, Taken, D.Handle, W.Reconciled, H.Adds, R.DistinctIps, R.Pool, Collides,
      D.CertificatesApart;
    CertsAfter(f, ev, g);
    InvariantKept(f, ev, dec, g);
    if H.PowerFails(ev.box) && D.CertificatesApart(g.certs) { ScanApart(g); }
  }

  lemma CertsAfter(f: State, ev: Event, g: State)
    requires NoneShared(f) && g.certs == if H.Adds(f.disk, ev.box) then f.certs + Certificates(f, ev) else f.certs
    ensures D.CertificatesApart(g.certs) <==> !Collides(f, ev)
  {
    hide D.Handle, H.Adds, R.DistinctIps, D.TakesAt, D.CertificatesApart, D.Written;
    D.CertificatesCollide(f.certs, f.live, ev.hosts, ev.how);
    assert f.certs + {} == f.certs;
  }

  /** Certificates that are apart keep every rebuild apart. */
  lemma ScanApart(g: State)
    requires IsRebuilt(g) && D.CertificatesApart(g.certs) && forall r | r in g.book :: D.CertificateOf(r) in g.certs
    ensures R.DistinctIps(g.live.hosts)
  {
    hide W.Reconciled;
    var p :| D.IsScan(p, g.book) && g.live.hosts == W.Reconciled(p);
    D.ScanRestores(p, g.book);
    forall a, b | a in g.live.hosts && b in g.live.hosts && a != b
      ensures g.live.hosts[a].ip != g.live.hosts[b].ip
    {
      var r :| r in g.book && r.name == a && r.ip == g.live.hosts[a].ip;
      var q :| q in g.book && q.name == b && q.ip == g.live.hosts[b].ip;
      assert D.CertificateOf(r) in g.certs && D.CertificateOf(q) in g.certs;
    }
  }

  /** What one event keeps; what a boot repairs, whatever was lost before it; and
      exactly when hold of a committed address is lost, when a boot comes to put a
      committed host elsewhere, and when two certificates come to share an address. */
  lemma EventKeeps(f: State, ev: Event, dec: Decoder)
    requires Invariant(f, dec) && Regular(f, ev, dec)
    ensures var g := After(f, ev, dec);
      && Invariant(g, dec) && f.book <= g.book && f.certs <= g.certs && g.live.cidr == f.live.cidr
      && (H.PowerFails(ev.box) && D.Settled(g.book) ==> AddressesHeld(g))
      && (!H.PowerFails(ev.box) && AddressesHeld(f) ==> (AddressesHeld(g) <==> !Spoils(f, ev)))
      && (D.Settled(f.book) ==> (D.BootsKeep(f.book, g.book) <==> !Moves(f, ev)))
      && (D.Settled(f.book) ==> (D.HomesStay(f.book, g.book) <==> !Moves(f, ev)))
      && (D.Settled(f.book) && AddressesHeld(f) ==> !Moves(f, ev))
      && (NoneShared(f) ==> (D.CertificatesApart(g.certs) <==> !Collides(f, ev)))
      && (NoneShared(f) ==> (NoneShared(g) <==> !Collides(f, ev)))
  {
    hide Standing, LogOf, RecordFor, RecordsIn, Taken, Handled, Records, Certificates, W.Reconciled, Rebuilt, H.Adds,
      H.Lands, R.InPool, Spoils, Collides, Moves, After, AddressesHeld, NoneShared, D.Settled, D.HomesStay, D.BootsKeep,
      IsRebuilt;
    var g := After(f, ev, dec);
    StepMoves(f, ev, dec);
    InvariantKept(f, ev, dec, g);
    HeldAfter(f, ev, g);
    if D.Settled(f.book) { StaysAfter(f, ev, g); }
    if NoneShared(f) { SharedAfter(f, ev, dec, g); }
  }

  // ------------------------------------------------------------- whole histories

  ghost function Run(f: State, evs: seq<Event>, dec: Decoder): State {
    if evs == [] then f
    else After(Run(f, evs[..|evs| - 1], dec), evs[|evs| - 1], dec)
  }

  ghost predicate AllRegular(f: State, evs: seq<Event>, dec: Decoder) {
    forall k | 0 <= k < |evs| :: Regular(Run(f, evs[..k], dec), evs[k], dec)
  }

  ghost predicate NoneSpoils(f: State, evs: seq<Event>, dec: Decoder) {
    forall k | 0 <= k < |evs| :: !Spoils(Run(f, evs[..k], dec), evs[k])
  }

  ghost predicate NoneMoves(f: State, evs: seq<Event>, dec: Decoder) {
    forall k | 0 <= k < |evs| :: !Moves(Run(f, evs[..k], dec), evs[k])
  }

  ghost predicate NoneCollides(f: State, evs: seq<Event>, dec: Decoder) {
    forall k | 0 <= k < |evs| :: !Collides(Run(f, evs[..k], dec), evs[k])
  }

  lemma InitOf(f: State, evs: seq<Event>, dec: Decoder)
    requires evs != [] && AllRegular(f, evs, dec)
    ensures var init, ev := evs[..|evs| - 1], evs[|evs| - 1]; var b := Run(f, init, dec);
      && AllRegular(f, init, dec) && Regular(b, ev, dec)
      && (NoneSpoils(f, evs, dec) <==> NoneSpoils(f, init, dec) && !Spoils(b, ev))
      && (NoneMoves(f, evs, dec) <==> NoneMoves(f, init, dec) && !Moves(b, ev))
      && (NoneCollides(f, evs, dec) <==> NoneCollides(f, init, dec) && !Collides(b, ev))
  {
    hide Run, Regular, Spoils, Moves, Collides;
    var init := evs[..|evs| - 1];
    assert forall k | 0 <= k < |init| :: init[..k] == evs[..k] && init[k] == evs[k];
    assert evs[..|init|] == init;
  }

  /** Something was lost since the last boot, or that boot found unsettled records. */
  ghost predicate Spoilt(f: State, evs: seq<Event>, dec: Decoder) {
    evs != [] && var init, ev := evs[..|evs| - 1], evs[|evs| - 1];
    if H.PowerFails(ev.box) then !D.Settled(Run(f, evs, dec).book)
    else Spoils(Run(f, init, dec), ev) || Spoilt(f, init, dec)
  }

  /** Over every history: the invariant; and committed addresses are held unless
      something was lost since the last boot. */
  lemma {:induction false} RunKeeps(f: State, evs: seq<Event>, dec: Decoder)
    requires Invariant(f, dec) && AllRegular(f, evs, dec)
    ensures var g := Run(f, evs, dec);
      && Invariant(g, dec) && f.book <= g.book && f.certs <= g.certs && g.live.cidr == f.live.cidr
      && (AddressesHeld(f) && !Spoilt(f, evs, dec) ==> AddressesHeld(g))
    decreases |evs|
  {
    hide After, Invariant, AddressesHeld, Spoils, Moves, Regular, Collides, NoneShared, D.Settled, D.BootsKeep,
      D.HomesStay, D.CertificatesApart;
    if evs != [] {
      var init := evs[..|evs| - 1];
      InitOf(f, evs, dec);
      RunKeeps(f, init, dec);
      EventKeeps(Run(f, init, dec), evs[|evs| - 1], dec);
    }
  }

  /** Over every history: no two committed certificates share an address exactly
      when no event collides, for once two do they always will. */
  lemma {:induction false} SharedOnlyByCollision(f: State, evs: seq<Event>, dec: Decoder)
    requires Invariant(f, dec) && NoneShared(f) && AllRegular(f, evs, dec)
    ensures var g := Run(f, evs, dec);
      && (D.CertificatesApart(g.certs) <==> NoneCollides(f, evs, dec))
      && (NoneShared(g) <==> NoneCollides(f, evs, dec))
    decreases |evs|
  {
    hide After, Invariant, AddressesHeld, Spoils, Moves, Regular, Collides, R.DistinctIps, NoneCollides, NoneSpoils,
      NoneMoves, D.Settled, D.BootsKeep, D.HomesStay, D.CertificatesApart;
    if evs == [] {
      NoneYet(f, dec);
    } else {
      var init, ev := evs[..|evs| - 1], evs[|evs| - 1];
      InitOf(f, evs, dec);
      SharedOnlyByCollision(f, init, dec);
      RunKeeps(f, init, dec);
      var b := Run(f, init, dec);
      EventKeeps(b, ev, dec);
      if !NoneCollides(f, init, dec) { StaysShared(b.certs, Run(f, evs, dec).certs); }
    }
  }

  lemma NoneYet(f: State, dec: Decoder)
    ensures NoneSpoils(f, [], dec) && NoneMoves(f, [], dec) && NoneCollides(f, [], dec)
  {
  }

  lemma StaysShared(certs: set<D.Certificate>, more: set<D.Certificate>)
    requires certs <= more && !D.CertificatesApart(certs)
    ensures !D.CertificatesApart(more)
  {
  }

  // ------------------------------------------------------------- where boots put committed hosts

  /** After each event boots put the committed hosts where they did before it. */
  ghost predicate EachBootKeeps(f: State, evs: seq<Event>, dec: Decoder) {
    forall k | 0 <= k < |evs| :: D.BootsKeep(Run(f, evs[..k], dec).book, Run(f, evs[..k + 1], dec).book)
  }

  /** Every power failure ends with the committed hosts of `f` live where a boot of
      `f` would have put them. */
  ghost predicate LiveAtHome(f: State, evs: seq<Event>, dec: Decoder) {
    forall k | 0 <= k < |evs| && H.PowerFails(evs[k].box) :: D.Contained(f.book, Run(f, evs[..k + 1], dec).live.hosts)
  }

  /** Where boots put the committed hosts is the same after every event, whatever
      is spoilt in between, exactly when no event moves one; and then each power
      failure of the history ends with all of them live there. */
  lemma {:induction false} CommittedAddressesStay(f: State, evs: seq<Event>, dec: Decoder)
    requires Invariant(f, dec) && AllRegular(f, evs, dec) && D.Settled(f.book)
    ensures EachBootKeeps(f, evs, dec) <==> NoneMoves(f, evs, dec)
    ensures NoneMoves(f, evs, dec) ==> D.HomesStay(f.book, Run(f, evs, dec).book) && LiveAtHome(f, evs, dec)
    decreases |evs|
  {
    hide After, Invariant, AddressesHeld, Spoils, Moves, Regular, Collides, NoneShared, NoneCollides, NoneSpoils,
      NoneMoves, D.Settled, D.BootsKeep, D.HomesStay, D.CertificatesApart, EachBootKeeps, LiveAtHome;
    if evs == [] {
      NoneYet(f, dec);
      NothingBooted(f, dec);
    } else {
      var init, ev := evs[..|evs| - 1], evs[|evs| - 1];
      InitOf(f, evs, dec);
      CommittedAddressesStay(f, init, dec);
      RunKeeps(f, init, dec);
      var b := Run(f, init, dec);
      EventKeeps(b, ev, dec);
      LastBoot(f, evs, dec);
      if NoneMoves(f, init, dec) {
        HomesSettle(f.book, b.book);
        if !Moves(b, ev) { HomesGo(f, ev, b, Run(f, evs, dec)); }
      }
    }
  }

  lemma NothingBooted(f: State, dec: Decoder)
    requires D.Settled(f.book)
    ensures EachBootKeeps(f, [], dec) && LiveAtHome(f, [], dec) && D.HomesStay(f.book, f.book)
  {
    hide W.Reconciled, D.Settled, D.BootsKeep, D.Contained;
  }

  lemma LastBoot(f: State, evs: seq<Event>, dec: Decoder)
    requires evs != []
    ensures var init, ev := evs[..|evs| - 1], evs[|evs| - 1]; var b, g := Run(f, init, dec), Run(f, evs, dec);
      && (EachBootKeeps(f, evs, dec) <==> EachBootKeeps(f, init, dec) && D.BootsKeep(b.book, g.book))
      && (LiveAtHome(f, evs, dec) <==>
            LiveAtHome(f, init, dec) && (H.PowerFails(ev.box) ==> D.Contained(f.book, g.live.hosts)))
  {
    hide Run, D.BootsKeep, D.Contained;
    var init := evs[..|evs| - 1];
    assert forall k | 0 <= k <= |init| :: init[..k] == evs[..k];
    assert forall k | 0 <= k < |init| :: init[k] == evs[k];
    assert evs[..|init|] == init && evs[..|evs|] == evs;
  }

  lemma HomesSettle(log: seq<R.AllocRecord>, more: seq<R.AllocRecord>)
    requires D.HomesStay(log, more)
    ensures D.Settled(more)
  {
  }

  lemma HomesGo(f: State, ev: Event, b: State, g: State)
    requires D.HomesStay(f.book, b.book) && D.HomesStay(b.book, g.book)
    requires H.PowerFails(ev.box) && D.Settled(g.book) ==> AddressesHeld(g)
    ensures D.HomesStay(f.book, g.book)
    ensures H.PowerFails(ev.box) ==> D.Contained(f.book, g.live.hosts)
  {
    hide W.Reconciled, D.Settled;
  }

  /** Over any interleaving of signing, committing, kills, power cuts and rebuilds
      in which no event spoils: every committed name is live where boots put it, no
      two hosts share an address, and a name once committed keeps its address for
      ever. Nothing is asked of the numbers, the seq file or the scans. */
  lemma {:induction false} AddressesAreStable(f: State, evs: seq<Event>, dec: Decoder)
    requires Invariant(f, dec) && AddressesHeld(f) && D.Settled(f.book) && R.DistinctIps(f.live.hosts)
    requires AllRegular(f, evs, dec) && NoneSpoils(f, evs, dec)
    ensures var g := Run(f, evs, dec);
      && AddressesHeld(g) && R.DistinctIps(g.live.hosts) && NoneMoves(f, evs, dec)
      && (forall n | n in W.Reconciled(f.book) ::
            n in f.live.hosts && n in g.live.hosts && g.live.hosts[n].ip == f.live.hosts[n].ip)
  {
    hide Run, AllRegular, NoneSpoils, NoneMoves, Invariant, W.Reconciled, D.Settled, R.DistinctIps, LiveAtHome,
      EachBootKeeps;
    NothingMoves(f, evs, dec);
    CommittedAddressesStay(f, evs, dec);
  }

  lemma {:induction false} NothingMoves(f: State, evs: seq<Event>, dec: Decoder)
    requires Invariant(f, dec) && AddressesHeld(f) && D.Settled(f.book) && R.DistinctIps(f.live.hosts)
    requires AllRegular(f, evs, dec) && NoneSpoils(f, evs, dec)
    ensures var g := Run(f, evs, dec);
      && NoneMoves(f, evs, dec) && AddressesHeld(g) && D.Settled(g.book) && R.DistinctIps(g.live.hosts)
    decreases |evs|
  {
    hide After, Invariant, AddressesHeld, Spoils, Moves, Regular, Collides, NoneShared, NoneCollides, NoneSpoils,
      NoneMoves, D.Settled, D.BootsKeep, D.HomesStay, D.CertificatesApart, R.DistinctIps;
    if evs == [] {
      NoneYet(f, dec);
    } else {
      var init, ev := evs[..|evs| - 1], evs[|evs| - 1];
      InitOf(f, evs, dec);
      NothingMoves(f, init, dec);
      RunKeeps(f, init, dec);
      var b, g := Run(f, init, dec), Run(f, evs, dec);
      EventKeeps(b, ev, dec);
      HomesSettle(b.book, g.book);
      StepMoves(b, ev, dec);
      InvariantKept(b, ev, dec, g);
      if H.PowerFails(ev.box) { RebuiltApart(b, ev, g); }
    }
  }

  /** What is held and apart is rebuilt apart. */
  lemma RebuiltApart(f: State, ev: Event, g: State)
    requires Moved(f, ev, g) && AddressesHeld(f) && AddressesHeld(g) && R.DistinctIps(f.live.hosts)
    requires H.PowerFails(ev.box)
    ensures R.DistinctIps(g.live.hosts)
  {
    hide Taken, D.Handle, W.Reconciled, H.Adds;
    var p :| D.IsScan(p, g.book) && g.live.hosts == W.Reconciled(p);
    D.ScanRestores(p, g.book);
    assert f.book + [] == f.book;
    D.HomesApart(f.book, f.live, ev.hosts, ev.how);
  }

  // ------------------------------------------------------------- numbers

  /** A job numbers its signings `job_seq * 1000 + index`, and no more than 64
      outputs of it are collected. */
  ghost predicate IsNumbered(f: State, ev: Event) {
    Taken(f, ev) ==>
      && |Records(f, ev)| <= 64
      && forall i | 0 <= i < |ev.hosts| :: ev.hosts[i].number == ev.box.ask.request.number * 1000 + i
  }

  ghost predicate AllNumbered(f: State, evs: seq<Event>, dec: Decoder) {
    forall k | 0 <= k < |evs| :: IsNumbered(Run(f, evs[..k], dec), evs[k])
  }

  /** Every record's number belongs to a committed job, or to none above it. */
  ghost predicate Numbered(book: seq<R.AllocRecord>, log: Log) {
    forall r | r in book :: exists j :: j in log && r.number < (log[j].number + 1) * 1000
  }

  lemma OlderNumbered(book: seq<R.AllocRecord>, log: Log, job: Name, rec: Record)
    requires Numbered(book, log) && job !in log
    ensures Numbered(book, log[job := rec])
  {
    var after := log[job := rec];
    forall r | r in book
      ensures exists j :: j in after && r.number < (after[j].number + 1) * 1000
    {
      var j :| j in log && r.number < (log[j].number + 1) * 1000;
      assert j in after && after[j] == log[j];
    }
  }

  lemma RecordsNumbered(f: State, ev: Event)
    requires Taken(f, ev) && IsNumbered(f, ev)
    ensures forall r | r in Records(f, ev) :: r.number < (ev.box.ask.request.number + 1) * 1000
  {
    hide D.Handle, D.Reached, D.SignedHosts, D.IsFor, B.Check;
    forall r | r in Records(f, ev)
      ensures r.number < (ev.box.ask.request.number + 1) * 1000
    {
      var i := D.HostOfRecord(f.live, ev.hosts, ev.how, r);
      RecordNumber(f, ev, i);
    }
  }

  lemma RecordNumber(f: State, ev: Event, i: nat)
    requires i < D.Reached(f.live, ev.hosts, ev.how)
    ensures i < |Handled(f, ev).recs| && Handled(f, ev).recs[i].number == ev.hosts[i].number
  {
    hide D.Handle, D.Reached, D.SignedHosts;
    D.RecordOfHost(f.live, ev.hosts, ev.how, i);
  }

  lemma StaysNumbered(f: State, ev: Event, dec: Decoder)
    requires Invariant(f, dec) && Regular(f, ev, dec) && IsNumbered(f, ev) && Numbered(f.book, LogOf(f.disk))
    ensures Numbered(After(f, ev, dec).book, LogOf(After(f, ev, dec).disk))
  {
    hide Standing, LogOf, B.Step, RecordsIn, Taken, Rebuilt, Handled, Records, Certificates, R.InPool, Honest, H.Adds,
      H.Lands, H.Lags, H.CatchesUp, Current, AtRest, Numbered, IsNumbered, RecordFor;
    H.StepKeeps(f.disk, ev.box);
    H.AddsMeans(f.disk, ev.box);
    BookFollows(f, ev, dec);
    if H.Adds(f.disk, ev.box) {
      H.OnlyJobsAdd(LogOf(f.disk), ev.box, LogOf(B.Step(f.disk, ev.box)));
      var c := ev.box.ask.request;
      OlderNumbered(f.book, LogOf(f.disk), c.job, RecordFor(c));
      RecordsNumbered(f, ev);
      NewNumbered(f.book, Records(f, ev), LogOf(f.disk), c);
    }
  }

  lemma NewNumbered(book: seq<R.AllocRecord>, recs: seq<R.AllocRecord>, log: Log, c: Request)
    requires Numbered(book, log[c.job := RecordFor(c)])
    requires forall r | r in recs :: r.number < (c.number + 1) * 1000
    ensures Numbered(book + recs, log[c.job := RecordFor(c)])
  {
    H.NumberOf(c);
    hide RecordFor;
    var after := log[c.job := RecordFor(c)];
    assert c.job in after && after[c.job].number == c.number;
  }

  /** The records of a job numbered above every committed one are, too. */
  lemma NumbersRise(f: State, ev: Event)
    requires Taken(f, ev) && IsNumbered(f, ev) && Numbered(f.book, LogOf(f.disk))
    requires H.Above(LogOf(f.disk), ev.box.ask.request.number)
    ensures S.RisingNumbers(ev.hosts)
    ensures forall s, r | s in ev.hosts && r in f.book :: r.number < s.number
  {
    hide LogOf, Handled, B.Check;
    var number, log := ev.box.ask.request.number, LogOf(f.disk);
    forall s, r | s in ev.hosts && r in f.book
      ensures r.number < s.number
    {
      var j :| j in log && r.number < (log[j].number + 1) * 1000;
      assert log[j].number + 1 <= number;
    }
  }

  /** Some host of the job is committed and not live where boots put it. */
  ghost predicate IsLost(f: State, ev: Event) {
    exists i :: 0 <= i < |ev.hosts| && var n := ev.hosts[i].name;
      n in W.Reconciled(f.book) && !(n in f.live.hosts && f.live.hosts[n].ip == W.Reconciled(f.book)[n].ip)
  }

  /** A job that moves a committed host has found a seq file that had fallen
      behind, and a host that is not live at home. */
  lemma MovesIfStale(f: State, ev: Event, dec: Decoder)
    requires Invariant(f, dec) && Regular(f, ev, dec) && IsNumbered(f, ev) && Numbered(f.book, LogOf(f.disk))
    requires Moves(f, ev)
    ensures !Current(f.disk)
    ensures IsLost(f, ev)
  {
    hide Invariant, LogOf, Current, H.Adds, D.MovesAt, D.Reached, W.Reconciled, Numbered, IsNumbered, Taken;
    var i :| 0 <= i < D.Reached(f.live, ev.hosts, ev.how) && D.MovesAt(f.book, f.live, ev.hosts, i);
    D.HeldNeverMoves(f.book, f.live, ev.hosts, ev.how, i);
    if Current(f.disk) {
      BookFollows(f, ev, dec);
      TakenIsAbove(f, ev);
      NumbersRise(f, ev);
      NewerStays(f.book, f.live, ev.hosts, i);
      assert false;
    }
  }

  lemma TakenIsAbove(f: State, ev: Event)
    requires Taken(f, ev) && Current(f.disk)
    ensures H.Above(LogOf(f.disk), ev.box.ask.request.number)
  {
    H.FreshIsAbove(f.disk, ev.box.ask);
  }

  lemma NewerStays(book: seq<R.AllocRecord>, reg: R.Reg, ss: seq<R.Signing>, i: nat)
    requires i < |ss| && forall r | r in book :: r.number < ss[i].number
    ensures !D.MovesAt(book, reg, ss, i)
  {
    hide W.Reconciled, W.FirstOf, D.AddressFor;
    D.HomeIs(book, ss[i].name);
  }

  function Boxes(evs: seq<Event>): seq<B.Event> {
    seq(|evs|, i requires 0 <= i < |evs| => evs[i].box)
  }

  /** The disk of the fleet is the box's own run, whatever the handlers do; so the
      seq file a job finds is up to date exactly when it is not presented behind a
      lagging kill. */
  lemma DiskRuns(f: State, evs: seq<Event>, dec: Decoder)
    requires Standing(f.disk) && AllRegular(f, evs, dec)
    ensures Run(f, evs, dec).disk == B.Run(f.disk, Boxes(evs))
    ensures H.AllListed(Boxes(evs)) && H.NoneLands(f.disk, Boxes(evs))
    ensures Current(f.disk) ==> (Current(Run(f, evs, dec).disk) <==> !H.Behind(f.disk, Boxes(evs)))
  {
    hide *;
    BoxesRun(f, evs, dec);
    H.RunStands(f.disk, Boxes(evs));
  }

  lemma {:induction false} BoxesRun(f: State, evs: seq<Event>, dec: Decoder)
    requires AllRegular(f, evs, dec)
    ensures Run(f, evs, dec).disk == B.Run(f.disk, Boxes(evs))
    ensures H.AllListed(Boxes(evs)) && H.NoneLands(f.disk, Boxes(evs))
    decreases |evs|
  {
    hide Standing, B.Step, LogOf, Handled, Records, Certificates, Rebuilt, Taken, Regular, AllRegular, Spoils, Moves,
      Collides, NoneSpoils, NoneMoves, NoneCollides, H.AllListed, H.NoneLands;
    if evs == [] {
      NoBoxes(f.disk);
    } else {
      var init, ev := evs[..|evs| - 1], evs[|evs| - 1];
      InitOf(f, evs, dec);
      BoxesRun(f, init, dec);
      assert Boxes(evs) == Boxes(init) + [ev.box];
      assert Boxes(evs)[..|evs| - 1] == Boxes(init);
      OneMoreBox(f.disk, Boxes(init), ev, Run(f, init, dec), dec);
    }
  }

  lemma NoBoxes(d: Dir)
    ensures Boxes([]) == [] && H.AllListed([]) && H.NoneLands(d, [])
  {
  }

  lemma OneMoreBox(d: Dir, es: seq<B.Event>, ev: Event, b: State, dec: Decoder)
    requires H.AllListed(es) && H.NoneLands(d, es) && b.disk == B.Run(d, es) && Regular(b, ev, dec)
    ensures H.AllListed(es + [ev.box]) && H.NoneLands(d, es + [ev.box])
  {
    hide H.Lands, B.Run, Honest, B.Listed;
    var more := es + [ev.box];
    assert forall k | 0 <= k < |es| :: more[..k] == es[..k] && more[k] == es[k];
    assert more[..|es|] == es;
  }

  lemma NumberedInit(f: State, evs: seq<Event>, dec: Decoder)
    requires evs != [] && AllNumbered(f, evs, dec)
    ensures var init, ev := evs[..|evs| - 1], evs[|evs| - 1];
      AllNumbered(f, init, dec) && IsNumbered(Run(f, init, dec), ev)
  {
    hide Run, IsNumbered;
    var init := evs[..|evs| - 1];
    assert forall k | 0 <= k < |init| :: init[..k] == evs[..k] && init[k] == evs[k];
    assert evs[..|init|] == init;
  }

  lemma {:induction false} RunNumbered(f: State, evs: seq<Event>, dec: Decoder)
    requires Invariant(f, dec) && AllRegular(f, evs, dec) && AllNumbered(f, evs, dec) && Numbered(f.book, LogOf(f.disk))
    ensures Numbered(Run(f, evs, dec).book, LogOf(Run(f, evs, dec).disk))
    decreases |evs|
  {
    hide After, Invariant, AddressesHeld, Regular, IsNumbered, Numbered, LogOf, Spoils, Moves, Collides, Spoilt;
    if evs != [] {
      var init, ev := evs[..|evs| - 1], evs[|evs| - 1];
      InitOf(f, evs, dec);
      NumberedInit(f, evs, dec);
      RunNumbered(f, init, dec);
      RunKeeps(f, init, dec);
      StaysNumbered(Run(f, init, dec), ev, dec);
    }
  }

  /** A committed host moves only by a job presented behind a lagging kill, which
      signs again a host that is not live at home. */
  lemma MovesOnlyBehind(f: State, evs: seq<Event>, ev: Event, dec: Decoder)
    requires Invariant(f, dec) && Current(f.disk) && Numbered(f.book, LogOf(f.disk))
    requires AllRegular(f, evs, dec) && AllNumbered(f, evs, dec)
    requires var b := Run(f, evs, dec); Regular(b, ev, dec) && IsNumbered(b, ev) && Moves(b, ev)
    ensures H.Behind(f.disk, Boxes(evs))
    ensures IsLost(Run(f, evs, dec), ev)
  {
    hide Run, Invariant, LogOf, Current, Regular, AllRegular, AllNumbered, Numbered, IsNumbered, Moves, H.Behind,
      Spoilt, AddressesHeld, Boxes;
    RunNumbered(f, evs, dec);
    RunKeeps(f, evs, dec);
    DiskRuns(f, evs, dec) by { InvariantStands(f, dec); }
    MovesIfStale(Run(f, evs, dec), ev, dec);
  }

  lemma InvariantStands(f: State, dec: Decoder)
    requires Invariant(f, dec)
    ensures Standing(f.disk)
  {
  }

  /** Over every history in which a job added behind a lagging kill is numbered
      above all before it, records are committed in the order of their numbers, and
      each boot rebuilds the replay of the commits, field by field. */
  lemma {:induction false} InCommitOrder(f: State, evs: seq<Event>, dec: Decoder)
    requires Invariant(f, dec) && Current(f.disk) && Numbered(f.book, LogOf(f.disk)) && S.Rising(f.book)
    requires AllRegular(f, evs, dec) && AllNumbered(f, evs, dec) && H.InOrder(f.disk, Boxes(evs))
    ensures var g := Run(f, evs, dec);
      && S.Rising(g.book)
      && (evs != [] && H.PowerFails(evs[|evs| - 1].box) ==> g.live == R.Reg(f.live.cidr, W.Replay(g.book)))
    decreases |evs|
  {
    hide *;
    if evs == [] {
      NothingRun(f, dec);
    } else {
      var init, ev := evs[..|evs| - 1], evs[|evs| - 1];
      InitOf(f, evs, dec);
      NumberedInit(f, evs, dec);
      LastInOrder(f, evs, dec);
      InCommitOrder(f, init, dec);
      RunNumbered(f, init, dec);
      RunKeeps(f, init, dec);
      DiskRuns(f, init, dec) by { InvariantStands(f, dec); }
      OneInOrder(f, init, ev, Run(f, init, dec), dec);
      RunLast(f, evs, dec);
    }
  }

  lemma NothingRun(f: State, dec: Decoder)
    ensures Run(f, [], dec) == f
  {
  }

  lemma RunLast(f: State, evs: seq<Event>, dec: Decoder)
    requires evs != []
    ensures Run(f, evs, dec) == After(Run(f, evs[..|evs| - 1], dec), evs[|evs| - 1], dec)
  {
    hide After;
  }

  lemma LastInOrder(f: State, evs: seq<Event>, dec: Decoder)
    requires Invariant(f, dec) && AllRegular(f, evs, dec) && evs != [] && H.InOrder(f.disk, Boxes(evs))
    ensures var init, ev := evs[..|evs| - 1], evs[|evs| - 1];
      H.InOrder(f.disk, Boxes(init)) && H.InOrderAt(f.disk, Boxes(init), ev.box)
  {
    hide Invariant, AllRegular, H.InOrder, H.InOrderAt, H.AllListed, H.NoneLands, Run, B.Run, H.Behind, Current;
    DiskRuns(f, evs, dec) by { InvariantStands(f, dec); }
    H.InitOf(f.disk, Boxes(evs));
    assert Boxes(evs)[..|evs| - 1] == Boxes(evs[..|evs| - 1]);
  }

  lemma OneInOrder(f: State, init: seq<Event>, ev: Event, b: State, dec: Decoder)
    requires Invariant(b, dec) && Regular(b, ev, dec) && IsNumbered(b, ev) && Numbered(b.book, LogOf(b.disk))
    requires S.Rising(b.book) && b.live.cidr == f.live.cidr && b.disk == B.Run(f.disk, Boxes(init))
    requires !Current(b.disk) ==> H.Behind(f.disk, Boxes(init))
    requires H.InOrderAt(f.disk, Boxes(init), ev.box)
    ensures var g := After(b, ev, dec);
      && S.Rising(g.book)
      && (H.PowerFails(ev.box) ==> g.live == R.Reg(f.live.cidr, W.Replay(g.book)))
  {
    hide Invariant, Regular, IsNumbered, Numbered, LogOf, S.Rising, Current, H.Behind, H.Adds, W.Replay, Standing,
      Rebuilt, RecordsIn, B.Run, B.Step, Boxes, Taken, Handled, Records, Certificates, H.Above;
    var g := After(b, ev, dec);
    BookFollows(b, ev, dec);
    if H.Adds(b.disk, ev.box) {
      if Current(b.disk) { TakenIsAbove(b, ev); } else { TakenAsks(b, ev); }
      NumbersRise(b, ev);
      RecordsRise(b, ev);
    }
    RegularLists(b, ev, dec);
    if H.PowerFails(ev.box) { RebuildIsReplay(g.disk, b.live.cidr, g.book, dec, ev.listing); }
  }

  lemma TakenAsks(f: State, ev: Event)
    requires Taken(f, ev)
    ensures !ev.box.IdleCut?
  {
  }

  lemma RegularLists(f: State, ev: Event, dec: Decoder)
    requires Regular(f, ev, dec)
    ensures ListsRecords(ev.listing)
  {
  }

  lemma RecordsRise(f: State, ev: Event)
    requires S.Rising(f.book) && S.RisingNumbers(ev.hosts)
    requires forall s, r | s in ev.hosts && r in f.book :: r.number < s.number
    ensures S.Rising(f.book + Records(f, ev))
  {
    hide S.Rising, S.RisingNumbers, D.Handle;
    D.HandledRises(f.book, f.live, ev.hosts, ev.how);
    assert f.book + [] == f.book;
  }

  /** A box at rest with nothing committed and an empty registry is a start. */
  lemma EmptyIsAStart(d: Dir, cidr: R.Network, dec: Decoder)
    requires AtRest(d) && LogOf(d) == map[]
    ensures var f := State(d, R.Reg(cidr, map[]), [], {});
      && Invariant(f, dec) && AddressesHeld(f) && NoneShared(f) && D.Settled(f.book)
      && Current(d) && Numbered(f.book, LogOf(d)) && S.Rising(f.book)
  {
    RestStands(d);
    hide AtRest, Standing, LogOf;
    var none: seq<R.AllocRecord> := [];
    assert (set r | r in none) == {} && RecordsIn(map[], dec) == {};
    assert W.Replay(none) == map[];
  }
}
