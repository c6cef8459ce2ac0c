/** The registry over whole histories of signings: what they keep, and that the
    rebuild of their allocation records is the registry they made. */
module Stability {
  import opened Basics
  import opened Registry
  import opened Rebuild

  // ------------------------------------------------------------- rebuild equals live state

  /** The registry after a list of signings; one that raises changes nothing. */
  function LiveAfter(reg: Reg, ss: seq<Signing>): Reg {
    if ss == [] then reg
    else
      var r := LiveAfter(reg, ss[..|ss| - 1]);
      var o := Sign(r, ss[|ss| - 1]);
      if o.Signed? then o.reg else r
  }

  /** ... and the allocation records it emitted. */
  function Emitted(reg: Reg, ss: seq<Signing>): seq<AllocRecord> {
    if ss == [] then []
    else
      var o := Sign(LiveAfter(reg, ss[..|ss| - 1]), ss[|ss| - 1]);
      Emitted(reg, ss[..|ss| - 1]) + (if o.Signed? then [o.rec] else [])
  }

  ghost predicate Rising(recs: seq<AllocRecord>) {
    forall i, j | 0 <= i < j < |recs| :: recs[i].number < recs[j].number
  }

  ghost predicate RisingNumbers(ss: seq<Signing>) {
    forall i, j | 0 <= i < j < |ss| :: ss[i].number < ss[j].number
  }

  /** A successful signing is one step of the replay. */
  lemma SignIsPut(reg: Reg, s: Signing)
    requires Sign(reg, s).Signed?
    ensures Sign(reg, s).reg == Reg(reg.cidr, Put(reg.hosts, Sign(reg, s).rec))
    ensures var rec := Sign(reg, s).rec; rec.name == s.name && rec.number == s.number
  {
    SignPuts(reg, s);
    AllocateGives(reg, s.name, s.sha, None, NoHint);
  }

  lemma {:induction false} LiveIsReplay(reg: Reg, log: seq<AllocRecord>, ss: seq<Signing>)
    requires reg.hosts == Replay(log)
    ensures LiveAfter(reg, ss) == Reg(reg.cidr, Replay(log + Emitted(reg, ss)))
  {
    if ss == [] {
      assert log + [] == log;
    } else {
      LiveIsReplay(reg, log, ss[..|ss| - 1]);
      var mid, o := log + Emitted(reg, ss[..|ss| - 1]), Sign(LiveAfter(reg, ss[..|ss| - 1]), ss[|ss| - 1]);
      if o.Signed? {
        SignIsPut(LiveAfter(reg, ss[..|ss| - 1]), ss[|ss| - 1]);
        assert log + Emitted(reg, ss) == mid + [o.rec];
        assert (mid + [o.rec])[..|mid|] == mid;
      } else {
        assert log + Emitted(reg, ss) == mid;
      }
    }
  }

  lemma {:induction false} EmittedNumbers(reg: Reg, ss: seq<Signing>)
    ensures forall r | r in Emitted(reg, ss) :: exists s :: s in ss && s.number == r.number
  {
    if ss != [] {
      var init, s := ss[..|ss| - 1], ss[|ss| - 1];
      EmittedNumbers(reg, init);
      assert ss == init + [s];
      if Sign(LiveAfter(reg, init), s).Signed? { SignIsPut(LiveAfter(reg, init), s); }
      hide Sign, LiveAfter;
      forall r | r in Emitted(reg, ss)
        ensures exists t :: t in ss && t.number == r.number
      {
        if r in Emitted(reg, init) {
          var t :| t in init && t.number == r.number;
          assert t in ss;
        } else {
          assert s in ss;
        }
      }
    }
  }

  lemma {:induction false} EmittedRises(reg: Reg, ss: seq<Signing>)
    requires RisingNumbers(ss)
    ensures Rising(Emitted(reg, ss))
  {
    if ss != [] {
      var init, s := ss[..|ss| - 1], ss[|ss| - 1];
      EmittedRises(reg, init);
      EmittedNumbers(reg, init);
      var o := Sign(LiveAfter(reg, init), s);
      hide Sign;
      assert ss == init + [s];
      if o.Signed? {
        assert o.rec.number == s.number by { SignIsPut(LiveAfter(reg, init), s); }
        forall r | r in Emitted(reg, init)
          ensures r.number < s.number
        {
          var t :| t in init && t.number == r.number;
        }
      }
    }
  }

  /** Strictly rising numbers leave no ties, so the listing order cannot matter. */
  lemma RisingIsOrderFree(recs: seq<AllocRecord>, p: seq<AllocRecord>)
    requires Rising(recs) && Permuted(p, recs)
    ensures Reconciled(p) == Replay(recs)
  {
    hide Reconciled, Replay;
    forall n
      ensures LeastAgree(recs, n) && GreatestAgree(recs, n)
    {
      forall a, b | a in recs && b in recs && !Less(a, b) && !Less(b, a)
        ensures a == b
      {
        Trichotomy(a, b);
      }
      forall a, b | IsGreatest(recs, n, a) && IsGreatest(recs, n, b)
        ensures a == b
      {
      }
    }
    OrderFree(recs);
    RisingIsSorted(recs);
  }

  lemma RisingIsSorted(recs: seq<AllocRecord>)
    requires Rising(recs)
    ensures Reconciled(recs) == Replay(recs)
  {
    assert IsSorted(recs);
    AlreadySorted(recs);
  }

  /** From an empty registry, any history of signings with rising numbers: the
      rebuild of its records, listed in any order, is the live registry, field by
      field, re-keys included. */
  lemma RebuildIsLive(cidr: Network, ss: seq<Signing>, p: seq<AllocRecord>)
    requires RisingNumbers(ss) && Permuted(p, Emitted(Reg(cidr, map[]), ss))
    ensures LiveAfter(Reg(cidr, map[]), ss) == Reg(cidr, Reconciled(p))
  {
    var reg := Reg(cidr, map[]);
    hide Emitted, LiveAfter, Reconciled;
    assert Replay([]) == map[];
    LiveIsReplay(reg, [], ss);
    EmittedRises(reg, ss);
    RisingIsOrderFree(Emitted(reg, ss), p);
    assert [] + Emitted(reg, ss) == Emitted(reg, ss);
  }

  // ------------------------------------------------------------- what signing keeps

  lemma {:induction false} LiveKeeps(reg: Reg, ss: seq<Signing>)
    ensures var r := LiveAfter(reg, ss);
      && r.cidr == reg.cidr
      && (forall n | n in reg.hosts :: n in r.hosts && r.hosts[n].ip == reg.hosts[n].ip)
      && (DistinctIps(reg.hosts) ==> DistinctIps(r.hosts))
      && (InPool(reg.hosts, reg.cidr) ==> InPool(r.hosts, r.cidr))
  {
    if ss != [] {
      var mid := LiveAfter(reg, ss[..|ss| - 1]);
      LiveKeeps(reg, ss[..|ss| - 1]);
      if Sign(mid, ss[|ss| - 1]).Signed? { SignKeeps(mid, ss[|ss| - 1]); }
      hide Sign;
    }
  }

  /** Each record says where its host is in the registry being built. */
  lemma {:induction false} EmittedAreLive(reg: Reg, ss: seq<Signing>)
    ensures var r := LiveAfter(reg, ss);
      forall e | e in Emitted(reg, ss) :: e.name in r.hosts && r.hosts[e.name].ip == e.ip
  {
    if ss != [] {
      var init := ss[..|ss| - 1];
      var mid, s := LiveAfter(reg, init), ss[|ss| - 1];
      EmittedAreLive(reg, init);
      if Sign(mid, s).Signed? { SignKeeps(mid, s); SignPuts(mid, s); }
      hide Sign;
    }
  }

  lemma PutOne(log: seq<AllocRecord>, e: AllocRecord)
    ensures Replay(log + [e]) == Put(Replay(log), e)
  {
    assert (log + [e])[..|log|] == log;
  }

  /** A committed name never changes its address, whatever is committed after it. */
  lemma {:induction false} LogKeepsAddresses(log: seq<AllocRecord>, more: seq<AllocRecord>)
    ensures forall n | n in Replay(log) :: n in Replay(log + more) && Replay(log + more)[n].ip == Replay(log)[n].ip
    ensures forall n :: n in Replay(log + more) <==> n in Replay(log) || exists e :: e in more && e.name == n
    decreases |more|
  {
    hide Replay;
    if more == [] {
      assert log + more == log;
    } else {
      var init, e := more[..|more| - 1], more[|more| - 1];
      LogKeepsAddresses(log, init);
      PutOne(log + init, e);
      assert log + more == (log + init) + [e];
      assert more == init + [e];
    }
  }
}
