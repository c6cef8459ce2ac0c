/** `registry.py`: stable-by-name overlay addresses, and their rebuild from the
    allocation records of committed jobs. */
module Registry {
  import opened Basics

  /** A SHA-256 digest read as a number: hex digests of equal length compare as these do. */
  type Sha = nat

  // ------------------------------------------------------------- networks

  /** An IPv4 network: its first address and how many it has. */
  datatype Network = Network(base: nat, size: nat)

  /** The greatest multiple of `size` up to `addr`: host bits masked away. */
  function Masked(addr: nat, size: nat): (base: nat)
    requires size > 0
    ensures base <= addr < base + size
  {
    if addr < size then 0 else size + Masked(addr - size, size)
  }

  /** `ip_network(..., strict=False)`. */
  function NetworkOf(addr: nat, prefix: nat): Network
    requires prefix <= 32
  {
    Network(Masked(addr, Pow2(32 - prefix)), Pow2(32 - prefix))
  }

  const LIGHTHOUSE_RESERVED := 9

  /** `_is_allocatable`. */
  predicate Allocatable(addr: nat, n: Network) {
    && addr != n.base && addr != n.base + n.size - 1
    && addr - n.base > LIGHTHOUSE_RESERVED
  }

  predicate Contains(n: Network, addr: nat) {
    n.base <= addr < n.base + n.size
  }

  /** The addresses `_next_free_ip` and a usable hint can hand out. */
  function Pool(n: Network): set<nat> {
    set a: nat | n.base <= a < n.base + n.size && Allocatable(a, n)
  }

  function Capacity(n: Network): nat {
    if n.size < 11 then 0 else n.size - 11
  }

  /** `network.hosts()`, as a half-open range: one- and two-address networks yield everything. */
  function HostsFrom(n: Network): nat { if n.size <= 2 then n.base else n.base + 1 }

  function HostsTo(n: Network): nat { if n.size <= 2 then n.base + n.size else n.base + n.size - 1 }

  function FreeFrom(n: Network, taken: set<nat>, addr: nat): Option<nat>
    decreases HostsTo(n) - addr
  {
    if addr >= HostsTo(n) then None
    else if Allocatable(addr, n) && addr !in taken then Some(addr)
    else FreeFrom(n, taken, addr + 1)
  }

  function NextFree(n: Network, taken: set<nat>): Option<nat> {
    FreeFrom(n, taken, HostsFrom(n))
  }

  /** `_next_free_ip`: the search, address by address. */
  method NextFreeIp(n: Network, taken: set<nat>) returns (r: Option<nat>)
    ensures r == NextFree(n, taken)
    ensures r.Some? ==> r.value in Pool(n) && r.value !in taken
    ensures r.Some? ==> forall a | a in Pool(n) && a < r.value :: a in taken
    ensures r.None? <==> Pool(n) <= taken
  {
    var addr := HostsFrom(n);
    while addr < HostsTo(n)
      invariant HostsFrom(n) <= addr
      invariant FreeFrom(n, taken, addr) == NextFree(n, taken)
      invariant forall a | a in Pool(n) && a < addr :: a in taken
    {
      if Allocatable(addr, n) && addr !in taken {
        return Some(addr);
      }
      addr := addr + 1;
    }
    return None;
  }

  lemma {:induction false} FreeFromIsLeast(n: Network, taken: set<nat>, addr: nat)
    requires HostsFrom(n) <= addr && forall a | a in Pool(n) && a < addr :: a in taken
    ensures var r := FreeFrom(n, taken, addr);
      && (r.Some? ==> r.value in Pool(n) && r.value !in taken && forall a | a in Pool(n) && a < r.value :: a in taken)
      && (r.None? <==> Pool(n) <= taken)
    decreases HostsTo(n) - addr
  {
    if addr < HostsTo(n) && !(Allocatable(addr, n) && addr !in taken) {
      FreeFromIsLeast(n, taken, addr + 1);
    }
  }

  lemma NextFreeIsLeast(n: Network, taken: set<nat>)
    ensures var r := NextFree(n, taken);
      && (r.Some? ==> r.value in Pool(n) && r.value !in taken && forall a | a in Pool(n) && a < r.value :: a in taken)
      && (r.None? <==> Pool(n) <= taken)
  {
    FreeFromIsLeast(n, taken, HostsFrom(n));
  }

  function Range(lo: nat, hi: nat): (s: set<nat>)
    requires lo <= hi
    ensures forall a :: a in s <==> lo <= a < hi
    ensures |s| == hi - lo
  {
    if lo == hi then {} else Range(lo, hi - 1) + {hi - 1}
  }

  lemma {:induction false} MaskedIs(k: nat, off: nat, size: nat)
    requires off < size
    ensures Masked(k * size + off, size) == k * size
  {
    if k > 0 {
      MaskedIs(k - 1, off, size);
      Times(k, size);
    }
  }

  lemma Times(k: nat, size: nat)
    requires k > 0
    ensures k * size == (k - 1) * size + size && (k - 1) * size >= 0
  {
  }

  /** The addresses at which a network of that prefix starts. */
  predicate IsBase(base: nat, prefix: nat)
    requires prefix <= 32
  {
    base % Pow2(32 - prefix) == 0
  }

  lemma NetworkIs(base: nat, off: nat, prefix: nat)
    requires prefix <= 32 && off < Pow2(32 - prefix) && IsBase(base, prefix)
    ensures NetworkOf(base + off, prefix) == Network(base, Pow2(32 - prefix))
  {
    hide Pow2, Masked;
    var size := Pow2(32 - prefix);
    assert base == base / size * size;
    MaskedIs(base / size, off, size);
  }

  /** Of the `2^(32-p)` addresses from `base` on, the first ten and the last are never
      handed out, and all others can be, whichever address names the network. */
  lemma PoolIs(base: nat, off: nat, prefix: nat, a: nat)
    requires prefix <= 32 && off < Pow2(32 - prefix) && IsBase(base, prefix)
    ensures a in Pool(NetworkOf(base + off, prefix)) <==> base + 10 <= a <= base + Pow2(32 - prefix) - 2
  {
    hide Pow2, NetworkOf, IsBase;
    NetworkIs(base, off, prefix);
  }

  lemma {:induction false} Doubling(k: nat)
    ensures Pow2(k + 4) == 16 * Pow2(k)
  {
    assert Pow2(k + 1) == 2 * Pow2(k);
    assert Pow2(k + 2) == 2 * Pow2(k + 1);
    assert Pow2(k + 3) == 2 * Pow2(k + 2);
  }

  /** On 10.66.0.0/16 these are 10.66.0.10 to 10.66.255.254. */
  lemma DefaultPool(off: nat, a: nat)
    requires off < 0x1_0000
    ensures a in Pool(NetworkOf(0x0A42_0000 + off, 16)) <==> 0x0A42_000A <= a <= 0x0A42_FFFE
  {
    Doubling(0);
    Doubling(4);
    Doubling(8);
    Doubling(12);
    assert Pow2(0) == 1;
    assert 0x0A42_0000 == 0x0A42 * Pow2(16);
    PoolIs(0x0A42_0000, off, 16, a);
  }

  /** There are `max(0, 2^(32-p) - 11)` addresses to hand out. */
  lemma PoolSize(addr: nat, prefix: nat)
    requires prefix <= 32
    ensures |Pool(NetworkOf(addr, prefix))| == if Pow2(32 - prefix) < 11 then 0 else Pow2(32 - prefix) - 11
    ensures |Pool(NetworkOf(addr, prefix))| == Capacity(NetworkOf(addr, prefix))
  {
    var n := NetworkOf(addr, prefix);
    var lo, hi := n.base + 10, n.base + n.size - 1;
    if lo <= hi {
      assert Pool(n) == Range(lo, hi);
    } else {
      assert Pool(n) == {};
    }
  }

  // ------------------------------------------------------------- the registry

  datatype Details = Details(fingerprint: string, notAfter: string, groups: seq<string>)

  /** A host entry; `allocate` leaves it partial, `record` completes it. */
  datatype Host = Host(ip: nat, sha: Option<Sha>, pubkey: Option<seq<Byte>>, details: Option<Details>)

  type Hosts = map<Name, Host>

  datatype Reg = Reg(cidr: Network, hosts: Hosts)

  function Assigned(h: Hosts): set<nat> {
    set n | n in h :: h[n].ip
  }

  datatype Hint = NoHint | Unparsable | Address(addr: nat)

  /** `_resolve_ip_hint`. */
  function ResolveHint(hint: Hint, n: Network, taken: set<nat>): Option<nat> {
    if hint.Address? && Contains(n, hint.addr) && Allocatable(hint.addr, n) && hint.addr !in taken
    then Some(hint.addr) else None
  }

  datatype Allocation = Allocated(ip: nat, reg: Reg) | NameConflict | PoolExhausted

  predicate KeyTaken(h: Hosts, sha: Sha) {
    exists o :: o in h && h[o].sha == Some(sha)
  }

  function ChooseIp(n: Network, taken: set<nat>, hint: Hint): Option<nat> {
    var hinted := ResolveHint(hint, n, taken);
    if hinted.Some? then hinted else NextFree(n, taken)
  }

  /** The network asked for, or else the registry's own. */
  function Chosen(reg: Reg, cidr: Option<Network>): Network {
    if cidr.Some? then cidr.value else reg.cidr
  }

  function Allocate(reg: Reg, name: Name, sha: Sha, cidr: Option<Network>, hint: Hint): Allocation {
    if name in reg.hosts then Allocated(reg.hosts[name].ip, reg)
    else if KeyTaken(reg.hosts, sha) then NameConflict
    else
      var ip := ChooseIp(Chosen(reg, cidr), Assigned(reg.hosts), hint);
      if ip.None? then PoolExhausted
      else Allocated(ip.value, reg.(hosts := reg.hosts[name := Host(ip.value, Some(sha), None, None)]))
  }

  /** `record`: `sha` is the digest of `pubkey`. */
  function RecordHost(reg: Reg, name: Name, ip: nat, sha: Sha, pubkey: seq<Byte>, details: Details): Reg {
    reg.(hosts := reg.hosts[name := Host(ip, Some(sha), Some(pubkey), Some(details))])
  }

  predicate DistinctIps(h: Hosts) {
    forall a, b | a in h && b in h && a != b :: h[a].ip != h[b].ip
  }

  predicate DistinctKeys(h: Hosts) {
    forall a, b | a in h && b in h && a != b && h[a].sha.Some? :: h[a].sha != h[b].sha
  }

  predicate InPool(h: Hosts, n: Network) {
    forall a | a in h :: h[a].ip in Pool(n)
  }

  predicate Usable(hint: Hint, n: Network, taken: set<nat>) {
    hint.Address? && hint.addr in Pool(n) && hint.addr !in taken
  }

  /** A usable hint, or else the least free address; nothing only when nothing is free. */
  lemma ChooseGives(n: Network, taken: set<nat>, hint: Hint)
    ensures var r := ChooseIp(n, taken, hint);
      && (r.Some? ==> r.value in Pool(n) && r.value !in taken)
      && (r.Some? && !Usable(hint, n, taken) ==> forall a | a in Pool(n) && a < r.value :: a in taken)
      && (r.Some? && Usable(hint, n, taken) ==> r.value == hint.addr)
      && (r.None? <==> Pool(n) <= taken)
  {
    NextFreeIsLeast(n, taken);
    hide NextFree;
    assert hint.Address? ==> (hint.addr in Pool(n) <==> Contains(n, hint.addr) && Allocatable(hint.addr, n));
  }

  lemma PutKeeps(h: Hosts, name: Name, host: Host)
    requires name in h ==> host.ip == h[name].ip
    requires name !in h ==> host.ip !in Assigned(h)
    ensures DistinctIps(h) ==> DistinctIps(h[name := host])
    ensures host.sha.Some? && DistinctKeys(h) ==>
      (DistinctKeys(h[name := host]) <==> forall o | o in h && o != name :: h[o].sha != host.sha)
  {
    assert forall o | o in h :: h[o].ip in Assigned(h);
    var g := h[name := host];
    if DistinctKeys(h) && DistinctKeys(g) && host.sha.Some? {
      assert forall o | o in h && o != name :: o in g && name in g && g[o] == h[o];
    }
  }

  /** What a successful allocation promises: a known name keeps its address; a new
      name gets its usable hint, or else the least free address of the pool of the
      chosen network; nobody else moves; no two hosts come to share an address. The
      hosts stay within the registry's own pool exactly when the new one is. */
  lemma AllocateGives(reg: Reg, name: Name, sha: Sha, cidr: Option<Network>, hint: Hint)
    ensures var r, taken, n := Allocate(reg, name, sha, cidr, hint), Assigned(reg.hosts), Chosen(reg, cidr);
      && (r.Allocated? ==>
            && name in r.reg.hosts && r.reg.hosts[name].ip == r.ip && r.reg.cidr == reg.cidr
            && (forall o | o in reg.hosts :: o in r.reg.hosts && r.reg.hosts[o] == reg.hosts[o])
            && r.reg.hosts.Keys == reg.hosts.Keys + {name}
            && (name !in reg.hosts ==> r.ip in Pool(n) && r.ip !in taken)
            && (name !in reg.hosts && !Usable(hint, n, taken) ==> forall a | a in Pool(n) && a < r.ip :: a in taken)
            && (name !in reg.hosts && Usable(hint, n, taken) ==> r.ip == hint.addr)
            && (DistinctIps(reg.hosts) ==> DistinctIps(r.reg.hosts))
            && (InPool(reg.hosts, reg.cidr) ==> (InPool(r.reg.hosts, reg.cidr) <==> r.ip in Pool(reg.cidr)))
            && (DistinctKeys(reg.hosts) ==> DistinctKeys(r.reg.hosts)))
      && (r.NameConflict? <==> name !in reg.hosts && KeyTaken(reg.hosts, sha))
      && (r.PoolExhausted? <==> name !in reg.hosts && !KeyTaken(reg.hosts, sha) && Pool(n) <= taken)
  {
    var taken := Assigned(reg.hosts);
    ChooseGives(Chosen(reg, cidr), taken, hint);
    hide ChooseIp, Pool, Assigned, Usable, DistinctIps, DistinctKeys;
    var r := Allocate(reg, name, sha, cidr, hint);
    if r.Allocated? && name !in reg.hosts {
      PutKeeps(reg.hosts, name, Host(r.ip, Some(sha), None, None));
    }
  }

  /** The new entry holds the address and the key, and nothing yet of the certificate. */
  lemma NewEntryIs(reg: Reg, name: Name, sha: Sha, cidr: Option<Network>, hint: Hint)
    requires name !in reg.hosts && Allocate(reg, name, sha, cidr, hint).Allocated?
    ensures var r := Allocate(reg, name, sha, cidr, hint);
      r.reg == Reg(reg.cidr, reg.hosts[name := Host(r.ip, Some(sha), None, None)])
  {
    hide ChooseIp, KeyTaken, Assigned;
  }

  /** The key of a new host is taken from then on, before `record` has been called. */
  lemma KeyIsTakenAtOnce(reg: Reg, a: Name, b: Name, sha: Sha, cidr: Option<Network>, hint: Hint)
    requires a !in reg.hosts && b !in reg.hosts && a != b && Allocate(reg, a, sha, cidr, hint).Allocated?
    ensures Allocate(Allocate(reg, a, sha, cidr, hint).reg, b, sha, cidr, hint).NameConflict?
  {
    hide ChooseIp, Assigned;
    var r := Allocate(reg, a, sha, cidr, hint);
    assert a in r.reg.hosts && r.reg.hosts[a].sha == Some(sha);
  }

  /** The first host of an empty registry gets the tenth address after the base, in
      whatever network is asked for that has room. */
  lemma FirstHost(reg: Reg, name: Name, sha: Sha, base: nat, off: nat, prefix: nat, hint: Hint)
    requires reg.hosts == map[] && prefix <= 32 && off < Pow2(32 - prefix) && IsBase(base, prefix)
    requires Pow2(32 - prefix) >= 12
    requires hint.Address? ==> !(base + 10 <= hint.addr <= base + Pow2(32 - prefix) - 2)
    ensures Allocate(reg, name, sha, Some(NetworkOf(base + off, prefix)), hint)
      == Allocated(base + 10, Reg(reg.cidr, map[name := Host(base + 10, Some(sha), None, None)]))
  {
    hide Allocate, Pool, Pow2, NetworkOf, IsBase, DistinctIps, DistinctKeys, InPool;
    var n := NetworkOf(base + off, prefix);
    forall a: nat
      ensures a in Pool(n) <==> base + 10 <= a <= base + Pow2(32 - prefix) - 2
    {
      PoolIs(base, off, prefix, a);
    }
    assert base + 10 in Pool(n);
    AllocateGives(reg, name, sha, Some(n), hint);
    NewEntryIs(reg, name, sha, Some(n), hint);
  }

  lemma {:induction false} FewAddresses(h: Hosts)
    ensures |Assigned(h)| <= |h|
  {
    if h == map[] {
      assert Assigned(h) == {};
    } else {
      var n :| n in h;
      var rest := h - {n};
      FewAddresses(rest);
      assert Assigned(h) == Assigned(rest) + {h[n].ip};
      assert h.Keys == rest.Keys + {n};
      assert |h| == |h.Keys| && |rest| == |rest.Keys|;
    }
  }

  /** With fewer hosts than the pool has addresses, a new name never fails for room. */
  lemma RoomForAll(reg: Reg, name: Name, sha: Sha, hint: Hint, addr: nat, prefix: nat)
    requires prefix <= 32 && reg.cidr == NetworkOf(addr, prefix) && |reg.hosts| < Capacity(reg.cidr)
    ensures !Allocate(reg, name, sha, None, hint).PoolExhausted?
  {
    AllocateGives(reg, name, sha, None, hint);
    PoolSize(addr, prefix);
    FewAddresses(reg.hosts);
    hide Allocate;
    if Pool(reg.cidr) <= Assigned(reg.hosts) {
      SubsetSize(Pool(reg.cidr), Assigned(reg.hosts));
    }
  }

  // ------------------------------------------------------------- signing one host

  datatype AllocRecord = AllocRecord(name: Name, ip: nat, sha: Sha, pubkey: Option<seq<Byte>>,
                                     details: Details, number: int)

  datatype Signing = Signing(name: Name, sha: Sha, pubkey: seq<Byte>, details: Details, number: int)

  datatype Signed = Signed(reg: Reg, rec: AllocRecord) | NotSigned

  /** allocate, sign, record, and the record that goes into the job's results. */
  function Sign(reg: Reg, s: Signing): Signed {
    var a := Allocate(reg, s.name, s.sha, Some(reg.cidr), NoHint);
    if !a.Allocated? then NotSigned
    else Signed(RecordHost(a.reg, s.name, a.ip, s.sha, s.pubkey, s.details),
                AllocRecord(s.name, a.ip, s.sha, Some(s.pubkey), s.details, s.number))
  }

  /** Signing never moves a known host and never makes two hosts share an address;
      it keeps keys apart exactly when no other host holds the key. */
  lemma SignKeeps(reg: Reg, s: Signing)
    requires Sign(reg, s).Signed?
    ensures var h, g := reg.hosts, Sign(reg, s).reg.hosts;
      && g.Keys == h.Keys + {s.name} && Sign(reg, s).reg.cidr == reg.cidr
      && (forall o | o in h :: g[o].ip == h[o].ip)
      && (forall o | o in h && o != s.name :: g[o] == h[o])
      && (s.name !in h ==> g[s.name].ip in Pool(reg.cidr) && g[s.name].ip !in Assigned(h))
      && (DistinctIps(h) ==> DistinctIps(g))
      && (InPool(h, reg.cidr) ==> InPool(g, reg.cidr))
      && (DistinctKeys(h) ==> (DistinctKeys(g) <==> forall o | o in h && o != s.name :: h[o].sha != Some(s.sha)))
  {
    SameCidr(reg, s.name, s.sha, NoHint);
    AllocateGives(reg, s.name, s.sha, None, NoHint);
    SignPuts(reg, s);
    hide Allocate, Pool, Assigned, DistinctIps, DistinctKeys, Sign;
    var g := Sign(reg, s).reg.hosts;
    PutKeeps(reg.hosts, s.name, g[s.name]);
  }

  lemma SignPuts(reg: Reg, s: Signing)
    requires Sign(reg, s).Signed?
    ensures var r, a := Sign(reg, s), Allocate(reg, s.name, s.sha, None, NoHint);
      && a.Allocated? && r.reg.cidr == reg.cidr
      && r.reg.hosts == reg.hosts[s.name := Host(a.ip, Some(s.sha), Some(s.pubkey), Some(s.details))]
      && r.rec == AllocRecord(s.name, a.ip, s.sha, Some(s.pubkey), s.details, s.number)
  {
    SameCidr(reg, s.name, s.sha, NoHint);
    hide ChooseIp, KeyTaken;
  }

  lemma SameCidr(reg: Reg, name: Name, sha: Sha, hint: Hint)
    ensures Allocate(reg, name, sha, Some(reg.cidr), hint) == Allocate(reg, name, sha, None, hint)
  {
  }

  /** The conflict check is skipped for a known name, so a re-key can give two
      hosts one key. */
  lemma RekeyCanShareAKey(reg: Reg, a: Name, b: Name, s: Signing)
    requires a in reg.hosts && b in reg.hosts && a != b && DistinctKeys(reg.hosts)
    requires s.name == a && reg.hosts[b].sha == Some(s.sha)
    ensures Sign(reg, s).Signed? && !DistinctKeys(Sign(reg, s).reg.hosts)
  {
    SignKeeps(reg, s);
  }
}
