/** exclusionInputs and localNonPrivatePrefixes: what a group leaves out, and what that misses. */
module Exclusions {
  import opened Wrappers
  import opened Sequences
  import opened Prefixes
  import opened Normalization
  import opened Config
  import opened Planner
  import Source

  /** The host: its interface addresses with their prefix lengths, if they can be listed, and netip's
      classification of public addresses. */
  datatype Host = Host(interfaces: Option<seq<Prefix>>, public: Addr -> bool)

  /** p is the masked form of a configured exclusion. */
  ghost predicate Excluded(p: Prefix, t: Target) {
    exists q :: PrefixText(q) in t.excludePrefixes && IsValid(q) && Masked(q) == p
  }

  ghost predicate ThrowsOf(throws: seq<Prefix>, t: Target) {
    forall p :: p in throws <==> p.fam in Families(t.family) && Excluded(p, t)
  }

  /** An interface's own address, and the first address of its network. */
  function HostAddr(i: Prefix): Addr {
    IP(i.fam, i.addr)
  }

  function NetworkAddr(i: Prefix): Addr
    requires IsValid(i)
  {
    IP(i.fam, Masked(i).addr)
  }

  /** addrPrefix masks the interface address, so what is excluded is the network's first address. */
  ghost predicate LocalFrom(a: Addr, name: FamilyName, host: Host, i: Prefix) {
    IsValid(i) && a == NetworkAddr(i) && host.public(a) && i.fam in Families(name)
  }

  ghost predicate LocalsOf(locals: seq<Addr>, t: Target, host: Host) {
    if t.excludeLocalIPs
    then host.interfaces.Some? &&
         forall a :: a in locals <==> exists i :: i in host.interfaces.value && LocalFrom(a, t.family, host, i)
    else locals == []
  }

  predicate ExclusionsOk(t: Target, host: Host) {
    (forall i :: 0 <= i < |t.excludePrefixes| ==> t.excludePrefixes[i].PrefixText?) &&
    (t.excludeLocalIPs ==> host.interfaces.Some?)
  }

  method ParseExclusions(t: Target) returns (out: Option<seq<Prefix>>)
    ensures out.Some? <==> forall i :: 0 <= i < |t.excludePrefixes| ==> t.excludePrefixes[i].PrefixText?
    ensures out.Some? ==>
              forall p :: p in out.value <==> exists q :: PrefixText(q) in t.excludePrefixes && p == MaskedOrSame(q)
  {
    var throws: seq<Prefix> := [];
    for i := 0 to |t.excludePrefixes|
      invariant forall j :: 0 <= j < i ==> t.excludePrefixes[j].PrefixText?
      invariant forall p :: p in throws <==>
                  exists q :: PrefixText(q) in t.excludePrefixes[..i] && p == MaskedOrSame(q)
    {
      assert t.excludePrefixes[..i + 1] == t.excludePrefixes[..i] + [t.excludePrefixes[i]];
      if !t.excludePrefixes[i].PrefixText? { return None; }
      throws := throws + [MaskedOrSame(t.excludePrefixes[i].prefix)];
    }
    assert t.excludePrefixes[..|t.excludePrefixes|] == t.excludePrefixes;
    return Some(throws);
  }

  /** The public network addresses, each as a prefix of full length. */
  method LocalNonPrivatePrefixes(interfaces: seq<Prefix>, public: Addr -> bool) returns (out: seq<Prefix>)
    ensures forall p :: p in out <==>
              exists i :: i in interfaces && IsValid(i) && public(NetworkAddr(i)) &&
                          p == Prefix(i.fam, Masked(i).addr, Width(i.fam))
  {
    out := [];
    for n := 0 to |interfaces|
      invariant forall p :: p in out <==>
                  exists i :: i in interfaces[..n] && IsValid(i) && public(NetworkAddr(i)) &&
                              p == Prefix(i.fam, Masked(i).addr, Width(i.fam))
    {
      var i := interfaces[n];
      assert interfaces[..n + 1] == interfaces[..n] + [i];
      if !IsValid(i) { continue; }
      if !public(NetworkAddr(i)) { continue; }
      out := out + [Prefix(i.fam, Masked(i).addr, Width(i.fam))];
    }
    assert interfaces[..|interfaces|] == interfaces;
  }

  method PrefixAddrs(ps: seq<Prefix>) returns (out: seq<Addr>)
    ensures out == Mapped(ps, HostAddr)
  {
    out := [];
    for i := 0 to |ps|
      invariant out == Mapped(ps[..i], HostAddr)
    {
      MappedStep(ps, i, HostAddr);
      out := out + [HostAddr(ps[i])];
    }
    assert ps[..|ps|] == ps;
  }

  method LocalAddrs(t: Target, interfaces: seq<Prefix>, public: Addr -> bool) returns (out: seq<Addr>)
    requires t.excludeLocalIPs
    ensures LocalsOf(out, t, Host(Some(interfaces), public))
  {
    var local := LocalNonPrivatePrefixes(interfaces, public);
    var mine := FilterFamily(local, t.family);
    FilterMembers(local, OfFamilies(t.family));
    out := PrefixAddrs(mine);
    MappedMembers(mine, HostAddr);
    var host := Host(Some(interfaces), public);
    forall a ensures a in out <==> exists i :: i in interfaces && LocalFrom(a, t.family, host, i) {
      if i :| i in interfaces && LocalFrom(a, t.family, host, i) {
        var p := Prefix(i.fam, Masked(i).addr, Width(i.fam));
        assert p in mine && HostAddr(p) == a;
      }
    }
  }

  method ExclusionInputs(t: Target, host: Host) returns (out: Option<(seq<Prefix>, seq<Addr>)>)
    ensures out.Some? <==> ExclusionsOk(t, host)
    ensures out.Some? ==> ThrowsOf(out.value.0, t) && LocalsOf(out.value.1, t, host)
  {
    var throws := ParseExclusions(t);
    if throws == None { return None; }
    var filtered := FilterFamily(throws.value, t.family);
    FilterMembers(throws.value, OfFamilies(t.family));
    var slice := Source.ToArray(filtered);
    var normalized := Source.Normalize(slice, false);
    NormalizedMeaning(filtered, false);
    ThrowsMeaning(t, throws.value, filtered, normalized[..]);
    if !t.excludeLocalIPs { return Some((normalized[..], [])); }
    if host.interfaces == None { return None; }
    var addrs := LocalAddrs(t, host.interfaces.value, host.public);
    return Some((normalized[..], addrs));
  }

  lemma ThrowsMeaning(t: Target, throws: seq<Prefix>, filtered: seq<Prefix>, out: seq<Prefix>)
    requires forall p :: p in throws <==> exists q :: PrefixText(q) in t.excludePrefixes && p == MaskedOrSame(q)
    requires forall p :: p in filtered <==> p in throws && p.fam in Families(t.family)
    requires forall p :: p in out <==> MaskedIn(p, filtered)
    ensures ThrowsOf(out, t)
  {
    forall p ensures p in out <==> p.fam in Families(t.family) && Excluded(p, t) {
      if p in out {
        var m :| m in filtered && IsValid(m) && Masked(m) == p;
        var q :| PrefixText(q) in t.excludePrefixes && m == MaskedOrSame(q);
        if IsValid(q) { assert Masked(Masked(q)) == Masked(q); }
      }
      if p.fam in Families(t.family) {
        if q :| PrefixText(q) in t.excludePrefixes && IsValid(q) && Masked(q) == p {
          assert p == MaskedOrSame(q) && p in throws && p in filtered && Masked(p) == p;
        }
      }
    }
  }

  // ---- what excluding the networks' first addresses keeps out ----

  /** A block holds a network's first address exactly when it contains the network or starts there. */
  lemma FirstAddressIn(j: Prefix, p: Prefix)
    requires IsValid(j) && IsBlock(p)
    ensures Contains(p, NetworkAddr(j)) <==>
            p.fam == j.fam && (Inside(Masked(j), p) || p.addr == Masked(j).addr)
  {
    var network, first := Masked(j), NetworkAddr(j);
    BlockContains(network, first);
    BlockContains(p, first);
    if Contains(p, first) { NestedAt(network, p, first); }
  }

  /** The source contains the whole network of a public interface of the group's families, or starts
      where that network does. */
  ghost predicate SkippedFor(p: Prefix, name: FamilyName, host: Host, j: Prefix) {
    && IsValid(j) && IsBlock(p) && host.public(NetworkAddr(j)) && j.fam in Families(name)
    && p.fam == j.fam && (Inside(Masked(j), p) || p.addr == Masked(j).addr)
  }

  ghost predicate Skipped(p: Prefix, name: FamilyName, host: Host)
    requires host.interfaces.Some?
  {
    exists j :: j in host.interfaces.value && SkippedFor(p, name, host, j)
  }

  /** Every source of the group's families that holds the address is skipped. */
  ghost predicate AllSkipped(g: InputGroup, host: Host, a: Addr)
    requires host.interfaces.Some?
  {
    forall p :: p in g.prefixes && p.fam in Families(g.config.target.family) && Contains(p, a) ==>
      Skipped(p, g.config.target.family, host)
  }

  /** The group excludes local addresses and was given those of this host. */
  ghost predicate ExcludesLocals(g: InputGroup, host: Host) {
    && g.config.target.excludeLocalIPs && LocalsOf(g.locals, g.config.target, host)
    && forall p :: p in g.prefixes ==> IsBlock(p)
  }

  /** No surviving source holds an address exactly when all that hold it are skipped. */
  lemma AddressExcludedExactly(g: InputGroup, host: Host, a: Addr)
    requires ExcludesLocals(g, host)
    ensures (forall p :: Survives(g, p) ==> !Contains(p, a)) <==> AllSkipped(g, host, a)
  {
    var name := g.config.target.family;
    forall p | p in g.prefixes && p.fam in Families(name) ensures Survives(g, p) <==> !Skipped(p, name, host) {
      SurvivesExactly(g, host, p);
    }
  }

  lemma SurvivesExactly(g: InputGroup, host: Host, p: Prefix)
    requires ExcludesLocals(g, host) && p in g.prefixes && p.fam in Families(g.config.target.family)
    ensures Survives(g, p) <==> !Skipped(p, g.config.target.family, host)
  {
    var name := g.config.target.family;
    if j :| j in host.interfaces.value && SkippedFor(p, name, host, j) {
      FirstAddressIn(j, p);
      assert LocalFrom(NetworkAddr(j), name, host, j);
      assert NetworkAddr(j) in g.locals;
    }
    if !Survives(g, p) {
      var a :| a in g.locals && Contains(p, a);
      var j :| j in host.interfaces.value && LocalFrom(a, name, host, j);
      FirstAddressIn(j, p);
      assert SkippedFor(p, name, host, j);
    }
  }

  /** A source block with the host's own address in it is skipped for that interface exactly when it is
      no longer than the interface's prefix or starts where its network does. */
  lemma NetworkAddrInExactly(i: Prefix, q: Prefix)
    requires IsValid(i) && IsBlock(q) && Contains(q, HostAddr(i))
    ensures Contains(q, NetworkAddr(i)) <==> q.bits <= i.bits || q.addr == Masked(i).addr
  {
    var network := Masked(i);
    BlockContains(network, HostAddr(i));
    BlockContains(q, HostAddr(i));
    BlockContains(q, NetworkAddr(i));
    NestedAt(network, q, HostAddr(i));
  }

  lemma NestedAt(network: Prefix, q: Prefix, a: Addr)
    requires IsBlock(network) && IsBlock(q) && Contains(network, a) && Contains(q, a)
    ensures q.bits <= network.bits ==> Inside(network, q)
    ensures network.bits <= q.bits ==> Inside(q, network)
  {
    if q.bits <= network.bits { Overlap(q, network, a); }
    if network.bits <= q.bits { Overlap(network, q, a); }
  }

  /** A source that holds the host's own address is no longer than the interface's prefix, or starts
      where its network does. */
  ghost predicate SourcesSpan(g: InputGroup, i: Prefix)
    requires IsValid(i)
  {
    forall p :: p in g.prefixes && Contains(p, HostAddr(i)) ==> p.bits <= i.bits || p.addr == Masked(i).addr
  }

  /** The interface is public and of the group's families. */
  ghost predicate Relevant(g: InputGroup, host: Host, i: Prefix)
    requires host.interfaces.Some?
  {
    && i in host.interfaces.value && IsValid(i)
    && host.public(NetworkAddr(i)) && i.fam in Families(g.config.target.family)
  }

  /** For a host with one such interface, the condition in terms of its own address. */
  lemma HostExcludedExactly(g: InputGroup, host: Host, i: Prefix)
    requires ExcludesLocals(g, host) && Relevant(g, host, i)
    ensures SourcesSpan(g, i) ==> AllSkipped(g, host, HostAddr(i))
    ensures (forall j :: Relevant(g, host, j) ==> j == i) ==> (AllSkipped(g, host, HostAddr(i)) <==> SourcesSpan(g, i))
  {
    var name := g.config.target.family;
    forall p | p in g.prefixes && Contains(p, HostAddr(i))
      ensures SkippedFor(p, name, host, i) <==> p.bits <= i.bits || p.addr == Masked(i).addr
    {
      NetworkAddrInExactly(i, p);
      FirstAddressIn(i, p);
    }
    forall p, j | j in host.interfaces.value && SkippedFor(p, name, host, j) ensures Relevant(g, host, j) {
      assert LocalFrom(NetworkAddr(j), name, host, j);
    }
  }

  /** So it is kept out of every source list exactly when it is itself its network's first address,
      as with a prefix of full length. */
  lemma HostAlwaysExcludedExactly(i: Prefix)
    requires IsValid(i)
    ensures (forall q :: IsBlock(q) && Contains(q, HostAddr(i)) ==> Contains(q, NetworkAddr(i))) <==>
            HostAddr(i) == NetworkAddr(i)
  {
    var single := Prefix(i.fam, i.addr, Width(i.fam));
    assert Size(single) == 1;
    assert IsBlock(single) && Contains(single, HostAddr(i));
    NetworkAddrInExactly(i, single);
  }

  /** Otherwise it can stay routed: a host in the upper half of its network, such as 203.0.113.200/24,
      keeps the source that is this half, 203.0.113.128/25, unless another interface's network has it
      skipped. */
  lemma HostStaysRouted(g: InputGroup, i: Prefix)
    requires IsValid(i) && i.bits < Width(i.fam) && i.addr >= Masked(i).addr + Size(i) / 2
    requires g.locals == [NetworkAddr(i)]
    requires g.prefixes == [Right(Masked(i))] && i.fam in Families(g.config.target.family)
    ensures Survives(g, g.prefixes[0]) && Contains(g.prefixes[0], HostAddr(i))
  {
    UpperHalf(i);
  }

  lemma UpperHalf(i: Prefix)
    requires IsValid(i) && i.bits < Width(i.fam) && i.addr >= Masked(i).addr + Size(i) / 2
    ensures var upper := Right(Masked(i)); Contains(upper, HostAddr(i)) && !Contains(upper, NetworkAddr(i))
  {
    var upper := Right(Masked(i));
    Halves(Masked(i));
    BlockContains(upper, HostAddr(i));
    BlockContains(upper, NetworkAddr(i));
  }
}
