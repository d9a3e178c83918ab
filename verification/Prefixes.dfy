/** IP addresses and CIDR prefixes, as the netip package models them: a prefix of `bits`
    leading bits denotes an aligned block of addresses (section 3.1 of RFC 4632). */
module Prefixes {

  datatype Family = V4 | V6

  function Width(f: Family): nat {
    match f
    case V4 => 32
    case V6 => 128
  }

  /** The zero netip.Addr is `NoAddr`; zones and IPv4-mapped addresses are not modelled. */
  datatype Addr = NoAddr | IP(fam: Family, val: nat)

  /** Any bit count outside 0..width, or an address out of range, is an invalid netip.Prefix. */
  datatype Prefix = Prefix(fam: Family, addr: nat, bits: int)

  const NO_PREFIX := Prefix(V4, 0, -1)

  function Pow2(n: nat): (r: nat)
    ensures r >= 1
  {
    if n == 0 then 1 else 2 * Pow2(n - 1)
  }

  /** How many addresses a family has. */
  function Limit(f: Family): nat {
    match f
    case V4 => 0x1_0000_0000
    case V6 => 0x1_0000_0000_0000_0000_0000_0000_0000_0000
  }

  lemma ByteMore(n: nat)
    ensures Pow2(n + 8) == 0x100 * Pow2(n)
  {
    assert Pow2(n + 4) == 2 * Pow2(n + 3) == 4 * Pow2(n + 2) == 8 * Pow2(n + 1) == 16 * Pow2(n);
    assert Pow2(n + 8) == 2 * Pow2(n + 7) == 4 * Pow2(n + 6) == 8 * Pow2(n + 5) == 16 * Pow2(n + 4);
  }

  lemma WordMore(n: nat)
    ensures Pow2(n + 32) == 0x1_0000_0000 * Pow2(n)
  {
    ByteMore(n);
    ByteMore(n + 8);
    ByteMore(n + 16);
    ByteMore(n + 24);
  }

  lemma LimitIs(f: Family)
    ensures Limit(f) == Pow2(Width(f))
  {
    WordMore(0);
    assert Pow2(32) == 0x1_0000_0000;
    if f == V6 {
      WordMore(32);
      assert Pow2(64) == 0x1_0000_0000_0000_0000;
      WordMore(64);
      assert Pow2(96) == 0x1_0000_0000_0000_0000_0000_0000;
      WordMore(96);
    }
  }

  predicate IsValid(p: Prefix) {
    0 <= p.bits <= Width(p.fam) && p.addr < Limit(p.fam)
  }

  function Size(p: Prefix): (r: nat)
    requires IsValid(p)
    ensures r >= 1
  {
    Pow2(Width(p.fam) - p.bits)
  }

  /** The multiple of s at or just below x: x with its host bits cleared when s is the block size. */
  function Floor(x: nat, s: nat): (r: nat)
    requires s >= 1
    ensures r <= x < r + s
  {
    if x < s then 0 else s + Floor(x - s, s)
  }

  function Masked(p: Prefix): (r: Prefix)
    requires IsValid(p)
    ensures IsBlock(r) && r.fam == p.fam && r.bits == p.bits
    ensures r.addr <= p.addr < r.addr + Size(p)
  {
    FloorIdempotent(p.addr, Size(p));
    Prefix(p.fam, Floor(p.addr, Size(p)), p.bits)
  }

  function MaskedOrSame(p: Prefix): Prefix {
    if IsValid(p) then Masked(p) else p
  }

  /** The address exists and has the family. */
  predicate Serves(a: Addr, f: Family) {
    a.IP? && a.fam == f
  }

  /** A CIDR block: a valid prefix with no bit set after the prefix length. */
  predicate IsBlock(p: Prefix) {
    IsValid(p) && Floor(p.addr, Size(p)) == p.addr
  }

  /** netip's test: the two addresses agree once the host bits are cleared. */
  predicate Contains(p: Prefix, a: Addr)
    ensures Contains(p, a) <==>
            IsValid(p) && a.IP? && a.fam == p.fam && Masked(p).addr <= a.val < Masked(p).addr + Size(p)
  {
    IsValid(p) && a.IP? && a.fam == p.fam &&
    (FloorAgree(a.val, p.addr, Size(p)); Floor(a.val, Size(p)) == Floor(p.addr, Size(p)))
  }

  lemma MaskedContains(p: Prefix, a: Addr)
    requires IsValid(p)
    ensures Contains(Masked(p), a) <==> Contains(p, a)
  {
  }

  lemma BlockContains(p: Prefix, a: Addr)
    requires IsBlock(p)
    ensures Contains(p, a) <==> Serves(a, p.fam) && p.addr <= a.val < p.addr + Size(p)
    ensures Masked(p) == p
  {
  }

  // ---- arithmetic of aligned intervals ----

  lemma {:induction false} FloorIdempotent(x: nat, s: nat)
    requires s >= 1
    ensures Floor(Floor(x, s), s) == Floor(x, s)
    decreases x
  {
    if x >= s { FloorIdempotent(x - s, s); }
  }

  lemma {:induction false} AlignedSpaced(x: nat, y: nat, s: nat)
    requires s >= 1 && Floor(x, s) == x < y == Floor(y, s)
    ensures x + s <= y
    decreases x
  {
    if x >= s { AlignedSpaced(x - s, y - s, s); }
  }

  lemma FloorAgree(x: nat, y: nat, s: nat)
    requires s >= 1
    ensures Floor(x, s) == Floor(y, s) <==> Floor(y, s) <= x < Floor(y, s) + s
  {
    FloorIdempotent(x, s);
    FloorIdempotent(y, s);
    if Floor(x, s) < Floor(y, s) {
      AlignedSpaced(Floor(x, s), Floor(y, s), s);
    } else if Floor(y, s) < Floor(x, s) {
      AlignedSpaced(Floor(y, s), Floor(x, s), s);
    }
  }

  /** The aligned interval twice as long that holds [y, y + s) starts at y or at y - s. */
  lemma {:induction false} FloorDouble(y: nat, s: nat)
    requires s >= 1 && Floor(y, s) == y
    ensures Floor(y, 2 * s) == y || Floor(y, 2 * s) == y - s
    decreases y
  {
    if y >= 2 * s { FloorDouble(y - 2 * s, s); }
  }

  lemma {:induction false} FloorTwice(x: nat, s: nat)
    requires s >= 1
    ensures Floor(Floor(x, s), 2 * s) == Floor(x, 2 * s)
    decreases x
  {
    if x >= 2 * s {
      FloorTwice(x - 2 * s, s);
      assert Floor(x, s) == 2 * s + Floor(x - 2 * s, s);
    }
  }

  lemma {:induction false} FloorHalves(y: nat, s: nat)
    requires s >= 1 && Floor(y, 2 * s) == y
    ensures Floor(y, s) == y && Floor(y + s, s) == y + s && Floor(y + s, 2 * s) == y
    decreases y
  {
    if y >= 2 * s { FloorHalves(y - 2 * s, s); }
  }

  // ---- the two halves of a block, and its parent ----

  function Parent(p: Prefix): (r: Prefix)
    requires IsValid(p) && p.bits > 0
    ensures IsBlock(r) && r.bits == p.bits - 1 && r.fam == p.fam
  {
    Masked(Prefix(p.fam, p.addr, p.bits - 1))
  }

  function Left(p: Prefix): Prefix {
    Prefix(p.fam, p.addr, p.bits + 1)
  }

  function Right(p: Prefix): Prefix
    requires IsValid(p)
  {
    Prefix(p.fam, p.addr + Size(p) / 2, p.bits + 1)
  }

  lemma ParentBlock(p: Prefix)
    requires IsBlock(p) && p.bits > 0
    ensures Size(Parent(p)) == 2 * Size(p)
    ensures Parent(p).addr == p.addr || Parent(p).addr == p.addr - Size(p)
  {
    FloorDouble(p.addr, Size(p));
  }

  /** Two blocks of a family are nested or disjoint. */
  lemma {:induction false} Laminar(p: Prefix, q: Prefix)
    requires IsBlock(p) && IsBlock(q) && p.fam == q.fam && p.bits <= q.bits
    ensures || (p.addr <= q.addr && q.addr + Size(q) <= p.addr + Size(p))
            || q.addr + Size(q) <= p.addr
            || p.addr + Size(p) <= q.addr
    decreases q.bits
  {
    if p.bits < q.bits {
      ParentBlock(q);
      Laminar(p, Parent(q));
    } else if p.addr < q.addr {
      AlignedSpaced(p.addr, q.addr, Size(p));
    } else if q.addr < p.addr {
      AlignedSpaced(q.addr, p.addr, Size(p));
    }
  }

  /** A block never reaches past the end of its address space. */
  lemma BlockFits(p: Prefix)
    requires IsBlock(p)
    ensures p.addr + Size(p) <= Limit(p.fam)
  {
    var all := Prefix(p.fam, 0, 0);
    LimitIs(p.fam);
    assert IsBlock(all) && Size(all) == Limit(p.fam);
    Laminar(all, p);
  }

  lemma ParentAddr(q: Prefix, s: nat)
    requires IsValid(q) && q.bits > 0 && s == Pow2(Width(q.fam) - (q.bits - 1))
    ensures Parent(q).addr == Floor(q.addr, s)
  {
  }

  lemma HalfSizes(p: Prefix)
    requires IsValid(p) && p.bits < Width(p.fam)
    ensures IsValid(Left(p)) && Size(p) == 2 * Size(Left(p)) && Right(p).addr == p.addr + Size(Left(p))
  {
  }

  lemma LeftHalf(p: Prefix, s: nat)
    requires IsBlock(p) && p.bits < Width(p.fam) && s == Size(Left(p)) && Size(p) == 2 * s
    requires Floor(p.addr, s) == p.addr
    ensures IsBlock(Left(p)) && Parent(Left(p)) == p
  {
    assert Parent(Left(p)).addr == Floor(p.addr, Size(p));
  }

  lemma RightValid(p: Prefix, s: nat)
    requires IsValid(p) && p.bits < Width(p.fam) && s == Size(Left(p)) && Right(p).addr == p.addr + s
    requires p.addr + 2 * s <= Limit(p.fam)
    ensures IsValid(Right(p)) && Size(Right(p)) == s
  {
  }

  lemma RightHalf(p: Prefix, s: nat)
    requires IsBlock(p) && p.bits < Width(p.fam) && Size(p) == 2 * s
    requires IsValid(Right(p)) && Size(Right(p)) == s && Right(p).addr == p.addr + s
    requires Floor(p.addr + s, s) == p.addr + s && Floor(p.addr + s, 2 * s) == p.addr
    ensures IsBlock(Right(p)) && Parent(Right(p)) == p
  {
    ParentAddr(Right(p), 2 * s);
  }

  lemma Halves(p: Prefix)
    requires IsBlock(p) && p.bits < Width(p.fam)
    ensures IsBlock(Left(p)) && IsBlock(Right(p))
    ensures Size(p) == 2 * Size(Left(p)) && Size(Right(p)) == Size(Left(p))
    ensures Parent(Left(p)) == p && Parent(Right(p)) == p
  {
    var s := Size(Left(p));
    HalfSizes(p);
    BlockFits(p);
    FloorHalves(p.addr, s);
    LeftHalf(p, s);
    RightValid(p, s);
    RightHalf(p, s);
  }

  /** Distinct blocks that are the two halves of one parent. */
  predicate Siblings(a: Prefix, b: Prefix) {
    IsBlock(a) && IsBlock(b) && a != b && a.bits > 0 && b.bits > 0 && Parent(a) == Parent(b)
  }

  lemma SiblingShape(a: Prefix, b: Prefix)
    requires Siblings(a, b)
    ensures a.fam == b.fam && a.bits == b.bits && Size(a) == Size(b)
    ensures || (a.addr + Size(a) == b.addr && Parent(a).addr == a.addr)
            || (b.addr + Size(b) == a.addr && Parent(a).addr == b.addr)
  {
    ParentBlock(a);
    ParentBlock(b);
  }

  // ---- order and containment ----

  /** sortPrefixes' order: family, then address, then length. */
  predicate Less(p: Prefix, q: Prefix) {
    if p.fam != q.fam then p.fam == V4
    else if p.addr != q.addr then p.addr < q.addr
    else p.bits < q.bits
  }

  ghost predicate StrictlySorted(s: seq<Prefix>) {
    forall i, j :: 0 <= i < j < |s| ==> Less(s[i], s[j])
  }

  /** The block of q lies inside the block of p. */
  predicate Inside(q: Prefix, p: Prefix)
    requires IsBlock(p) && IsBlock(q)
  {
    q.fam == p.fam && p.addr <= q.addr && q.addr + Size(q) <= p.addr + Size(p)
  }

  /** Overlapping blocks are nested, the one with more bits inside. */
  lemma Overlap(p: Prefix, q: Prefix, a: Addr)
    requires IsBlock(p) && IsBlock(q) && Contains(p, a) && Contains(q, a) && p.bits <= q.bits
    ensures Inside(q, p)
  {
    Laminar(p, q);
  }

  lemma {:induction false} Pow2Less(m: nat, n: nat)
    requires m < n
    ensures Pow2(m) < Pow2(n)
  {
    if m < n - 1 { Pow2Less(m, n - 1); }
  }

  lemma SizeLess(p: Prefix, q: Prefix)
    requires IsValid(p) && IsValid(q) && p.fam == q.fam && p.bits < q.bits
    ensures Size(q) < Size(p)
  {
    Pow2Less(Width(p.fam) - q.bits, Width(p.fam) - p.bits);
  }

  /** A block strictly inside another has more bits, and its parent still fits inside. */
  lemma StrictlyInside(q: Prefix, p: Prefix)
    requires IsBlock(p) && IsBlock(q) && Inside(q, p) && p != q
    ensures p.bits < q.bits && Inside(Parent(q), p)
  {
    if q.bits < p.bits {
      SizeLess(q, p);
    }
    assert p.bits < q.bits;
    ParentBlock(q);
    Laminar(p, Parent(q));
  }

  // ---- coverage ----

  ghost predicate Covered(s: seq<Prefix>, a: Addr) {
    exists p :: p in s && Contains(p, a)
  }

  ghost predicate SameCover(s: seq<Prefix>, t: seq<Prefix>) {
    forall a :: Covered(s, a) <==> Covered(t, a)
  }

  ghost predicate BlockCovered(p: Prefix, s: seq<Prefix>) {
    forall a :: Contains(p, a) ==> Covered(s, a)
  }

  ghost predicate AllValid(s: seq<Prefix>) {
    forall i :: 0 <= i < |s| ==> IsValid(s[i])
  }

  ghost predicate AllBlocks(s: seq<Prefix>) {
    forall i :: 0 <= i < |s| ==> IsBlock(s[i])
  }
}
