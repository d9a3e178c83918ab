/** What aggregation computes: the unique, shortest list of maximal CIDR blocks of the covered set. */
module CanonicalForm {
  import opened Prefixes
  import opened Aggregation

  /** p is a CIDR block of the covered set that no larger CIDR block of that set contains. */
  ghost predicate Maximal(p: Prefix, s: seq<Prefix>) {
    IsBlock(p) && BlockCovered(p, s) && (p.bits > 0 ==> !BlockCovered(Parent(p), s))
  }

  ghost predicate Canonical(out: seq<Prefix>, s: seq<Prefix>) {
    Apart(out) && forall p :: p in out <==> Maximal(p, s)
  }

  // ---- canonicity ----

  lemma InsideCovered(q: Prefix, p: Prefix, s: seq<Prefix>)
    requires IsBlock(p) && IsBlock(q) && Inside(q, p) && BlockCovered(p, s)
    ensures BlockCovered(q, s)
  {
    forall a | Contains(q, a) ensures Covered(s, a) {
      assert Contains(p, a);
    }
  }

  /** A list without siblings that covers a whole block holds one entry containing that block. */
  lemma {:induction false} OneEntryHoldsBlock(s: seq<Prefix>, b: Prefix) returns (e: Prefix)
    requires AllBlocks(s) && NoSiblings(s) && IsBlock(b) && BlockCovered(b, s)
    ensures e in s && IsBlock(e) && Inside(b, e)
    decreases Width(b.fam) - b.bits
  {
    if b.bits == Width(b.fam) {
      assert Contains(b, IP(b.fam, b.addr));
      e :| e in s && Contains(e, IP(b.fam, b.addr));
    } else {
      Halves(b);
      InsideCovered(Left(b), b, s);
      InsideCovered(Right(b), b, s);
      e := OneEntryHoldsBlock(s, Left(b));
      if e == Left(b) {
        e := OneEntryHoldsBlock(s, Right(b));
        assert !Siblings(Left(b), e);
        StrictlyInside(Right(b), e);
      } else {
        StrictlyInside(Left(b), e);
      }
    }
  }

  lemma NoSiblingsCanonical(s: seq<Prefix>)
    requires Apart(s) && NoSiblings(s)
    ensures Canonical(s, s)
  {
    forall p ensures p in s <==> Maximal(p, s) {
      if p in s {
        EntryIsMaximal(s, p);
      } else if Maximal(p, s) {
        var e := OneEntryHoldsBlock(s, p);
        StrictlyInside(p, e);
        InsideCovered(Parent(p), e, s);
      }
    }
  }

  lemma EntryIsMaximal(s: seq<Prefix>, p: Prefix)
    requires Apart(s) && NoSiblings(s) && p in s
    ensures Maximal(p, s)
  {
    if p.bits > 0 && BlockCovered(Parent(p), s) {
      var e := OneEntryHoldsBlock(s, Parent(p));
      ParentBlock(p);
    }
  }

  lemma CanonicalTransfer(out: seq<Prefix>, s: seq<Prefix>, t: seq<Prefix>)
    requires Canonical(out, s) && SameCover(s, t)
    ensures Canonical(out, t)
  {
    forall p ensures Maximal(p, s) <==> Maximal(p, t) {
    }
  }

  lemma {:induction false} MergeAllCanonical(s: seq<Prefix>)
    requires Apart(s)
    ensures Canonical(MergeAll(s), s)
    decreases |s|
  {
    MergePassApart(s);
    if |MergePass(s)| == |s| {
      NoSiblingsCanonical(s);
    } else {
      MergeAllCanonical(MergePass(s));
      MergePassKeepsCover(s);
      CanonicalTransfer(MergeAll(s), MergePass(s), s);
    }
  }

  // ---- uniqueness ----

  lemma {:induction false} StrictlySortedUnique(s: seq<Prefix>, t: seq<Prefix>)
    requires StrictlySorted(s) && StrictlySorted(t) && forall p :: p in s <==> p in t
    ensures s == t
  {
    if s == [] {
      assert forall p :: p in multiset(t) ==> p in t;
      assert multiset(t) == multiset{};
      assert |t| == |multiset(t)|;
    } else {
      assert s[0] in t;
      var i :| 0 <= i < |t| && t[i] == s[0];
      assert t[0] in s;
      var j :| 0 <= j < |s| && s[j] == t[0];
      assert s[0] == t[0];
      forall p ensures p in s[1..] <==> p in t[1..] {
        TailMembers(s, p);
        TailMembers(t, p);
      }
      StrictlySortedUnique(s[1..], t[1..]);
    }
  }

  lemma TailMembers(s: seq<Prefix>, p: Prefix)
    requires StrictlySorted(s) && s != []
    ensures p in s[1..] <==> p in s && p != s[0]
  {
    assert s == [s[0]] + s[1..];
  }

  lemma CanonicalUnique(o1: seq<Prefix>, s1: seq<Prefix>, o2: seq<Prefix>, s2: seq<Prefix>)
    requires Canonical(o1, s1) && Canonical(o2, s2) && SameCover(s1, s2)
    ensures o1 == o2
  {
    CanonicalTransfer(o1, s1, s2);
    ApartSorted(o1);
    ApartSorted(o2);
    StrictlySortedUnique(o1, o2);
  }

  // ---- minimality ----

  /** A covering list's entry that meets a maximal block lies inside it. */
  lemma MeetsMaximal(p: Prefix, q: Prefix, s: seq<Prefix>, a: Addr)
    requires Maximal(p, s) && IsBlock(q) && BlockCovered(q, s)
    requires Contains(p, a) && Contains(q, a)
    ensures Inside(q, p)
  {
    if q.bits < p.bits {
      Overlap(q, p, a);
      StrictlyInside(p, q);
      InsideCovered(Parent(p), q, s);
    } else {
      Overlap(p, q, a);
    }
  }

  /** No CIDR list with the same coverage is shorter than a canonical one. */
  lemma CanonicalShortest(out: seq<Prefix>, s: seq<Prefix>, t: seq<Prefix>)
    requires Canonical(out, s) && AllValid(t) && SameCover(s, t)
    ensures |out| <= |t|
  {
    forall i | 0 <= i < |out| ensures exists j :: 0 <= j < |t| && Contains(t[j], First(out[i])) {
      assert out[i] in out;
      assert Covered(s, First(out[i]));
      var q :| q in t && Contains(q, First(out[i]));
    }
    var pick := seq(|out|, i requires 0 <= i < |out| => EntryFor(t, First(out[i])));
    forall i, k | 0 <= i < k < |pick| ensures pick[i] != pick[k] {
      if pick[i] == pick[k] {
        OneEntryEach(out, s, t, i, k, pick[i]);
      }
    }
    DistinctBelow(pick, |t|);
  }

  function First(p: Prefix): Addr {
    IP(p.fam, p.addr)
  }

  ghost function EntryFor(t: seq<Prefix>, a: Addr): (j: int)
    ensures (exists i :: 0 <= i < |t| && Contains(t[i], a)) ==> 0 <= j < |t| && Contains(t[j], a)
  {
    if exists i :: 0 <= i < |t| && Contains(t[i], a)
    then var j :| 0 <= j < |t| && Contains(t[j], a); j
    else -1
  }

  lemma OneEntryEach(out: seq<Prefix>, s: seq<Prefix>, t: seq<Prefix>, i: int, k: int, j: int)
    requires Canonical(out, s) && AllValid(t) && SameCover(s, t)
    requires 0 <= i < k < |out| && 0 <= j < |t| && Contains(t[j], First(out[i]))
    ensures !Contains(t[j], First(out[k]))
  {
    var q := Masked(t[j]);
    forall a | Contains(q, a) ensures Covered(s, a) {
      MaskedContains(t[j], a);
      assert Covered(t, a);
    }
    assert out[i] in out;
    MaskedContains(t[j], First(out[i]));
    MaskedContains(t[j], First(out[k]));
    MeetsMaximal(out[i], q, s, First(out[i]));
    assert Before(out[i], out[k]);
  }

  lemma {:induction false} DistinctBelow(js: seq<int>, n: nat)
    requires forall i :: 0 <= i < |js| ==> 0 <= js[i] < n
    requires forall i, k :: 0 <= i < k < |js| ==> js[i] != js[k]
    ensures |js| <= n
    decreases n
  {
    if js != [] {
      assert 0 <= js[0] < n;
      if n - 1 in js {
        var i :| 0 <= i < |js| && js[i] == n - 1;
        DistinctBelow(js[..i] + js[i + 1..], n - 1);
      } else {
        DistinctBelow(js, n - 1);
      }
    }
  }

  // ---- the number of passes ----

  function Iterate(s: seq<Prefix>, k: nat): (r: seq<Prefix>)
    requires AllValid(s)
    ensures AllValid(r)
  {
    if k == 0 then s else MergePass(Iterate(s, k - 1))
  }

  ghost predicate BitsAtMost(s: seq<Prefix>, w: int) {
    forall i :: 0 <= i < |s| ==> s[i].bits <= w
  }

  /** After k passes only pairs of at most w - k bits can be left to merge. */
  lemma {:induction false} PairsShrink(s: seq<Prefix>, w: int, k: nat)
    requires Apart(s) && BitsAtMost(s, w)
    ensures Apart(Iterate(s, k))
    ensures forall p, q :: p in Iterate(s, k) && q in Iterate(s, k) && Siblings(p, q) ==> p.bits <= w - k
  {
    if k > 0 {
      PairsShrink(s, w, k - 1);
      var t := Iterate(s, k - 1);
      MergePassApart(t);
      MergePassMergesAll(t);
      forall p, q | p in MergePass(t) && q in MergePass(t) && Siblings(p, q) ensures p.bits <= w - k {
        assert AfterPass(p, t) && AfterPass(q, t);
        if !MergedIn(p, t) {
          assert q in t ==> !Siblings(p, q);
          assert MergedIn(q, t);
        }
      }
    }
  }

  /** With no prefix longer than w bits, a pass after the w-th one changes nothing. */
  lemma PassBound(s: seq<Prefix>, w: nat, k: nat)
    requires Apart(s) && BitsAtMost(s, w) && k >= w
    ensures MergePass(Iterate(s, k)) == Iterate(s, k)
  {
    PairsShrink(s, w, k);
    MergePassApart(Iterate(s, k));
  }
}
