/** Aggregate, removeCovered, mergeOnePass and mergePair: the list passes, as functions. */
module Aggregation {
  import opened Wrappers
  import opened Prefixes

  // ---- the passes ----

  predicate Covers(kept: Prefix, p: Prefix) {
    kept.fam == p.fam && kept.bits <= p.bits && Contains(kept, IP(p.fam, p.addr))
  }

  predicate CoveredBy(out: seq<Prefix>, p: Prefix) {
    exists i :: 0 <= i < |out| && Covers(out[i], p)
  }

  function DropCovered(s: seq<Prefix>): (r: seq<Prefix>)
    ensures |r| <= |s|
  {
    if s == [] then []
    else
      var out, p := DropCovered(s[..|s| - 1]), s[|s| - 1];
      if CoveredBy(out, p) then out else out + [p]
  }

  function MergePair(a: Prefix, b: Prefix): (r: Option<Prefix>)
    requires IsValid(a) && IsValid(b)
    ensures r.Some? <==> Siblings(Masked(a), Masked(b))
    ensures r.Some? ==> r.value == Parent(Masked(a))
  {
    if a.fam != b.fam || a.bits != b.bits || a.bits == 0 then None
    else
      PairTest(a, b);
      var parent := Parent(a);
      if Contains(parent, IP(a.fam, a.addr)) && Contains(parent, IP(b.fam, b.addr))
         && Masked(a) != Masked(b) && Parent(b) == parent
      then Some(parent) else None
  }

  lemma PairTest(a: Prefix, b: Prefix)
    requires IsValid(a) && IsValid(b) && a.fam == b.fam && a.bits == b.bits > 0
    ensures Parent(Masked(a)) == Parent(a)
    ensures Siblings(Masked(a), Masked(b)) <==> Masked(a) != Masked(b) && Parent(b) == Parent(a)
    ensures Parent(b) == Parent(a) ==>
              Contains(Parent(a), IP(a.fam, a.addr)) && Contains(Parent(a), IP(b.fam, b.addr))
  {
    ParentOfMasked(a);
    ParentOfMasked(b);
    ParentContains(a);
    ParentContains(b);
  }

  lemma ParentContains(p: Prefix)
    requires IsValid(p) && p.bits > 0
    ensures Contains(Parent(p), IP(p.fam, p.addr))
  {
    MaskedContains(Prefix(p.fam, p.addr, p.bits - 1), IP(p.fam, p.addr));
  }

  lemma ParentOfMasked(p: Prefix)
    requires IsValid(p) && p.bits > 0
    ensures Parent(Masked(p)) == Parent(p)
  {
    var s := Pow2(Width(p.fam) - (p.bits - 1));
    assert s == 2 * Size(p);
    FloorTwice(p.addr, Size(p));
    ParentAddr(p, s);
    ParentAddr(Masked(p), s);
  }

  function MergePass(s: seq<Prefix>): (r: seq<Prefix>)
    requires AllValid(s)
    ensures |r| <= |s| && AllValid(r)
  {
    if |s| < 2 then s
    else if MergePair(s[0], s[1]).Some? then [MergePair(s[0], s[1]).value] + MergePass(s[2..])
    else [s[0]] + MergePass(s[1..])
  }

  /** The outer loop of Aggregate on masked input, where re-sorting and dropping change nothing. */
  function MergeAll(s: seq<Prefix>): seq<Prefix>
    requires AllValid(s)
    decreases |s|
  {
    if |MergePass(s)| == |s| then s else MergeAll(MergePass(s))
  }

  // ---- sorted lists ----

  ghost predicate Sorted(s: seq<Prefix>) {
    forall i, j :: 0 <= i < j < |s| ==> !Less(s[j], s[i])
  }

  lemma {:induction false} SortedUnique(s: seq<Prefix>, t: seq<Prefix>)
    requires Sorted(s) && Sorted(t) && multiset(s) == multiset(t)
    ensures s == t
  {
    if s == [] {
      assert |multiset(t)| == 0;
    } else {
      assert |multiset(s)| == |multiset(t)| == |t|;
      SortedHead(s, t);
      assert s == [s[0]] + s[1..] && t == [t[0]] + t[1..];
      assert multiset(s[1..]) == multiset(s) - multiset{s[0]};
      assert multiset(t[1..]) == multiset(t) - multiset{t[0]};
      SortedUnique(s[1..], t[1..]);
    }
  }

  lemma SortedHead(s: seq<Prefix>, t: seq<Prefix>)
    requires Sorted(s) && Sorted(t) && multiset(s) == multiset(t) && s != [] && t != []
    ensures s[0] == t[0]
  {
    assert s[0] in multiset(t) && t[0] in multiset(s);
    var i :| 0 <= i < |t| && t[i] == s[0];
    var j :| 0 <= j < |s| && s[j] == t[0];
  }

  /** p ends before q begins. */
  predicate Before(p: Prefix, q: Prefix) {
    IsValid(p) && (if p.fam == q.fam then p.addr + Size(p) <= q.addr else p.fam == V4)
  }

  /** Blocks in increasing order, no two of which overlap. */
  ghost predicate Apart(s: seq<Prefix>) {
    AllBlocks(s) && forall i, j :: 0 <= i < j < |s| ==> Before(s[i], s[j])
  }

  ghost predicate NoSiblings(s: seq<Prefix>) {
    forall p, q :: p in s && q in s ==> !Siblings(p, q)
  }

  // ---- removeCovered ----

  lemma CoversBlock(k: Prefix, p: Prefix, a: Addr)
    requires IsValid(p) && Covers(k, p) && Contains(p, a)
    ensures Contains(k, a)
  {
    var b := IP(p.fam, p.addr);
    assert Contains(p, b);
    MaskedContains(k, b);
    MaskedContains(p, b);
    Overlap(Masked(k), Masked(p), b);
    MaskedContains(p, a);
    MaskedContains(k, a);
  }

  lemma {:induction false} DropCoveredKeepsCover(s: seq<Prefix>)
    requires AllValid(s)
    ensures forall p :: p in DropCovered(s) ==> p in s
    ensures AllValid(DropCovered(s)) && (AllBlocks(s) ==> AllBlocks(DropCovered(s)))
    ensures SameCover(DropCovered(s), s)
  {
    if s != [] {
      var front, p := s[..|s| - 1], s[|s| - 1];
      assert s == front + [p];
      DropCoveredKeepsCover(front);
      var out := DropCovered(front);
      forall a ensures Covered(DropCovered(s), a) <==> Covered(s, a) {
        assert Covered(out, a) <==> Covered(front, a);
        if Contains(p, a) && CoveredBy(out, p) {
          var i :| 0 <= i < |out| && Covers(out[i], p);
          CoversBlock(out[i], p, a);
          assert out[i] in out;
        } else if Contains(p, a) {
          assert p in DropCovered(s);
        }
        if Covered(out, a) {
          var q :| q in out && Contains(q, a);
          assert q in DropCovered(s);
        }
        if Covered(front, a) {
          var q :| q in front && Contains(q, a);
          assert q in s;
        }
      }
    }
  }

  lemma {:induction false} DropCoveredApart(s: seq<Prefix>)
    requires AllBlocks(s) && Sorted(s)
    ensures Apart(DropCovered(s))
  {
    if s != [] {
      var front, p := s[..|s| - 1], s[|s| - 1];
      assert s == front + [p];
      DropCoveredApart(front);
      DropCoveredKeepsCover(front);
      var out := DropCovered(front);
      if !CoveredBy(out, p) {
        forall i | 0 <= i < |out| ensures Before(out[i], p) {
          assert out[i] in front;
          assert !Less(p, out[i]);
          assert !Covers(out[i], p);
          UncoveredIsAfter(out[i], p);
        }
      }
    }
  }

  lemma UncoveredIsAfter(k: Prefix, p: Prefix)
    requires IsBlock(k) && IsBlock(p) && !Less(p, k) && !Covers(k, p)
    ensures Before(k, p)
  {
    if k.fam == p.fam && p.addr < k.addr + Size(k) {
      assert Contains(k, IP(p.fam, p.addr));
      Laminar(p, k);
    }
  }

  lemma {:induction false} DropCoveredIdentity(s: seq<Prefix>)
    requires Apart(s)
    ensures DropCovered(s) == s
  {
    if s != [] {
      var front, p := s[..|s| - 1], s[|s| - 1];
      assert s == front + [p];
      DropCoveredIdentity(front);
      forall i | 0 <= i < |front| ensures !Covers(front[i], p) {
        assert Before(s[i], s[|s| - 1]);
      }
    }
  }

  lemma ApartSorted(s: seq<Prefix>)
    requires Apart(s)
    ensures StrictlySorted(s) && Sorted(s)
  {
    forall i, j | 0 <= i < j < |s| ensures Less(s[i], s[j]) {
      assert Before(s[i], s[j]);
    }
  }

  // ---- mergeOnePass ----

  lemma {:induction false} MergePassKeepsCover(s: seq<Prefix>)
    requires AllValid(s)
    ensures SameCover(MergePass(s), s)
  {
    if |s| >= 2 {
      if MergePair(s[0], s[1]).Some? {
        MergePassKeepsCover(s[2..]);
        PairCover(s[0], s[1]);
        CoverAppend([MergePair(s[0], s[1]).value], [s[0], s[1]], MergePass(s[2..]), s[2..]);
        assert s == [s[0], s[1]] + s[2..];
      } else {
        MergePassKeepsCover(s[1..]);
        CoverAppend([s[0]], [s[0]], MergePass(s[1..]), s[1..]);
        assert s == [s[0]] + s[1..];
      }
    }
  }

  lemma PairCover(p: Prefix, q: Prefix)
    requires IsValid(p) && IsValid(q) && MergePair(p, q).Some?
    ensures SameCover([MergePair(p, q).value], [p, q])
  {
    var r := MergePair(p, q).value;
    forall a ensures Covered([r], a) <==> Covered([p, q], a) {
      SiblingsFill(Masked(p), Masked(q), a);
      MaskedContains(p, a);
      MaskedContains(q, a);
      CoveredOne(r, a);
      CoveredOne(p, a);
      CoveredOne(q, a);
      CoveredAppend([p], [q], a);
      assert [p] + [q] == [p, q];
    }
  }

  lemma SiblingsFill(p: Prefix, q: Prefix, a: Addr)
    requires Siblings(p, q)
    ensures Contains(Parent(p), a) <==> Contains(p, a) || Contains(q, a)
  {
    SiblingShape(p, q);
    ParentBlock(p);
  }

  lemma CoverAppend(s1: seq<Prefix>, t1: seq<Prefix>, s2: seq<Prefix>, t2: seq<Prefix>)
    requires SameCover(s1, t1) && SameCover(s2, t2)
    ensures SameCover(s1 + s2, t1 + t2)
  {
    forall a ensures Covered(s1 + s2, a) <==> Covered(t1 + t2, a) {
      CoveredAppend(s1, s2, a);
      CoveredAppend(t1, t2, a);
    }
  }

  lemma CoveredOne(p: Prefix, a: Addr)
    ensures Covered([p], a) <==> Contains(p, a)
  {
    assert p in [p];
  }

  lemma CoveredAppend(s: seq<Prefix>, t: seq<Prefix>, a: Addr)
    ensures Covered(s + t, a) <==> Covered(s, a) || Covered(t, a)
  {
    if Covered(s, a) {
      var p :| p in s && Contains(p, a);
      assert p in s + t;
    }
    if Covered(t, a) {
      var p :| p in t && Contains(p, a);
      assert p in s + t;
    }
  }

  lemma BetweenIsRoom(p: Prefix, c: Prefix, q: Prefix)
    requires p.fam == q.fam && Before(p, c) && Before(c, q)
    ensures p.addr + Size(p) < q.addr
  {
  }

  /** Nothing fits between two siblings, so a scan of neighbours meets every pair. */
  lemma SiblingsAreNeighbours(s: seq<Prefix>, i: nat, j: nat)
    requires Apart(s) && i < j < |s| && Siblings(s[i], s[j])
    ensures j == i + 1 && s[i].addr == Parent(s[i]).addr
  {
    SiblingShape(s[i], s[j]);
    assert Before(s[i], s[j]);
    if j > i + 1 {
      BetweenIsRoom(s[i], s[i + 1], s[j]);
    }
  }

  /** What one pass leaves: every block without a sibling in the list, and every pair's parent. */
  ghost predicate AfterPass(p: Prefix, s: seq<Prefix>) {
    (p in s && forall q :: q in s ==> !Siblings(p, q)) || MergedIn(p, s)
  }

  ghost predicate MergedIn(p: Prefix, s: seq<Prefix>) {
    exists a, b :: a in s && b in s && Siblings(a, b) && p == Parent(a)
  }

  lemma {:induction false} MergePassMergesAll(s: seq<Prefix>)
    requires Apart(s)
    ensures forall p :: p in MergePass(s) <==> AfterPass(p, s)
  {
    if |s| == 1 {
      assert forall q :: q in s ==> q == s[0];
    } else if |s| >= 2 {
      var merged := MergePair(s[0], s[1]).Some?;
      var n := if merged then 2 else 1;
      var t := s[n..];
      assert Apart(t) by { assert forall i :: 0 <= i < |t| ==> t[i] == s[i + n]; }
      MergePassMergesAll(t);
      forall x, y | x in s[..n] && y in t ensures !Siblings(x, y) && !Siblings(y, x) {
        HeadHasNoSiblingBeyond(s, n, x, y);
      }
      assert s == s[..n] + t;
      forall p ensures p in MergePass(s) <==> AfterPass(p, s) {
        AfterPassSplit(s, n, p);
      }
    }
  }

  lemma HeadHasNoSiblingBeyond(s: seq<Prefix>, n: nat, x: Prefix, y: Prefix)
    requires Apart(s) && |s| >= 2
    requires n == if Siblings(s[0], s[1]) then 2 else 1
    requires x in s[..n] && y in s[n..]
    ensures !Siblings(x, y) && !Siblings(y, x)
  {
    var i :| 0 <= i < n && s[i] == x;
    var j :| n <= j < |s| && s[j] == y;
    if Siblings(x, y) {
      SiblingsAreNeighbours(s, i, j);
      SiblingShape(x, y);
    }
  }

  lemma AfterPassSplit(s: seq<Prefix>, n: nat, p: Prefix)
    requires Apart(s) && |s| >= 2 && n == if Siblings(s[0], s[1]) then 2 else 1
    requires AllValid(s[n..])
    requires forall q :: q in MergePass(s[n..]) <==> AfterPass(q, s[n..])
    requires forall x, y :: x in s[..n] && y in s[n..] ==> !Siblings(x, y) && !Siblings(y, x)
    ensures p in MergePass(s) <==> AfterPass(p, s)
  {
    var head := MergePass(s)[0];
    assert MergePass(s) == [head] + MergePass(s[n..]);
    HeadAfterPass(s, n, p);
    if AfterPass(p, s[n..]) { AfterPassWiden(s, n, p); }
    if AfterPass(p, s) && p != head { AfterPassNarrow(s, n, p); }
  }

  /** The head of the pass is what the first n entries contribute. */
  lemma HeadAfterPass(s: seq<Prefix>, n: nat, p: Prefix)
    requires Apart(s) && |s| >= 2 && n == if Siblings(s[0], s[1]) then 2 else 1
    requires forall x, y :: x in s[..n] && y in s[n..] ==> !Siblings(x, y) && !Siblings(y, x)
    ensures AfterPass(MergePass(s)[0], s)
    ensures p != MergePass(s)[0] && p in s[..n] ==> exists q :: q in s && Siblings(p, q)
    ensures p != MergePass(s)[0] ==>
              forall x, y :: x in s[..n] && y in s[..n] && Siblings(x, y) ==> p != Parent(x)
  {
    assert s == s[..n] + s[n..];
    assert s[0] in s && s[1] in s;
    if n == 2 {
      assert s[..2] == [s[0], s[1]];
      assert Siblings(s[1], s[0]);
      assert MergedIn(MergePass(s)[0], s);
    } else {
      assert s[..1] == [s[0]];
    }
  }

  lemma AfterPassNarrow(s: seq<Prefix>, n: nat, p: Prefix)
    requires n <= |s| && AfterPass(p, s)
    requires forall x, y :: x in s[..n] && y in s[n..] ==> !Siblings(x, y) && !Siblings(y, x)
    requires p in s[..n] ==> exists q :: q in s && Siblings(p, q)
    requires forall x, y :: x in s[..n] && y in s[..n] && Siblings(x, y) ==> p != Parent(x)
    ensures AfterPass(p, s[n..])
  {
    assert s == s[..n] + s[n..];
    if MergedIn(p, s) {
      var a, b :| a in s && b in s && Siblings(a, b) && p == Parent(a);
      assert a in s[n..] && b in s[n..];
      assert MergedIn(p, s[n..]);
    }
  }

  lemma AfterPassWiden(s: seq<Prefix>, n: nat, p: Prefix)
    requires n <= |s| && AfterPass(p, s[n..])
    requires forall x, y :: x in s[..n] && y in s[n..] ==> !Siblings(x, y) && !Siblings(y, x)
    ensures AfterPass(p, s)
  {
    assert s == s[..n] + s[n..];
    if MergedIn(p, s[n..]) {
      var a, b :| a in s[n..] && b in s[n..] && Siblings(a, b) && p == Parent(a);
      assert MergedIn(p, s);
    }
  }

  lemma {:induction false} MergePassApart(s: seq<Prefix>)
    requires Apart(s)
    ensures Apart(MergePass(s))
    ensures s != [] ==> MergePass(s) != [] && MergePass(s)[0].fam == s[0].fam && MergePass(s)[0].addr == s[0].addr
    ensures |MergePass(s)| == |s| <==> NoSiblings(s)
    ensures NoSiblings(s) ==> MergePass(s) == s
  {
    if |s| >= 2 {
      var n := if MergePair(s[0], s[1]).Some? then 2 else 1;
      var t := s[n..];
      assert Apart(t) by { assert forall i :: 0 <= i < |t| ==> t[i] == s[i + n]; }
      MergePassApart(t);
      var head := MergePass(s)[0];
      assert MergePass(s) == [head] + MergePass(t);
      if n == 2 {
        SiblingsAreNeighbours(s, 0, 1);
        ParentBlock(s[0]);
        SiblingShape(s[0], s[1]);
      }
      HeadBeforeRest(s, n, head);
      SiblingsSplit(s, n);
    }
  }

  lemma SiblingsSplit(s: seq<Prefix>, n: nat)
    requires Apart(s) && |s| >= 2
    requires n == if Siblings(s[0], s[1]) then 2 else 1
    ensures NoSiblings(s) <==> n == 1 && NoSiblings(s[n..])
  {
    assert s == s[..n] + s[n..];
    assert s[0] in s && s[1] in s;
    if n == 1 && NoSiblings(s[n..]) {
      forall p, q | p in s && q in s ensures !Siblings(p, q) {
        if p in s[n..] && q in s[..n] { HeadHasNoSiblingBeyond(s, n, q, p); }
        if p in s[..n] && q in s[n..] { HeadHasNoSiblingBeyond(s, n, p, q); }
      }
    }
  }

  lemma HeadBeforeRest(s: seq<Prefix>, n: nat, head: Prefix)
    requires Apart(s) && 1 <= n <= 2 <= |s| && IsBlock(head)
    requires head.fam == s[0].fam == s[n - 1].fam && head.addr + Size(head) == s[n - 1].addr + Size(s[n - 1])
    requires AllValid(s[n..]) && Apart(MergePass(s[n..]))
    requires s[n..] != [] ==> MergePass(s[n..])[0].fam == s[n].fam && MergePass(s[n..])[0].addr == s[n].addr
    ensures Apart([head] + MergePass(s[n..]))
  {
    var rest := MergePass(s[n..]);
    forall j | 0 <= j < |rest| ensures Before(head, rest[j]) {
      assert s[n..] != [];
      assert Before(s[n - 1], s[n]);
      if j > 0 { assert Before(rest[0], rest[j]); }
    }
  }
}
