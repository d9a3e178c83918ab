/** What Normalize computes, as a function, and its laws. */
module Normalization {
  import opened Prefixes
  import opened Aggregation
  import opened CanonicalForm

  /** p is the masked form of some valid entry of s. */
  ghost predicate MaskedIn(p: Prefix, s: seq<Prefix>) {
    exists q :: q in s && IsValid(q) && Masked(q) == p
  }

  function Insert(p: Prefix, t: seq<Prefix>): seq<Prefix> {
    if t == [] || Less(p, t[0]) then [p] + t
    else if p == t[0] then t
    else [t[0]] + Insert(p, t[1..])
  }

  /** The valid entries, masked, deduplicated and sorted. */
  function SortedSet(s: seq<Prefix>): seq<Prefix> {
    if s == [] then []
    else if IsValid(s[0]) then Insert(Masked(s[0]), SortedSet(s[1..]))
    else SortedSet(s[1..])
  }

  function Normalized(s: seq<Prefix>, aggregate: bool): seq<Prefix>
  {
    var t := SortedSet(s);
    SortedSetMeaning(s);
    if aggregate then
      DropCoveredKeepsCover(t);
      MergeAll(DropCovered(t))
    else t
  }

  lemma {:induction false} InsertMeaning(p: Prefix, t: seq<Prefix>)
    requires StrictlySorted(t)
    ensures StrictlySorted(Insert(p, t))
    ensures forall q :: q in Insert(p, t) <==> q == p || q in t
  {
    if t != [] && !Less(p, t[0]) && p != t[0] {
      InsertMeaning(p, t[1..]);
      assert t == [t[0]] + t[1..];
      forall q | q in Insert(p, t[1..]) ensures Less(t[0], q) {
        if q != p { var i :| 0 <= i < |t[1..]| && t[1..][i] == q; }
      }
    }
  }

  lemma {:induction false} SortedSetMeaning(s: seq<Prefix>)
    ensures StrictlySorted(SortedSet(s))
    ensures forall p :: p in SortedSet(s) <==> MaskedIn(p, s)
    ensures AllBlocks(SortedSet(s))
  {
    if s != [] {
      SortedSetMeaning(s[1..]);
      assert s == [s[0]] + s[1..];
      if IsValid(s[0]) {
        InsertMeaning(Masked(s[0]), SortedSet(s[1..]));
      }
      forall p ensures p in SortedSet(s) <==> MaskedIn(p, s) {
        MaskedInSplit(p, s);
      }
    }
    forall i | 0 <= i < |SortedSet(s)| ensures IsBlock(SortedSet(s)[i]) {
      assert SortedSet(s)[i] in SortedSet(s);
    }
  }

  lemma MaskedInSplit(p: Prefix, s: seq<Prefix>)
    requires s != []
    ensures MaskedIn(p, s) <==> (IsValid(s[0]) && p == Masked(s[0])) || MaskedIn(p, s[1..])
  {
    assert s == [s[0]] + s[1..];
  }

  lemma SortedSetCover(s: seq<Prefix>)
    ensures SameCover(SortedSet(s), s)
  {
    var t := SortedSet(s);
    SortedSetMeaning(s);
    forall a ensures Covered(t, a) <==> Covered(s, a) {
      if Covered(t, a) {
        var p :| p in t && Contains(p, a);
        var q :| q in s && IsValid(q) && Masked(q) == p;
        MaskedContains(q, a);
      }
      if Covered(s, a) {
        var q :| q in s && Contains(q, a);
        assert MaskedIn(Masked(q), s);
        MaskedContains(q, a);
      }
    }
  }

  lemma StrictlySortedSorted(s: seq<Prefix>)
    requires StrictlySorted(s)
    ensures Sorted(s)
  {
  }

  /** Normalize's result: without aggregation the sorted set of masked entries, with it the
      canonical form of the covered addresses. */
  lemma NormalizedMeaning(s: seq<Prefix>, aggregate: bool)
    ensures StrictlySorted(Normalized(s, aggregate)) && AllBlocks(Normalized(s, aggregate))
    ensures !aggregate ==> forall p :: p in Normalized(s, aggregate) <==> MaskedIn(p, s)
    ensures aggregate ==> Canonical(Normalized(s, aggregate), s)
  {
    SortedSetMeaning(s);
    if aggregate {
      var t := SortedSet(s);
      StrictlySortedSorted(t);
      DropCoveredKeepsCover(t);
      DropCoveredApart(t);
      MergeAllCanonical(DropCovered(t));
      SortedSetCover(s);
      CanonicalTransfer(Normalized(s, true), DropCovered(t), s);
      ApartSorted(Normalized(s, true));
    }
  }

  /** Equal coverage, family by family, gives equal aggregated lists. */
  lemma AggregatedEqual(s: seq<Prefix>, t: seq<Prefix>)
    requires SameCover(s, t)
    ensures Normalized(s, true) == Normalized(t, true)
  {
    NormalizedMeaning(s, true);
    NormalizedMeaning(t, true);
    CanonicalUnique(Normalized(s, true), s, Normalized(t, true), t);
  }

  lemma NormalizedCover(s: seq<Prefix>, aggregate: bool)
    ensures SameCover(Normalized(s, aggregate), s)
  {
    SortedSetCover(s);
    if aggregate {
      NormalizedMeaning(s, true);
      CanonicalCover(s);
    }
  }

  lemma CanonicalCover(s: seq<Prefix>)
    ensures SameCover(Normalized(s, true), s)
  {
    var t := SortedSet(s);
    SortedSetMeaning(s);
    SortedSetCover(s);
    DropCoveredKeepsCover(t);
    MergeAllCover(DropCovered(t));
  }

  lemma {:induction false} MergeAllCover(s: seq<Prefix>)
    requires AllValid(s)
    ensures SameCover(MergeAll(s), s)
    decreases |s|
  {
    if |MergePass(s)| != |s| {
      MergePassKeepsCover(s);
      MergeAllCover(MergePass(s));
    }
  }

  lemma SortedSetIdentity(s: seq<Prefix>)
    requires StrictlySorted(s) && AllBlocks(s)
    ensures SortedSet(s) == s
  {
    SortedSetMeaning(s);
    forall p ensures MaskedIn(p, s) <==> p in s {
      if p in s { assert Masked(p) == p; }
    }
    StrictlySortedUnique(SortedSet(s), s);
  }

  /** Normalizing a normalized list again: idempotent, and a later aggregation is absorbed. What
      aggregation has merged is never split again. */
  lemma Renormalized(s: seq<Prefix>, before: bool, now: bool)
    ensures Normalized(Normalized(s, before), now) == Normalized(s, before || now)
  {
    var t := Normalized(s, before);
    NormalizedMeaning(s, before);
    NormalizedCover(s, before);
    SortedSetIdentity(t);
    if now {
      AggregatedEqual(t, s);
    }
  }

  /** Aggregation changes nothing exactly when the masked entries are already disjoint and no two
      of them are siblings. */
  lemma AggregationIsIdentity(s: seq<Prefix>)
    ensures Normalized(s, true) == Normalized(s, false) <==>
            forall p, q :: MaskedIn(p, s) && MaskedIn(q, s) && p != q ==> !Siblings(p, q) && !Covers(p, q)
  {
    var t := SortedSet(s);
    SortedSetMeaning(s);
    NormalizedMeaning(s, true);
    if Normalized(s, true) == t {
      forall p, q | MaskedIn(p, s) && MaskedIn(q, s) && p != q ensures !Siblings(p, q) && !Covers(p, q) {
        CanonicalPair(t, s, p, q);
      }
    } else if forall p, q :: MaskedIn(p, s) && MaskedIn(q, s) && p != q ==> !Siblings(p, q) && !Covers(p, q) {
      forall i, j | 0 <= i < j < |t| ensures Before(t[i], t[j]) {
        assert Less(t[i], t[j]) && t[i] in t && t[j] in t;
        assert t[i] != t[j];
        UncoveredIsAfter(t[i], t[j]);
      }
      assert Apart(t);
      DropCoveredIdentity(t);
      MergePassApart(t);
      assert NoSiblings(t);
    }
  }

  lemma CanonicalPair(t: seq<Prefix>, s: seq<Prefix>, p: Prefix, q: Prefix)
    requires Canonical(t, s) && p in t && q in t && p != q
    ensures !Siblings(p, q) && !Covers(p, q)
  {
    var i :| 0 <= i < |t| && t[i] == p;
    var j :| 0 <= j < |t| && t[j] == q;
    assert i < j ==> Before(t[i], t[j]);
    assert j < i ==> Before(t[j], t[i]);
    if Siblings(p, q) {
      forall a | Contains(Parent(p), a) ensures Covered(s, a) {
        SiblingsFill(p, q, a);
      }
    }
  }
}
