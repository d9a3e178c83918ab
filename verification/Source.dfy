/** The loops of internal/source: slices are arrays, sorted in place. */
module Source {
  import opened Wrappers
  import opened Prefixes
  import opened Sequences
  import opened Aggregation
  import opened CanonicalForm
  import opened Normalization

  /** sort.Slice with the (family, address, length) order: some in-place sort. */
  method SortPrefixes(a: array<Prefix>)
    modifies a
    ensures Sorted(a[..]) && multiset(a[..]) == multiset(old(a[..]))
  {
    for n := 0 to a.Length
      invariant Sorted(a[..n])
      invariant multiset(a[..]) == multiset(old(a[..]))
    {
      SiftDown(a, n);
    }
    assert a[..a.Length] == a[..];
  }

  /** Moves the entry at n down to its place among the sorted entries before it. */
  method SiftDown(a: array<Prefix>, n: nat)
    requires n < a.Length && Sorted(a[..n])
    modifies a
    ensures Sorted(a[..n + 1]) && multiset(a[..]) == multiset(old(a[..]))
  {
    var k := n;
    while k > 0 && Less(a[k], a[k - 1])
      invariant 0 <= k <= n
      invariant forall i, j :: 0 <= i < j <= n && j != k ==> !Less(a[j], a[i])
      invariant forall j :: k < j <= n ==> Less(a[k], a[j])
      invariant multiset(a[..]) == multiset(old(a[..]))
    {
      Swap(a, k);
      k := k - 1;
    }
    forall i, j | 0 <= i < j <= n ensures !Less(a[j], a[i]) {
      if j == k && i < k - 1 { assert !Less(a[k - 1], a[i]); }
    }
  }

  method Swap(a: array<Prefix>, k: nat)
    requires 0 < k < a.Length
    modifies a
    ensures a[k - 1] == old(a[k]) && a[k] == old(a[k - 1])
    ensures forall i :: 0 <= i < a.Length && i != k && i != k - 1 ==> a[i] == old(a[i])
    ensures multiset(a[..]) == multiset(old(a[..]))
  {
    a[k - 1], a[k] := a[k], a[k - 1];
  }

  /** Go slices grow by append; the finished list becomes an array the next pass may sort. */
  method ToArray(s: seq<Prefix>) returns (a: array<Prefix>)
    ensures fresh(a) && a[..] == s
  {
    a := new Prefix[|s|](i requires 0 <= i < |s| => s[i]);
    assert a[..] == s;
  }

  method RemoveCovered(prefixes: array<Prefix>) returns (out: array<Prefix>)
    modifies prefixes
    ensures fresh(out)
    ensures Sorted(prefixes[..]) && multiset(prefixes[..]) == multiset(old(prefixes[..]))
    ensures out[..] == DropCovered(prefixes[..])
  {
    SortPrefixes(prefixes);
    var kept: seq<Prefix> := [];
    for i := 0 to prefixes.Length
      invariant kept == DropCovered(prefixes[..i])
    {
      var covered := false;
      for j := 0 to |kept|
        invariant !covered
        invariant forall k :: 0 <= k < j ==> !Covers(kept[k], prefixes[i])
      {
        if Covers(kept[j], prefixes[i]) {
          covered := true;
          break;
        }
      }
      assert covered <==> CoveredBy(kept, prefixes[i]);
      assert prefixes[..i + 1][..i] == prefixes[..i];
      if !covered {
        kept := kept + [prefixes[i]];
      }
    }
    assert prefixes[..prefixes.Length] == prefixes[..];
    out := ToArray(kept);
  }

  method MergeOnePass(prefixes: array<Prefix>) returns (out: array<Prefix>, changed: bool)
    requires AllValid(prefixes[..])
    modifies prefixes
    ensures fresh(out)
    ensures Sorted(prefixes[..]) && multiset(prefixes[..]) == multiset(old(prefixes[..]))
    ensures AllValid(prefixes[..]) && out[..] == MergePass(prefixes[..])
    ensures changed <==> out.Length < prefixes.Length
  {
    ghost var before := prefixes[..];
    SortPrefixes(prefixes);
    PermutedValid(before, prefixes[..]);
    var merged;
    merged, changed := ScanPairs(prefixes[..], TryMerge);
    PassWithIsPass(prefixes[..], 0);
    assert prefixes[..][0..] == prefixes[..];
    out := ToArray(merged);
  }

  /** The scan of mergeOnePass over the sorted slice, with mergePair as a parameter. */
  method ScanPairs(s: seq<Prefix>, pair: (Prefix, Prefix) -> Option<Prefix>)
    returns (merged: seq<Prefix>, changed: bool)
    ensures merged == PassWith(s, pair, 0) && (changed <==> |merged| < |s|)
  {
    merged, changed := [], false;
    var i := 0;
    while i < |s|
      invariant 0 <= i <= |s|
      invariant merged + PassWith(s, pair, i) == PassWith(s, pair, 0)
      invariant |merged| <= i && (changed <==> |merged| < i)
    {
      if i + 1 < |s| {
        var parent := pair(s[i], s[i + 1]);
        if parent.Some? {
          AppendHead(merged, parent.value, PassWith(s, pair, i + 2));
          merged := merged + [parent.value];
          changed := true;
          i := i + 2;
          continue;
        }
      }
      AppendHead(merged, s[i], PassWith(s, pair, i + 1));
      merged := merged + [s[i]];
      i := i + 1;
    }
  }

  lemma AppendHead(done: seq<Prefix>, head: Prefix, rest: seq<Prefix>)
    ensures done + ([head] + rest) == done + [head] + rest
  {
  }

  /** The rest of the pass from index i on. */
  function PassWith(s: seq<Prefix>, pair: (Prefix, Prefix) -> Option<Prefix>, i: nat): seq<Prefix>
    requires i <= |s|
    decreases |s| - i
  {
    if i == |s| then []
    else if i + 1 < |s| && pair(s[i], s[i + 1]).Some?
    then [pair(s[i], s[i + 1]).value] + PassWith(s, pair, i + 2)
    else [s[i]] + PassWith(s, pair, i + 1)
  }

  function TryMerge(a: Prefix, b: Prefix): Option<Prefix> {
    if IsValid(a) && IsValid(b) then MergePair(a, b) else None
  }

  lemma {:induction false} PassWithIsPass(s: seq<Prefix>, i: nat)
    requires AllValid(s) && i <= |s|
    ensures PassWith(s, TryMerge, i) == MergePass(s[i..])
    decreases |s| - i
  {
    var rest := s[i..];
    if i + 1 < |s| {
      PassWithIsPass(s, i + 1);
      PassWithIsPass(s, i + 2);
      assert rest[2..] == s[i + 2..] && rest[1..] == s[i + 1..];
      assert rest[0] == s[i] && rest[1] == s[i + 1];
      assert TryMerge(s[i], s[i + 1]) == MergePair(s[i], s[i + 1]);
    }
  }

  lemma PermutedValid(s: seq<Prefix>, t: seq<Prefix>)
    requires multiset(s) == multiset(t)
    ensures AllValid(s) ==> AllValid(t)
    ensures AllBlocks(s) ==> AllBlocks(t)
    ensures SameCover(s, t)
    ensures forall w :: BitsAtMost(s, w) ==> BitsAtMost(t, w)
  {
    assert forall p :: p in s <==> p in multiset(s);
    assert forall p :: p in t <==> p in multiset(t);
    forall i | 0 <= i < |t| ensures t[i] in s { assert t[i] in t; }
  }

  /** One turn of the outer loop: sort, merge neighbours, sort, drop covered. */
  ghost predicate Turn(was: seq<Prefix>, sorted: seq<Prefix>, merged: seq<Prefix>, resorted: seq<Prefix>,
                       next: seq<Prefix>) {
    && multiset(sorted) == multiset(was) && Sorted(sorted)
    && AllValid(sorted) && merged == MergePass(sorted)
    && multiset(resorted) == multiset(merged) && Sorted(resorted)
    && next == DropCovered(resorted)
  }

  lemma TurnKeepsCover(was: seq<Prefix>, sorted: seq<Prefix>, merged: seq<Prefix>, resorted: seq<Prefix>,
                       next: seq<Prefix>)
    requires AllValid(was) && Turn(was, sorted, merged, resorted, next)
    ensures AllValid(next) && SameCover(next, was)
  {
    PermutedValid(was, sorted);
    MergePassKeepsCover(sorted);
    PermutedValid(merged, resorted);
    DropCoveredKeepsCover(resorted);
  }

  /** On disjoint blocks both sorts and the second removal change nothing. */
  lemma TurnOnBlocks(was: seq<Prefix>, sorted: seq<Prefix>, merged: seq<Prefix>, resorted: seq<Prefix>,
                     next: seq<Prefix>)
    requires Apart(was) && Turn(was, sorted, merged, resorted, next)
    ensures next == merged == MergePass(was) && Apart(next)
  {
    ApartSorted(was);
    SortedUnique(was, sorted);
    MergePassApart(was);
    ApartSorted(merged);
    SortedUnique(merged, resorted);
    DropCoveredIdentity(merged);
  }

  lemma FirstRemoval(input: seq<Prefix>, sorted: seq<Prefix>)
    requires AllValid(input) && multiset(sorted) == multiset(input) && Sorted(sorted)
    ensures AllValid(DropCovered(sorted)) && SameCover(DropCovered(sorted), input)
    ensures AllBlocks(input) ==> Apart(DropCovered(sorted))
    ensures forall w :: BitsAtMost(input, w) ==> BitsAtMost(DropCovered(sorted), w)
  {
    PermutedValid(input, sorted);
    DropCoveredKeepsCover(sorted);
    if AllBlocks(input) { DropCoveredApart(sorted); }
    forall i | 0 <= i < |DropCovered(sorted)| ensures DropCovered(sorted)[i] in sorted {
      assert DropCovered(sorted)[i] in DropCovered(sorted);
    }
  }

  method OneTurn(current: array<Prefix>) returns (next: array<Prefix>, changed: bool)
    requires AllValid(current[..])
    modifies current
    ensures fresh(next) && AllValid(next[..]) && SameCover(next[..], old(current[..]))
    ensures next.Length <= current.Length && (changed ==> next.Length < current.Length)
    ensures Apart(old(current[..])) ==> next[..] == MergePass(old(current[..])) && Apart(next[..])
  {
    ghost var was := current[..];
    var merged;
    merged, changed := MergeOnePass(current);
    ghost var list := merged[..];
    next := RemoveCovered(merged);
    assert |multiset(list)| == |list| && |multiset(merged[..])| == |merged[..]|;
    TurnKeepsCover(was, current[..], list, merged[..], next[..]);
    if Apart(was) { TurnOnBlocks(was, current[..], list, merged[..], next[..]); }
  }

  /** Coverage is kept for every valid input. On masked input the result is the canonical list,
      reached within w + 1 passes when no prefix is longer than w bits. */
  method Aggregate(prefixes: array<Prefix>) returns (out: array<Prefix>, ghost passes: nat)
    requires AllValid(prefixes[..])
    modifies prefixes
    ensures out == prefixes || fresh(out)
    ensures AllValid(out[..]) && SameCover(out[..], old(prefixes[..]))
    ensures multiset(prefixes[..]) == multiset(old(prefixes[..]))
    ensures AllBlocks(old(prefixes[..])) ==> Canonical(out[..], old(prefixes[..]))
    ensures AllBlocks(old(prefixes[..])) ==>
              forall w: nat :: BitsAtMost(old(prefixes[..]), w) ==> passes <= w + 1
  {
    passes := 0;
    ghost var input := prefixes[..];
    if prefixes.Length < 2 {
      if AllBlocks(input) { NoSiblingsCanonical(input); }
      return prefixes, 0;
    }
    var current := RemoveCovered(prefixes);
    FirstRemoval(input, prefixes[..]);
    ghost var start := current[..];
    while true
      invariant fresh(current) && multiset(prefixes[..]) == multiset(input)
      invariant AllValid(start) && AllValid(current[..]) && SameCover(current[..], input)
      invariant AllBlocks(input) ==> Progress(input, start, current[..], passes)
      decreases current.Length
    {
      ghost var was := current[..];
      var next, changed := OneTurn(current);
      if AllBlocks(input) {
        ProgressTurn(input, start, was, passes);
      }
      passes := passes + 1;
      if !changed && next.Length == current.Length {
        return next, passes;
      }
      current := next;
    }
  }

  /** Where the loop stands on masked input after k turns that all changed something. */
  ghost predicate Progress(input: seq<Prefix>, start: seq<Prefix>, current: seq<Prefix>, k: nat)
    requires AllValid(start)
  {
    && Apart(start) && Apart(current) && current == Iterate(start, k) && SameCover(current, input)
    && forall w: nat :: BitsAtMost(input, w) ==> BitsAtMost(start, w) && k <= w
  }

  lemma ProgressTurn(input: seq<Prefix>, start: seq<Prefix>, current: seq<Prefix>, k: nat)
    requires AllValid(start) && Progress(input, start, current, k)
    ensures |MergePass(current)| < |current| ==> Progress(input, start, MergePass(current), k + 1)
    ensures |MergePass(current)| == |current| ==> Canonical(MergePass(current), input)
  {
    MergePassApart(current);
    MergePassKeepsCover(current);
    assert Iterate(start, k + 1) == MergePass(current);
    if NoSiblings(current) {
      NoSiblingsCanonical(current);
      CanonicalTransfer(current, current, input);
    } else {
      forall w: nat | BitsAtMost(input, w) ensures k + 1 <= w {
        if k >= w { PassBound(start, w, k); }
      }
    }
  }

  /** The result is Normalized's list; the caller's slice is left alone. */
  method Normalize(prefixes: array<Prefix>, aggregate: bool) returns (out: array<Prefix>)
    ensures fresh(out) && out[..] == Normalized(prefixes[..], aggregate)
  {
    var seen: set<Prefix> := {};
    var valid: seq<Prefix> := [];
    for i := 0 to prefixes.Length
      invariant forall p :: p in seen <==> p in valid
      invariant forall p :: p in valid <==> MaskedIn(p, prefixes[..i])
      invariant NoRepeats(valid)
    {
      ghost var upTo := prefixes[..i + 1];
      assert upTo == prefixes[..i] + [prefixes[i]];
      if IsValid(prefixes[i]) {
        var p := Masked(prefixes[i]);
        assert MaskedIn(p, upTo);
        if p !in seen {
          seen := seen + {p};
          valid := valid + [p];
        }
      }
    }
    assert prefixes[..prefixes.Length] == prefixes[..];
    out := ToArray(valid);
    SortPrefixes(out);
    SortedDistinct(valid, out[..], prefixes[..]);
    if aggregate {
      ghost var before := out[..];
      SortedSetMeaning(prefixes[..]);
      ghost var passes: nat;
      out, passes := Aggregate(out);
      SortedSetCover(prefixes[..]);
      CanonicalTransfer(out[..], before, prefixes[..]);
      NormalizedMeaning(prefixes[..], true);
      CanonicalUnique(out[..], prefixes[..], Normalized(prefixes[..], true), prefixes[..]);
    }
  }

  lemma TwiceThere(s: seq<Prefix>, i: nat, j: nat)
    requires i < j < |s| && s[i] == s[j]
    ensures multiset(s)[s[i]] >= 2
  {
    assert s == s[..j] + s[j..];
    assert s[..j][i] == s[i] && s[j..][0] == s[i];
  }

  lemma SortedDistinct(valid: seq<Prefix>, sorted: seq<Prefix>, s: seq<Prefix>)
    requires forall p :: p in valid <==> MaskedIn(p, s)
    requires NoRepeats(valid)
    requires Sorted(sorted) && multiset(sorted) == multiset(valid)
    ensures sorted == SortedSet(s)
  {
    SortedSetMeaning(s);
    assert forall p :: p in sorted <==> p in multiset(sorted);
    assert forall p :: p in valid <==> p in multiset(valid);
    forall i, j | 0 <= i < j < |sorted| ensures Less(sorted[i], sorted[j]) {
      if sorted[i] == sorted[j] {
        TwiceThere(sorted, i, j);
        CountOnce(valid, sorted[i]);
      }
    }
    StrictlySortedUnique(sorted, SortedSet(s));
  }
}
