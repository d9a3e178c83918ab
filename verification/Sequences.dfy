/** Lists without repetition, filters and concatenation. */
module Sequences {
  import opened Wrappers

  ghost predicate NoRepeats<T>(s: seq<T>) {
    forall i, j :: 0 <= i < j < |s| ==> s[i] != s[j]
  }

  lemma {:induction false} CountOnce<T>(s: seq<T>, x: T)
    requires NoRepeats(s)
    ensures multiset(s)[x] == if x in s then 1 else 0
  {
    if s != [] {
      assert s == s[..|s| - 1] + [s[|s| - 1]];
      CountOnce(s[..|s| - 1], x);
    }
  }

  lemma {:induction false} DistinctCount<T>(s: seq<T>)
    requires NoRepeats(s)
    ensures |set x | x in s| == |s|
  {
    if s != [] {
      var front, x := s[..|s| - 1], s[|s| - 1];
      assert s == front + [x];
      DistinctCount(front);
      assert (set y | y in s) == (set y | y in front) + {x} && x !in front;
    }
  }

  /** The entries that pass, in order. */
  function Filter<T>(s: seq<T>, pass: T -> bool): seq<T> {
    if s == [] then []
    else Filter(s[..|s| - 1], pass) + if pass(s[|s| - 1]) then [s[|s| - 1]] else []
  }

  lemma {:induction false} FilterMembers<T>(s: seq<T>, pass: T -> bool)
    ensures forall x :: x in Filter(s, pass) <==> x in s && pass(x)
    ensures NoRepeats(s) ==> NoRepeats(Filter(s, pass))
  {
    if s != [] {
      assert s == s[..|s| - 1] + [s[|s| - 1]];
      FilterMembers(s[..|s| - 1], pass);
      assert NoRepeats(s) ==> s[|s| - 1] !in s[..|s| - 1];
    }
  }

  lemma {:induction false} FilterAll<T>(s: seq<T>, pass: T -> bool)
    requires forall x :: x in s ==> pass(x)
    ensures Filter(s, pass) == s
  {
    if s != [] {
      assert s == s[..|s| - 1] + [s[|s| - 1]];
      FilterAll(s[..|s| - 1], pass);
    }
  }

  lemma {:induction false} FilterAppend<T>(a: seq<T>, b: seq<T>, pass: T -> bool)
    ensures Filter(a + b, pass) == Filter(a, pass) + Filter(b, pass)
  {
    if b == [] {
      assert a + b == a;
    } else {
      assert (a + b)[..|a + b| - 1] == a + b[..|b| - 1];
      FilterAppend(a, b[..|b| - 1], pass);
    }
  }

  lemma FilterPrefix<T>(a: seq<T>, b: seq<T>, pass: T -> bool)
    requires a <= b
    ensures Filter(a, pass) <= Filter(b, pass)
  {
    assert b == a + b[|a|..];
    FilterAppend(a, b[|a|..], pass);
  }

  lemma {:induction false} FilterSame<T>(s: seq<T>, p: T -> bool, q: T -> bool)
    requires forall x :: x in s ==> p(x) == q(x)
    ensures Filter(s, p) == Filter(s, q)
  {
    if s != [] {
      assert s == s[..|s| - 1] + [s[|s| - 1]];
      FilterSame(s[..|s| - 1], p, q);
    }
  }

  /** A filter and its complement split the list. */
  lemma {:induction false} FilterSplit<T>(s: seq<T>, p: T -> bool, q: T -> bool)
    requires forall x :: x in s ==> p(x) != q(x)
    ensures multiset(Filter(s, p)) + multiset(Filter(s, q)) == multiset(s)
  {
    if s != [] {
      assert s == s[..|s| - 1] + [s[|s| - 1]];
      FilterSplit(s[..|s| - 1], p, q);
    }
  }

  lemma {:induction false} FilterNone<T>(s: seq<T>, pass: T -> bool)
    requires forall x :: x in s ==> !pass(x)
    ensures Filter(s, pass) == []
  {
    if s != [] {
      assert s == s[..|s| - 1] + [s[|s| - 1]];
      FilterNone(s[..|s| - 1], pass);
    }
  }

  /** Filtering does not change how often a passing entry occurs. */
  lemma {:induction false} FilterCount<T>(s: seq<T>, pass: T -> bool, x: T)
    requires pass(x)
    ensures multiset(Filter(s, pass))[x] == multiset(s)[x]
  {
    if s != [] {
      assert s == s[..|s| - 1] + [s[|s| - 1]];
      FilterCount(s[..|s| - 1], pass, x);
    }
  }

  lemma FilterOne<T>(x: T, pass: T -> bool)
    ensures Filter([x], pass) == if pass(x) then [x] else []
  {
    assert [x][..0] == [];
  }

  lemma FilterStep<T>(s: seq<T>, i: nat, pass: T -> bool)
    requires i < |s|
    ensures Filter(s[..i + 1], pass) == Filter(s[..i], pass) + if pass(s[i]) then [s[i]] else []
  {
    assert s[..i + 1][..i] == s[..i];
  }

  function Mapped<T, U>(s: seq<T>, f: T -> U): seq<U> {
    seq(|s|, i requires 0 <= i < |s| => f(s[i]))
  }

  lemma MappedLast<T, U>(s: seq<T>, f: T -> U)
    requires s != []
    ensures Mapped(s, f) == Mapped(s[..|s| - 1], f) + [f(s[|s| - 1])]
  {
  }

  lemma MappedMembers<T, U>(s: seq<T>, f: T -> U)
    ensures forall y :: y in Mapped(s, f) <==> exists x :: x in s && f(x) == y
  {
    forall x | x in s ensures f(x) in Mapped(s, f) {
      var i :| 0 <= i < |s| && s[i] == x;
      assert Mapped(s, f)[i] == f(x);
    }
  }

  lemma MappedStep<T, U>(s: seq<T>, i: nat, f: T -> U)
    requires i < |s|
    ensures Mapped(s[..i + 1], f) == Mapped(s[..i], f) + [f(s[i])]
  {
    assert s[..i + 1][..i] == s[..i];
    MappedLast(s[..i + 1], f);
  }

  lemma {:induction false} FilterMapped<T, U>(s: seq<T>, f: T -> U, pass: U -> bool, before: T -> bool)
    requires forall x :: before(x) == pass(f(x))
    ensures Filter(Mapped(s, f), pass) == Mapped(Filter(s, before), f)
  {
    if s != [] {
      var front, x := s[..|s| - 1], s[|s| - 1];
      FilterMapped(front, f, pass, before);
      MappedLast(s, f);
      assert Mapped(s, f)[..|s| - 1] == Mapped(front, f);
      if before(x) {
        MappedLast(Filter(s, before), f);
        assert Filter(s, before)[..|Filter(s, before)| - 1] == Filter(front, before);
      }
    }
  }

  /** The lists one after the other. */
  function Flattened<T>(ss: seq<seq<T>>): seq<T> {
    if ss == [] then [] else ss[0] + Flattened(ss[1..])
  }

  lemma {:induction false} FlattenedAppend<T>(ss: seq<seq<T>>, s: seq<T>)
    ensures Flattened(ss + [s]) == Flattened(ss) + s
  {
    if ss == [] {
      assert [s][1..] == [];
    } else {
      assert (ss + [s])[1..] == ss[1..] + [s];
      FlattenedAppend(ss[1..], s);
    }
  }

  /** One more entry of a list that is being worked off after what came before. */
  lemma OneMore<T>(base: seq<T>, before: seq<T>, list: seq<T>, i: nat, all: seq<T>)
    requires i < |list| && before + list <= all
    ensures before + list[..i] <= all
    ensures before + list[..i + 1] == before + list[..i] + [list[i]]
    ensures base + (before + list[..i]) + [list[i]] == base + (before + list[..i] + [list[i]])
  {
  }

  // ---- the first choice of a list, with and without gaps ----

  /** The values that are there, in order. */
  function Present<T>(os: seq<Option<T>>): seq<T> {
    if os == [] then []
    else
      var o := os[|os| - 1];
      Present(os[..|os| - 1]) + if o.Some? then [o.value] else []
  }

  /** The first entry that is good or, when none is, the first one. */
  ghost predicate FirstChoice<T>(i: nat, s: seq<T>, good: T -> bool) {
    && i < |s|
    && if exists j :: 0 <= j < |s| && good(s[j]) then good(s[i]) && forall j :: 0 <= j < i ==> !good(s[j]) else i == 0
  }

  ghost predicate Good<T>(o: Option<T>, good: T -> bool) {
    o.Some? && good(o.value)
  }

  /** The same for a list with gaps. */
  ghost predicate FirstPresent<T>(g: nat, os: seq<Option<T>>, good: T -> bool) {
    && g < |os| && os[g].Some?
    && if exists j :: 0 <= j < |os| && Good(os[j], good)
       then Good(os[g], good) && forall j :: 0 <= j < g ==> !Good(os[j], good)
       else forall j :: 0 <= j < g ==> os[j].None?
  }

  lemma {:induction false} PresentFrom<T>(os: seq<Option<T>>, i: nat) returns (j: nat)
    requires i < |Present(os)|
    ensures j < |os| && os[j] == Some(Present(os)[i])
  {
    var n := |os| - 1;
    if i < |Present(os[..n])| { j := PresentFrom(os[..n], i); } else { j := n; }
  }

  lemma {:induction false} PresentHas<T>(os: seq<Option<T>>, j: nat) returns (i: nat)
    requires j < |os| && os[j].Some?
    ensures i < |Present(os)| && Present(os)[i] == os[j].value
  {
    var n := |os| - 1;
    if j < n { i := PresentHas(os[..n], j); } else { i := |Present(os[..n])|; }
  }

  lemma PresentEmpty<T>(os: seq<Option<T>>)
    ensures Present(os) == [] <==> forall j :: 0 <= j < |os| ==> os[j].None?
  {
    if Present(os) != [] { var j := PresentFrom(os, 0); }
    forall j | 0 <= j < |os| && os[j].Some? ensures Present(os) != [] {
      var i := PresentHas(os, j);
    }
  }

  lemma GoodPresent<T>(os: seq<Option<T>>, good: T -> bool)
    ensures (exists j :: 0 <= j < |Present(os)| && good(Present(os)[j])) <==>
            exists j :: 0 <= j < |os| && Good(os[j], good)
  {
    var s := Present(os);
    if i :| 0 <= i < |s| && good(s[i]) {
      var j := PresentFrom(os, i);
      assert Good(os[j], good);
    }
    if j :| 0 <= j < |os| && Good(os[j], good) {
      var i := PresentHas(os, j);
      assert good(s[i]);
    }
  }

  lemma {:induction false} FirstChoicePresent<T>(os: seq<Option<T>>, good: T -> bool, i: nat) returns (g: nat)
    requires FirstChoice(i, Present(os), good)
    ensures FirstPresent(g, os, good) && os[g] == Some(Present(os)[i])
  {
    var n := |os| - 1;
    var front, o := os[..n], os[n];
    GoodPresent(os, good);
    GoodPresent(front, good);
    if i < |Present(front)| {
      assert forall j :: 0 <= j < |Present(front)| ==> Present(front)[j] == Present(os)[j];
      g := FirstChoicePresent(front, good, i);
      assert forall j :: 0 <= j < n ==> os[j] == front[j];
    } else {
      g := n;
      PresentEmpty(front);
      assert Present(os)[i] == o.value;
      forall k | 0 <= k < |Present(front)| ensures !good(Present(front)[k]) {
        assert Present(os)[k] == Present(front)[k];
      }
      assert forall j :: 0 <= j < n ==> os[j] == front[j];
    }
  }
}
