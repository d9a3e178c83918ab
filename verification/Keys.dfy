/** The text keys diffRoutes and diffRules compare by. How netip prints an address is a parameter,
    assumed only to be a faithful text without the field separator. */
module Keys {
  import opened Prefixes
  import opened Rtnl

  datatype Printer = Printer(addr: Addr -> string, prefix: Prefix -> string)

  ghost predicate Faithful(pr: Printer) {
    && (forall a, b :: pr.addr(a) == pr.addr(b) ==> a == b)
    && (forall p, q :: pr.prefix(p) == pr.prefix(q) ==> p == q)
    && (forall a :: '|' !in pr.addr(a))
  }

  function Digits(n: nat): string {
    if n < 10 then [('0' as int + n) as char] else Digits(n / 10) + [('0' as int + n % 10) as char]
  }

  function Decimal(n: int): string {
    if n < 0 then "-" + Digits(-n) else Digits(n)
  }

  function Truth(b: bool): string {
    if b then "true" else "false"
  }

  function Field(text: string, rest: string): string {
    text + "|" + rest
  }

  function RouteKey(pr: Printer, r: Route): string {
    Field(Decimal(r.table),
    Field(Decimal(r.protocol),
    Field(Decimal(if r.kind == Throw then 1 else 0),
    Field(Decimal(r.linkIndex),
    Field(pr.addr(r.via),
    Field(Truth(r.onLink),
    Field(Decimal(r.metric), pr.prefix(r.dst))))))))
  }

  function RuleKey(pr: Printer, r: Rule): string {
    Field(Decimal(r.priority),
    Field(Decimal(r.table),
    Field(Truth(r.hasFWMark),
    Field(Decimal(r.fwMark),
    Field(Decimal(r.mask), pr.prefix(r.from))))))
  }

  lemma FieldSplit(a: string, x: string, b: string, y: string)
    requires '|' !in a && '|' !in b && Field(a, x) == Field(b, y)
    ensures a == b && x == y
  {
    var s, t := Field(a, x), Field(b, y);
    assert s[|a|] == '|' && t[|b|] == '|';
    assert a == s[..|a|] && b == t[..|b|];
    assert x == s[|a| + 1..] && y == t[|b| + 1..];
  }

  lemma {:induction false} DigitsText(n: nat)
    ensures |Digits(n)| >= 1 && forall c :: c in Digits(n) ==> '0' <= c <= '9'
  {
    if n >= 10 { DigitsText(n / 10); }
  }

  lemma {:induction false} DigitsInjective(n: nat, m: nat)
    requires Digits(n) == Digits(m)
    ensures n == m
  {
    DigitsText(n / 10);
    DigitsText(m / 10);
    var s, t := Digits(n), Digits(m);
    assert s[|s| - 1] == t[|t| - 1];
    if n >= 10 && m >= 10 {
      assert s[..|s| - 1] == Digits(n / 10) && t[..|t| - 1] == Digits(m / 10);
      DigitsInjective(n / 10, m / 10);
    }
  }

  lemma DecimalInjective(n: int, m: int)
    ensures '|' !in Decimal(n)
    ensures Decimal(n) == Decimal(m) ==> n == m
  {
    var a, b := if n < 0 then -n else n, if m < 0 then -m else m;
    DigitsText(a);
    DigitsText(b);
    if Decimal(n) == Decimal(m) {
      assert n < 0 ==> Decimal(n)[0] == '-';
      assert m < 0 ==> Decimal(m)[0] == '-';
      assert n >= 0 ==> Decimal(n)[0] in Digits(a);
      assert m >= 0 ==> Decimal(m)[0] in Digits(b);
      assert n < 0 <==> m < 0;
      if n < 0 { assert Decimal(n)[1..] == Digits(a) && Decimal(m)[1..] == Digits(b); }
      DigitsInjective(a, b);
    }
  }

  /** Route keys agree exactly when all eight fields agree. */
  lemma RouteKeyExact(pr: Printer, r: Route, s: Route)
    requires Faithful(pr)
    ensures RouteKey(pr, r) == RouteKey(pr, s) <==> r == s
  {
    if RouteKey(pr, r) == RouteKey(pr, s) {
      var kr, ks := if r.kind == Throw then 1 else 0, if s.kind == Throw then 1 else 0;
      DecimalInjective(r.table, s.table);
      DecimalInjective(s.table, r.table);
      DecimalInjective(r.protocol, s.protocol);
      DecimalInjective(s.protocol, r.protocol);
      DecimalInjective(kr, ks);
      DecimalInjective(ks, kr);
      DecimalInjective(r.linkIndex, s.linkIndex);
      DecimalInjective(s.linkIndex, r.linkIndex);
      DecimalInjective(r.metric, s.metric);
      DecimalInjective(s.metric, r.metric);
      TailExact(pr, r, s, kr, ks);
    }
  }

  lemma TailExact(pr: Printer, r: Route, s: Route, kr: int, ks: int)
    requires RouteKey(pr, r) == RouteKey(pr, s)
    requires kr == (if r.kind == Throw then 1 else 0) && ks == (if s.kind == Throw then 1 else 0)
    requires '|' !in Decimal(r.table) && '|' !in Decimal(s.table)
    requires '|' !in Decimal(r.protocol) && '|' !in Decimal(s.protocol)
    requires '|' !in Decimal(kr) && '|' !in Decimal(ks)
    requires '|' !in Decimal(r.linkIndex) && '|' !in Decimal(s.linkIndex)
    requires '|' !in pr.addr(r.via) && '|' !in pr.addr(s.via)
    requires '|' !in Decimal(r.metric) && '|' !in Decimal(s.metric)
    ensures Decimal(r.table) == Decimal(s.table) && Decimal(r.protocol) == Decimal(s.protocol)
    ensures Decimal(kr) == Decimal(ks) && Decimal(r.linkIndex) == Decimal(s.linkIndex)
    ensures pr.addr(r.via) == pr.addr(s.via) && r.onLink == s.onLink
    ensures Decimal(r.metric) == Decimal(s.metric) && pr.prefix(r.dst) == pr.prefix(s.dst)
  {
    var r7, s7 := Field(Decimal(r.metric), pr.prefix(r.dst)), Field(Decimal(s.metric), pr.prefix(s.dst));
    var r6, s6 := Field(Truth(r.onLink), r7), Field(Truth(s.onLink), s7);
    var r5, s5 := Field(pr.addr(r.via), r6), Field(pr.addr(s.via), s6);
    var r4, s4 := Field(Decimal(r.linkIndex), r5), Field(Decimal(s.linkIndex), s5);
    var r3, s3 := Field(Decimal(kr), r4), Field(Decimal(ks), s4);
    var r2, s2 := Field(Decimal(r.protocol), r3), Field(Decimal(s.protocol), s3);
    FieldSplit(Decimal(r.table), r2, Decimal(s.table), s2);
    FieldSplit(Decimal(r.protocol), r3, Decimal(s.protocol), s3);
    FieldSplit(Decimal(kr), r4, Decimal(ks), s4);
    FieldSplit(Decimal(r.linkIndex), r5, Decimal(s.linkIndex), s5);
    FieldSplit(pr.addr(r.via), r6, pr.addr(s.via), s6);
    FieldSplit(Truth(r.onLink), r7, Truth(s.onLink), s7);
    FieldSplit(Decimal(r.metric), pr.prefix(r.dst), Decimal(s.metric), pr.prefix(s.dst));
    assert Truth(r.onLink)[0] == Truth(s.onLink)[0];
  }

  /** Rule keys agree exactly when all six fields agree. */
  lemma RuleKeyExact(pr: Printer, r: Rule, s: Rule)
    requires Faithful(pr)
    ensures RuleKey(pr, r) == RuleKey(pr, s) <==> r == s
  {
    if RuleKey(pr, r) == RuleKey(pr, s) {
      DecimalInjective(r.priority, s.priority);
      DecimalInjective(s.priority, r.priority);
      DecimalInjective(r.table, s.table);
      DecimalInjective(s.table, r.table);
      DecimalInjective(r.fwMark, s.fwMark);
      DecimalInjective(s.fwMark, r.fwMark);
      DecimalInjective(r.mask, s.mask);
      DecimalInjective(s.mask, r.mask);
      var r5, s5 := Field(Decimal(r.mask), pr.prefix(r.from)), Field(Decimal(s.mask), pr.prefix(s.from));
      var r4, s4 := Field(Decimal(r.fwMark), r5), Field(Decimal(s.fwMark), s5);
      var r3, s3 := Field(Truth(r.hasFWMark), r4), Field(Truth(s.hasFWMark), s4);
      var r2, s2 := Field(Decimal(r.table), r3), Field(Decimal(s.table), s3);
      FieldSplit(Decimal(r.priority), r2, Decimal(s.priority), s2);
      FieldSplit(Decimal(r.table), r3, Decimal(s.table), s3);
      FieldSplit(Truth(r.hasFWMark), r4, Truth(s.hasFWMark), s4);
      FieldSplit(Decimal(r.fwMark), r5, Decimal(s.fwMark), s5);
      FieldSplit(Decimal(r.mask), pr.prefix(r.from), Decimal(s.mask), pr.prefix(s.from));
      assert Truth(r.hasFWMark)[0] == Truth(s.hasFWMark)[0];
    }
  }
}
