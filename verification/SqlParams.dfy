/** PostgreSQL's lexer as one the theory of reading applies to. */
module SqlParams {
  import opened Common
  import opened SqlLexer
  import opened SqlReader
  import opened ParamReader

  predicate AllDigits(s: string) { forall i | 0 <= i < |s| :: IsDigit(s[i]) }

  function Number(s: string): nat
    requires AllDigits(s)
  {
    if s == "" then 0 else 10 * Number(s[..|s| - 1]) + (s[|s| - 1] as int - 48)
  }

  predicate IsParam(s: string) { |s| > 1 && s[0] == '$' && IsDigit(s[1]) }

  function ParamDigits(s: string): (d: string)
    requires IsParam(s)
    ensures AllDigits(d) && d != ""
  {
    s[1..][..Run(s[1..], IsDigit)]
  }

  function SqlLength(s: string): nat { if s == "" then 0 else Length(s) }

  function SqlParam(s: string): Option<nat> { if IsParam(s) then Some(Number(ParamDigits(s))) else None }

  const SQL := Lexer(SqlLength, SqlParam)

  // ----- A parameter is local --------------------------------------------------------

  lemma ParamIsLocal(p: string, x: string)
    requires p != "" && Length(p + "$") <= |p|
    ensures SqlParam(p + "$" + x) == SqlParam(p)
  {
    var t := p + "$" + x;
    Tails(p, x);
    assert |p| > 1 ==> t[1] == p[1];
    if IsParam(p) {
      RunIsLocal(p[1..], x, IsDigit);
      StopsAtDollar(p[1..], IsDigit);
      SameDigits(p, t, p[1..] + "$" + x, Run(p[1..], IsDigit));
    }
  }

  lemma SameDigits(p: string, t: string, u: string, k: nat)
    requires IsParam(p) && IsParam(t) && t[1..] == u && k == Run(p[1..], IsDigit) == Run(u, IsDigit)
    requires p[1..] <= u
    ensures ParamDigits(t) == ParamDigits(p)
  {
    assert u[..k] == p[1..][..k];
  }

  // ----- A written parameter is read ----------------------------------------------------

  lemma {:induction false} NumberOfDigits(n: nat)
    ensures Digits(n) != "" && AllDigits(Digits(n)) && Number(Digits(n)) == n
  {
    if n < 10 {
      assert Digits(n)[..0] == "";
    } else {
      NumberOfDigits(n / 10);
      assert Digits(n)[..|Digits(n)| - 1] == Digits(n / 10);
    }
  }

  lemma {:induction false} LongerNumberIsLarger(a: string, d: string)
    requires AllDigits(a) && AllDigits(d) && Number(a) >= 1
    ensures AllDigits(a + d) && Number(a + d) >= Number(a)
    ensures d != "" ==> Number(a + d) > Number(a)
    decreases |d|
  {
    if d == "" {
      assert a + d == a;
    } else {
      var init := d[..|d| - 1];
      LongerNumberIsLarger(a, init);
      assert (a + d)[..|a + d| - 1] == a + init;
    }
  }

  lemma {:induction false} RunOfDigits(d: string, r: string)
    requires AllDigits(d)
    ensures Run(d + r, IsDigit) == |d| + Run(r, IsDigit)
  {
    if d == "" {
      assert d + r == r;
    } else {
      assert (d + r)[1..] == d[1..] + r;
      RunOfDigits(d[1..], r);
    }
  }

  lemma SliceAfter(d: string, r: string, k: nat)
    requires k <= |r|
    ensures (d + r)[..|d| + k] == d + r[..k]
  {
  }

  lemma DigitsOfParam(s: string, u: string, k: nat)
    requires s == "$" + u && u != "" && IsDigit(u[0]) && k == Run(u, IsDigit)
    ensures IsParam(s) && ParamDigits(s) == u[..k] && Length(s) == 1 + k
  {
    assert s[1..] == u && s[1] == u[0];
  }

  lemma WrittenIsRead(n: nat, rest: string)
    requires n >= 1
    ensures ReadsParam(SQL, n, rest)
  {
    var d, k := Digits(n), Run(rest, IsDigit);
    NumberOfDigits(n);
    RunOfDigits(d, rest);
    SliceAfter(d, rest, k);
    DigitsOfParam("$" + (d + rest), d + rest, |d| + k);
    LongerNumberIsLarger(d, rest[..k]);
    assert k == 0 ==> d + rest[..0] == d;
  }

  lemma SqlIsLawful()
    ensures Lawful(SQL)
  {
    forall p: string, x: string
      ensures LocalAt(SQL, p, x)
    {
      if p != "" {
        LengthIsLocal(p, x);
        if Length(p + "$") <= |p| { ParamIsLocal(p, x); }
      }
    }
    forall n: nat, rest: string | n >= 1
      ensures ReadsParam(SQL, n, rest)
    {
      WrittenIsRead(n, rest);
    }
  }
}
