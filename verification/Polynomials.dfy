/** Polynomials over the field of two elements as lists of coefficients, highest power first:
    multiplication, and the remainder modulo a monic polynomial. */
module Polynomials {

  function Zeros(n: nat): (bits: seq<bool>)
    ensures |bits| == n && forall i | 0 <= i < n :: !bits[i]
  {
    seq(n, _ => false)
  }

  function Sum(a: seq<bool>, b: seq<bool>): (sum: seq<bool>)
    requires |a| == |b|
    ensures |sum| == |a| && forall i | 0 <= i < |a| :: sum[i] == (a[i] != b[i])
  {
    seq(|a|, i requires 0 <= i < |a| => a[i] != b[i])
  }

  /** One shifted copy of `g` for every power in `q`. */
  function Times(q: seq<bool>, g: seq<bool>): (product: seq<bool>)
    requires g != []
    ensures |product| == |q| + |g| - 1
  {
    if q == [] then Zeros(|g| - 1)
    else Sum((if q[0] then g else Zeros(|g|)) + Zeros(|q| - 1), [false] + Times(q[1..], g))
  }

  /** `d` is a multiple of `g` plus `r`, and `r` is of lower degree than `g`. */
  ghost predicate IsRemainder(d: seq<bool>, g: seq<bool>, r: seq<bool>)
    requires g != []
  {
    |r| == |g| - 1 && exists q: seq<bool> :: IsQuotient(d, g, q, r)
  }

  predicate IsQuotient(d: seq<bool>, g: seq<bool>, q: seq<bool>, r: seq<bool>)
    requires g != [] && |r| == |g| - 1
  {
    |q| + |r| == |d| && d == Sum(Times(q, g), Zeros(|q|) + r)
  }

  /** One row of the long division: the leading coefficient is the quotient's, and what is left after
      taking `g` away goes on. */
  lemma {:induction false} DivisionRow(d: seq<bool>, rest: seq<bool>, g: seq<bool>, q: seq<bool>, r: seq<bool>)
    requires |g| > 1 && |d| == |rest| + 1 >= |g|
    requires forall i | 0 <= i < |rest| :: rest[i] == (d[i + 1] != (d[0] && i + 1 < |g| && g[i + 1]))
    requires g[0]
    requires |r| == |g| - 1 && IsQuotient(rest, g, q, r)
    ensures IsQuotient(d, g, [d[0]] + q, r)
  {
    var whole := [d[0]] + q;
    assert whole[1..] == q;
    var row := (if d[0] then g else Zeros(|g|)) + Zeros(|q|);
    assert Times(whole, g) == Sum(row, [false] + Times(q, g));
    forall i | 0 <= i < |d|
      ensures d[i] == Sum(Times(whole, g), Zeros(|whole|) + r)[i]
    {
      if i > 0 {
        assert rest[i - 1] == (Times(q, g)[i - 1] != (Zeros(|q|) + r)[i - 1]);
        assert (Zeros(|whole|) + r)[i] == (Zeros(|q|) + r)[i - 1];
      }
    }
  }

  lemma {:induction false} LeadingCoefficient(q: seq<bool>, g: seq<bool>)
    requires g != [] && g[0] && q != []
    ensures Times(q, g)[0] == q[0]
  {
  }

  lemma {:induction false} SameQuotient(d: seq<bool>, g: seq<bool>, p: seq<bool>, q: seq<bool>, r: seq<bool>,
                                        s: seq<bool>)
    requires g != [] && g[0] && |r| == |s| == |g| - 1
    requires IsQuotient(d, g, p, r) && IsQuotient(d, g, q, s)
    ensures r == s
    decreases |p|
  {
    if p == [] {
      assert forall i | 0 <= i < |d| :: d[i] == r[i] && d[i] == s[i];
    } else {
      LeadingCoefficient(p, g);
      LeadingCoefficient(q, g);
      assert d[0] == p[0] == q[0];
      var row := (if p[0] then g else Zeros(|g|)) + Zeros(|p| - 1);
      var rest := Sum(d, row)[1..];
      Stripped(d, g, p, r, row);
      Stripped(d, g, q, s, row);
      SameQuotient(rest, g, p[1..], q[1..], r, s);
    }
  }

  lemma {:induction false} Stripped(d: seq<bool>, g: seq<bool>, q: seq<bool>, r: seq<bool>, row: seq<bool>)
    requires g != [] && |r| == |g| - 1 && q != []
    requires IsQuotient(d, g, q, r) && row == (if q[0] then g else Zeros(|g|)) + Zeros(|q| - 1)
    ensures |row| == |d| && IsQuotient(Sum(d, row)[1..], g, q[1..], r)
  {
    var rest := Sum(d, row)[1..];
    forall i | 0 <= i < |rest|
      ensures rest[i] == Sum(Times(q[1..], g), Zeros(|q| - 1) + r)[i]
    {
      assert d[i + 1] == (Times(q, g)[i + 1] != (Zeros(|q|) + r)[i + 1]);
      assert Times(q, g)[i + 1] == (row[i + 1] != ([false] + Times(q[1..], g))[i + 1]);
    }
  }

  /** A polynomial has one remainder modulo a monic polynomial. */
  lemma {:induction false} RemainderIsUnique(d: seq<bool>, g: seq<bool>, r: seq<bool>, s: seq<bool>)
    requires g != [] && g[0] && IsRemainder(d, g, r) && IsRemainder(d, g, s)
    ensures r == s
  {
    var p :| IsQuotient(d, g, p, r);
    var q :| IsQuotient(d, g, q, s);
    SameQuotient(d, g, p, q, r, s);
  }
}
