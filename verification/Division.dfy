/** Facts about division by a variable. */
module Division {

  lemma Quotient(v: nat, w: nat)
    requires w >= 1
    ensures v == (v / w) * w + v % w && 0 <= v % w < w
  {
  }

  lemma Grow(a: nat, m: nat)
    ensures a * m >= 0 && (a >= 1 ==> a * m >= m)
  {
    if a >= 1 { assert a * m == m + (a - 1) * m; }
  }

  lemma RemainderIs(v: nat, m: nat, q: nat, r: nat)
    requires m > 0 && v == q * m + r && r < m
    ensures v % m == r
  {
    Quotient(v, m);
    Unique(m, q, r, v / m, v % m);
  }

  lemma Unique(m: nat, q: nat, r: nat, q': nat, r': nat)
    requires r < m && r' < m && q * m + r == q' * m + r'
    ensures r == r' && q == q'
  {
    Gap(q, q', m);
    Gap(q', q, m);
  }

  lemma Gap(q: nat, p: nat, m: nat)
    ensures q > p ==> q * m >= p * m + m
  {
    if q > p {
      Grow(q - p, m);
      assert (q - p) * m == q * m - p * m;
    }
  }

  lemma QuotientIs(v: nat, m: nat, q: nat, r: nat)
    requires m > 0 && v == q * m + r && r < m
    ensures v / m == q
  {
    Quotient(v, m);
    Unique(m, q, r, v / m, v % m);
  }

  /** One more item starts a new group of s exactly when the earlier ones fill whole groups. */
  lemma CeilingStep(n: nat, s: nat)
    requires s >= 1
    ensures (n + 1 + s - 1) / s == (n + s - 1) / s + if n % s == 0 then 1 else 0
  {
    var q, r := n / s, n % s;
    Quotient(n, s);
    assert (q + 1) * s == q * s + s;
    QuotientIs(n + s, s, q + 1, r);
    if r == 0 { QuotientIs(n + s - 1, s, q, s - 1); }
    else { QuotientIs(n + s - 1, s, q + 1, r - 1); }
  }
}
