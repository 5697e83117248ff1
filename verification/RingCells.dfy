/** Positions of an endless stream kept in a ring of `c` cells, position `q` in cell `q % c`. */
module RingCells {

  /** A multiple of `c` is zero or at least `c` away from zero. */
  lemma Multiple(c: int, d: int)
    requires c > 0
    ensures d <= -1 ==> c * d <= -c
    ensures d >= 1 ==> c * d >= c
    ensures d == 0 ==> c * d == 0
  {
  }

  lemma Quotients(c: int, q: int, r: int)
    requires c > 0
    ensures r - q == c * (r / c - q / c) + (r % c - q % c)
  {
    assert r == c * (r / c) + r % c && q == c * (q / c) + q % c;
  }

  lemma SameCell(c: nat, q: nat)
    requires c > 0
    ensures (q + c) % c == q % c
  {
    var d := (q + c) / c - q / c;
    Quotients(c, q, q + c);
    assert c * (d - 1) == c * d - c;
    Multiple(c, d - 1);
  }

  lemma DistinctCells(c: nat, q: nat, r: nat)
    requires c > 0 && q < r < q + c
    ensures q % c != r % c
  {
    Quotients(c, q, r);
    Multiple(c, r / c - q / c);
  }

  /** Every position has a representative in the window of `c` positions from `h`. */
  lemma {:induction false} Representative(c: nat, q: nat, h: nat) returns (r: nat)
    requires c > 0 && q < h + c
    ensures h <= r < h + c && q <= r && r % c == q % c
    ensures q >= h ==> r == q
    decreases h + c - q
  {
    if q >= h {
      r := q;
    } else {
      SameCell(c, q);
      r := Representative(c, q + c, h);
    }
  }
}
