/**
 Three-way comparisons and their lexicographic extension to sequences.
 A comparison answers -1, 0 or 1, as the version comparator does.
 */
module Order {

  function Sign(x: int): (c: int)
    ensures -1 <= c <= 1
    ensures c == 0 <==> x == 0
    ensures c > 0 <==> x > 0
  {
    if x < 0 then -1 else if x > 0 then 1 else 0
  }

  /** A total preorder, given as a three-way comparison. */
  ghost predicate IsTotalPreorder<T(!new)>(cmp: (T, T) -> int) {
    && (forall x, y :: -1 <= cmp(x, y) <= 1 && cmp(x, y) == -cmp(y, x))
    && (forall x, y, z :: cmp(x, y) <= 0 && cmp(y, z) <= 0 ==> cmp(x, z) <= 0)
  }

  /** Compare element by element; a proper prefix comes first. */
  function Lex<T>(cmp: (T, T) -> int, xs: seq<T>, ys: seq<T>): int {
    if xs == [] then (if ys == [] then 0 else -1)
    else if ys == [] then 1
    else if cmp(xs[0], ys[0]) != 0 then cmp(xs[0], ys[0])
    else Lex(cmp, xs[1..], ys[1..])
  }

  lemma {:induction false} LexAntisymmetric<T(!new)>(cmp: (T, T) -> int, xs: seq<T>, ys: seq<T>)
    requires IsTotalPreorder(cmp)
    ensures -1 <= Lex(cmp, xs, ys) <= 1
    ensures Lex(cmp, xs, ys) == -Lex(cmp, ys, xs)
  {
    if xs != [] && ys != [] {
      LexAntisymmetric(cmp, xs[1..], ys[1..]);
    }
  }

  /** Elements that compare equal can stand in for one another. */
  lemma Congruent<T(!new)>(cmp: (T, T) -> int, x: T, y: T, z: T)
    requires IsTotalPreorder(cmp)
    requires cmp(x, y) == 0
    ensures cmp(x, z) == cmp(y, z)
  {
    assert cmp(y, x) == 0;
    assert cmp(x, z) <= 0 <==> cmp(y, z) <= 0;
    assert cmp(z, x) <= 0 <==> cmp(z, y) <= 0;
  }

  lemma {:induction false} LexTransitive<T(!new)>(cmp: (T, T) -> int, xs: seq<T>, ys: seq<T>, zs: seq<T>)
    requires IsTotalPreorder(cmp)
    requires Lex(cmp, xs, ys) <= 0 && Lex(cmp, ys, zs) <= 0
    ensures Lex(cmp, xs, zs) <= 0
  {
    if xs != [] && ys != [] && zs != [] {
      var x, y, z := xs[0], ys[0], zs[0];
      if cmp(x, y) == 0 {
        Congruent(cmp, x, y, z);
        if cmp(y, z) == 0 {
          LexTransitive(cmp, xs[1..], ys[1..], zs[1..]);
        }
      } else if cmp(y, z) == 0 {
        Congruent(cmp, y, z, x);
        assert cmp(x, z) == cmp(x, y);
      } else {
        assert cmp(x, z) <= 0;
        if cmp(x, z) == 0 {
          Congruent(cmp, x, z, y);
        }
      }
    }
  }

  /** The lexicographic extension of a total preorder is a total preorder. */
  lemma LexIsTotalPreorder<T(!new)>(cmp: (T, T) -> int)
    requires IsTotalPreorder(cmp)
    ensures IsTotalPreorder((xs, ys) => Lex(cmp, xs, ys))
  {
    forall xs, ys ensures -1 <= Lex(cmp, xs, ys) <= 1 && Lex(cmp, xs, ys) == -Lex(cmp, ys, xs) {
      LexAntisymmetric(cmp, xs, ys);
    }
    forall xs, ys, zs | Lex(cmp, xs, ys) <= 0 && Lex(cmp, ys, zs) <= 0 ensures Lex(cmp, xs, zs) <= 0 {
      LexTransitive(cmp, xs, ys, zs);
    }
  }
}
