/**
 * The order of the `ORDER BY id ASC` listing. The `id` column is TEXT with SQLite's default
 * BINARY collation, which compares the UTF-8 bytes with memcmp and then puts the shorter string
 * first; on UTF-8 that is the lexicographic order of the code points, written here on `char`.
 */
module IdOrder {

  /** `a` sorts strictly before `b`. */
  predicate IdBelow(a: string, b: string)
    decreases |a|
  {
    if |a| == 0 then |b| > 0
    else |b| > 0 && (a[0] < b[0] || (a[0] == b[0] && IdBelow(a[1..], b[1..])))
  }

  lemma {:induction false} IdBelowIrreflexive(a: string)
    ensures !IdBelow(a, a)
    decreases |a|
  {
    if |a| > 0 {
      IdBelowIrreflexive(a[1..]);
    }
  }

  lemma {:induction false} IdBelowTransitive(a: string, b: string, c: string)
    requires IdBelow(a, b) && IdBelow(b, c)
    ensures IdBelow(a, c)
    decreases |a|
  {
    if |a| > 0 && a[0] == b[0] && b[0] == c[0] {
      IdBelowTransitive(a[1..], b[1..], c[1..]);
    }
  }

  lemma IdBelowAsymmetric(a: string, b: string)
    ensures IdBelow(a, b) ==> !IdBelow(b, a)
  {
    if IdBelow(a, b) && IdBelow(b, a) {
      IdBelowTransitive(a, b, a);
      IdBelowIrreflexive(a);
    }
  }

  /** Any two distinct ids are ordered one way or the other. */
  lemma {:induction false} IdBelowTotal(a: string, b: string)
    ensures a == b || IdBelow(a, b) || IdBelow(b, a)
    decreases |a|
  {
    if |a| > 0 && |b| > 0 && a[0] == b[0] {
      IdBelowTotal(a[1..], b[1..]);
      assert a == [a[0]] + a[1..] && b == [b[0]] + b[1..];
    }
  }
}
