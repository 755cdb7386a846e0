/**
 * Python's ordering of `str` values: code point by code point, a proper
 * prefix sorting before any of its extensions. SQLite's default BINARY
 * collation compares TEXT the same way, so this is the meaning of the
 * `conversion_date >= ?` and `conversion_date <= ?` clauses.
 */
module LexOrder {

  /** `a <= b` on strings. */
  predicate LexLe(a: string, b: string)
  {
    if a == [] then true
    else if b == [] then false
    else if a[0] != b[0] then a[0] < b[0]
    else LexLe(a[1..], b[1..])
  }

  lemma {:induction false} LexLeReflexive(a: string)
    ensures LexLe(a, a)
  {
    if a != [] {
      LexLeReflexive(a[1..]);
    }
  }

  lemma {:induction false} LexLeAntisymmetric(a: string, b: string)
    requires LexLe(a, b) && LexLe(b, a)
    ensures a == b
  {
    if a != [] && b != [] {
      LexLeAntisymmetric(a[1..], b[1..]);
      assert a == [a[0]] + a[1..];
      assert b == [b[0]] + b[1..];
    }
  }

  lemma {:induction false} LexLeTransitive(a: string, b: string, c: string)
    requires LexLe(a, b) && LexLe(b, c)
    ensures LexLe(a, c)
  {
    if a != [] && b != [] && c != [] && a[0] == b[0] && b[0] == c[0] {
      LexLeTransitive(a[1..], b[1..], c[1..]);
    }
  }

  lemma {:induction false} LexLeTotal(a: string, b: string)
    ensures LexLe(a, b) || LexLe(b, a)
  {
    if a != [] && b != [] && a[0] == b[0] {
      LexLeTotal(a[1..], b[1..]);
    }
  }

  /** A string sorts no later than any of its extensions. */
  lemma {:induction false} LexLePrefix(a: string, s: string)
    ensures LexLe(a, a + s)
  {
    if a != [] {
      assert (a + s)[1..] == a[1..] + s;
      LexLePrefix(a[1..], s);
    }
  }

  /**
   * Comparing two strings that start with fixed-width fields: the first
   * field decides unless the two are equal.
   */
  lemma {:induction false} LexLeEqualLengthPrefix(x: string, y: string, s: string, t: string)
    requires |x| == |y|
    ensures LexLe(x + s, y + t) <==> if x == y then LexLe(s, t) else LexLe(x, y)
  {
    if x != [] {
      assert (x + s)[1..] == x[1..] + s;
      assert (y + t)[1..] == y[1..] + t;
      LexLeEqualLengthPrefix(x[1..], y[1..], s, t);
      if x[0] == y[0] {
        assert x == y <==> x[1..] == y[1..] by {
          assert x == [x[0]] + x[1..];
          assert y == [y[0]] + y[1..];
        }
      }
    } else {
      assert x + s == s && y + t == t;
    }
  }
}
