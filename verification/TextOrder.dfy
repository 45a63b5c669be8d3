/** Texts in the order the program compares them: character by character, a prefix first. */
module TextOrder {

  /** `a < b` for two strings. */
  predicate Before(a: string, b: string) {
    b != "" && (a == "" || a[0] < b[0] || (a[0] == b[0] && Before(a[1..], b[1..])))
  }

  lemma {:induction false} BeforeIsIrreflexive(a: string)
    ensures !Before(a, a)
  {
    if a != "" {
      BeforeIsIrreflexive(a[1..]);
    }
  }

  /** Of two texts exactly one comes first, or they are the same. */
  lemma {:induction false} BeforeIsTotal(a: string, b: string)
    ensures Before(a, b) || a == b || Before(b, a)
    ensures !(Before(a, b) && Before(b, a)) && !Before(a, a)
  {
    BeforeIsIrreflexive(a);
    if a != "" && b != "" {
      BeforeIsTotal(a[1..], b[1..]);
      assert a == [a[0]] + a[1..] && b == [b[0]] + b[1..];
    }
  }

  lemma {:induction false} BeforeIsTransitive(a: string, b: string, c: string)
    requires Before(a, b) && Before(b, c)
    ensures Before(a, c)
  {
    if a != "" && a[0] == b[0] == c[0] {
      BeforeIsTransitive(a[1..], b[1..], c[1..]);
    }
  }

  /** Texts that go on differently after parts of one length compare by these parts first. */
  lemma {:induction false} BeforeByParts(a: string, b: string, p: string, q: string)
    requires |a| == |b|
    ensures Before(a + p, b + q) <==> Before(a, b) || (a == b && Before(p, q))
  {
    if a == "" {
      assert a + p == p && b + q == q;
    } else {
      BeforeByParts(a[1..], b[1..], p, q);
      assert (a + p)[1..] == a[1..] + p && (b + q)[1..] == b[1..] + q;
      assert a == [a[0]] + a[1..] && b == [b[0]] + b[1..];
    }
  }
}
