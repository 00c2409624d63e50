/**
 * Strict total orders and the lexicographic order they induce on sequences:
 * the order in which an ordered key-value store sorts its keys.
 */
module Ordering {

  ghost predicate Irreflexive<T(!new)>(less: (T, T) -> bool)
  {
    forall x :: !less(x, x)
  }

  ghost predicate Transitive<T(!new)>(less: (T, T) -> bool)
  {
    forall x, y, z :: less(x, y) && less(y, z) ==> less(x, z)
  }

  ghost predicate Trichotomous<T(!new)>(less: (T, T) -> bool)
  {
    forall x, y :: x == y || less(x, y) || less(y, x)
  }

  ghost predicate StrictTotalOrder<T(!new)>(less: (T, T) -> bool)
  {
    Irreflexive(less) && Transitive(less) && Trichotomous(less)
  }

  /** `a` sorts before `b`: at the first difference a's element is smaller, or a is a proper prefix of b. */
  predicate Lex<T(==)>(less: (T, T) -> bool, a: seq<T>, b: seq<T>)
    decreases |a|
  {
    if |a| == 0 then |b| > 0
    else |b| > 0 && (less(a[0], b[0]) || (a[0] == b[0] && Lex(less, a[1..], b[1..])))
  }

  lemma {:induction false} LexIrreflexive<T(!new)>(less: (T, T) -> bool, a: seq<T>)
    requires Irreflexive(less)
    ensures !Lex(less, a, a)
    decreases |a|
  {
    if |a| > 0 {
      LexIrreflexive(less, a[1..]);
    }
  }

  lemma {:induction false} LexTransitive<T(!new)>(less: (T, T) -> bool, a: seq<T>, b: seq<T>, c: seq<T>)
    requires Irreflexive(less) && Transitive(less)
    requires Lex(less, a, b) && Lex(less, b, c)
    ensures Lex(less, a, c)
    decreases |a|
  {
    if |a| > 0 && a[0] == b[0] && b[0] == c[0] {
      LexTransitive(less, a[1..], b[1..], c[1..]);
    }
  }

  lemma {:induction false} LexTrichotomous<T(!new)>(less: (T, T) -> bool, a: seq<T>, b: seq<T>)
    requires Trichotomous(less)
    ensures a == b || Lex(less, a, b) || Lex(less, b, a)
    decreases |a|
  {
    if |a| > 0 && |b| > 0 && a[0] == b[0] {
      LexTrichotomous(less, a[1..], b[1..]);
      if a[1..] == b[1..] {
        assert a == [a[0]] + a[1..] && b == [b[0]] + b[1..];
      }
    }
  }

  /** The lexicographic order of a strict total order is a strict total order. */
  lemma LexStrictTotal<T(!new)>(less: (T, T) -> bool)
    requires StrictTotalOrder(less)
    ensures StrictTotalOrder((a: seq<T>, b: seq<T>) => Lex(less, a, b))
  {
    forall a: seq<T> ensures !Lex(less, a, a) {
      LexIrreflexive(less, a);
    }
    forall a: seq<T>, b: seq<T>, c: seq<T> | Lex(less, a, b) && Lex(less, b, c)
      ensures Lex(less, a, c)
    {
      LexTransitive(less, a, b, c);
    }
    forall a: seq<T>, b: seq<T> ensures a == b || Lex(less, a, b) || Lex(less, b, a) {
      LexTrichotomous(less, a, b);
    }
  }
}
