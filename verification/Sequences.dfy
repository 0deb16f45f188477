/** Facts about sequences that several modules use. */
module Sequences {
  lemma Associative<T>(a: seq<T>, b: seq<T>, c: seq<T>)
    ensures (a + b) + c == a + (b + c)
  {}

  function Mapped<T, U>(f: T -> U, s: seq<T>): seq<U> {
    if s == [] then [] else Mapped(f, s[..|s| - 1]) + [f(s[|s| - 1])]
  }

  lemma MappedSnoc<T, U>(f: T -> U, s: seq<T>, x: T)
    ensures Mapped(f, s + [x]) == Mapped(f, s) + [f(x)]
  {
    assert (s + [x])[..|s|] == s;
  }

  lemma {:induction false} MappedAppend<T, U>(f: T -> U, a: seq<T>, b: seq<T>)
    ensures Mapped(f, a + b) == Mapped(f, a) + Mapped(f, b)
  {
    if b == [] {
      assert a + b == a;
    } else {
      var front, last := b[..|b| - 1], b[|b| - 1];
      MappedAppend(f, a, front);
      assert b == front + [last];
      Associative(a, front, [last]);
      MappedSnoc(f, a + front, last);
      Associative(Mapped(f, a), Mapped(f, front), [f(last)]);
    }
  }

  lemma {:induction false} MappedAt<T, U>(f: T -> U, s: seq<T>)
    ensures |Mapped(f, s)| == |s|
    ensures forall i :: 0 <= i < |s| ==> Mapped(f, s)[i] == f(s[i])
  {
    if s != [] {
      MappedAt(f, s[..|s| - 1]);
    }
  }

  predicate IsProperPrefix<T(==)>(part: seq<T>, whole: seq<T>) {
    |part| < |whole| && part == whole[..|part|]
  }
}
