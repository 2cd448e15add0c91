/** Lexicographic orders: Rust's on strings and on the entries of a `BTreeMap`. */
module Ordering {

  ghost predicate TotalOrder<T(!new)>(le: (T, T) -> bool) {
    && (forall x :: le(x, x))
    && (forall x, y :: le(x, y) || le(y, x))
    && (forall x, y :: le(x, y) && le(y, x) ==> x == y)
    && (forall x, y, z :: le(x, y) && le(y, z) ==> le(x, z))
  }

  predicate Lex<T(==)>(le: (T, T) -> bool, a: seq<T>, b: seq<T>) {
    || a == []
    || (b != [] && a[0] != b[0] && le(a[0], b[0]))
    || (b != [] && a[0] == b[0] && Lex(le, a[1..], b[1..]))
  }

  function LexOf<T(==)>(le: (T, T) -> bool): (seq<T>, seq<T>) -> bool {
    (a, b) => Lex(le, a, b)
  }

  lemma {:induction false} LexTotal<T(!new)>(le: (T, T) -> bool, a: seq<T>, b: seq<T>)
    requires TotalOrder(le)
    ensures Lex(le, a, a) && (Lex(le, a, b) || Lex(le, b, a))
    ensures Lex(le, a, b) && Lex(le, b, a) ==> a == b
  {
    if a != [] {
      LexTotal(le, a[1..], if b == [] then [] else b[1..]);
      if b != [] {
        assert a == [a[0]] + a[1..] && b == [b[0]] + b[1..];
      }
    }
  }

  lemma {:induction false} LexTransitive<T(!new)>(le: (T, T) -> bool, a: seq<T>, b: seq<T>, c: seq<T>)
    requires TotalOrder(le) && Lex(le, a, b) && Lex(le, b, c)
    ensures Lex(le, a, c)
  {
    if a != [] && a[0] == b[0] == c[0] {
      LexTransitive(le, a[1..], b[1..], c[1..]);
    }
  }

  lemma LexIsTotalOrder<T(!new)>(le: (T, T) -> bool)
    requires TotalOrder(le)
    ensures TotalOrder(LexOf(le))
  {
    forall a: seq<T>, b: seq<T>
      ensures Lex(le, a, a) && (Lex(le, a, b) || Lex(le, b, a))
      ensures Lex(le, a, b) && Lex(le, b, a) ==> a == b
    {
      LexTotal(le, a, b);
    }
    forall a: seq<T>, b: seq<T>, c: seq<T> | Lex(le, a, b) && Lex(le, b, c)
      ensures Lex(le, a, c)
    {
      LexTransitive(le, a, b, c);
    }
  }

  /** The two first differ at `i`, where the one has the lesser element. */
  ghost predicate LessAt<T(!new)>(le: (T, T) -> bool, a: seq<T>, b: seq<T>, i: int) {
    0 <= i < |a| && i < |b| && a[..i] == b[..i] && a[i] != b[i] && le(a[i], b[i])
  }

  lemma SharedStart<T(!new)>(a: seq<T>, b: seq<T>)
    ensures forall i :: 0 < i <= |a| && i <= |b| && a[..i] == b[..i] ==> a[0] == b[0]
  {
    forall i | 0 < i <= |a| && i <= |b| && a[..i] == b[..i]
      ensures a[0] == b[0]
    {
      assert a[..i][0] == b[..i][0];
    }
  }

  /** A sequence comes no later than another if it is a prefix of it or has the lesser element where they
      first differ. */
  lemma {:induction false} LexMeans<T(!new)>(le: (T, T) -> bool, a: seq<T>, b: seq<T>)
    ensures Lex(le, a, b) <==> a <= b || exists i :: LessAt(le, a, b, i)
  {
    if a != [] && b != [] {
      if a[0] == b[0] {
        LexMeans(le, a[1..], b[1..]);
        assert a == [a[0]] + a[1..] && b == [b[0]] + b[1..];
        if i :| LessAt(le, a, b, i) {
          assert a[1..][..i - 1] == a[..i][1..] && b[1..][..i - 1] == b[..i][1..];
          assert LessAt(le, a[1..], b[1..], i - 1);
        }
        if i :| LessAt(le, a[1..], b[1..], i) {
          assert a[..i + 1] == [a[0]] + a[1..][..i] && b[..i + 1] == [b[0]] + b[1..][..i];
          assert LessAt(le, a, b, i + 1);
        }
      } else {
        assert LessAt(le, a, b, 0) <==> le(a[0], b[0]);
        SharedStart(a, b);
      }
    }
  }

  /** The first component decides, then the second. */
  function PairOf<A(==), B>(leA: (A, A) -> bool, leB: (B, B) -> bool): ((A, B), (A, B)) -> bool {
    (p: (A, B), q: (A, B)) => if p.0 == q.0 then leB(p.1, q.1) else leA(p.0, q.0)
  }

  lemma PairIsTotalOrder<A(!new), B(!new)>(leA: (A, A) -> bool, leB: (B, B) -> bool)
    requires TotalOrder(leA) && TotalOrder(leB)
    ensures TotalOrder(PairOf(leA, leB))
  {
    var le := PairOf(leA, leB);
    forall p: (A, B), q: (A, B)
      ensures le(p, p) && (le(p, q) || le(q, p))
      ensures le(p, q) && le(q, p) ==> p == q
    {
      assert leB(p.1, p.1) && (leB(p.1, q.1) || leB(q.1, p.1)) && (leA(p.0, q.0) || leA(q.0, p.0));
    }
    forall p: (A, B), q: (A, B), r: (A, B) | le(p, q) && le(q, r)
      ensures le(p, r)
    {
    }
  }

  function CharOrder(): (char, char) -> bool {
    (c: char, d: char) => c <= d
  }

  function StringOrder(): (string, string) -> bool {
    LexOf(CharOrder())
  }

  lemma StringIsTotalOrder()
    ensures TotalOrder(StringOrder())
  {
    LexIsTotalOrder(CharOrder());
  }
}
