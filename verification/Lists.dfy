/** Eina lists as sequences: the list operations the modelled code relies on. */
module Lists {

  datatype Option<+T> = None | Some(value: T)

  /** No element is linked twice. */
  predicate NoDup<T(==)>(q: seq<T>) {
    q == [] || (q[0] !in q[1..] && NoDup(q[1..]))
  }

  /** The list q with every element of gone unlinked, the others in their order. */
  function Without<T(==,!new)>(q: seq<T>, gone: set<T>): (r: seq<T>)
    ensures forall x {:trigger x in r} :: x in r <==> x in q && x !in gone
    ensures |r| <= |q|
  {
    if q == [] then []
    else if q[0] in gone then Without(q[1..], gone)
    else [q[0]] + Without(q[1..], gone)
  }

  lemma {:induction false} WithoutNoDup<T(!new)>(q: seq<T>, gone: set<T>)
    requires NoDup(q)
    ensures NoDup(Without(q, gone))
  {
    if q != [] {
      WithoutNoDup(q[1..], gone);
      var w := Without(q[1..], gone);
      assert ([q[0]] + w)[1..] == w;
    }
  }

  lemma {:induction false} WithoutNone<T(!new)>(q: seq<T>, gone: set<T>)
    requires forall x :: x in gone ==> x !in q
    ensures Without(q, gone) == q
  {
    if q != [] {
      WithoutNone(q[1..], gone);
    }
  }

  lemma {:induction false} WithoutTwice<T(!new)>(q: seq<T>, a: set<T>, b: set<T>)
    ensures Without(Without(q, a), b) == Without(q, a + b)
  {
    if q != [] {
      WithoutTwice(q[1..], a, b);
      if q[0] !in a {
        var w := Without(q[1..], a);
        assert Without(q, a) == [q[0]] + w && ([q[0]] + w)[1..] == w;
      }
    }
  }

  /** Unlinking one member of a duplicate-free list cuts the list at its position. */
  lemma {:induction false} WithoutOne<T(!new)>(q: seq<T>, i: nat)
    requires NoDup(q) && i < |q|
    ensures Without(q, {q[i]}) == q[..i] + q[i + 1..]
  {
    if i == 0 {
      WithoutNone(q[1..], {q[0]});
    } else {
      WithoutOne(q[1..], i - 1);
      assert q[1..][i - 1] == q[i] && q[i] in q[1..];
      assert q[..i] == [q[0]] + q[1..][..i - 1] && q[1..][i..] == q[i + 1..];
    }
  }

  lemma {:induction false} AppendNoDup<T>(q: seq<T>, x: T)
    requires NoDup(q) && x !in q
    ensures NoDup(q + [x])
  {
    if q != [] {
      AppendNoDup(q[1..], x);
      assert (q + [x])[1..] == q[1..] + [x];
    }
  }
}
