/** Small vocabulary over sequences and optional values shared by the other modules. */
module Seqs {

  datatype Option<+T> = None | Some(value: T)

  ghost predicate NoDup<T>(s: seq<T>) {
    forall i, j :: 0 <= i < j < |s| ==> s[i] != s[j]
  }

  /** The sequence with every occurrence of `x` deleted. */
  function Without<T(==)>(s: seq<T>, x: T): seq<T> {
    if s == [] then []
    else if s[0] == x then Without(s[1..], x)
    else [s[0]] + Without(s[1..], x)
  }

  /** The sequence with every occurrence of `x` replaced by the block `block`. */
  function Expand<T(==)>(s: seq<T>, x: T, block: seq<T>): seq<T> {
    if s == [] then []
    else (if s[0] == x then block else [s[0]]) + Expand(s[1..], x, block)
  }

  function InsertAfter<T(==)>(s: seq<T>, x: T, y: T): seq<T> {
    Expand(s, x, [x, y])
  }

  function InsertBefore<T(==)>(s: seq<T>, x: T, y: T): seq<T> {
    Expand(s, x, [y, x])
  }

  lemma HeadIsMember<T>(s: seq<T>)
    ensures s == [] || s[0] in s
  {
  }

  lemma NoDupConcat<T>(a: seq<T>, b: seq<T>)
    requires NoDup(a) && NoDup(b)
    requires forall x :: x in a ==> x !in b
    ensures NoDup(a + b)
  {
    forall i, j | 0 <= i < j < |a + b|
      ensures (a + b)[i] != (a + b)[j]
    {
      if i < |a| <= j {
        assert (a + b)[i] in a && (a + b)[j] in b;
      }
    }
  }

  lemma LastIsNew<T>(s: seq<T>, x: T)
    requires NoDup(s + [x])
    ensures x !in s
  {
    forall i | 0 <= i < |s| ensures s[i] != x {
      assert (s + [x])[i] != (s + [x])[|s|];
    }
  }

  lemma {:induction false} WithoutConcat<T>(a: seq<T>, b: seq<T>, x: T)
    ensures Without(a + b, x) == Without(a, x) + Without(b, x)
  {
    if a == [] {
      assert a + b == b;
    } else {
      assert (a + b)[1..] == a[1..] + b;
      WithoutConcat(a[1..], b, x);
    }
  }

  lemma {:induction false} WithoutElsewhere<T>(s: seq<T>, x: T)
    requires x !in s
    ensures Without(s, x) == s
  {
    if s != [] {
      WithoutElsewhere(s[1..], x);
    }
  }

  lemma {:induction false} WithoutMember<T>(s: seq<T>, x: T, y: T)
    ensures y in Without(s, x) <==> y in s && y != x
  {
    if s != [] {
      WithoutMember(s[1..], x, y);
      assert s == [s[0]] + s[1..];
    }
  }

  lemma {:induction false} WithoutNoDup<T>(s: seq<T>, x: T)
    requires NoDup(s)
    ensures NoDup(Without(s, x))
  {
    if s != [] {
      WithoutNoDup(s[1..], x);
      WithoutMember(s[1..], x, s[0]);
      var rest := Without(s[1..], x);
      NoDupConcat([s[0]], rest);
    }
  }

  lemma {:induction false} ExpandConcat<T>(a: seq<T>, b: seq<T>, x: T, block: seq<T>)
    ensures Expand(a + b, x, block) == Expand(a, x, block) + Expand(b, x, block)
  {
    if a == [] {
      assert a + b == b;
    } else {
      assert (a + b)[1..] == a[1..] + b;
      ExpandConcat(a[1..], b, x, block);
    }
  }

  lemma {:induction false} ExpandElsewhere<T>(s: seq<T>, x: T, block: seq<T>)
    requires x !in s
    ensures Expand(s, x, block) == s
  {
    if s != [] {
      ExpandElsewhere(s[1..], x, block);
    }
  }

  lemma NoDupAround<T>(a: seq<T>, x: T, b: seq<T>)
    requires NoDup(a + [x] + b)
    ensures x !in a && x !in b
  {
    var s := a + [x] + b;
    forall i | 0 <= i < |a| ensures a[i] != x {
      assert s[i] == a[i] && s[|a|] == x;
    }
    forall i | 0 <= i < |b| ensures b[i] != x {
      assert s[|a| + 1 + i] == b[i] && s[|a|] == x;
    }
  }

  lemma ExpandAround<T>(a: seq<T>, x: T, b: seq<T>, block: seq<T>)
    requires x !in a && x !in b
    ensures Expand(a + [x] + b, x, block) == a + block + b
  {
    ExpandConcat(a + [x], b, x, block);
    ExpandConcat(a, [x], x, block);
    ExpandElsewhere(a, x, block);
    ExpandElsewhere(b, x, block);
    assert Expand([x], x, block) == block;
  }

  lemma Overwritten<K, V>(m: map<K, V>, k: K, x: V, y: V)
    ensures m[k := x][k := y] == m[k := y]
  {
  }
}
