/** Small types used throughout. */
module Base {
  datatype Option<+T> = None | Some(value: T)

  datatype Result<+T, +E> = Ok(value: T) | Err(error: E)

  type Byte = b: int | 0 <= b < 256

  const TWO63: int := 0x8000_0000_0000_0000
  const TWO64: int := 0x1_0000_0000_0000_0000
  const U64_MAX: nat := TWO64 - 1

  predicate IsLeast(k: nat, s: set<nat>) {
    k in s && forall j :: j in s ==> k <= j
  }

  /** Every non-empty finite set of numbers has a least element. */
  lemma {:induction false} LeastExists(s: set<nat>)
    requires s != {}
    ensures exists k :: IsLeast(k, s)
    decreases |s|
  {
    var x :| x in s;
    var rest := s - {x};
    if rest == {} {
      assert s == {x};
      assert IsLeast(x, s);
    } else {
      LeastExists(rest);
      var k :| IsLeast(k, rest);
      LeastOfBoth(s, x, rest, k);
    }
  }

  lemma LeastOfBoth(s: set<nat>, x: nat, rest: set<nat>, k: nat)
    requires x in s && rest == s - {x} && IsLeast(k, rest)
    ensures IsLeast(if x < k then x else k, s)
  {
    forall j | j in s ensures (if x < k then x else k) <= j {
      assert j == x || j in rest;
    }
  }

  function Least(s: set<nat>): (k: nat)
    requires s != {}
    ensures k in s && forall j :: j in s ==> k <= j
  {
    LeastExists(s);
    var k :| IsLeast(k, s);
    k
  }

  lemma SubsetSize<T>(a: set<T>, b: set<T>)
    requires a <= b
    ensures |a| <= |b|
    ensures |a| == |b| ==> a == b
  {
    assert b == a + (b - a);
  }

  /** `ix` holds the members of `s`, and them alone, in increasing order. */
  ghost predicate Lists(ix: seq<nat>, s: set<nat>) {
    && (forall k, l :: 0 <= k < l < |ix| ==> ix[k] < ix[l])
    && (forall k :: 0 <= k < |ix| ==> ix[k] in s)
    && (forall i {:trigger Includes(ix, i)} :: i in s ==> Includes(ix, i))
  }

  ghost predicate Includes(ix: seq<nat>, i: nat) {
    exists k :: 0 <= k < |ix| && ix[k] == i
  }

  lemma ListsMore(ix: seq<nat>, s: set<nat>, n: nat)
    requires Lists(ix, s) && forall i :: i in s ==> i < n
    ensures Lists(ix + [n], s + {n})
  {
    var more := ix + [n];
    forall i | i in s + {n} ensures Includes(more, i) {
      if i in s {
        var x := ListedAt(ix, s, i);
        assert more[x] == i;
      } else {
        assert more[|ix|] == i;
      }
    }
  }

  /** Where a member stands. */
  lemma ListedAt(ix: seq<nat>, s: set<nat>, i: nat) returns (x: nat)
    requires Lists(ix, s) && i in s
    ensures x < |ix| && ix[x] == i
  {
    assert Includes(ix, i);
    x :| x < |ix| && ix[x] == i;
  }

  ghost function At(ix: seq<nat>, iy: seq<nat>): (r: seq<nat>)
    requires forall x :: 0 <= x < |iy| ==> iy[x] < |ix|
    ensures |r| == |iy| && forall x :: 0 <= x < |iy| ==> r[x] == ix[iy[x]]
  {
    seq(|iy|, x requires 0 <= x < |iy| => ix[iy[x]])
  }

  /** A choice from what was chosen is one choice. */
  lemma ListsTwice(ix: seq<nat>, s: set<nat>, iy: seq<nat>, t: set<nat>, u: set<nat>)
    requires Lists(ix, s) && Lists(iy, t) && u <= s && forall x :: x in t ==> x < |ix|
    requires forall x :: 0 <= x < |ix| ==> (ix[x] in u <==> x in t)
    ensures Lists(At(ix, iy), u)
  {
    forall i | i in u ensures Includes(At(ix, iy), i) {
      var x := ListedAt(ix, s, i);
      var y := ListedAt(iy, t, x);
      assert At(ix, iy)[y] == i;
    }
  }

  /** `f` applied to the elements one after the other. */
  ghost function Fold<S, E>(f: (S, E) -> S, s: S, es: seq<E>): S {
    if es == [] then s else f(Fold(f, s, es[..|es| - 1]), es[|es| - 1])
  }

  lemma FoldMore<S, E>(f: (S, E) -> S, s: S, es: seq<E>, e: E)
    ensures Fold(f, s, es + [e]) == f(Fold(f, s, es), e)
  {
    assert (es + [e])[..|es|] == es;
  }

  lemma {:induction false} FoldConcat<S, E>(f: (S, E) -> S, s: S, a: seq<E>, b: seq<E>)
    ensures Fold(f, Fold(f, s, a), b) == Fold(f, s, a + b)
    decreases |b|
  {
    if b == [] {
      assert a + b == a;
    } else {
      var n := |b| - 1;
      FoldConcat(f, s, a, b[..n]);
      FoldMore(f, s, a + b[..n], b[n]);
      assert a + b == a + b[..n] + [b[n]];
    }
  }
}
