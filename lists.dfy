/** Array.prototype.filter, find, findIndex, `filter(...).length` and the
    order-preserving subsequence relation the derived views are stated
    with. */
module Lists {
  import opened Wrappers

  /** `a` is `b` with some elements left out and the rest in order. */
  predicate IsSubseq<T(==)>(a: seq<T>, b: seq<T>)
    decreases |b|
  {
    if a == [] then true
    else if b == [] then false
    else if a[0] == b[0] then IsSubseq(a[1..], b[1..])
    else IsSubseq(a, b[1..])
  }

  lemma {:induction false} SubseqRefl<T>(a: seq<T>)
    ensures IsSubseq(a, a)
    decreases |a|
  {
    if a != [] { SubseqRefl(a[1..]); }
  }

  /** `xs.filter(p)`: the elements satisfying `p`, in their order. */
  function Filter<T>(xs: seq<T>, p: T -> bool): (r: seq<T>)
    ensures |r| <= |xs|
    ensures forall x :: x in r ==> x in xs && p(x)
    ensures forall i :: 0 <= i < |xs| && p(xs[i]) ==> xs[i] in r
    ensures forall i :: 0 <= i < |r| ==> p(r[i])
  {
    if xs == [] then []
    else if p(xs[0]) then [xs[0]] + Filter(xs[1..], p)
    else Filter(xs[1..], p)
  }

  /** What `filter` keeps is an order-preserving subsequence. */
  lemma {:induction false} FilterIsSubseq<T>(xs: seq<T>, p: T -> bool)
    ensures IsSubseq(Filter(xs, p), xs)
  {
    if xs != [] {
      FilterIsSubseq(xs[1..], p);
      var r := Filter(xs, p);
      if p(xs[0]) {
        assert r[0] == xs[0] && r[1..] == Filter(xs[1..], p);
      } else if r != [] {
        SubseqSkip(r, xs);
      }
    }
  }

  lemma SubseqSkip<T>(a: seq<T>, b: seq<T>)
    requires b != [] && a != [] && IsSubseq(a, b[1..])
    ensures IsSubseq(a, b)
    decreases |a| + |b|
  {
    if a[0] == b[0] {
      SubseqTail(a, b[1..]);
    }
  }

  lemma SubseqTail<T>(a: seq<T>, b: seq<T>)
    requires a != [] && IsSubseq(a, b)
    ensures IsSubseq(a[1..], b)
    decreases |a| + |b|
  {
    if a[0] == b[0] {
      if a[1..] != [] && b[1..] != [] { SubseqSkip(a[1..], b); }
      else if a[1..] != [] { assert false; }
    } else {
      SubseqTail(a, b[1..]);
      if a[1..] != [] { SubseqSkip(a[1..], b); }
    }
  }

  /** A filter that keeps everything is the identity. */
  lemma {:induction false} FilterAll<T>(xs: seq<T>, p: T -> bool)
    requires forall x :: x in xs ==> p(x)
    ensures Filter(xs, p) == xs
  {
    if xs != [] { FilterAll(xs[1..], p); }
  }

  /** Filtering distributes over concatenation. */
  lemma {:induction false} FilterAppend<T>(xs: seq<T>, ys: seq<T>, p: T -> bool)
    ensures Filter(xs + ys, p) == Filter(xs, p) + Filter(ys, p)
  {
    if xs == [] {
      assert xs + ys == ys;
    } else {
      assert (xs + ys)[1..] == xs[1..] + ys;
      FilterAppend(xs[1..], ys, p);
    }
  }

  /** `xs.filter(p).length`. */
  function Count<T>(xs: seq<T>, p: T -> bool): (n: nat)
    ensures n <= |xs|
  {
    |Filter(xs, p)|
  }

  /** Two filters whose predicates agree on the list keep the same. */
  lemma {:induction false} FilterExt<T>(xs: seq<T>, p: T -> bool, q: T -> bool)
    requires forall x :: x in xs ==> p(x) == q(x)
    ensures Filter(xs, p) == Filter(xs, q)
  {
    if xs != [] { FilterExt(xs[1..], p, q); }
  }

  /** A predicate that implies another keeps no more. */
  lemma {:induction false} CountMono<T>(xs: seq<T>, p: T -> bool, q: T -> bool)
    requires forall x :: x in xs && p(x) ==> q(x)
    ensures Count(xs, p) <= Count(xs, q)
  {
    if xs != [] { CountMono(xs[1..], p, q); }
  }

  /** `xs.findIndex(p)`: the first position satisfying `p`, or -1. */
  function FindIndex<T>(xs: seq<T>, p: T -> bool): (k: int)
    ensures -1 <= k < |xs|
    ensures k >= 0 ==> p(xs[k]) && forall j :: 0 <= j < k ==> !p(xs[j])
    ensures k < 0 ==> forall j :: 0 <= j < |xs| ==> !p(xs[j])
  {
    if xs == [] then -1
    else if p(xs[0]) then 0
    else
      var k := FindIndex(xs[1..], p);
      if k < 0 then -1 else k + 1
  }

  /** Insert-or-replace: the first element satisfying `p` becomes `x`;
      when none does, `x` is appended. */
  function Upsert<T>(xs: seq<T>, x: T, p: T -> bool): seq<T>
  {
    var k := FindIndex(xs, p);
    if k >= 0 then xs[k := x] else xs + [x]
  }

  /** Upsert replaces in place when the key is present and appends
      otherwise; either way, elements that do not match the key are kept
      where they were. */
  lemma UpsertShape<T>(xs: seq<T>, x: T, p: T -> bool)
    ensures var r := Upsert(xs, x, p);
            && (FindIndex(xs, p) >= 0 ==> |r| == |xs|)
            && (FindIndex(xs, p) < 0 ==> |r| == |xs| + 1 && r[|xs|] == x)
            && forall j :: 0 <= j < |xs| && !p(xs[j]) ==> r[j] == xs[j]
  {
  }

  /** After an upsert of a record that carries the key, the first record
      with that key is the one saved. */
  lemma UpsertFound<T>(xs: seq<T>, x: T, p: T -> bool)
    requires p(x)
    ensures var r := Upsert(xs, x, p);
            FindIndex(r, p) == (if FindIndex(xs, p) >= 0 then FindIndex(xs, p) else |xs|)
            && r[FindIndex(r, p)] == x
  {
    var r := Upsert(xs, x, p);
    var k := FindIndex(xs, p);
    if k >= 0 {
      FindIndexIs(r, p, k);
    } else {
      FindIndexIs(r, p, |xs|);
    }
  }

  /** The first position satisfying `p` is what `FindIndex` finds. */
  lemma FindIndexIs<T>(xs: seq<T>, p: T -> bool, k: int)
    requires 0 <= k < |xs| && p(xs[k]) && forall j :: 0 <= j < k ==> !p(xs[j])
    ensures FindIndex(xs, p) == k
  {
  }

  /** Saving the same record twice is saving it once. */
  lemma UpsertIdempotent<T>(xs: seq<T>, x: T, p: T -> bool)
    requires p(x)
    ensures Upsert(Upsert(xs, x, p), x, p) == Upsert(xs, x, p)
  {
    var r := Upsert(xs, x, p);
    UpsertFound(xs, x, p);
    assert r[FindIndex(r, p) := x] == r;
  }

  /** When at most one record carries the key before an upsert, exactly
      one does after it, and it is the saved one. */
  lemma {:induction false} UpsertUnique<T>(xs: seq<T>, x: T, p: T -> bool)
    requires p(x) && Count(xs, p) <= 1
    ensures Count(Upsert(xs, x, p), p) == 1
    ensures Filter(Upsert(xs, x, p), p) == [x]
  {
    var k := FindIndex(xs, p);
    var r := Upsert(xs, x, p);
    if k < 0 {
      FilterNone(xs, p);
      FilterAppend(xs, [x], p);
    } else {
      assert xs == xs[..k] + [xs[k]] + xs[k + 1..];
      assert r == xs[..k] + [x] + xs[k + 1..];
      FilterNone(xs[..k], p);
      FilterAppend(xs[..k] + [xs[k]], xs[k + 1..], p);
      FilterAppend(xs[..k], [xs[k]], p);
      FilterAppend(xs[..k] + [x], xs[k + 1..], p);
      FilterAppend(xs[..k], [x], p);
      FilterEmpty(xs[k + 1..], p);
    }
  }

  lemma {:induction false} FilterNone<T>(xs: seq<T>, p: T -> bool)
    requires forall j :: 0 <= j < |xs| ==> !p(xs[j])
    ensures Filter(xs, p) == []
  {
    if xs != [] { FilterNone(xs[1..], p); }
  }

  lemma FilterEmpty<T>(xs: seq<T>, p: T -> bool)
    requires Filter(xs, p) == []
    ensures forall j :: 0 <= j < |xs| ==> !p(xs[j])
  {

  }

  /** `xs.find(p)`: the first element satisfying `p`, or none. */
  function Find<T>(xs: seq<T>, p: T -> bool): (r: Option<T>)
    ensures r.Some? <==> exists j :: 0 <= j < |xs| && p(xs[j])
    ensures r.Some? ==> r.value == xs[FindIndex(xs, p)] && p(r.value)
  {
    var k := FindIndex(xs, p);
    if k >= 0 then Some(xs[k]) else None
  }

  /** Every element satisfies `p` exactly when the count is the length. */
  lemma {:induction false} CountFull<T>(xs: seq<T>, p: T -> bool)
    ensures Count(xs, p) == |xs| <==> forall i :: 0 <= i < |xs| ==> p(xs[i])
  {
    if xs != [] {
      CountFull(xs[1..], p);
      assert forall i :: 1 <= i < |xs| ==> xs[i] == xs[1..][i - 1];
    }
  }

  /** No element satisfies `p` exactly when the count is zero. */
  lemma CountZero<T>(xs: seq<T>, p: T -> bool)
    ensures Count(xs, p) == 0 <==> forall i :: 0 <= i < |xs| ==> !p(xs[i])
  {
    if Count(xs, p) == 0 {
      FilterEmpty(xs, p);
    } else {
      var x := Filter(xs, p)[0];
    }
  }

  /** `find` on a filtered list finds the first element passing both
      tests. */
  lemma {:induction false} FindFilter<T>(xs: seq<T>, q: T -> bool, p: T -> bool, both: T -> bool)
    requires forall x :: x in xs ==> both(x) == (q(x) && p(x))
    ensures Find(Filter(xs, q), p) == Find(xs, both)
  {
    if xs != [] {
      assert forall x :: x in xs[1..] ==> x in xs;
      FindFilter(xs[1..], q, p, both);
      var rest := Filter(xs[1..], q);
      if q(xs[0]) {
        assert Filter(xs, q) == [xs[0]] + rest;
        if !p(xs[0]) {
          assert ([xs[0]] + rest)[1..] == rest;
        }
      }
    }
  }

  /** Appending one element: its position is found only when no earlier
      element satisfies `p`. */
  lemma FindIndexSnoc<T>(xs: seq<T>, x: T, p: T -> bool)
    ensures FindIndex(xs + [x], p) ==
              if FindIndex(xs, p) >= 0 then FindIndex(xs, p) else if p(x) then |xs| else -1
  {
    var k := FindIndex(xs + [x], p);
    assert forall j :: 0 <= j < |xs| ==> (xs + [x])[j] == xs[j];
    if FindIndex(xs, p) >= 0 {
      FindIndexIs(xs + [x], p, FindIndex(xs, p));
    } else if p(x) {
      FindIndexIs(xs + [x], p, |xs|);
    }
  }

  /** Appending one element adds one to the count when it satisfies `p`. */
  lemma CountSnoc<T>(xs: seq<T>, x: T, p: T -> bool)
    ensures Count(xs + [x], p) == Count(xs, p) + (if p(x) then 1 else 0)
  {
    FilterAppend(xs, [x], p);
    assert [x][1..] == [];
  }

  /** Keeping what fails a test keeps all but the elements it counts. */
  lemma {:induction false} FilterComplement<T>(xs: seq<T>, p: T -> bool, q: T -> bool)
    requires forall x :: x in xs ==> q(x) == !p(x)
    ensures |Filter(xs, q)| == |xs| - Count(xs, p)
  {
    if xs != [] {
      assert forall x :: x in xs[1..] ==> x in xs;
      FilterComplement(xs[1..], p, q);
    }
  }

  /** Counting by a disjunction of two predicates that never hold
      together adds their counts. */
  lemma {:induction false} CountDisjoint<T>(xs: seq<T>, p: T -> bool, q: T -> bool, pq: T -> bool)
    requires forall x :: x in xs ==> pq(x) == (p(x) || q(x)) && !(p(x) && q(x))
    ensures Count(xs, pq) == Count(xs, p) + Count(xs, q)
  {
    if xs != [] {
      CountDisjoint(xs[1..], p, q, pq);
    }
  }

  /** No value occurs twice. */
  predicate Distinct<T(==)>(xs: seq<T>) {
    forall i, j :: 0 <= i < j < |xs| ==> xs[i] != xs[j]
  }

  /** Filtering a list without repeats leaves a list without repeats. */
  lemma {:induction false} FilterDistinct<T>(xs: seq<T>, p: T -> bool)
    requires Distinct(xs)
    ensures Distinct(Filter(xs, p))
  {
    if xs != [] {
      assert Distinct(xs[1..]) by {
        forall i, j | 0 <= i < j < |xs| - 1 ensures xs[1..][i] != xs[1..][j] {
          assert xs[1..][i] == xs[i + 1] && xs[1..][j] == xs[j + 1];
        }
      }
      FilterDistinct(xs[1..], p);
      if p(xs[0]) {
        var rest := Filter(xs[1..], p);
        assert xs[0] !in xs[1..];
        assert xs[0] !in rest;
        var r := [xs[0]] + rest;
        forall i, j | 0 <= i < j < |r| ensures r[i] != r[j] {
          if i == 0 {
            assert r[j] == rest[j - 1];
          } else {
            assert r[i] == rest[i - 1] && r[j] == rest[j - 1];
          }
        }
      }
    }
  }
}
