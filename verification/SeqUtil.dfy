/** Order-preserving filtering, the shape of every "copy the matching elements into a
    new list" loop in the source. */
module SeqUtil {
  import opened Outcomes

  function Filter<T(!new)>(s: seq<T>, keep: T -> bool): (r: seq<T>)
    ensures |r| <= |s|
  {
    if |s| == 0 then []
    else if keep(s[0]) then [s[0]] + Filter(s[1..], keep)
    else Filter(s[1..], keep)
  }

  /** The result holds exactly the input's elements that satisfy `keep`. */
  lemma {:induction false} FilterMembers<T(!new)>(s: seq<T>, keep: T -> bool)
    ensures forall x :: x in Filter(s, keep) <==> x in s && keep(x)
    ensures forall i :: 0 <= i < |Filter(s, keep)| ==> keep(Filter(s, keep)[i])
  {
    if |s| > 0 {
      FilterMembers(s[1..], keep);
      assert s == [s[0]] + s[1..];
    }
  }

  /** The number of elements of `s` satisfying `keep`. */
  function Count<T(!new)>(s: seq<T>, keep: T -> bool): (n: nat)
    ensures n <= |s|
  {
    |Filter(s, keep)|
  }

  /** The kept and the dropped elements together are a permutation of the input. */
  lemma {:induction false} FilterSplits<T(!new)>(s: seq<T>, keep: T -> bool, drop: T -> bool)
    requires forall x :: drop(x) <==> !keep(x)
    ensures multiset(Filter(s, keep)) + multiset(Filter(s, drop)) == multiset(s)
  {
    if |s| > 0 {
      FilterSplits(s[1..], keep, drop);
      assert s == [s[0]] + s[1..];
    }
  }

  /** Filtering distributes over concatenation. */
  lemma {:induction false} FilterAppend<T(!new)>(a: seq<T>, b: seq<T>, keep: T -> bool)
    ensures Filter(a + b, keep) == Filter(a, keep) + Filter(b, keep)
  {
    if |a| == 0 {
      assert a + b == b;
    } else {
      assert (a + b)[1..] == a[1..] + b;
      FilterAppend(a[1..], b, keep);
    }
  }

  /** Filtering a sequence extended by one element. */
  lemma FilterSnoc<T(!new)>(s: seq<T>, x: T, keep: T -> bool)
    ensures Filter(s + [x], keep) == Filter(s, keep) + (if keep(x) then [x] else [])
  {
    FilterAppend(s, [x], keep);
    assert [x][1..] == [];
  }

  /** A predicate that holds of every element keeps the whole sequence. */
  lemma {:induction false} FilterAll<T(!new)>(s: seq<T>, keep: T -> bool)
    requires forall i :: 0 <= i < |s| ==> keep(s[i])
    ensures Filter(s, keep) == s
  {
    if |s| > 0 {
      FilterAll(s[1..], keep);
    }
  }

  /** `x` occurs somewhere before an occurrence of `y`. */
  predicate Before<T(==)>(s: seq<T>, x: T, y: T) {
    exists i, j :: 0 <= i < j < |s| && s[i] == x && s[j] == y
  }

  lemma BeforeTail<T>(s: seq<T>, x: T, y: T)
    requires |s| > 0 && Before(s[1..], x, y)
    ensures Before(s, x, y)
  {
    var i, j :| 0 <= i < j < |s[1..]| && s[1..][i] == x && s[1..][j] == y;
    assert s[i + 1] == x && s[j + 1] == y;
  }

  /** Filtering never reorders: two kept elements appear in the result in the order they
      had in the input, and conversely. */
  lemma {:induction false} FilterKeepsOrder<T(!new)>(s: seq<T>, keep: T -> bool, x: T, y: T)
    ensures Before(Filter(s, keep), x, y) ==> Before(s, x, y)
    ensures Before(s, x, y) && keep(x) && keep(y) ==> Before(Filter(s, keep), x, y)
  {
    if |s| == 0 {
      return;
    }
    FilterKeepsOrder(s[1..], keep, x, y);
    FilterMembers(s[1..], keep);
    var r := Filter(s, keep);
    var rest := Filter(s[1..], keep);
    if Before(r, x, y) {
      var i, j :| 0 <= i < j < |r| && r[i] == x && r[j] == y;
      if keep(s[0]) {
        assert r == [s[0]] + rest;
        if i == 0 {
          assert y in rest by { assert rest[j - 1] == y; }
          assert y in s[1..];
          var k :| 0 <= k < |s[1..]| && s[1..][k] == y;
          assert s[0] == x && s[k + 1] == y;
        } else {
          assert rest[i - 1] == x && rest[j - 1] == y;
          BeforeTail(s, x, y);
        }
      } else {
        BeforeTail(s, x, y);
      }
    }
    if Before(s, x, y) && keep(x) && keep(y) {
      var i, j :| 0 <= i < j < |s| && s[i] == x && s[j] == y;
      if i == 0 {
        assert r == [s[0]] + rest;
        assert y in s[1..] by { assert s[1..][j - 1] == y; }
        assert y in rest;
        var k :| 0 <= k < |rest| && rest[k] == y;
        assert r[0] == x && r[k + 1] == y;
      } else {
        assert s[1..][i - 1] == x && s[1..][j - 1] == y;
        assert Before(s[1..], x, y);
        if keep(s[0]) {
          assert r == [s[0]] + rest;
          var a, b :| 0 <= a < b < |rest| && rest[a] == x && rest[b] == y;
          assert r[a + 1] == x && r[b + 1] == y;
        }
      }
    }
  }

  predicate Distinct<T(==)>(s: seq<T>) {
    forall i, j :: 0 <= i < j < |s| ==> s[i] != s[j]
  }

  /** `f` applied to each element, in order. */
  function Map<T, U>(s: seq<T>, f: T -> U): (r: seq<U>)
    ensures |r| == |s| && forall i :: 0 <= i < |s| ==> r[i] == f(s[i])
  {
    seq(|s|, i requires 0 <= i < |s| => f(s[i]))
  }

  lemma MapCons<T, U>(s: seq<T>, f: T -> U)
    requires |s| > 0
    ensures Map(s, f) == [f(s[0])] + Map(s[1..], f)
  {
  }

  /** The values of the present elements, in order: the non-null results of a loop. */
  function Somes<T>(s: seq<Option<T>>): (r: seq<T>)
    ensures |r| <= |s|
  {
    if |s| == 0 then []
    else if s[0].Some? then [s[0].value] + Somes(s[1..])
    else Somes(s[1..])
  }

  /** The values of a concatenation are those of the first part, then those of the second. */
  lemma {:induction false} SomesAppend<T>(a: seq<Option<T>>, b: seq<Option<T>>)
    ensures Somes(a + b) == Somes(a) + Somes(b)
  {
    if |a| == 0 {
      assert a + b == b;
    } else {
      assert (a + b)[0] == a[0];
      assert (a + b)[1..] == a[1..] + b;
      SomesAppend(a[1..], b);
    }
  }
}
