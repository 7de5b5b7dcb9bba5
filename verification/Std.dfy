/** Small shared vocabulary: options, and folds over sequences used by several components. */
module Std {
  datatype Option<+T> = None | Some(value: T)

  /** The elements of `s` that satisfy `keep`, in their original order. */
  function Filter<T(!new)>(s: seq<T>, keep: T -> bool): (r: seq<T>)
    ensures forall x :: x in r <==> x in s && keep(x)
  {
    if s == [] then []
    else if keep(s[0]) then [s[0]] + Filter(s[1..], keep)
    else Filter(s[1..], keep)
  }

  lemma {:induction false} FilterAppend<T(!new)>(a: seq<T>, b: seq<T>, keep: T -> bool)
    ensures Filter(a + b, keep) == Filter(a, keep) + Filter(b, keep)
  {
    if a == [] {
      assert a + b == b;
    } else {
      assert (a + b)[1..] == a[1..] + b;
      FilterAppend(a[1..], b, keep);
    }
  }

  lemma FilterOneMore<T(!new)>(s: seq<T>, x: T, keep: T -> bool)
    ensures Filter(s + [x], keep) == if keep(x) then Filter(s, keep) + [x] else Filter(s, keep)
  {
    FilterAppend(s, [x], keep);
    assert [x][1..] == [];
  }

  lemma {:induction false} FilterAll<T(!new)>(s: seq<T>, keep: T -> bool)
    requires forall x :: x in s ==> keep(x)
    ensures Filter(s, keep) == s
  {
    if s != [] {
      FilterAll(s[1..], keep);
    }
  }

  /** The image of `s` under `f`, element by element. */
  function Map<T, U>(f: T -> U, s: seq<T>): (r: seq<U>)
    ensures |r| == |s|
    ensures forall i :: 0 <= i < |s| ==> r[i] == f(s[i])
  {
    seq(|s|, i requires 0 <= i < |s| => f(s[i]))
  }

  /** The total of `f` over a sequence. */
  function Sum<T>(f: T -> int, s: seq<T>): int {
    if s == [] then 0 else f(s[0]) + Sum(f, s[1..])
  }

  lemma {:induction false} SumAppend<T>(f: T -> int, a: seq<T>, b: seq<T>)
    ensures Sum(f, a + b) == Sum(f, a) + Sum(f, b)
  {
    if a == [] {
      assert a + b == b;
    } else {
      assert (a + b)[1..] == a[1..] + b;
      SumAppend(f, a[1..], b);
    }
  }

  lemma SumOne<T>(f: T -> int, a: seq<T>, x: T)
    ensures Sum(f, a + [x]) == Sum(f, a) + f(x)
  {
    SumAppend(f, a, [x]);
    assert Sum(f, [x]) == f(x) + Sum(f, [x][1..]);
  }

  lemma SumUpdate<T>(f: T -> int, s: seq<T>, i: nat, x: T)
    requires i < |s|
    ensures Sum(f, s[i := x]) == Sum(f, s) - f(s[i]) + f(x)
  {
    assert s == s[..i] + [s[i]] + s[i + 1..];
    assert s[i := x] == s[..i] + [x] + s[i + 1..];
    SumOne(f, s[..i], s[i]);
    SumOne(f, s[..i], x);
    SumAppend(f, s[..i] + [s[i]], s[i + 1..]);
    SumAppend(f, s[..i] + [x], s[i + 1..]);
  }

  /** `s` without the element at position `i`. */
  function RemoveAt<T>(s: seq<T>, i: nat): (r: seq<T>)
    requires i < |s|
    ensures |r| == |s| - 1
  {
    s[..i] + s[i + 1..]
  }

  lemma SplitAt<T>(s: seq<T>, i: nat)
    requires i < |s|
    ensures s == s[..i] + [s[i]] + s[i + 1..]
  {
  }

  /** Appending does not disturb what is in front. */
  lemma AppendSlices<T>(s: seq<T>, x: T, i: nat)
    requires i <= |s|
    ensures (s + [x])[..i] == s[..i] && (s + [x])[i..] == s[i..] + [x]
  {
  }

  lemma SumMiddle<T>(f: T -> int, a: seq<T>, x: T, b: seq<T>)
    ensures Sum(f, a + [x] + b) == Sum(f, a + b) + f(x)
  {
    SumOne(f, a, x);
    SumAppend(f, a + [x], b);
    SumAppend(f, a, b);
  }

  lemma SumRemove<T>(f: T -> int, s: seq<T>, i: nat)
    requires i < |s|
    ensures Sum(f, RemoveAt(s, i)) == Sum(f, s) - f(s[i])
  {
    SplitAt(s, i);
    SumMiddle(f, s[..i], s[i], s[i + 1..]);
  }

  /** No element occurs twice. */
  ghost predicate Distinct<T>(s: seq<T>) {
    s == [] || (s[0] !in s[1..] && Distinct(s[1..]))
  }

  lemma {:induction false} DistinctAppend<T>(s: seq<T>, x: T)
    requires Distinct(s) && x !in s
    ensures Distinct(s + [x])
  {
    if s == [] {
      assert [x][1..] == [];
    } else {
      assert (s + [x])[1..] == s[1..] + [x];
      DistinctAppend(s[1..], x);
    }
  }

  /** `Distinct` does not depend on the order. */
  lemma {:induction false} DistinctCounts<T>(s: seq<T>)
    ensures Distinct(s) <==> forall x :: multiset(s)[x] <= 1
  {
    if s != [] {
      assert s == [s[0]] + s[1..];
      DistinctCounts(s[1..]);
      assert forall x :: multiset(s)[x] == multiset(s[1..])[x] + if x == s[0] then 1 else 0;
      assert s[0] in s[1..] <==> multiset(s[1..])[s[0]] > 0;
    }
  }

  /** Leaving elements out, or reordering, keeps a sequence distinct. */
  lemma DistinctSub<T>(s: seq<T>, t: seq<T>)
    requires Distinct(s) && multiset(t) <= multiset(s)
    ensures Distinct(t)
  {
    DistinctCounts(s);
    DistinctCounts(t);
  }

  lemma DistinctWithout<T>(a: seq<T>, x: T, b: seq<T>)
    requires Distinct(a + [x] + b)
    ensures Distinct(a + b)
  {
    DistinctSub(a + [x] + b, a + b);
  }

  lemma {:induction false} DistinctMiddle<T>(a: seq<T>, x: T, b: seq<T>)
    requires Distinct(a + [x] + b)
    ensures x !in a && x !in b
  {
    var s := a + [x] + b;
    if a == [] {
      assert s == [x] + b;
      assert s[1..] == b;
    } else {
      assert s[1..] == a[1..] + [x] + b;
      assert s[1..][|a| - 1] == x;
      DistinctMiddle(a[1..], x, b);
    }
  }

  /** What `Distinct` means, position by position. */
  lemma {:induction false} DistinctAt<T>(s: seq<T>, i: nat, j: nat)
    requires Distinct(s) && i < j < |s|
    ensures s[i] != s[j]
  {
    if i == 0 {
      assert s[j] == s[1..][j - 1];
    } else {
      DistinctAt(s[1..], i - 1, j - 1);
    }
  }

  lemma HeadIsIn<T>(s: seq<T>)
    ensures s != [] ==> s[0] in s
  {
  }

  // ----- Sorting -----

  /** In ascending order of `key`. */
  ghost predicate Ascending<T(!new)>(key: T -> int, s: seq<T>) {
    forall i, j :: 0 <= i < j < |s| ==> key(s[i]) <= key(s[j])
  }

  /** The library sort, of which callers use no more than this contract; it is not stable there. */
  method SortBy<T(!new)>(key: T -> int, before: seq<T>) returns (after: seq<T>)
    ensures Ascending(key, after) && multiset(after) == multiset(before)
  {
    after := [];
    for i := 0 to |before|
      invariant Ascending(key, after) && multiset(after) == multiset(before[..i])
    {
      var x, j := before[i], |after|;
      while j > 0 && key(x) < key(after[j - 1])
        invariant 0 <= j <= |after|
        invariant forall k :: j <= k < |after| ==> key(x) < key(after[k])
      {
        j := j - 1;
      }
      InsertAscending(key, after, j, x);
      InsertSame(after, j, x);
      assert before[..i + 1] == before[..i] + [x];
      after := after[..j] + [x] + after[j..];
    }
    assert before[..|before|] == before;
  }

  lemma InsertAscending<T(!new)>(key: T -> int, s: seq<T>, j: nat, x: T)
    requires Ascending(key, s) && j <= |s|
    requires forall k :: j <= k < |s| ==> key(x) < key(s[k])
    requires j > 0 ==> key(s[j - 1]) <= key(x)
    ensures Ascending(key, s[..j] + [x] + s[j..])
  {
  }

  lemma InsertSame<T>(s: seq<T>, j: nat, x: T)
    requires j <= |s|
    ensures multiset(s[..j] + [x] + s[j..]) == multiset(s) + multiset{x}
  {
    assert s == s[..j] + s[j..];
  }
}
