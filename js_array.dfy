/** Array.prototype.filter, which both delete and unsubscribe use. */
module JsArray {

  /** The elements of s that satisfy keep, in their original order. */
  function Filter<T>(s: seq<T>, keep: T -> bool): (r: seq<T>)
    ensures |r| <= |s|
    ensures forall i :: 0 <= i < |r| ==> keep(r[i])
  {
    if |s| == 0 then [] else (if keep(s[0]) then [s[0]] else []) + Filter(s[1..], keep)
  }

  /**
   * An element is kept exactly when it is in s and satisfies keep, and each
   * kept element occurs as often as it did in s.
   */
  lemma {:induction false} FilterMembers<T>(s: seq<T>, keep: T -> bool)
    ensures forall x :: x in Filter(s, keep) <==> x in s && keep(x)
    ensures forall x :: multiset(Filter(s, keep))[x] == if keep(x) then multiset(s)[x] else 0
  {
    if |s| > 0 {
      FilterMembers(s[1..], keep);
      assert s == [s[0]] + s[1..];
    }
  }

  /** Filtering distributes over concatenation: the survivors keep their relative order. */
  lemma {:induction false} FilterAppend<T>(a: seq<T>, b: seq<T>, keep: T -> bool)
    ensures Filter(a + b, keep) == Filter(a, keep) + Filter(b, keep)
  {
    if |a| == 0 {
      assert a + b == b;
    } else {
      var head := if keep(a[0]) then [a[0]] else [];
      assert (a + b)[0] == a[0] && (a + b)[1..] == a[1..] + b;
      calc {
        Filter(a + b, keep);
        head + Filter(a[1..] + b, keep);
        { FilterAppend(a[1..], b, keep); }
        head + (Filter(a[1..], keep) + Filter(b, keep));
        (head + Filter(a[1..], keep)) + Filter(b, keep);
      }
    }
  }

  lemma FilterSingleton<T>(x: T, keep: T -> bool)
    ensures Filter([x], keep) == if keep(x) then [x] else []
  {
    assert [x][1..] == [];
  }

  /** Filtering a list split around one element filters each part. */
  lemma FilterAround<T>(a: seq<T>, x: T, b: seq<T>, keep: T -> bool)
    ensures Filter(a + [x] + b, keep) == Filter(a, keep) + Filter([x], keep) + Filter(b, keep)
  {
    FilterAppend(a + [x], b, keep);
    FilterAppend(a, [x], keep);
  }

  /** A list none of whose elements satisfies keep filters to nothing. */
  lemma {:induction false} FilterNone<T>(s: seq<T>, keep: T -> bool)
    requires forall i :: 0 <= i < |s| ==> !keep(s[i])
    ensures Filter(s, keep) == []
  {
    if |s| > 0 {
      FilterNone(s[1..], keep);
    }
  }

  lemma Shuffle<T>(p: seq<T>, q: seq<T>, r: seq<T>)
    requires q == [] || r == []
    ensures p + q + r == (p + r) + q
  {
  }

  /**
   * Moving x in front of a run b changes nothing in the filtered list when
   * no element of b is kept alongside x.
   */
  lemma FilterOvertakes<T>(a: seq<T>, x: T, b: seq<T>, keep: T -> bool)
    requires keep(x) ==> forall i :: 0 <= i < |b| ==> !keep(b[i])
    ensures Filter(a + [x] + b, keep) == Filter(a + b, keep) + Filter([x], keep)
  {
    FilterAround(a, x, b, keep);
    FilterAppend(a, b, keep);
    if keep(x) {
      FilterNone(b, keep);
    } else {
      FilterSingleton(x, keep);
    }
    Shuffle(Filter(a, keep), Filter([x], keep), Filter(b, keep));
  }

  /** A list whose elements all satisfy keep is left as it is. */
  lemma {:induction false} FilterKeepsAll<T>(s: seq<T>, keep: T -> bool)
    requires forall i :: 0 <= i < |s| ==> keep(s[i])
    ensures Filter(s, keep) == s
  {
    if |s| > 0 {
      FilterKeepsAll(s[1..], keep);
    }
  }

  /** Filtering twice with the same test is filtering once. */
  lemma FilterIdempotent<T>(s: seq<T>, keep: T -> bool)
    ensures Filter(Filter(s, keep), keep) == Filter(s, keep)
  {
    FilterKeepsAll(Filter(s, keep), keep);
  }

  /** Exactly one rejected element means the result is exactly one shorter. */
  lemma {:induction false} FilterDropsOne<T>(s: seq<T>, keep: T -> bool, k: nat)
    requires k < |s| && !keep(s[k])
    requires forall i :: 0 <= i < |s| && i != k ==> keep(s[i])
    ensures |Filter(s, keep)| == |s| - 1
  {
    FilterAppend(s[..k], s[k..], keep);
    assert s == s[..k] + s[k..];
    FilterKeepsAll(s[..k], keep);
    FilterKeepsAll(s[k + 1..], keep);
    assert s[k..][1..] == s[k + 1..];
  }

  /**
   * `Math.floor(Math.random() * len)` with the random number given as the
   * fraction num / den in [0, 1): the floor of num * len / den.
   */
  function RandomIndex(len: nat, num: nat, den: nat): (i: nat)
    requires num < den
  {
    (num * len) / den
  }

  /** For a non-empty array the random pick is a valid index: it never reaches len. */
  lemma RandomIndexInRange(len: nat, num: nat, den: nat)
    requires num < den && len > 0
    ensures RandomIndex(len, num, den) < len
    ensures RandomIndex(len, num, den) * den <= num * len
  {
    var i := RandomIndex(len, num, den);
    assert i * den <= num * len by {
      assert (num * len) == i * den + (num * len) % den;
    }
    assert num * len < den * len by {
      assert (den - num) * len > 0;
    }
  }
}
