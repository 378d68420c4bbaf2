/** Sequence operations that stand in for the pandas calls of the services:
    filtering, head/tail/slice, distinct values in first-seen order, value
    counts, a stable sort and a sum. */
module Sequences {

  datatype Option<+T> = None | Some(value: T)

  // ---------------------------------------------------------------------
  // Filtering (boolean-mask indexing, `df[mask]`)
  // ---------------------------------------------------------------------

  /** The elements of `s` that satisfy `p`, in their original order. */
  function Filter<T(!new)>(s: seq<T>, p: T -> bool): (r: seq<T>)
    ensures |r| <= |s|
    ensures forall x :: x in r <==> x in s && p(x)
  {
    if s == [] then [] else (if p(s[0]) then [s[0]] else []) + Filter(s[1..], p)
  }

  /** A filter every element passes leaves the sequence as it is. */
  lemma {:induction false} FilterKeepsAll<T(!new)>(s: seq<T>, p: T -> bool)
    requires forall x :: x in s ==> p(x)
    ensures Filter(s, p) == s
  {
    if s != [] {
      assert s[0] in s;
      assert forall x :: x in s[1..] ==> x in s;
      FilterKeepsAll(s[1..], p);
      assert s == [s[0]] + s[1..];
    }
  }

  /** Filtering splits over concatenation, so it keeps the order of `s`. */
  lemma {:induction false} FilterAppend<T(!new)>(a: seq<T>, b: seq<T>, p: T -> bool)
    ensures Filter(a + b, p) == Filter(a, p) + Filter(b, p)
  {
    if a != [] {
      assert (a + b)[1..] == a[1..] + b;
      FilterAppend(a[1..], b, p);
    } else {
      assert a + b == b;
    }
  }

  /** A filter applied twice keeps what it kept the first time. */
  lemma {:induction false} FilterIdempotent<T(!new)>(s: seq<T>, p: T -> bool)
    ensures Filter(Filter(s, p), p) == Filter(s, p)
  {
    if s != [] {
      FilterIdempotent(s[1..], p);
      var r := Filter(s[1..], p);
      if p(s[0]) {
        assert Filter(s, p) == [s[0]] + r;
        assert ([s[0]] + r)[0] == s[0];
        assert ([s[0]] + r)[1..] == r;
      } else {
        assert Filter(s, p) == r;
      }
    }
  }

  /** The number of elements of `s` satisfying `p`. */
  function CountWhere<T(!new)>(s: seq<T>, p: T -> bool): nat
  {
    |Filter(s, p)|
  }

  /** Index of the first element of `s` satisfying `p`, if any. */
  function FindFirst<T>(s: seq<T>, p: T -> bool): (r: Option<nat>)
    ensures r.None? <==> forall i :: 0 <= i < |s| ==> !p(s[i])
    ensures r.Some? ==> r.value < |s| && p(s[r.value])
    ensures r.Some? ==> forall i :: 0 <= i < r.value ==> !p(s[i])
  {
    if s == [] then None
    else if p(s[0]) then Some(0)
    else match FindFirst(s[1..], p)
      case None => None
      case Some(k) => Some(k + 1)
  }

  /** The first match found by `FindFirst` is the head of the filtered sequence. */
  lemma {:induction false} FindFirstIsFilterHead<T(!new)>(s: seq<T>, p: T -> bool)
    ensures FindFirst(s, p).Some? <==> Filter(s, p) != []
    ensures FindFirst(s, p).Some? ==> Filter(s, p)[0] == s[FindFirst(s, p).value]
  {
    if s != [] && !p(s[0]) {
      FindFirstIsFilterHead(s[1..], p);
      FindFirstSkips(s, p);
    }
  }

  /** Past an element that fails `p`, both the search and the filter move on
      to the rest of the sequence. */
  lemma FindFirstSkips<T(!new)>(s: seq<T>, p: T -> bool)
    requires s != [] && !p(s[0])
    ensures Filter(s, p) == Filter(s[1..], p)
    ensures FindFirst(s, p).Some? == FindFirst(s[1..], p).Some?
    ensures FindFirst(s, p).Some? ==> s[FindFirst(s, p).value] == s[1..][FindFirst(s[1..], p).value]
  {
  }

  /** Filtering keeps every occurrence of a value it accepts. */
  lemma {:induction false} FilterMultiplicity<T(!new)>(s: seq<T>, p: T -> bool, x: T)
    requires p(x)
    ensures multiset(Filter(s, p))[x] == multiset(s)[x]
  {
    if s != [] {
      assert s == [s[0]] + s[1..];
      FilterMultiplicity(s[1..], p, x);
    }
  }

  // ---------------------------------------------------------------------
  // Positional selection (`head`, `tail`, `iloc[a:b]`, `iloc[::-1]`)
  // ---------------------------------------------------------------------

  function Min(a: int, b: int): int { if a < b then a else b }

  function Max(a: int, b: int): int { if a < b then b else a }

  /** pandas' `head(n)`: the first `n` elements; for a negative `n`, all but
      the last `-n`. */
  function Head<T>(s: seq<T>, n: int): (r: seq<T>)
    ensures r <= s
    ensures n >= 0 ==> |r| == Min(n, |s|)
    ensures n < 0 ==> |r| == Max(0, |s| + n)
  {
    if n >= 0 then s[..Min(n, |s|)] else s[..Max(0, |s| + n)]
  }

  /** pandas' `tail(n)` for `n >= 0`: the last `n` elements. */
  function Tail<T>(s: seq<T>, n: nat): (r: seq<T>)
    ensures |r| == Min(n, |s|)
    ensures forall i :: 0 <= i < |r| ==> r[i] == s[|s| - |r| + i]
  {
    s[|s| - Min(n, |s|)..]
  }

  /** Python's `s[lo:hi]` for non-negative bounds: out-of-range bounds are clamped. */
  function Slice<T>(s: seq<T>, lo: nat, hi: nat): (r: seq<T>)
    ensures |r| <= |s| && |r| <= Max(0, hi - lo)
    ensures lo >= |s| ==> r == []
    ensures forall i :: 0 <= i < |r| ==> lo + i < |s| && r[i] == s[lo + i]
  {
    var a := Min(lo, |s|);
    var b := Max(a, Min(hi, |s|));
    s[a..b]
  }

  /** `s` back to front. */
  function Reverse<T>(s: seq<T>): (r: seq<T>)
    ensures |r| == |s|
    ensures forall i :: 0 <= i < |s| ==> r[i] == s[|s| - 1 - i]
  {
    if s == [] then [] else Reverse(s[1..]) + [s[0]]
  }

  // ---------------------------------------------------------------------
  // Distinct values in first-seen order (`unique()`)
  // ---------------------------------------------------------------------

  predicate NoDups<T(==)>(s: seq<T>)
  {
    forall i, j :: 0 <= i < j < |s| ==> s[i] != s[j]
  }

  /** Each value of `s` once, in the order of its first occurrence. */
  function Distinct<T(==,!new)>(s: seq<T>): (d: seq<T>)
    ensures NoDups(d)
    ensures forall x :: x in d <==> x in s
    ensures |d| <= |s|
  {
    if s == [] then []
    else
      var p := s[..|s| - 1];
      assert s == p + [s[|s| - 1]];
      var d := Distinct(p);
      if s[|s| - 1] in d then d else d + [s[|s| - 1]]
  }

  lemma {:induction false} NoDupsOnce<T>(s: seq<T>, x: T)
    requires NoDups(s)
    ensures multiset(s)[x] <= 1
  {
    if s != [] {
      assert s == [s[0]] + s[1..];
      NoDupsOnce(s[1..], x);
      if s[0] == x {
        assert x !in s[1..];
      }
    }
  }

  /** A rearrangement of a sequence without repetitions has none either. */
  lemma PermutationNoDups<T>(r: seq<T>, s: seq<T>)
    requires NoDups(s) && multiset(r) == multiset(s)
    ensures NoDups(r)
  {
    forall i, j | 0 <= i < j < |r|
      ensures r[i] != r[j]
    {
      if r[i] == r[j] {
        assert r == r[..i] + [r[i]] + r[i + 1..j] + [r[j]] + r[j + 1..];
        assert multiset(r)[r[i]] >= 2;
        NoDupsOnce(s, r[i]);
        assert false;
      }
    }
  }

  /** Position of the first occurrence of `x` in `s`. */
  function FirstIndex<T(==)>(s: seq<T>, x: T): (k: nat)
    requires x in s
    ensures k < |s| && s[k] == x
    ensures forall i :: 0 <= i < k ==> s[i] != x
  {
    if s[0] == x then 0 else 1 + FirstIndex(s[1..], x)
  }

  lemma FirstIndexExtend<T>(p: seq<T>, x: T, y: T)
    requires y in p
    ensures FirstIndex(p + [x], y) == FirstIndex(p, y)
  {
    var s := p + [x];
    var a, b := FirstIndex(s, y), FirstIndex(p, y);
    assert s[b] == y;
    assert a <= b;
    assert p[a] == y;
  }

  /** `Distinct` lists values in the order in which they first occur in `s`. */
  lemma {:induction false} DistinctFirstSeen<T(!new)>(s: seq<T>)
    ensures forall i, j :: 0 <= i < j < |Distinct(s)| ==>
      FirstIndex(s, Distinct(s)[i]) < FirstIndex(s, Distinct(s)[j])
  {
    if s != [] {
      var p, x := s[..|s| - 1], s[|s| - 1];
      assert s == p + [x];
      DistinctFirstSeen(p);
      var d := Distinct(p);
      forall y | y in d ensures FirstIndex(s, y) == FirstIndex(p, y) < |p| {
        FirstIndexExtend(p, x, y);
      }
      if x !in d {
        assert FirstIndex(s, x) == |p|;
      }
    }
  }

  /** Two values that first occur in one order in a filtered sequence first
      occur in that order in the sequence itself. */
  lemma {:induction false} FilterFirstSeen<T(!new)>(s: seq<T>, p: T -> bool, x: T, y: T)
    requires x in Filter(s, p) && y in Filter(s, p)
    requires FirstIndex(Filter(s, p), x) < FirstIndex(Filter(s, p), y)
    ensures FirstIndex(s, x) < FirstIndex(s, y)
  {
    var f := Filter(s, p);
    if s[0] != x && s[0] != y {
      var g := Filter(s[1..], p);
      if p(s[0]) {
        assert f == [s[0]] + g;
        assert FirstIndex(f, x) == 1 + FirstIndex(g, x);
        assert FirstIndex(f, y) == 1 + FirstIndex(g, y);
      } else {
        assert f == g;
      }
      FilterFirstSeen(s[1..], p, x, y);
    }
  }

  // ---------------------------------------------------------------------
  // Value counts (`value_counts()`, `groupby().size()`)
  // ---------------------------------------------------------------------

  /** Each value of `d` paired with its multiplicity in `m`. */
  function Pairs<T(==)>(d: seq<T>, m: multiset<T>): (ps: seq<(T, nat)>)
    ensures |ps| == |d|
    ensures forall i :: 0 <= i < |d| ==> ps[i] == (d[i], m[d[i]])
  {
    if d == [] then [] else Pairs(d[..|d| - 1], m) + [(d[|d| - 1], m[d[|d| - 1]])]
  }

  /** Each distinct value of `s`, in first-seen order, with the number of
      times it occurs. */
  function Tally<T(==,!new)>(s: seq<T>): (ps: seq<(T, nat)>)
    ensures |ps| == |Distinct(s)|
    ensures forall i :: 0 <= i < |ps| ==> ps[i].0 == Distinct(s)[i] && ps[i].1 == multiset(s)[ps[i].0] >= 1
  {
    var d := Distinct(s);
    assert forall x :: x in d ==> x in multiset(s);
    Pairs(d, multiset(s))
  }

  /** No value appears in two entries of a tally. */
  lemma TallyKeysDistinct<T(!new)>(s: seq<T>)
    ensures forall k, l :: 0 <= k < |Tally(s)| && 0 <= l < |Tally(s)| && k != l ==> Tally(s)[k].0 != Tally(s)[l].0
  {
    var d := Distinct(s);
    assert NoDups(d);
  }

  function SumCounts<T>(ps: seq<(T, nat)>): nat
  {
    if ps == [] then 0 else SumCounts(ps[..|ps| - 1]) + ps[|ps| - 1].1
  }

  lemma {:induction false} SumCountsAppend<T>(a: seq<(T, nat)>, b: seq<(T, nat)>)
    ensures SumCounts(a + b) == SumCounts(a) + SumCounts(b)
  {
    if b != [] {
      assert (a + b)[..|a + b| - 1] == a + b[..|b| - 1];
      SumCountsAppend(a, b[..|b| - 1]);
    } else {
      assert a + b == a;
    }
  }

  lemma {:induction false} PairsAddOne<T>(d: seq<T>, m: multiset<T>, x: T)
    requires NoDups(d)
    ensures SumCounts(Pairs(d, m + multiset{x})) == SumCounts(Pairs(d, m)) + (if x in d then 1 else 0)
  {
    if d != [] {
      var d' := d[..|d| - 1];
      assert d == d' + [d[|d| - 1]];
      PairsAddOne(d', m, x);
    }
  }

  lemma DistinctSnoc<T(!new)>(p: seq<T>, x: T)
    ensures Distinct(p + [x]) == if x in Distinct(p) then Distinct(p) else Distinct(p) + [x]
  {
    assert (p + [x])[..|p|] == p;
  }

  lemma PairsSnoc<T>(d: seq<T>, x: T, m: multiset<T>)
    ensures SumCounts(Pairs(d + [x], m)) == SumCounts(Pairs(d, m)) + m[x]
  {
    assert (d + [x])[..|d|] == d;
    var ps := Pairs(d, m) + [(x, m[x])];
    assert ps[..|ps| - 1] == Pairs(d, m);
  }

  /** The counts of a tally add up to the length of the sequence. */
  lemma {:induction false} TallySum<T(!new)>(s: seq<T>)
    ensures SumCounts(Tally(s)) == |s|
  {
    if s != [] {
      var p, x := s[..|s| - 1], s[|s| - 1];
      assert s == p + [x];
      TallySum(p);
      TallySnoc(p, x);
    }
  }

  /** One more element adds one to the counts of a tally. */
  lemma TallySnoc<T(!new)>(p: seq<T>, x: T)
    ensures SumCounts(Tally(p + [x])) == SumCounts(Tally(p)) + 1
  {
    var s := p + [x];
    var d, m := Distinct(p), multiset(p);
    assert multiset(s) == m + multiset{x};
    DistinctSnoc(p, x);
    TallyPairs(p);
    TallyPairs(s);
    PairsAddOne(d, m, x);
    if x !in d {
      assert x !in p;
      PairsSnoc(d, x, m + multiset{x});
    }
  }

  lemma TallyPairs<T(!new)>(s: seq<T>)
    ensures Tally(s) == Pairs(Distinct(s), multiset(s))
  {
  }

  // ---------------------------------------------------------------------
  // Stable insertion sort
  // ---------------------------------------------------------------------

  ghost predicate TotalPreorder<T(!new)>(le: (T, T) -> bool)
  {
    && (forall x, y :: le(x, y) || le(y, x))
    && (forall x, y, z :: le(x, y) && le(y, z) ==> le(x, z))
  }

  ghost predicate SortedBy<T>(le: (T, T) -> bool, s: seq<T>)
  {
    forall i, j :: 0 <= i < j < |s| ==> le(s[i], s[j])
  }

  /** Inserts `x` after every leading element that is `le` it. */
  function Insert<T(==)>(le: (T, T) -> bool, x: T, s: seq<T>): (r: seq<T>)
    ensures |r| == |s| + 1
    ensures multiset(r) == multiset(s) + multiset{x}
  {
    if s == [] then [x]
    else if le(s[0], x) then
      assert s == [s[0]] + s[1..];
      [s[0]] + Insert(le, x, s[1..])
    else [x] + s
  }

  /** Insertion sort; elements that compare equal keep their input order. */
  function SortBy<T(==)>(le: (T, T) -> bool, s: seq<T>): (r: seq<T>)
    ensures |r| == |s|
    ensures multiset(r) == multiset(s)
  {
    if s == [] then []
    else
      assert s == s[..|s| - 1] + [s[|s| - 1]];
      Insert(le, s[|s| - 1], SortBy(le, s[..|s| - 1]))
  }

  lemma {:induction false} InsertSorted<T(!new)>(le: (T, T) -> bool, x: T, s: seq<T>)
    requires TotalPreorder(le) && SortedBy(le, s)
    ensures SortedBy(le, Insert(le, x, s))
  {
    if s != [] {
      if le(s[0], x) {
        InsertSorted(le, x, s[1..]);
        InsertAfterHead(le, x, s);
        ConsSorted(le, s[0], Insert(le, x, s[1..]));
      } else {
        forall y | y in s ensures le(x, y) {
          var k :| 0 <= k < |s| && s[k] == y;
          assert le(s[0], y);
        }
        ConsSorted(le, x, s);
      }
    }
  }

  /** Everything inserted after the head of a sorted sequence is above it. */
  lemma InsertAfterHead<T(!new)>(le: (T, T) -> bool, x: T, s: seq<T>)
    requires s != [] && le(s[0], x) && SortedBy(le, s)
    ensures forall y :: y in Insert(le, x, s[1..]) ==> le(s[0], y)
  {
    var r := Insert(le, x, s[1..]);
    forall y | y in r ensures le(s[0], y) {
      assert y in multiset(r);
      if y != x {
        assert y in multiset(s[1..]);
        var k :| 0 <= k < |s[1..]| && s[1..][k] == y;
        assert s[k + 1] == y;
      }
    }
  }

  /** A sorted sequence stays sorted behind an element below all of it. */
  lemma ConsSorted<T>(le: (T, T) -> bool, a: T, r: seq<T>)
    requires SortedBy(le, r) && forall y :: y in r ==> le(a, y)
    ensures SortedBy(le, [a] + r)
  {
    var s := [a] + r;
    forall i, j | 0 <= i < j < |s| ensures le(s[i], s[j]) {
      assert s[j] == r[j - 1];
      if i > 0 {
        assert s[i] == r[i - 1];
      }
    }
  }

  lemma {:induction false} SortBySorted<T(!new)>(le: (T, T) -> bool, s: seq<T>)
    requires TotalPreorder(le)
    ensures SortedBy(le, SortBy(le, s))
  {
    if s != [] {
      SortBySorted(le, s[..|s| - 1]);
      InsertSorted(le, s[|s| - 1], SortBy(le, s[..|s| - 1]));
    }
  }

  lemma {:induction false} InsertSumCounts<T>(le: ((T, nat), (T, nat)) -> bool, x: (T, nat), s: seq<(T, nat)>)
    ensures SumCounts(Insert(le, x, s)) == SumCounts(s) + x.1
  {
    if s == [] {
      assert SumCounts([x]) == SumCounts([x][..0]) + x.1;
    } else {
      SumCountsAppend([s[0]], s[1..]);
      assert SumCounts([s[0]]) == SumCounts([s[0]][..0]) + s[0].1;
      assert s == [s[0]] + s[1..];
      if le(s[0], x) {
        InsertSumCounts(le, x, s[1..]);
        SumCountsAppend([s[0]], Insert(le, x, s[1..]));
      } else {
        SumCountsAppend([x], s);
        assert SumCounts([x]) == SumCounts([x][..0]) + x.1;
      }
    }
  }

  /** Sorting a tally does not change the total of its counts. */
  lemma {:induction false} SortBySumCounts<T>(le: ((T, nat), (T, nat)) -> bool, s: seq<(T, nat)>)
    ensures SumCounts(SortBy(le, s)) == SumCounts(s)
  {
    if s != [] {
      var p := s[..|s| - 1];
      SortBySumCounts(le, p);
      InsertSumCounts(le, s[|s| - 1], SortBy(le, p));
    }
  }

  // ---------------------------------------------------------------------
  // Sums of reals
  // ---------------------------------------------------------------------

  function Sum(xs: seq<real>): real
  {
    if xs == [] then 0.0 else Sum(xs[..|xs| - 1]) + xs[|xs| - 1]
  }

  lemma {:induction false} SumAppend(a: seq<real>, b: seq<real>)
    ensures Sum(a + b) == Sum(a) + Sum(b)
  {
    if b != [] {
      assert (a + b)[..|a + b| - 1] == a + b[..|b| - 1];
      SumAppend(a, b[..|b| - 1]);
    } else {
      assert a + b == a;
    }
  }
}
