/**
 * The session's jump history and its top-N query: the heights sorted from
 * highest to lowest, cut to the first N.
 */
module History {
  import opened Numeric

  /** How many of the best jumps are shown. */
  const TOP_COUNT: nat := 3

  predicate NonIncreasing(s: seq<real>) {
    forall i, j :: 0 <= i < j < |s| ==> s[i] >= s[j]
  }

  /** Places `x` into a sequence, before the first element it is not below. */
  function Insert(x: real, s: seq<real>): (r: seq<real>)
    ensures |r| == |s| + 1
  {
    if s == [] || x >= s[0] then [x] + s else [s[0]] + Insert(x, s[1..])
  }

  /** `sorted(s, reverse=True)`, as an insertion sort. */
  function SortDescending(s: seq<real>): (r: seq<real>)
    ensures |r| == |s|
  {
    if s == [] then [] else Insert(s[0], SortDescending(s[1..]))
  }

  /** Inserting adds exactly `x` to the elements. */
  lemma {:induction false} InsertPermutes(x: real, s: seq<real>)
    ensures multiset(Insert(x, s)) == multiset(s) + multiset{x}
  {
    if s != [] && x < s[0] {
      InsertPermutes(x, s[1..]);
      assert s == [s[0]] + s[1..];
      assert Insert(x, s) == [s[0]] + Insert(x, s[1..]);
    }
  }

  /** Inserting into a non-increasing sequence keeps it non-increasing. */
  lemma {:induction false} InsertSorted(x: real, s: seq<real>)
    requires NonIncreasing(s)
    ensures NonIncreasing(Insert(x, s))
    ensures Insert(x, s)[0] == if s == [] then x else Max(x, s[0])
  {
    if s != [] && x < s[0] {
      var tail := s[1..];
      assert NonIncreasing(tail) by {
        forall i, j | 0 <= i < j < |tail| ensures tail[i] >= tail[j] {
          assert tail[i] == s[i + 1] && tail[j] == s[j + 1];
        }
      }
      InsertSorted(x, tail);
      var rest := Insert(x, tail);
      assert tail != [] ==> s[0] >= tail[0] == s[1];
      assert s[0] >= rest[0];
      var r := [s[0]] + rest;
      assert r == Insert(x, s);
      forall i, j | 0 <= i < j < |r| ensures r[i] >= r[j] {
        if i == 0 {
          assert rest[0] >= rest[j - 1];
        } else {
          assert r[i] == rest[i - 1] && r[j] == rest[j - 1];
        }
      }
    }
  }

  /** The sort yields a non-increasing permutation of its input. */
  lemma {:induction false} SortDescendingCorrect(s: seq<real>)
    ensures NonIncreasing(SortDescending(s))
    ensures multiset(SortDescending(s)) == multiset(s)
  {
    if s != [] {
      assert s == [s[0]] + s[1..];
      SortDescendingCorrect(s[1..]);
      InsertSorted(s[0], SortDescending(s[1..]));
      InsertPermutes(s[0], SortDescending(s[1..]));
    }
  }

  /** `sorted(heights, reverse=True)[:n]`. */
  function Top(heights: seq<real>, n: nat): (top: seq<real>)
  {
    var sorted := SortDescending(heights);
    if |sorted| <= n then sorted else sorted[..n]
  }

  /**
   * Cutting a non-increasing sequence after `m` elements leaves out only
   * elements that are at most every element kept.
   */
  lemma {:induction false} PrefixOfSortedIsLargest(sorted: seq<real>, m: nat)
    requires NonIncreasing(sorted)
    requires m <= |sorted|
    ensures multiset(sorted[..m]) <= multiset(sorted)
    ensures forall x, j :: x in multiset(sorted) - multiset(sorted[..m]) && 0 <= j < m ==> x <= sorted[j]
  {
    var top, rest := sorted[..m], sorted[m..];
    assert sorted == top + rest;
    assert multiset(sorted) - multiset(top) == multiset(rest);
    forall x, j | x in multiset(rest) && 0 <= j < m
      ensures x <= sorted[j]
    {
      var k :| 0 <= k < |rest| && rest[k] == x;
      assert sorted[m + k] == x;
    }
  }

  /**
   * The top-N query keeps the min(N, |heights|) largest heights, from highest
   * to lowest: every height it leaves out is at most every height it keeps,
   * and what it keeps is drawn from the history.
   */
  lemma {:induction false} TopKeepsLargest(heights: seq<real>, n: nat)
    ensures |Top(heights, n)| == if |heights| <= n then |heights| else n
    ensures NonIncreasing(Top(heights, n))
    ensures multiset(Top(heights, n)) <= multiset(heights)
    ensures forall x, j :: x in multiset(heights) - multiset(Top(heights, n)) && 0 <= j < |Top(heights, n)|
              ==> x <= Top(heights, n)[j]
  {
    var sorted := SortDescending(heights);
    SortDescendingCorrect(heights);
    var m := if |sorted| <= n then |sorted| else n;
    assert Top(heights, n) == sorted[..m];
    PrefixOfSortedIsLargest(sorted, m);
  }

  /** The query the tracker displays: the three highest jumps. */
  function TopJumps(heights: seq<real>): (top: seq<real>)
    ensures |top| == if |heights| <= TOP_COUNT then |heights| else TOP_COUNT
    ensures NonIncreasing(top)
    ensures multiset(top) <= multiset(heights)
    ensures forall x, j :: x in multiset(heights) - multiset(top) && 0 <= j < |top| ==> x <= top[j]
  {
    TopKeepsLargest(heights, TOP_COUNT);
    Top(heights, TOP_COUNT)
  }

  /** The example history [10.2, 34.3, 5.0, 40.1] shows [40.1, 34.3, 10.2]. */
  lemma TopJumpsExample()
    ensures TopJumps([10.2, 34.3, 5.0, 40.1]) == [40.1, 34.3, 10.2]
  {
    assert [10.2, 34.3, 5.0, 40.1][1..] == [34.3, 5.0, 40.1];
    assert [34.3, 5.0, 40.1][1..] == [5.0, 40.1];
    assert [5.0, 40.1][1..] == [40.1];
    assert [40.1][1..] == [];
    assert [40.1, 5.0][1..] == [5.0];
    assert [40.1, 34.3, 5.0][1..] == [34.3, 5.0];
    assert [34.3, 5.0][1..] == [5.0];
    assert SortDescending([10.2, 34.3, 5.0, 40.1]) == [40.1, 34.3, 10.2, 5.0];
  }
}
