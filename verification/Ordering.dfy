/** Sorting patch descriptors by (priority, key), keys being strings compared character by character. */
module Ordering {
  import opened Sorting

  predicate LexLess(a: string, b: string)
  {
    if b == "" then false
    else if a == "" then true
    else a[0] < b[0] || (a[0] == b[0] && LexLess(a[1..], b[1..]))
  }

  lemma {:induction false} LexTotal(a: string, b: string)
    ensures a == b || LexLess(a, b) || LexLess(b, a)
  {
    if a != "" && b != "" && a[0] == b[0] {
      LexTotal(a[1..], b[1..]);
      assert a == [a[0]] + a[1..] && b == [b[0]] + b[1..];
    }
  }

  lemma {:induction false} LexTransitive(a: string, b: string, c: string)
    requires LexLess(a, b) && LexLess(b, c)
    ensures LexLess(a, c)
  {
    if a != "" && a[0] == b[0] == c[0] { LexTransitive(a[1..], b[1..], c[1..]); }
  }

  lemma {:induction false} LexIrreflexive(a: string)
    ensures !LexLess(a, a)
  {
    if a != "" { LexIrreflexive(a[1..]); }
  }

  /** The strings agree up to k, and there the first ends or has the smaller character. */
  predicate SmallerAt(a: string, b: string, k: nat)
  {
    k <= |a| && k < |b| && a[..k] == b[..k] && (k < |a| ==> a[k] < b[k])
  }

  lemma SmallerPastHeads(a: string, b: string, k: nat)
    requires SmallerAt(a, b, k) && k > 0
    ensures a != "" && b != "" && a[0] == b[0] && SmallerAt(a[1..], b[1..], k - 1)
  {
    assert a[0] == a[..k][0] == b[..k][0] == b[0];
    assert a[1..][..k - 1] == a[..k][1..] && b[1..][..k - 1] == b[..k][1..];
  }

  lemma {:induction false} LexLessIff(a: string, b: string)
    ensures LexLess(a, b) <==> exists k: nat :: SmallerAt(a, b, k)
  {
    if k: nat :| SmallerAt(a, b, k) {
      if k > 0 {
        SmallerPastHeads(a, b, k);
        LexLessIff(a[1..], b[1..]);
      }
    }
    if LexLess(a, b) {
      if a == "" || a[0] != b[0] {
        assert SmallerAt(a, b, 0);
      } else {
        LexLessIff(a[1..], b[1..]);
        var k: nat :| SmallerAt(a[1..], b[1..], k);
        assert a[..k + 1] == [a[0]] + a[1..][..k] && b[..k + 1] == [b[0]] + b[1..][..k];
        assert SmallerAt(a, b, k + 1);
      }
    }
  }

  datatype Rank = Rank(priority: int, key: string)

  predicate Before(a: Rank, b: Rank)
  {
    a.priority < b.priority || (a.priority == b.priority && LexLess(a.key, b.key))
  }

  lemma BeforeTotal(a: Rank, b: Rank)
    ensures a == b || Before(a, b) || Before(b, a)
  {
    LexTotal(a.key, b.key);
  }

  lemma BeforeTransitive(a: Rank, b: Rank, c: Rank)
    requires Before(a, b) && Before(b, c)
    ensures Before(a, c)
  {
    if a.priority == b.priority == c.priority { LexTransitive(a.key, b.key, c.key); }
  }

  lemma BeforeIrreflexive(a: Rank)
    ensures !Before(a, a)
  {
    LexIrreflexive(a.key);
  }

  /******* sorted() with a key *******/

  function ByRank<T>(rank: T -> Rank): (T, T) -> bool { (a, b) => Before(rank(a), rank(b)) }

  function Sorted<T>(s: seq<T>, rank: T -> Rank): seq<T> { InsertionSort(s, ByRank(rank)) }

  lemma ByRankIsStrictWeak<T(!new)>(rank: T -> Rank)
    ensures StrictWeak(ByRank(rank))
  {
    hide Before;
    forall a, b | ByRank(rank)(a, b) ensures !ByRank(rank)(b, a) {
      if Before(rank(b), rank(a)) {
        BeforeTransitive(rank(a), rank(b), rank(a));
        BeforeIrreflexive(rank(a));
      }
    }
    forall a, b, c | !ByRank(rank)(b, a) && !ByRank(rank)(c, b) ensures !ByRank(rank)(c, a) {
      BeforeTotal(rank(a), rank(b));
      BeforeTotal(rank(b), rank(c));
      if Before(rank(c), rank(a)) && Before(rank(a), rank(b)) { BeforeTransitive(rank(c), rank(a), rank(b)); }
    }
  }

  ghost predicate StrictlyOrdered<T>(s: seq<T>, rank: T -> Rank)
  {
    forall i, j | 0 <= i < j < |s| :: Before(rank(s[i]), rank(s[j]))
  }

  ghost predicate DistinctRanks<T>(s: seq<T>, rank: T -> Rank)
  {
    forall i, j | 0 <= i < j < |s| :: rank(s[i]) != rank(s[j])
  }

  ghost predicate DistinctInBag<T(!new)>(m: multiset<T>, rank: T -> Rank)
  {
    forall x, y | x in m && y in m && rank(x) == rank(y) :: x == y && m[x] == 1
  }

  lemma {:induction false} DistinctByBag<T(!new)>(s: seq<T>, rank: T -> Rank)
    ensures DistinctRanks(s, rank) <==> DistinctInBag(multiset(s), rank)
  {
    if s != [] {
      var t := s[1..];
      assert s == [s[0]] + t;
      DistinctByBag(t, rank);
      if DistinctRanks(s, rank) {
        forall x | x in multiset(t) ensures rank(x) != rank(s[0]) {
          var i :| 0 <= i < |t| && t[i] == x;
          assert s[i + 1] == x;
        }
      }
      if DistinctInBag(multiset(s), rank) {
        forall x | x in t ensures multiset(t)[x] == 1 && rank(x) != rank(s[0]) {
          assert x in multiset(t) && multiset(s)[x] >= multiset(t)[x] >= 1;
        }
      }
    }
  }

  lemma SortedSorts<T(!new)>(s: seq<T>, rank: T -> Rank)
    ensures multiset(Sorted(s, rank)) == multiset(s)
    ensures DistinctRanks(s, rank) ==> StrictlyOrdered(Sorted(s, rank), rank)
  {
    hide Before, InsertionSort, DistinctInBag;
    var t := Sorted(s, rank);
    InsertionSorts(s, ByRank(rank));
    ByRankIsStrictWeak(rank);
    DistinctByBag(s, rank);
    DistinctByBag(t, rank);
    if DistinctRanks(s, rank) {
      forall i, j | 0 <= i < j < |t| ensures Before(rank(t[i]), rank(t[j])) {
        BeforeTotal(rank(t[i]), rank(t[j]));
        assert !ByRank(rank)(t[j], t[i]);
      }
    }
  }

  lemma FirstIsLeast<T>(s: seq<T>, rank: T -> Rank, x: T)
    requires StrictlyOrdered(s, rank) && x in s
    ensures x == s[0] || Before(rank(s[0]), rank(x))
  {
    var i :| 0 <= i < |s| && s[i] == x;
  }

  lemma FirstsAgree<T>(s: seq<T>, t: seq<T>, rank: T -> Rank)
    requires StrictlyOrdered(s, rank) && StrictlyOrdered(t, rank) && s != [] && t != [] && s[0] in t && t[0] in s
    ensures s[0] == t[0]
  {
    hide Before;
    FirstIsLeast(t, rank, s[0]);
    FirstIsLeast(s, rank, t[0]);
    if s[0] != t[0] {
      BeforeTransitive(rank(s[0]), rank(t[0]), rank(s[0]));
      BeforeIrreflexive(rank(s[0]));
    }
  }

  lemma TailOf<T>(s: seq<T>, rank: T -> Rank)
    requires s != []
    ensures multiset(s) == multiset(s[1..]) + multiset{s[0]} && s == [s[0]] + s[1..] && s[0] in multiset(s)
    ensures StrictlyOrdered(s, rank) ==> StrictlyOrdered(s[1..], rank)
  {
    assert s == [s[0]] + s[1..];
  }

  /** A strict order leaves no choice: one list per collection. */
  lemma {:induction false} StrictOrderIsUnique<T>(s: seq<T>, t: seq<T>, rank: T -> Rank)
    requires StrictlyOrdered(s, rank) && StrictlyOrdered(t, rank) && multiset(s) == multiset(t)
    ensures s == t
  {
    hide Before, StrictlyOrdered;
    if s == [] || t == [] {
      assert |multiset(s)| == |s| && |multiset(t)| == |t|;
    } else {
      TailOf(s, rank);
      TailOf(t, rank);
      assert s[0] in multiset(t) && t[0] in multiset(s);
      FirstsAgree(s, t, rank);
      assert multiset(s[1..]) == multiset(s) - multiset{s[0]} == multiset(t[1..]);
      StrictOrderIsUnique(s[1..], t[1..], rank);
    }
  }
}
