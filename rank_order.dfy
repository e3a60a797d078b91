/** Sorting records by a numeric field, largest first: the `{ field: -1 }` sort of a query.
    Records with equal keys come out in the reverse of the order they came in. */
module RankOrder {

  predicate SortedDesc<T>(s: seq<T>, key: T -> int) {
    forall i, j :: 0 <= i < j < |s| ==> key(s[i]) >= key(s[j])
  }

  /** `x` placed in front of the first element whose key is smaller than its own. */
  function InsertDesc<T(==)>(x: T, s: seq<T>, key: T -> int): (r: seq<T>)
    ensures multiset(r) == multiset(s) + multiset{x}
    ensures |r| == |s| + 1
  {
    if |s| == 0 then [x]
    else
      assert s == [s[0]] + s[1..];
      if key(x) <= key(s[0]) then [s[0]] + InsertDesc(x, s[1..], key)
      else [x] + s
  }

  lemma {:induction false} InsertDescSorted<T>(x: T, s: seq<T>, key: T -> int)
    requires SortedDesc(s, key)
    ensures SortedDesc(InsertDesc(x, s, key), key)
  {
    if |s| > 0 && key(x) <= key(s[0]) {
      var tail := s[1..];
      assert SortedDesc(tail, key) by {
        forall i, j | 0 <= i < j < |tail| ensures key(tail[i]) >= key(tail[j]) {
          assert tail[i] == s[i + 1] && tail[j] == s[j + 1];
        }
      }
      InsertDescSorted(x, tail, key);
      var r := InsertDesc(x, s, key);
      forall j | 0 < j < |r| ensures key(r[0]) >= key(r[j]) {
        assert r[j] in multiset(InsertDesc(x, tail, key));
        if r[j] != x {
          assert r[j] in multiset(tail);
          var m :| 0 <= m < |tail| && tail[m] == r[j];
          assert tail[m] == s[m + 1];
        }
      }
    }
  }

  /** The sort, as an insertion sort. */
  function SortDesc<T(==)>(s: seq<T>, key: T -> int): (r: seq<T>)
    ensures multiset(r) == multiset(s)
    ensures |r| == |s|
  {
    if |s| == 0 then []
    else
      assert s == [s[0]] + s[1..];
      InsertDesc(s[0], SortDesc(s[1..], key), key)
  }
  /** The records in reverse order. */
  function Reversed<T>(s: seq<T>): (r: seq<T>)
    ensures |r| == |s|
    ensures forall i :: 0 <= i < |s| ==> r[i] == s[|s| - 1 - i]
  {
    if |s| == 0 then [] else Reversed(s[1..]) + [s[0]]
  }

  /** Inserting among records of the same key puts the new one last. */
  lemma {:induction false} InsertDescTie<T>(x: T, t: seq<T>, key: T -> int)
    requires forall i :: 0 <= i < |t| ==> key(t[i]) == key(x)
    ensures InsertDesc(x, t, key) == t + [x]
  {
    if |t| > 0 {
      InsertDescTie(x, t[1..], key);
      assert t == [t[0]] + t[1..];
    }
  }

  /** Records that all share one key come out in reverse order. */
  lemma {:induction false} SortDescTiesReversed<T>(s: seq<T>, key: T -> int)
    requires forall i, j :: 0 <= i < |s| && 0 <= j < |s| ==> key(s[i]) == key(s[j])
    ensures SortDesc(s, key) == Reversed(s)
  {
    if |s| > 0 {
      var rest := s[1..];
      SortDescTiesReversed(rest, key);
      var t := SortDesc(rest, key);
      forall i | 0 <= i < |t| ensures key(t[i]) == key(s[0]) {
        assert t[i] == rest[|rest| - 1 - i] == s[|rest| - i];
      }
      InsertDescTie(s[0], t, key);
    }
  }


  lemma {:induction false} SortDescSorted<T>(s: seq<T>, key: T -> int)
    ensures SortedDesc(SortDesc(s, key), key)
  {
    if |s| > 0 {
      SortDescSorted(s[1..], key);
      InsertDescSorted(s[0], SortDesc(s[1..], key), key);
    }
  }

  /** The sort keeps exactly the elements it was given. */
  lemma SortDescSameElements<T>(s: seq<T>, key: T -> int, x: T)
    ensures x in SortDesc(s, key) <==> x in s
  {
    assert x in SortDesc(s, key) <==> x in multiset(SortDesc(s, key));
  }

  predicate Distinct<T(==)>(s: seq<T>) {
    forall i, j :: 0 <= i < j < |s| ==> s[i] != s[j]
  }

  lemma {:induction false} DistinctCountsOne<T>(s: seq<T>, x: T)
    requires Distinct(s)
    ensures multiset(s)[x] <= 1
  {
    if |s| > 0 {
      assert s == [s[0]] + s[1..];
      assert Distinct(s[1..]) by {
        forall i, j | 0 <= i < j < |s| - 1 ensures s[1..][i] != s[1..][j] {
          assert s[1..][i] == s[i + 1] && s[1..][j] == s[j + 1];
        }
      }
      DistinctCountsOne(s[1..], x);
      if x == s[0] {
        assert x !in s[1..] by {
          forall j | 0 <= j < |s| - 1 ensures s[1..][j] != x {
            assert s[1..][j] == s[j + 1];
          }
        }
      }
    }
  }

  /** Sorting does not create repetitions. */
  lemma SortDescDistinct<T>(s: seq<T>, key: T -> int)
    requires Distinct(s)
    ensures Distinct(SortDesc(s, key))
  {
    var r := SortDesc(s, key);
    forall i, j | 0 <= i < j < |r| ensures r[i] != r[j] {
      if r[i] == r[j] {
        RepeatCountsTwo(r, i, j);
        DistinctCountsOne(s, r[i]);
      }
    }
  }

  /** An element at two positions occurs at least twice. */
  lemma RepeatCountsTwo<T>(r: seq<T>, i: nat, j: nat)
    requires i < j < |r| && r[i] == r[j]
    ensures multiset(r)[r[i]] >= 2
  {
    var front, back := r[..j], r[j..];
    assert r == front + back;
    assert front[i] == r[i];
    assert back[0] == r[j];
    assert multiset(r) == multiset(front) + multiset(back);
  }
}
