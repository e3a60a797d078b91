/** The order `Array.prototype.sort()` puts strings in when given no comparator:
    lexicographic by character, a proper prefix first. */
module KeyOrder {

  predicate Less(a: string, b: string)
    decreases |a|
  {
    if |a| == 0 then |b| > 0
    else if |b| == 0 then false
    else if a[0] != b[0] then a[0] < b[0]
    else Less(a[1..], b[1..])
  }

  lemma {:induction false} LessIrreflexive(a: string)
    ensures !Less(a, a)
    decreases |a|
  {
    if |a| > 0 {
      LessIrreflexive(a[1..]);
    }
  }

  lemma {:induction false} LessAsymmetric(a: string, b: string)
    requires Less(a, b)
    ensures !Less(b, a)
    decreases |a|
  {
    if |a| > 0 && |b| > 0 && a[0] == b[0] {
      LessAsymmetric(a[1..], b[1..]);
    }
  }

  lemma {:induction false} LessTransitive(a: string, b: string, c: string)
    requires Less(a, b) && Less(b, c)
    ensures Less(a, c)
    decreases |a|
  {
    if |a| > 0 && a[0] == b[0] && b[0] == c[0] {
      LessTransitive(a[1..], b[1..], c[1..]);
    }
  }

  /** Any two different strings are ordered one way or the other. */
  lemma {:induction false} LessConnected(a: string, b: string)
    requires a != b
    ensures Less(a, b) || Less(b, a)
    decreases |a|
  {
    if |a| > 0 && |b| > 0 && a[0] == b[0] {
      assert a == [a[0]] + a[1..] && b == [b[0]] + b[1..];
      LessConnected(a[1..], b[1..]);
    }
  }

  /** Strictly ascending: sorted and free of repetitions. */
  predicate Ascending(s: seq<string>) {
    forall i, j :: 0 <= i < j < |s| ==> Less(s[i], s[j])
  }

  predicate Distinct(s: seq<string>) {
    forall i, j :: 0 <= i < j < |s| ==> s[i] != s[j]
  }

  lemma AscendingDistinct(s: seq<string>)
    requires Ascending(s)
    ensures Distinct(s)
  {
    forall i, j | 0 <= i < j < |s| ensures s[i] != s[j] {
      LessIrreflexive(s[i]);
    }
  }

  /** In a repetition-free sequence every element occurs once. */
  lemma {:induction false} DistinctMultiplicity(s: seq<string>, x: string)
    requires Distinct(s)
    ensures multiset(s)[x] == if x in s then 1 else 0
  {
    if |s| > 0 {
      assert s == [s[0]] + s[1..];
      assert Distinct(s[1..]) by {
        forall i, j | 0 <= i < j < |s| - 1 ensures s[1..][i] != s[1..][j] {
          assert s[1..][i] == s[i + 1] && s[1..][j] == s[j + 1];
        }
      }
      assert s[0] !in s[1..] by {
        forall j | 0 <= j < |s| - 1 ensures s[1..][j] != s[0] {
          assert s[1..][j] == s[j + 1];
        }
      }
      DistinctMultiplicity(s[1..], x);
    }
  }

  /** One step of the insertion sort that stands for the engine's sort. */
  function Insert(k: string, s: seq<string>): (r: seq<string>)
    ensures multiset(r) == multiset(s) + multiset{k}
    ensures |r| == |s| + 1
  {
    if |s| == 0 then [k]
    else
      assert s == [s[0]] + s[1..];
      if Less(s[0], k) then [s[0]] + Insert(k, s[1..])
      else [k] + s
  }

  lemma {:induction false} InsertAscending(k: string, s: seq<string>)
    requires Ascending(s) && k !in s
    ensures Ascending(Insert(k, s))
  {
    if |s| > 0 {
      if Less(s[0], k) {
        AscendingTail(s);
        assert s == [s[0]] + s[1..];
        InsertAscending(k, s[1..]);
        var r := Insert(k, s);
        assert r == [s[0]] + Insert(k, s[1..]);
        forall j | 0 < j < |r| ensures Less(r[0], r[j]) {
          var t := r[j];
          assert t in multiset(Insert(k, s[1..]));
          assert t in multiset(s[1..]) || t == k;
          if t != k {
            var m :| 1 <= m < |s| && s[m] == t;
          }
        }
      } else {
        assert k != s[0];
        LessConnected(k, s[0]);
        forall j | 0 < j < |s| ensures Less(k, s[j]) {
          LessTransitive(k, s[0], s[j]);
        }
      }
    }
  }

  /** `keys.sort()`: a rearrangement of the same keys. */
  function SortKeys(ks: seq<string>): (r: seq<string>)
    ensures multiset(r) == multiset(ks)
    ensures |r| == |ks|
  {
    if |ks| == 0 then []
    else
      assert ks == [ks[0]] + ks[1..];
      Insert(ks[0], SortKeys(ks[1..]))
  }

  /** Distinct keys come out of the sort strictly ascending. */
  lemma {:induction false} SortKeysAscending(ks: seq<string>)
    requires Distinct(ks)
    ensures Ascending(SortKeys(ks))
  {
    if |ks| > 0 {
      SortKeysAscending(ks[1..]);
      assert ks == [ks[0]] + ks[1..];
      assert ks[0] !in multiset(ks[1..]) by {
        forall j | 0 <= j < |ks| - 1 ensures ks[1..][j] != ks[0] {
          assert ks[1..][j] == ks[j + 1];
        }
      }
      InsertAscending(ks[0], SortKeys(ks[1..]));
    }
  }

  /** Sorting keys that are already ascending leaves them as they are. */
  lemma {:induction false} SortAscendingIsIdentity(ks: seq<string>)
    requires Ascending(ks)
    ensures SortKeys(ks) == ks
  {
    if |ks| > 0 {
      SortAscendingIsIdentity(ks[1..]);
      if |ks| > 1 {
        LessAsymmetric(ks[0], ks[1]);
      }
      assert ks == [ks[0]] + ks[1..];
    }
  }

  lemma AscendingHeadIsLeast(a: seq<string>, x: string)
    requires Ascending(a) && x in multiset(a) && x != a[0]
    ensures Less(a[0], x)
  {
    var i :| 0 <= i < |a| && a[i] == x;
  }

  lemma AscendingTail(a: seq<string>)
    requires Ascending(a) && |a| > 0
    ensures Ascending(a[1..])
  {
    forall i, j | 0 <= i < j < |a| - 1 ensures Less(a[1..][i], a[1..][j]) {
      assert a[1..][i] == a[i + 1] && a[1..][j] == a[j + 1];
    }
  }

  lemma MultisetTail(a: seq<string>)
    requires |a| > 0
    ensures multiset(a[1..]) == multiset(a) - multiset{a[0]}
  {
    assert a == [a[0]] + a[1..];
  }

  /** Two ascending sequences holding the same keys are the same sequence. */
  lemma {:induction false} AscendingUnique(a: seq<string>, b: seq<string>)
    requires Ascending(a) && Ascending(b)
    requires multiset(a) == multiset(b)
    ensures a == b
  {
    if |a| == 0 {
      assert |multiset(b)| == 0;
    } else {
      assert |b| == |multiset(b)| == |multiset(a)| == |a|;
      assert a[0] in multiset(b);
      assert b[0] in multiset(a);
      if a[0] != b[0] {
        AscendingHeadIsLeast(a, b[0]);
        AscendingHeadIsLeast(b, a[0]);
        LessAsymmetric(a[0], b[0]);
        assert false;
      }
      MultisetTail(a);
      MultisetTail(b);
      AscendingTail(a);
      AscendingTail(b);
      AscendingUnique(a[1..], b[1..]);
      assert a == [a[0]] + a[1..] && b == [b[0]] + b[1..];
    }
  }
}
