/** The re-sort the task and budget hooks run after an insert,
    `[...prev, row].sort(byKey)`, modelled as a stable insertion sort on an
    abstract integer sort key. The array sort of the platform is stable, so
    rows with equal keys keep their relative order. */
module Sorting {

  /** Ascending by key: every earlier row has a key no larger than every later one. */
  ghost predicate Sorted<T>(key: T -> int, s: seq<T>)
  {
    forall i, j :: 0 <= i < j < |s| ==> key(s[i]) <= key(s[j])
  }

  /** Index of the first row whose key is strictly above `x`'s, or `|s|`. */
  function FirstAbove<T>(key: T -> int, s: seq<T>, x: T): (k: nat)
    ensures k <= |s|
    ensures forall i :: 0 <= i < k ==> key(s[i]) <= key(x)
    ensures k < |s| ==> key(x) < key(s[k])
  {
    if |s| == 0 || key(x) < key(s[0]) then 0 else 1 + FirstAbove(key, s[1..], x)
  }

  /** Places `x` just before the first row with a larger key, that is after
      every row with an equal key (stability). */
  function Insert<T>(key: T -> int, s: seq<T>, x: T): (r: seq<T>)
    ensures |r| == |s| + 1
    ensures multiset(r) == multiset(s) + multiset{x}
  {
    var k := FirstAbove(key, s, x);
    assert s == s[..k] + s[k..];
    s[..k] + [x] + s[k..]
  }

  /** A row placed between two sorted runs that it separates by key gives
      sorted rows. */
  lemma SortedSplice<T>(key: T -> int, a: seq<T>, x: T, b: seq<T>)
    requires Sorted(key, a) && Sorted(key, b)
    requires forall i :: 0 <= i < |a| ==> key(a[i]) <= key(x)
    requires forall j :: 0 <= j < |b| ==> key(x) <= key(b[j])
    ensures Sorted(key, a + [x] + b)
  {
    var r := a + [x] + b;
    forall i, j | 0 <= i < j < |r| ensures key(r[i]) <= key(r[j]) {
      if j < |a| {
        assert r[i] == a[i] && r[j] == a[j];
      } else if i > |a| {
        assert r[i] == b[i - |a| - 1] && r[j] == b[j - |a| - 1];
      } else if i == |a| {
        assert r[i] == x && r[j] == b[j - |a| - 1];
      } else {
        assert r[i] == a[i];
        assert key(x) <= key(r[j]) by {
          if j > |a| { assert r[j] == b[j - |a| - 1]; }
        }
      }
    }
  }

  /** A row no larger than any of some sorted rows can go in front of them. */
  lemma SortedCons<T>(key: T -> int, x: T, s: seq<T>)
    requires Sorted(key, s)
    requires forall i :: 0 <= i < |s| ==> key(x) <= key(s[i])
    ensures Sorted(key, [x] + s)
  {
    var r := [x] + s;
    forall i, j | 0 <= i < j < |r| ensures key(r[i]) <= key(r[j]) {
      assert r[j] == s[j - 1];
      if i > 0 { assert r[i] == s[i - 1]; }
    }
  }

  /** Inserting into sorted rows keeps them sorted. */
  lemma InsertKeepsSorted<T>(key: T -> int, s: seq<T>, x: T)
    requires Sorted(key, s)
    ensures Sorted(key, Insert(key, s, x))
  {
    var k := FirstAbove(key, s, x);
    var a, b := s[..k], s[k..];
    assert Sorted(key, a);
    assert Sorted(key, b);
    assert forall j :: 0 <= j < |b| ==> key(x) <= key(b[j]) by {
      forall j | 0 <= j < |b| ensures key(x) <= key(b[j]) {
        assert b[0] == s[k] && b[j] == s[k + j];
      }
    }
    SortedSplice(key, a, x, b);
  }

  /** The rows whose key is `v`, in their order (`s.filter(x => key(x) == v)`).
      A sort is stable when it keeps every such subsequence as it was. */
  function WithKey<T>(key: T -> int, v: int, s: seq<T>): seq<T>
  {
    if |s| == 0 then [] else (if key(s[0]) == v then [s[0]] else []) + WithKey(key, v, s[1..])
  }

  lemma {:induction false} WithKeyAppend<T>(key: T -> int, v: int, a: seq<T>, b: seq<T>)
    ensures WithKey(key, v, a + b) == WithKey(key, v, a) + WithKey(key, v, b)
  {
    if |a| > 0 {
      assert (a + b)[0] == a[0];
      assert (a + b)[1..] == a[1..] + b;
      WithKeyAppend(key, v, a[1..], b);
    } else {
      assert a + b == b;
    }
  }

  lemma WithKeySingle<T>(key: T -> int, v: int, x: T)
    ensures WithKey(key, v, [x]) == if key(x) == v then [x] else []
  {
    assert [x][1..] == [];
  }

  /** Rows all keyed above `v` contribute nothing to `v`'s run. */
  lemma {:induction false} WithKeyAbove<T>(key: T -> int, v: int, s: seq<T>)
    requires forall i :: 0 <= i < |s| ==> v < key(s[i])
    ensures WithKey(key, v, s) == []
  {
    if |s| > 0 {
      assert forall i :: 0 <= i < |s| - 1 ==> s[1..][i] == s[i + 1];
      WithKeyAbove(key, v, s[1..]);
    }
  }

  /** Inserting into sorted rows puts the new row after every row with the
      same key: each run of equal keys is the old run followed by the row. */
  lemma InsertStable<T>(key: T -> int, s: seq<T>, x: T, v: int)
    requires Sorted(key, s)
    ensures WithKey(key, v, Insert(key, s, x)) == WithKey(key, v, s + [x])
  {
    var k := FirstAbove(key, s, x);
    var wa, wx, wb := WithKey(key, v, s[..k]), WithKey(key, v, [x]), WithKey(key, v, s[k..]);
    InsertRuns(key, s, x, v);
    AppendRuns(key, s, x, v);
    if key(x) == v {
      RunAfterInsertPoint(key, s, x);
      assert wb == [];
      assert wa + wx + wb == wa + wx;
      assert wa + wb + wx == wa + wx;
    } else {
      WithKeySingle(key, v, x);
      assert wx == [];
      assert wa + wx + wb == wa + wb;
      assert wa + wb + wx == wa + wb;
    }
  }

  /** The runs of the inserted rows, split at the insertion index. */
  lemma InsertRuns<T>(key: T -> int, s: seq<T>, x: T, v: int)
    ensures var k := FirstAbove(key, s, x);
      WithKey(key, v, Insert(key, s, x))
        == WithKey(key, v, s[..k]) + WithKey(key, v, [x]) + WithKey(key, v, s[k..])
  {
    var k := FirstAbove(key, s, x);
    var a, b := s[..k], s[k..];
    assert Insert(key, s, x) == (a + [x]) + b;
    WithKeyAppend(key, v, a + [x], b);
    WithKeyAppend(key, v, a, [x]);
  }

  /** The runs of the appended rows, split at the insertion index. */
  lemma AppendRuns<T>(key: T -> int, s: seq<T>, x: T, v: int)
    ensures var k := FirstAbove(key, s, x);
      WithKey(key, v, s + [x])
        == WithKey(key, v, s[..k]) + WithKey(key, v, s[k..]) + WithKey(key, v, [x])
  {
    var k := FirstAbove(key, s, x);
    var a, b := s[..k], s[k..];
    assert s == a + b;
    WithKeyAppend(key, v, a, b);
    WithKeyAppend(key, v, s, [x]);
  }

  /** In sorted rows, nothing from the insertion index on shares the new
      row's key. */
  lemma RunAfterInsertPoint<T>(key: T -> int, s: seq<T>, x: T)
    requires Sorted(key, s)
    ensures WithKey(key, key(x), s[FirstAbove(key, s, x)..]) == []
  {
    var k := FirstAbove(key, s, x);
    var b := s[k..];
    FirstAboveSplits(key, s, x);
    assert forall i :: 0 <= i < |b| ==> b[i] == s[k + i];
    WithKeyAbove(key, key(x), b);
  }

  /** One step of the sort keeps every run of equal keys in input order. */
  lemma SortStepStable<T>(key: T -> int, sorted: seq<T>, init: seq<T>, x: T)
    requires Sorted(key, sorted)
    requires forall v :: WithKey(key, v, sorted) == WithKey(key, v, init)
    ensures forall v :: WithKey(key, v, Insert(key, sorted, x)) == WithKey(key, v, init + [x])
  {
    forall v ensures WithKey(key, v, Insert(key, sorted, x)) == WithKey(key, v, init + [x]) {
      InsertStable(key, sorted, x, v);
      WithKeyAppend(key, v, sorted, [x]);
      WithKeyAppend(key, v, init, [x]);
    }
  }

  /** The stable sort: each row in turn is inserted after the rows before it. */
  function Sort<T>(key: T -> int, s: seq<T>): (r: seq<T>)
    ensures |r| == |s|
    ensures multiset(r) == multiset(s)
    ensures Sorted(key, r)
    ensures forall v :: WithKey(key, v, r) == WithKey(key, v, s)
    decreases |s|
  {
    if |s| == 0 then []
    else
      assert s == s[..|s| - 1] + [s[|s| - 1]];
      var init := Sort(key, s[..|s| - 1]);
      InsertKeepsSorted(key, init, s[|s| - 1]);
      SortStepStable(key, init, s[..|s| - 1], s[|s| - 1]);
      Insert(key, init, s[|s| - 1])
  }

  /** A row whose key is at least every key already present goes last. */
  lemma InsertAtEnd<T>(key: T -> int, s: seq<T>, x: T)
    requires forall i :: 0 <= i < |s| ==> key(s[i]) <= key(x)
    ensures Insert(key, s, x) == s + [x]
  {
    assert FirstAbove(key, s, x) == |s|;
    assert s[..|s|] == s && s[|s|..] == [];
  }

  /** Sorting rows that are already in order changes nothing. */
  lemma {:induction false} SortOfSorted<T>(key: T -> int, s: seq<T>)
    requires Sorted(key, s)
    ensures Sort(key, s) == s
    decreases |s|
  {
    if |s| > 0 {
      var init := s[..|s| - 1];
      assert Sorted(key, init);
      SortOfSorted(key, init);
      InsertAtEnd(key, init, s[|s| - 1]);
      assert init + [s[|s| - 1]] == s;
    }
  }

  /** In sorted rows, every row from the first larger key on is larger. */
  lemma FirstAboveSplits<T>(key: T -> int, s: seq<T>, x: T)
    requires Sorted(key, s)
    ensures forall i :: FirstAbove(key, s, x) <= i < |s| ==> key(x) < key(s[i])
  {
    var k := FirstAbove(key, s, x);
    forall i | k <= i < |s| ensures key(x) < key(s[i]) {
      assert key(s[k]) <= key(s[i]);
    }
  }

  /** Appending one row to sorted rows and re-sorting is the same as
      inserting that row at its sorted position. */
  lemma AppendThenSortIsInsert<T>(key: T -> int, s: seq<T>, x: T)
    requires Sorted(key, s)
    ensures Sort(key, s + [x]) == Insert(key, s, x)
    ensures Sort(key, s + [x]) == s[..FirstAbove(key, s, x)] + [x] + s[FirstAbove(key, s, x)..]
  {
    assert (s + [x])[..|s + [x]| - 1] == s;
    SortOfSorted(key, s);
  }
}
