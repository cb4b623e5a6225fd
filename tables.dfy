/**
 * The relational statements the storage gateway issues, over a table held as a
 * sequence of rows in insertion order: `SELECT ... WHERE`, `LIMIT 1`,
 * `ORDER BY ... DESC`, `UPDATE ... SET ... WHERE` and `DELETE ... WHERE`.
 * Columns are passed as key functions `T -> K`.
 */
module Tables {
  import opened Base

  /** `a` occurs in `b` in the same order, possibly with rows of `b` left out. */
  predicate IsSubsequence<T(==)>(a: seq<T>, b: seq<T>)
    decreases |b|
  {
    a == [] || (b != [] && ((a[0] == b[0] && IsSubsequence(a[1..], b[1..])) || IsSubsequence(a, b[1..])))
  }

  /** No two rows of `s` agree on column `key` (a primary key or a UNIQUE constraint). */
  ghost predicate Unique<T, K>(s: seq<T>, key: T -> K) {
    forall i, j :: 0 <= i < |s| && 0 <= j < |s| && key(s[i]) == key(s[j]) ==> i == j
  }

  /** Rows ordered by `time`, most recent first. */
  ghost predicate SortedDesc<T>(s: seq<T>, time: T -> int) {
    forall i, j :: 0 <= i < j < |s| ==> time(s[i]) >= time(s[j])
  }

  // ---------------------------------------------------------------- SELECT

  /** `WHERE key = k`: the matching rows, in table order. */
  function Select<T(==,!new), K(==)>(s: seq<T>, key: T -> K, k: K): (r: seq<T>)
    ensures forall x :: x in r <==> x in s && key(x) == k
    ensures IsSubsequence(r, s)
  {
    if s == [] then []
    else
      var rest := Select(s[1..], key, k);
      if key(s[0]) == k then [s[0]] + rest else rest
  }

  /** A select keeps every copy of a matching row and no copy of any other row. */
  lemma {:induction false} SelectMultiset<T(!new), K>(s: seq<T>, key: T -> K, k: K)
    ensures forall x :: multiset(Select(s, key, k))[x] == if key(x) == k then multiset(s)[x] else 0
  {
    if s != [] {
      SelectMultiset(s[1..], key, k);
      assert s == [s[0]] + s[1..];
    }
  }

  /** `WHERE key = k LIMIT 1`: the first matching row, if any. */
  function First<T, K(==)>(s: seq<T>, key: T -> K, k: K): (r: Option<T>)
    ensures r.Some? ==> r.value in s && key(r.value) == k
    ensures r.None? ==> forall x :: x in s ==> key(x) != k
  {
    if s == [] then None
    else if key(s[0]) == k then Some(s[0])
    else First(s[1..], key, k)
  }

  // --------------------------------------------------------------- ORDER BY

  /** Inserts `x` into a table already sorted most recent first. */
  function InsertDesc<T>(x: T, s: seq<T>, time: T -> int): (r: seq<T>)
    requires SortedDesc(s, time)
    ensures SortedDesc(r, time)
    ensures multiset(r) == multiset(s) + multiset{x}
    ensures |r| == |s| + 1 && (r[0] == x || (s != [] && r[0] == s[0]))
  {
    if s == [] then [x]
    else if time(x) >= time(s[0]) then [x] + s
    else
      var rest := InsertDesc(x, s[1..], time);
      assert s == [s[0]] + s[1..];
      [s[0]] + rest
  }

  /** `ORDER BY time DESC`; rows with equal time keep their table order. */
  function SortByDesc<T>(s: seq<T>, time: T -> int): (r: seq<T>)
    ensures SortedDesc(r, time)
    ensures multiset(r) == multiset(s)
  {
    if s == [] then []
    else
      assert s == [s[0]] + s[1..];
      InsertDesc(s[0], SortByDesc(s[1..], time), time)
  }

  /** Sorting neither adds nor drops rows. */
  lemma SortByDescMembers<T>(s: seq<T>, time: T -> int)
    ensures forall x :: x in SortByDesc(s, time) <==> x in s
  {
    var r := SortByDesc(s, time);
    forall x
      ensures x in r <==> x in s
    {
      assert x in r <==> x in multiset(r);
      assert x in s <==> x in multiset(s);
    }
  }

  // ----------------------------------------------------------------- UPDATE

  /** `UPDATE ... SET f WHERE key = k`: matching rows become `f(row)`, the others stay. */
  function Update<T, K(==)>(s: seq<T>, key: T -> K, k: K, f: T -> T): (r: seq<T>)
    ensures |r| == |s|
    ensures forall i :: 0 <= i < |s| ==> r[i] == if key(s[i]) == k then f(s[i]) else s[i]
  {
    if s == [] then []
    else [if key(s[0]) == k then f(s[0]) else s[0]] + Update(s[1..], key, k, f)
  }

  // ----------------------------------------------------------------- DELETE

  /** `DELETE ... WHERE key = k`: the table without the matching rows, in table order. */
  function Remove<T(==,!new), K(==)>(s: seq<T>, key: T -> K, k: K): (r: seq<T>)
    ensures forall x :: x in r <==> x in s && key(x) != k
    ensures IsSubsequence(r, s)
  {
    if s == [] then []
    else
      var rest := Remove(s[1..], key, k);
      if key(s[0]) == k then rest else [s[0]] + rest
  }

  /** A delete keeps every copy of a row whose key differs and no copy of any other row. */
  lemma {:induction false} RemoveMultiset<T(!new), K>(s: seq<T>, key: T -> K, k: K)
    ensures forall x :: multiset(Remove(s, key, k))[x] == if key(x) != k then multiset(s)[x] else 0
  {
    if s != [] {
      RemoveMultiset(s[1..], key, k);
      assert s == [s[0]] + s[1..];
    }
  }

  // ----------------------------------------------------------------- lemmas

  /** Under a uniqueness constraint, `LIMIT 1` returns THE row with that key. */
  lemma FirstOfUnique<T, K>(s: seq<T>, key: T -> K, k: K)
    ensures Unique(s, key) ==> forall x :: x in s && key(x) == k ==> First(s, key, k) == Some(x)
  {
    if Unique(s, key) {
      forall x | x in s && key(x) == k
        ensures First(s, key, k) == Some(x)
      {
        var y := First(s, key, k).value;
        var i :| 0 <= i < |s| && s[i] == x;
        var j :| 0 <= j < |s| && s[j] == y;
        assert i == j;
      }
    }
  }

  /** Dropping the first row keeps a uniqueness constraint, and no later row shares its key. */
  lemma UniqueTail<T, K>(s: seq<T>, key: T -> K)
    requires s != [] && Unique(s, key)
    ensures Unique(s[1..], key)
    ensures forall x :: x in s[1..] ==> key(x) != key(s[0])
  {
    forall i, j | 0 <= i < |s| - 1 && 0 <= j < |s| - 1 && key(s[1..][i]) == key(s[1..][j])
      ensures i == j
    {
      assert s[1..][i] == s[i + 1] && s[1..][j] == s[j + 1];
    }
    forall x | x in s[1..]
      ensures key(x) != key(s[0])
    {
      var i :| 0 <= i < |s| - 1 && s[1..][i] == x;
      assert s[i + 1] == x;
    }
  }

  /** Appending a row whose key is new keeps a uniqueness constraint. */
  lemma UniqueAppend<T, K>(s: seq<T>, x: T, key: T -> K)
    requires Unique(s, key)
    requires forall y :: y in s ==> key(y) != key(x)
    ensures Unique(s + [x], key)
  {
    var t := s + [x];
    forall i, j | 0 <= i < |t| && 0 <= j < |t| && key(t[i]) == key(t[j])
      ensures i == j
    {
    }
  }

  /** An update that leaves column `key2` alone keeps a uniqueness constraint on `key2`. */
  lemma UpdateKeepsUnique<T, K, L>(s: seq<T>, key: T -> K, k: K, f: T -> T, key2: T -> L)
    requires Unique(s, key2)
    requires forall x :: key2(f(x)) == key2(x)
    ensures Unique(Update(s, key, k, f), key2)
  {
    var r := Update(s, key, k, f);
    forall i, j | 0 <= i < |r| && 0 <= j < |r| && key2(r[i]) == key2(r[j])
      ensures i == j
    {
      assert key2(r[i]) == key2(s[i]) && key2(r[j]) == key2(s[j]);
    }
  }

  /** A subsequence of a table with a uniqueness constraint satisfies it too. */
  lemma {:induction false} SubsequenceKeepsUnique<T, K>(a: seq<T>, b: seq<T>, key: T -> K)
    requires IsSubsequence(a, b) && Unique(b, key)
    ensures Unique(a, key)
    decreases |b|
  {
    if a == [] {
    } else if a[0] == b[0] && IsSubsequence(a[1..], b[1..]) {
      UniqueTail(b, key);
      SubsequenceKeepsUnique(a[1..], b[1..], key);
      SubsequenceMembers(a[1..], b[1..]);
      forall i, j | 0 <= i < |a| && 0 <= j < |a| && key(a[i]) == key(a[j])
        ensures i == j
      {
        if i > 0 && j > 0 {
          assert a[i] == a[1..][i - 1] && a[j] == a[1..][j - 1];
        }
      }
    } else {
      UniqueTail(b, key);
      SubsequenceKeepsUnique(a, b[1..], key);
    }
  }

  /** Every row of a subsequence is a row of the table. */
  lemma {:induction false} SubsequenceMembers<T>(a: seq<T>, b: seq<T>)
    requires IsSubsequence(a, b)
    ensures forall x :: x in a ==> x in b
    decreases |b|
  {
    if a == [] {
    } else if a[0] == b[0] && IsSubsequence(a[1..], b[1..]) {
      SubsequenceMembers(a[1..], b[1..]);
      assert a == [a[0]] + a[1..] && b == [b[0]] + b[1..];
    } else {
      SubsequenceMembers(a, b[1..]);
      assert b == [b[0]] + b[1..];
    }
  }

  /** Selecting distributes over concatenation of tables. */
  lemma {:induction false} SelectAppend<T(!new), K>(a: seq<T>, b: seq<T>, key: T -> K, k: K)
    ensures Select(a + b, key, k) == Select(a, key, k) + Select(b, key, k)
  {
    if a == [] {
      assert a + b == b;
    } else {
      assert (a + b)[1..] == a[1..] + b;
      SelectAppend(a[1..], b, key, k);
    }
  }

  /** The number of rows a select returns (`result.length`) is the number of matching row positions. */
  lemma {:induction false} SelectCount<T(!new), K>(s: seq<T>, key: T -> K, k: K)
    ensures |Select(s, key, k)| == |MatchingPositions(s, key, k)|
  {
    if s == [] {
      assert MatchingPositions(s, key, k) == {};
    } else {
      var init := s[..|s| - 1];
      assert s == init + [s[|s| - 1]];
      SelectAppend(init, [s[|s| - 1]], key, k);
      SelectCount(init, key, k);
      MatchingPositionsSnoc(s, key, k);
    }
  }

  /** The positions `i` of `s` whose row has key `k`. */
  ghost function MatchingPositions<T, K>(s: seq<T>, key: T -> K, k: K): set<int> {
    set i | 0 <= i < |s| && key(s[i]) == k
  }

  lemma MatchingPositionsSnoc<T, K>(s: seq<T>, key: T -> K, k: K)
    requires s != []
    ensures |MatchingPositions(s, key, k)| == |MatchingPositions(s[..|s| - 1], key, k)| + if key(s[|s| - 1]) == k then 1 else 0
  {
    var init := s[..|s| - 1];
    var before := MatchingPositions(init, key, k);
    var after := MatchingPositions(s, key, k);
    var last: set<int> := if key(s[|s| - 1]) == k then {|init|} else {};
    forall i ensures i in after <==> i in before + last {
      if 0 <= i < |init| {
        assert s[i] == init[i];
      }
    }
    assert after == before + last;
    assert before !! last;
  }

  /** An update of a key no row has leaves the table as it was. */
  lemma UpdateMissing<T, K>(s: seq<T>, key: T -> K, k: K, f: T -> T)
    requires forall x :: x in s ==> key(x) != k
    ensures Update(s, key, k, f) == s
  {
  }

  /** Applying an idempotent, key-preserving update twice is the same as applying it once. */
  lemma UpdateIdempotent<T, K>(s: seq<T>, key: T -> K, k: K, f: T -> T)
    requires forall x :: key(f(x)) == key(x) && f(f(x)) == f(x)
    ensures Update(Update(s, key, k, f), key, k, f) == Update(s, key, k, f)
  {
  }

  /** `LIMIT 1` after a key-preserving update returns the updated version of the row found before. */
  lemma {:induction false} FirstAfterUpdate<T, K>(s: seq<T>, key: T -> K, k: K, f: T -> T)
    requires forall x :: key(f(x)) == key(x)
    ensures First(Update(s, key, k, f), key, k) == if First(s, key, k).Some? then Some(f(First(s, key, k).value)) else None
  {
    if s != [] {
      var r := Update(s, key, k, f);
      assert r[1..] == Update(s[1..], key, k, f);
      FirstAfterUpdate(s[1..], key, k, f);
    }
  }

  /**
   * After an update that keeps column `key` and moves every row it touches out of
   * `key2 = k2`, the rows with `key2 = k2` are the earlier ones minus those with `key = k`.
   */
  lemma SelectAfterUpdate<T(!new), K, L>(s: seq<T>, key: T -> K, k: K, f: T -> T, key2: T -> L, k2: L)
    requires forall x :: key(f(x)) == key(x) && key2(f(x)) != k2
    ensures forall x :: x in Select(Update(s, key, k, f), key2, k2) <==> x in Select(s, key2, k2) && key(x) != k
  {
    var r := Update(s, key, k, f);
    forall x
      ensures x in r && key2(x) == k2 <==> x in s && key2(x) == k2 && key(x) != k
    {
      if x in r && key2(x) == k2 {
        var i :| 0 <= i < |r| && r[i] == x;
        assert key(s[i]) != k;
      }
      if x in s && key2(x) == k2 && key(x) != k {
        var i :| 0 <= i < |s| && s[i] == x;
        assert r[i] == x;
      }
    }
  }

  /** Under a uniqueness constraint, deleting an existing key removes exactly one row. */
  lemma {:induction false} RemoveExactlyOne<T(!new), K>(s: seq<T>, key: T -> K, k: K)
    requires Unique(s, key)
    ensures |Remove(s, key, k)| == if exists x :: x in s && key(x) == k then |s| - 1 else |s|
  {
    if s != [] {
      UniqueTail(s, key);
      RemoveExactlyOne(s[1..], key, k);
      assert s == [s[0]] + s[1..];
      if key(s[0]) == k {
        assert !exists x :: x in s[1..] && key(x) == k;
      }
    }
  }
}
