/**
 * SQLite tables as Dafny values.
 *
 * A table keyed by a PRIMARY KEY or UNIQUE column is a sequence of
 * (key, row) pairs in rowid order with pairwise distinct keys.  SQLite's
 * REPLACE deletes the conflicting row and inserts a new one, so the new row
 * moves to the end; INSERT OR IGNORE leaves an existing row alone; UPDATE
 * changes a row where it stands.  LIMIT n with a negative n means no limit.
 */
module Tables {
  import opened Common

  predicate UniqueKeys<K(==), V(==)>(rows: seq<(K, V)>) {
    forall i, j :: 0 <= i < j < |rows| ==> rows[i].0 != rows[j].0
  }

  predicate HasKey<K(==), V(==)>(rows: seq<(K, V)>, k: K) {
    exists i :: 0 <= i < |rows| && rows[i].0 == k
  }

  /** SELECT ... WHERE key = k: the row stored under k, if any. */
  function Lookup<K(==), V(==)>(rows: seq<(K, V)>, k: K): (r: Option<V>)
    ensures r.Some? <==> HasKey(rows, k)
    ensures r.Some? ==> (k, r.value) in rows
    ensures UniqueKeys(rows) ==> forall i :: 0 <= i < |rows| && rows[i].0 == k ==> r == Some(rows[i].1)
  {
    if rows == [] then None
    else if rows[0].0 == k then Some(rows[0].1)
    else
      var r := Lookup(rows[1..], k);
      assert HasKey(rows, k) ==> HasKey(rows[1..], k) by {
        if HasKey(rows, k) {
          var i :| 0 <= i < |rows| && rows[i].0 == k;
          assert rows[1..][i - 1].0 == k;
        }
      }
      r
  }

  /** DELETE ... WHERE key = k. */
  function RemoveKey<K(==), V(==)>(rows: seq<(K, V)>, k: K): (r: seq<(K, V)>)
    ensures forall i :: 0 <= i < |r| ==> r[i] in rows && r[i].0 != k
    ensures forall i :: 0 <= i < |rows| && rows[i].0 != k ==> rows[i] in r
    ensures UniqueKeys(rows) ==> UniqueKeys(r)
    ensures |r| <= |rows|
    ensures !HasKey(rows, k) ==> r == rows
  {
    if rows == [] then []
    else
      var rest := RemoveKey(rows[1..], k);
      if rows[0].0 == k then rest
      else
        assert UniqueKeys(rows) ==> UniqueKeys([rows[0]] + rest) by {
          if UniqueKeys(rows) { ConsKeepsUnique(rows, rest); }
        }
        assert !HasKey(rows, k) ==> !HasKey(rows[1..], k) by {
          if HasKey(rows[1..], k) { TailKey(rows, k); }
        }
        [rows[0]] + rest
  }

  lemma ConsKeepsUnique<K, V>(rows: seq<(K, V)>, rest: seq<(K, V)>)
    requires rows != [] && UniqueKeys(rows) && UniqueKeys(rest)
    requires forall i :: 0 <= i < |rest| ==> rest[i] in rows[1..]
    ensures UniqueKeys([rows[0]] + rest)
  {
    forall i | 0 <= i < |rest| ensures rest[i].0 != rows[0].0 {
      var j :| 0 <= j < |rows[1..]| && rows[1..][j] == rest[i];
      assert rows[j + 1] == rest[i];
    }
  }

  lemma TailKey<K, V>(rows: seq<(K, V)>, k: K)
    requires rows != [] && HasKey(rows[1..], k)
    ensures HasKey(rows, k)
  {
    var i :| 0 <= i < |rows[1..]| && rows[1..][i].0 == k;
    assert rows[i + 1].0 == k;
  }

  /** REPLACE INTO: the old row under k (if any) is deleted and the new row appended. */
  function Replace<K(==), V(==)>(rows: seq<(K, V)>, k: K, v: V): seq<(K, V)> {
    RemoveKey(rows, k) + [(k, v)]
  }

  /** INSERT OR IGNORE: a row is appended only when k is new. */
  function InsertOrIgnore<K(==), V(==)>(rows: seq<(K, V)>, k: K, v: V): seq<(K, V)> {
    if HasKey(rows, k) then rows else rows + [(k, v)]
  }

  /** After INSERT OR IGNORE the keys present are the old ones and k. */
  lemma InsertOrIgnoreHas<K, V>(rows: seq<(K, V)>, k: K, v: V, x: K)
    ensures HasKey(InsertOrIgnore(rows, k, v), x) <==> HasKey(rows, x) || x == k
  {
    var r := InsertOrIgnore(rows, k, v);
    if !HasKey(rows, k) {
      assert r[|rows|].0 == k;
      if HasKey(r, x) && x != k {
        var i :| 0 <= i < |r| && r[i].0 == x;
        assert rows[i].0 == x;
      }
      if HasKey(rows, x) {
        var i :| 0 <= i < |rows| && rows[i].0 == x;
        assert r[i].0 == x;
      }
    }
  }

  /** UPDATE ... WHERE key = k: the row keeps its place. */
  function UpdateAt<K(==), V(==)>(rows: seq<(K, V)>, k: K, f: V -> V): (r: seq<(K, V)>)
    ensures |r| == |rows|
    ensures forall i :: 0 <= i < |rows| ==> r[i].0 == rows[i].0
    ensures forall i :: 0 <= i < |rows| ==> r[i].1 == if rows[i].0 == k then f(rows[i].1) else rows[i].1
  {
    seq(|rows|, i requires 0 <= i < |rows| => if rows[i].0 == k then (k, f(rows[i].1)) else rows[i])
  }

  /** A REPLACE makes the new row the one found under k, leaves every other key's
      row as it was, and keeps keys unique. */
  lemma ReplaceSpec<K, V>(rows: seq<(K, V)>, k: K, v: V)
    requires UniqueKeys(rows)
    ensures UniqueKeys(Replace(rows, k, v))
    ensures Lookup(Replace(rows, k, v), k) == Some(v)
    ensures forall k' :: k' != k ==> Lookup(Replace(rows, k, v), k') == Lookup(rows, k')
  {
    var rest := RemoveKey(rows, k);
    var r := rest + [(k, v)];
    assert r[|r| - 1] == (k, v);
    assert UniqueKeys(r) by {
      forall i | 0 <= i < |rest| ensures rest[i].0 != k {
      }
    }
    forall k' | k' != k ensures Lookup(r, k') == Lookup(rows, k') {
      if HasKey(rows, k') {
        var i :| 0 <= i < |rows| && rows[i].0 == k';
        assert rows[i] in rest;
        var j :| 0 <= j < |rest| && rest[j] == rows[i];
        assert r[j] == rows[i];
      } else {
        forall i | 0 <= i < |r| ensures r[i].0 != k' {
          if i < |rest| {
            assert r[i] == rest[i];
            assert rest[i] in rows;
          }
        }
      }
    }
  }

  /** An UPDATE applies f to the row under k where it stands, leaves every other
      key's row as it was, and keeps keys unique. */
  lemma UpdateAtSpec<K, V>(rows: seq<(K, V)>, k: K, f: V -> V)
    requires UniqueKeys(rows)
    ensures UniqueKeys(UpdateAt(rows, k, f))
    ensures HasKey(rows, k) ==> Lookup(UpdateAt(rows, k, f), k) == Some(f(Lookup(rows, k).value))
    ensures !HasKey(rows, k) ==> UpdateAt(rows, k, f) == rows
    ensures forall k' :: k' != k ==> Lookup(UpdateAt(rows, k, f), k') == Lookup(rows, k')
  {
    var u := UpdateAt(rows, k, f);
    if HasKey(rows, k) {
      var i :| 0 <= i < |rows| && rows[i].0 == k;
      assert u[i] == (k, f(rows[i].1));
    }
    forall k' | k' != k ensures Lookup(u, k') == Lookup(rows, k') {
      UpdateAtOther(rows, k, f, k');
    }
  }

  lemma UpdateAtOther<K, V>(rows: seq<(K, V)>, k: K, f: V -> V, k': K)
    requires UniqueKeys(rows) && k' != k
    ensures Lookup(UpdateAt(rows, k, f), k') == Lookup(rows, k')
  {
    var u := UpdateAt(rows, k, f);
    if HasKey(rows, k') {
      var j :| 0 <= j < |rows| && rows[j].0 == k';
      assert u[j] == rows[j];
    }
  }

  /** An UPDATE neither adds nor removes a key. */
  lemma UpdateAtHasKey<K, V>(rows: seq<(K, V)>, k: K, f: V -> V, k': K)
    ensures HasKey(UpdateAt(rows, k, f), k') <==> HasKey(rows, k')
  {
    var u := UpdateAt(rows, k, f);
    if HasKey(rows, k') {
      var i :| 0 <= i < |rows| && rows[i].0 == k';
      assert u[i].0 == k';
    }
    if HasKey(u, k') {
      var i :| 0 <= i < |u| && u[i].0 == k';
      assert rows[i].0 == k';
    }
  }

  /** INSERT OR IGNORE keeps the first row stored under k and keeps keys unique. */
  lemma InsertOrIgnoreSpec<K, V>(rows: seq<(K, V)>, k: K, v: V)
    requires UniqueKeys(rows)
    ensures UniqueKeys(InsertOrIgnore(rows, k, v))
    ensures Lookup(InsertOrIgnore(rows, k, v), k) == if HasKey(rows, k) then Lookup(rows, k) else Some(v)
    ensures forall k' :: k' != k ==> Lookup(InsertOrIgnore(rows, k, v), k') == Lookup(rows, k')
  {
    var r := InsertOrIgnore(rows, k, v);
    if !HasKey(rows, k) {
      assert r[|r| - 1] == (k, v);
      forall k' | k' != k ensures Lookup(r, k') == Lookup(rows, k') {
        if HasKey(rows, k') {
          var i :| 0 <= i < |rows| && rows[i].0 == k';
          assert r[i] == rows[i];
        }
      }
    }
  }

  // ---------------------------------------------------------------------
  // Result shaping

  /** LIMIT n: the first n rows; a negative n is no limit. */
  function Limit<T>(rows: seq<T>, n: int): (r: seq<T>)
    ensures |r| <= |rows| && r == rows[..|r|]
    ensures n < 0 ==> r == rows
    ensures n >= 0 ==> |r| == if n <= |rows| then n else |rows|
  {
    if n < 0 || n >= |rows| then rows else rows[..n]
  }

  function Reverse<T>(s: seq<T>): (r: seq<T>)
    ensures |r| == |s|
    ensures forall i :: 0 <= i < |s| ==> r[i] == s[|s| - 1 - i]
    ensures multiset(r) == multiset(s)
  {
    if s == [] then [] else
      var r := Reverse(s[1..]) + [s[0]];
      assert s == [s[0]] + s[1..];
      r
  }

  lemma ReverseHas<T>(s: seq<T>, x: T)
    ensures x in Reverse(s) <==> x in s
  {
    if x in s {
      var i :| 0 <= i < |s| && s[i] == x;
      assert Reverse(s)[|s| - 1 - i] == x;
    }
    if x in Reverse(s) {
      var i :| 0 <= i < |s| && Reverse(s)[i] == x;
    }
  }

  lemma ReverseReverse<T>(s: seq<T>)
    ensures Reverse(Reverse(s)) == s
  {
    assert forall i :: 0 <= i < |s| ==> Reverse(Reverse(s))[i] == s[i];
  }

  /** The rows that satisfy p, in table order. */
  function Filter<T(==)>(s: seq<T>, p: T -> bool): (r: seq<T>)
    ensures |r| <= |s|
    ensures forall i :: 0 <= i < |r| ==> p(r[i])
    ensures forall i :: 0 <= i < |r| ==> r[i] in s
    ensures forall i :: 0 <= i < |s| && p(s[i]) ==> s[i] in r
    ensures multiset(r) <= multiset(s)
  {
    if s == [] then []
    else
      var rest := Filter(s[1..], p);
      assert s == [s[0]] + s[1..];
      if p(s[0]) then [s[0]] + rest else rest
  }

  lemma FilterAppend<T>(a: seq<T>, b: seq<T>, p: T -> bool)
    ensures Filter(a + b, p) == Filter(a, p) + Filter(b, p)
  {
    if a == [] {
      assert a + b == b;
    } else {
      assert (a + b)[0] == a[0];
      assert (a + b)[1..] == a[1..] + b;
      FilterAppend(a[1..], b, p);
    }
  }

  lemma FilterSnoc<T>(s: seq<T>, x: T, p: T -> bool)
    requires p(x)
    ensures Filter(s + [x], p) == Filter(s, p) + [x]
  {
    FilterAppend(s, [x], p);
    assert [x][1..] == [];
  }

  lemma {:induction false} ReverseSnoc<T>(s: seq<T>, x: T)
    ensures Reverse(s + [x]) == [x] + Reverse(s)
  {
    if s != [] {
      assert (s + [x])[1..] == s[1..] + [x];
      ReverseSnoc(s[1..], x);
    }
  }

  /** The number of rows that satisfy p. */
  function Count<T(==)>(s: seq<T>, p: T -> bool): (n: nat)
    ensures n == |Filter(s, p)|
  {
    if s == [] then 0 else (if p(s[0]) then 1 else 0) + Count(s[1..], p)
  }

  lemma CountSnoc<T>(s: seq<T>, x: T, p: T -> bool)
    ensures Count(s + [x], p) == Count(s, p) + if p(x) then 1 else 0
  {
    FilterAppend(s, [x], p);
    assert [x][1..] == [];
  }

  // ---------------------------------------------------------------------
  // ORDER BY p DESC, q DESC as a stable insertion sort

  /** a sorts strictly before b under ORDER BY p DESC, q DESC. */
  predicate Before<T>(a: T, b: T, p: T -> real, q: T -> int) {
    p(a) > p(b) || (p(a) == p(b) && q(a) > q(b))
  }

  predicate SortedDesc<T>(s: seq<T>, p: T -> real, q: T -> int) {
    forall i, j :: 0 <= i < j < |s| ==> !Before(s[j], s[i], p, q)
  }

  function Insert<T>(x: T, s: seq<T>, p: T -> real, q: T -> int): (r: seq<T>)
    requires SortedDesc(s, p, q)
    ensures SortedDesc(r, p, q)
    ensures multiset(r) == multiset(s) + multiset{x}
    ensures |r| == |s| + 1
  {
    if s == [] then [x]
    else if Before(x, s[0], p, q) then
      assert forall e :: e in s ==> !Before(e, s[0], p, q) by {
        forall e | e in s ensures !Before(e, s[0], p, q) {
          var j :| 0 <= j < |s| && s[j] == e;
        }
      }
      [x] + s
    else
      assert SortedDesc(s[1..], p, q);
      var rest := Insert(x, s[1..], p, q);
      InsertStep(x, s, rest, p, q);
      assert s == [s[0]] + s[1..];
      [s[0]] + rest
  }

  /** The head of a sorted s stays ahead of x inserted into the tail. */
  lemma InsertStep<T>(x: T, s: seq<T>, rest: seq<T>, p: T -> real, q: T -> int)
    requires s != [] && SortedDesc(s, p, q) && !Before(x, s[0], p, q)
    requires SortedDesc(rest, p, q) && multiset(rest) == multiset(s[1..]) + multiset{x}
    ensures SortedDesc([s[0]] + rest, p, q)
  {
    var r := [s[0]] + rest;
    forall j | 1 <= j < |r| ensures !Before(r[j], s[0], p, q) {
      assert r[j] == rest[j - 1];
      assert r[j] in multiset(rest);
      if r[j] != x {
        assert r[j] in multiset(s[1..]);
        var k :| 0 <= k < |s[1..]| && s[1..][k] == r[j];
        assert s[k + 1] == r[j];
      }
    }
  }

  /** The rows ordered by p descending, then q descending; rows that tie keep
      their table order. */
  function SortDesc<T>(s: seq<T>, p: T -> real, q: T -> int): (r: seq<T>)
    ensures SortedDesc(r, p, q)
    ensures multiset(r) == multiset(s)
    ensures |r| == |s|
  {
    if s == [] then []
    else
      assert s == s[..|s| - 1] + [s[|s| - 1]];
      Insert(s[|s| - 1], SortDesc(s[..|s| - 1], p, q), p, q)
  }

  // ---------------------------------------------------------------------
  // Counting dicts

  function SumCounts(c: seq<(string, nat)>): nat {
    if c == [] then 0 else c[0].1 + SumCounts(c[1..])
  }

  lemma SumCountsSnoc(c: seq<(string, nat)>, e: (string, nat))
    ensures SumCounts(c + [e]) == SumCounts(c) + e.1
  {
    if c != [] {
      assert (c + [e])[1..] == c[1..] + [e];
      SumCountsSnoc(c[1..], e);
    }
  }

  function Succ(n: nat): nat {
    n + 1
  }

  /** Counting one more occurrence of t in an insertion-ordered dict of counts:
      d[t] = d.get(t, 0) + 1. */
  function Bump(c: seq<(string, nat)>, t: string): seq<(string, nat)> {
    if HasKey(c, t) then UpdateAt(c, t, Succ) else c + [(t, 1)]
  }

  lemma {:induction false} SumUpdateAt(c: seq<(string, nat)>, t: string)
    requires UniqueKeys(c) && HasKey(c, t)
    ensures SumCounts(UpdateAt(c, t, Succ)) == SumCounts(c) + 1
    decreases |c|
  {
    var u := UpdateAt(c, t, Succ);
    assert u[1..] == UpdateAt(c[1..], t, Succ);
    if c[0].0 == t {
      assert u[1..] == c[1..] by {
        forall i | 0 <= i < |c[1..]| ensures c[1..][i].0 != t {
          assert c[i + 1].0 != c[0].0;
        }
      }
    } else {
      assert HasKey(c[1..], t) by {
        var i :| 0 <= i < |c| && c[i].0 == t;
        assert c[1..][i - 1].0 == t;
      }
      SumUpdateAt(c[1..], t);
    }
  }

  lemma BumpSpec(c: seq<(string, nat)>, t: string)
    requires UniqueKeys(c)
    ensures UniqueKeys(Bump(c, t))
    ensures SumCounts(Bump(c, t)) == SumCounts(c) + 1
    ensures Lookup(Bump(c, t), t) == Some(if HasKey(c, t) then Lookup(c, t).value + 1 else 1)
    ensures forall t' :: t' != t ==> Lookup(Bump(c, t), t') == Lookup(c, t')
  {
    if HasKey(c, t) {
      SumUpdateAt(c, t);
      UpdateAtSpec(c, t, Succ);
    } else {
      SumCountsSnoc(c, (t, 1));
      InsertOrIgnoreSpec(c, t, 1);
      assert Bump(c, t) == InsertOrIgnore(c, t, 1);
    }
  }
}
