// Shared vocabulary: optional values, C#-style integer arithmetic, string
// prefixes, and insertion-ordered dictionaries.

module Common {

  datatype Option<T> = None | Some(value: T)

  // ---------------------------------------------------------------------
  // Arithmetic as C# performs it
  // ---------------------------------------------------------------------

  /** Integer division truncating toward zero, as C#'s `/` and `(long)` casts do. */
  function TruncDiv(a: int, b: int): (r: int)
    requires b > 0
    ensures a >= 0 ==> r == a / b
    ensures a < 0 ==> r == -((-a) / b)
  {
    if a >= 0 then a / b else -((-a) / b)
  }

  /** C#'s `/` on `long` for any non-zero divisor: the quotient truncated toward zero. */
  function CsDiv(a: int, b: int): (r: int)
    requires b != 0
    ensures b > 0 ==> r == TruncDiv(a, b)
    ensures b < 0 ==> r == -TruncDiv(a, -b)
  {
    if b > 0 then TruncDiv(a, b) else -TruncDiv(a, -b)
  }

  function Min(a: int, b: int): (r: int)
    ensures r <= a && r <= b && (r == a || r == b)
  {
    if a <= b then a else b
  }

  function Max(a: int, b: int): (r: int)
    ensures r >= a && r >= b && (r == a || r == b)
  {
    if a >= b then a else b
  }

  /** `n` copies of `x`; a non-positive count yields nothing, as a C# `for` loop does. */
  function Repeat<T>(x: T, n: int): (r: seq<T>)
    ensures |r| == if n <= 0 then 0 else n
    decreases n
  {
    if n <= 0 then [] else [x] + Repeat(x, n - 1)
  }

  lemma {:induction false} RepeatElements<T>(x: T, n: int)
    ensures forall i :: 0 <= i < |Repeat(x, n)| ==> Repeat(x, n)[i] == x
    decreases n
  {
    if n > 0 {
      RepeatElements(x, n - 1);
    }
  }

  lemma RepeatCount<T>(x: T, n: int, y: T)
    ensures multiset(Repeat(x, n))[y] == if x == y then Max(0, n) else 0
    decreases n
  {
    if n > 0 {
      RepeatCount(x, n - 1, y);
      assert Repeat(x, n) == [x] + Repeat(x, n - 1);
    }
  }

  predicate StartsWith(s: string, prefix: string) {
    |prefix| <= |s| && s[..|prefix|] == prefix
  }

  predicate EndsWith(s: string, suffix: string) {
    |suffix| <= |s| && s[|s| - |suffix|..] == suffix
  }

  /** Index of the first occurrence of `c` in `s`, or -1 (C#'s `IndexOf`). */
  function IndexOf(s: string, c: char): (r: int)
    ensures -1 <= r < |s|
    ensures r == -1 <==> c !in s
    ensures r >= 0 ==> s[r] == c && c !in s[..r]
  {
    if |s| == 0 then -1
    else if s[0] == c then 0
    else var k := IndexOf(s[1..], c); if k == -1 then -1 else k + 1
  }

  /** `s.Split(sep)`: the pieces between separators; there is always at least one. */
  function Split(s: string, sep: char): (r: seq<string>)
    ensures |r| >= 1
    decreases |s|
  {
    var i := IndexOf(s, sep);
    if i < 0 then [s] else [s[..i]] + Split(s[i + 1..], sep)
  }

  /** The first separator of a join is the one after a separator-free first piece. */
  lemma IndexOfJoin(a: string, rest: string, sep: char)
    requires sep !in a
    ensures IndexOf(a + [sep] + rest, sep) == |a|
  {
    var s := a + [sep] + rest;
    assert s[|a|] == sep;
  }

  /** Pieces free of the separator come back from a split of their join. */
  lemma SplitJoin(a: string, rest: string, sep: char)
    requires sep !in a
    ensures Split(a + [sep] + rest, sep) == [a] + Split(rest, sep)
  {
    var s := a + [sep] + rest;
    IndexOfJoin(a, rest, sep);
    assert s[..|a|] == a;
    assert s[|a| + 1..] == rest;
  }

  /** Two separator-free pieces joined by the separator split back into those two. */
  lemma SplitTwo(b: string, c: string, sep: char)
    requires sep !in b && sep !in c
    ensures Split(b + [sep] + c, sep) == [b, c]
  {
    SplitJoin(b, c, sep);
    assert IndexOf(c, sep) == -1;
  }

  /** Three separator-free pieces joined by the separator split back into those three. */
  lemma SplitThree(a: string, b: string, c: string, sep: char)
    requires sep !in a && sep !in b && sep !in c
    ensures Split(a + [sep] + b + [sep] + c, sep) == [a, b, c]
  {
    var rest := b + [sep] + c;
    assert Split(rest, sep) == [b, c] by {
      SplitTwo(b, c, sep);
    }
    assert Split(a + [sep] + rest, sep) == [a, b, c] by {
      SplitJoin(a, rest, sep);
    }
    assert a + [sep] + b + [sep] + c == a + [sep] + rest;
  }

  /** The decimal digits of a natural number. */
  function NatToString(n: nat): (r: string)
    ensures |r| >= 1 && forall i :: 0 <= i < |r| ==> '0' <= r[i] <= '9'
  {
    if n < 10 then [(48 + n) as char] else NatToString(n / 10) + [(48 + n % 10) as char]
  }

  /** `n.ToString()` for an integer. */
  function IntToString(n: int): (r: string)
    ensures |r| >= 1 && forall i :: 0 <= i < |r| ==> r[i] == '-' || '0' <= r[i] <= '9'
  {
    if n < 0 then "-" + NatToString(-n) else NatToString(n)
  }

  /** Some element of a non-empty set, as a `foreach` over a dictionary reaches each key. */
  method Pick<T>(s: set<T>) returns (x: T)
    requires s != {}
    ensures x in s
  {
    x :| x in s;
  }

  predicate Distinct<T(==)>(s: seq<T>) {
    forall i, j :: 0 <= i < j < |s| ==> s[i] != s[j]
  }

  /** The elements of `s` with repeats dropped, first occurrences kept in order (`Distinct()`). */
  function Dedup<T(==,!new)>(s: seq<T>): (r: seq<T>)
    ensures forall x :: x in r <==> x in s
    ensures Distinct(r)
    decreases |s|
  {
    if s == [] then []
    else
      var init := Dedup(s[..|s| - 1]);
      var last := s[|s| - 1];
      assert forall x :: x in s <==> x in s[..|s| - 1] || x == last;
      if last in init then init else init + [last]
  }

  // ---------------------------------------------------------------------
  // Insertion-ordered dictionaries
  //
  // A .NET Dictionary that is only ever added to enumerates its entries in
  // insertion order, and several results of the system depend on that order
  // (spawn tables, the order of queued commands).  Such dictionaries are
  // association lists with distinct keys.
  // ---------------------------------------------------------------------

  datatype Entry<K, V> = Entry(key: K, value: V)

  predicate HasKey<K(==), V>(d: seq<Entry<K, V>>, k: K) {
    exists i :: 0 <= i < |d| && d[i].key == k
  }

  predicate DistinctKeys<K(==), V>(d: seq<Entry<K, V>>) {
    forall i, j :: 0 <= i < j < |d| ==> d[i].key != d[j].key
  }

  /** The value stored under `k` (the first entry with that key). */
  function Find<K(==), V>(d: seq<Entry<K, V>>, k: K): Option<V> {
    if |d| == 0 then None
    else if d[0].key == k then Some(d[0].value)
    else Find(d[1..], k)
  }

  /** `Find` misses exactly the absent keys, and what it finds is stored under the key. */
  lemma {:induction false} FindHasKey<K, V>(d: seq<Entry<K, V>>, k: K)
    ensures Find(d, k).None? <==> !HasKey(d, k)
    ensures Find(d, k).Some? ==> exists i :: 0 <= i < |d| && d[i] == Entry(k, Find(d, k).value)
  {
    if |d| > 0 && d[0].key != k {
      FindHasKey(d[1..], k);
      assert forall i :: 0 <= i < |d[1..]| ==> d[1..][i] == d[i + 1];
      if HasKey(d, k) {
        var i :| 0 <= i < |d| && d[i].key == k;
        assert d[1..][i - 1] == d[i];
      }
    }
  }

  function GetOr<K(==), V>(d: seq<Entry<K, V>>, k: K, default: V): V {
    match Find(d, k)
    case None => default
    case Some(v) => v
  }

  /** `d[k] = v`: replaces the value in place, or appends a new entry at the end. */
  function Put<K(==), V>(d: seq<Entry<K, V>>, k: K, v: V): seq<Entry<K, V>> {
    if |d| == 0 then [Entry(k, v)]
    else if d[0].key == k then [Entry(k, v)] + d[1..]
    else [d[0]] + Put(d[1..], k, v)
  }

  /** `Put` keeps every existing key in place and appends only a new one. */
  lemma {:induction false} PutShape<K, V>(d: seq<Entry<K, V>>, k: K, v: V)
    ensures HasKey(d, k) ==> |Put(d, k, v)| == |d|
    ensures !HasKey(d, k) ==> Put(d, k, v) == d + [Entry(k, v)]
    ensures forall i :: 0 <= i < |d| ==> Put(d, k, v)[i].key == d[i].key
  {
    if |d| > 0 && d[0].key != k {
      PutShape(d[1..], k, v);
      assert forall i :: 0 <= i < |d[1..]| ==> d[1..][i] == d[i + 1];
      if HasKey(d, k) {
        var i :| 0 <= i < |d| && d[i].key == k;
        assert d[1..][i - 1] == d[i];
      }
      if !HasKey(d, k) {
        assert !HasKey(d[1..], k);
        assert d == [d[0]] + d[1..];
      }
    }
  }

  /** `TryAdd(k, v)`: adds an entry only when the key is absent. */
  function TryAdd<K(==), V>(d: seq<Entry<K, V>>, k: K, v: V): seq<Entry<K, V>> {
    if HasKey(d, k) then d else d + [Entry(k, v)]
  }

  lemma FindPut<K, V>(d: seq<Entry<K, V>>, k: K, v: V, q: K)
    ensures Find(Put(d, k, v), q) == if q == k then Some(v) else Find(d, q)
  {
    if |d| > 0 && d[0].key != k {
      FindPut(d[1..], k, v, q);
    }
  }

  lemma FindTryAdd<K, V>(d: seq<Entry<K, V>>, k: K, v: V, q: K)
    ensures Find(TryAdd(d, k, v), q) ==
      if q == k && !HasKey(d, k) then Some(v) else Find(d, q)
  {
    if !HasKey(d, k) {
      FindAppend(d, Entry(k, v), q);
      FindHasKey(d, q);
    }
  }

  lemma FindAppend<K, V>(d: seq<Entry<K, V>>, e: Entry<K, V>, q: K)
    ensures Find(d + [e], q) == if HasKey(d, q) then Find(d, q)
                                else if e.key == q then Some(e.value) else None
  {
    if |d| > 0 {
      assert (d + [e])[1..] == d[1..] + [e];
      FindAppend(d[1..], e, q);
    }
  }

  lemma HasKeyAppend<K, V>(d: seq<Entry<K, V>>, e: Entry<K, V>, k: K)
    ensures HasKey(d + [e], k) <==> HasKey(d, k) || e.key == k
  {
    if HasKey(d + [e], k) {
      var i :| 0 <= i < |d + [e]| && (d + [e])[i].key == k;
      if i < |d| { assert d[i] == (d + [e])[i]; }
    }
    if HasKey(d, k) {
      var i :| 0 <= i < |d| && d[i].key == k;
      assert (d + [e])[i] == d[i];
    }
    if e.key == k {
      assert (d + [e])[|d|] == e;
    }
  }

  /** In a dictionary with distinct keys, the last key appears nowhere before it. */
  lemma LastKeyFresh<K, V>(d: seq<Entry<K, V>>)
    requires DistinctKeys(d) && |d| > 0
    ensures DistinctKeys(d[..|d| - 1]) && !HasKey(d[..|d| - 1], d[|d| - 1].key)
  {
    var init := d[..|d| - 1];
    assert forall i :: 0 <= i < |init| ==> init[i] == d[i];
  }

  lemma PutKeepsDistinct<K, V>(d: seq<Entry<K, V>>, k: K, v: V)
    requires DistinctKeys(d)
    ensures DistinctKeys(Put(d, k, v))
  {
    var r := Put(d, k, v);
    PutShape(d, k, v);
    if !HasKey(d, k) {
      assert r == d + [Entry(k, v)];
    } else {
      assert forall i :: 0 <= i < |d| ==> r[i].key == d[i].key;
    }
  }

  lemma TryAddKeepsDistinct<K, V>(d: seq<Entry<K, V>>, k: K, v: V)
    requires DistinctKeys(d)
    ensures DistinctKeys(TryAdd(d, k, v))
  {
  }

  /** Sum of the values of an integer dictionary. */
  function SumValues<K>(d: seq<Entry<K, int>>): int {
    if |d| == 0 then 0 else d[0].value + SumValues(d[1..])
  }

  lemma {:induction false} SumValuesPut<K>(d: seq<Entry<K, int>>, k: K, v: int)
    requires DistinctKeys(d)
    ensures SumValues(Put(d, k, v)) == SumValues(d) - GetOr(d, k, 0) + v
  {
    if |d| == 0 {
    } else if d[0].key == k {
      assert !HasKey(d[1..], k) by {
        forall i | 0 <= i < |d[1..]| ensures d[1..][i].key != k {
          assert d[1..][i] == d[i + 1];
        }
      }
      assert Put(d, k, v)[1..] == d[1..];
    } else {
      SumValuesPut(d[1..], k, v);
      assert Put(d, k, v)[1..] == Put(d[1..], k, v);
      assert Put(d, k, v)[0] == d[0];
    }
  }

  /** `Remove(k)`: drops the entry under `k` and keeps the rest in order. */
  function Remove<K(==), V>(d: seq<Entry<K, V>>, k: K): seq<Entry<K, V>>
    decreases |d|
  {
    if |d| == 0 then []
    else if d[0].key == k then Remove(d[1..], k)
    else [d[0]] + Remove(d[1..], k)
  }

  /** Removing a key leaves no entry under it and keeps the other lookups. */
  lemma {:induction false} FindRemove<K, V>(d: seq<Entry<K, V>>, k: K, q: K)
    ensures Find(Remove(d, k), q) == if q == k then None else Find(d, q)
    decreases |d|
  {
    if |d| > 0 {
      FindRemove(d[1..], k, q);
    }
  }

  lemma {:induction false} RemoveKeepsDistinct<K, V>(d: seq<Entry<K, V>>, k: K)
    requires DistinctKeys(d)
    ensures DistinctKeys(Remove(d, k))
    ensures forall q :: HasKey(Remove(d, k), q) ==> HasKey(d, q)
    decreases |d|
  {
    if |d| > 0 {
      assert DistinctKeys(d[1..]) by {
        forall i, j | 0 <= i < j < |d[1..]| ensures d[1..][i].key != d[1..][j].key {
          assert d[1..][i] == d[i + 1] && d[1..][j] == d[j + 1];
        }
      }
      RemoveKeepsDistinct(d[1..], k);
      var rest := Remove(d[1..], k);
      forall q | HasKey(rest, q) ensures HasKey(d, q) {
        var i :| 0 <= i < |rest| && rest[i].key == q;
        var j :| 0 <= j < |d[1..]| && d[1..][j].key == q;
        assert d[j + 1].key == q;
      }
      if d[0].key != k {
        var r := [d[0]] + rest;
        assert !HasKey(d[1..], d[0].key) by {
          forall j | 0 <= j < |d[1..]| ensures d[1..][j].key != d[0].key {
            assert d[1..][j] == d[j + 1];
          }
        }
        forall i, j | 0 <= i < j < |r| ensures r[i].key != r[j].key {
          if i == 0 {
            assert r[j] == rest[j - 1];
          } else {
            assert r[i] == rest[i - 1] && r[j] == rest[j - 1];
          }
        }
        forall q | HasKey(r, q) ensures HasKey(d, q) {
          var i :| 0 <= i < |r| && r[i].key == q;
          if i == 0 { assert d[0].key == q; } else { assert rest[i - 1].key == q; }
        }
      }
    }
  }

  /** Removing a key takes its value out of the sum. */
  lemma {:induction false} SumValuesRemove<K>(d: seq<Entry<K, int>>, k: K)
    requires DistinctKeys(d)
    ensures SumValues(Remove(d, k)) == SumValues(d) - GetOr(d, k, 0)
    decreases |d|
  {
    if |d| > 0 {
      assert DistinctKeys(d[1..]) by {
        forall i, j | 0 <= i < j < |d[1..]| ensures d[1..][i].key != d[1..][j].key {
          assert d[1..][i] == d[i + 1] && d[1..][j] == d[j + 1];
        }
      }
      SumValuesRemove(d[1..], k);
      if d[0].key == k {
        assert !HasKey(d[1..], k) by {
          forall i | 0 <= i < |d[1..]| ensures d[1..][i].key != k {
            assert d[1..][i] == d[i + 1];
          }
        }
        FindHasKey(d[1..], k);
      } else {
        assert ([d[0]] + Remove(d[1..], k))[1..] == Remove(d[1..], k);
      }
    }
  }
}
