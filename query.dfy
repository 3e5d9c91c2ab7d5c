/**
 * The relational operators the store's SELECT statements are built from:
 * WHERE (a filter), ORDER BY (a sort on one TEXT key, ascending or descending),
 * LIMIT, DISTINCT and the MAX aggregate, each over a sequence of rows.
 */
module Query {
  import opened Wrappers
  import opened Collation

  /** Key a may come before key b under ORDER BY key (ASC when !desc, DESC when desc). */
  predicate InOrder(a: string, b: string, desc: bool)
  {
    if desc then Le(b, a) else Le(a, b)
  }

  lemma InOrderTotal(a: string, b: string, desc: bool)
    ensures InOrder(a, b, desc) || InOrder(b, a, desc)
  {
    LeTotal(a, b);
  }

  lemma InOrderTransitive(a: string, b: string, c: string, desc: bool)
    requires InOrder(a, b, desc) && InOrder(b, c, desc)
    ensures InOrder(a, c, desc)
  {
    if desc { LeTransitive(c, b, a); } else { LeTransitive(a, b, c); }
  }

  /** s is ordered by key. */
  predicate SortedBy<T>(s: seq<T>, key: T -> string, desc: bool)
  {
    forall i, j :: 0 <= i < j < |s| ==> InOrder(key(s[i]), key(s[j]), desc)
  }

  /** No element occurs twice. */
  predicate Distinct<T(==)>(s: seq<T>)
  {
    forall i, j :: 0 <= i < j < |s| ==> s[i] != s[j]
  }

  lemma SortedCons<T>(h: T, t: seq<T>, key: T -> string, desc: bool)
    requires SortedBy(t, key, desc)
    requires forall y :: y in t ==> InOrder(key(h), key(y), desc)
    ensures SortedBy([h] + t, key, desc)
  {
    forall i, j | 0 <= i < j < |[h] + t|
      ensures InOrder(key(([h] + t)[i]), key(([h] + t)[j]), desc)
    {
      if i > 0 {
        assert ([h] + t)[i] == t[i - 1] && ([h] + t)[j] == t[j - 1];
      } else {
        assert ([h] + t)[j] == t[j - 1];
        assert t[j - 1] in t;
      }
    }
  }

  /** The head of a sorted sequence comes before every element of its tail. */
  lemma SortedHead<T>(s: seq<T>, key: T -> string, desc: bool)
    requires |s| > 0 && SortedBy(s, key, desc)
    ensures forall y :: y in s[1..] ==> InOrder(key(s[0]), key(y), desc)
  {
    forall y | y in s[1..]
      ensures InOrder(key(s[0]), key(y), desc)
    {
      var k :| 0 <= k < |s[1..]| && s[1..][k] == y;
      assert s[k + 1] == y;
    }
  }

  /** Insert x into the sorted s, before the first element x may precede. */
  function InsertBy<T>(x: T, s: seq<T>, key: T -> string, desc: bool): (r: seq<T>)
    requires SortedBy(s, key, desc)
    ensures SortedBy(r, key, desc)
    ensures multiset(r) == multiset(s) + multiset{x}
    ensures |r| == |s| + 1
    decreases |s|
  {
    if |s| == 0 then [x]
    else if InOrder(key(x), key(s[0]), desc) then
      SortedHead(s, key, desc);
      InsertBeforeHead(x, s, key, desc);
      [x] + s
    else
      var rest := InsertBy(x, s[1..], key, desc);
      InOrderTotal(key(x), key(s[0]), desc);
      InsertAfterHead(x, s, rest, key, desc);
      assert s == [s[0]] + s[1..];
      [s[0]] + rest
  }

  lemma InsertBeforeHead<T>(x: T, s: seq<T>, key: T -> string, desc: bool)
    requires |s| > 0 && SortedBy(s, key, desc)
    requires InOrder(key(x), key(s[0]), desc)
    ensures SortedBy([x] + s, key, desc)
  {
    SortedHead(s, key, desc);
    forall y | y in s
      ensures InOrder(key(x), key(y), desc)
    {
      if y != s[0] {
        assert y in s[1..] by { assert s == [s[0]] + s[1..]; }
        InOrderTransitive(key(x), key(s[0]), key(y), desc);
      }
    }
    SortedCons(x, s, key, desc);
  }

  lemma InsertAfterHead<T>(x: T, s: seq<T>, rest: seq<T>, key: T -> string, desc: bool)
    requires |s| > 0 && SortedBy(s, key, desc)
    requires InOrder(key(s[0]), key(x), desc)
    requires SortedBy(rest, key, desc)
    requires multiset(rest) == multiset(s[1..]) + multiset{x}
    ensures SortedBy([s[0]] + rest, key, desc)
  {
    SortedHead(s, key, desc);
    forall y | y in rest
      ensures InOrder(key(s[0]), key(y), desc)
    {
      assert y in multiset(rest);
      if y != x {
        assert y in multiset(s[1..]);
      }
    }
    SortedCons(s[0], rest, key, desc);
  }

  /** ORDER BY key [DESC]: a stable insertion sort, so rows with equal keys keep their table order. */
  function SortBy<T>(s: seq<T>, key: T -> string, desc: bool): (r: seq<T>)
    ensures SortedBy(r, key, desc)
    ensures multiset(r) == multiset(s)
    ensures |r| == |s|
    decreases |s|
  {
    if |s| == 0 then []
    else
      assert s == [s[0]] + s[1..];
      InsertBy(s[0], SortBy(s[1..], key, desc), key, desc)
  }

  /** WHERE p: the rows satisfying p, each as often as in s. */
  function Where<T(!new)>(s: seq<T>, p: T -> bool): (r: seq<T>)
    ensures forall x :: multiset(r)[x] == if p(x) then multiset(s)[x] else 0
    ensures forall x :: x in r <==> x in s && p(x)
    ensures |r| <= |s|
    decreases |s|
  {
    if |s| == 0 then []
    else
      assert s == [s[0]] + s[1..];
      var rest := Where(s[1..], p);
      if p(s[0]) then [s[0]] + rest else rest
  }

  /** LIMIT n; SQLite reads a negative limit as no limit at all. */
  function Limit<T>(s: seq<T>, n: int): (r: seq<T>)
  {
    if 0 <= n < |s| then s[..n] else s
  }

  /** LIMIT keeps a prefix: at most n rows for a non-negative n, and fewer than all only when exactly n. */
  lemma LimitPrefix<T>(s: seq<T>, n: int)
    ensures Limit(s, n) <= s
    ensures 0 <= n ==> |Limit(s, n)| <= n
    ensures |Limit(s, n)| < |s| ==> |Limit(s, n)| == n
  {
  }

  /** Limiting a sorted sequence keeps its first rows: each row it drops comes after each row it keeps. */
  lemma LimitSorted<T>(s: seq<T>, n: int, key: T -> string, desc: bool)
    requires SortedBy(s, key, desc)
    ensures SortedBy(Limit(s, n), key, desc)
    ensures |Limit(s, n)| == if 0 <= n < |s| then n else |s|
    ensures multiset(Limit(s, n)) <= multiset(s)
    ensures forall x, y :: x in Limit(s, n) && y in multiset(s) - multiset(Limit(s, n)) ==>
              InOrder(key(x), key(y), desc)
  {
    if 0 <= n < |s| {
      var l := s[..n];
      var d := s[n..];
      assert s == l + d;
      assert multiset(s) == multiset(l) + multiset(d);
      assert multiset(s) - multiset(l) == multiset(d);
      PrefixBeforeSuffix(s, n, key, desc);
    }
  }

  /** ORDER BY key [DESC] LIMIT n: the first n rows of the sorted table. */
  function Top<T>(s: seq<T>, key: T -> string, desc: bool, n: int): (r: seq<T>)
    ensures SortedBy(r, key, desc)
    ensures |r| == if 0 <= n < |s| then n else |s|
    ensures multiset(r) <= multiset(s)
    ensures forall x :: x in r ==> x in s
    ensures forall x, y :: x in r && y in multiset(s) - multiset(r) ==> InOrder(key(x), key(y), desc)
  {
    var sorted := SortBy(s, key, desc);
    LimitSorted(sorted, n, key, desc);
    var r := Limit(sorted, n);
    assert forall x :: x in r ==> x in s by {
      forall x | x in r ensures x in s {
        assert x in multiset(r);
        assert x in multiset(s);
      }
    }
    r
  }

  /** A non-empty set of strings has a least element. */
  lemma {:induction false} LeastExists(keys: set<string>)
    requires keys != {}
    ensures exists k :: k in keys && forall j :: j in keys ==> Le(k, j)
    decreases |keys|
  {
    var x :| x in keys;
    if keys == {x} {
      LeReflexive(x);
    } else {
      var rest := keys - {x};
      LeastExists(rest);
      var m :| m in rest && forall j :: j in rest ==> Le(m, j);
      LeTotal(x, m);
      if Le(x, m) {
        LeReflexive(x);
        forall j | j in keys ensures Le(x, j) {
          if j != x { LeTransitive(x, m, j); }
        }
      } else {
        assert Le(m, x);
      }
    }
  }

  lemma LeAntisymmetricAll()
    ensures forall a, b :: Le(a, b) && Le(b, a) ==> a == b
  {
    forall a, b | Le(a, b) && Le(b, a) ensures a == b {
      LeAntisymmetric(a, b);
    }
  }

  /** A least key followed by the rest in strictly ascending order is in strictly ascending order. */
  lemma AscendingCons(k: string, keys: set<string>, rest: seq<string>)
    requires k in keys && forall j :: j in keys ==> Le(k, j)
    requires forall x :: x in rest <==> x in keys - {k}
    requires forall i, j :: 0 <= i < j < |rest| ==> Lt(rest[i], rest[j])
    ensures forall i, j :: 0 <= i < j < |[k] + rest| ==> Lt(([k] + rest)[i], ([k] + rest)[j])
  {
    var r := [k] + rest;
    forall i, j | 0 <= i < j < |r| ensures Lt(r[i], r[j]) {
      if i == 0 {
        assert r[j] == rest[j - 1] && rest[j - 1] in rest;
      } else {
        assert r[i] == rest[i - 1] && r[j] == rest[j - 1];
      }
    }
  }

  /** ORDER BY over a set of distinct strings: each once, in strictly ascending order. */
  function Ascending(keys: set<string>): (r: seq<string>)
    ensures |r| == |keys|
    ensures forall k :: k in r <==> k in keys
    ensures forall i, j :: 0 <= i < j < |r| ==> Lt(r[i], r[j])
    decreases |keys|
  {
    if keys == {} then []
    else
      LeastExists(keys);
      LeAntisymmetricAll();
      var k :| k in keys && forall j :: j in keys ==> Le(k, j);
      var rest := Ascending(keys - {k});
      AscendingCons(k, keys, rest);
      [k] + rest
  }

  lemma PrefixBeforeSuffix<T>(s: seq<T>, n: nat, key: T -> string, desc: bool)
    requires n <= |s| && SortedBy(s, key, desc)
    ensures forall x, y :: x in s[..n] && y in multiset(s[n..]) ==> InOrder(key(x), key(y), desc)
  {
    forall x, y | x in s[..n] && y in multiset(s[n..])
      ensures InOrder(key(x), key(y), desc)
    {
      var i :| 0 <= i < n && s[..n][i] == x;
      assert y in s[n..];
      var j :| 0 <= j < |s| - n && s[n..][j] == y;
      assert s[i] == x && s[n + j] == y;
    }
  }

  /** MAX(key) over s: None for no rows, else the greatest key. */
  function MaxKey<T>(s: seq<T>, key: T -> string): (m: Option<string>)
    ensures m.None? <==> |s| == 0
    ensures m.Some? ==> exists x :: x in s && key(x) == m.value
    ensures m.Some? ==> forall x :: x in s ==> Le(key(x), m.value)
    decreases |s|
  {
    if |s| == 0 then None
    else
      var rest := MaxKey(s[1..], key);
      assert s == [s[0]] + s[1..];
      if rest.None? then
        LeReflexive(key(s[0]));
        Some(key(s[0]))
      else if Le(key(s[0]), rest.value) then
        Some(rest.value)
      else
        LeTotal(key(s[0]), rest.value);
        MaxHeadWins(s, key, rest.value);
        Some(key(s[0]))
  }

  lemma MaxHeadWins<T>(s: seq<T>, key: T -> string, m: string)
    requires |s| > 0
    requires forall x :: x in s[1..] ==> Le(key(x), m)
    requires Le(m, key(s[0]))
    ensures forall x :: x in s ==> Le(key(x), key(s[0]))
  {
    forall x | x in s
      ensures Le(key(x), key(s[0]))
    {
      if x == s[0] {
        LeReflexive(key(s[0]));
      } else {
        assert x in s[1..] by { assert s == [s[0]] + s[1..]; }
        LeTransitive(key(x), m, key(s[0]));
      }
    }
  }

  /** Collapse runs of equal neighbours, as DISTINCT does once its input is sorted. */
  function Uniq(s: seq<string>): (r: seq<string>)
    ensures forall x :: x in r <==> x in s
    ensures |s| > 0 ==> |r| > 0 && r[0] == s[0]
    ensures |r| <= |s|
    decreases |s|
  {
    if |s| <= 1 then s
    else
      assert s == [s[0]] + s[1..];
      assert s[1..][0] == s[1];
      var rest := Uniq(s[1..]);
      if s[0] == s[1] then rest else [s[0]] + rest
  }

  /** Collapsing the runs of a descending sequence leaves a strictly descending one. */
  lemma {:induction false} UniqStrictlyDescending(s: seq<string>)
    requires SortedBy(s, (t: string) => t, true)
    ensures forall i, j :: 0 <= i < j < |Uniq(s)| ==> Lt(Uniq(s)[j], Uniq(s)[i])
    decreases |s|
  {
    if |s| > 1 {
      var t := s[1..];
      assert SortedBy(t, (t: string) => t, true) by {
        forall i, j | 0 <= i < j < |t| ensures Le(t[j], t[i]) {
          assert t[i] == s[i + 1] && t[j] == s[j + 1];
        }
      }
      UniqStrictlyDescending(t);
      var rest := Uniq(t);
      if s[0] != s[1] {
        assert Le(s[1], s[0]);
        forall y | y in rest
          ensures Lt(y, s[0])
        {
          assert y in t;
          var k :| 0 <= k < |t| && t[k] == y;
          if k > 0 {
            assert Le(s[k + 1], s[1]);
            LeTransitive(y, s[1], s[0]);
          }
          if y == s[0] {
            LeAntisymmetric(s[0], s[1]);
          }
        }
        var r := [s[0]] + rest;
        forall i, j | 0 <= i < j < |r|
          ensures Lt(r[j], r[i])
        {
          if i > 0 {
            assert r[i] == rest[i - 1] && r[j] == rest[j - 1];
          } else {
            assert r[j] == rest[j - 1];
            assert rest[j - 1] in rest;
          }
        }
      }
    }
  }

  /** Two positions holding one value make it occur at least twice. */
  lemma RepeatCounts<T>(s: seq<T>, i: nat, j: nat)
    requires i < j < |s| && s[i] == s[j]
    ensures multiset(s)[s[i]] >= 2
  {
    assert s == s[..j] + [s[j]] + s[j + 1..];
    assert s[i] in s[..j];
  }

  /** In a sequence without repeats every value occurs at most once. */
  lemma {:induction false} DistinctCounts<T>(s: seq<T>)
    requires Distinct(s)
    ensures forall x :: multiset(s)[x] <= 1
    decreases |s|
  {
    if |s| > 0 {
      var t := s[1..];
      assert s == [s[0]] + t;
      assert Distinct(t) by {
        forall i, j | 0 <= i < j < |t| ensures t[i] != t[j] {
          assert t[i] == s[i + 1] && t[j] == s[j + 1];
        }
      }
      DistinctCounts(t);
      forall k | 0 <= k < |t|
        ensures t[k] != s[0]
      {
        assert t[k] == s[k + 1];
      }
    }
  }

  /** A sequence whose values occur at most as often as in a sequence without repeats has none either. */
  lemma DistinctBelow<T>(r: seq<T>, s: seq<T>)
    requires Distinct(s)
    requires multiset(r) <= multiset(s)
    ensures Distinct(r)
  {
    DistinctCounts(s);
    forall i, j | 0 <= i < j < |r|
      ensures r[i] != r[j]
    {
      if r[i] == r[j] {
        RepeatCounts(r, i, j);
        assert false;
      }
    }
  }
}
