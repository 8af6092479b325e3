/** Sequence operations the handlers are built from: the `filter`, `reduce`
    and lookup steps that the ORM and JavaScript arrays perform, each with the
    facts the handlers' properties rest on. */
module Seqs {
  import opened Common

  /** The elements of `s` satisfying `p`, in their original order. */
  function Filter<T>(s: seq<T>, p: T -> bool): (r: seq<T>)
    ensures |r| <= |s|
    ensures forall i :: 0 <= i < |r| ==> p(r[i])
  {
    if s == [] then []
    else if p(s[0]) then [s[0]] + Filter(s[1..], p)
    else Filter(s[1..], p)
  }

  /** An element is kept exactly when it is in `s` and satisfies `p`. */
  lemma {:induction false} FilterMembership<T>(s: seq<T>, p: T -> bool, x: T)
    ensures x in Filter(s, p) <==> x in s && p(x)
  {
    if s != [] {
      FilterMembership(s[1..], p, x);
      assert s == [s[0]] + s[1..];
    }
  }

  /** Nothing is kept when no element satisfies `p`. */
  lemma {:induction false} EmptyFilter<T>(s: seq<T>, p: T -> bool)
    requires forall k :: 0 <= k < |s| ==> !p(s[k])
    ensures Filter(s, p) == []
  {
    if s != [] { EmptyFilter(s[1..], p); }
  }

  /** Filtering keeps every occurrence of a kept value and drops every
      occurrence of the others. */
  lemma {:induction false} FilterMultiplicity<T>(s: seq<T>, p: T -> bool, x: T)
    ensures multiset(Filter(s, p))[x] == if p(x) then multiset(s)[x] else 0
  {
    if s != [] {
      FilterMultiplicity(s[1..], p, x);
      assert s == [s[0]] + s[1..];
      assert multiset(s) == multiset{s[0]} + multiset(s[1..]);
    }
  }

  /** Filtering distributes over concatenation, so it preserves order. */
  lemma {:induction false} FilterAppend<T>(a: seq<T>, b: seq<T>, p: T -> bool)
    ensures Filter(a + b, p) == Filter(a, p) + Filter(b, p)
  {
    if a == [] {
      assert a + b == b;
    } else {
      assert (a + b)[0] == a[0];
      assert (a + b)[1..] == a[1..] + b;
      FilterAppend(a[1..], b, p);
    }
  }

  /** `findMany({ where: { <column>: v } })`: the rows whose `key` is `v`,
      in table order, each exactly as often as it occurs in `s`. */
  function Where<T(!new)>(s: seq<T>, key: T -> int, v: int): (r: seq<T>)
    ensures forall x :: x in r <==> x in s && key(x) == v
    ensures forall x :: multiset(r)[x] == if key(x) == v then multiset(s)[x] else 0
    ensures forall i :: 0 <= i < |r| ==> key(r[i]) == v
  {
    var p := (x: T) => key(x) == v;
    assert forall x :: x in Filter(s, p) <==> x in s && key(x) == v by {
      forall x ensures x in Filter(s, p) <==> x in s && key(x) == v { FilterMembership(s, p, x); }
    }
    assert forall x :: multiset(Filter(s, p))[x] == if key(x) == v then multiset(s)[x] else 0 by {
      forall x ensures multiset(Filter(s, p))[x] == if key(x) == v then multiset(s)[x] else 0 {
        FilterMultiplicity(s, p, x);
      }
    }
    Filter(s, p)
  }

  /** `Where` unfolds like `Filter`, one row at a time. */
  lemma WhereUnfold<T(!new)>(s: seq<T>, key: T -> int, v: int)
    requires s != []
    ensures Where(s, key, v) == if key(s[0]) == v then [s[0]] + Where(s[1..], key, v)
                                else Where(s[1..], key, v)
  {
  }

  /** `Where` distributes over concatenation: rows keep their table order. */
  lemma WhereAppend<T(!new)>(a: seq<T>, b: seq<T>, key: T -> int, v: int)
    ensures Where(a + b, key, v) == Where(a, key, v) + Where(b, key, v)
  {
    FilterAppend(a, b, (x: T) => key(x) == v);
  }

  /** Filtering keeps a unique key unique. */
  lemma {:induction false} FilterKeepsUnique<T, K>(s: seq<T>, p: T -> bool, key: T -> K)
    requires KeysUnique(s, key)
    ensures KeysUnique(Filter(s, p), key)
  {
    if s != [] {
      var t := s[1..];
      assert KeysUnique(t, key) by {
        forall a, b | 0 <= a < b < |t| ensures key(t[a]) != key(t[b]) {
          assert t[a] == s[a + 1] && t[b] == s[b + 1];
        }
      }
      FilterKeepsUnique(t, p, key);
      if p(s[0]) {
        var f := Filter(t, p);
        forall b | 0 <= b < |f| ensures key(f[b]) != key(s[0]) {
          FilterMembership(t, p, f[b]);
          var c :| 0 <= c < |t| && t[c] == f[b];
          assert s[c + 1] == f[b];
        }
        var g := [s[0]] + f;
        forall a, b | 0 <= a < b < |g| ensures key(g[a]) != key(g[b]) {
          assert g[b] == f[b - 1];
          if a > 0 { assert g[a] == f[a - 1]; }
        }
      }
    }
  }

  lemma WhereKeepsUnique<T(!new), K>(s: seq<T>, key: T -> int, v: int, unique: T -> K)
    requires KeysUnique(s, unique)
    ensures KeysUnique(Where(s, key, v), unique)
  {
    FilterKeepsUnique(s, (x: T) => key(x) == v, unique);
  }

  /** `s.reduce((sum, x) => sum + f(x), 0)`. */
  function Sum<T>(s: seq<T>, f: T -> int): int
  {
    if s == [] then 0 else Sum(s[..|s| - 1], f) + f(s[|s| - 1])
  }

  lemma {:induction false} SumAppend<T>(a: seq<T>, b: seq<T>, f: T -> int)
    ensures Sum(a + b, f) == Sum(a, f) + Sum(b, f)
  {
    if b == [] {
      assert a + b == a;
    } else {
      var c := a + b;
      assert c[..|c| - 1] == a + b[..|b| - 1];
      assert c[|c| - 1] == b[|b| - 1];
      SumAppend(a, b[..|b| - 1], f);
    }
  }

  lemma SumSingle<T>(x: T, f: T -> int)
    ensures Sum([x], f) == f(x)
  {
    assert [x][..0] == [];
  }

  /** Dropping the elements on which a non-negative `f` is zero does not
      change the sum: `p` must hold exactly where `f` is positive. */
  lemma {:induction false} SumOverPositive<T>(s: seq<T>, p: T -> bool, f: T -> int)
    requires forall i :: 0 <= i < |s| ==> f(s[i]) >= 0
    requires forall i :: 0 <= i < |s| ==> (p(s[i]) <==> f(s[i]) > 0)
    ensures Sum(Filter(s, p), f) == Sum(s, f)
  {
    if s != [] {
      SumOverPositive(s[1..], p, f);
      assert s == [s[0]] + s[1..];
      SumAppend([s[0]], s[1..], f);
      SumSingle(s[0], f);
      if p(s[0]) {
        SumAppend([s[0]], Filter(s[1..], p), f);
      }
    }
  }

  /** A sum of non-negative terms is non-negative. */
  lemma {:induction false} SumNonNegative<T>(s: seq<T>, f: T -> int)
    requires forall i :: 0 <= i < |s| ==> f(s[i]) >= 0
    ensures Sum(s, f) >= 0
    ensures Sum(s, f) == 0 ==> forall i :: 0 <= i < |s| ==> f(s[i]) == 0
  {
    if s != [] {
      SumNonNegative(s[..|s| - 1], f);
      assert forall i :: 0 <= i < |s| - 1 ==> s[..|s| - 1][i] == s[i];
    }
  }

  /** The first position whose element satisfies `p` (a `findUnique` or
      `findFirst` over a table held in insertion order). */
  function IndexWhere<T>(s: seq<T>, p: T -> bool): (r: Option<nat>)
    ensures r.Some? ==> r.value < |s| && p(s[r.value])
    ensures r.Some? ==> forall j :: 0 <= j < r.value ==> !p(s[j])
    ensures r.None? ==> forall j :: 0 <= j < |s| ==> !p(s[j])
  {
    if s == [] then None
    else if p(s[0]) then Some(0)
    else match IndexWhere(s[1..], p)
      case None => None
      case Some(k) => Some(k + 1)
  }

  /** The first element satisfying `p`, as the row `findUnique` or
      `findFirst` returns. */
  function FindWhere<T(!new)>(s: seq<T>, p: T -> bool): (r: Option<T>)
    ensures r.Some? ==> r.value in s && p(r.value)
    ensures r.None? ==> forall x :: x in s ==> !p(x)
  {
    match IndexWhere(s, p)
    case None => None
    case Some(i) => Some(s[i])
  }

  /** No two rows share a key (a primary key or a unique column). */
  ghost predicate KeysUnique<T, K>(s: seq<T>, key: T -> K)
  {
    forall i, j :: 0 <= i < j < |s| ==> key(s[i]) != key(s[j])
  }

  /** Every key is below the next value an autoincrement counter hands out. */
  ghost predicate KeysBelow<T>(s: seq<T>, key: T -> int, bound: int)
  {
    forall i :: 0 <= i < |s| ==> key(s[i]) < bound
  }

  /** Appending a row whose key is not yet present keeps keys unique. */
  lemma AppendNewKey<T, K>(s: seq<T>, key: T -> K, x: T)
    requires KeysUnique(s, key)
    requires forall i :: 0 <= i < |s| ==> key(s[i]) != key(x)
    ensures KeysUnique(s + [x], key)
  {
    var t := s + [x];
    forall i, j | 0 <= i < j < |t| ensures key(t[i]) != key(t[j]) {
      assert t[i] == s[i];
      if j < |s| { assert t[j] == s[j]; } else { assert t[j] == x; }
    }
  }

  /** Appending the row that receives the counter's next value keeps keys
      unique and below the advanced counter. */
  lemma AppendFreshKey<T>(s: seq<T>, key: T -> int, bound: int, x: T)
    requires KeysUnique(s, key) && KeysBelow(s, key, bound)
    requires key(x) == bound
    ensures KeysUnique(s + [x], key) && KeysBelow(s + [x], key, bound + 1)
  {
    AppendNewKey(s, key, x);
    var t := s + [x];
    forall i | 0 <= i < |t| ensures key(t[i]) < bound + 1 {
      if i < |s| { assert t[i] == s[i]; }
    }
  }

  /** Removing one row keeps the remaining keys unique and bounded. */
  lemma RemoveAtKeys<T, K>(s: seq<T>, key: T -> K, i: nat)
    requires i < |s| && KeysUnique(s, key)
    ensures KeysUnique(s[..i] + s[i + 1..], key)
  {
    var t := s[..i] + s[i + 1..];
    forall a, b | 0 <= a < b < |t| ensures key(t[a]) != key(t[b]) {
      var a' := if a < i then a else a + 1;
      var b' := if b < i then b else b + 1;
      assert t[a] == s[a'] && t[b] == s[b'];
    }
  }

  lemma RemoveAtBelow<T>(s: seq<T>, key: T -> int, bound: int, i: nat)
    requires i < |s| && KeysBelow(s, key, bound)
    ensures KeysBelow(s[..i] + s[i + 1..], key, bound)
  {
    var t := s[..i] + s[i + 1..];
    forall a | 0 <= a < |t| ensures key(t[a]) < bound {
      assert t[a] == s[if a < i then a else a + 1];
    }
  }

  /** With unique keys, removing the row at `i` removes exactly the rows
      carrying its key. */
  lemma RemoveAtExact<T>(s: seq<T>, key: T -> int, i: nat)
    requires i < |s| && KeysUnique(s, key)
    ensures forall x :: x in s[..i] + s[i + 1..] <==> x in s && key(x) != key(s[i])
  {
    var t := s[..i] + s[i + 1..];
    forall x ensures x in t <==> x in s && key(x) != key(s[i]) {
      if x in t {
        var a :| 0 <= a < |t| && t[a] == x;
        var a' := if a < i then a else a + 1;
        assert t[a] == s[a'] && key(s[a']) != key(s[i]);
      }
      if x in s && key(x) != key(s[i]) {
        var a :| 0 <= a < |s| && s[a] == x;
        if a < i { assert t[a] == x; } else { assert t[a - 1] == x; }
      }
    }
  }

  /** Replacing a row by one with the same key keeps keys unique and bounded. */
  lemma UpdateSameKey<T, K>(s: seq<T>, key: T -> K, i: nat, x: T)
    requires i < |s| && KeysUnique(s, key) && key(x) == key(s[i])
    ensures KeysUnique(s[i := x], key)
  {
    var t := s[i := x];
    assert forall a :: 0 <= a < |t| ==> key(t[a]) == key(s[a]);
  }
}
