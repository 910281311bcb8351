/** Shared vocabulary of the academy backend model: optional values, primary
    keys, fixed-point money columns, and the sequence operations that stand in
    for ORM querysets (filter, count, order_by). */
module Common {

  datatype Option<T> = None | Some(value: T)

  /** The outcome of a write the database may refuse. */
  datatype Result<T, E> = Ok(value: T) | Err(error: E)

  /** Primary keys of every table are auto-incremented non-negative integers. */
  type Id = nat

  /** A user row, as far as the core reads it: its key, the `is_staff` flag and
      the result of `get_full_name()`. */
  datatype User = User(id: Id, isStaff: bool, fullName: string)

  // ---------------------------------------------------------------------------
  // Money: DecimalField(max_digits=10, decimal_places=2) holds integer cents
  // with at most ten decimal digits.

  const MoneyBound: int := 10_000_000_000

  /** The value fits a numeric(10,2) column. */
  predicate FitsMoney(cents: int) {
    -MoneyBound < cents < MoneyBound
  }

  /** PostgreSQL's `integer`, the column type of a PositiveIntegerField. */
  const IntMax: int := 2147483647

  /** The value fits a PositiveIntegerField: an `integer` column with a
      `CHECK (value >= 0)` constraint. */
  predicate FitsPositiveInt(n: int) {
    0 <= n <= IntMax
  }

  // ---------------------------------------------------------------------------
  // Querysets as sequences.

  /** `queryset.filter(p)`: the rows satisfying `p`, in their original order. */
  function Filter<T(!new)>(s: seq<T>, p: T -> bool): (r: seq<T>)
    ensures |r| <= |s|
    ensures forall x :: x in r <==> x in s && p(x)
    ensures forall i :: 0 <= i < |r| ==> p(r[i])
  {
    if s == [] then []
    else if p(s[0]) then [s[0]] + Filter(s[1..], p)
    else Filter(s[1..], p)
  }

  /** `queryset.filter(p).count()`. */
  function Count<T(!new)>(s: seq<T>, p: T -> bool): nat
  {
    |Filter(s, p)|
  }

  /** The rows with `f` applied to each, in the same order. */
  function Map<T, U>(s: seq<T>, f: T -> U): (r: seq<U>)
    ensures |r| == |s|
    ensures forall i :: 0 <= i < |s| ==> r[i] == f(s[i])
  {
    if s == [] then [] else [f(s[0])] + Map(s[1..], f)
  }

  /** A count is zero exactly when no row satisfies the predicate. */
  lemma CountZero<T(!new)>(s: seq<T>, p: T -> bool)
    ensures Count(s, p) == 0 <==> forall i :: 0 <= i < |s| ==> !p(s[i])
  {
    var r := Filter(s, p);
    assert r != [] ==> r[0] in s;
    forall i | 0 <= i < |s| && p(s[i]) ensures r != [] {
      assert s[i] in r;
    }
  }

  /** Filtering after an append filters the old rows, then the new one. */
  lemma {:induction false} FilterAppend<T(!new)>(s: seq<T>, x: T, p: T -> bool)
    ensures Filter(s + [x], p) == Filter(s, p) + (if p(x) then [x] else [])
  {
    if s != [] {
      FilterAppend(s[1..], x, p);
      assert (s + [x])[1..] == s[1..] + [x];
    }
  }

  /** Applying an update that does not affect `p` does not change the count. */
  lemma {:induction false} CountMapped<T(!new)>(s: seq<T>, f: T -> T, p: T -> bool)
    requires forall x :: p(f(x)) == p(x)
    ensures Count(Map(s, f), p) == Count(s, p)
  {
    if s != [] {
      CountMapped(s[1..], f, p);
      assert Map(s, f)[1..] == Map(s[1..], f);
    }
  }

  /** `r` is obtained from `s` by deleting elements, keeping the order of the rest. */
  predicate SubseqOf<T(==)>(r: seq<T>, s: seq<T>)
    decreases |s|
  {
    if r == [] then true
    else if s == [] then false
    else if r[0] == s[0] then SubseqOf(r[1..], s[1..])
    else SubseqOf(r, s[1..])
  }

  lemma {:induction false} SubseqDropHead<T>(r: seq<T>, s: seq<T>)
    requires r != [] && SubseqOf(r, s)
    ensures SubseqOf(r[1..], s)
    decreases |s|, 0
  {
    if r[0] == s[0] {
      SubseqSkip(r[1..], s[1..], s[0]);
    } else {
      SubseqDropHead(r, s[1..]);
      SubseqSkip(r[1..], s[1..], s[0]);
    }
  }

  lemma {:induction false} SubseqSkip<T>(r: seq<T>, s: seq<T>, x: T)
    requires SubseqOf(r, s)
    ensures SubseqOf(r, [x] + s)
    decreases |s|, 1
  {
    var xs := [x] + s;
    assert xs[1..] == s;
    if r != [] && r[0] == x {
      SubseqDropHead(r, s);
    }
  }

  /** Filtering keeps the relative order of the surviving rows. */
  lemma {:induction false} FilterIsSubseq<T(!new)>(s: seq<T>, p: T -> bool)
    ensures SubseqOf(Filter(s, p), s)
  {
    if s != [] {
      FilterIsSubseq(s[1..], p);
      if !p(s[0]) {
        SubseqSkip(Filter(s[1..], p), s[1..], s[0]);
      } else {
        assert Filter(s, p)[1..] == Filter(s[1..], p);
      }
    }
  }

  /** Two filters applied one after the other select the same rows, in the
      same order, as one filter on the conjunction. */
  lemma {:induction false} FilterFuse<T(!new)>(s: seq<T>, p: T -> bool, q: T -> bool, pq: T -> bool)
    requires forall x :: pq(x) == (p(x) && q(x))
    ensures Filter(Filter(s, p), q) == Filter(s, pq)
  {
    if s != [] {
      FilterFuse(s[1..], p, q, pq);
      if p(s[0]) {
        assert Filter(s, p) == [s[0]] + Filter(s[1..], p);
        assert ([s[0]] + Filter(s[1..], p))[1..] == Filter(s[1..], p);
      }
    }
  }

  /** Filters on predicates that agree everywhere select the same rows. */
  lemma {:induction false} FilterExt<T(!new)>(s: seq<T>, p: T -> bool, q: T -> bool)
    requires forall x :: p(x) == q(x)
    ensures Filter(s, p) == Filter(s, q)
  {
    if s != [] {
      FilterExt(s[1..], p, q);
    }
  }

  /** Filtering on an always-true predicate changes nothing. */
  lemma {:induction false} FilterAll<T(!new)>(s: seq<T>, p: T -> bool)
    requires forall x :: p(x)
    ensures Filter(s, p) == s
  {
    if s != [] {
      FilterAll(s[1..], p);
    }
  }

  /** Every row is counted by exactly one of a predicate and its negation. */
  lemma {:induction false} CountComplement<T(!new)>(s: seq<T>, p: T -> bool, q: T -> bool)
    requires forall x :: q(x) == !p(x)
    ensures Count(s, p) + Count(s, q) == |s|
  {
    if s != [] {
      CountComplement(s[1..], p, q);
    }
  }

  /** Replacing one row changes a count by what the old and new row contribute. */
  lemma {:induction false} CountUpdate<T(!new)>(s: seq<T>, i: nat, y: T, p: T -> bool)
    requires i < |s|
    ensures Count(s[i := y], p) == Count(s, p) - (if p(s[i]) then 1 else 0) + (if p(y) then 1 else 0)
  {
    var t := s[i := y];
    if i == 0 {
      assert t[1..] == s[1..];
    } else {
      assert t[1..] == s[1..][i - 1 := y];
      CountUpdate(s[1..], i - 1, y, p);
    }
  }

  // ---------------------------------------------------------------------------
  // order_by: a stable insertion sort by an integer key.

  predicate Ascending<T>(s: seq<T>, key: T -> int) {
    forall i, j :: 0 <= i < j < |s| ==> key(s[i]) <= key(s[j])
  }

  predicate StrictlyAscending<T>(s: seq<T>, key: T -> int) {
    forall i, j :: 0 <= i < j < |s| ==> key(s[i]) < key(s[j])
  }

  /** Appending a key above every stored key keeps the keys strictly ascending. */
  lemma AppendKeepsStrict<T>(s: seq<T>, x: T, key: T -> int)
    requires StrictlyAscending(s, key)
    requires forall i :: 0 <= i < |s| ==> key(s[i]) < key(x)
    ensures StrictlyAscending(s + [x], key)
  {
  }

  function InsertSorted<T>(x: T, s: seq<T>, key: T -> int): (r: seq<T>)
    requires Ascending(s, key)
    ensures multiset(r) == multiset(s) + multiset{x}
    ensures Ascending(r, key)
  {
    if s == [] || key(x) <= key(s[0]) then
      ConsAscending(x, s, key);
      [x] + s
    else
      var rest := InsertSorted(x, s[1..], key);
      assert s == [s[0]] + s[1..];
      forall j | 0 <= j < |rest| ensures key(s[0]) <= key(rest[j]) {
        assert rest[j] in multiset(rest);
        if rest[j] != x {
          assert rest[j] in s[1..];
        }
      }
      ConsAscending(s[0], rest, key);
      [s[0]] + rest
  }

  /** A head whose key is at most every key of an ascending tail keeps the
      whole sequence ascending. */
  lemma ConsAscending<T>(h: T, t: seq<T>, key: T -> int)
    requires Ascending(t, key)
    requires forall j :: 0 <= j < |t| ==> key(h) <= key(t[j])
    ensures Ascending([h] + t, key)
  {
    var r := [h] + t;
    forall i, j | 0 <= i < j < |r| ensures key(r[i]) <= key(r[j]) {
      assert r[j] == t[j - 1];
      if i > 0 {
        assert r[i] == t[i - 1];
      }
    }
  }

  /** `order_by(key)`: the same rows, arranged by ascending key. */
  function SortBy<T>(s: seq<T>, key: T -> int): (r: seq<T>)
    ensures multiset(r) == multiset(s)
    ensures Ascending(r, key)
  {
    if s == [] then []
    else
      assert s == [s[0]] + s[1..];
      InsertSorted(s[0], SortBy(s[1..], key), key)
  }

  /** A filter of rows with strictly ascending keys still has strictly ascending keys. */
  lemma {:induction false} FilterKeepsStrict<T(!new)>(s: seq<T>, p: T -> bool, key: T -> int)
    requires StrictlyAscending(s, key)
    ensures StrictlyAscending(Filter(s, p), key)
  {
    if s != [] {
      FilterKeepsStrict(s[1..], p, key);
      if p(s[0]) {
        var r := Filter(s, p);
        var tail := Filter(s[1..], p);
        assert r == [s[0]] + tail;
        forall j | 0 <= j < |tail| ensures key(s[0]) < key(tail[j]) {
          assert tail[j] in s[1..];
        }
      }
    }
  }

  // ---------------------------------------------------------------------------
  // Text: ASCII case folding and substring search (`icontains`).

  function LowerChar(c: char): char {
    if 'A' <= c <= 'Z' then (c as int + 32) as char else c
  }

  function UpperChar(c: char): char {
    if 'a' <= c <= 'z' then (c as int - 32) as char else c
  }

  function Lower(s: string): (r: string)
    ensures |r| == |s|
  {
    seq(|s|, i requires 0 <= i < |s| => LowerChar(s[i]))
  }

  function Upper(s: string): (r: string)
    ensures |r| == |s|
  {
    seq(|s|, i requires 0 <= i < |s| => UpperChar(s[i]))
  }

  predicate IsPrefix(t: string, s: string) {
    |t| <= |s| && s[..|t|] == t
  }

  /** `t in s` for Python strings. */
  predicate Contains(s: string, t: string)
    decreases |s|
  {
    IsPrefix(t, s) || (|s| > 0 && Contains(s[1..], t))
  }

  /** `icontains`: substring test after ASCII lower-casing both sides. */
  predicate IContains(s: string, t: string) {
    Contains(Lower(s), Lower(t))
  }

  /** Text built around a value contains that value. */
  lemma {:induction false} ContainsMiddle(a: string, t: string, b: string)
    ensures Contains(a + t + b, t)
    decreases |a|
  {
    if a == [] {
      assert (a + t + b)[..|t|] == t;
    } else {
      ContainsMiddle(a[1..], t, b);
      assert (a + t + b)[1..] == a[1..] + t + b;
    }
  }

  /** The match does not depend on the case of the search text. */
  lemma {:induction false} IContainsCaseBlind(s: string, t: string)
    ensures IContains(s, Upper(t)) == IContains(s, t)
  {
    assert Lower(Upper(t)) == Lower(t) by {
      forall i | 0 <= i < |t| ensures Lower(Upper(t))[i] == Lower(t)[i] {
        var c := t[i];
        assert Upper(t)[i] == UpperChar(c);
      }
    }
  }
}
