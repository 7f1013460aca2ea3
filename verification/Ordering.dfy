/** ORDER BY: ascending enumerations of finite sets, keyset paging over them,
    and the orders the statements use. */
module Ordering {
  import opened Results
  import opened Tables

  ghost predicate StrictTotal<T(!new)>(less: (T, T) -> bool) {
    && (forall x :: !less(x, x))
    && (forall x, y :: x == y || less(x, y) || less(y, x))
    && (forall x, y, z :: less(x, y) && less(y, z) ==> less(x, z))
  }

  ghost predicate Increasing<T>(s: seq<T>, less: (T, T) -> bool) {
    forall i, j :: 0 <= i < j < |s| ==> less(s[i], s[j])
  }

  ghost predicate IsLeast<T>(m: T, s: set<T>, less: (T, T) -> bool) {
    m in s && forall x :: x in s ==> x == m || less(m, x)
  }

  lemma {:induction false} LeastExists<T(!new)>(s: set<T>, less: (T, T) -> bool)
    requires StrictTotal(less) && s != {}
    ensures exists m :: IsLeast(m, s, less)
    decreases s
  {
    var x :| x in s;
    if s == {x} {
      assert IsLeast(x, s, less);
    } else {
      assert forall y :: y in s ==> y == x || y in s - {x};
      LeastExists(s - {x}, less);
      var m' :| IsLeast(m', s - {x}, less);
      assert IsLeast(if less(x, m') then x else m', s, less);
    }
  }

  /** The set's elements in ascending order. */
  ghost function Sorted<T(!new)>(s: set<T>, less: (T, T) -> bool): (q: seq<T>)
    requires StrictTotal(less)
    ensures forall x :: x in q <==> x in s
    ensures Increasing(q, less)
    decreases s
  {
    if s == {} then []
    else
      LeastExists(s, less);
      var m: T :| IsLeast(m, s, less);
      [m] + Sorted(s - {m}, less)
  }

  lemma SortedCounts<T(!new)>(s: set<T>, less: (T, T) -> bool)
    requires StrictTotal(less)
    ensures |Sorted(s, less)| == |s|
    decreases s
  {
  }

  /** The rows after a cursor: all of them before the first page. */
  ghost function After<T>(q: seq<T>, cursor: Option<T>, less: (T, T) -> bool): seq<T> {
    if q == [] then []
    else if cursor.None? || less(cursor.value, q[0]) then [q[0]] + After(q[1..], cursor, less)
    else After(q[1..], cursor, less)
  }

  /** One page: `WHERE key > cursor ORDER BY key LIMIT limit`. */
  ghost function PageAfter<T>(q: seq<T>, cursor: Option<T>, limit: nat, less: (T, T) -> bool): seq<T> {
    var rest := After(q, cursor, less);
    if |rest| <= limit then rest else rest[..limit]
  }

  lemma {:induction false} AfterNone<T>(q: seq<T>, less: (T, T) -> bool)
    ensures After(q, None, less) == q
  {
    if q != [] { AfterNone(q[1..], less); }
  }

  /** On an ascending enumeration, the rows after its p-th element are its tail. */
  lemma {:induction false} AfterElement<T(!new)>(q: seq<T>, p: nat, less: (T, T) -> bool)
    requires StrictTotal(less) && Increasing(q, less) && p < |q|
    ensures After(q, Some(q[p]), less) == q[p + 1..]
    decreases |q|
  {
    if p == 0 {
      AllAfter(q[1..], q[0], less);
    } else {
      assert less(q[0], q[p]) && q[1..][p - 1] == q[p];
      AfterElement(q[1..], p - 1, less);
    }
  }

  lemma {:induction false} AllAfter<T>(q: seq<T>, c: T, less: (T, T) -> bool)
    requires forall i :: 0 <= i < |q| ==> less(c, q[i])
    ensures After(q, Some(c), less) == q
    decreases |q|
  {
    if q != [] {
      assert forall i :: 0 <= i < |q[1..]| ==> q[1..][i] == q[i + 1];
      AllAfter(q[1..], c, less);
    }
  }

  /** The cursor that stands after the first p rows. */
  ghost predicate CursorAt<T>(q: seq<T>, p: nat, cursor: Option<T>) {
    p <= |q| && cursor == if p == 0 then None else Some(q[p - 1])
  }

  /** Paging from the p-th row gives the next rows, as many as fit. */
  lemma NextPage<T(!new)>(q: seq<T>, p: nat, cursor: Option<T>, limit: nat, less: (T, T) -> bool)
    requires StrictTotal(less) && Increasing(q, less) && CursorAt(q, p, cursor)
    ensures PageAfter(q, cursor, limit, less) == q[p..if |q| - p <= limit then |q| else p + limit]
  {
    if p == 0 { AfterNone(q, less); } else { AfterElement(q, p - 1, less); }
  }

  // ------------------------------------------------------------------- orders

  predicate StringLess(a: string, b: string) {
    b != [] && (a == [] || a[0] < b[0] || (a[0] == b[0] && StringLess(a[1..], b[1..])))
  }

  predicate KeyLess(a: Key, b: Key) {
    StringLess(a.stream, b.stream) || (a.stream == b.stream && a.id < b.id)
  }

  /** `(stream, aggregate_id, revision)` order. */
  predicate RowKeyLess(a: RowKey, b: RowKey) {
    KeyLess(a.key, b.key) || (a.key == b.key && a.rev < b.rev)
  }

  predicate IdLess(a: nat, b: nat) {
    a < b
  }

  lemma {:induction false} StringTotal(a: string, b: string)
    ensures a == b || StringLess(a, b) || StringLess(b, a)
    ensures !StringLess(a, a)
    decreases |a|
  {
    if a != [] {
      StringTotal(a[1..], if b == [] then [] else b[1..]);
      if b != [] && a[0] == b[0] && a[1..] == b[1..] { assert a == [a[0]] + a[1..] && b == [b[0]] + b[1..]; }
    }
  }

  lemma {:induction false} StringTransitive(a: string, b: string, c: string)
    requires StringLess(a, b) && StringLess(b, c)
    ensures StringLess(a, c)
    decreases |a|
  {
    if a != [] && a[0] == b[0] == c[0] { StringTransitive(a[1..], b[1..], c[1..]); }
  }

  lemma KeyOrder()
    ensures StrictTotal(KeyLess)
  {
    forall x: Key ensures !KeyLess(x, x) { StringTotal(x.stream, x.stream); }
    forall x: Key, y: Key ensures x == y || KeyLess(x, y) || KeyLess(y, x) { StringTotal(x.stream, y.stream); }
    forall x: Key, y: Key, z: Key | KeyLess(x, y) && KeyLess(y, z) ensures KeyLess(x, z) {
      if StringLess(x.stream, y.stream) && StringLess(y.stream, z.stream) {
        StringTransitive(x.stream, y.stream, z.stream);
      }
    }
  }

  lemma RowKeyOrder()
    ensures StrictTotal(RowKeyLess)
  {
    KeyOrder();
  }

  lemma IdOrder()
    ensures StrictTotal(IdLess)
  {
  }

  function Beyond<T(==)>(s: set<T>, cursor: Option<T>, less: (T, T) -> bool): set<T> {
    set x | x in s && (cursor.None? || less(cursor.value, x))
  }

  /** SELECT ... WHERE key > cursor ORDER BY key LIMIT limit, over a finite set. */
  method SelectPage<T(==,!new)>(s: set<T>, cursor: Option<T>, limit: nat, less: (T, T) -> bool) returns (page: seq<T>)
    requires StrictTotal(less)
    ensures page == PageAfter(Sorted(s, less), cursor, limit, less)
  {
    hide StrictTotal, IsLeast, Increasing, Sorted, After, Beyond;
    var rest := Beyond(s, cursor, less);
    ghost var all := Sorted(rest, less);
    AfterIsSorted(s, cursor, less);
    page := [];
    while rest != {} && |page| < limit
      invariant |page| <= |all| && |page| <= limit
      invariant page == all[..|page|]
      invariant Sorted(rest, less) == all[|page|..]
      decreases rest
    {
      var m := PickLeast(rest, less);
      TakeLeast(all, |page|, rest, m, less);
      page := page + [m];
      rest := rest - {m};
    }
    if rest == {} { EmptySorted(less); }
  }

  method PickLeast<T(==,!new)>(s: set<T>, less: (T, T) -> bool) returns (m: T)
    requires StrictTotal(less) && s != {}
    ensures IsLeast(m, s, less)
  {
    LeastExists(s, less);
    assert exists m :: m in s && forall x :: x in s ==> x == m || less(m, x) by {
      var least :| IsLeast(least, s, less);
    }
    m :| m in s && forall x :: x in s ==> x == m || less(m, x);
  }

  lemma EmptySorted<T(!new)>(less: (T, T) -> bool)
    requires StrictTotal(less)
    ensures Sorted({}, less) == []
  {
  }

  lemma TakeLeast<T(!new)>(all: seq<T>, k: nat, rest: set<T>, m: T, less: (T, T) -> bool)
    requires StrictTotal(less) && IsLeast(m, rest, less) && k <= |all| && Sorted(rest, less) == all[k..]
    ensures k < |all| && all[k] == m && Sorted(rest - {m}, less) == all[k + 1..]
  {
    hide StrictTotal, IsLeast;
    LeastIsFirst(rest, m, less);
    assert all[k..][1..] == all[k + 1..];
  }

  lemma LeastIsFirst<T(!new)>(s: set<T>, m: T, less: (T, T) -> bool)
    requires StrictTotal(less) && IsLeast(m, s, less)
    ensures Sorted(s, less) == [m] + Sorted(s - {m}, less)
  {
  }

  /** The rows after a cursor are the enumeration of the keys after it. */
  lemma {:induction false} AfterIsSorted<T(!new)>(s: set<T>, cursor: Option<T>, less: (T, T) -> bool)
    requires StrictTotal(less)
    ensures After(Sorted(s, less), cursor, less)
      == Sorted(Beyond(s, cursor, less), less)
    decreases s
  {
    var rest := Beyond(s, cursor, less);
    if s != {} {
      var m := Sorted(s, less)[0];
      assert IsLeast(m, s, less) by {
        forall x | x in s ensures x == m || less(m, x) {
          var i :| 0 <= i < |Sorted(s, less)| && Sorted(s, less)[i] == x;
        }
      }
      LeastIsFirst(s, m, less);
      AfterIsSorted(s - {m}, cursor, less);
      var rest' := Beyond(s - {m}, cursor, less);
      if m in rest {
        assert rest' == rest - {m};
        LeastIsFirst(rest, m, less);
      } else {
        assert rest' == rest;
      }
    } else {
      assert rest == {};
    }
  }
}
