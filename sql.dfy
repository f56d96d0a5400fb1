/**
 * Query text as the core assembles it, and the meaning of the SQL clauses the
 * core relies on. The clause semantics below (WHERE, ORDER BY, LIMIT/OFFSET)
 * are ASSUMPTIONS ABOUT POSTGRESQL, stated so that the model can say what a
 * listing returns; they are not code of the system.
 */
module Sql {
  import opened Wrappers
  import opened JsValues
  import opened Errors

  // ---------------------------------------------------------------- query text

  /** A bound parameter: an integer-typed value or a text value. */
  datatype SqlValue = IntParam(value: IntText) | TextParam(text: string)

  /**
   * One piece of query text: a literal written in the source, a token taken
   * from the caller and interpolated into the text, or a positional `$k`.
   */
  datatype Frag = Lit(text: string) | Ident(token: string) | Placeholder(index: nat)

  datatype SqlQuery = SqlQuery(text: seq<Frag>, params: seq<SqlValue>)

  /** The placeholders used are exactly `$1`..`$n` for the `n` bound parameters. */
  predicate WellNumbered(q: SqlQuery)
  {
    && (forall i :: 0 <= i < |q.text| && q.text[i].Placeholder? ==> 1 <= q.text[i].index <= |q.params|)
    && (forall k :: 1 <= k <= |q.params| ==> Placeholder(k) in q.text)
  }

  /** Every caller-supplied token that reaches the query text is one of `allowed`. */
  predicate TokensWithin(q: SqlQuery, allowed: set<string>)
  {
    forall i :: 0 <= i < |q.text| && q.text[i].Ident? ==> q.text[i].token in allowed
  }

  /** The caller-supplied tokens of a query text, in order. */
  function Idents(text: seq<Frag>): seq<string>
  {
    if text == [] then [] else (if text[0].Ident? then [text[0].token] else []) + Idents(text[1..])
  }

  lemma {:induction false} IdentsAppend(a: seq<Frag>, b: seq<Frag>)
    ensures Idents(a + b) == Idents(a) + Idents(b)
  {
    if a == [] {
      assert a + b == b;
    } else {
      assert (a + b)[1..] == a[1..] + b;
      IdentsAppend(a[1..], b);
    }
  }

  lemma {:induction false} IdentsNone(text: seq<Frag>)
    requires forall i :: 0 <= i < |text| ==> !text[i].Ident?
    ensures Idents(text) == []
  {
    if text != [] {
      IdentsNone(text[1..]);
    }
  }

  /** Every interpolated token of a text is one of its `Idents`. */
  lemma {:induction false} IdentsCoverTokens(text: seq<Frag>)
    ensures forall i :: 0 <= i < |text| && text[i].Ident? ==> text[i].token in Idents(text)
  {
    if text != [] {
      IdentsCoverTokens(text[1..]);
      forall i | 1 <= i < |text| && text[i].Ident? ensures text[i].token in Idents(text) {
        assert text[i] == text[1..][i - 1];
      }
    }
  }

  /** A query whose interpolated tokens are all allowed keeps within the allow-list. */
  lemma TokensWithinByIdents(q: SqlQuery, allowed: set<string>)
    requires forall t :: t in Idents(q.text) ==> t in allowed
    ensures TokensWithin(q, allowed)
  {
    IdentsCoverTokens(q.text);
  }

  /** The placeholder written right after the literal `before` is bound to `v`. */
  predicate Binds(q: SqlQuery, before: string, v: SqlValue)
  {
    exists i :: 0 <= i < |q.text| - 1 && q.text[i] == Lit(before) && q.text[i + 1].Placeholder? &&
                1 <= q.text[i + 1].index <= |q.params| && q.params[q.text[i + 1].index - 1] == v
  }

  /** The query text sent to the server. */
  function Render(text: seq<Frag>): string
  {
    if text == [] then ""
    else
      var head := match text[0]
        case Lit(s) => s
        case Ident(t) => t
        case Placeholder(k) => "$" + NatToDecimal(k);
      head + Render(text[1..])
  }

  // ------------------------------------------------------ WHERE (assumption)

  /** The rows a `WHERE` keeps, in the order the relation holds them. */
  function Where<T>(rows: seq<T>, keep: T -> bool): (r: seq<T>)
    ensures |r| <= |rows|
    ensures forall x :: x in r ==> x in rows && keep(x)
    ensures forall x :: x in rows && keep(x) ==> x in r
  {
    if rows == [] then []
    else (if keep(rows[0]) then [rows[0]] else []) + Where(rows[1..], keep)
  }

  /** A `WHERE` returns no row exactly when no row satisfies the condition. */
  lemma WhereEmpty<T>(rows: seq<T>, keep: T -> bool)
    ensures Where(rows, keep) == [] <==> forall i :: 0 <= i < |rows| ==> !keep(rows[i])
  {
    var r := Where(rows, keep);
    if r != [] {
      assert r[0] in r;
      var i :| 0 <= i < |rows| && rows[i] == r[0];
    }
    forall i | 0 <= i < |rows| && keep(rows[i]) ensures r != [] {
      assert rows[i] in rows;
    }
  }

  /** The kept rows, as a multiset, are among the rows of the relation. */
  lemma {:induction false} WhereSubMultiset<T>(rows: seq<T>, keep: T -> bool)
    ensures multiset(Where(rows, keep)) <= multiset(rows)
  {
    if rows != [] {
      WhereSubMultiset(rows[1..], keep);
      assert rows == [rows[0]] + rows[1..];
    }
  }

  /** A `WHERE` and its negation split a relation: `COUNT` adds up. */
  lemma {:induction false} WhereSplits<T>(rows: seq<T>, keep: T -> bool)
    ensures |Where(rows, keep)| + |Where(rows, x => !keep(x))| == |rows|
  {
    if rows != [] {
      WhereSplits(rows[1..], keep);
    }
  }

  /** A `WHERE` whose condition holds of every row keeps the relation as it is. */
  lemma {:induction false} WhereAll<T>(rows: seq<T>, keep: T -> bool)
    requires forall i :: 0 <= i < |rows| ==> keep(rows[i])
    ensures Where(rows, keep) == rows
  {
    if rows != [] {
      WhereAll(rows[1..], keep);
    }
  }

  /** The first row a `WHERE` keeps is the first row of the relation that satisfies it. */
  lemma {:induction false} WhereFirst<T>(rows: seq<T>, keep: T -> bool)
    requires Where(rows, keep) != []
    ensures exists k :: 0 <= k < |rows| && rows[k] == Where(rows, keep)[0] && keep(rows[k]) &&
                        forall j :: 0 <= j < k ==> !keep(rows[j])
  {
    if !keep(rows[0]) {
      WhereFirst(rows[1..], keep);
      var k :| 0 <= k < |rows[1..]| && rows[1..][k] == Where(rows[1..], keep)[0] && keep(rows[1..][k]) &&
               forall j :: 0 <= j < k ==> !keep(rows[1..][j]);
      assert rows[k + 1] == Where(rows, keep)[0];
      forall j | 0 <= j < k + 1 ensures !keep(rows[j]) {
        if j > 0 { assert rows[j] == rows[1..][j - 1]; }
      }
    } else {
      assert rows[0] == Where(rows, keep)[0];
    }
  }

  /** `WHERE` distributes over the concatenation of two relations, keeping their order. */
  lemma {:induction false} WhereConcat<T>(a: seq<T>, b: seq<T>, keep: T -> bool)
    ensures Where(a + b, keep) == Where(a, keep) + Where(b, keep)
  {
    if a == [] {
      assert a + b == b;
    } else {
      var head := if keep(a[0]) then [a[0]] else [];
      assert (a + b)[0] == a[0] && (a + b)[1..] == a[1..] + b;
      WhereConcat(a[1..], b, keep);
      calc {
        Where(a + b, keep);
        head + Where(a[1..] + b, keep);
        head + (Where(a[1..], keep) + Where(b, keep));
        (head + Where(a[1..], keep)) + Where(b, keep);
      }
    }
  }

  /** A row appended to a relation is kept at the end exactly when it satisfies the condition. */
  lemma WhereAppend<T>(rows: seq<T>, x: T, keep: T -> bool)
    ensures Where(rows + [x], keep) == Where(rows, keep) + (if keep(x) then [x] else [])
  {
    WhereConcat(rows, [x], keep);
    assert Where([x], keep) == (if keep(x) then [x] else []) + Where([x][1..], keep);
  }

  // --------------------------------------------------- ORDER BY (assumption)

  /** The value a row is ordered by: integers and timestamps, or text. */
  datatype SortKey = IntKey(i: int) | TextKey(s: string)

  /** Text order by code point (the "C" collation). */
  predicate TextLe(s: string, t: string)
  {
    if s == [] then true
    else if t == [] then false
    else if s[0] != t[0] then s[0] < t[0]
    else TextLe(s[1..], t[1..])
  }

  predicate KeyLe(a: SortKey, b: SortKey)
  {
    match (a, b)
    case (IntKey(x), IntKey(y)) => x <= y
    case (TextKey(s), TextKey(t)) => TextLe(s, t)
    case (IntKey(_), TextKey(_)) => true
    case (TextKey(_), IntKey(_)) => false
  }

  /** `a` may come before `b` under `ASC` (`desc` false) or `DESC` (`desc` true). */
  predicate InOrder(a: SortKey, b: SortKey, desc: bool)
  {
    if desc then KeyLe(b, a) else KeyLe(a, b)
  }

  lemma {:induction false} TextLeTotal(s: string, t: string)
    ensures TextLe(s, t) || TextLe(t, s)
  {
    if s != [] && t != [] && s[0] == t[0] {
      TextLeTotal(s[1..], t[1..]);
    }
  }

  lemma {:induction false} TextLeTransitive(s: string, t: string, u: string)
    requires TextLe(s, t) && TextLe(t, u)
    ensures TextLe(s, u)
  {
    if s != [] && t != [] && u != [] && s[0] == t[0] && t[0] == u[0] {
      TextLeTransitive(s[1..], t[1..], u[1..]);
    }
  }

  lemma InOrderTotal(a: SortKey, b: SortKey, desc: bool)
    ensures InOrder(a, b, desc) || InOrder(b, a, desc)
  {
    if a.TextKey? && b.TextKey? {
      TextLeTotal(a.s, b.s);
    }
  }

  lemma InOrderTransitive(a: SortKey, b: SortKey, c: SortKey, desc: bool)
    requires InOrder(a, b, desc) && InOrder(b, c, desc)
    ensures InOrder(a, c, desc)
  {
    if a.TextKey? && b.TextKey? && c.TextKey? {
      if desc {
        TextLeTransitive(c.s, b.s, a.s);
      } else {
        TextLeTransitive(a.s, b.s, c.s);
      }
    }
  }

  predicate SortedBy<T>(rows: seq<T>, key: T -> SortKey, desc: bool)
  {
    forall i, j :: 0 <= i < j < |rows| ==> InOrder(key(rows[i]), key(rows[j]), desc)
  }

  function Insert<T>(x: T, rows: seq<T>, key: T -> SortKey, desc: bool): seq<T>
  {
    if rows == [] then [x]
    else if InOrder(key(x), key(rows[0]), desc) then [x] + rows
    else [rows[0]] + Insert(x, rows[1..], key, desc)
  }

  /**
   * `ORDER BY key ASC|DESC`. Which of several tied rows comes first is not
   * something PostgreSQL promises; this definition keeps one such order, and
   * the lemmas below state only what every admissible order shares.
   */
  function OrderBy<T>(rows: seq<T>, key: T -> SortKey, desc: bool): seq<T>
  {
    if rows == [] then [] else Insert(rows[0], OrderBy(rows[1..], key, desc), key, desc)
  }

  lemma {:induction false} InsertPermutes<T>(x: T, rows: seq<T>, key: T -> SortKey, desc: bool)
    ensures multiset(Insert(x, rows, key, desc)) == multiset(rows) + multiset{x}
  {
    if rows != [] && !InOrder(key(x), key(rows[0]), desc) {
      InsertPermutes(x, rows[1..], key, desc);
      assert rows == [rows[0]] + rows[1..];
    }
  }

  /** A row that goes before the head of a sorted sequence keeps it sorted. */
  lemma InsertAtFrontSorted<T>(x: T, rows: seq<T>, key: T -> SortKey, desc: bool)
    requires SortedBy(rows, key, desc) && rows != [] && InOrder(key(x), key(rows[0]), desc)
    ensures SortedBy([x] + rows, key, desc)
  {
    var r := [x] + rows;
    forall i, j | 0 <= i < j < |r| ensures InOrder(key(r[i]), key(r[j]), desc) {
      if i == 0 && j > 1 {
        InOrderTransitive(key(x), key(rows[0]), key(rows[j - 1]), desc);
      }
    }
  }

  /** The head stays first when it goes before `x` and before every row of a sorted tail. */
  lemma HeadBeforeSortedTail<T>(head: T, x: T, rows: seq<T>, tail: seq<T>, key: T -> SortKey, desc: bool)
    requires SortedBy([head] + rows, key, desc) && SortedBy(tail, key, desc)
    requires InOrder(key(head), key(x), desc)
    requires multiset(tail) == multiset(rows) + multiset{x}
    ensures SortedBy([head] + tail, key, desc)
  {
    var r := [head] + tail;
    forall i, j | 0 <= i < j < |r| ensures InOrder(key(r[i]), key(r[j]), desc) {
      if i == 0 {
        var y := tail[j - 1];
        assert y in multiset(tail);
        assert y in multiset(rows) || y == x;
        if y != x {
          var k :| 0 <= k < |rows| && rows[k] == y;
          var hr := [head] + rows;
          assert hr[0] == head && hr[k + 1] == y;
          assert InOrder(key(hr[0]), key(hr[k + 1]), desc);
        }
      }
    }
  }

  lemma {:induction false} InsertSorted<T>(x: T, rows: seq<T>, key: T -> SortKey, desc: bool)
    requires SortedBy(rows, key, desc)
    ensures SortedBy(Insert(x, rows, key, desc), key, desc)
  {
    if rows == [] {
    } else if InOrder(key(x), key(rows[0]), desc) {
      InsertAtFrontSorted(x, rows, key, desc);
    } else {
      InOrderTotal(key(x), key(rows[0]), desc);
      InsertSorted(x, rows[1..], key, desc);
      InsertPermutes(x, rows[1..], key, desc);
      assert [rows[0]] + rows[1..] == rows;
      HeadBeforeSortedTail(rows[0], x, rows[1..], Insert(x, rows[1..], key, desc), key, desc);
    }
  }

  /** Every row of the relation, and nothing else, comes back (as a multiset). */
  lemma {:induction false} OrderByPermutes<T>(rows: seq<T>, key: T -> SortKey, desc: bool)
    ensures multiset(OrderBy(rows, key, desc)) == multiset(rows)
  {
    if rows != [] {
      OrderByPermutes(rows[1..], key, desc);
      InsertPermutes(rows[0], OrderBy(rows[1..], key, desc), key, desc);
      assert rows == [rows[0]] + rows[1..];
    }
  }

  /** The rows come back ordered by the key in the requested direction. */
  lemma {:induction false} OrderBySorted<T>(rows: seq<T>, key: T -> SortKey, desc: bool)
    ensures SortedBy(OrderBy(rows, key, desc), key, desc)
  {
    if rows != [] {
      OrderBySorted(rows[1..], key, desc);
      InsertSorted(rows[0], OrderBy(rows[1..], key, desc), key, desc);
    }
  }

  // --------------------------------------------- LIMIT / OFFSET (assumption)

  function Min(a: int, b: int): int { if a <= b then a else b }

  /**
   * `LIMIT $l OFFSET $o`: a parameter that is not integer text fails with 22P02
   * when it is bound; a negative OFFSET fails with 2201X and, after it, a
   * negative LIMIT with 2201W; otherwise the window of rows after the offset.
   */
  function LimitOffset<T>(rows: seq<T>, limit: IntText, offset: IntText): (r: Result<seq<T>, ErrorValue>)
    ensures (limit.NotInteger? || offset.NotInteger?) ==> r == Err(DbError(InvalidTextRepresentation))
    ensures limit.Integer? && offset.Integer? ==>
      (r.Ok? <==> 0 <= limit.n && 0 <= offset.n)
    ensures limit.Integer? && offset.Integer? && offset.n < 0 ==> r == Err(DbError(InvalidRowCountInOffset))
    ensures limit.Integer? && offset.Integer? && 0 <= offset.n && limit.n < 0 ==>
      r == Err(DbError(InvalidRowCountInLimit))
    ensures r.Ok? ==> |r.value| == (if |rows| <= offset.n then 0 else Min(limit.n, |rows| - offset.n))
    ensures r.Ok? ==> forall i :: 0 <= i < |r.value| ==> offset.n + i < |rows| && r.value[i] == rows[offset.n + i]
  {
    if limit.NotInteger? || offset.NotInteger? then Err(DbError(InvalidTextRepresentation))
    else if offset.n < 0 then Err(DbError(InvalidRowCountInOffset))
    else if limit.n < 0 then Err(DbError(InvalidRowCountInLimit))
    else Ok(rows[Min(offset.n, |rows|)..Min(offset.n + limit.n, |rows|)])
  }

  /** `LIMIT 0`, or an offset at or past the last row, yields no rows. */
  lemma LimitOffsetPastTheEnd<T>(rows: seq<T>, limit: int, offset: int)
    requires 0 <= limit && 0 <= offset && (limit == 0 || |rows| <= offset)
    ensures LimitOffset(rows, Integer(limit), Integer(offset)) == Ok([])
  {
  }

  /** A page cut from ordered rows is still ordered. */
  lemma LimitOffsetKeepsOrder<T>(rows: seq<T>, key: T -> SortKey, desc: bool, limit: IntText, offset: IntText)
    requires SortedBy(rows, key, desc) && LimitOffset(rows, limit, offset).Ok?
    ensures SortedBy(LimitOffset(rows, limit, offset).value, key, desc)
  {
    var page := LimitOffset(rows, limit, offset).value;
    forall i, j | 0 <= i < j < |page| ensures InOrder(key(page[i]), key(page[j]), desc) {
      assert page[i] == rows[offset.n + i] && page[j] == rows[offset.n + j];
    }
  }

  /** A page holds at most `limit` rows, each one of the rows it was cut from. */
  lemma LimitOffsetWithin<T>(rows: seq<T>, limit: IntText, offset: IntText)
    requires LimitOffset(rows, limit, offset).Ok?
    ensures |LimitOffset(rows, limit, offset).value| <= limit.n
    ensures forall x :: x in LimitOffset(rows, limit, offset).value ==> x in rows
  {
    var page := LimitOffset(rows, limit, offset).value;
    forall x | x in page ensures x in rows {
      var i :| 0 <= i < |page| && page[i] == x;
      assert rows[offset.n + i] == x;
    }
  }
}
